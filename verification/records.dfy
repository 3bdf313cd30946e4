/**
 * The entities the dashboard receives from the bank-data API, reduced to the fields
 * the modelled code reads. Money is in integer cents; a missing or empty JSON field
 * is `None` or the empty string, which JavaScript treats as falsy.
 */
module Records {
  import opened Wrappers
  import opened Calendar

  /** The titles of the ANZSIC enrichment levels, from most to least specific. */
  datatype Anzsic = Anzsic(
    subclass: Option<string>,
    classTitle: Option<string>,
    group: Option<string>,
    subdivision: Option<string>,
    division: Option<string>)

  /**
   * A transaction's `class`: the API sends a plain string (`"payment"`), while most
   * components read it as an object with a `title`.
   */
  datatype ClassField = ClassText(text: string) | ClassRecord(title: string)

  /**
   * A date string as sent: absent or empty (falsy), present but not a date (JavaScript's
   * invalid `Date`, against which every comparison is false), or a calendar date.
   */
  datatype DateField = Missing | Unparsable | Parsed(date: CalendarDate)

  datatype Transaction = Transaction(
    id: string,
    description: Option<string>,
    amount: int,
    postDate: DateField,
    transactionDate: DateField,
    cls: Option<ClassField>,
    subClassTitle: Option<string>,
    anzsic: Anzsic,
    businessName: Option<string>)

  /** `t.class?.title`: present only when `class` is an object. */
  function ClassTitle(t: Transaction): Option<string> {
    match t.cls
    case Some(ClassRecord(title)) => Some(title)
    case _ => None
  }

  datatype Account = Account(
    id: string,
    name: string,
    balance: Option<int>,
    accountNo: Option<string>,
    accountNumber: Option<string>,
    classType: Option<string>)

  datatype StepResult = StepResult(title: Option<string>, detail: Option<string>)

  /** One stage of a bank-data job; `status` is the raw string the API sends. */
  datatype Step = Step(id: string, title: string, status: string, result: Option<StepResult>)

  /** An item of an API error body's `data` array. */
  datatype ErrorDetail = ErrorDetail(title: Option<string>, detail: Option<string>)

  /**
   * A job resource as returned by the job endpoint: overall status, ordered steps,
   * and the optional `message`, `data`, `error` and `links.source` fields.
   */
  datatype Job = Job(
    id: string,
    status: string,
    steps: seq<Step>,
    message: Option<string>,
    data: seq<ErrorDetail>,
    error: Option<string>,
    sourceLink: Option<string>)

  /** One job fetch: either it threw (network or JSON error) or it gave a response and its parsed body. */
  datatype FetchResult = FetchFailed(reason: string) | Fetched(ok: bool, job: Job)

  /** `data?.[0]?.detail`. */
  function FirstDetail(job: Job): Option<string> {
    if |job.data| == 0 then None else job.data[0].detail
  }

  /**
   * The `basiq_user` record kept in browser storage: written at sign-up, extended with the
   * consent link, and marked connected (with the final job id) after a successful bank connection.
   */
  datatype StoredUser = StoredUser(
    userId: string,
    email: string,
    clientAccessToken: string,
    consentUrl: Option<string>,
    connectionStatus: Option<string>,
    jobId: Option<string>)
}
