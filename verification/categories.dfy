/**
 * The category fallback chains of the dashboard components. Most components take the
 * first non-empty of the five ANZSIC titles, then `class.title`, then `subClass.title`,
 * and finally "Uncategorized".
 */
module Categories {
  import opened Wrappers
  import opened Text
  import opened Records

  const Uncategorized := "Uncategorized"

  function EnrichedTitles(t: Transaction): seq<Option<string>> {
    [t.anzsic.subclass, t.anzsic.classTitle, t.anzsic.group, t.anzsic.subdivision, t.anzsic.division]
  }

  /** The seven candidate labels, most specific first. */
  function CategoryCandidates(t: Transaction): seq<Option<string>> {
    EnrichedTitles(t) + [ClassTitle(t), t.subClassTitle]
  }

  /** The chain without its default: the label the category filter compares. */
  function ResolvedCategory(t: Transaction): (r: Option<string>)
    ensures r.Some? <==> exists i :: 0 <= i < 7 && Truthy(CategoryCandidates(t)[i])
    ensures r.Some? ==>
              (r.value != "" &&
               exists i :: 0 <= i < 7 && CategoryCandidates(t)[i] == r && NoneTruthyBefore(CategoryCandidates(t), i))
  {
    FirstTruthy(CategoryCandidates(t))
  }

  /** The displayed category: the chain, falling back to "Uncategorized". */
  function DisplayCategory(t: Transaction): (r: string)
    ensures r != ""
    ensures ResolvedCategory(t).Some? ==> r == ResolvedCategory(t).value
    ensures (forall i :: 0 <= i < 7 ==> !Truthy(CategoryCandidates(t)[i])) ==> r == Uncategorized
  {
    OrElse(ResolvedCategory(t), Uncategorized)
  }

  /** The most specific level wins: a non-empty ANZSIC subclass title is always the category. */
  lemma SubclassFirst(t: Transaction)
    requires Truthy(t.anzsic.subclass)
    ensures DisplayCategory(t) == t.anzsic.subclass.value
  {
    assert CategoryCandidates(t)[0] == t.anzsic.subclass;
  }

  /** With no enrichment, the category is `class.title`, else `subClass.title`, else "Uncategorized". */
  lemma UnenrichedFallback(t: Transaction)
    requires forall i :: 0 <= i < 5 ==> !Truthy(EnrichedTitles(t)[i])
    ensures DisplayCategory(t) == OrElse(ClassTitle(t), OrElse(t.subClassTitle, Uncategorized))
  {
    var c := CategoryCandidates(t);
    assert forall i :: 0 <= i < 5 ==> c[i] == EnrichedTitles(t)[i];
    assert c[5] == ClassTitle(t) && c[6] == t.subClassTitle;
    if Truthy(ClassTitle(t)) {
      assert Truthy(c[5]);
    } else if Truthy(t.subClassTitle) {
      assert Truthy(c[6]);
    } else {
      assert forall i :: 0 <= i < 7 ==> !Truthy(c[i]);
    }
  }
}
