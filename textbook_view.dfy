/** The textbook page: finding the textbook named by the route, and the
    difficulty / page-number filter over its solutions. */
module TextbookView {
  import opened Common

  datatype Textbook = Textbook(
    id: int, gradeId: int, subjectId: int, title: string, author: string,
    publisher: string, year: int)

  datatype Solution = Solution(
    id: int, textbookId: int, gradeId: int, subjectId: int, pageNumber: int,
    taskNumber: string, taskText: string, solutionText: string, difficulty: string)

  /** JavaScript `Number(s)` restricted to blank text (0) and ASCII digit
      strings with optional surrounding whitespace; anything else is NaN (None). */
  function JsNumber(s: string): (r: Option<int>)
    ensures r.Some? ==> r.value >= 0
  {
    var t := Trim(s);
    if t == "" then Some(0)
    else if AllDigits(t) then Some(DigitsValue(t))
    else None
  }

  lemma JsNumberOfDecimal(n: nat)
    ensures JsNumber(NatToString(n)) == Some(n)
  {
    var s := NatToString(n);
    assert TrimStart(s) == s by { assert !IsSpace(s[0]); }
    assert TrimEnd(s) == s by { assert !IsSpace(s[|s| - 1]); }
    DigitsValueOfNatToString(n);
  }

  /** `Array.prototype.find`: the first element with the given id. */
  function FindById(ts: seq<Textbook>, id: int): (r: Option<Textbook>) {
    if ts == [] then None
    else if ts[0].id == id then Some(ts[0])
    else FindById(ts[1..], id)
  }

  /** `textbooks?.find(t => t.id === Number(routeId)) || null`. */
  function FindTextbook(textbooks: Option<seq<Textbook>>, routeId: string): Option<Textbook> {
    match (textbooks, JsNumber(routeId))
    case (Some(ts), Some(n)) => FindById(ts, n)
    case _ => None
  }

  lemma {:induction false} FindByIdSpec(ts: seq<Textbook>, id: int)
    ensures FindById(ts, id).Some? ==>
              exists i :: 0 <= i < |ts| && ts[i] == FindById(ts, id).value && ts[i].id == id
                          && forall j :: 0 <= j < i ==> ts[j].id != id
    ensures FindById(ts, id).None? <==> forall i :: 0 <= i < |ts| ==> ts[i].id != id
  {
    if ts != [] && ts[0].id != id {
      FindByIdSpec(ts[1..], id);
      if FindById(ts, id).Some? {
        var i :| 0 <= i < |ts| - 1 && ts[1..][i] == FindById(ts, id).value && ts[1..][i].id == id
                 && forall j :: 0 <= j < i ==> ts[1..][j].id != id;
        assert ts[i + 1] == FindById(ts, id).value && forall j :: 0 <= j < i + 1 ==> ts[j].id != id;
      }
      assert (forall i :: 0 <= i < |ts| ==> ts[i].id != id) <==> (forall i :: 0 <= i < |ts| - 1 ==> ts[1..][i].id != id);
    }
  }

  /** The route "/textbook/<n>" shows the first textbook with id n, and the
      "not found" card when there is none. */
  lemma FindTextbookByRoute(ts: seq<Textbook>, n: nat)
    ensures FindTextbook(Some(ts), NatToString(n)) == FindById(ts, n)
    ensures FindTextbook(Some(ts), NatToString(n)).Some? ==>
              exists i :: 0 <= i < |ts| && ts[i] == FindTextbook(Some(ts), NatToString(n)).value && ts[i].id == n
                          && forall j :: 0 <= j < i ==> ts[j].id != n
    ensures FindTextbook(Some(ts), NatToString(n)).None? <==> forall i :: 0 <= i < |ts| ==> ts[i].id != n
  {
    JsNumberOfDecimal(n);
    FindByIdSpec(ts, n);
  }

  /** A response without a textbook list shows the "not found" card. */
  lemma NoTextbookList(routeId: string)
    ensures FindTextbook(None, routeId).None?
  {
  }

  // ---------------------------------------------------------------------
  // Solutions
  // ---------------------------------------------------------------------

  /** `solutionsData.solutions || []`. */
  function LoadedSolutions(solutions: Option<seq<Solution>>): seq<Solution> {
    OrEmpty(solutions)
  }

  /** The page field matches when it is empty or equals the page number's text. */
  predicate KeepSolution(sol: Solution, difficulty: Option<string>, searchPage: string) {
    (!IsSetText(difficulty) || sol.difficulty == difficulty.value) &&
    (searchPage == "" || IntToString(sol.pageNumber) == searchPage)
  }

  function FilteredSolutions(solutions: seq<Solution>, difficulty: Option<string>, searchPage: string): seq<Solution> {
    Filter(solutions, sol => KeepSolution(sol, difficulty, searchPage))
  }

  lemma FilteredSolutionsSpec(solutions: seq<Solution>, difficulty: Option<string>, searchPage: string)
    ensures IsSubsequence(FilteredSolutions(solutions, difficulty, searchPage), solutions)
    ensures forall sol :: multiset(FilteredSolutions(solutions, difficulty, searchPage))[sol] == if KeepSolution(sol, difficulty, searchPage) then multiset(solutions)[sol] else 0
    ensures forall sol :: sol in FilteredSolutions(solutions, difficulty, searchPage) <==>
              sol in solutions && (difficulty.None? || difficulty.value == "" || sol.difficulty == difficulty.value)
                               && (searchPage == "" || IntToString(sol.pageNumber) == searchPage)
  {
    var keep := sol => KeepSolution(sol, difficulty, searchPage);
    FilterIsSubsequence(solutions, keep);
    forall sol ensures multiset(Filter(solutions, keep))[sol] == if keep(sol) then multiset(solutions)[sol] else 0 {
      FilterCounts(solutions, keep, sol);
    }
    forall sol ensures sol in Filter(solutions, keep) <==> sol in solutions && keep(sol) {
      FilterMembership(solutions, keep, sol);
    }
  }

  /** Searching for the decimal text of page n keeps exactly the solutions on page n. */
  lemma PageSearchMatchesPage(sol: Solution, n: int)
    ensures KeepSolution(sol, None, IntToString(n)) <==> sol.pageNumber == n
  {
    if IntToString(sol.pageNumber) == IntToString(n) {
      IntToStringInjective(sol.pageNumber, n);
    }
  }

  /** A page search with a leading zero ("05") matches no page number. */
  lemma LeadingZeroMatchesNothing(solutions: seq<Solution>, difficulty: Option<string>, searchPage: string)
    requires |searchPage| >= 2 && searchPage[0] == '0'
    ensures FilteredSolutions(solutions, difficulty, searchPage) == []
  {
    forall i | 0 <= i < |solutions|
      ensures !KeepSolution(solutions[i], difficulty, searchPage)
    {
      // A decimal numeral of two characters or more starts with '-' or a non-zero digit.
      var n := solutions[i].pageNumber;
      if n >= 0 {
        assert IntToString(n) == NatToString(n);
      }
    }
    FilterNoneKept(solutions, sol => KeepSolution(sol, difficulty, searchPage));
  }

  /** The "reset filters" button (null, '') brings back every solution. */
  lemma ResetShowsAll(solutions: seq<Solution>)
    ensures FilteredSolutions(solutions, None, "") == solutions
  {
    FilterAllKept(solutions, sol => KeepSolution(sol, None, ""));
  }

  /** The solution count in the tab and the side panel is that of all
      solutions, whatever the filters. */
  function SolutionCount(solutions: seq<Solution>): nat {
    |solutions|
  }

  lemma CountIgnoresFilters(solutions: seq<Solution>, difficulty: Option<string>, searchPage: string)
    ensures |FilteredSolutions(solutions, difficulty, searchPage)| <= SolutionCount(solutions)
    ensures SolutionCount(LoadedSolutions(None)) == 0
  {
  }
}
