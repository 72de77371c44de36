/** The catalogue's home page: the subject search with its results dropdown,
    and the subject grid narrowed to the selected subject. */
module IndexPage {
  import opened Common

  datatype Subject = Subject(id: int, name: string, icon: string, color: string, tasks: int, trending: bool)

  /** The subject catalogue the page is built from. */
  const Catalogue: seq<Subject> := [
    Subject(1, "Математика", "Calculator", "bg-gradient-to-br from-purple-500 to-purple-700", 1247, true),
    Subject(2, "Русский язык", "BookOpen", "bg-gradient-to-br from-blue-500 to-blue-700", 892, false),
    Subject(3, "Литература", "BookMarked", "bg-gradient-to-br from-orange-500 to-orange-700", 654, true),
    Subject(4, "История", "Scroll", "bg-gradient-to-br from-teal-500 to-teal-700", 523, false),
    Subject(5, "Английский язык", "Languages", "bg-gradient-to-br from-pink-500 to-pink-700", 734, true),
    Subject(6, "Физика", "Atom", "bg-gradient-to-br from-cyan-500 to-cyan-700", 956, true),
    Subject(7, "Химия", "Flask", "bg-gradient-to-br from-green-500 to-green-700", 678, true),
    Subject(8, "Информатика", "Code", "bg-gradient-to-br from-violet-500 to-violet-700", 543, true),
    Subject(9, "ГДЗ", "GraduationCap", "bg-gradient-to-br from-indigo-500 to-indigo-700", 2156, true)
  ]

  // ---------------------------------------------------------------------
  // Search
  // ---------------------------------------------------------------------

  /** `subject.name.toLowerCase().includes(searchQuery.toLowerCase())`. */
  predicate MatchesQuery(subject: Subject, query: string) {
    Contains(Lower(subject.name), Lower(query))
  }

  function SearchResults(subjects: seq<Subject>, query: string): seq<Subject> {
    Filter(subjects, s => MatchesQuery(s, query))
  }

  /** The results keep the catalogue's order and are exactly the subjects whose
      lower-cased name has the lower-cased query at some position. */
  lemma SearchResultsSpec(subjects: seq<Subject>, query: string)
    ensures IsSubsequence(SearchResults(subjects, query), subjects)
    ensures forall s :: multiset(SearchResults(subjects, query))[s] == if MatchesQuery(s, query) then multiset(subjects)[s] else 0
    ensures forall s :: s in SearchResults(subjects, query) <==>
              s in subjects && exists i :: OccursAt(Lower(s.name), Lower(query), i)
  {
    var keep := s => MatchesQuery(s, query);
    FilterIsSubsequence(subjects, keep);
    forall s ensures multiset(Filter(subjects, keep))[s] == if keep(s) then multiset(subjects)[s] else 0 {
      FilterCounts(subjects, keep, s);
    }
    forall s ensures s in Filter(subjects, keep) <==> s in subjects && keep(s) {
      FilterMembership(subjects, keep, s);
    }
  }

  /** The empty query matches every subject. */
  lemma EmptyQueryMatchesAll(subjects: seq<Subject>)
    ensures SearchResults(subjects, "") == subjects
  {
    assert Lower("") == "";
    forall i | 0 <= i < |subjects| ensures MatchesQuery(subjects[i], "") {
      ContainsEmpty(Lower(subjects[i].name));
    }
    FilterAllKept(subjects, s => MatchesQuery(s, ""));
  }

  /** The search does not depend on the case of the query. */
  lemma SearchIgnoresQueryCase(subjects: seq<Subject>, query: string)
    ensures SearchResults(subjects, Lower(query)) == SearchResults(subjects, query)
  {
    LowerIdempotent(query);
    FilterCongruent(subjects, s => MatchesQuery(s, Lower(query)), s => MatchesQuery(s, query));
  }

  /** Typing a subject's full name, in any case, lists that subject. */
  lemma FullNameFindsSubject(subjects: seq<Subject>, k: int)
    requires 0 <= k < |subjects|
    ensures subjects[k] in SearchResults(subjects, subjects[k].name)
    ensures subjects[k] in SearchResults(subjects, Lower(subjects[k].name))
  {
    var t := Lower(subjects[k].name);
    assert OccursAt(t, t, 0);
    FilterMembership(subjects, s => MatchesQuery(s, subjects[k].name), subjects[k]);
    SearchIgnoresQueryCase(subjects, subjects[k].name);
  }

  /** `{searchQuery && ...}`: the dropdown is drawn only for a non-empty query. */
  predicate DropdownShown(query: string) {
    query != ""
  }

  /** The dropdown's "nothing found" line. */
  predicate NothingFound(subjects: seq<Subject>, query: string) {
    DropdownShown(query) && SearchResults(subjects, query) == []
  }

  lemma NothingFoundMeansNoMatch(subjects: seq<Subject>, query: string)
    ensures NothingFound(subjects, query) <==>
              query != "" && forall s :: s in subjects ==> !MatchesQuery(s, query)
  {
    SearchResultsSpec(subjects, query);
    if query != "" && forall s :: s in subjects ==> !MatchesQuery(s, query) {
      FilterNoneKept(subjects, s => MatchesQuery(s, query));
    }
  }

  // ---------------------------------------------------------------------
  // The subject grid
  // ---------------------------------------------------------------------

  /** `!selectedSubject || subject.name === selectedSubject`. */
  predicate ShownInGrid(subject: Subject, selected: Option<string>) {
    !IsSetText(selected) || subject.name == selected.value
  }

  function GridSubjects(subjects: seq<Subject>, selected: Option<string>): seq<Subject> {
    Filter(subjects, s => ShownInGrid(s, selected))
  }

  lemma GridSpec(subjects: seq<Subject>, selected: Option<string>)
    ensures IsSubsequence(GridSubjects(subjects, selected), subjects)
    ensures forall s :: multiset(GridSubjects(subjects, selected))[s] == if ShownInGrid(s, selected) then multiset(subjects)[s] else 0
    ensures forall s :: s in GridSubjects(subjects, selected) <==>
              s in subjects && (selected.None? || selected.value == "" || s.name == selected.value)
  {
    var keep := s => ShownInGrid(s, selected);
    FilterIsSubsequence(subjects, keep);
    forall s ensures multiset(Filter(subjects, keep))[s] == if keep(s) then multiset(subjects)[s] else 0 {
      FilterCounts(subjects, keep, s);
    }
    forall s ensures s in Filter(subjects, keep) <==> s in subjects && keep(s) {
      FilterMembership(subjects, keep, s);
    }
  }

  lemma NoSelectionShowsAll(subjects: seq<Subject>)
    ensures GridSubjects(subjects, None) == subjects
  {
    FilterAllKept(subjects, s => ShownInGrid(s, None));
  }

  predicate DistinctNames(subjects: seq<Subject>) {
    forall i, j :: 0 <= i < |subjects| && 0 <= j < |subjects| && i != j ==> subjects[i].name != subjects[j].name
  }

  /** Selecting a subject of a catalogue with distinct names (a search result
      or a card) leaves just that subject's card in the grid. */
  lemma SelectingShowsOneCard(subjects: seq<Subject>, k: int)
    requires DistinctNames(subjects) && 0 <= k < |subjects| && subjects[k].name != ""
    ensures GridSubjects(subjects, Some(subjects[k].name)) == [subjects[k]]
  {
    FilterUnique(subjects, s => ShownInGrid(s, Some(subjects[k].name)), k);
  }

  /** In the catalogue, selecting "Математика" leaves the one card. */
  lemma SelectingMathematics()
    ensures GridSubjects(Catalogue, Some("Математика")) == [Catalogue[0]]
  {
    var keep := s => ShownInGrid(s, Some("Математика"));
    assert forall i :: 1 <= i < |Catalogue| ==> |Catalogue[i].name| != 10 || Catalogue[i].name[0] != 'М';
    FilterUnique(Catalogue, keep, 0);
  }

  // ---------------------------------------------------------------------
  // The page's state cells
  // ---------------------------------------------------------------------

  class HomePage {
    var searchQuery: string
    var selectedSubject: Option<string>

    constructor ()
      ensures searchQuery == "" && selectedSubject == None
    {
      searchQuery, selectedSubject := "", None;
    }

    /** The subjects listed in the dropdown, when it is drawn. */
    function Dropdown(subjects: seq<Subject>): Option<seq<Subject>>
      reads this
    {
      if DropdownShown(searchQuery) then Some(SearchResults(subjects, searchQuery)) else None
    }

    function Grid(subjects: seq<Subject>): seq<Subject>
      reads this
    {
      GridSubjects(subjects, selectedSubject)
    }

    method TypeQuery(text: string)
      modifies this
      ensures searchQuery == text && selectedSubject == old(selectedSubject)
    {
      searchQuery := text;
    }

    /** Clicking a search result: the subject becomes the selection and the
        query is cleared, which closes the dropdown. */
    method ChooseResult(name: string)
      modifies this
      ensures selectedSubject == Some(name) && searchQuery == ""
      ensures Dropdown(Catalogue) == None
    {
      selectedSubject := Some(name);
      searchQuery := "";
    }

    /** Clicking a subject card selects it; the query is left as it was. */
    method ClickCard(name: string)
      modifies this
      ensures selectedSubject == Some(name) && searchQuery == old(searchQuery)
    {
      selectedSubject := Some(name);
    }

    /** The "reset filter" button. */
    method ResetFilter()
      modifies this
      ensures selectedSubject == None && searchQuery == old(searchQuery)
      ensures forall subjects :: Grid(subjects) == subjects
    {
      selectedSubject := None;
      forall subjects: seq<Subject> ensures Grid(subjects) == subjects {
        NoSelectionShowsAll(subjects);
      }
    }
  }
}
