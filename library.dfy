/** The textbook library page: the grade / subject / year filters, the query
    string of the filtered request, and which list of textbooks is shown. */
module Library {
  import opened Common

  datatype Textbook = Textbook(
    id: int, gradeId: int, subjectId: int, title: string, author: string,
    publisher: string, year: int, pdfUrl: Option<string>, gradeName: Option<string>,
    subjectName: Option<string>, subjectIcon: Option<string>)

  datatype Grade = Grade(id: int, gradeNumber: int, name: string)

  datatype Subject = Subject(id: int, name: string, icon: string)

  /** The address of the catalogue endpoint. */
  const Endpoint := "https://functions.poehali.dev/1c946bd1-e639-4d28-a547-ab3c32f5f380/"

  /** The three filter selections, `number | null` each. */
  datatype Filters = Filters(grade: Option<int>, subject: Option<int>, year: Option<int>)

  const NoFilters := Filters(None, None, None)

  /** `selectedGrade || selectedSubject || selectedYear`. */
  predicate ShouldFetch(f: Filters) {
    IsSetNumber(f.grade) || IsSetNumber(f.subject) || IsSetNumber(f.year)
  }

  // ---------------------------------------------------------------------
  // URLSearchParams
  // ---------------------------------------------------------------------

  type Param = (string, string)

  /** The pieces joined with the separator between neighbours. */
  function Join(pieces: seq<string>, sep: char): (r: string)
    requires |pieces| >= 1
    ensures |r| >= |pieces[0]| && r[..|pieces[0]|] == pieces[0]
    ensures |pieces| > 1 ==> |r| > |pieces[0]| && r[|pieces[0]|] == sep
    ensures |pieces| == 1 ==> r == pieces[0]
  {
    if |pieces| == 1 then pieces[0] else pieces[0] + [sep] + Join(pieces[1..], sep)
  }

  /** The text split at every occurrence of the separator. */
  function Split(s: string, sep: char): (r: seq<string>)
    ensures |r| >= 1
    ensures forall i :: 0 <= i < |r| ==> sep !in r[i]
  {
    if s == [] then [""]
    else if s[0] == sep then [""] + Split(s[1..], sep)
    else var rest := Split(s[1..], sep); [[s[0]] + rest[0]] + rest[1..]
  }

  function PairText(p: Param): string {
    p.0 + "=" + p.1
  }

  /** `params.toString()`: `name=value` pairs joined by `&`. The names and
      values written by the page are fixed identifiers and decimal numerals,
      which need no percent-encoding. */
  function Serialize(params: seq<Param>): string {
    if params == [] then ""
    else Join(seq(|params|, i requires 0 <= i < |params| => PairText(params[i])), '&')
  }

  /** A query string read back: the pieces between `&`, each split at its
      first `=` (a piece without one has the empty value). */
  function Parse(query: string): seq<Param> {
    if query == [] then []
    else
      var pieces := Split(query, '&');
      seq(|pieces|, i requires 0 <= i < |pieces| =>
        var parts := Split(pieces[i], '=');
        if |parts| == 1 then (parts[0], "") else (parts[0], Join(parts[1..], '=')))
  }

  lemma {:induction false} SplitFree(a: string, sep: char)
    requires sep !in a
    ensures Split(a, sep) == [a]
  {
    if a != [] {
      assert sep !in a[1..];
      SplitFree(a[1..], sep);
      assert [a[0]] + a[1..] == a;
    }
  }

  lemma {:induction false} SplitAtSeparator(a: string, sep: char, b: string)
    requires sep !in a
    ensures Split(a + [sep] + b, sep) == [a] + Split(b, sep)
  {
    if a == [] {
      assert a + [sep] + b == [sep] + b;
      assert ([sep] + b)[1..] == b;
    } else {
      var s := a + [sep] + b;
      assert s[0] == a[0] && s[1..] == a[1..] + [sep] + b;
      assert sep !in a[1..];
      SplitAtSeparator(a[1..], sep, b);
      assert [a[0]] + a[1..] == a;
    }
  }

  /** Splitting undoes joining pieces free of the separator. */
  lemma {:induction false} SplitJoin(pieces: seq<string>, sep: char)
    requires |pieces| >= 1 && forall i :: 0 <= i < |pieces| ==> sep !in pieces[i]
    ensures Split(Join(pieces, sep), sep) == pieces
  {
    if |pieces| == 1 {
      SplitFree(pieces[0], sep);
    } else {
      SplitJoin(pieces[1..], sep);
      SplitAtSeparator(pieces[0], sep, Join(pieces[1..], sep));
      assert [pieces[0]] + pieces[1..] == pieces;
    }
  }

  /** Joining the pieces of a split gives the text back. */
  lemma {:induction false} JoinSplit(s: string, sep: char)
    ensures Join(Split(s, sep), sep) == s
  {
    if s != [] {
      var rest := Split(s[1..], sep);
      JoinSplit(s[1..], sep);
      if s[0] == sep {
        assert Split(s, sep) == [""] + rest;
        assert ([""] + rest)[1..] == rest;
        assert [s[0]] + s[1..] == s;
      } else {
        var first := [s[0]] + rest[0];
        assert Split(s, sep) == [first] + rest[1..];
        if |rest| == 1 {
          assert Join(rest, sep) == rest[0];
        } else {
          assert ([first] + rest[1..])[1..] == rest[1..];
          assert Join(rest, sep) == rest[0] + [sep] + Join(rest[1..], sep);
        }
        assert [s[0]] + s[1..] == s;
      }
    }
  }

  /** Neither `&` nor `=` occurs in a name or a value. */
  predicate PlainParams(params: seq<Param>) {
    forall i :: 0 <= i < |params| ==>
      '&' !in params[i].0 && '=' !in params[i].0 && '&' !in params[i].1 && '=' !in params[i].1
  }

  lemma SplitPair(p: Param)
    requires '=' !in p.0 && '=' !in p.1
    ensures Split(PairText(p), '=') == [p.0, p.1]
  {
    assert PairText(p) == p.0 + ['='] + p.1;
    SplitAtSeparator(p.0, '=', p.1);
    SplitFree(p.1, '=');
  }

  /** Reading a serialized list of plain parameters gives back the list. */
  lemma ParseSerialize(params: seq<Param>)
    requires PlainParams(params)
    ensures Parse(Serialize(params)) == params
  {
    if params != [] {
      var pairs := seq(|params|, i requires 0 <= i < |params| => PairText(params[i]));
      assert |PairText(params[0])| >= 1;
      forall i | 0 <= i < |pairs| ensures '&' !in pairs[i] {
        assert pairs[i] == params[i].0 + "=" + params[i].1;
      }
      SplitJoin(pairs, '&');
      var r := Parse(Serialize(params));
      assert |r| == |params|;
      forall i | 0 <= i < |params| ensures r[i] == params[i] {
        SplitPair(params[i]);
      }
    }
  }

  /** A decimal numeral holds neither `&` nor `=`. */
  lemma NumeralIsPlain(n: int)
    ensures '&' !in IntToString(n) && '=' !in IntToString(n)
  {
    var s := IntToString(n);
    if n >= 0 {
      assert forall i :: 0 <= i < |s| ==> IsDigit(s[i]);
    } else {
      var d := NatToString(-n);
      assert s == "-" + d;
      assert forall i :: 0 <= i < |d| ==> IsDigit(d[i]);
      assert forall i :: 1 <= i < |s| ==> s[i] == d[i - 1];
    }
  }

  /** The parameters appended by `fetchFilteredTextbooks`: `grade_id`,
      `subject_id`, `year` in this order, each only while its filter is in
      force, with the decimal text of the selected number. */
  function FilterParams(f: Filters): seq<Param> {
    (if IsSetNumber(f.grade) then [("grade_id", IntToString(f.grade.value))] else []) +
    (if IsSetNumber(f.subject) then [("subject_id", IntToString(f.subject.value))] else []) +
    (if IsSetNumber(f.year) then [("year", IntToString(f.year.value))] else [])
  }

  function ParamNames(params: seq<Param>): seq<string> {
    seq(|params|, i requires 0 <= i < |params| => params[i].0)
  }

  /** The names come in the fixed order. */
  lemma FilterParamsOrder(f: Filters)
    ensures IsSubsequence(ParamNames(FilterParams(f)), ["grade_id", "subject_id", "year"])
  {
    var names := ParamNames(FilterParams(f));
    var g, s, y := IsSetNumber(f.grade), IsSetNumber(f.subject), IsSetNumber(f.year);
    // The eight combinations, each with its list of names.
    if g && s && y { assert names == ["grade_id", "subject_id", "year"]; }
    else if g && s { assert names == ["grade_id", "subject_id"]; }
    else if g && y { assert names == ["grade_id", "year"]; }
    else if s && y { assert names == ["subject_id", "year"]; }
    else if g { assert names == ["grade_id"]; }
    else if s { assert names == ["subject_id"]; }
    else if y { assert names == ["year"]; }
    else { assert names == []; }
  }

  /** A name is present exactly when its filter is in force, with the decimal
      text of the selected number as its value; there is no parameter at all
      exactly when no request is made. */
  lemma FilterParamsSpec(f: Filters)
    ensures IsSetNumber(f.grade) ==> ("grade_id", IntToString(f.grade.value)) in FilterParams(f)
    ensures IsSetNumber(f.subject) ==> ("subject_id", IntToString(f.subject.value)) in FilterParams(f)
    ensures IsSetNumber(f.year) ==> ("year", IntToString(f.year.value)) in FilterParams(f)
    ensures forall p :: p in FilterParams(f) ==>
              (IsSetNumber(f.grade) && p == ("grade_id", IntToString(f.grade.value))) ||
              (IsSetNumber(f.subject) && p == ("subject_id", IntToString(f.subject.value))) ||
              (IsSetNumber(f.year) && p == ("year", IntToString(f.year.value)))
    ensures FilterParams(f) == [] <==> !ShouldFetch(f)
  {
  }

  lemma FilterParamsPlain(f: Filters)
    ensures PlainParams(FilterParams(f))
  {
    if IsSetNumber(f.grade) { NumeralIsPlain(f.grade.value); }
    if IsSetNumber(f.subject) { NumeralIsPlain(f.subject.value); }
    if IsSetNumber(f.year) { NumeralIsPlain(f.year.value); }
  }

  /** A selection as the request sees it: a value that is not in force is none. */
  function InForce(o: Option<int>): Option<int> {
    if IsSetNumber(o) then o else None
  }

  function Effective(f: Filters): Filters {
    Filters(InForce(f.grade), InForce(f.subject), InForce(f.year))
  }

  /** The parameters determine the filters in force, and only those. */
  lemma {:induction false} ParamsIdentifyFilters(f: Filters, f': Filters)
    ensures FilterParams(f) == FilterParams(f') <==> Effective(f) == Effective(f')
  {
    FilterParamsSpec(f);
    FilterParamsSpec(f');
    if FilterParams(f) == FilterParams(f') {
      if IsSetNumber(f.grade) || IsSetNumber(f'.grade) {
        assert IsSetNumber(f.grade) && IsSetNumber(f'.grade);
        IntToStringInjective(f.grade.value, f'.grade.value);
      }
      if IsSetNumber(f.subject) || IsSetNumber(f'.subject) {
        assert IsSetNumber(f.subject) && IsSetNumber(f'.subject);
        IntToStringInjective(f.subject.value, f'.subject.value);
      }
      if IsSetNumber(f.year) || IsSetNumber(f'.year) {
        assert IsSetNumber(f.year) && IsSetNumber(f'.year);
        IntToStringInjective(f.year.value, f'.year.value);
      }
    }
  }

  /** The address of the filtered request. */
  function FilteredUrl(f: Filters): string {
    Endpoint + "?resource=textbooks&" + Serialize(FilterParams(f))
  }

  /** The URLSearchParams object: appended name/value pairs, in order. */
  class SearchParams {
    var entries: seq<Param>

    constructor ()
      ensures entries == []
    {
      entries := [];
    }

    method Append(name: string, value: string)
      modifies this
      ensures entries == old(entries) + [(name, value)]
    {
      entries := entries + [(name, value)];
    }

    function ToString(): string
      reads this
    {
      Serialize(entries)
    }
  }

  /** Two selections lead to the same request exactly when the same filters
      are in force with the same values. */
  lemma RequestIdentifiesFilters(f: Filters, f': Filters)
    ensures FilteredUrl(f) == FilteredUrl(f') <==> Effective(f) == Effective(f')
  {
    ParamsIdentifyFilters(f, f');
    var prefix := Endpoint + "?resource=textbooks&";
    if FilteredUrl(f) == FilteredUrl(f') {
      assert FilteredUrl(f)[|prefix|..] == Serialize(FilterParams(f));
      assert FilteredUrl(f')[|prefix|..] == Serialize(FilterParams(f'));
      FilterParamsPlain(f);
      FilterParamsPlain(f');
      ParseSerialize(FilterParams(f));
      ParseSerialize(FilterParams(f'));
    }
  }

  /** `fetchFilteredTextbooks`' request address, built by successive appends. */
  method BuildFilteredUrl(f: Filters) returns (url: string)
    ensures url == FilteredUrl(f)
  {
    var params := new SearchParams();
    if IsSetNumber(f.grade) { params.Append("grade_id", IntToString(f.grade.value)); }
    if IsSetNumber(f.subject) { params.Append("subject_id", IntToString(f.subject.value)); }
    if IsSetNumber(f.year) { params.Append("year", IntToString(f.year.value)); }
    assert params.entries == FilterParams(f);
    url := Endpoint + "?resource=textbooks&" + params.ToString();
  }

  // ---------------------------------------------------------------------
  // The shown textbooks
  // ---------------------------------------------------------------------

  /** The textbooks after the selections change from `before` to `after`:
      the effect runs only when a selection changed, and requests only while
      a filter is in force. `respond` stands for the endpoint: the
      `textbooks` field of its answer to an address, `None` when absent. */
  function TextbooksAfter(shown: seq<Textbook>, before: Filters, after: Filters,
                          respond: string -> Option<seq<Textbook>>): seq<Textbook> {
    if after != before && ShouldFetch(after) then OrEmpty(respond(FilteredUrl(after))) else shown
  }

  /** "Reset filters" makes no request: the list shown before stays. */
  lemma ResetKeepsTextbooks(shown: seq<Textbook>, before: Filters, respond: string -> Option<seq<Textbook>>)
    ensures TextbooksAfter(shown, before, NoFilters, respond) == shown
  {
  }

  /** Selecting a filter shows the answer to exactly that filter's request,
      or nothing when the answer has no textbook list. */
  lemma SelectionFetches(shown: seq<Textbook>, before: Filters, after: Filters, respond: string -> Option<seq<Textbook>>)
    requires after != before && ShouldFetch(after)
    ensures TextbooksAfter(shown, before, after, respond) == OrEmpty(respond(FilteredUrl(after)))
    ensures respond(FilteredUrl(after)).None? ==> TextbooksAfter(shown, before, after, respond) == []
    ensures Parse(FilteredUrl(after)[|Endpoint + "?resource=textbooks&"|..]) == FilterParams(after)
  {
    FilterParamsPlain(after);
    ParseSerialize(FilterParams(after));
    var prefix := Endpoint + "?resource=textbooks&";
    assert FilteredUrl(after)[|prefix|..] == Serialize(FilterParams(after));
  }

  class LibraryPage {
    var textbooks: seq<Textbook>
    var grades: seq<Grade>
    var subjects: seq<Subject>
    var availableYears: seq<int>
    var filters: Filters

    constructor ()
      ensures textbooks == [] && grades == [] && subjects == [] && availableYears == []
      ensures filters == NoFilters
    {
      textbooks, grades, subjects, availableYears := [], [], [], [];
      filters := NoFilters;
    }

    /** The first load: each list is the answer's field, or `[]` when absent. */
    method Loaded(gradesField: Option<seq<Grade>>, subjectsField: Option<seq<Subject>>,
                  textbooksField: Option<seq<Textbook>>, yearsField: Option<seq<int>>)
      modifies this
      ensures grades == OrEmpty(gradesField) && subjects == OrEmpty(subjectsField)
      ensures textbooks == OrEmpty(textbooksField) && availableYears == OrEmpty(yearsField)
      ensures filters == old(filters)
    {
      grades := if gradesField.Some? then gradesField.value else [];
      subjects := if subjectsField.Some? then subjectsField.value else [];
      textbooks := if textbooksField.Some? then textbooksField.value else [];
      availableYears := if yearsField.Some? then yearsField.value else [];
    }

    /** New selections, followed by the effect that depends on them. */
    method Select(after: Filters, respond: string -> Option<seq<Textbook>>)
      modifies this
      ensures filters == after
      ensures textbooks == TextbooksAfter(old(textbooks), old(filters), after, respond)
      ensures grades == old(grades) && subjects == old(subjects) && availableYears == old(availableYears)
    {
      var before := filters;
      filters := after;
      if filters != before && (IsSetNumber(filters.grade) || IsSetNumber(filters.subject) || IsSetNumber(filters.year)) {
        var url := BuildFilteredUrl(filters);
        var data := respond(url);
        textbooks := if data.Some? then data.value else [];
      }
    }

    /** The "reset filters" button. */
    method Reset(respond: string -> Option<seq<Textbook>>)
      modifies this
      ensures filters == NoFilters && textbooks == old(textbooks)
      ensures grades == old(grades) && subjects == old(subjects) && availableYears == old(availableYears)
    {
      Select(NoFilters, respond);
    }
  }
}
