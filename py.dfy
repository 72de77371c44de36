/** The few Python values and built-ins the serverless handlers rely on:
    database and request values, truthiness, `str()`, `int()` on text,
    `datetime.isoformat()`, and `dict.get` with a default. */
module Py {
  import opened Common

  /** A value read from a database row or a decoded JSON request body.
      A `datetime` is kept as its date and time-of-day texts. */
  datatype Value =
    | PyNone
    | PyBool(b: bool)
    | PyInt(i: int)
    | PyStr(s: string)
    | PyDateTime(date: string, time: string)

  /** The exceptions the handlers can raise. */
  datatype PyError = ValueError | TypeError | AttributeError | KeyError

  /** A `RealDictCursor` row, or a decoded JSON object. */
  type Row = map<string, Value>

  /** Python truthiness. */
  predicate Truthy(v: Value) {
    match v
    case PyNone => false
    case PyBool(b) => b
    case PyInt(i) => i != 0
    case PyStr(s) => s != ""
    case PyDateTime(_, _) => true
  }

  /** `str(v)`. */
  function Str(v: Value): string {
    match v
    case PyNone => "None"
    case PyBool(b) => if b then "True" else "False"
    case PyInt(i) => IntToString(i)
    case PyStr(s) => s
    case PyDateTime(date, time) => date + " " + time
  }

  /** `str()` is the identity on text; other values print as their literal. */
  lemma StrOfValues(s: string, i: int)
    ensures Str(PyStr(s)) == s
    ensures Str(PyNone) == "None" && Str(PyBool(true)) == "True" && Str(PyBool(false)) == "False"
    ensures Str(PyInt(i)) == IntToString(i) && Str(PyStr(IntToString(i))) == Str(PyInt(i))
  {
  }

  /** `v.isoformat()`: defined on a datetime only. */
  function IsoFormat(v: Value): (r: Result<string, PyError>)
    ensures r.Ok? <==> v.PyDateTime?
    ensures r.Ok? ==> r.value == v.date + "T" + v.time
  {
    match v
    case PyDateTime(date, time) => Ok(date + "T" + time)
    case _ => Err(AttributeError)
  }

  /** `d.get(key, default)`. */
  function Get(d: Row, key: string, default: Value): (v: Value)
    ensures key in d ==> v == d[key]
    ensures key !in d ==> v == default
  {
    if key in d then d[key] else default
  }

  /** `params.get(key)` on the query-string parameters, which are all text. */
  function Param(params: map<string, string>, key: string): (v: Option<string>)
    ensures key in params <==> v.Some?
    ensures key in params ==> v.value == params[key]
  {
    if key in params then Some(params[key]) else None
  }

  /** A query-string parameter is truthy when present and not empty. */
  predicate Supplied(params: map<string, string>, key: string) {
    key in params && params[key] != ""
  }

  // ---------------------------------------------------------------------
  // int(text)
  // ---------------------------------------------------------------------

  predicate IsSign(c: char) { c == '-' || c == '+' }

  /** `int(s)` for a text: surrounding whitespace, an optional sign and one or
      more ASCII digits; anything else raises `ValueError`. */
  function ParseInt(s: string): (r: Result<int, PyError>)
    ensures r.Err? ==> r.error == ValueError
  {
    ReadInt(Trim(s))
  }

  /** The trimmed text read as an integer literal. */
  function ReadInt(t: string): Result<int, PyError> {
    if |t| >= 2 && IsSign(t[0]) && AllDigits(t[1..]) then
      var magnitude: int := DigitsValue(t[1..]);
      Ok(if t[0] == '-' then -magnitude else magnitude)
    else if |t| >= 1 && AllDigits(t) then
      Ok(DigitsValue(t))
    else
      Err(ValueError)
  }

  /** Text that `int()` accepts is, after trimming, digits with at most a
      leading sign. */
  lemma ParseIntAccepts(s: string)
    ensures ParseInt(s).Ok? ==>
              Trim(s) != "" && forall i :: 0 <= i < |Trim(s)| ==> IsDigit(Trim(s)[i]) || (i == 0 && IsSign(Trim(s)[0]))
    ensures ParseInt(s).Ok? <==>
              (|Trim(s)| >= 2 && IsSign(Trim(s)[0]) && AllDigits(Trim(s)[1..])) || (|Trim(s)| >= 1 && AllDigits(Trim(s)))
  {
    var t := Trim(s);
    if |t| >= 2 && IsSign(t[0]) && AllDigits(t[1..]) {
      assert forall i :: 1 <= i < |t| ==> t[i] == t[1..][i - 1];
    }
  }

  lemma NumeralUntrimmed(n: int)
    ensures Trim(IntToString(n)) == IntToString(n)
  {
    var s := IntToString(n);
    assert !IsSpace(s[0]) by {
      if n >= 0 { assert IsDigit(NatToString(n)[0]); } else { assert s[0] == '-'; }
    }
    assert TrimStart(s) == s;
    assert !IsSpace(s[|s| - 1]) by {
      var d := if n >= 0 then NatToString(n) else NatToString(-n);
      assert s[|s| - 1] == d[|d| - 1] && IsDigit(d[|d| - 1]);
    }
    assert TrimEnd(s) == s;
  }

  lemma ReadIntOfNumeral(n: int)
    ensures ReadInt(IntToString(n)) == Ok(n)
  {
    var s := IntToString(n);
    if n >= 0 {
      DigitsValueOfNatToString(n);
      assert !IsSign(s[0]) by { assert IsDigit(s[0]); }
    } else {
      assert s[1..] == NatToString(-n) && s[0] == '-';
      DigitsValueOfNatToString(-n);
    }
  }

  /** `int(str(n)) == n`. */
  lemma ParseIntOfNumeral(n: int)
    ensures ParseInt(IntToString(n)) == Ok(n)
  {
    NumeralUntrimmed(n);
    ReadIntOfNumeral(n);
  }

  /** Surrounding whitespace does not change what `int()` reads. */
  lemma ParseIntIgnoresPadding(pre: string, s: string, post: string)
    requires AllSpace(pre) && AllSpace(post)
    ensures ParseInt(pre + s + post) == ParseInt(s)
  {
    TrimIgnoresPadding(pre, s, post);
  }

  /** Blank text is not a number. */
  lemma ParseIntRejectsBlank(s: string)
    requires AllSpace(s)
    ensures ParseInt(s) == Err(ValueError)
  {
    assert s + "" == s;
    TrimStartSkips(s, "");
    assert TrimStart(s) == [];
    assert Trim(s) == [];
    assert ReadInt([]) == Err(ValueError);
  }
}
