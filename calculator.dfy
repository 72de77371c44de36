/** The calculator page: three state cells (`display`, `equation`, `result`)
    changed by key presses. The expression evaluator (`eval`) and JavaScript's
    number-to-text conversion are parameters: `evaluate` yields None where
    `eval` throws, and `toText` renders a value. */
module Calculator {
  import opened Common

  datatype State = State(display: string, equation: string, result: Option<real>)

  const Initial := State("0", "", None)

  /** What the display shows after a failed evaluation. */
  const ErrorText := "Ошибка"

  /** The sixteen keys of the keypad, row by row. */
  const Buttons: seq<string> := ["7", "8", "9", "÷", "4", "5", "6", "×", "1", "2", "3", "-", "0", ".", "=", "+"]

  predicate IsOperator(key: string) {
    key == "÷" || key == "×" || key == "-" || key == "+"
  }

  // ---------------------------------------------------------------------
  // One key press, as a function of the state
  // ---------------------------------------------------------------------

  /** A digit or point key: replaces a lone "0", otherwise is appended. */
  function NumberKey(s: State, key: string): (r: State)
    ensures r.equation == s.equation && r.result == s.result
    ensures s.display == "0" ==> r.display == key
    ensures s.display != "0" ==> r.display == s.display + key
  {
    s.(display := if s.display == "0" then key else s.display + key)
  }

  /** An operator key: the display and the operator become the pending
      equation (any earlier one is discarded) and the display is reset. */
  function OperatorKey(s: State, op: string): (r: State)
    ensures r.equation == s.display + " " + op + " "
    ensures r.display == "0" && r.result == s.result
  {
    s.(equation := s.display + " " + op + " ", display := "0")
  }

  /** JavaScript `s.replace(c, d)` for a one-character pattern: only the
      first occurrence is replaced. */
  function ReplaceFirst(s: string, from: char, to: char): (r: string)
    ensures |r| == |s|
  {
    if s == [] then []
    else if s[0] == from then [to] + s[1..]
    else [s[0]] + ReplaceFirst(s[1..], from, to)
  }

  lemma {:induction false} ReplaceFirstAbsent(s: string, from: char, to: char)
    requires from !in s
    ensures ReplaceFirst(s, from, to) == s
  {
    if s != [] {
      assert s[0] != from && from !in s[1..];
      ReplaceFirstAbsent(s[1..], from, to);
    }
  }

  /** The occurrence replaced is the first one; the rest is left alone. */
  lemma {:induction false} ReplaceFirstAt(a: string, b: string, from: char, to: char)
    requires from !in a
    ensures ReplaceFirst(a + [from] + b, from, to) == a + [to] + b
  {
    if a != [] {
      assert (a + [from] + b)[1..] == a[1..] + [from] + b;
      assert from !in a[1..];
      ReplaceFirstAt(a[1..], b, from, to);
    }
  }

  /** The text handed to the evaluator: pending equation followed by the
      display, with the first '×' and the first '÷' made JavaScript operators. */
  function EvaluatedText(s: State): string {
    ReplaceFirst(ReplaceFirst(s.equation + s.display, '×', '*'), '÷', '/')
  }

  /** The "=" key: on success the value becomes the result and, as text, the
      display, and the equation is cleared; on failure only the display
      changes, to the error text. */
  function EqualKey(s: State, evaluate: string -> Option<real>, toText: real -> string): (r: State)
    ensures evaluate(EvaluatedText(s)).Some? ==>
              r.result == evaluate(EvaluatedText(s)) && r.equation == ""
              && r.display == toText(evaluate(EvaluatedText(s)).value)
    ensures evaluate(EvaluatedText(s)).None? ==>
              r.display == ErrorText && r.equation == s.equation && r.result == s.result
  {
    match evaluate(EvaluatedText(s))
    case Some(v) => State(toText(v), "", Some(v))
    case None => s.(display := ErrorText)
  }

  /** The clear button, from any state. */
  function ClearKey(s: State): (r: State)
    ensures r.display == "0" && r.equation == "" && r.result.None?
  {
    Initial
  }

  /** Keypad dispatch: "=" evaluates, the four operators go to the operator
      handler, every other key to the number handler. */
  function Press(s: State, key: string, evaluate: string -> Option<real>, toText: real -> string): State {
    if key == "=" then EqualKey(s, evaluate, toText)
    else if IsOperator(key) then OperatorKey(s, key)
    else NumberKey(s, key)
  }

  /** The answer panel is rendered exactly when there is a result. */
  predicate ShowsAnswer(s: State) {
    s.result.Some?
  }

  // ---------------------------------------------------------------------
  // Properties
  // ---------------------------------------------------------------------

  /** Each keypad button reaches the handler its text calls for: the digits
      and the point the number handler, "=" the equals handler, and the
      remaining four buttons, exactly the operators, the operator handler. */
  lemma KeypadRoutes(s: State, i: nat, evaluate: string -> Option<real>, toText: real -> string)
    requires i < |Buttons|
    ensures var key := Buttons[i];
            Press(s, key, evaluate, toText) ==
              if |key| == 1 && (IsDigit(key[0]) || key[0] == '.') then NumberKey(s, key)
              else if key == "=" then EqualKey(s, evaluate, toText)
              else OperatorKey(s, key)
    ensures var key := Buttons[i];
            IsOperator(key) <==> !(|key| == 1 && (IsDigit(key[0]) || key[0] == '.')) && key != "="
  {
  }

  /** The answer panel appears only through a successful "=", and stays
      until the clear button. */
  lemma AnswerPanel(s: State, key: string, evaluate: string -> Option<real>, toText: real -> string)
    ensures ShowsAnswer(Press(s, key, evaluate, toText)) <==>
              ShowsAnswer(s) || (key == "=" && evaluate(EvaluatedText(s)).Some?)
    ensures !ShowsAnswer(ClearKey(s))
  {
  }

  /** Number keys typed one character at a time. */
  function TypeChars(s: State, cs: string): State
    decreases |cs|
  {
    if cs == [] then s else TypeChars(NumberKey(s, [cs[0]]), cs[1..])
  }

  /** `cs` with its leading '0' characters removed. */
  function DropLeadingZeros(cs: string): (r: string)
    ensures r == [] || r[0] != '0'
    ensures |r| <= |cs| && r == cs[|cs| - |r|..]
  {
    if cs != [] && cs[0] == '0' then DropLeadingZeros(cs[1..]) else cs
  }

  /** What the display shows after typing `cs` on a display of "0". */
  function Typed(cs: string): string {
    if DropLeadingZeros(cs) == [] then "0" else DropLeadingZeros(cs)
  }

  /** Once the display is neither "0" nor empty, every key is appended. */
  lemma {:induction false} TypingAppends(s: State, cs: string)
    requires s.display != "0" && s.display != ""
    ensures TypeChars(s, cs) == s.(display := s.display + cs)
    decreases |cs|
  {
    if cs != [] {
      var t := NumberKey(s, [cs[0]]);
      assert t.display == s.display + [cs[0]];
      TypingAppends(t, cs[1..]);
      assert s.display + [cs[0]] + cs[1..] == s.display + cs;
    }
  }

  /** Typing on a display of "0" keeps no leading zero: "0", "0", "5" shows
      "5", and "0", "." shows "." rather than "0.". */
  lemma {:induction false} TypingFromZero(s: State, cs: string)
    requires s.display == "0"
    ensures TypeChars(s, cs) == s.(display := Typed(cs))
    decreases |cs|
  {
    if cs != [] {
      var t := NumberKey(s, [cs[0]]);
      if cs[0] == '0' {
        assert t == s;
        TypingFromZero(t, cs[1..]);
      } else {
        TypingAppends(t, cs[1..]);
        assert [cs[0]] + cs[1..] == cs;
      }
    }
  }

  /** The JavaScript operator the evaluator sees for a keypad operator. */
  function JsOperator(op: string): string {
    if op == "×" then "*" else if op == "÷" then "/" else op
  }

  predicate FreeOfGlyphs(t: string) {
    '×' !in t && '÷' !in t
  }

  /** Translating a text that holds one operator glyph at most, placed
      between two glyph-free parts. */
  lemma TranslateOperator(left: string, op: string, right: string)
    requires IsOperator(op) && FreeOfGlyphs(left) && FreeOfGlyphs(right)
    ensures ReplaceFirst(ReplaceFirst(left + op + right, '×', '*'), '÷', '/') == left + JsOperator(op) + right
  {
    var text := left + op + right;
    if op == "×" {
      assert text == left + ['×'] + right;
      ReplaceFirstAt(left, right, '×', '*');
      ReplaceFirstAbsent(left + ['*'] + right, '÷', '/');
    } else if op == "÷" {
      assert text == left + ['÷'] + right;
      ReplaceFirstAbsent(text, '×', '*');
      ReplaceFirstAt(left, right, '÷', '/');
    } else {
      assert FreeOfGlyphs(text);
      ReplaceFirstAbsent(text, '×', '*');
      ReplaceFirstAbsent(text, '÷', '/');
    }
  }

  lemma FreeOfGlyphsAppend(a: string, b: string)
    requires FreeOfGlyphs(a) && FreeOfGlyphs(b)
    ensures FreeOfGlyphs(a + b)
  {
  }

  lemma TypedFreeOfGlyphs(cs: string)
    requires FreeOfGlyphs(cs)
    ensures FreeOfGlyphs(Typed(cs))
  {
    var r := DropLeadingZeros(cs);
    assert forall c :: c in r ==> c in cs;
  }

  /** A pending "d1 op " and a display d2 evaluate as "d1 op d2" with `op`
      made a JavaScript operator. */
  lemma EvaluatesPendingOperation(u: State, d1: string, op: string, d2: string)
    requires IsOperator(op) && FreeOfGlyphs(d1) && FreeOfGlyphs(d2)
    requires u.equation == d1 + " " + op + " " && u.display == d2
    ensures EvaluatedText(u) == d1 + " " + JsOperator(op) + " " + d2
  {
    var left, right := d1 + " ", " " + d2;
    FreeOfGlyphsAppend(d1, " ");
    FreeOfGlyphsAppend(" ", d2);
    assert u.equation + u.display == left + op + right;
    TranslateOperator(left, op, right);
  }

  /** After first operand `d`, operator `op` and the typed keys `cs`, "="
      evaluates `d op cs` with `op` made a JavaScript operator. */
  lemma EvaluatesOperandsAndOperator(s: State, op: string, cs: string)
    requires IsOperator(op) && FreeOfGlyphs(s.display) && FreeOfGlyphs(cs)
    ensures EvaluatedText(TypeChars(OperatorKey(s, op), cs)) ==
              s.display + " " + JsOperator(op) + " " + Typed(cs)
  {
    var t := OperatorKey(s, op);
    TypingFromZero(t, cs);
    TypedFreeOfGlyphs(cs);
    EvaluatesPendingOperation(TypeChars(t, cs), s.display, op, Typed(cs));
  }

  /** Keys "7", "+", "8", "=" hand "7 + 8" to the evaluator. */
  lemma SevenPlusEight()
    ensures EvaluatedText(TypeChars(OperatorKey(NumberKey(Initial, "7"), "+"), "8")) == "7 + 8"
  {
    var seven := NumberKey(Initial, "7");
    assert seven.display == "7";
    assert EvaluatedText(TypeChars(OperatorKey(seven, "+"), "8")) ==
           seven.display + " " + JsOperator("+") + " " + Typed("8") by {
      assert FreeOfGlyphs("7") && FreeOfGlyphs("8") && IsOperator("+");
      EvaluatesOperandsAndOperator(seven, "+", "8");
    }
    assert Typed("8") == "8" by { assert DropLeadingZeros("8") == "8"; }
    assert JsOperator("+") == "+";
    SevenPlusEightText();
  }

  lemma SevenPlusEightText()
    ensures "7" + " " + "+" + " " + "8" == "7 + 8"
  {
  }

  /** The pending equation is either empty or "<operand> <operator> ". */
  predicate WellFormed(s: State) {
    var e := s.equation;
    e == "" || (|e| >= 3 && e[|e| - 3] == ' ' && IsOperator(e[|e| - 2..|e| - 1]) && e[|e| - 1] == ' ')
  }

  lemma PressKeepsWellFormed(s: State, key: string, evaluate: string -> Option<real>, toText: real -> string)
    requires WellFormed(s)
    ensures WellFormed(Press(s, key, evaluate, toText)) && WellFormed(ClearKey(s))
  {
    if key != "=" && IsOperator(key) {
      var e := OperatorKey(s, key).equation;
      assert e == s.display + " " + key + " ";
      assert e[|e| - 2..|e| - 1] == key;
    }
  }

  // ---------------------------------------------------------------------
  // The page's state cells
  // ---------------------------------------------------------------------

  class CalculatorPage {
    var display: string
    var equation: string
    var result: Option<real>

    function Current(): State
      reads this
    {
      State(display, equation, result)
    }

    constructor ()
      ensures Current() == Initial
    {
      display, equation, result := "0", "", None;
    }

    method HandleNumber(num: string)
      modifies this
      ensures Current() == NumberKey(old(Current()), num)
    {
      if display == "0" {
        display := num;
      } else {
        display := display + num;
      }
    }

    method HandleOperator(op: string)
      modifies this
      ensures Current() == OperatorKey(old(Current()), op)
    {
      equation := display + " " + op + " ";
      display := "0";
    }

    method HandleEqual(evaluate: string -> Option<real>, toText: real -> string)
      modifies this
      ensures Current() == EqualKey(old(Current()), evaluate, toText)
    {
      var fullEquation := equation + display;
      var calculated := evaluate(ReplaceFirst(ReplaceFirst(fullEquation, '×', '*'), '÷', '/'));
      if calculated.Some? {
        result := calculated;
        display := toText(calculated.value);
        equation := "";
      } else {
        display := ErrorText;
      }
    }

    method HandleClear()
      modifies this
      ensures Current() == ClearKey(old(Current()))
    {
      display := "0";
      equation := "";
      result := None;
    }

    method PressButton(key: string, evaluate: string -> Option<real>, toText: real -> string)
      modifies this
      ensures Current() == Press(old(Current()), key, evaluate, toText)
    {
      if key == "=" {
        HandleEqual(evaluate, toText);
      } else if IsOperator(key) {
        HandleOperator(key);
      } else {
        HandleNumber(key);
      }
    }
  }
}
