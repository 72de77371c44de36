/** The handlers' query texts: a fixed `SELECT ... WHERE 1=1`, one
    `AND column = value` per supplied query-string parameter in a fixed order,
    then a fixed `ORDER BY`. A numeric parameter goes through `int()`, a text
    parameter is spliced between single quotes as it is. */
module SqlQuery {
  import opened Common
  import opened Py

  datatype Condition =
    | IntCondition(param: string, column: string)
    | QuotedCondition(param: string, column: string)

  /** The clause one condition adds for the parameter's text `v`. */
  function ClauseText(c: Condition, v: string): (r: Result<string, PyError>)
    ensures c.QuotedCondition? ==> r == Ok(" AND " + c.column + " = '" + v + "'")
    ensures c.IntCondition? ==> (r.Ok? <==> ParseInt(v).Ok?)
    ensures c.IntCondition? && r.Ok? ==> r.value == " AND " + c.column + " = " + IntToString(ParseInt(v).value)
    ensures r.Err? ==> r.error == ValueError
  {
    match c
    case IntCondition(_, column) =>
      (match ParseInt(v)
       case Ok(n) => Ok(" AND " + column + " = " + IntToString(n))
       case Err(e) => Err(e))
    case QuotedCondition(_, column) => Ok(" AND " + column + " = '" + v + "'")
  }

  /** How a builder writes the clause of one condition. */
  type ClauseWriter = (Condition, string) -> Result<string, PyError>

  /** The clauses of the supplied conditions, in order; the first clause that
      cannot be written ends the handler with its exception. */
  function Clauses(write: ClauseWriter, conds: seq<Condition>, params: map<string, string>): Result<string, PyError> {
    if conds == [] then Ok("")
    else if !Supplied(params, conds[0].param) then Clauses(write, conds[1..], params)
    else
      match write(conds[0], params[conds[0].param])
      case Err(e) => Err(e)
      case Ok(c) =>
        match Clauses(write, conds[1..], params)
        case Err(e) => Err(e)
        case Ok(rest) => Ok(c + rest)
  }

  /** The query text `fetchall` runs: the fixed text, the clauses, the order. */
  function BuildQuery(base: string, conds: seq<Condition>, params: map<string, string>, order: string): Result<string, PyError> {
    Query(ClauseText, base, conds, params, order)
  }

  function Query(write: ClauseWriter, base: string, conds: seq<Condition>, params: map<string, string>, order: string): Result<string, PyError> {
    match Clauses(write, conds, params)
    case Ok(cs) => Ok(base + cs + order)
    case Err(e) => Err(e)
  }

  /** A supplied condition whose clause cannot be written. */
  predicate Rejected(write: ClauseWriter, c: Condition, params: map<string, string>) {
    Supplied(params, c.param) && write(c, params[c.param]).Err?
  }

  lemma {:induction false} ClausesFail(write: ClauseWriter, conds: seq<Condition>, params: map<string, string>)
    ensures Clauses(write, conds, params).Err? <==> exists i :: 0 <= i < |conds| && Rejected(write, conds[i], params)
    ensures Clauses(write, conds, params).Err? ==>
              exists i :: 0 <= i < |conds| && Rejected(write, conds[i], params) &&
                          Clauses(write, conds, params).error == write(conds[i], params[conds[i].param]).error
  {
    if conds != [] {
      ClausesFail(write, conds[1..], params);
      assert forall i :: 1 <= i < |conds| ==> conds[i] == conds[1..][i - 1];
      if exists i :: 0 <= i < |conds[1..]| && Rejected(write, conds[1..][i], params) {
        var i :| 0 <= i < |conds[1..]| && Rejected(write, conds[1..][i], params);
        assert Rejected(write, conds[i + 1], params);
      }
      if Clauses(write, conds, params).Err? && !Rejected(write, conds[0], params) {
        var i :| 0 <= i < |conds[1..]| && Rejected(write, conds[1..][i], params) &&
                 Clauses(write, conds[1..], params).error == write(conds[1..][i], params[conds[1..][i].param]).error;
        assert Rejected(write, conds[i + 1], params);
      }
    }
  }

  /** The query fails exactly when some supplied numeric parameter is not an
      integer for `int()`, and then with `ValueError`. */
  lemma QueryFails(base: string, conds: seq<Condition>, params: map<string, string>, order: string)
    ensures BuildQuery(base, conds, params, order).Err? <==>
              exists i :: 0 <= i < |conds| && conds[i].IntCondition? && Supplied(params, conds[i].param) &&
                          ParseInt(params[conds[i].param]).Err?
    ensures BuildQuery(base, conds, params, order).Err? ==> BuildQuery(base, conds, params, order).error == ValueError
  {
    ClausesFail(ClauseText, conds, params);
    if BuildQuery(base, conds, params, order).Err? {
      var i :| 0 <= i < |conds| && Rejected(ClauseText, conds[i], params);
      assert conds[i].IntCondition? && ParseInt(params[conds[i].param]).Err?;
    }
    if exists i :: 0 <= i < |conds| && conds[i].IntCondition? && Supplied(params, conds[i].param) &&
                   ParseInt(params[conds[i].param]).Err? {
      var i :| 0 <= i < |conds| && conds[i].IntCondition? && Supplied(params, conds[i].param) &&
               ParseInt(params[conds[i].param]).Err?;
      assert Rejected(ClauseText, conds[i], params);
    }
  }

  lemma {:induction false} NoClauses(write: ClauseWriter, conds: seq<Condition>, params: map<string, string>)
    requires forall i :: 0 <= i < |conds| ==> !Supplied(params, conds[i].param)
    ensures Clauses(write, conds, params) == Ok("")
  {
    if conds != [] {
      assert !Supplied(params, conds[0].param);
      assert forall i :: 0 <= i < |conds[1..]| ==> conds[1..][i] == conds[i + 1];
      NoClauses(write, conds[1..], params);
    }
  }

  /** With no supplied condition the query is the fixed text alone. */
  lemma NothingSupplied(base: string, conds: seq<Condition>, params: map<string, string>, order: string)
    requires forall i :: 0 <= i < |conds| ==> !Supplied(params, conds[i].param)
    ensures BuildQuery(base, conds, params, order) == Ok(base + order)
  {
    NoClauses(ClauseText, conds, params);
    assert base + "" + order == base + order;
  }

  /** Whatever is supplied, the query starts with the fixed `SELECT` and ends
      with the fixed `ORDER BY`. */
  lemma QueryFrame(base: string, conds: seq<Condition>, params: map<string, string>, order: string)
    ensures BuildQuery(base, conds, params, order).Ok? ==>
              var q := BuildQuery(base, conds, params, order).value;
              |q| >= |base| + |order| && q[..|base|] == base && q[|q| - |order|..] == order
  {
    if BuildQuery(base, conds, params, order).Ok? {
      var cs := Clauses(ClauseText, conds, params).value;
      var q := base + cs + order;
      assert q[..|base|] == base;
      assert q[|q| - |order|..] == order;
    }
  }

  lemma OccursShift(a: string, b: string, p: string, k: int)
    ensures OccursAt(b, p, k) ==> OccursAt(a + b, p, |a| + k)
    ensures OccursAt(a, p, k) ==> OccursAt(a + b, p, k)
  {
    if OccursAt(b, p, k) {
      assert (a + b)[|a| + k..|a| + k + |p|] == b[k..k + |p|];
    }
    if OccursAt(a, p, k) {
      assert (a + b)[k..k + |p|] == a[k..k + |p|];
    }
  }

  /** One step of the clauses: the head condition's clause, if supplied,
      followed by the clauses of the rest. */
  lemma ClausesStep(write: ClauseWriter, conds: seq<Condition>, params: map<string, string>) returns (head: string, tail: string)
    requires conds != [] && Clauses(write, conds, params).Ok?
    ensures Clauses(write, conds[1..], params) == Ok(tail)
    ensures Clauses(write, conds, params).value == head + tail
    ensures Supplied(params, conds[0].param) ==> write(conds[0], params[conds[0].param]) == Ok(head)
    ensures !Supplied(params, conds[0].param) ==> head == ""
  {
    tail := Clauses(write, conds[1..], params).value;
    if Supplied(params, conds[0].param) {
      head := write(conds[0], params[conds[0].param]).value;
    } else {
      head := "";
      assert head + tail == tail;
    }
  }

  /** A supplied condition's clause occurs in the clauses. */
  lemma {:induction false} ClauseOccurs(write: ClauseWriter, conds: seq<Condition>, params: map<string, string>, j: int) returns (n: int)
    requires Clauses(write, conds, params).Ok?
    requires 0 <= j < |conds| && Supplied(params, conds[j].param)
    ensures write(conds[j], params[conds[j].param]).Ok?
    ensures OccursAt(Clauses(write, conds, params).value, write(conds[j], params[conds[j].param]).value, n)
  {
    var head, tail := ClausesStep(write, conds, params);
    if j == 0 {
      assert OccursAt(head, head, 0);
      OccursShift(head, tail, head, 0);
      n := 0;
    } else {
      assert conds[1..][j - 1] == conds[j];
      var k := ClauseOccurs(write, conds[1..], params, j - 1);
      OccursShift(head, tail, write(conds[j], params[conds[j].param]).value, k);
      n := |head| + k;
    }
  }

  /** `a` occurs in `t` and ends before an occurrence of `b` starts. */
  predicate OccursBefore(t: string, a: string, b: string) {
    exists m, n | 0 <= m <= |t| && 0 <= n <= |t| :: OccursAt(t, a, m) && OccursAt(t, b, n) && m + |a| <= n
  }

  /** The clauses of two supplied conditions come in the conditions' order. */
  lemma {:induction false} ClausesInOrder(write: ClauseWriter, conds: seq<Condition>, params: map<string, string>, i: int, j: int)
    requires Clauses(write, conds, params).Ok?
    requires 0 <= i < j < |conds| && Supplied(params, conds[i].param) && Supplied(params, conds[j].param)
    ensures write(conds[i], params[conds[i].param]).Ok? && write(conds[j], params[conds[j].param]).Ok?
    ensures OccursBefore(Clauses(write, conds, params).value,
                         write(conds[i], params[conds[i].param]).value, write(conds[j], params[conds[j].param]).value)
  {
    var head, tail := ClausesStep(write, conds, params);
    var cs := Clauses(write, conds, params).value;
    assert conds[1..][j - 1] == conds[j];
    var n := ClauseOccurs(write, conds[1..], params, j - 1);
    var _ := ClauseOccurs(write, conds, params, i);
    var pi := write(conds[i], params[conds[i].param]).value;
    var pj := write(conds[j], params[conds[j].param]).value;
    if i == 0 {
      assert OccursAt(head, head, 0);
      OccursShift(head, tail, head, 0);
      OccursShift(head, tail, pj, n);
      assert OccursAt(cs, pi, 0) && OccursAt(cs, pj, |head| + n);
    } else {
      assert conds[1..][i - 1] == conds[i];
      ClausesInOrder(write, conds[1..], params, i - 1, j - 1);
      var m, n' :| 0 <= m <= |tail| && 0 <= n' <= |tail| && OccursAt(tail, pi, m) && OccursAt(tail, pj, n') && m + |pi| <= n';
      OccursShift(head, tail, pi, m);
      OccursShift(head, tail, pj, n');
      assert OccursAt(cs, pi, |head| + m) && OccursAt(cs, pj, |head| + n');
    }
  }

  /** Each supplied condition's clause appears in the query, and two supplied
      conditions' clauses appear in the conditions' order. */
  lemma QueryHasClauses(write: ClauseWriter, base: string, conds: seq<Condition>, params: map<string, string>, order: string, i: int, j: int)
    requires Query(write, base, conds, params, order).Ok?
    requires 0 <= i < j < |conds| && Supplied(params, conds[i].param) && Supplied(params, conds[j].param)
    ensures write(conds[i], params[conds[i].param]).Ok? && write(conds[j], params[conds[j].param]).Ok?
    ensures OccursBefore(Query(write, base, conds, params, order).value,
                         write(conds[i], params[conds[i].param]).value, write(conds[j], params[conds[j].param]).value)
  {
    var cs := Clauses(write, conds, params).value;
    ClausesInOrder(write, conds, params, i, j);
    var pi := write(conds[i], params[conds[i].param]).value;
    var pj := write(conds[j], params[conds[j].param]).value;
    var m, n :| 0 <= m <= |cs| && 0 <= n <= |cs| && OccursAt(cs, pi, m) && OccursAt(cs, pj, n) && m + |pi| <= n;
    OccursShift(base, cs, pi, m);
    OccursShift(base, cs, pj, n);
    OccursShift(base + cs, order, pi, |base| + m);
    OccursShift(base + cs, order, pj, |base| + n);
    var q := base + cs + order;
    assert OccursAt(q, pi, |base| + m) && OccursAt(q, pj, |base| + n);
  }

  /** A supplied condition's clause appears in the query. */
  lemma QueryHasClause(write: ClauseWriter, base: string, conds: seq<Condition>, params: map<string, string>, order: string, j: int)
    requires Query(write, base, conds, params, order).Ok?
    requires 0 <= j < |conds| && Supplied(params, conds[j].param)
    ensures write(conds[j], params[conds[j].param]).Ok?
    ensures Contains(Query(write, base, conds, params, order).value, write(conds[j], params[conds[j].param]).value)
  {
    var n := ClauseOccurs(write, conds, params, j);
    var cs := Clauses(write, conds, params).value;
    var p := write(conds[j], params[conds[j].param]).value;
    OccursShift(base, cs, p, n);
    OccursShift(base + cs, order, p, |base| + n);
  }

  lemma {:induction false} OneClause(write: ClauseWriter, conds: seq<Condition>, params: map<string, string>, j: int)
    requires 0 <= j < |conds| && Supplied(params, conds[j].param)
    requires forall i :: 0 <= i < |conds| && i != j ==> !Supplied(params, conds[i].param)
    ensures Clauses(write, conds, params) == write(conds[j], params[conds[j].param])
  {
    var rest := conds[1..];
    assert forall i :: 0 <= i < |rest| ==> rest[i] == conds[i + 1];
    if j == 0 {
      NoClauses(write, rest, params);
      var w := write(conds[0], params[conds[0].param]);
      if w.Ok? {
        assert w.value + "" == w.value;
      }
    } else {
      OneClause(write, rest, params, j - 1);
    }
  }

  /** With exactly one supplied condition, the query is the fixed text with
      that one clause between `WHERE 1=1` and `ORDER BY`. */
  lemma OneSupplied(base: string, conds: seq<Condition>, params: map<string, string>, order: string, j: int)
    requires 0 <= j < |conds| && Supplied(params, conds[j].param)
    requires forall i :: 0 <= i < |conds| && i != j ==> !Supplied(params, conds[i].param)
    ensures ClauseText(conds[j], params[conds[j].param]).Ok? ==>
              BuildQuery(base, conds, params, order) == Ok(base + ClauseText(conds[j], params[conds[j].param]).value + order)
    ensures ClauseText(conds[j], params[conds[j].param]).Err? ==> BuildQuery(base, conds, params, order) == Err(ValueError)
  {
    OneClause(ClauseText, conds, params, j);
  }

  // ---------------------------------------------------------------------
  // The clauses of a prefix of the conditions, for the builders that add
  // them one `query +=` at a time
  // ---------------------------------------------------------------------

  /** The clauses after one more condition is considered. */
  function Extend(write: ClauseWriter, acc: Result<string, PyError>, c: Condition, params: map<string, string>): Result<string, PyError> {
    match acc
    case Err(_) => acc
    case Ok(cs) =>
      if !Supplied(params, c.param) then acc
      else
        match write(c, params[c.param])
        case Err(e) => Err(e)
        case Ok(x) => Ok(cs + x)
  }

  lemma {:induction false} ClausesSnoc(write: ClauseWriter, conds: seq<Condition>, c: Condition, params: map<string, string>)
    ensures Clauses(write, conds + [c], params) == Extend(write, Clauses(write, conds, params), c, params)
  {
    if conds == [] {
      assert conds + [c] == [c];
      assert [c][1..] == [];
      if Supplied(params, c.param) && write(c, params[c.param]).Ok? {
        var x := write(c, params[c.param]).value;
        assert x + "" == "" + x;
      }
    } else {
      assert (conds + [c])[0] == conds[0];
      assert (conds + [c])[1..] == conds[1..] + [c];
      ClausesSnoc(write, conds[1..], c, params);
      var tail := Clauses(write, conds[1..], params);
      if Supplied(params, conds[0].param) && write(conds[0], params[conds[0].param]).Ok? && tail.Ok? &&
         Supplied(params, c.param) && write(c, params[c.param]).Ok? {
        var h := write(conds[0], params[conds[0].param]).value;
        var x := write(c, params[c.param]).value;
        assert h + (tail.value + x) == (h + tail.value) + x;
      }
    }
  }

  /** The clauses of the first k + 1 conditions extend those of the first k. */
  lemma ClausesExtend(write: ClauseWriter, conds: seq<Condition>, params: map<string, string>, k: int)
    requires 0 <= k < |conds|
    ensures Clauses(write, conds[..k + 1], params) == Extend(write, Clauses(write, conds[..k], params), conds[k], params)
  {
    assert conds[..k + 1] == conds[..k] + [conds[k]];
    ClausesSnoc(write, conds[..k], conds[k], params);
  }

  /** Once a prefix has failed, so have all the conditions, with its exception. */
  lemma {:induction false} FailurePersists(write: ClauseWriter, conds: seq<Condition>, params: map<string, string>, k: int)
    requires 0 <= k <= |conds| && Clauses(write, conds[..k], params).Err?
    ensures Clauses(write, conds, params) == Clauses(write, conds[..k], params)
    decreases |conds| - k
  {
    if k == |conds| {
      assert conds[..k] == conds;
    } else {
      ClausesExtend(write, conds, params, k);
      FailurePersists(write, conds, params, k + 1);
    }
  }

  /** The fixed text followed by the clauses so far, or their exception. */
  function Prefixed(base: string, acc: Result<string, PyError>): Result<string, PyError> {
    match acc
    case Ok(cs) => Ok(base + cs)
    case Err(e) => Err(e)
  }

  /** The query text once the first k conditions have been considered. */
  function QuerySoFar(base: string, conds: seq<Condition>, params: map<string, string>, k: int): Result<string, PyError>
    requires 0 <= k <= |conds|
  {
    Prefixed(base, Clauses(ClauseText, conds[..k], params))
  }

  /** Putting the fixed text first commutes with adding a clause. */
  lemma PrefixedExtend(write: ClauseWriter, base: string, acc: Result<string, PyError>, c: Condition, params: map<string, string>)
    ensures Prefixed(base, Extend(write, acc, c, params)) == Extend(write, Prefixed(base, acc), c, params)
  {
    if acc.Ok? && Supplied(params, c.param) {
      var w := write(c, params[c.param]);
      if w.Ok? {
        assert base + (acc.value + w.value) == (base + acc.value) + w.value;
      }
    }
  }

  /** The query text grows by one condition as the clauses do. */
  lemma SoFarExtend(base: string, conds: seq<Condition>, params: map<string, string>, k: int)
    requires 0 <= k < |conds|
    ensures QuerySoFar(base, conds, params, k + 1) ==
            Extend(ClauseText, QuerySoFar(base, conds, params, k), conds[k], params)
  {
    ClausesExtend(ClauseText, conds, params, k);
    PrefixedExtend(ClauseText, base, Clauses(ClauseText, conds[..k], params), conds[k], params);
  }

  /** Nothing considered yet: the fixed text; everything considered: the query
      is completed by the order. */
  lemma QueryEnds(base: string, conds: seq<Condition>, params: map<string, string>, order: string)
    ensures QuerySoFar(base, conds, params, 0) == Ok(base)
    ensures QuerySoFar(base, conds, params, |conds|).Err? ==>
              BuildQuery(base, conds, params, order) == QuerySoFar(base, conds, params, |conds|)
    ensures QuerySoFar(base, conds, params, |conds|).Ok? ==>
              BuildQuery(base, conds, params, order) == Ok(QuerySoFar(base, conds, params, |conds|).value + order)
  {
    assert conds[..0] == [];
    assert base + "" == base;
    assert conds[..|conds|] == conds;
  }

  /** Once the partial query has failed, the whole query fails with it. */
  lemma SoFarFails(base: string, conds: seq<Condition>, params: map<string, string>, order: string, k: int)
    requires 0 <= k <= |conds| && QuerySoFar(base, conds, params, k).Err?
    ensures BuildQuery(base, conds, params, order) == QuerySoFar(base, conds, params, k)
  {
    FailurePersists(ClauseText, conds, params, k);
    QueryEnds(base, conds, params, order);
  }

  /** One `if v: query += ...` step of a handler's builder, for
      `v = params.get(name)`: an absent or empty parameter adds nothing, a
      numeric one adds the clause of `int(v)` or raises `int()`'s exception,
      a text one adds `v` between quotes. */
  method AddClause(query: string, c: Condition, params: map<string, string>) returns (r: Result<string, PyError>)
    ensures r == Extend(ClauseText, Ok(query), c, params)
  {
    var v := Param(params, c.param);
    if v.Some? && v.value != "" {
      match c
      case IntCondition(_, column) =>
        var n := ParseInt(v.value);
        if n.Err? {
          return Err(n.error);
        }
        r := Ok(query + (" AND " + column + " = " + IntToString(n.value)));
      case QuotedCondition(_, column) =>
        r := Ok(query + (" AND " + column + " = '" + v.value + "'"));
    } else {
      r := Ok(query);
    }
  }

  /** The k-th step of a builder: the partial query with the k-th
      condition's clause added, or the exception with which the whole query
      then fails. A text condition never fails. */
  method AddCondition(base: string, conds: seq<Condition>, params: map<string, string>, order: string, k: int, query: string)
    returns (r: Result<string, PyError>)
    requires 0 <= k < |conds| && QuerySoFar(base, conds, params, k) == Ok(query)
    ensures r.Ok? ==> r == QuerySoFar(base, conds, params, k + 1)
    ensures r.Err? ==> r == BuildQuery(base, conds, params, order) && r.error == ValueError
    ensures conds[k].QuotedCondition? ==> r.Ok?
  {
    SoFarExtend(base, conds, params, k);
    r := AddClause(query, conds[k], params);
    if r.Err? {
      SoFarFails(base, conds, params, order, k + 1);
    }
  }

  /** A numeric parameter written as a decimal numeral reappears unchanged. */
  lemma NumeralClause(c: Condition, n: int)
    requires c.IntCondition?
    ensures ClauseText(c, IntToString(n)) == Ok(" AND " + c.column + " = " + IntToString(n))
  {
    ParseIntOfNumeral(n);
  }
}
