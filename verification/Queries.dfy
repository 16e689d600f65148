/** Where clauses of storage/query.go: normalizing them, grouping them, and which rows they select. */
module Queries {
  import opened Wrappers

  datatype Value = Nil | Scalar(text: string) | List(items: seq<string>)

  /** The zero value of each of the three normalizes to a default; `Unsupported` is any other text. */
  datatype Operator =
    | DefaultOperator | Eq | Ne | Lt | Lte | Gt | Gte | In | NotIn | Contains | StartsWith | EndsWith
    | UnsupportedOperator(text: string)

  datatype Connector = DefaultConnector | And | Or | UnsupportedConnector(text: string)

  datatype Mode = DefaultMode | Sensitive | Insensitive | UnsupportedMode(text: string)

  datatype Where = Where(field: string, value: Value, operator: Operator, connector: Connector, mode: Mode)

  function WithDefaults(w: Where): Where {
    w.(operator := if w.operator.DefaultOperator? then Eq else w.operator,
       connector := if w.connector.DefaultConnector? then And else w.connector,
       mode := if w.mode.DefaultMode? then Sensitive else w.mode)
  }

  predicate WellFormed(w: Where) {
    && w.field != "" && !w.operator.UnsupportedOperator? && !w.connector.UnsupportedConnector? && !w.mode.UnsupportedMode?
    && (w.operator.In? || w.operator.NotIn? ==> w.value.List?)
  }

  function Normalize(w: Where): Option<Where> {
    if WellFormed(w) then Some(WithDefaults(w)) else None
  }

  function Only(clauses: seq<Where>, or: bool): seq<Where> {
    if clauses == [] then []
    else
      var init := Only(clauses[..|clauses| - 1], or);
      var last := WithDefaults(clauses[|clauses| - 1]);
      if (last.connector.Or?) == or then init + [last] else init
  }

  predicate AllWellFormed(clauses: seq<Where>) {
    forall i | 0 <= i < |clauses| :: WellFormed(clauses[i])
  }

  method GroupWhere(clauses: seq<Where>) returns (r: Option<(seq<Where>, seq<Where>)>)
    ensures r.Some? <==> AllWellFormed(clauses)
    ensures r.Some? ==> r.value == (Only(clauses, false), Only(clauses, true))
  {
    var ands, ors := [], [];
    for i := 0 to |clauses|
      invariant AllWellFormed(clauses[..i])
      invariant ands == Only(clauses[..i], false) && ors == Only(clauses[..i], true)
    {
      assert clauses[..i + 1][..i] == clauses[..i];
      var clause := Normalize(clauses[i]);
      if clause.None? {
        return None;
      }
      if clause.value.connector.Or? {
        ors := ors + [clause.value];
      } else {
        ands := ands + [clause.value];
      }
    }
    assert clauses[..|clauses|] == clauses;
    return Some((ands, ors));
  }

  // ----- what a query selects

  datatype Row = Row(id: string, fields: map<string, string>)

  /** How a driver combines clauses: SQL and document drivers group them, the memory driver goes
      from left to right. */
  datatype Combination = Grouped | LeftToRight

  datatype Driver = Driver(combination: Combination, sat: (Where, Row) -> bool)

  predicate All(d: Driver, clauses: seq<Where>, r: Row) {
    forall i | 0 <= i < |clauses| :: d.sat(clauses[i], r)
  }

  predicate AnyOf(d: Driver, clauses: seq<Where>, r: Row) {
    exists i :: 0 <= i < |clauses| && d.sat(clauses[i], r)
  }

  function Fold(d: Driver, clauses: seq<Where>, r: Row, start: bool): bool {
    if clauses == [] then start
    else
      var init := Fold(d, clauses[..|clauses| - 1], r, start);
      var last := WithDefaults(clauses[|clauses| - 1]);
      if last.connector.Or? then init || d.sat(last, r) else init && d.sat(last, r)
  }

  predicate Selects(d: Driver, where: seq<Where>, r: Row) {
    match d.combination
    case Grouped => All(d, Only(where, false), r) && (Only(where, true) == [] || AnyOf(d, Only(where, true), r))
    case LeftToRight => where == [] || Fold(d, where, r, d.sat(WithDefaults(where[0]), r))
  }

  function IdIs(id: string): Where {
    Where("id", Scalar(id), Eq, And, Sensitive)
  }

  /** All that is asked of a driver: equality on the id column means equality of ids. */
  ghost predicate Lawful(d: Driver) {
    forall id, r :: d.sat(IdIs(id), r) <==> r.id == id
  }

  /** Appending `AND id = x` to any query selects exactly its rows with that id, however the driver
      combines clauses. */
  lemma GateSelects(d: Driver, where: seq<Where>, id: string, r: Row)
    requires Lawful(d)
    ensures Selects(d, where + [IdIs(id)], r) <==> Selects(d, where, r) && r.id == id
  {
    var gate := where + [IdIs(id)];
    assert gate[..|where|] == where;
    match d.combination
    case Grouped =>
      assert Only(gate, false) == Only(where, false) + [IdIs(id)];
      assert Only(gate, true) == Only(where, true);
      AllAppend(d, Only(where, false), IdIs(id), r);
    case LeftToRight =>
      assert gate[|where|] == IdIs(id) == WithDefaults(IdIs(id));
      var start := d.sat(WithDefaults(gate[0]), r);
      assert Fold(d, gate, r, start) == (Fold(d, where, r, start) && d.sat(IdIs(id), r));
  }

  lemma AllAppend(d: Driver, clauses: seq<Where>, w: Where, r: Row)
    ensures All(d, clauses + [w], r) <==> All(d, clauses, r) && d.sat(w, r)
  {
    var more := clauses + [w];
    assert more[|clauses|] == w;
    assert forall i | 0 <= i < |clauses| :: more[i] == clauses[i];
  }

  // ----- what grouping and combining mean

  function Normalized(clauses: seq<Where>): seq<Where> {
    if clauses == [] then [] else Normalized(clauses[..|clauses| - 1]) + [WithDefaults(clauses[|clauses| - 1])]
  }

  /** Grouping loses no clause and doubles none, and each is in the group of its connector. */
  lemma {:induction false} GroupsPartition(clauses: seq<Where>)
    ensures multiset(Only(clauses, false)) + multiset(Only(clauses, true)) == multiset(Normalized(clauses))
    ensures (forall w | w in Only(clauses, true) :: w.connector.Or?) && forall w | w in Only(clauses, false) :: !w.connector.Or?
  {
    if clauses != [] { GroupsPartition(clauses[..|clauses| - 1]); }
  }

  /** Within a group the clauses keep their order. */
  lemma {:induction false} GroupsInOrder(a: seq<Where>, b: seq<Where>, or: bool)
    ensures Only(a + b, or) == Only(a, or) + Only(b, or)
  {
    if b == [] {
      assert a + b == a;
    } else {
      GroupsInOrder(a, b[..|b| - 1], or);
      assert (a + b)[..|a + b| - 1] == a + b[..|b| - 1];
    }
  }

  predicate IsOr(w: Where) {
    w.connector.Or?
  }

  /** Every clause from `k` on that is not joined by OR holds. */
  predicate AndsFrom(d: Driver, clauses: seq<Where>, r: Row, k: nat) {
    forall i | k <= i < |clauses| && !IsOr(clauses[i]) :: d.sat(WithDefaults(clauses[i]), r)
  }

  /** Some clause joined by OR holds, with all the others behind it. */
  predicate Rescued(d: Driver, clauses: seq<Where>, r: Row) {
    exists k :: 0 <= k < |clauses| && IsOr(clauses[k]) && d.sat(WithDefaults(clauses[k]), r) && AndsFrom(d, clauses, r, k)
  }

  lemma AndsLast(d: Driver, clauses: seq<Where>, r: Row, k: nat)
    requires clauses != [] && k < |clauses|
    ensures AndsFrom(d, clauses, r, k) <==>
              AndsFrom(d, clauses[..|clauses| - 1], r, k) &&
              (IsOr(clauses[|clauses| - 1]) || d.sat(WithDefaults(clauses[|clauses| - 1]), r))
  {
    assert forall i | 0 <= i < |clauses| - 1 :: clauses[..|clauses| - 1][i] == clauses[i];
  }

  lemma RescuedLast(d: Driver, clauses: seq<Where>, r: Row)
    requires clauses != []
    ensures var last := clauses[|clauses| - 1];
            Rescued(d, clauses, r) <==>
              if IsOr(last) then Rescued(d, clauses[..|clauses| - 1], r) || d.sat(WithDefaults(last), r)
              else Rescued(d, clauses[..|clauses| - 1], r) && d.sat(WithDefaults(last), r)
  {
    var n := |clauses| - 1;
    var init, last := clauses[..n], clauses[n];
    if k :| 0 <= k < |clauses| && IsOr(clauses[k]) && d.sat(WithDefaults(clauses[k]), r) && AndsFrom(d, clauses, r, k) {
      AndsLast(d, clauses, r, k);
      if k < n { assert IsOr(init[k]) && d.sat(WithDefaults(init[k]), r) && AndsFrom(d, init, r, k); }
    }
    if k :| 0 <= k < n && IsOr(init[k]) && d.sat(WithDefaults(init[k]), r) && AndsFrom(d, init, r, k) {
      AndsLast(d, clauses, r, k);
      assert IsOr(clauses[k]);
    }
    if IsOr(last) && d.sat(WithDefaults(last), r) { assert AndsFrom(d, clauses, r, n); }
  }

  lemma {:induction false} FoldIs(d: Driver, clauses: seq<Where>, r: Row, start: bool)
    ensures Fold(d, clauses, r, start) <==> (start && AndsFrom(d, clauses, r, 0)) || Rescued(d, clauses, r)
  {
    if clauses != [] {
      FoldIs(d, clauses[..|clauses| - 1], r, start);
      AndsLast(d, clauses, r, 0);
      RescuedLast(d, clauses, r);
    }
  }

  /** A driver that goes from left to right selects a row exactly if the first clause and all that are not
      joined by OR hold, or one that is joined by OR and all others behind it. */
  lemma LeftToRightIs(d: Driver, where: seq<Where>, r: Row)
    requires d.combination.LeftToRight? && where != []
    ensures Selects(d, where, r) <==>
              (d.sat(WithDefaults(where[0]), r) && AndsFrom(d, where, r, 0)) || Rescued(d, where, r)
  {
    FoldIs(d, where, r, d.sat(WithDefaults(where[0]), r));
  }

  predicate SomeOr(d: Driver, clauses: seq<Where>, r: Row) {
    exists i :: 0 <= i < |clauses| && IsOr(clauses[i]) && d.sat(WithDefaults(clauses[i]), r)
  }

  predicate NoOr(clauses: seq<Where>) {
    forall i | 0 <= i < |clauses| :: !IsOr(clauses[i])
  }

  lemma {:induction false} AndGroup(d: Driver, where: seq<Where>, r: Row)
    ensures All(d, Only(where, false), r) <==> AndsFrom(d, where, r, 0)
  {
    if where != [] {
      var n := |where| - 1;
      AndGroup(d, where[..n], r);
      AndsLast(d, where, r, 0);
      AllAppend(d, Only(where[..n], false), WithDefaults(where[n]), r);
    }
  }

  lemma {:induction false} OrGroup(d: Driver, where: seq<Where>, r: Row)
    ensures AnyOf(d, Only(where, true), r) <==> SomeOr(d, where, r)
    ensures Only(where, true) == [] <==> NoOr(where)
  {
    if where != [] {
      var n := |where| - 1;
      OrGroup(d, where[..n], r);
      assert forall i | 0 <= i < n :: where[..n][i] == where[i];
      AnyAppend(d, Only(where[..n], true), WithDefaults(where[n]), r);
      SomeOrLast(d, where, r);
      assert NoOr(where) <==> NoOr(where[..n]) && !IsOr(where[n]);
    }
  }

  lemma SomeOrLast(d: Driver, where: seq<Where>, r: Row)
    requires where != []
    ensures var last := where[|where| - 1];
            SomeOr(d, where, r) <==>
              SomeOr(d, where[..|where| - 1], r) || (IsOr(last) && d.sat(WithDefaults(last), r))
  {
    var n := |where| - 1;
    if i :| 0 <= i < n && IsOr(where[..n][i]) && d.sat(WithDefaults(where[..n][i]), r) { assert IsOr(where[i]); }
    if i :| 0 <= i < |where| && IsOr(where[i]) && d.sat(WithDefaults(where[i]), r) {
      if i < n { assert IsOr(where[..n][i]); }
    }
  }

  lemma AnyAppend(d: Driver, clauses: seq<Where>, w: Where, r: Row)
    ensures AnyOf(d, clauses + [w], r) <==> AnyOf(d, clauses, r) || d.sat(w, r)
  {
    var more := clauses + [w];
    assert more[|clauses|] == w;
    assert forall i | 0 <= i < |clauses| :: more[i] == clauses[i];
    if i :| 0 <= i < |clauses| && d.sat(clauses[i], r) { assert d.sat(more[i], r); }
  }

  /** A driver that groups selects a row exactly if every clause that is not joined by OR holds, and some
      clause that is, if there are any. */
  lemma GroupedIs(d: Driver, where: seq<Where>, r: Row)
    requires d.combination.Grouped?
    ensures Selects(d, where, r) <==> AndsFrom(d, where, r, 0) && (NoOr(where) || SomeOr(d, where, r))
  {
    AndGroup(d, where, r);
    OrGroup(d, where, r);
  }
}
