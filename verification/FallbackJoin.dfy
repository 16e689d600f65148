/** Joins for drivers without native ones, as storage/factory.go does them: one query per base row
    (`queryFallbackJoin`), or one query for all base rows whose result is grouped by key
    (`attachFallbackJoinsMany`). */
module FallbackJoin {
  import opened Wrappers

  datatype Value = Null | Text(text: string) | Number(number: int)

  datatype Relation = OneToOne | OneToMany

  /** A row of the joined table; `key` is its column on the join. */
  datatype Row<B> = Row(key: Value, body: B)

  /** How to join; `decode` turns a raw row into the record the caller sees, or fails. */
  datatype Plan<!B, !R, !E> = Plan(relation: Relation, limit: nat, decode: Row<B> -> Result<R, E>)
  {
    /** A one-to-one plan always asks for one row. */
    predicate Valid() { relation.OneToOne? ==> limit == 1 }
  }

  datatype Attached<R> = One(record: Option<R>) | Many(records: seq<R>)

  /** A base row: its column on the join, and what has been joined to it so far. */
  datatype Base<R> = Base(from: Value, joined: Option<Attached<R>>)

  // ----- the driver: queries return rows in table order

  function Matching<B>(table: seq<Row<B>>, vs: seq<Value>): seq<Row<B>> {
    if table == [] then []
    else
      var r := table[|table| - 1];
      var init := Matching(table[..|table| - 1], vs);
      if r.key in vs then init + [r] else init
  }

  function Take<T>(rows: seq<T>, limit: nat): (r: seq<T>)
    ensures |r| <= |rows| && |r| <= limit && (|rows| <= limit ==> r == rows)
  {
    if |rows| <= limit then rows else rows[..limit]
  }

  // ----- decoding

  function DecodeAll<B, R, E>(p: Plan<B, R, E>, rows: seq<Row<B>>): (r: Result<seq<R>, E>)
    ensures r.Ok? ==> |r.value| == |rows|
  {
    if rows == [] then Ok([])
    else match DecodeAll(p, rows[..|rows| - 1])
      case Err(e) => Err(e)
      case Ok(init) =>
        match p.decode(rows[|rows| - 1])
        case Err(e) => Err(e)
        case Ok(last) => Ok(init + [last])
  }

  /** Decoding one row more. */
  lemma {:induction false} DecodeAppend<B, R, E>(p: Plan<B, R, E>, rows: seq<Row<B>>, row: Row<B>)
    ensures DecodeAll(p, rows + [row]) ==
              if DecodeAll(p, rows).Err? then DecodeAll(p, rows)
              else if p.decode(row).Err? then Err(p.decode(row).error)
              else Ok(DecodeAll(p, rows).value + [p.decode(row).value])
  {
    assert (rows + [row])[..|rows|] == rows;
  }

  lemma {:induction false} MatchingAppend<B>(rows: seq<Row<B>>, row: Row<B>, vs: seq<Value>)
    ensures Matching(rows + [row], vs) == if row.key in vs then Matching(rows, vs) + [row] else Matching(rows, vs)
  {
    assert (rows + [row])[..|rows|] == rows;
  }

  function Attach<B, R, E>(p: Plan<B, R, E>, records: seq<R>): Attached<R> {
    if p.relation.OneToMany? then Many(records)
    else One(if records == [] then None else Some(records[0]))
  }

  function AttachDecoded<B, R, E>(p: Plan<B, R, E>, rows: seq<Row<B>>): Result<Attached<R>, E> {
    match DecodeAll(p, rows)
    case Err(e) => Err(e)
    case Ok(records) => Ok(Attach(p, records))
  }

  /** Decoding keeps order, row by row, and fails with the first row that fails. */
  lemma {:induction false} DecodedIs<B, R, E>(p: Plan<B, R, E>, rows: seq<Row<B>>)
    ensures DecodeAll(p, rows).Ok? ==>
              |DecodeAll(p, rows).value| == |rows| &&
              forall i | 0 <= i < |rows| :: p.decode(rows[i]) == Ok(DecodeAll(p, rows).value[i])
    ensures DecodeAll(p, rows).Err? ==>
              exists i :: 0 <= i < |rows| && p.decode(rows[i]) == Err(DecodeAll(p, rows).error) &&
                          forall j | 0 <= j < i :: p.decode(rows[j]).Ok?
  {
    if rows != [] {
      var n := |rows| - 1;
      DecodedIs(p, rows[..n]);
      assert forall i | 0 <= i < n :: rows[..n][i] == rows[i];
      if DecodeAll(p, rows[..n]).Ok? && p.decode(rows[n]).Err? {
        assert forall j | 0 <= j < n :: p.decode(rows[j]).Ok?;
      }
    }
  }

  /** A query keeps the order of the table. */
  lemma {:induction false} MatchingInOrder<B>(a: seq<Row<B>>, b: seq<Row<B>>, vs: seq<Value>)
    ensures Matching(a + b, vs) == Matching(a, vs) + Matching(b, vs)
  {
    if b == [] {
      assert a + b == a;
    } else {
      var n := |b| - 1;
      MatchingInOrder(a, b[..n], vs);
      assert (a + b)[..|a + b| - 1] == a + b[..n];
    }
  }

  // ----- one query per row

  function PerRow<B, R, E>(p: Plan<B, R, E>, table: seq<Row<B>>, v: Value): Result<Attached<R>, E> {
    if v.Null? then Ok(Attach(p, []))
    else
      var limit := if p.relation.OneToOne? then 1 else p.limit;
      AttachDecoded(p, Take(Matching(table, [v]), limit))
  }

  method QueryFallbackJoin<B, R, E>(p: Plan<B, R, E>, table: seq<Row<B>>, v: Value) returns (r: Result<Attached<R>, E>)
    ensures r == PerRow(p, table, v)
  {
    if v.Null? {
      return Ok(if p.relation.OneToOne? then One(None) else Many([]));
    }
    var found := Matching(table, [v]);
    if p.relation.OneToOne? {
      if |found| == 0 {
        return Ok(One(None));
      }
      var decoded := p.decode(found[0]);
      assert Take(found, 1) == [] + [found[0]];
      DecodeAppend(p, [], found[0]);
      return if decoded.Err? then Err(decoded.error) else Ok(One(Some(decoded.value)));
    }
    var raw := Take(found, p.limit);
    var result := [];
    for i := 0 to |raw|
      invariant DecodeAll(p, raw[..i]) == Ok(result)
    {
      assert raw[..i + 1][..i] == raw[..i];
      var decoded := p.decode(raw[i]);
      if decoded.Err? {
        DecodeFails(p, raw, i + 1);
        return Err(decoded.error);
      }
      result := result + [decoded.value];
    }
    assert raw[..|raw|] == raw;
    return Ok(Many(result));
  }

  /** What a single query joins: nothing to a null key; to another the first row of the key, or its first
      rows up to the limit, decoded in order. */
  lemma {:induction false} PerRowGives<B, R, E>(p: Plan<B, R, E>, table: seq<Row<B>>, v: Value)
    requires PerRow(p, table, v).Ok?
    ensures v.Null? ==> PerRow(p, table, v).value == if p.relation.OneToOne? then One(None) else Many([])
    ensures !v.Null? && p.relation.OneToOne? ==>
              var rows := Matching(table, [v]);
              if rows == [] then PerRow(p, table, v).value == One(None)
              else p.decode(rows[0]).Ok? && PerRow(p, table, v).value == One(Some(p.decode(rows[0]).value))
    ensures !v.Null? && p.relation.OneToMany? ==>
              var rows := Matching(table, [v]);
              && PerRow(p, table, v).value.Many?
              && var records := PerRow(p, table, v).value.records;
                 && |records| == (if |rows| < p.limit then |rows| else p.limit)
                 && forall i | 0 <= i < |records| :: p.decode(rows[i]) == Ok(records[i])
  {
    if !v.Null? {
      var limit := if p.relation.OneToOne? then 1 else p.limit;
      DecodedIs(p, Take(Matching(table, [v]), limit));
    }
  }

  lemma {:induction false} DecodeFails<B, R, E>(p: Plan<B, R, E>, rows: seq<Row<B>>, n: nat)
    requires n <= |rows| && DecodeAll(p, rows[..n]).Err?
    ensures DecodeAll(p, rows) == DecodeAll(p, rows[..n])
    decreases |rows|
  {
    if n < |rows| {
      assert rows[..|rows| - 1][..n] == rows[..n];
      DecodeFails(p, rows[..|rows| - 1], n);
    } else {
      assert rows[..n] == rows;
    }
  }

  // ----- one query for all rows

  /** The distinct non-null keys of the base rows, in order of first appearance. */
  function Keys<R>(rows: seq<Base<R>>): seq<Value> {
    if rows == [] then []
    else
      var init := Keys(rows[..|rows| - 1]);
      var v := rows[|rows| - 1].from;
      if v.Null? || v in init then init else init + [v]
  }

  function BatchLimit(limit: nat, keys: nat): nat {
    if limit > 0 && keys > 1 then limit * keys else limit
  }

  function Fetched<B, R, E>(p: Plan<B, R, E>, table: seq<Row<B>>, vs: seq<Value>): seq<Row<B>> {
    if vs == [] then [] else Take(Matching(table, vs), BatchLimit(p.limit, |vs|))
  }

  /** What the batch joins to a base row with key `v`. */
  function Batched<B, R, E>(p: Plan<B, R, E>, table: seq<Row<B>>, vs: seq<Value>, v: Value): Result<Attached<R>, E> {
    match DecodeAll(p, Fetched(p, table, vs))
    case Err(e) => Err(e)
    case Ok(_) => AttachDecoded(p, Matching(Fetched(p, table, vs), [v]))
  }

  function GroupOf<R>(grouped: map<Value, seq<R>>, v: Value): seq<R> {
    if v in grouped then grouped[v] else []
  }

  /** The decoded rows by key, each group in row order. */
  function Grouped<B, R, E>(p: Plan<B, R, E>, rows: seq<Row<B>>): Result<map<Value, seq<R>>, E> {
    if rows == [] then Ok(map[])
    else match Grouped(p, rows[..|rows| - 1])
      case Err(e) => Err(e)
      case Ok(m) =>
        var row := rows[|rows| - 1];
        match p.decode(row)
        case Err(e) => Err(e)
        case Ok(record) => Ok(m[row.key := GroupOf(m, row.key) + [record]])
  }

  /** Grouping decodes every row, and the group of `v` is what decoding the rows of `v` gives. */
  lemma {:induction false} GroupedIsMatching<B, R, E>(p: Plan<B, R, E>, rows: seq<Row<B>>, v: Value)
    ensures Grouped(p, rows).Err? ==> DecodeAll(p, rows) == Err(Grouped(p, rows).error)
    ensures Grouped(p, rows).Ok? ==>
              DecodeAll(p, rows).Ok? && DecodeAll(p, Matching(rows, [v])) == Ok(GroupOf(Grouped(p, rows).value, v))
  {
    if rows != [] {
      var n := |rows| - 1;
      var init, row := rows[..n], rows[n];
      assert rows == init + [row];
      GroupedIsMatching(p, init, v);
      DecodeAppend(p, init, row);
      MatchingAppend(init, row, [v]);
      if row.key == v { DecodeAppend(p, Matching(init, [v]), row); }
    }
  }

  lemma {:induction false} GroupedFails<B, R, E>(p: Plan<B, R, E>, rows: seq<Row<B>>, n: nat)
    requires n <= |rows| && Grouped(p, rows[..n]).Err?
    ensures Grouped(p, rows) == Grouped(p, rows[..n])
    decreases |rows|
  {
    if n < |rows| {
      assert rows[..|rows| - 1][..n] == rows[..n];
      GroupedFails(p, rows[..|rows| - 1], n);
    } else {
      assert rows[..n] == rows;
    }
  }

  method Group<B, R, E>(p: Plan<B, R, E>, rows: seq<Row<B>>) returns (r: Result<map<Value, seq<R>>, E>)
    ensures r == Grouped(p, rows)
  {
    var grouped: map<Value, seq<R>> := map[];
    for i := 0 to |rows|
      invariant Grouped(p, rows[..i]) == Ok(grouped)
    {
      assert rows[..i + 1][..i] == rows[..i];
      var decoded := p.decode(rows[i]);
      if decoded.Err? {
        GroupedFails(p, rows, i + 1);
        return Err(decoded.error);
      }
      var key := rows[i].key;
      grouped := grouped[key := GroupOf(grouped, key) + [decoded.value]];
    }
    assert rows[..|rows|] == rows;
    return Ok(grouped);
  }

  /** The batch attaches to every base row, or fails before it has attached anything. */
  method AttachFallbackJoinsMany<B, R, E>(p: Plan<B, R, E>, table: seq<Row<B>>, rows: array<Base<R>>)
    returns (error: Option<E>)
    modifies rows
    ensures error.Some? ==> rows[..] == old(rows[..])
    ensures error.Some? <==> DecodeAll(p, Fetched(p, table, Keys(old(rows[..])))).Err?
    ensures error.None? ==> forall i | 0 <= i < rows.Length ::
              && rows[i].from == old(rows[i].from) && rows[i].joined.Some?
              && Batched(p, table, Keys(old(rows[..])), rows[i].from) == Ok(rows[i].joined.value)
  {
    var values: seq<Value> := [];
    for i := 0 to rows.Length
      invariant values == Keys(rows[..i]) && rows[..] == old(rows[..])
    {
      var v := rows[i].from;
      assert rows[..i + 1][..i] == rows[..i];
      if !v.Null? && v !in values {
        values := values + [v];
      }
    }
    assert rows[..rows.Length] == rows[..];
    var raw := [];
    if |values| > 0 {
      var limit := p.limit;
      if limit > 0 && |values| > 1 {
        limit := limit * |values|;
      }
      raw := Take(Matching(table, values), limit);
    }
    var grouped := Group(p, raw);
    ghost var keys := Keys(old(rows[..]));
    assert raw == Fetched(p, table, keys);
    GroupedIsMatching(p, raw, Null);
    if grouped.Err? {
      return Some(grouped.error);
    }
    for i := 0 to rows.Length
      invariant forall j | i <= j < rows.Length :: rows[j] == old(rows[j])
      invariant forall j | 0 <= j < i ::
        && rows[j].from == old(rows[j].from) && rows[j].joined.Some?
        && Batched(p, table, keys, rows[j].from) == Ok(rows[j].joined.value)
    {
      var v := rows[i].from;
      var matches := GroupOf(grouped.value, v);
      GroupedIsMatching(p, raw, v);
      rows[i] := rows[i].(joined := Some(Attach(p, matches)));
    }
    return None;
  }

  // ----- the batch against the single queries

  function Count<B>(table: seq<Row<B>>, v: Value): nat {
    |Matching(table, [v])|
  }

  function SumCounts<B>(table: seq<Row<B>>, vs: seq<Value>): nat {
    if vs == [] then 0 else SumCounts(table, vs[..|vs| - 1]) + Count(table, vs[|vs| - 1])
  }

  predicate Distinct(vs: seq<Value>) {
    forall i, j | 0 <= i < j < |vs| :: vs[i] != vs[j]
  }

  lemma {:induction false} SumCountsAppend<B>(table: seq<Row<B>>, row: Row<B>, vs: seq<Value>)
    requires Distinct(vs)
    ensures SumCounts(table + [row], vs) == SumCounts(table, vs) + (if row.key in vs then 1 else 0)
  {
    if vs != [] {
      var n := |vs| - 1;
      SumCountsAppend(table, row, vs[..n]);
      MatchingAppend(table, row, [vs[n]]);
      assert vs == vs[..n] + [vs[n]];
    }
  }

  lemma {:induction false} SumCountsEmpty<B>(vs: seq<Value>)
    ensures SumCounts<B>([], vs) == 0
  {
    if vs != [] { SumCountsEmpty<B>(vs[..|vs| - 1]); }
  }

  /** A query for several keys finds as many rows as the queries for each of them together. */
  lemma {:induction false} MatchingCount<B>(table: seq<Row<B>>, vs: seq<Value>)
    requires Distinct(vs)
    ensures |Matching(table, vs)| == SumCounts(table, vs)
  {
    if table == [] {
      SumCountsEmpty<B>(vs);
    } else {
      var n := |table| - 1;
      MatchingCount(table[..n], vs);
      SumCountsAppend(table[..n], table[n], vs);
      assert table == table[..n] + [table[n]];
    }
  }

  lemma {:induction false} MatchingTwice<B>(table: seq<Row<B>>, vs: seq<Value>, v: Value)
    ensures Matching(Matching(table, vs), [v]) == if v in vs then Matching(table, [v]) else []
  {
    if table != [] {
      var n := |table| - 1;
      MatchingTwice(table[..n], vs, v);
      MatchingAppend(Matching(table[..n], vs), table[n], [v]);
    }
  }

  lemma {:induction false} MatchingMembers<B>(table: seq<Row<B>>, vs: seq<Value>, r: Row<B>)
    ensures r in Matching(table, vs) <==> r in table && r.key in vs
  {
    if table != [] {
      MatchingMembers(table[..|table| - 1], vs, r);
      assert table == table[..|table| - 1] + [table[|table| - 1]];
    }
  }

  lemma {:induction false} DecodesIff<B, R, E>(p: Plan<B, R, E>, rows: seq<Row<B>>)
    ensures DecodeAll(p, rows).Ok? <==> forall i | 0 <= i < |rows| :: p.decode(rows[i]).Ok?
  {
    if rows != [] { DecodesIff(p, rows[..|rows| - 1]); }
  }

  lemma {:induction false} KeysMembers<R>(rows: seq<Base<R>>)
    ensures Distinct(Keys(rows)) && Null !in Keys(rows)
    ensures forall i | 0 <= i < |rows| && !rows[i].from.Null? :: rows[i].from in Keys(rows)
    ensures forall v | v in Keys(rows) :: exists i :: 0 <= i < |rows| && rows[i].from == v
  {
    if rows != [] {
      var n := |rows| - 1;
      KeysMembers(rows[..n]);
      forall v | v in Keys(rows) ensures exists i :: 0 <= i < |rows| && rows[i].from == v {
        if v in Keys(rows[..n]) {
          var i :| 0 <= i < n && rows[..n][i].from == v;
          assert rows[i].from == v;
        }
      }
    }
  }

  predicate WithinLimit<B>(table: seq<Row<B>>, vs: seq<Value>, limit: nat) {
    forall i | 0 <= i < |vs| :: Count(table, vs[i]) <= limit
  }

  lemma {:induction false} SumWithinLimit<B>(table: seq<Row<B>>, vs: seq<Value>, limit: nat)
    requires WithinLimit(table, vs, limit)
    ensures SumCounts(table, vs) <= limit * |vs|
  {
    if vs != [] {
      var n := |vs| - 1;
      SumWithinLimit(table, vs[..n], limit);
      assert Count(table, vs[n]) <= limit;
    }
  }

  /** Within the limit the one query of the batch fetches every row it asks for. */
  lemma {:induction false} FetchesAll<B, R, E>(p: Plan<B, R, E>, table: seq<Row<B>>, vs: seq<Value>)
    requires vs != [] && Distinct(vs) && WithinLimit(table, vs, p.limit)
    ensures Fetched(p, table, vs) == Matching(table, vs)
  {
    MatchingCount(table, vs);
    SumWithinLimit(table, vs, p.limit);
    if |vs| == 1 { assert p.limit * |vs| == p.limit; }
    if p.limit == 0 { assert p.limit * |vs| == 0; }
  }

  /** If no key has more joined rows than the plan's limit, the batch joins to every base row exactly
      what its own query would, in the same order; and it fails exactly when one of those would. */
  lemma {:induction false} BatchIsPerRow<B, R, E>(p: Plan<B, R, E>, table: seq<Row<B>>, rows: seq<Base<R>>)
    requires p.Valid() && WithinLimit(table, Keys(rows), p.limit)
    ensures DecodeAll(p, Fetched(p, table, Keys(rows))).Err? <==>
              exists i :: 0 <= i < |rows| && PerRow(p, table, rows[i].from).Err?
    ensures DecodeAll(p, Fetched(p, table, Keys(rows))).Ok? ==>
              forall i | 0 <= i < |rows| :: Batched(p, table, Keys(rows), rows[i].from) == PerRow(p, table, rows[i].from)
  {
    var vs := Keys(rows);
    KeysMembers(rows);
    if vs != [] { FetchesAll(p, table, vs); }
    forall i | 0 <= i < |rows| ensures
      DecodeAll(p, Fetched(p, table, vs)).Ok? ==> Batched(p, table, vs, rows[i].from) == PerRow(p, table, rows[i].from)
    {
      if !rows[i].from.Null? || vs != [] { MatchingTwice(table, vs, rows[i].from); }
      if !rows[i].from.Null? { SingleQuery(p, table, vs, rows[i].from); }
    }
    if DecodeAll(p, Fetched(p, table, vs)).Err? {
      var i := FailingRow(p, table, rows);
    } else {
      forall i | 0 <= i < |rows| && !rows[i].from.Null? ensures PerRow(p, table, rows[i].from).Ok? {
        SelectionDecodes(p, Fetched(p, table, vs), [rows[i].from]);
      }
    }
  }

  lemma {:induction false} SingleQuery<B, R, E>(p: Plan<B, R, E>, table: seq<Row<B>>, vs: seq<Value>, v: Value)
    requires p.Valid() && WithinLimit(table, vs, p.limit) && v in vs && !v.Null?
    ensures PerRow(p, table, v) == AttachDecoded(p, Matching(table, [v]))
  {
    var i :| 0 <= i < |vs| && vs[i] == v;
    assert Count(table, vs[i]) <= p.limit;
  }

  lemma {:induction false} SelectionDecodes<B, R, E>(p: Plan<B, R, E>, rows: seq<Row<B>>, vs: seq<Value>)
    requires DecodeAll(p, rows).Ok?
    ensures DecodeAll(p, Matching(rows, vs)).Ok?
  {
    if rows != [] {
      var n := |rows| - 1;
      SelectionDecodes(p, rows[..n], vs);
      DecodeAppend(p, Matching(rows[..n], vs), rows[n]);
    }
  }

  lemma {:induction false} FailingRow<B, R, E>(p: Plan<B, R, E>, table: seq<Row<B>>, rows: seq<Base<R>>) returns (i: nat)
    requires p.Valid() && WithinLimit(table, Keys(rows), p.limit)
    requires DecodeAll(p, Fetched(p, table, Keys(rows))).Err?
    ensures i < |rows| && PerRow(p, table, rows[i].from).Err?
  {
    var vs := Keys(rows);
    KeysMembers(rows);
    FetchesAll(p, table, vs);
    DecodesIff(p, Matching(table, vs));
    var k :| 0 <= k < |Matching(table, vs)| && p.decode(Matching(table, vs)[k]).Err?;
    var r := Matching(table, vs)[k];
    MatchingMembers(table, vs, r);
    i :| 0 <= i < |rows| && rows[i].from == r.key;
    MatchingMembers(table, [r.key], r);
    DecodesIff(p, Matching(table, [r.key]));
    SingleQuery(p, table, vs, r.key);
  }

  /** Over a unique column a one-to-one plan stays within its limit by itself. */
  lemma {:induction false} UniqueIsWithinLimit<B, R, E>(p: Plan<B, R, E>, table: seq<Row<B>>, vs: seq<Value>)
    requires p.Valid() && p.relation.OneToOne?
    requires forall i, j | 0 <= i < j < |table| :: table[i].key != table[j].key
    ensures WithinLimit(table, vs, p.limit)
  {
    forall i | 0 <= i < |vs| ensures Count(table, vs[i]) <= 1 { UniqueCount(table, vs[i]); }
  }

  lemma {:induction false} UniqueCount<B>(table: seq<Row<B>>, v: Value)
    requires forall i, j | 0 <= i < j < |table| :: table[i].key != table[j].key
    ensures Count(table, v) <= 1
  {
    if table != [] {
      var n := |table| - 1;
      UniqueCount(table[..n], v);
      if table[n].key == v && Matching(table[..n], [v]) != [] {
        MatchingMembers(table[..n], [v], Matching(table[..n], [v])[0]);
      }
    }
  }

  // ----- exactly when they agree

  function Min(a: nat, b: nat): nat {
    if a < b then a else b
  }

  function SumMin<B>(table: seq<Row<B>>, vs: seq<Value>, limit: nat): nat {
    if vs == [] then 0
    else SumMin(table, vs[..|vs| - 1], limit) + Min(limit, Count(table, vs[|vs| - 1]))
  }

  lemma {:induction false} SumMinAtMost<B>(table: seq<Row<B>>, vs: seq<Value>, limit: nat)
    ensures SumMin(table, vs, limit) <= limit * |vs| && SumMin(table, vs, limit) <= SumCounts(table, vs)
  {
    if vs != [] {
      SumMinAtMost(table, vs[..|vs| - 1], limit);
      assert limit * |vs| == limit * (|vs| - 1) + limit;
    }
  }

  /** A key below the limit keeps the sum below its most, and a key above it below the count. */
  lemma {:induction false} SumMinBelow<B>(table: seq<Row<B>>, vs: seq<Value>, limit: nat, i: nat)
    requires i < |vs|
    ensures Count(table, vs[i]) < limit ==> SumMin(table, vs, limit) < limit * |vs|
    ensures Count(table, vs[i]) > limit ==> SumMin(table, vs, limit) < SumCounts(table, vs)
  {
    var n := |vs| - 1;
    if i < n { SumMinBelow(table, vs[..n], limit, i); }
    SumMinAtMost(table, vs[..n], limit);
    assert limit * |vs| == limit * n + limit;
  }

  lemma {:induction false} SumMinIsSum<B>(fetched: seq<Row<B>>, table: seq<Row<B>>, vs: seq<Value>, limit: nat)
    requires forall i | 0 <= i < |vs| :: Count(fetched, vs[i]) == Min(limit, Count(table, vs[i]))
    ensures SumCounts(fetched, vs) == SumMin(table, vs, limit)
  {
    if vs != [] {
      var n := |vs| - 1;
      SumMinIsSum(fetched, table, vs[..n], limit);
      assert Count(fetched, vs[n]) == Min(limit, Count(table, vs[n]));
    }
  }

  lemma {:induction false} MatchingPrefix<B>(rows: seq<Row<B>>, k: nat, vs: seq<Value>)
    requires k <= |rows|
    ensures Matching(rows[..k], vs) <= Matching(rows, vs)
    decreases |rows|
  {
    if k < |rows| {
      var n := |rows| - 1;
      assert rows[..n][..k] == rows[..k];
      MatchingPrefix(rows[..n], k, vs);
    } else {
      assert rows[..k] == rows;
    }
  }

  lemma {:induction false} MatchingAll<B>(rows: seq<Row<B>>, vs: seq<Value>)
    requires forall i | 0 <= i < |rows| :: rows[i].key in vs
    ensures Matching(rows, vs) == rows
  {
    if rows != [] {
      MatchingAll(rows[..|rows| - 1], vs);
      assert rows == rows[..|rows| - 1] + [rows[|rows| - 1]];
    }
  }

  lemma {:induction false} FetchedKeys<B, R, E>(p: Plan<B, R, E>, table: seq<Row<B>>, vs: seq<Value>)
    requires vs != []
    ensures Matching(Fetched(p, table, vs), vs) == Fetched(p, table, vs)
  {
    var fetched := Fetched(p, table, vs);
    forall i | 0 <= i < |fetched| ensures fetched[i].key in vs {
      assert fetched[i] == Matching(table, vs)[i];
      MatchingMembers(table, vs, fetched[i]);
    }
    MatchingAll(fetched, vs);
  }

  /** The rows of `v` that the batch fetches are the first of its rows. */
  lemma {:induction false} FetchedPrefix<B, R, E>(p: Plan<B, R, E>, table: seq<Row<B>>, vs: seq<Value>, v: Value)
    requires v in vs
    ensures Matching(Fetched(p, table, vs), [v]) <= Matching(table, [v])
  {
    MatchingTwice(table, vs, v);
    var all := Matching(table, vs);
    var fetched := Fetched(p, table, vs);
    assert fetched == all[..|fetched|];
    MatchingPrefix(all, |fetched|, [v]);
  }

  ghost predicate AgreeOn<B, R, E>(p: Plan<B, R, E>, table: seq<Row<B>>, vs: seq<Value>) {
    forall i | 0 <= i < |vs| :: Batched(p, table, vs, vs[i]) == PerRow(p, table, vs[i])
  }

  /** Every key fills the limit exactly, within the rows that the batch fetches. */
  predicate Balanced<B, R, E>(p: Plan<B, R, E>, table: seq<Row<B>>, vs: seq<Value>) {
    forall i | 0 <= i < |vs| :: Count(Fetched(p, table, vs), vs[i]) == p.limit
  }

  lemma {:induction false} PrefixDecodes<B, R, E>(p: Plan<B, R, E>, rows: seq<Row<B>>, k: nat)
    requires DecodeAll(p, rows).Ok? && k <= |rows|
    ensures DecodeAll(p, rows[..k]).Ok?
  {
    DecodesIff(p, rows);
    DecodesIff(p, rows[..k]);
  }

  /** For one key: batch and query agree when they keep equally many of its rows. */
  lemma {:induction false} AgreeIffCounts<B, R, E>(p: Plan<B, R, E>, table: seq<Row<B>>, vs: seq<Value>, v: Value)
    requires p.relation.OneToMany? && DecodeAll(p, Fetched(p, table, vs)).Ok? && v in vs && !v.Null?
    ensures Batched(p, table, vs, v) == PerRow(p, table, v) <==>
              Count(Fetched(p, table, vs), v) == Min(p.limit, Count(table, v))
  {
    SelectionDecodes(p, Fetched(p, table, vs), [v]);
    FetchedPrefix(p, table, vs, v);
    var mine, all := Matching(Fetched(p, table, vs), [v]), Matching(table, [v]);
    assert Take(all, p.limit) == all[..Min(p.limit, |all|)];
    assert mine == all[..|mine|];
    if Min(p.limit, |all|) < |mine| {
      PrefixDecodes(p, mine, Min(p.limit, |all|));
      assert mine[..Min(p.limit, |all|)] == all[..Min(p.limit, |all|)];
    }
  }

  /** The batch agrees with the single queries on every key if and only if no key has more rows than
      the limit, or every key fills the limit exactly within the rows fetched. */
  lemma {:induction false} AgreeIff<B, R, E>(p: Plan<B, R, E>, table: seq<Row<B>>, vs: seq<Value>)
    requires p.relation.OneToMany? && DecodeAll(p, Fetched(p, table, vs)).Ok? && Distinct(vs) && Null !in vs
    ensures AgreeOn(p, table, vs) <==> WithinLimit(table, vs, p.limit) || Balanced(p, table, vs)
  {
    var fetched := Fetched(p, table, vs);
    forall i | 0 <= i < |vs| ensures
      && (Batched(p, table, vs, vs[i]) == PerRow(p, table, vs[i]) <==>
          Count(fetched, vs[i]) == Min(p.limit, Count(table, vs[i])))
      && Count(fetched, vs[i]) <= Count(table, vs[i])
      && (WithinLimit(table, vs, p.limit) ==> Count(fetched, vs[i]) == Count(table, vs[i]))
    {
      AgreeIffCounts(p, table, vs, vs[i]);
      FetchedPrefix(p, table, vs, vs[i]);
      if WithinLimit(table, vs, p.limit) {
        FetchesAll(p, table, vs);
        MatchingTwice(table, vs, vs[i]);
      }
    }
    if AgreeOn(p, table, vs) && !WithinLimit(table, vs, p.limit) {
      NoneIsShort(p, table, vs);
    }
  }

  /** The batch fetches a row for every key that has one. */
  predicate Reaches<B, R, E>(p: Plan<B, R, E>, table: seq<Row<B>>, vs: seq<Value>) {
    forall i | 0 <= i < |vs| && Count(table, vs[i]) > 0 :: Count(Fetched(p, table, vs), vs[i]) > 0
  }

  lemma {:induction false} OneAgreesIff<B, R, E>(p: Plan<B, R, E>, table: seq<Row<B>>, vs: seq<Value>, v: Value)
    requires p.Valid() && p.relation.OneToOne? && DecodeAll(p, Fetched(p, table, vs)).Ok? && v in vs && !v.Null?
    ensures Batched(p, table, vs, v) == PerRow(p, table, v) <==>
              (Count(table, v) > 0 ==> Count(Fetched(p, table, vs), v) > 0)
  {
    SelectionDecodes(p, Fetched(p, table, vs), [v]);
    FetchedPrefix(p, table, vs, v);
    var mine, all := Matching(Fetched(p, table, vs), [v]), Matching(table, [v]);
    assert mine == all[..|mine|];
    if all == [] {
      assert mine == [];
    } else {
      assert Take(all, 1) == [all[0]];
      if mine != [] { FirstDecodes(p, mine); }
    }
  }

  /** The first record of many is the record of the first row. */
  lemma {:induction false} FirstDecodes<B, R, E>(p: Plan<B, R, E>, rows: seq<Row<B>>)
    requires rows != [] && DecodeAll(p, rows).Ok?
    ensures DecodeAll(p, [rows[0]]) == Ok([DecodeAll(p, rows).value[0]])
  {
    if |rows| == 1 {
      var records := DecodeAll(p, rows).value;
      assert rows == [rows[0]] && records == [records[0]];
    } else {
      FirstDecodes(p, rows[..|rows| - 1]);
    }
  }

  /** A one-to-one batch agrees with the single queries on every key if and only if it reaches every key. */
  lemma {:induction false} OneToOneAgreeIff<B, R, E>(p: Plan<B, R, E>, table: seq<Row<B>>, vs: seq<Value>)
    requires p.Valid() && p.relation.OneToOne? && DecodeAll(p, Fetched(p, table, vs)).Ok? && Null !in vs
    ensures AgreeOn(p, table, vs) <==> Reaches(p, table, vs)
  {
    forall i | 0 <= i < |vs| ensures
      Batched(p, table, vs, vs[i]) == PerRow(p, table, vs[i]) <==>
        (Count(table, vs[i]) > 0 ==> Count(Fetched(p, table, vs), vs[i]) > 0)
    {
      OneAgreesIff(p, table, vs, vs[i]);
    }
  }

  lemma {:induction false} NoneIsShort<B, R, E>(p: Plan<B, R, E>, table: seq<Row<B>>, vs: seq<Value>)
    requires Distinct(vs) && !WithinLimit(table, vs, p.limit)
    requires forall i | 0 <= i < |vs| :: Count(Fetched(p, table, vs), vs[i]) == Min(p.limit, Count(table, vs[i]))
    ensures forall i | 0 <= i < |vs| :: Count(table, vs[i]) >= p.limit
  {
    var fetched := Fetched(p, table, vs);
    FetchedKeys(p, table, vs);
    MatchingCount(fetched, vs);
    MatchingCount(table, vs);
    SumMinIsSum(fetched, table, vs, p.limit);
    SumMinAtMost(table, vs, p.limit);
    forall i | 0 <= i < |vs| ensures Count(table, vs[i]) < p.limit ==> SumMin(table, vs, p.limit) < p.limit * |vs| {
      SumMinBelow(table, vs, p.limit, i);
    }
    var over :| 0 <= over < |vs| && Count(table, vs[over]) > p.limit;
    SumMinBelow(table, vs, p.limit, over);
    if |vs| == 1 { assert p.limit * |vs| == p.limit; }
  }

  /** One total limit can starve a key: with two rows for the first key, a one-to-one batch over two
      keys leaves the second without its row. */
  lemma {:induction false} OneToOneStarves<B, R, E>(p: Plan<B, R, E>, body: B, record: R)
    requires p.Valid() && p.relation.OneToOne? && forall r :: p.decode(r) == Ok(record)
    ensures var a, b := Number(1), Number(2);
            var table := [Row(a, body), Row(a, body), Row(b, body)];
            && Batched(p, table, [a, b], b) == Ok(One(None))
            && PerRow(p, table, b) == Ok(One(Some(record)))
  {
    var a, b := Number(1), Number(2);
    var ra, rb := Row(a, body), Row(b, body);
    var table := [ra, ra, rb];
    assert table == [ra] + [ra] + [rb] && [ra] == [] + [ra];
    assert Matching(table, [a, b]) == table by {
      MatchingAll(table, [a, b]);
    }
    assert Fetched(p, table, [a, b]) == [ra, ra];
    assert Matching([ra, ra], [b]) == [] by {
      assert [ra, ra][..1] == [ra] && [ra][..0] == [];
      assert Matching([ra], [b]) == [];
    }
    assert Matching(table, [b]) == [rb] by {
      assert table[..2] == [ra, ra];
    }
    DecodesIff(p, [ra, ra]);
    DecodeAppend(p, [], rb);
    assert [] + [rb] == [rb];
  }
}
