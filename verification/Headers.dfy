/** Header collections of core/contract/headers.go: ordered, case-insensitive, one entry per line. */
module Headers {
  datatype Field = Field(name: string, value: string)

  function Lower(c: char): char {
    if 'A' <= c <= 'Z' then (c as int - 'A' as int + 'a' as int) as char else c
  }

  /** Two names are the same header when they fold to the same text. */
  function Fold(name: string): (r: string)
    ensures |r| == |name|
  {
    seq(|name|, i requires 0 <= i < |name| => Lower(name[i]))
  }

  const SET_COOKIE := "set-cookie"

  predicate IsCookie(f: Field) {
    Fold(f.name) == SET_COOKIE
  }

  /** No field has an empty name: those are never added. */
  predicate Named(h: seq<Field>) {
    forall i | 0 <= i < |h| :: h[i].name != ""
  }

  // ----- what the operations amount to

  /** The lines whose folded name is not in `names`. */
  function Drop(h: seq<Field>, names: set<string>): seq<Field> {
    if h == [] then []
    else
      var init := Drop(h[..|h| - 1], names);
      var last := h[|h| - 1];
      if Fold(last.name) in names then init else init + [last]
  }

  /** The names that a merge of `src` replaces: all but the cookies. */
  function Overlaid(src: seq<Field>): set<string> {
    set i | 0 <= i < |src| && !IsCookie(src[i]) :: Fold(src[i].name)
  }

  /** Drop the overlaid names from the left, then append the right. */
  function Merge(h: seq<Field>, src: seq<Field>): seq<Field> {
    Drop(h, Overlaid(src)) + src
  }

  /** The values of the Set-Cookie lines, in wire order. */
  function Cookies(h: seq<Field>): seq<string> {
    if h == [] then []
    else
      var init := Cookies(h[..|h| - 1]);
      if IsCookie(h[|h| - 1]) then init + [h[|h| - 1].value] else init
  }

  function Values(h: seq<Field>, name: string): seq<string> {
    if h == [] then []
    else
      var init := Values(h[..|h| - 1], name);
      if Fold(h[|h| - 1].name) == Fold(name) then init + [h[|h| - 1].value] else init
  }

  // ----- algebra

  lemma {:induction false} DropConcat(a: seq<Field>, b: seq<Field>, names: set<string>)
    ensures Drop(a + b, names) == Drop(a, names) + Drop(b, names)
  {
    if b == [] {
      assert a + b == a;
    } else {
      var n := |b| - 1;
      assert (a + b)[..|a + b| - 1] == a + b[..n];
      DropConcat(a, b[..n], names);
    }
  }

  lemma {:induction false} DropTwice(h: seq<Field>, names: set<string>, more: set<string>)
    ensures Drop(Drop(h, names), more) == Drop(h, names + more)
  {
    if h != [] {
      var n := |h| - 1;
      DropTwice(h[..n], names, more);
      DropConcat(Drop(h[..n], names), [h[n]], more);
      assert [h[n]][..0] == [];
    }
  }

  lemma {:induction false} DropNothing(h: seq<Field>, names: set<string>)
    requires forall i | 0 <= i < |h| :: Fold(h[i].name) !in names
    ensures Drop(h, names) == h
  {
    if h != [] {
      DropNothing(h[..|h| - 1], names);
      assert h == h[..|h| - 1] + [h[|h| - 1]];
    }
  }

  lemma {:induction false} DropMembers(h: seq<Field>, names: set<string>, f: Field)
    ensures f in Drop(h, names) <==> f in h && Fold(f.name) !in names
  {
    if h != [] {
      DropMembers(h[..|h| - 1], names, f);
      assert h == h[..|h| - 1] + [h[|h| - 1]];
    }
  }

  lemma OverlaidMember(h: seq<Field>, f: Field)
    requires f in h && !IsCookie(f)
    ensures Fold(f.name) in Overlaid(h)
  {
    var i :| 0 <= i < |h| && h[i] == f;
    assert Fold(h[i].name) in Overlaid(h);
  }

  /** The names a merge result overlays are those of both its parts. */
  lemma OverlaidMerge(b: seq<Field>, c: seq<Field>)
    ensures Overlaid(Merge(b, c)) == Overlaid(b) + Overlaid(c)
  {
    var m := Merge(b, c);
    forall x | x in Overlaid(m) ensures x in Overlaid(b) + Overlaid(c) {
      var i :| 0 <= i < |m| && !IsCookie(m[i]) && Fold(m[i].name) == x;
      DropMembers(b, Overlaid(c), m[i]);
      if m[i] in c { OverlaidMember(c, m[i]); } else { OverlaidMember(b, m[i]); }
    }
    forall x | x in Overlaid(b) + Overlaid(c) ensures x in Overlaid(m) {
      if x in Overlaid(c) {
        var i :| 0 <= i < |c| && !IsCookie(c[i]) && Fold(c[i].name) == x;
        assert c[i] in m;
        OverlaidMember(m, c[i]);
      } else {
        var i :| 0 <= i < |b| && !IsCookie(b[i]) && Fold(b[i].name) == x;
        DropMembers(b, Overlaid(c), b[i]);
        OverlaidMember(m, b[i]);
      }
    }
  }

  /** Merging is associative. */
  lemma MergeAssociative(a: seq<Field>, b: seq<Field>, c: seq<Field>)
    ensures Merge(Merge(a, b), c) == Merge(a, Merge(b, c))
  {
    DropConcat(Drop(a, Overlaid(b)), b, Overlaid(c));
    DropTwice(a, Overlaid(b), Overlaid(c));
    OverlaidMerge(b, c);
    assert Drop(a, Overlaid(b) + Overlaid(c)) + Drop(b, Overlaid(c)) + c ==
           Drop(a, Overlaid(b) + Overlaid(c)) + (Drop(b, Overlaid(c)) + c);
  }

  /** Merging nothing, or into nothing, changes nothing. */
  lemma MergeIdentity(h: seq<Field>)
    ensures Merge(h, []) == h && Merge([], h) == h
  {
    assert Overlaid([]) == {};
    DropNothing(h, {});
  }

  lemma {:induction false} CookiesConcat(a: seq<Field>, b: seq<Field>)
    ensures Cookies(a + b) == Cookies(a) + Cookies(b)
  {
    if b == [] {
      assert a + b == a;
    } else {
      assert (a + b)[..|a + b| - 1] == a + b[..|b| - 1];
      CookiesConcat(a, b[..|b| - 1]);
    }
  }

  lemma {:induction false} CookiesSurviveDrop(h: seq<Field>, names: set<string>)
    requires SET_COOKIE !in names
    ensures Cookies(Drop(h, names)) == Cookies(h)
  {
    if h != [] {
      var n := |h| - 1;
      CookiesSurviveDrop(h[..n], names);
      CookiesConcat(Drop(h[..n], names), [h[n]]);
      assert [h[n]][..0] == [];
    }
  }

  /** No cookie is ever lost to a merge, and none changes place. */
  lemma CookiesMerge(a: seq<Field>, b: seq<Field>)
    ensures Cookies(Merge(a, b)) == Cookies(a) + Cookies(b)
  {
    CookiesSurviveDrop(a, Overlaid(b));
    CookiesConcat(Drop(a, Overlaid(b)), b);
  }

  lemma {:induction false} ValuesConcat(a: seq<Field>, b: seq<Field>, name: string)
    ensures Values(a + b, name) == Values(a, name) + Values(b, name)
  {
    if b == [] {
      assert a + b == a;
    } else {
      assert (a + b)[..|a + b| - 1] == a + b[..|b| - 1];
      ValuesConcat(a, b[..|b| - 1], name);
    }
  }

  lemma {:induction false} ValuesDrop(h: seq<Field>, names: set<string>, name: string)
    ensures Values(Drop(h, names), name) == if Fold(name) in names then [] else Values(h, name)
  {
    if h != [] {
      var n := |h| - 1;
      ValuesDrop(h[..n], names, name);
      ValuesConcat(Drop(h[..n], names), [h[n]], name);
      assert [h[n]][..0] == [];
    }
  }

  lemma {:induction false} NoValues(h: seq<Field>, name: string)
    requires Fold(name) != SET_COOKIE && Fold(name) !in Overlaid(h)
    ensures Values(h, name) == []
  {
    if h != [] {
      var n := |h| - 1;
      assert forall i | 0 <= i < n :: h[..n][i] == h[i];
      assert Overlaid(h[..n]) <= Overlaid(h);
      NoValues(h[..n], name);
      if !IsCookie(h[n]) { OverlaidMember(h, h[n]); }
    }
  }

  /** Any other header has the values of the right, all of them, if the right has any, and else those
      of the left. */
  lemma ValuesMerge(a: seq<Field>, b: seq<Field>, name: string)
    requires Fold(name) != SET_COOKIE
    ensures Values(Merge(a, b), name) == if Fold(name) in Overlaid(b) then Values(b, name) else Values(a, name)
  {
    ValuesConcat(Drop(a, Overlaid(b)), b, name);
    ValuesDrop(a, Overlaid(b), name);
    if Fold(name) !in Overlaid(b) { NoValues(b, name); }
  }

  // ----- the code

  class Collection {
    var fields: seq<Field>

    constructor (fields: seq<Field>)
      ensures this.fields == fields
    {
      this.fields := fields;
    }

    method Add(name: string, value: string)
      modifies this
      ensures fields == if name == "" then old(fields) else old(fields) + [Field(name, value)]
    {
      if name == "" {
        return;
      }
      fields := fields + [Field(name, value)];
    }

    method Delete(name: string)
      modifies this
      ensures fields == Drop(old(fields), {Fold(name)})
    {
      var kept := [];
      for i := 0 to |fields|
        invariant fields == old(fields) && kept == Drop(fields[..i], {Fold(name)})
      {
        assert fields[..i + 1][..i] == fields[..i];
        if Fold(fields[i].name) != Fold(name) {
          kept := kept + [fields[i]];
        }
      }
      assert fields[..|fields|] == fields;
      fields := kept;
    }

    method Set(name: string, value: string)
      modifies this
      ensures fields == if name == "" then old(fields) else Drop(old(fields), {Fold(name)}) + [Field(name, value)]
    {
      if name == "" {
        return;
      }
      Delete(name);
      Add(name, value);
    }

    method MergeResponse(src: seq<Field>)
      requires Named(src)
      modifies this
      ensures fields == Merge(old(fields), src)
    {
      var seen: set<string> := {};
      MergeIdentity(fields);
      for i := 0 to |src|
        invariant seen == Overlaid(src[..i])
        invariant fields == Merge(old(fields), src[..i])
      {
        assert src[..i + 1] == src[..i] + [src[i]];
        MergeOne(old(fields), src[..i], src[i]);
        var folded := Fold(src[i].name);
        if !IsCookie(src[i]) && folded !in seen {
          Delete(src[i].name);
          seen := seen + {folded};
        }
        Add(src[i].name, src[i].value);
      }
      assert src[..|src|] == src;
    }
  }

  lemma OverlaidAppend(src: seq<Field>, f: Field)
    ensures Overlaid(src + [f]) == Overlaid(src) + (if IsCookie(f) then {} else {Fold(f.name)})
  {
    var more := src + [f];
    assert forall i | 0 <= i < |src| :: more[i] == src[i];
    assert more[|src|] == f;
    forall x | x in Overlaid(src) ensures x in Overlaid(more) {
      var i :| 0 <= i < |src| && !IsCookie(src[i]) && Fold(src[i].name) == x;
      assert more[i] == src[i];
    }
  }

  /** Merging one line more: a new name is first deleted from what is there, which takes it from the
      left part only. */
  lemma MergeOne(left: seq<Field>, done: seq<Field>, f: Field)
    ensures var isNew := !IsCookie(f) && Fold(f.name) !in Overlaid(done);
            && Overlaid(done + [f]) == Overlaid(done) + (if isNew then {Fold(f.name)} else {})
            && Merge(left, done + [f]) ==
                 (if isNew then Drop(Merge(left, done), {Fold(f.name)}) else Merge(left, done)) + [f]
  {
    OverlaidAppend(done, f);
    if !IsCookie(f) && Fold(f.name) !in Overlaid(done) {
      DeleteNew(left, done, f);
      assert Drop(left, Overlaid(done + [f])) + done + [f] == Drop(left, Overlaid(done + [f])) + (done + [f]);
    } else {
      assert Overlaid(done + [f]) == Overlaid(done);
      assert Drop(left, Overlaid(done)) + done + [f] == Drop(left, Overlaid(done)) + (done + [f]);
    }
  }

  lemma DeleteNew(left: seq<Field>, done: seq<Field>, f: Field)
    requires !IsCookie(f) && Fold(f.name) !in Overlaid(done)
    ensures Drop(Merge(left, done), {Fold(f.name)}) == Drop(left, Overlaid(done) + {Fold(f.name)}) + done
  {
    DropConcat(Drop(left, Overlaid(done)), done, {Fold(f.name)});
    DropTwice(left, Overlaid(done), {Fold(f.name)});
    forall i | 0 <= i < |done| ensures Fold(done[i].name) != Fold(f.name) {
      if !IsCookie(done[i]) { OverlaidMember(done, done[i]); }
    }
    DropNothing(done, {Fold(f.name)});
  }
}
