/** The two generators of random identifiers (core/id.go, storage/id_field.go). Both reject the bytes that
    would favour some symbols; they read their source in blocks of different sizes. */
module Identifiers {
  import opened Wrappers

  type Byte = b: nat | b < 256

  datatype Error = NoSource | InvalidConfiguration | ReadFailed

  /** A source of random bytes: what is left of a finite stream. */
  class Reader {
    var rest: seq<Byte>

    constructor (stream: seq<Byte>)
      ensures rest == stream
    {
      rest := stream;
    }

    /** Fills the buffer, or fails and leaves nothing. */
    method ReadFull(buffer: array<Byte>) returns (ok: bool)
      modifies this, buffer
      ensures ok <==> buffer.Length <= |old(rest)|
      ensures ok ==> buffer[..] == old(rest)[..buffer.Length] && rest == old(rest)[buffer.Length..]
      ensures !ok ==> rest == []
    {
      ok := buffer.Length <= |rest|;
      if ok {
        var bytes := rest;
        for i := 0 to buffer.Length
          invariant buffer[..i] == bytes[..i] && rest == bytes
          modifies buffer
        {
          buffer[i] := bytes[i];
        }
        assert buffer[..] == buffer[..buffer.Length];
        rest := bytes[buffer.Length..];
      } else {
        rest := [];
      }
    }
  }

  // ----- what an identifier is

  /** Bytes from here on are rejected. */
  function Ceiling(n: nat): nat
    requires n > 0
  {
    256 - 256 % n
  }

  function Accepted(stream: seq<Byte>, n: nat): seq<Byte>
    requires n > 0
  {
    if stream == [] then []
    else
      var init := Accepted(stream[..|stream| - 1], n);
      var last := stream[|stream| - 1];
      if last < Ceiling(n) then init + [last] else init
  }

  function Symbols(bytes: seq<Byte>, alphabet: string): (r: string)
    requires alphabet != []
    ensures |r| == |bytes|
  {
    if bytes == [] then [] else Symbols(bytes[..|bytes| - 1], alphabet) + [alphabet[bytes[|bytes| - 1] % |alphabet|]]
  }

  function Take(bytes: seq<Byte>, size: nat): seq<Byte> {
    if |bytes| <= size then bytes else bytes[..size]
  }

  /** The symbols of the first `size` bytes that are accepted. */
  function Identifier(stream: seq<Byte>, size: nat, alphabet: string): string
    requires alphabet != []
  {
    Symbols(Take(Accepted(stream, |alphabet|), size), alphabet)
  }

  /** Every byte below the ceiling is accepted, in order, and no other. */
  lemma {:induction false} AcceptedIs(a: seq<Byte>, b: Byte, rest: seq<Byte>, n: nat)
    requires n > 0
    ensures Accepted(a + [b] + rest, n) == Accepted(a, n) + (if b < Ceiling(n) then [b] else []) + Accepted(rest, n)
  {
    if rest == [] {
      assert a + [b] + rest == a + [b] && (a + [b])[..|a|] == a;
    } else {
      var m := |rest| - 1;
      AcceptedIs(a, b, rest[..m], n);
      var s := a + [b] + rest;
      assert s[..|s| - 1] == a + [b] + rest[..m];
    }
  }

  /** Each byte stands for the symbol at its remainder. */
  lemma {:induction false} SymbolAt(bytes: seq<Byte>, alphabet: string, i: nat)
    requires alphabet != [] && i < |bytes|
    ensures Symbols(bytes, alphabet)[i] == alphabet[bytes[i] % |alphabet|]
  {
    if i < |bytes| - 1 { SymbolAt(bytes[..|bytes| - 1], alphabet, i); }
  }

  /** The part of the stream that is read in whole blocks. */
  function Whole(stream: seq<Byte>, block: nat): seq<Byte> {
    if block == 0 then [] else stream[..|stream| - |stream| % block]
  }

  lemma {:induction false} AcceptedGrows(stream: seq<Byte>, i: nat, j: nat, n: nat)
    requires i <= j <= |stream| && n > 0
    ensures Accepted(stream[..i], n) <= Accepted(stream[..j], n)
    decreases j - i
  {
    if i < j {
      AcceptedGrows(stream, i, j - 1, n);
      assert stream[..j][..j - 1] == stream[..j - 1];
    }
  }

  lemma TakeOfPrefix(a: seq<Byte>, b: seq<Byte>, size: nat)
    requires a <= b && |a| >= size
    ensures Take(a, size) == Take(b, size) && |Take(a, size)| == size
  {
    assert b[..|a|] == a;
  }

  /** Once enough bytes are accepted, the rest of the stream changes nothing. */
  lemma PrefixDecides(stream: seq<Byte>, i: nat, size: nat, alphabet: string)
    requires i <= |stream| && alphabet != [] && |Accepted(stream[..i], |alphabet|)| >= size
    ensures Identifier(stream[..i], size, alphabet) == Identifier(stream, size, alphabet)
    ensures |Identifier(stream, size, alphabet)| == size
  {
    AcceptedGrows(stream, i, |stream|, |alphabet|);
    assert stream[..|stream|] == stream;
    TakeOfPrefix(Accepted(stream[..i], |alphabet|), Accepted(stream, |alphabet|), size);
  }

  // ----- core/id.go

  /** What the generator has after `read` bytes. */
  function After(stream: seq<Byte>, read: nat, size: nat, alphabet: string): (r: string)
    requires alphabet != [] && read <= |stream|
    ensures |r| <= size
  {
    if read == 0 then []
    else
      var before := After(stream, read - 1, size, alphabet);
      if |before| < size && stream[read - 1] < Ceiling(|alphabet|)
      then before + [alphabet[stream[read - 1] % |alphabet|]]
      else before
  }

  lemma {:induction false} AfterIsIdentifier(stream: seq<Byte>, read: nat, size: nat, alphabet: string)
    requires alphabet != [] && read <= |stream|
    ensures After(stream, read, size, alphabet) == Identifier(stream[..read], size, alphabet)
  {
    if read > 0 {
      AfterIsIdentifier(stream, read - 1, size, alphabet);
      assert stream[..read][..read - 1] == stream[..read - 1];
      var before := Accepted(stream[..read - 1], |alphabet|);
      var last := stream[read - 1];
      assert (before + [last])[..|before|] == before;
      if |before| > size { assert (before + [last])[..size] == before[..size]; }
    }
  }

  lemma {:induction false} AfterStays(stream: seq<Byte>, i: nat, j: nat, size: nat, alphabet: string)
    requires alphabet != [] && i <= j <= |stream| && |After(stream, i, size, alphabet)| == size
    ensures After(stream, j, size, alphabet) == After(stream, i, size, alphabet)
    decreases j - i
  {
    if i < j { AfterStays(stream, i, j - 1, size, alphabet); }
  }

  lemma EnoughIsFull(stream: seq<Byte>, read: nat, size: nat, alphabet: string)
    requires alphabet != [] && read <= |stream|
    ensures |After(stream, read, size, alphabet)| == size <==> |Accepted(stream[..read], |alphabet|)| >= size
  {
    AfterIsIdentifier(stream, read, size, alphabet);
  }

  /** Reads in blocks until there are enough bytes or no whole block is left. */
  predicate Outcome(stream: seq<Byte>, size: nat, alphabet: string, block: nat, r: Result<string, Error>)
    requires alphabet != []
  {
    var enough := |Accepted(Whole(stream, block), |alphabet|)| >= size;
    r == if enough then Ok(Identifier(stream, size, alphabet)) else Err(ReadFailed)
  }

  /** `read` is a number of whole blocks. */
  predicate Aligned(read: nat, block: nat) {
    block > 0 && read % block == 0
  }

  lemma Quotient(x: nat, n: nat, q: nat, m: nat)
    requires n > 0 && m < n && x == q * n + m
    ensures x / n == q && x % n == m
  {
    var d := x / n - q;
    assert d * n == m - x % n;
    if d >= 1 { AtLeastOnce(d, n); } else if d <= -1 { AtLeastOnce(-d, n); }
  }

  lemma AtLeastOnce(d: int, n: nat)
    requires d >= 1
    ensures d * n >= n
  {
  }

  lemma AlignedNext(read: nat, block: nat)
    requires Aligned(read, block)
    ensures Aligned(read + block, block)
  {
    Quotient(read + block, block, read / block + 1, 0);
  }

  lemma AlignedBelow(read: nat, block: nat, length: nat)
    requires Aligned(read, block) && read <= length
    ensures read <= length - length % block
    ensures length < read + block ==> length - length % block == read
  {
    if length < read + block {
      Quotient(length, block, read / block, length - read);
    } else {
      assert length % block < block;
    }
  }

  lemma Finished(stream: seq<Byte>, size: nat, alphabet: string, block: nat, read: nat)
    requires alphabet != [] && Aligned(read, block) && read <= |stream|
    requires |After(stream, read, size, alphabet)| == size
    ensures Outcome(stream, size, alphabet, block, Ok(After(stream, read, size, alphabet)))
  {
    var whole := |stream| - |stream| % block;
    AlignedBelow(read, block, |stream|);
    AfterStays(stream, read, whole, size, alphabet);
    EnoughIsFull(stream, whole, size, alphabet);
    AfterStays(stream, read, |stream|, size, alphabet);
    AfterIsIdentifier(stream, |stream|, size, alphabet);
    assert stream[..|stream|] == stream;
  }

  lemma RanOut(stream: seq<Byte>, size: nat, alphabet: string, block: nat, read: nat)
    requires alphabet != [] && Aligned(read, block) && read <= |stream| < read + block
    requires |After(stream, read, size, alphabet)| < size
    ensures Outcome(stream, size, alphabet, block, Err(ReadFailed))
  {
    AlignedBelow(read, block, |stream|);
    EnoughIsFull(stream, read, size, alphabet);
  }

  lemma NothingAsked(stream: seq<Byte>, alphabet: string, block: nat)
    requires alphabet != []
    ensures Outcome(stream, 0, alphabet, block, Ok([]))
  {
  }

  method FillFrom(buffer: array<Byte>, result: array<char>, alphabet: string, start: nat,
                  ghost stream: seq<Byte>, ghost read: nat)
    returns (written: nat)
    requires 2 <= |alphabet| <= 256 && start < result.Length
    requires read + buffer.Length <= |stream| && buffer[..] == stream[read..read + buffer.Length]
    requires result[..start] == After(stream, read, result.Length, alphabet)
    modifies result
    ensures written <= result.Length
    ensures result[..written] == After(stream, read + buffer.Length, result.Length, alphabet)
  {
    written := start;
    var ceiling := 256 - 256 % |alphabet|;
    var i := 0;
    while i < buffer.Length
      invariant 0 <= i <= buffer.Length && written < result.Length
      invariant result[..written] == After(stream, read + i, result.Length, alphabet)
    {
      var value := buffer[i];
      assert value == buffer[..][i] == stream[read + i];
      if value < ceiling {
        ghost var done := result[..written];
        result[written] := alphabet[value % |alphabet|];
        written := written + 1;
        assert result[..written] == done + [alphabet[value % |alphabet|]];
        if written == result.Length {
          AfterStays(stream, read + i + 1, read + buffer.Length, result.Length, alphabet);
          return;
        }
      }
      i := i + 1;
    }
  }

  /** The identifier is made of the first accepted bytes, if whole blocks of 2 * size + 1 bytes hold enough
      of them. */
  method RandomStringFromAlphabet(random: Reader?, size: int, alphabet: string) returns (r: Result<string, Error>)
    modifies random
    ensures random == null ==> r == Err(NoSource)
    ensures random != null && (size < 0 || |alphabet| < 2 || |alphabet| > 256) ==> r == Err(InvalidConfiguration)
    ensures random != null && size >= 0 && 2 <= |alphabet| <= 256 ==>
              Outcome(old(random.rest), size, alphabet, 2 * size + 1, r)
  {
    if random == null { return Err(NoSource); }
    if size < 0 || |alphabet| < 2 || |alphabet| > 256 { return Err(InvalidConfiguration); }
    var result := new char[size](_ => 'a');
    var buffer := new Byte[size * 2 + 1](_ => 0);
    var written := 0;
    ghost var stream := random.rest;
    ghost var read: nat := 0;
    while written < size
      invariant 0 <= written <= size
      invariant Aligned(read, buffer.Length) && read <= |stream| && random.rest == stream[read..]
      invariant result[..written] == After(stream, read, size, alphabet)
      decreases |random.rest|
    {
      var ok := random.ReadFull(buffer);
      if !ok {
        RanOut(stream, size, alphabet, buffer.Length, read);
        return Err(ReadFailed);
      }
      assert buffer[..] == stream[read..][..buffer.Length] == stream[read..read + buffer.Length];
      written := FillFrom(buffer, result, alphabet, written, stream, read);
      AlignedNext(read, buffer.Length);
      read := read + buffer.Length;
    }
    assert result[..] == result[..written];
    Finished(stream, size, alphabet, buffer.Length, read);
    return Ok(result[..]);
  }

  // ----- storage/id_field.go

  const DEFAULT_ALPHABET := "abcdefghijklmnopqrstuvwxyzABCDEFGHIJKLMNOPQRSTUVWXYZ0123456789"

  /** `passed` bytes of the stream are spent; of the last block read, `index` are. */
  predicate At(random: Reader, buffer: array<Byte>, stream: seq<Byte>, passed: nat, index: nat)
    reads random, buffer
  {
    var ahead := buffer.Length - index;
    && ahead >= 0 && passed + ahead <= |stream|
    && buffer[index..] == stream[passed..passed + ahead] && random.rest == stream[passed + ahead..]
    && (buffer.Length > 0 ==> Aligned(passed + ahead, buffer.Length))
  }

  method NextByte(random: Reader, buffer: array<Byte>, index: nat, ghost stream: seq<Byte>, ghost passed: nat)
    returns (value: Option<Byte>, next: nat)
    requires At(random, buffer, stream, passed, index) && buffer.Length > 0
    modifies random, buffer
    ensures value.Some? ==>
              passed < |stream| && value.value == stream[passed] && At(random, buffer, stream, passed + 1, next)
    ensures value.None? ==>
              passed <= |stream| < passed + buffer.Length && Aligned(passed, buffer.Length)
  {
    next := index;
    if next >= buffer.Length {
      var ok := random.ReadFull(buffer);
      if !ok { return None, next; }
      LoadedNext(stream, passed, buffer.Length);
      next := 0;
      assert buffer[0..] == buffer[..];
    }
    var byte := buffer[next];
    assert byte == buffer[next..][0] && buffer[next + 1..] == buffer[next..][1..];
    next := next + 1;
    value := Some(byte);
  }

  lemma LoadedNext(stream: seq<Byte>, read: nat, block: nat)
    requires read <= |stream| && Aligned(read, block) && block <= |stream[read..]|
    ensures Aligned(read + block, block) && read + block <= |stream|
    ensures stream[read..][..block] == stream[read..read + block]
    ensures stream[read..][block..] == stream[read + block..]
  {
    AlignedNext(read, block);
  }

  method GenerateFrom(random: Reader, length: nat, alphabet: string, maxValid: nat)
    returns (r: Result<string, Error>, ghost read: nat)
    requires 2 <= |alphabet| <= 256 && maxValid == Ceiling(|alphabet|)
    modifies random
    ensures read <= |old(random.rest)| && (length > 0 ==> Aligned(read, 2 * length))
    ensures r.Ok? ==> |r.value| == length && r.value == After(old(random.rest), read, length, alphabet)
    ensures r.Err? ==> |old(random.rest)| < read + 2 * length && r.error == ReadFailed
    ensures r.Err? ==> |After(old(random.rest), read, length, alphabet)| < length
  {
    var buffer := new Byte[length * 2](_ => 0);
    var result: string := [];
    var index: nat := buffer.Length;
    ghost var stream := random.rest;
    ghost var passed: nat := 0;
    while |result| < length
      invariant At(random, buffer, stream, passed, index) && result == After(stream, passed, length, alphabet)
      decreases |stream| - passed
    {
      var value, next := NextByte(random, buffer, index, stream, passed);
      if value.None? { return Err(ReadFailed), passed; }
      index := next;
      if value.value < maxValid {
        result := result + [alphabet[value.value % |alphabet|]];
      }
      passed := passed + 1;
    }
    r, read := Ok(result), passed + (buffer.Length - index);
    AfterStays(stream, passed, read, length, alphabet);
  }

  /** The same identifier, from blocks of 2 * length bytes. */
  method GenerateDefaultID(random: Reader, length: nat) returns (r: Result<string, Error>)
    modifies random
    ensures Outcome(old(random.rest), length, DEFAULT_ALPHABET, 2 * length, r)
  {
    assert |DEFAULT_ALPHABET| == 62;
    ghost var stream, read := random.rest, 0;
    r, read := GenerateFrom(random, length, DEFAULT_ALPHABET, 256 / |DEFAULT_ALPHABET| * |DEFAULT_ALPHABET|);
    if length == 0 {
      NothingAsked(stream, DEFAULT_ALPHABET, 0);
    } else if r.Ok? {
      Finished(stream, length, DEFAULT_ALPHABET, 2 * length, read);
    } else {
      RanOut(stream, length, DEFAULT_ALPHABET, 2 * length, read);
    }
  }

  /** On a stream with one block behind the bytes it needs, a generator succeeds. */
  lemma LongStreamSucceeds(stream: seq<Byte>, i: nat, size: nat, alphabet: string, block: nat, r: Result<string, Error>)
    requires alphabet != [] && block > 0 && i + block <= |stream| + 1 && |Accepted(stream[..i], |alphabet|)| >= size
    requires Outcome(stream, size, alphabet, block, r)
    ensures r == Ok(Identifier(stream[..i], size, alphabet))
  {
    assert |stream| % block < block;
    AcceptedGrows(stream, i, |stream| - |stream| % block, |alphabet|);
    PrefixDecides(stream, i, size, alphabet);
  }

  /** The two generators give the same identifier from the same stream, although one reads a byte more in
      each block. */
  lemma GeneratorsAgree(stream: seq<Byte>, i: nat, size: nat, one: Result<string, Error>, other: Result<string, Error>)
    requires i + 2 * size <= |stream| && |Accepted(stream[..i], |DEFAULT_ALPHABET|)| >= size > 0
    requires Outcome(stream, size, DEFAULT_ALPHABET, 2 * size + 1, one)
    requires Outcome(stream, size, DEFAULT_ALPHABET, 2 * size, other)
    ensures one == other == Ok(Identifier(stream[..i], size, DEFAULT_ALPHABET))
  {
    LongStreamSucceeds(stream, i, size, DEFAULT_ALPHABET, 2 * size + 1, one);
    LongStreamSucceeds(stream, i, size, DEFAULT_ALPHABET, 2 * size, other);
  }

  // ----- no symbol is favoured

  function Sources(limit: nat, n: nat, k: nat): set<nat>
    requires n > 0
  {
    set b: nat | b < limit && b % n == k
  }

  function Share(limit: nat, n: nat, k: nat): nat
    requires n > 0
  {
    limit / n + if k < limit % n then 1 else 0
  }

  lemma ShareGrows(last: nat, n: nat, k: nat)
    requires k < n
    ensures Share(last + 1, n, k) == Share(last, n, k) + if last % n == k then 1 else 0
  {
    DivStep(last, n);
  }

  lemma SourcesGrow(last: nat, n: nat, k: nat)
    requires k < n
    ensures Sources(last + 1, n, k) == Sources(last, n, k) + if last % n == k then {last} else {}
  {
  }

  lemma {:induction false} SourcesCount(limit: nat, n: nat, k: nat)
    requires k < n
    ensures |Sources(limit, n, k)| == Share(limit, n, k)
  {
    if limit == 0 {
      assert Sources(0, n, k) == {};
    } else {
      SourcesCount(limit - 1, n, k);
      SourcesGrow(limit - 1, n, k);
      ShareGrows(limit - 1, n, k);
    }
  }

  lemma DivStep(x: nat, n: nat)
    requires n > 0
    ensures x % n + 1 < n ==> (x + 1) / n == x / n && (x + 1) % n == x % n + 1
    ensures x % n + 1 == n ==> (x + 1) / n == x / n + 1 && (x + 1) % n == 0
  {
    var q, m := x / n, x % n;
    assert x == q * n + m;
    if m + 1 < n {
      Quotient(x + 1, n, q, m + 1);
    } else {
      Quotient(x + 1, n, q + 1, 0);
    }
  }

  /** For every alphabet, each symbol has the same number of accepted bytes behind it. */
  lemma Unbiased(n: nat, k: nat)
    requires 2 <= n <= 256 && k < n
    ensures |Sources(Ceiling(n), n, k)| == Ceiling(n) / n == 256 / n
  {
    SourcesCount(Ceiling(n), n, k);
    Quotient(Ceiling(n), n, 256 / n, 0);
  }
}
