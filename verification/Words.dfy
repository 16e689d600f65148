/** How an identifier is split into words and put together again (internal/stringutil/string.go). The
    character classes and the lower case of a character are functions. */
module Words {
  import opened Wrappers

  datatype Class = Lower | Digit | Upper | Uncased | Else

  datatype Alphabet = Alphabet(classOf: char -> Class, fold: char -> char)

  datatype Kind = Small | Capital | Plain

  /** The runs that make up words: lower-case letters and digits, capitals, and letters without case. */
  predicate In(a: Alphabet, kind: Kind, c: char) {
    match kind
    case Small => a.classOf(c) == Lower || a.classOf(c) == Digit
    case Capital => a.classOf(c) == Upper
    case Plain => a.classOf(c) == Uncased
  }

  predicate Apostrophe(c: char) {
    c == '\'' || c == '\U{2019}'
  }

  function Filtered(s: string): string {
    if s == [] then []
    else if Apostrophe(s[|s| - 1]) then Filtered(s[..|s| - 1])
    else Filtered(s[..|s| - 1]) + [s[|s| - 1]]
  }

  /** The length of the run that the string starts with. */
  function Run(a: Alphabet, kind: Kind, s: string): (n: nat)
    ensures n <= |s| && (s != [] && In(a, kind, s[0]) ==> n > 0)
  {
    if s == [] || !In(a, kind, s[0]) then 0 else 1 + Run(a, kind, s[1..])
  }

  /** The length of the first word of a string that starts with a capital: a run of capitals, without the
      last where a lower-case letter follows, or one capital and the run behind it. */
  function CapitalWord(a: Alphabet, s: string): (n: nat)
    requires s != [] && a.classOf(s[0]) == Upper
    ensures 0 < n <= |s|
  {
    var u := Run(a, Capital, s);
    if u < |s| && a.classOf(s[u]) == Lower
    then if u > 1 then u - 1 else u + 1 + Run(a, Small, s[u + 1..])
    else u
  }

  /** The length of the word at the start, 0 for a character that is in no word. */
  function WordLength(a: Alphabet, s: string): (n: nat)
    requires s != []
    ensures n <= |s| && (n == 0 <==> a.classOf(s[0]) == Else)
  {
    match a.classOf(s[0])
    case Lower => Run(a, Small, s)
    case Digit => Run(a, Small, s)
    case Upper => CapitalWord(a, s)
    case Uncased => Run(a, Plain, s)
    case Else => 0
  }

  function Split(a: Alphabet, s: string): seq<string> {
    if s == [] then []
    else
      var n := WordLength(a, s);
      if n == 0 then Split(a, s[1..]) else [s[..n]] + Split(a, s[n..])
  }

  // ----- the methods

  method RunEnd(a: Alphabet, kind: Kind, s: string, start: nat) returns (end: nat)
    requires start <= |s|
    ensures end == start + Run(a, kind, s[start..])
  {
    end := start;
    while end < |s| && In(a, kind, s[end])
      invariant start <= end <= |s|
      invariant Run(a, kind, s[start..]) == end - start + Run(a, kind, s[end..])
    {
      assert s[end..][1..] == s[end + 1..];
      end := end + 1;
    }
  }

  method WordEnd(a: Alphabet, s: string, index: nat) returns (end: nat)
    requires index < |s|
    ensures end == index + WordLength(a, s[index..])
  {
    match a.classOf(s[index])
    case Lower => end := RunEnd(a, Small, s, index);
    case Digit => end := RunEnd(a, Small, s, index);
    case Upper =>
      end := RunEnd(a, Capital, s, index);
      if end < |s| && a.classOf(s[end]) == Lower {
        assert s[index..][end - index] == s[end];
        if end - index > 1 {
          end := end - 1;
        } else {
          assert s[index..][end - index + 1..] == s[end + 1..];
          end := RunEnd(a, Small, s, end + 1);
        }
      } else if end < |s| {
        assert s[index..][end - index] == s[end];
      }
    case Uncased => end := RunEnd(a, Plain, s, index);
    case Else => end := index;
  }

  method WithoutApostrophes(value: string) returns (filtered: string)
    ensures filtered == Filtered(value)
  {
    filtered := [];
    for i := 0 to |value|
      invariant filtered == Filtered(value[..i])
    {
      assert value[..i + 1][..i] == value[..i];
      if !Apostrophe(value[i]) { filtered := filtered + [value[i]]; }
    }
    assert value[..|value|] == value;
  }

  method SplitWords(a: Alphabet, value: string) returns (words: seq<string>)
    ensures words == Split(a, Filtered(value))
  {
    var filtered := WithoutApostrophes(value);
    words := [];
    var index := 0;
    while index < |filtered|
      invariant 0 <= index <= |filtered|
      invariant Split(a, filtered) == words + Split(a, filtered[index..])
      decreases |filtered| - index
    {
      var end := WordEnd(a, filtered, index);
      SplitAdvances(a, filtered, words, index, end);
      if end == index {
        index := index + 1;
      } else {
        words := words + [filtered[index..end]];
        index := end;
      }
    }
    AllSplit(a, filtered, words);
  }

  lemma AllSplit(a: Alphabet, s: string, words: seq<string>)
    requires Split(a, s) == words + Split(a, s[|s|..])
    ensures Split(a, s) == words
  {
    assert s[|s|..] == [];
  }

  lemma SplitAdvances(a: Alphabet, s: string, words: seq<string>, i: nat, end: nat)
    requires i < |s| && end == i + WordLength(a, s[i..]) && Split(a, s) == words + Split(a, s[i..])
    ensures end <= |s|
    ensures end == i ==> Split(a, s) == words + Split(a, s[i + 1..])
    ensures end > i ==> Split(a, s) == words + [s[i..end]] + Split(a, s[end..])
  {
    SplitStep(a, s, i, end - i);
    if end > i { Shift(words, s[i..end], Split(a, s[end..])); }
  }

  lemma Shift(done: seq<string>, w: string, rest: seq<string>)
    ensures done + ([w] + rest) == done + [w] + rest
  {
  }

  lemma SplitStep(a: Alphabet, s: string, i: nat, n: nat)
    requires i < |s| && n == WordLength(a, s[i..])
    ensures n == 0 ==> Split(a, s[i..]) == Split(a, s[i + 1..])
    ensures n > 0 ==> Split(a, s[i..]) == [s[i..i + n]] + Split(a, s[i + n..])
  {
    assert s[i..][1..] == s[i + 1..] && s[i..][..n] == s[i..i + n] && s[i..][n..] == s[i + n..];
  }

  function Folded(a: Alphabet, s: string): (r: string)
    ensures |r| == |s|
    ensures forall i | 0 <= i < |s| :: r[i] == a.fold(s[i])
  {
    if s == [] then [] else Folded(a, s[..|s| - 1]) + [a.fold(s[|s| - 1])]
  }

  function FoldedAll(a: Alphabet, words: seq<string>): (r: seq<string>)
    ensures |r| == |words|
    ensures forall i | 0 <= i < |words| :: r[i] == Folded(a, words[i])
  {
    if words == [] then [] else FoldedAll(a, words[..|words| - 1]) + [Folded(a, words[|words| - 1])]
  }

  function Join(words: seq<string>, separator: char): string {
    if words == [] then []
    else if |words| == 1 then words[0]
    else words[0] + [separator] + Join(words[1..], separator)
  }

  /** Snake case with an underscore, kebab case with a hyphen. */
  function Cased(a: Alphabet, value: string, separator: char): string {
    Join(FoldedAll(a, Split(a, Filtered(value))), separator)
  }

  method ToSnakeCase(a: Alphabet, value: string) returns (r: string)
    ensures r == Cased(a, value, '_')
  {
    var words := SplitWords(a, value);
    ghost var before := words;
    var i := 0;
    while i < |words|
      invariant 0 <= i <= |words| == |before|
      invariant words[..i] == FoldedAll(a, before[..i]) && words[i..] == before[i..]
    {
      assert before[..i + 1][..i] == before[..i];
      assert words[i] == words[i..][0] == before[i];
      ghost var rest := words[i + 1..];
      words := words[i := Folded(a, words[i])];
      assert words[i + 1..] == rest == before[i..][1..] == before[i + 1..];
      i := i + 1;
    }
    assert before[..|before|] == before && words[..|words|] == words;
    r := Join(words, '_');
  }

  // ----- nothing is lost

  function Kept(a: Alphabet, s: string): string {
    if s == [] then [] else (if a.classOf(s[0]) == Else then [] else [s[0]]) + Kept(a, s[1..])
  }

  function Concat(words: seq<string>): string {
    if words == [] then [] else words[0] + Concat(words[1..])
  }

  lemma {:induction false} KeptAll(a: Alphabet, s: string, n: nat)
    requires n <= |s| && forall i | 0 <= i < n :: a.classOf(s[i]) != Else
    ensures Kept(a, s) == s[..n] + Kept(a, s[n..])
  {
    if n == 0 {
      assert s[0..] == s;
    } else {
      KeptAll(a, s[1..], n - 1);
      assert s[1..][n - 1..] == s[n..] && [s[0]] + s[1..][..n - 1] == s[..n];
    }
  }

  lemma {:induction false} RunIsKept(a: Alphabet, kind: Kind, s: string)
    ensures forall i | 0 <= i < Run(a, kind, s) :: In(a, kind, s[i])
  {
    if s != [] && In(a, kind, s[0]) {
      RunIsKept(a, kind, s[1..]);
      forall i | 0 <= i < Run(a, kind, s)
        ensures In(a, kind, s[i])
      {
        if i > 0 { assert s[i] == s[1..][i - 1]; }
      }
    }
  }

  lemma WordIsKept(a: Alphabet, s: string)
    requires s != []
    ensures forall i | 0 <= i < WordLength(a, s) :: a.classOf(s[i]) != Else
  {
    match a.classOf(s[0])
    case Lower => RunIsKept(a, Small, s);
    case Digit => RunIsKept(a, Small, s);
    case Uncased => RunIsKept(a, Plain, s);
    case Else =>
    case Upper =>
      var u := Run(a, Capital, s);
      RunIsKept(a, Capital, s);
      if u < |s| && a.classOf(s[u]) == Lower && u <= 1 {
        RunIsKept(a, Small, s[u + 1..]);
        forall i | 0 <= i < WordLength(a, s)
          ensures a.classOf(s[i]) != Else
        {
          if i > u { assert s[i] == s[u + 1..][i - u - 1]; }
        }
      }
  }

  /** The words, put together, are the letters and digits of the string in order. */
  lemma {:induction false} WordsAreKept(a: Alphabet, s: string)
    ensures Concat(Split(a, s)) == Kept(a, s)
    ensures forall i | 0 <= i < |Split(a, s)| :: Split(a, s)[i] != []
  {
    if s != [] {
      var n := WordLength(a, s);
      WordIsKept(a, s);
      if n == 0 {
        WordsAreKept(a, s[1..]);
      } else {
        WordsAreKept(a, s[n..]);
        KeptAll(a, s, n);
        assert Split(a, s)[1..] == Split(a, s[n..]);
      }
    }
  }

  // ----- where words end

  /** Two neighbouring characters are in one word: both lower-case letters or digits, or both without case,
      or a capital and the lower-case letter behind it, or two capitals unless a lower-case letter is next. */
  predicate Together(first: Class, second: Class, next: Option<Class>) {
    || (first in {Lower, Digit} && second in {Lower, Digit})
    || (first == Uncased && second == Uncased)
    || (first == Upper && second == Lower)
    || (first == Upper && second == Upper && next != Some(Lower))
  }

  predicate Joined(a: Alphabet, s: string) {
    |s| > 1 && Together(a.classOf(s[0]), a.classOf(s[1]), if |s| > 2 then Some(a.classOf(s[2])) else None)
  }

  /** Words by looking at neighbours only. */
  function Chopped(a: Alphabet, s: string): (words: seq<string>)
    ensures s != [] && a.classOf(s[0]) != Else ==> words != []
  {
    if s == [] then []
    else
      var rest := Chopped(a, s[1..]);
      if a.classOf(s[0]) == Else then rest
      else if Joined(a, s) then [[s[0]] + rest[0]] + rest[1..]
      else [[s[0]]] + rest
  }

  lemma RunStep(a: Alphabet, kind: Kind, s: string)
    ensures s != [] ==> Run(a, kind, s) == if In(a, kind, s[0]) then 1 + Run(a, kind, s[1..]) else 0
    ensures |s| > 1 && In(a, kind, s[0]) && !In(a, kind, s[1]) ==> Run(a, kind, s) == 1
    ensures |s| == 1 && In(a, kind, s[0]) ==> Run(a, kind, s) == 1
  {
    if |s| > 1 { assert s[1..][0] == s[1]; }
    if |s| == 1 { assert s[1..] == []; }
  }

  lemma CapitalLength(a: Alphabet, s: string)
    requires s != [] && a.classOf(s[0]) == Upper
    ensures CapitalWord(a, s) == if Joined(a, s) then 1 + WordLength(a, s[1..]) else 1
  {
    RunStep(a, Capital, s);
    if |s| > 1 {
      var rest := s[1..];
      assert forall i | 0 <= i < |rest| :: rest[i] == s[i + 1];
      assert rest[1..] == s[2..];
      RunStep(a, Capital, rest);
      RunStep(a, Small, rest);
      if a.classOf(s[1]) == Upper && |s| > 2 {
        assert s[2..][0] == s[2];
        RunStep(a, Capital, s[2..]);
      }
    }
  }

  lemma LengthIs(a: Alphabet, s: string)
    requires s != [] && a.classOf(s[0]) != Else
    ensures WordLength(a, s) == if Joined(a, s) then 1 + WordLength(a, s[1..]) else 1
  {
    if a.classOf(s[0]) == Upper {
      CapitalLength(a, s);
    } else {
      RunStep(a, Small, s);
      RunStep(a, Plain, s);
      if |s| > 1 { assert s[1..][0] == s[1]; }
    }
  }

  lemma SplitFirst(a: Alphabet, s: string)
    requires s != [] && a.classOf(s[0]) != Else
    ensures Joined(a, s) ==> Split(a, s[1..]) != [] &&
                             Split(a, s) == [[s[0]] + Split(a, s[1..])[0]] + Split(a, s[1..])[1..]
    ensures !Joined(a, s) ==> Split(a, s) == [[s[0]]] + Split(a, s[1..])
  {
    LengthIs(a, s);
    var n, rest := WordLength(a, s), s[1..];
    if Joined(a, s) {
      assert rest[0] == s[1];
      assert s[..n] == [s[0]] + rest[..n - 1] && s[n..] == rest[n - 1..];
      assert Split(a, rest) == [rest[..n - 1]] + Split(a, rest[n - 1..]);
    } else {
      assert s[..1] == [s[0]];
    }
  }

  /** Splitting is exactly that: where a word ends depends on the two characters and the one behind. */
  lemma {:induction false} SplitIsChopped(a: Alphabet, s: string)
    ensures Split(a, s) == Chopped(a, s)
  {
    if s != [] {
      SplitIsChopped(a, s[1..]);
      if a.classOf(s[0]) != Else { SplitFirst(a, s); }
    }
  }

  // ----- casing twice

  /** A capital has a lower-case letter for its lower case, or none; what else is in words stays as it
      is; and apostrophes are in no word. */
  ghost predicate CaseLaw(a: Alphabet) {
    && (forall c | a.classOf(c) == Upper :: a.fold(c) == c || a.classOf(a.fold(c)) == Lower)
    && (forall c | a.classOf(c) in {Lower, Digit, Uncased} :: a.fold(c) == c)
    && (forall c | Apostrophe(c) :: a.classOf(c) == Else)
  }

  predicate AllIn(a: Alphabet, kind: Kind, w: string) {
    forall i | 0 <= i < |w| :: In(a, kind, w[i])
  }

  /** One capital, a lower-case letter, and whatever small ones follow. */
  predicate Title(a: Alphabet, w: string) {
    |w| >= 2 && In(a, Capital, w[0]) && a.classOf(w[1]) == Lower && AllIn(a, Small, w[1..])
  }

  /** A word as it is split off. */
  predicate Whole(a: Alphabet, w: string) {
    w != [] && (AllIn(a, Small, w) || AllIn(a, Plain, w) || AllIn(a, Capital, w) || Title(a, w))
  }

  predicate AllWhole(a: Alphabet, words: seq<string>) {
    forall i | 0 <= i < |words| :: Whole(a, words[i])
  }

  lemma CapitalWordIsWhole(a: Alphabet, s: string)
    requires s != [] && a.classOf(s[0]) == Upper
    ensures Whole(a, s[..CapitalWord(a, s)])
  {
    var u := Run(a, Capital, s);
    RunIsKept(a, Capital, s);
    var w := s[..CapitalWord(a, s)];
    if u < |s| && a.classOf(s[u]) == Lower && u <= 1 {
      RunIsKept(a, Small, s[2..]);
      forall i | 0 <= i < |w[1..]|
        ensures In(a, Small, w[1..][i])
      {
        if i > 0 { assert w[1..][i] == s[2..][i - 1]; }
      }
      assert Title(a, w);
    } else {
      assert AllIn(a, Capital, w);
    }
  }

  lemma WordIsWhole(a: Alphabet, s: string)
    requires s != [] && WordLength(a, s) > 0
    ensures Whole(a, s[..WordLength(a, s)])
  {
    if a.classOf(s[0]) == Upper {
      CapitalWordIsWhole(a, s);
    } else {
      RunIsKept(a, Small, s);
      RunIsKept(a, Plain, s);
    }
  }

  lemma {:induction false} SplitIsWhole(a: Alphabet, s: string)
    ensures AllWhole(a, Split(a, s))
  {
    if s != [] {
      var n := WordLength(a, s);
      if n == 0 {
        SplitIsWhole(a, s[1..]);
      } else {
        SplitIsWhole(a, s[n..]);
        WordIsWhole(a, s);
      }
    }
  }

  lemma {:induction false} RunOfAll(a: Alphabet, kind: Kind, w: string, rest: string)
    requires AllIn(a, kind, w) && (rest != [] ==> !In(a, kind, rest[0]))
    ensures Run(a, kind, w + rest) == |w|
  {
    if w == [] {
      assert w + rest == rest;
    } else {
      RunOfAll(a, kind, w[1..], rest);
      assert (w + rest)[1..] == w[1..] + rest;
    }
  }

  lemma TitleLength(a: Alphabet, w: string, rest: string)
    requires Title(a, w) && (rest != [] ==> a.classOf(rest[0]) == Else)
    ensures WordLength(a, w + rest) == |w|
  {
    var s := w + rest;
    assert s == [w[0]] + (w[1..] + rest);
    RunOfAll(a, Capital, [w[0]], w[1..] + rest);
    assert AllIn(a, Small, w[2..]) by {
      forall i | 0 <= i < |w[2..]| ensures In(a, Small, w[2..][i]) { assert w[2..][i] == w[1..][i + 1]; }
    }
    RunOfAll(a, Small, w[2..], rest);
    assert s[2..] == w[2..] + rest;
  }

  /** A word stands as it is before anything that is in no word. */
  lemma WholeWord(a: Alphabet, w: string, rest: string)
    requires Whole(a, w) && (rest != [] ==> a.classOf(rest[0]) == Else)
    ensures Split(a, w + rest) == [w] + Split(a, rest)
  {
    if AllIn(a, Small, w) {
      RunOfAll(a, Small, w, rest);
    } else if AllIn(a, Plain, w) {
      RunOfAll(a, Plain, w, rest);
    } else if AllIn(a, Capital, w) {
      RunOfAll(a, Capital, w, rest);
    } else {
      TitleLength(a, w, rest);
    }
    assert WordLength(a, w + rest) == |w|;
    assert (w + rest)[..|w|] == w && (w + rest)[|w|..] == rest;
  }

  /** Splitting takes joining back. */
  lemma {:induction false} SplitOfJoin(a: Alphabet, words: seq<string>, separator: char)
    requires AllWhole(a, words) && a.classOf(separator) == Else
    ensures Split(a, Join(words, separator)) == words
  {
    if |words| == 1 {
      WholeWord(a, words[0], []);
      assert words[0] + [] == words[0];
    } else if |words| > 1 {
      var rest := [separator] + Join(words[1..], separator);
      SplitOfJoin(a, words[1..], separator);
      WholeWord(a, words[0], rest);
      assert rest[1..] == Join(words[1..], separator);
      assert words[0] + [separator] + Join(words[1..], separator) == words[0] + rest;
    }
  }

  predicate NoApostrophe(s: string) {
    forall i | 0 <= i < |s| :: !Apostrophe(s[i])
  }

  lemma {:induction false} NothingFiltered(s: string)
    requires NoApostrophe(s)
    ensures Filtered(s) == s
  {
    if s != [] { NothingFiltered(s[..|s| - 1]); }
  }

  lemma WholeIsClean(a: Alphabet, w: string)
    requires CaseLaw(a) && Whole(a, w)
    ensures NoApostrophe(w)
  {
    if Title(a, w) {
      forall i | 0 <= i < |w| ensures !Apostrophe(w[i]) {
        if i > 0 { assert w[i] == w[1..][i - 1]; }
      }
    }
  }

  lemma {:induction false} JoinIsClean(a: Alphabet, words: seq<string>, separator: char)
    requires CaseLaw(a) && AllWhole(a, words) && !Apostrophe(separator)
    ensures NoApostrophe(Join(words, separator))
  {
    if words != [] {
      JoinIsClean(a, words[1..], separator);
      WholeIsClean(a, words[0]);
    }
  }

  /** The lower case of the words is again made of words, and lower case. */
  predicate Settles(a: Alphabet, words: seq<string>) {
    AllWhole(a, FoldedAll(a, words)) && FoldedAll(a, FoldedAll(a, words)) == FoldedAll(a, words)
  }

  lemma SettledCasing(a: Alphabet, value: string, separator: char)
    requires CaseLaw(a) && a.classOf(separator) == Else && !Apostrophe(separator)
    requires Settles(a, Split(a, Filtered(value)))
    ensures Cased(a, Cased(a, value, separator), separator) == Cased(a, value, separator)
  {
    var folded := FoldedAll(a, Split(a, Filtered(value)));
    JoinIsClean(a, folded, separator);
    NothingFiltered(Join(folded, separator));
    SplitOfJoin(a, folded, separator);
  }

  ghost predicate AllFold(a: Alphabet) {
    forall c | a.classOf(c) == Upper :: a.classOf(a.fold(c)) == Lower
  }

  ghost predicate NoneFolds(a: Alphabet) {
    forall c | a.classOf(c) == Upper :: a.fold(c) == c
  }

  lemma FoldedWord(a: Alphabet, w: string)
    requires CaseLaw(a) && Whole(a, w) && (AllFold(a) || NoneFolds(a))
    ensures Whole(a, Folded(a, w)) && Folded(a, Folded(a, w)) == Folded(a, w)
  {
    var f := Folded(a, w);
    if NoneFolds(a) {
      forall i | 0 <= i < |w| ensures f[i] == w[i] {
        if Title(a, w) && i > 0 { assert w[i] == w[1..][i - 1]; }
      }
      assert f == w;
    } else {
      if AllIn(a, Plain, w) {
        assert AllIn(a, Plain, f);
      } else {
        forall i | 0 <= i < |w| ensures In(a, Small, f[i]) {
          if Title(a, w) && i > 0 { assert w[i] == w[1..][i - 1]; }
        }
        assert AllIn(a, Small, f);
      }
    }
  }

  lemma UniformSettles(a: Alphabet, words: seq<string>)
    requires CaseLaw(a) && AllWhole(a, words) && (AllFold(a) || NoneFolds(a))
    ensures Settles(a, words)
  {
    var folded := FoldedAll(a, words);
    forall i | 0 <= i < |folded|
      ensures Whole(a, folded[i]) && Folded(a, folded[i]) == folded[i]
    {
      FoldedWord(a, words[i]);
    }
    assert FoldedAll(a, folded) == folded;
  }

  /** Casing a cased string changes nothing, if all capitals have a lower case, or none has. */
  lemma CasingIsIdempotent(a: Alphabet, value: string, separator: char)
    requires CaseLaw(a) && a.classOf(separator) == Else && !Apostrophe(separator)
    requires AllFold(a) || NoneFolds(a)
    ensures Cased(a, Cased(a, value, separator), separator) == Cased(a, value, separator)
  {
    SplitIsWhole(a, Filtered(value));
    UniformSettles(a, Split(a, Filtered(value)));
    SettledCasing(a, value, separator);
  }

  lemma CapitalsAreOneWord(a: Alphabet, w: string)
    requires w != [] && AllIn(a, Capital, w)
    ensures Split(a, w) == [w]
  {
    RunOfAll(a, Capital, w, []);
    assert w + [] == w && w[|w|..] == [] && w[..|w|] == w;
  }

  lemma SmallBeforeCapital(a: Alphabet, e: char, d: char)
    requires a.classOf(e) == Lower && a.classOf(d) == Upper
    ensures Split(a, [e, d]) == [[e], [d]]
  {
    RunOfAll(a, Small, [e], [d]);
    assert [e] + [d] == [e, d] && [e, d][1..] == [d] && [e, d][..1] == [e];
    CapitalsAreOneWord(a, [d]);
  }

  lemma CasedCapitals(a: Alphabet, c: char, d: char, separator: char)
    requires a.classOf(c) == Upper && a.classOf(d) == Upper && !Apostrophe(c) && !Apostrophe(d)
    ensures Cased(a, [c, d], separator) == [a.fold(c), a.fold(d)]
  {
    NothingFiltered([c, d]);
    CapitalsAreOneWord(a, [c, d]);
    assert Folded(a, [c, d]) == [a.fold(c), a.fold(d)];
    assert FoldedAll(a, [[c, d]]) == [[a.fold(c), a.fold(d)]];
  }

  lemma JoinTwo(u: string, v: string, separator: char)
    ensures Join([u, v], separator) == u + [separator] + v
  {
    assert [u, v][1..] == [v];
  }

  lemma CasedApart(a: Alphabet, e: char, d: char, separator: char)
    requires a.classOf(e) == Lower && a.classOf(d) == Upper && !Apostrophe(e) && !Apostrophe(d)
    ensures Cased(a, [e, d], separator) == [a.fold(e), separator, a.fold(d)]
  {
    NothingFiltered([e, d]);
    SmallBeforeCapital(a, e, d);
    assert Folded(a, [e]) == [a.fold(e)] && Folded(a, [d]) == [a.fold(d)];
    assert FoldedAll(a, [[e], [d]]) == [[a.fold(e)], [a.fold(d)]];
    JoinTwo([a.fold(e)], [a.fold(d)], separator);
  }

  /** A capital without a lower case breaks this behind one that has it. */
  lemma BareCapital(a: Alphabet, c: char, d: char, separator: char)
    requires a.classOf(c) == Upper && a.classOf(d) == Upper && a.fold(d) == d
    requires a.classOf(a.fold(c)) == Lower && !Apostrophe(c) && !Apostrophe(d) && !Apostrophe(a.fold(c))
    ensures Cased(a, Cased(a, [c, d], separator), separator) != Cased(a, [c, d], separator)
  {
    CasedCapitals(a, c, d, separator);
    CasedApart(a, a.fold(c), d, separator);
    assert |Cased(a, Cased(a, [c, d], separator), separator)| == 3;
  }

  ghost predicate Idempotent(a: Alphabet, separator: char) {
    forall value :: Cased(a, Cased(a, value, separator), separator) == Cased(a, value, separator)
  }

  /** Casing is idempotent on all strings exactly if all capitals have a lower case, or none has. */
  lemma IdempotentIff(a: Alphabet, separator: char)
    requires CaseLaw(a) && a.classOf(separator) == Else && !Apostrophe(separator)
    ensures Idempotent(a, separator) <==> AllFold(a) || NoneFolds(a)
  {
    if AllFold(a) || NoneFolds(a) {
      forall value ensures Cased(a, Cased(a, value, separator), separator) == Cased(a, value, separator) {
        CasingIsIdempotent(a, value, separator);
      }
    } else {
      var c :| a.classOf(c) == Upper && a.fold(c) != c;
      var d :| a.classOf(d) == Upper && a.classOf(a.fold(d)) != Lower;
      BareCapital(a, c, d, separator);
    }
  }

  function AsciiClass(c: char): Class {
    if 'a' <= c <= 'z' then Lower
    else if '0' <= c <= '9' then Digit
    else if 'A' <= c <= 'Z' then Upper
    else Else
  }

  function AsciiFold(c: char): char {
    if 'A' <= c <= 'Z' then (c as int + 32) as char else c
  }

  const ASCII := Alphabet(AsciiClass, AsciiFold)

  lemma SnakeCaseIsIdempotent(value: string)
    ensures Cased(ASCII, Cased(ASCII, value, '_'), '_') == Cased(ASCII, value, '_')
  {
    CasingIsIdempotent(ASCII, value, '_');
  }
}
