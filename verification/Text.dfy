/** Byte strings as Go's `strings`, `bytes` and `strconv` treat them.

    A Go string is a sequence of bytes; a byte is written here as the `char` with the same code.
    Every lemma holds for all `char` values, so in particular for those below 256. */
module Text {

  type Bytes = seq<char>

  /** `strings.Index` for one byte, with |s| in place of -1. */
  function IndexOf(s: Bytes, c: char): (i: nat)
    ensures i <= |s| && c !in s[..i]
    ensures i < |s| ==> s[i] == c
  {
    if s == [] || s[0] == c then 0
    else
      var i := 1 + IndexOf(s[1..], c);
      assert s[..i] == [s[0]] + s[1..][..i - 1];
      i
  }

  function Count(s: Bytes, c: char): nat {
    if s == [] then 0 else (if s[0] == c then 1 else 0) + Count(s[1..], c)
  }

  /** `strings.Replace(s, from, to, -1)`: leftmost, non-overlapping. */
  function Replace(s: Bytes, from: Bytes, to: Bytes): Bytes
    requires from != []
  {
    if s == [] then []
    else if from <= s then to + Replace(s[|from|..], from, to)
    else [s[0]] + Replace(s[1..], from, to)
  }

  /** `bytes.SplitN(s, c, n)`: at most n pieces, the last one is the unsplit remainder. */
  function SplitN(s: Bytes, c: char, n: nat): (r: seq<Bytes>)
    requires n >= 1
    ensures |r| >= 1
    decreases n
  {
    var i := IndexOf(s, c);
    if n == 1 || i == |s| then [s] else [s[..i]] + SplitN(s[i + 1..], c, n - 1)
  }

  /** `strings.Split(s, c)`. */
  function Split(s: Bytes, c: char): (r: seq<Bytes>)
    ensures |r| >= 1
    decreases |s|
  {
    var i := IndexOf(s, c);
    if i == |s| then [s] else [s[..i]] + Split(s[i + 1..], c)
  }

  /** `bytes.Join(fields, c)`. */
  function Join(fields: seq<Bytes>, c: char): Bytes {
    if fields == [] then []
    else if |fields| == 1 then fields[0]
    else fields[0] + [c] + Join(fields[1..], c)
  }

  lemma IndexOfUnique(s: Bytes, c: char, i: nat)
    requires i < |s| && c !in s[..i] && s[i] == c
    ensures IndexOf(s, c) == i
  {
    var k := IndexOf(s, c);
  }

  lemma {:induction false} CountAbsent(s: Bytes, c: char)
    ensures Count(s, c) == 0 <==> c !in s
  {
    if s != [] { CountAbsent(s[1..], c); }
  }

  lemma {:induction false} CountConcat(a: Bytes, b: Bytes, c: char)
    ensures Count(a + b, c) == Count(a, c) + Count(b, c)
  {
    if a == [] {
      assert a + b == b;
    } else {
      assert (a + b)[1..] == a[1..] + b;
      CountConcat(a[1..], b, c);
    }
  }

  lemma CountAtIndex(s: Bytes, c: char)
    requires IndexOf(s, c) < |s|
    ensures Count(s, c) == 1 + Count(s[IndexOf(s, c) + 1..], c)
  {
    var i := IndexOf(s, c);
    assert s == s[..i] + ([s[i]] + s[i + 1..]);
    CountConcat(s[..i], [s[i]] + s[i + 1..], c);
    CountAbsent(s[..i], c);
    assert ([s[i]] + s[i + 1..])[1..] == s[i + 1..];
  }

  lemma {:induction false} SplitNCount(s: Bytes, c: char, n: nat)
    requires n >= 1
    ensures |SplitN(s, c, n)| == if Count(s, c) + 1 <= n then Count(s, c) + 1 else n
    decreases n
  {
    var i := IndexOf(s, c);
    if i == |s| {
      assert s[..i] == s;
      CountAbsent(s, c);
    } else {
      CountAtIndex(s, c);
      if n > 1 {
        var rest := s[i + 1..];
        SplitNCount(rest, c, n - 1);
        SplitNStep(s, c, n, i, rest);
      }
    }
  }

  lemma SplitNStep(s: Bytes, c: char, n: nat, i: nat, rest: Bytes)
    requires n > 1 && i == IndexOf(s, c) < |s| && rest == s[i + 1..]
    ensures |SplitN(s, c, n)| == 1 + |SplitN(rest, c, n - 1)|
  {
  }

  /** The last piece of a split that cut at least once is shorter than the whole. */
  lemma {:induction false} SplitNLastShorter(s: Bytes, c: char, n: nat)
    requires n >= 1
    ensures var r := SplitN(s, c, n); |r[|r| - 1]| + |r| - 1 <= |s|
    decreases n
  {
    var i := IndexOf(s, c);
    if n > 1 && i < |s| { SplitNLastShorter(s[i + 1..], c, n - 1); }
  }

  lemma IndexOfHead(f: Bytes, rest: Bytes, c: char)
    requires c !in f
    ensures var s := f + [c] + rest;
            IndexOf(s, c) == |f| && s[..|f|] == f && s[|f| + 1..] == rest
  {
    var s := f + [c] + rest;
    assert s[..|f|] == f && s[|f|] == c;
    IndexOfUnique(s, c, |f|);
  }

  lemma SplitNCons(f: Bytes, rest: Bytes, c: char, n: nat)
    requires c !in f && n >= 2
    ensures SplitN(f + [c] + rest, c, n) == [f] + SplitN(rest, c, n - 1)
  {
    IndexOfHead(f, rest, c);
  }

  lemma SplitCons(f: Bytes, rest: Bytes, c: char)
    requires c !in f
    ensures Split(f + [c] + rest, c) == [f] + Split(rest, c)
  {
    IndexOfHead(f, rest, c);
  }

  /** Splitting a join gives the fields back; the last field may hold any number of separators. */
  lemma {:induction false} SplitNJoin(fields: seq<Bytes>, c: char)
    requires |fields| >= 1
    requires forall i | 0 <= i < |fields| - 1 :: c !in fields[i]
    ensures SplitN(Join(fields, c), c, |fields|) == fields
    decreases |fields|
  {
    if |fields| > 1 {
      var rest := Join(fields[1..], c);
      SplitNJoin(fields[1..], c);
      SplitNCons(fields[0], rest, c, |fields|);
      assert fields == [fields[0]] + fields[1..];
    }
  }

  lemma JoinInjective(x: seq<Bytes>, y: seq<Bytes>, c: char)
    requires |x| == |y| >= 1 && Join(x, c) == Join(y, c)
    requires forall i | 0 <= i < |x| - 1 :: c !in x[i] && c !in y[i]
    ensures x == y
  {
    SplitNJoin(x, c);
    SplitNJoin(y, c);
  }

  // ---- decimal numbers (`strconv.FormatInt(n, 10)`) ----

  function Digit(d: nat): (c: char)
    requires d < 10
    ensures '0' <= c <= '9'
  {
    ('0' as int + d) as char
  }

  function Digits(n: nat): (s: Bytes)
    ensures |s| > 0 && forall i | 0 <= i < |s| :: '0' <= s[i] <= '9'
  {
    if n < 10 then [Digit(n)] else Digits(n / 10) + [Digit(n % 10)]
  }

  function FormatInt(n: int): (s: Bytes)
    ensures |s| > 0
    ensures forall i | 0 <= i < |s| :: '0' <= s[i] <= '9' || s[i] == '-'
  {
    if n < 0 then "-" + Digits(-n) else Digits(n)
  }

  function DigitsValue(s: Bytes): int {
    if s == [] then 0 else 10 * DigitsValue(s[..|s| - 1]) + (s[|s| - 1] as int - '0' as int)
  }

  function ParseInt(s: Bytes): int {
    if s != [] && s[0] == '-' then -DigitsValue(s[1..]) else DigitsValue(s)
  }

  lemma {:induction false} DigitsRoundTrip(n: nat)
    ensures DigitsValue(Digits(n)) == n
  {
    if n < 10 {
      assert [Digit(n)][..0] == [];
    } else {
      DigitsRoundTrip(n / 10);
      assert (Digits(n / 10) + [Digit(n % 10)])[..|Digits(n / 10)|] == Digits(n / 10);
    }
  }

  lemma FormatRoundTrip(n: int)
    ensures ParseInt(FormatInt(n)) == n
  {
    DigitsRoundTrip(if n < 0 then -n else n);
  }

  lemma FormatInjective(m: int, n: int)
    requires FormatInt(m) == FormatInt(n)
    ensures m == n
  {
    FormatRoundTrip(m);
    FormatRoundTrip(n);
  }
}
