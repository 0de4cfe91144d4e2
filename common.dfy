/** Values and string helpers shared by every module: the Option and Outcome
    wrappers that replace Python's None and exceptions, decimal rendering of
    integers, Python's whitespace stripping, and a filter-map over sequences. */
module Common {

  datatype Option<T> = None | Some(value: T)

  /** What a probe or a foreign call gives back: a value, or the message of
      the exception it raised (Python's `str(e)`). */
  datatype Outcome<T> = Success(value: T) | Failure(msg: string)

  // ---------------------------------------------------------------------
  // Prefixes, suffixes, joining
  // ---------------------------------------------------------------------

  predicate StartsWith(s: string, p: string) {
    |p| <= |s| && s[..|p|] == p
  }

  predicate EndsWith(s: string, p: string) {
    |p| <= |s| && s[|s| - |p|..] == p
  }

  /** Python's `s[:n]` for a non-negative n. */
  function Take(s: string, n: nat): (r: string)
    ensures |r| == if |s| < n then |s| else n
    ensures r == s[..|r|]
  {
    if |s| <= n then s else s[..n]
  }

  /** Python's `sep.join(parts)`. */
  function Join(parts: seq<string>, sep: string): string
  {
    if |parts| == 0 then ""
    else if |parts| == 1 then parts[0]
    else parts[0] + sep + Join(parts[1..], sep)
  }

  lemma JoinStartsWith(parts: seq<string>, sep: string)
    requires |parts| > 0
    ensures StartsWith(Join(parts, sep), parts[0])
  {
  }

  // ---------------------------------------------------------------------
  // Decimal rendering of integers (Python's `str(int)`) and its inverse
  // (Python's `int(str)` on such a rendering)
  // ---------------------------------------------------------------------

  predicate IsDigit(c: char) { '0' <= c <= '9' }

  function DigitChar(d: nat): (c: char)
    requires d < 10
    ensures IsDigit(c)
  {
    "0123456789"[d]
  }

  function DigitValue(c: char): (d: nat)
    requires IsDigit(c)
    ensures d < 10
  {
    (c as int - '0' as int) as nat
  }

  function NatToString(n: nat): (s: string)
    ensures |s| > 0
    ensures forall i :: 0 <= i < |s| ==> IsDigit(s[i])
  {
    if n < 10 then [DigitChar(n)] else NatToString(n / 10) + [DigitChar(n % 10)]
  }

  function IntToString(i: int): (s: string)
    ensures |s| > 0
    ensures forall k :: 0 <= k < |s| ==> IsDigit(s[k]) || (k == 0 && s[k] == '-')
  {
    if i < 0 then "-" + NatToString(-i) else NatToString(i)
  }

  function ParseNat(s: string): nat
    requires forall i :: 0 <= i < |s| ==> IsDigit(s[i])
  {
    if |s| == 0 then 0 else ParseNat(s[..|s| - 1]) * 10 + DigitValue(s[|s| - 1])
  }

  function ParseInt(s: string): int
    requires |s| > 0
    requires forall k :: 0 <= k < |s| ==> IsDigit(s[k]) || (k == 0 && s[k] == '-')
  {
    if s[0] == '-' then -(ParseNat(s[1..]) as int) else ParseNat(s)
  }

  lemma {:induction false} NatRoundTrip(n: nat)
    ensures ParseNat(NatToString(n)) == n
  {
    if n >= 10 {
      var s := NatToString(n);
      assert s[..|s| - 1] == NatToString(n / 10);
      NatRoundTrip(n / 10);
    }
  }

  /** Parsing a rendered integer gives the integer back. */
  lemma IntRoundTrip(i: int)
    ensures ParseInt(IntToString(i)) == i
  {
    if i < 0 {
      NegativeRoundTrip(-i);
    } else {
      NatRoundTrip(i);
    }
  }

  lemma NegativeRoundTrip(n: nat)
    requires n > 0
    ensures ParseInt(IntToString(-(n as int))) == -(n as int)
  {
    var s := IntToString(-(n as int));
    assert s[1..] == NatToString(n);
    NatRoundTrip(n);
  }

  /** The text of `s` before its first occurrence of `c`
      (Python's `s.split(c)[0]`). */
  function Before(s: string, c: char): (r: string)
    ensures StartsWith(s, r)
    ensures c !in r
    ensures |r| < |s| ==> s[|r|] == c
  {
    if |s| == 0 then "" else if s[0] == c then "" else [s[0]] + Before(s[1..], c)
  }

  lemma {:induction false} BeforeAppend(p: string, c: char, rest: string)
    requires c !in p
    ensures Before(p + [c] + rest, c) == p
  {
    if |p| > 0 {
      assert (p + [c] + rest)[1..] == p[1..] + [c] + rest;
      BeforeAppend(p[1..], c, rest);
    }
  }

  // ---------------------------------------------------------------------
  // Python's str.strip() with no argument
  // ---------------------------------------------------------------------

  /** The code points for which Python's str.isspace() holds. */
  predicate IsSpace(c: char) {
    ('\t' <= c <= '\r') || ('\U{1C}' <= c <= ' ') || c == '\U{85}' || c == '\U{A0}'
    || c == '\U{1680}' || ('\U{2000}' <= c <= '\U{200A}') || c == '\U{2028}' || c == '\U{2029}'
    || c == '\U{202F}' || c == '\U{205F}' || c == '\U{3000}'
  }

  function TrimLeft(s: string): string {
    if |s| > 0 && IsSpace(s[0]) then TrimLeft(s[1..]) else s
  }

  function TrimRight(s: string): string {
    if |s| > 0 && IsSpace(s[|s| - 1]) then TrimRight(s[..|s| - 1]) else s
  }

  function Strip(s: string): string {
    TrimRight(TrimLeft(s))
  }

  lemma {:induction false} TrimLeftSpec(s: string)
    ensures var r := TrimLeft(s);
      && |r| <= |s| && r == s[|s| - |r|..]
      && (forall i :: 0 <= i < |s| - |r| ==> IsSpace(s[i]))
      && (|r| > 0 ==> !IsSpace(r[0]))
  {
    if |s| > 0 && IsSpace(s[0]) {
      TrimLeftSpec(s[1..]);
      var r := TrimLeft(s);
      forall i | 0 < i < |s| - |r| ensures IsSpace(s[i]) {
        assert s[i] == s[1..][i - 1];
      }
    }
  }

  lemma {:induction false} TrimRightSpec(s: string)
    ensures var r := TrimRight(s);
      && |r| <= |s| && r == s[..|r|]
      && (forall i :: |r| <= i < |s| ==> IsSpace(s[i]))
      && (|r| > 0 ==> !IsSpace(r[|r| - 1]))
  {
    if |s| > 0 && IsSpace(s[|s| - 1]) {
      TrimRightSpec(s[..|s| - 1]);
      var r := TrimRight(s);
      assert s[..|s| - 1][..|r|] == s[..|r|];
      forall i | |r| <= i < |s| - 1 ensures IsSpace(s[i]) {
        assert s[i] == s[..|s| - 1][i];
      }
    }
  }

  /** Stripping removes leading and trailing whitespace and nothing else:
      the result is a slice of the input that neither starts nor ends with
      whitespace, and it is empty exactly when the input is all whitespace. */
  lemma StripSpec(s: string)
    ensures exists i, j ::
      && 0 <= i <= j <= |s| && Strip(s) == s[i..j]
      && (forall k :: 0 <= k < i ==> IsSpace(s[k]))
      && (forall k :: j <= k < |s| ==> IsSpace(s[k]))
    ensures Strip(s) != "" ==> !IsSpace(Strip(s)[0]) && !IsSpace(Strip(s)[|Strip(s)| - 1])
    ensures Strip(s) == "" <==> forall k :: 0 <= k < |s| ==> IsSpace(s[k])
  {
    var l := TrimLeft(s);
    TrimLeftSpec(s);
    var i := |s| - |l|;
    var r := TrimRight(l);
    TrimRightSpec(l);
    assert Strip(s) == s[i..i + |r|];
    forall k | i + |r| <= k < |s| ensures IsSpace(s[k]) {
      assert s[k] == l[k - i];
    }
    if r != "" {
      assert r[0] == l[0];
    }
  }

  /** Stripping twice is stripping once. */
  lemma StripIdempotent(s: string)
    ensures Strip(Strip(s)) == Strip(s)
  {
    StripSpec(s);
  }

  // ---------------------------------------------------------------------
  // Filter-map over a sequence, kept in input order
  // ---------------------------------------------------------------------

  /** Applies `f` to each element and keeps the `Some` values, in order: the
      shape of `[g(x) for x in xs if ...]` and of a result list that only
      grows when a probe succeeds. */
  function Collect<T, U>(xs: seq<T>, f: T -> Option<U>): seq<U>
  {
    if |xs| == 0 then []
    else match f(xs[0])
      case Some(y) => [y] + Collect(xs[1..], f)
      case None => Collect(xs[1..], f)
  }

  function OptSeq<U>(o: Option<U>): seq<U> {
    match o
    case Some(y) => [y]
    case None => []
  }

  lemma CollectCons<T, U>(xs: seq<T>, f: T -> Option<U>)
    requires |xs| > 0
    ensures Collect(xs, f) == OptSeq(f(xs[0])) + Collect(xs[1..], f)
  {
  }

  lemma {:induction false} CollectAppend<T, U>(a: seq<T>, b: seq<T>, f: T -> Option<U>)
    ensures Collect(a + b, f) == Collect(a, f) + Collect(b, f)
  {
    if |a| == 0 {
      assert a + b == b;
    } else {
      assert (a + b)[0] == a[0];
      assert (a + b)[1..] == a[1..] + b;
      CollectCons(a + b, f);
      CollectCons(a, f);
      CollectAppend(a[1..], b, f);
    }
  }

  lemma CollectSnoc<T, U>(a: seq<T>, x: T, f: T -> Option<U>)
    ensures Collect(a + [x], f) == Collect(a, f) + OptSeq(f(x))
  {
    CollectAppend(a, [x], f);
  }

  /** Every kept value comes from some element of the input. */
  lemma {:induction false} CollectMember<T, U>(xs: seq<T>, f: T -> Option<U>, y: U)
    requires y in Collect(xs, f)
    ensures exists x :: x in xs && f(x) == Some(y)
  {
    if f(xs[0]) == Some(y) {
      assert xs[0] in xs;
    } else {
      CollectMember(xs[1..], f, y);
      var x :| x in xs[1..] && f(x) == Some(y);
      assert x in xs;
    }
  }

  /** Every element that `f` keeps contributes its value. */
  lemma {:induction false} CollectComplete<T, U>(xs: seq<T>, f: T -> Option<U>, x: T)
    requires x in xs && f(x).Some?
    ensures f(x).value in Collect(xs, f)
  {
    if xs[0] != x {
      assert x in xs[1..];
      CollectComplete(xs[1..], f, x);
    }
  }

  /** Taking one element out of the input takes its value, if any, out of
      the output. */
  lemma CollectRemove<T, U>(ys: seq<T>, k: nat, f: T -> Option<U>)
    requires k < |ys|
    ensures multiset(Collect(ys, f)) == multiset(OptSeq(f(ys[k]))) + multiset(Collect(ys[..k] + ys[k + 1..], f))
  {
    CollectSplit(ys, k, f);
    ThreeParts(Collect(ys[..k], f), OptSeq(f(ys[k])), Collect(ys[k + 1..], f));
  }

  lemma ThreeParts<U>(c1: seq<U>, o: seq<U>, c2: seq<U>)
    ensures multiset(c1 + o + c2) == multiset(o) + multiset(c1 + c2)
  {
  }

  lemma CollectSplit<T, U>(ys: seq<T>, k: nat, f: T -> Option<U>)
    requires k < |ys|
    ensures Collect(ys, f) == Collect(ys[..k], f) + OptSeq(f(ys[k])) + Collect(ys[k + 1..], f)
    ensures Collect(ys[..k] + ys[k + 1..], f) == Collect(ys[..k], f) + Collect(ys[k + 1..], f)
  {
    CollectAround(ys, k, f);
    CollectAppend(ys[..k], ys[k + 1..], f);
  }

  lemma CollectAround<T, U>(ys: seq<T>, k: nat, f: T -> Option<U>)
    requires k < |ys|
    ensures Collect(ys, f) == Collect(ys[..k], f) + OptSeq(f(ys[k])) + Collect(ys[k + 1..], f)
  {
    var a, x, b := ys[..k], ys[k], ys[k + 1..];
    SplitAt(ys, k);
    CollectAppend(a + [x], b, f);
    CollectSnoc(a, x, f);
  }

  /** Removing the element at `k` removes one copy of it from the multiset. */
  lemma MultisetRemove<T>(ys: seq<T>, k: nat)
    requires k < |ys|
    ensures multiset(ys[..k] + ys[k + 1..]) == multiset(ys) - multiset{ys[k]}
  {
    SplitAt(ys, k);
    assert multiset(ys) == multiset(ys[..k]) + multiset{ys[k]} + multiset(ys[k + 1..]);
  }

  lemma SplitAt<T>(ys: seq<T>, k: nat)
    requires k < |ys|
    ensures ys == ys[..k] + [ys[k]] + ys[k + 1..]
  {
  }

  lemma MultisetTail<T>(xs: seq<T>)
    requires |xs| > 0
    ensures multiset(xs[1..]) == multiset(xs) - multiset{xs[0]}
  {
    assert xs == [xs[0]] + xs[1..];
  }

  /** Matching the head of one permutation with a position of the other
      leaves two permutations. */
  lemma PermutationRest<T>(xs: seq<T>, ys: seq<T>, k: nat)
    requires multiset(xs) == multiset(ys) && |xs| > 0 && k < |ys| && ys[k] == xs[0]
    ensures multiset(xs[1..]) == multiset(ys[..k] + ys[k + 1..])
  {
    MultisetTail(xs);
    MultisetRemove(ys, k);
  }

  /** The kept values do not depend on the order of the input: permuting
      the input permutes the output. */
  lemma {:induction false} CollectPermutation<T, U>(xs: seq<T>, ys: seq<T>, f: T -> Option<U>)
    requires multiset(xs) == multiset(ys)
    ensures multiset(Collect(xs, f)) == multiset(Collect(ys, f))
  {
    if |xs| == 0 {
      assert |ys| == |multiset(ys)| == 0;
    } else {
      assert xs[0] in multiset(ys);
      var k :| 0 <= k < |ys| && ys[k] == xs[0];
      PermutationRest(xs, ys, k);
      CollectPermutation(xs[1..], ys[..k] + ys[k + 1..], f);
      CollectRemove(ys, k, f);
      CollectCons(xs, f);
    }
  }
}
