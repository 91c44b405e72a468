/** Shortening one string leaf: boundaries, marker, and how often it can happen. */
module Elision {
  import opened Prelude
  import opened Text

  const RETAIN := 3_000

  /** Sizes of strings fit a 64-bit machine word. */
  const WORD := 0x1_0000_0000_0000_0000

  // -------------------------------------------------------------- boundaries

  lemma {:induction false} ByteLenPrefix(s: string, i: nat, k: nat)
    requires i <= k <= |s|
    ensures ByteLen(s[..k]) == ByteLen(s[..i]) + ByteLen(s[i..k])
    ensures i < k ==> ByteLen(s[..i]) < ByteLen(s[..k])
  {
    ByteLenConcat(s[..i], s[i..k]);
    assert s[..k] == s[..i] + s[i..k];
    EscapedAtLeastRaw(s[i..k]);
  }

  /** Characters of the longest prefix of at most `n` bytes. */
  function HeadChars(s: string, n: nat): (k: nat)
    ensures k <= |s| && ByteLen(s[..k]) <= n
  {
    if ByteLen(s) <= n then assert s[..|s|] == s; |s|
    else
      var k := HeadChars(s[..|s| - 1], n);
      assert s[..|s| - 1][..k] == s[..k];
      k
  }

  /** Characters of the shortest prefix of at least `n` bytes. */
  function TailChars(s: string, n: nat): (k: nat)
    requires n <= ByteLen(s)
    ensures k <= |s| && ByteLen(s[..k]) >= n
  {
    if s != [] && ByteLen(s[..|s| - 1]) >= n then
      var k := TailChars(s[..|s| - 1], n);
      assert s[..|s| - 1][..k] == s[..k];
      k
    else assert s[..|s|] == s; |s|
  }

  lemma {:induction false} HeadIsLongest(s: string, n: nat, k: nat)
    requires k <= |s| && ByteLen(s[..k]) <= n
    ensures k <= HeadChars(s, n)
  {
    if ByteLen(s) > n {
      assert s[..|s|] == s;
      assert s[..|s| - 1][..k] == s[..k];
      HeadIsLongest(s[..|s| - 1], n, k);
    }
  }

  lemma {:induction false} TailIsShortest(s: string, n: nat, k: nat)
    requires k <= |s| && n <= ByteLen(s[..k]) && n <= ByteLen(s)
    ensures TailChars(s, n) <= k
  {
    if s != [] && ByteLen(s[..|s| - 1]) >= n && k < |s| {
      assert s[..|s| - 1][..k] == s[..k];
      TailIsShortest(s[..|s| - 1], n, k);
    } else if k < |s| {
      ByteLenPrefix(s, k, |s| - 1);
    }
  }

  predicate IsCharBoundary(s: string, i: nat) {
    exists k | 0 <= k <= |s| :: ByteLen(s[..k]) == i
  }

  /** Steps back from a byte offset to a character boundary. */
  method FloorCharBoundary(s: string, start: nat) returns (i: nat)
    requires start <= ByteLen(s)
    ensures i == ByteLen(s[..HeadChars(s, start)])
  {
    i := start;
    ghost var k := HeadChars(s, start);
    while i > 0 && !IsCharBoundary(s, i)
      invariant ByteLen(s[..k]) <= i <= start
    {
      assert ByteLen(s[..k]) != i;
      i := i - 1;
    }
    if i > ByteLen(s[..k]) {
      var m :| 0 <= m <= |s| && ByteLen(s[..m]) == i;
      HeadIsLongest(s, start, m);
      if m < k { ByteLenPrefix(s, m, k); }
    }
  }

  /** Steps forward from a byte offset to a character boundary. */
  method CeilCharBoundary(s: string, start: nat) returns (i: nat)
    requires start <= ByteLen(s)
    ensures i == ByteLen(s[..TailChars(s, start)])
  {
    i := start;
    ghost var k := TailChars(s, start);
    ByteLenPrefix(s, k, |s|);
    assert s[..|s|] == s;
    while i < ByteLen(s) && !IsCharBoundary(s, i)
      invariant start <= i <= ByteLen(s[..k]) <= ByteLen(s)
    {
      assert ByteLen(s[..k]) != i;
      i := i + 1;
    }
    if i < ByteLen(s[..k]) {
      var m :| 0 <= m <= |s| && ByteLen(s[..m]) == i;
      TailIsShortest(s, start, m);
      if k < m { ByteLenPrefix(s, k, m); }
    }
  }

  /** Where the kept head may end and where the kept tail may start, in bytes. */
  function HeadBytes(s: string): (n: nat)
    ensures n <= ByteLen(s) && n <= RETAIN
  {
    if RETAIN < ByteLen(s) then RETAIN else ByteLen(s)
  }

  function TailBytes(s: string): (n: nat)
    ensures n <= ByteLen(s) <= n + RETAIN
  {
    if ByteLen(s) < RETAIN then 0 else ByteLen(s) - RETAIN
  }

  /** First and last character positions of the part to cut. */
  function Cut(s: string): (c: (nat, nat))
    ensures c.0 <= c.1 <= |s|
  {
    var head := HeadChars(s, HeadBytes(s));
    var tail := TailChars(s, TailBytes(s));
    (head, if tail < head then head else tail)
  }

  // ------------------------------------------------------------------ marker

  const ELLIPSIS := "\U{2026}"

  function Marker(removed: nat): string {
    ELLIPSIS + "[elided " + Decimal(removed) + " bytes]" + ELLIPSIS
  }

  function Removed(s: string): nat {
    ByteLen(s[Cut(s).0..Cut(s).1])
  }

  /** Eliding would make the string strictly shorter. */
  predicate Shrinks(s: string) {
    Removed(s) > ByteLen(Marker(Removed(s)))
  }

  function Elide(s: string): string {
    s[..Cut(s).0] + Marker(Removed(s)) + s[Cut(s).1..]
  }

  lemma {:induction false} PlainText(s: string)
    requires forall i | 0 <= i < |s| :: ' ' <= s[i] <= '~' && s[i] != '"' && s[i] != '\\'
    ensures ByteLen(s) == EscapedLen(s) == |s|
  {
    if s != [] { PlainText(s[..|s| - 1]); }
  }

  lemma DecimalIsPlain(n: nat)
    ensures ByteLen(Decimal(n)) == EscapedLen(Decimal(n)) == |Decimal(n)|
  {
    DecimalRoundTrip(n);
    PlainText(Decimal(n));
  }

  lemma EllipsisSize()
    ensures ByteLen(ELLIPSIS) == EscapedLen(ELLIPSIS) == 3
  {
    assert ELLIPSIS[..0] == [];
  }

  lemma FiveSizes(a: string, b: string, c: string, d: string, e: string)
    ensures ByteLen(a + b + c + d + e) == ByteLen(a) + ByteLen(b) + ByteLen(c) + ByteLen(d) + ByteLen(e)
    ensures EscapedLen(a + b + c + d + e) ==
            EscapedLen(a) + EscapedLen(b) + EscapedLen(c) + EscapedLen(d) + EscapedLen(e)
  {
    ByteLenConcat(a, b); ByteLenConcat(a + b, c); ByteLenConcat(a + b + c, d); ByteLenConcat(a + b + c + d, e);
    EscapedLenConcat(a, b); EscapedLenConcat(a + b, c); EscapedLenConcat(a + b + c, d); EscapedLenConcat(a + b + c + d, e);
  }

  /** The marker needs no escapes and takes 21 bytes plus one per digit. */
  lemma MarkerSize(n: nat)
    ensures ByteLen(Marker(n)) == EscapedLen(Marker(n)) == 21 + |Decimal(n)|
  {
    var open, digits, close := "[elided ", Decimal(n), " bytes]";
    assert Marker(n) == ELLIPSIS + open + digits + close + ELLIPSIS;
    PlainText(open);
    PlainText(close);
    DecimalIsPlain(n);
    EllipsisSize();
    FiveSizes(ELLIPSIS, open, digits, close, ELLIPSIS);
  }

  /** The code's own test, in byte offsets, is the same. */
  method LeafShrinks(s: string) returns (shrinks: bool)
    ensures shrinks <==> Shrinks(s)
  {
    var len := ByteLen(s);
    var headEnd := FloorCharBoundary(s, HeadBytes(s));
    var tailStart := CeilCharBoundary(s, TailBytes(s));
    if tailStart < headEnd {
      tailStart := headEnd;
    }
    ghost var (head, tail) := Cut(s);
    ByteLenPrefix(s, head, tail);
    OffsetsFollow(s, TailChars(s, TailBytes(s)), HeadChars(s, HeadBytes(s)));
    assert tailStart == ByteLen(s[..tail]);
    if tailStart <= headEnd {
      MarkerSize(0);
      return false;
    }
    var removed := tailStart - headEnd;
    assert removed == Removed(s);
    shrinks := headEnd + ByteLen(Marker(removed)) + (len - tailStart) < len;
  }

  /** Byte offsets order character positions. */
  lemma OffsetsFollow(s: string, i: nat, k: nat)
    requires i <= |s| && k <= |s|
    ensures i < k <==> ByteLen(s[..i]) < ByteLen(s[..k])
  {
    if i < k { ByteLenPrefix(s, i, k); } else { ByteLenPrefix(s, k, i); }
  }

  // ------------------------------------------------------- strict shrinking

  /** An elision strictly shortens the string, raw and as it is serialized. */
  lemma ElideShortens(s: string)
    requires Shrinks(s)
    ensures ByteLen(Elide(s)) < ByteLen(s)
    ensures EscapedLen(Elide(s)) < EscapedLen(s)
  {
    var (head, tail) := Cut(s);
    var a, mid, b, m := s[..head], s[head..tail], s[tail..], Marker(Removed(s));
    assert s == a + mid + b;
    ByteLenConcat(a, mid); ByteLenConcat(a + mid, b);
    ByteLenConcat(a, m); ByteLenConcat(a + m, b);
    EscapedLenConcat(a, mid); EscapedLenConcat(a + mid, b);
    EscapedLenConcat(a, m); EscapedLenConcat(a + m, b);
    MarkerSize(Removed(s));
    EscapedAtLeastRaw(mid);
  }

  // ------------------------------------------------------ at most two times

  /** A cut that lies between two positions removes no more than is between them. */
  lemma CutWithin(s: string, i: nat, k: nat)
    requires i <= k <= |s| && i <= Cut(s).0 && Cut(s).1 <= k
    ensures Removed(s) <= ByteLen(s[i..k])
  {
    var (head, tail) := Cut(s);
    ByteLenPrefix(s, i, head);
    ByteLenPrefix(s, head, tail);
    ByteLenPrefix(s, tail, k);
    ByteLenPrefix(s, i, k);
  }

  /** With short ends around `m`, nothing outside `m` is cut. */
  lemma OnlyMiddleIsCut(a: string, m: string, b: string)
    requires ByteLen(a) <= RETAIN && ByteLen(b) <= RETAIN
    ensures Removed(a + m + b) <= ByteLen(m)
  {
    var s := a + m + b;
    ByteLenConcat(a, m);
    ByteLenConcat(a + m, b);
    assert s[..|a|] == a && s[..|a + m|] == a + m && s[|a|..|a + m|] == m;
    HeadIsLongest(s, HeadBytes(s), |a|);
    TailIsShortest(s, TailBytes(s), |a + m|);
    if Cut(s).0 <= |a + m| {
      CutWithin(s, |a|, |a + m|);
    } else {
      assert Removed(s) == 0 by { assert s[Cut(s).0..Cut(s).1] == []; }
    }
  }

  lemma CutEndsAreShort(s: string)
    requires Cut(s).0 < Cut(s).1
    ensures ByteLen(s[..Cut(s).0]) <= RETAIN && ByteLen(s[Cut(s).1..]) <= RETAIN
  {
    var tail := TailChars(s, TailBytes(s));
    ByteLenPrefix(s, tail, |s|);
    assert s[tail..|s|] == s[tail..] && s[..|s|] == s;
  }

  lemma ShrinksMeansCut(s: string)
    requires Shrinks(s)
    ensures Cut(s).0 < Cut(s).1
  {
  }

  /** What can be cut out of an elided string is at most its marker. */
  lemma ElidedLeavesMarker(s: string)
    requires Shrinks(s)
    ensures Removed(Elide(s)) <= 21 + |Decimal(Removed(s))|
  {
    ShrinksMeansCut(s);
    CutEndsAreShort(s);
    MarkerSize(Removed(s));
    OnlyMiddleIsCut(s[..Cut(s).0], Marker(Removed(s)), s[Cut(s).1..]);
  }

  lemma {:induction false} DigitCount(n: nat, bound: nat, d: nat)
    requires n < bound && 0 < d && bound == Power10(d)
    ensures |Decimal(n)| <= d
  {
    if n >= 10 {
      assert d > 1;
      DigitCount(n / 10, Power10(d - 1), d - 1);
    }
  }

  function Power10(d: nat): nat {
    if d == 0 then 1 else 10 * Power10(d - 1)
  }

  lemma WordDigits(n: nat)
    requires n < WORD
    ensures |Decimal(n)| <= 20
  {
    assert Power10(5) == 100_000;
    assert Power10(10) == 10_000_000_000;
    assert Power10(15) == 1_000_000_000_000_000;
    assert Power10(20) == 100_000_000_000_000_000_000;
    DigitCount(n, Power10(20), 20);
  }

  /**
   No string of machine size can be elided more than twice: the first marker
   has at most 41 bytes, so the second has at most 23, and 23 removable bytes
   do not shrink.
   */
  lemma AtMostTwice(s: string)
    requires ByteLen(s) < WORD
    requires Shrinks(s) && Shrinks(Elide(s))
    ensures !Shrinks(Elide(Elide(s)))
  {
    ByteLenPrefix(s, Cut(s).0, Cut(s).1);
    ByteLenPrefix(s, Cut(s).1, |s|);
    assert s[..|s|] == s;
    WordDigits(Removed(s));
    ElidedLeavesMarker(s);
    var t := Elide(s);
    DigitCount(Removed(t), Power10(2), 2);
    ElidedLeavesMarker(t);
    var r := Removed(Elide(t));
    MarkerSize(r);
    if r >= 10 { assert |Decimal(r)| >= 2; }
  }

  // ---------------------------------------------- when it happens twice

  lemma HeadAt(s: string, n: nat, k: nat)
    requires k <= |s| && ByteLen(s[..k]) <= n && (k < |s| ==> n < ByteLen(s[..k + 1]))
    ensures HeadChars(s, n) == k
  {
    HeadIsLongest(s, n, k);
    if k < |s| { HeadBelow(s, n, k + 1); }
  }

  lemma HeadBelow(s: string, n: nat, k: nat)
    requires k <= |s| && n < ByteLen(s[..k])
    ensures HeadChars(s, n) < k
  {
    OffsetsFollow(s, HeadChars(s, n), k);
  }

  lemma TailAbove(s: string, n: nat, k: nat)
    requires k <= |s| && ByteLen(s[..k]) < n <= ByteLen(s)
    ensures k < TailChars(s, n)
  {
    OffsetsFollow(s, k, TailChars(s, n));
  }

  /** A prefix that is split off, in characters and bytes. */
  lemma PrefixOf(a: string, b: string)
    ensures (a + b)[..|a|] == a && (a + b)[|a|..] == b && ByteLen(a + b) == ByteLen(a) + ByteLen(b)
  {
    ByteLenConcat(a, b);
  }

  /** One end of an elided leaf swallows the ellipsis next to it if it leaves exactly its three bytes. */
  function Swallowed(n: nat): nat {
    if n == RETAIN - 3 then 3 else 0
  }

  predicate IsEnd(s: string) {
    RETAIN - 3 <= ByteLen(s) <= RETAIN
  }

  /** Byte offsets around an ellipsis that follows `a`. */
  lemma AroundEllipsis(a: string, b: string, t: string)
    requires t == a + ELLIPSIS + b
    ensures |a| < |t| && ByteLen(t[..|a|]) == ByteLen(a) && ByteLen(t[..|a| + 1]) == ByteLen(a) + 3
    ensures ByteLen(t) == ByteLen(a) + 3 + ByteLen(b)
  {
    EllipsisSize();
    PrefixOf(a, ELLIPSIS);
    PrefixOf(a + ELLIPSIS, b);
    assert t[..|a|] == a && t[..|a| + 1] == a + ELLIPSIS;
  }

  /** The kept head of something that starts with `a` and an ellipsis. */
  lemma HeadOfElided(a: string, b: string, t: string)
    requires IsEnd(a) && t == a + ELLIPSIS + b
    ensures ByteLen(t[..HeadChars(t, RETAIN)]) == ByteLen(a) + Swallowed(ByteLen(a))
         || ByteLen(t) <= RETAIN
  {
    AroundEllipsis(a, b, t);
    HeadStops(t, |a|, RETAIN);
  }

  lemma HeadStops(t: string, i: nat, n: nat)
    requires i < |t| && ByteLen(t[..i]) <= n <= ByteLen(t[..i + 1])
    ensures HeadChars(t, n) == if n == ByteLen(t[..i + 1]) then i + 1 else i
  {
    if n == ByteLen(t[..i + 1]) { HeadExact(t, i + 1, n); } else { HeadAt(t, n, i); }
  }

  lemma TailStops(t: string, i: nat, n: nat)
    requires i < |t| && ByteLen(t[..i]) <= n <= ByteLen(t[..i + 1]) && n <= ByteLen(t)
    ensures TailChars(t, n) == if n == ByteLen(t[..i]) then i else i + 1
  {
    if n == ByteLen(t[..i]) {
      TailExact(t, i, n);
    } else {
      TailIsShortest(t, n, i + 1);
      TailAbove(t, n, i);
    }
  }

  /** The kept tail of something that ends with an ellipsis and `b`. */
  lemma TailOfElided(a: string, b: string, t: string, n: nat)
    requires IsEnd(b) && t == a + ELLIPSIS + b && n + RETAIN == ByteLen(t)
    ensures ByteLen(t[..TailChars(t, n)]) == ByteLen(t) - ByteLen(b) - Swallowed(ByteLen(b))
  {
    AroundEllipsis(a, b, t);
    TailStops(t, |a|, n);
  }

  /** What a cut removes, from the byte offsets of its ends. */
  lemma RemovedBetween(s: string, n: nat, h: nat, k: nat)
    requires n + RETAIN == ByteLen(s) && 0 < n && h <= k
    requires ByteLen(s[..HeadChars(s, RETAIN)]) == h && ByteLen(s[..TailChars(s, n)]) == k
    ensures Removed(s) == k - h
  {
    var i, m := HeadChars(s, RETAIN), TailChars(s, n);
    OffsetsFollow(s, m, i);
    assert HeadBytes(s) == RETAIN && TailBytes(s) == n;
    assert Cut(s) == (i, m);
    ByteLenPrefix(s, i, m);
  }

  lemma Regroup(a: string, e: string, mid: string, b: string)
    ensures a + (e + mid + e) + b == a + e + mid + e + b
    ensures a + (e + mid + e) + b == a + e + (mid + e + b)
  {
  }

  lemma ElidedHead(a: string, e: string, mid: string, b: string, t: string)
    requires IsEnd(a) && e == ELLIPSIS && t == a + (e + mid + e) + b && RETAIN < ByteLen(t)
    ensures ByteLen(t[..HeadChars(t, RETAIN)]) == ByteLen(a) + Swallowed(ByteLen(a))
  {
    Regroup(a, e, mid, b);
    HeadOfElided(a, mid + e + b, t);
  }

  lemma ElidedTail(a: string, e: string, mid: string, b: string, t: string, n: nat)
    requires IsEnd(b) && e == ELLIPSIS && t == a + (e + mid + e) + b && n + RETAIN == ByteLen(t)
    ensures ByteLen(t[..TailChars(t, n)]) == ByteLen(t) - ByteLen(b) - Swallowed(ByteLen(b))
  {
    Regroup(a, e, mid, b);
    TailOfElided(a + e + mid, b, t, n);
  }

  lemma ElidedSize(a: string, e: string, mid: string, b: string, t: string)
    requires e == ELLIPSIS && t == a + (e + mid + e) + b
    ensures ByteLen(t) == ByteLen(a) + 6 + ByteLen(mid) + ByteLen(b)
  {
    Regroup(a, e, mid, b);
    EllipsisSize();
    FiveSizes(a, e, mid, e, b);
  }

  lemma Excess(t: string) returns (n: nat)
    requires RETAIN < ByteLen(t)
    ensures n + RETAIN == ByteLen(t)
  {
    n := ByteLen(t) - RETAIN;
  }

  /** Cutting an elided leaf again removes its marker, less what the ends swallow of it. */
  lemma RemovedAgain(a: string, e: string, mid: string, b: string, t: string)
    requires IsEnd(a) && IsEnd(b) && e == ELLIPSIS && t == a + (e + mid + e) + b
    ensures Removed(t) == 6 + ByteLen(mid) - Swallowed(ByteLen(a)) - Swallowed(ByteLen(b))
  {
    ElidedSize(a, e, mid, b, t);
    ElidedHead(a, e, mid, b, t);
    var n := Excess(t);
    ElidedTail(a, e, mid, b, t, n);
    RemovedBetween(t, n, ByteLen(a) + Swallowed(ByteLen(a)), ByteLen(t) - ByteLen(b) - Swallowed(ByteLen(b)));
  }

  /** The ends that an elision keeps fall short of the retained size by less than a character. */
  lemma EndSizes(s: string)
    requires Shrinks(s)
    ensures IsEnd(s[..Cut(s).0]) && IsEnd(s[Cut(s).1..])
  {
    var (h, k) := Cut(s);
    ShrinksMeansCut(s);
    CutEndsAreShort(s);
    assert s[..|s|] == s;
    HeadIsFull(s);
    TailIsFull(s);
  }

  lemma LongEnough(s: string)
    ensures ByteLen(s) <= RETAIN ==> Cut(s).0 == Cut(s).1
  {
    assert s[..|s|] == s;
    HeadIsLongest(s, ByteLen(s), |s|);
  }

  lemma HeadIsFull(s: string)
    requires Cut(s).0 < Cut(s).1
    ensures ByteLen(s[..Cut(s).0]) >= RETAIN - 3
  {
    LongEnough(s);
    var h := Cut(s).0;
    ByteLenPrefix(s, h, h + 1);
    assert s[h..h + 1] == [s[h]] && [s[h]][..0] == [];
    if ByteLen(s[..h + 1]) <= RETAIN { HeadIsLongest(s, RETAIN, h + 1); }
  }

  lemma TailIsFull(s: string)
    requires Cut(s).0 < Cut(s).1
    ensures ByteLen(s[Cut(s).1..]) >= RETAIN - 3
  {
    LongEnough(s);
    var k, n := Cut(s).1, ByteLen(s) - RETAIN;
    ByteLenPrefix(s, k - 1, k);
    ByteLenPrefix(s, k, |s|);
    assert s[k - 1..k] == [s[k - 1]] && [s[k - 1]][..0] == [];
    assert s[..|s|] == s && s[k..|s|] == s[k..];
    if ByteLen(s[..k - 1]) >= n { TailIsShortest(s, n, k - 1); }
  }

  /**
   When an elided leaf can be elided once more, for every string: its marker counts
   the removed bytes with at least three digits, and with three more for each end
   of 2997 bytes, which takes the ellipsis next to it out of the second cut.
   */
  lemma SecondElision(s: string)
    requires ByteLen(s) < WORD && Shrinks(s)
    ensures Shrinks(Elide(s)) <==>
      |Decimal(Removed(s))| >= 3 + Swallowed(ByteLen(s[..Cut(s).0])) + Swallowed(ByteLen(s[Cut(s).1..]))
  {
    var a, b, digits := s[..Cut(s).0], s[Cut(s).1..], Decimal(Removed(s));
    var mid := "[elided " + digits + " bytes]";
    RemovedFitsWord(s);
    EndSizes(s);
    MarkerMiddle(Removed(s));
    assert Elide(s) == a + (ELLIPSIS + mid + ELLIPSIS) + b;
    RemovedAgain(a, ELLIPSIS, mid, b, Elide(s));
    MarkerCounts(Removed(s));
    var r := Removed(Elide(s));
    assert r == 21 + |digits| - Swallowed(ByteLen(a)) - Swallowed(ByteLen(b));
    TwoDigits(r);
    MarkerSize(r);
  }

  /** The marker of something that shrinks has at least two digits, and at most twenty. */
  lemma MarkerCounts(n: nat)
    requires n > ByteLen(Marker(n)) && n < WORD
    ensures 2 <= |Decimal(n)| <= 20
  {
    MarkerSize(n);
    DigitsOf(n);
    WordDigits(n);
  }

  lemma MarkerMiddle(n: nat)
    ensures var mid := "[elided " + Decimal(n) + " bytes]";
      Marker(n) == ELLIPSIS + mid + ELLIPSIS && ByteLen(mid) == 15 + |Decimal(n)|
  {
    var mid := "[elided " + Decimal(n) + " bytes]";
    SameMarker(ELLIPSIS, "[elided ", Decimal(n), " bytes]");
    MarkerSize(n);
    EllipsisSize();
    ByteLenConcat(ELLIPSIS, mid);
    ByteLenConcat(ELLIPSIS + mid, ELLIPSIS);
  }

  lemma SameMarker(e: string, open: string, digits: string, close: string)
    ensures e + open + digits + close + e == e + (open + digits + close) + e
  {
  }

  lemma RemovedFitsWord(s: string)
    requires ByteLen(s) < WORD
    ensures Removed(s) < WORD
  {
    ByteLenPrefix(s, Cut(s).0, Cut(s).1);
    ByteLenPrefix(s, Cut(s).1, |s|);
    assert s[..|s|] == s;
  }

  // -------------------------------------------------------------- ASCII text

  predicate IsAscii(s: string) {
    forall i | 0 <= i < |s| :: s[i] < '\U{80}'
  }

  lemma {:induction false} AsciiBytes(s: string)
    requires IsAscii(s)
    ensures ByteLen(s) == |s|
  {
    if s != [] { AsciiBytes(s[..|s| - 1]); }
  }

  lemma HeadExact(s: string, k: nat, n: nat)
    requires k <= |s| && ByteLen(s[..k]) == n
    ensures HeadChars(s, n) == k
  {
    HeadIsLongest(s, n, k);
    OffsetsFollow(s, k, HeadChars(s, n));
  }

  lemma TailExact(s: string, k: nat, n: nat)
    requires k <= |s| && ByteLen(s[..k]) == n <= ByteLen(s)
    ensures TailChars(s, n) == k
  {
    TailIsShortest(s, n, k);
    OffsetsFollow(s, TailChars(s, n), k);
  }

  /** The cut of a string whose ends are exactly the retained size is all between them. */
  lemma ExactCut(a: string, m: string, b: string)
    requires ByteLen(a) == RETAIN && ByteLen(b) == RETAIN
    ensures Cut(a + m + b) == (|a|, |a + m|)
  {
    var s := a + m + b;
    ByteLenConcat(a, m);
    ByteLenConcat(a + m, b);
    assert s[..|a|] == a;
    HeadExact(s, |a|, RETAIN);
    assert s[..|a + m|] == a + m;
    TailExact(s, |a + m|, ByteLen(a + m));
    assert HeadBytes(s) == RETAIN && TailBytes(s) == ByteLen(a + m);
  }

  lemma TwoDigits(n: nat)
    requires 10 <= n < 100
    ensures |Decimal(n)| == 2
  {
  }

  /** For ASCII text the first elision happens from 6024 bytes on and the second from 6100 bytes on. */
  lemma AsciiElisions(s: string)
    requires IsAscii(s) && |s| < WORD
    ensures Shrinks(s) <==> |s| >= 6_024
    ensures Shrinks(s) ==> (Shrinks(Elide(s)) <==> |s| >= 6_100)
  {
    AsciiBytes(s);
    if |s| <= 6_000 {
      AsciiTooShort(s);
    } else {
      AsciiCut(s);
      MarkerSize(|s| - 6_000);
      DigitsOf(|s| - 6_000);
      if Shrinks(s) { SecondElision(s); }
    }
  }

  lemma AsciiCut(s: string)
    requires IsAscii(s) && |s| > 6_000
    ensures Cut(s) == (RETAIN, |s| - RETAIN) && Removed(s) == |s| - 6_000
    ensures ByteLen(s[..Cut(s).0]) == ByteLen(s[Cut(s).1..]) == RETAIN
  {
    var a, mid, b := s[..RETAIN], s[RETAIN..|s| - RETAIN], s[|s| - RETAIN..];
    AsciiBytes(a); AsciiBytes(mid); AsciiBytes(b);
    assert s == a + mid + b;
    ExactCut(a, mid, b);
  }

  lemma AsciiTooShort(s: string)
    requires IsAscii(s) && |s| <= 6_000
    ensures !Shrinks(s)
  {
    AsciiBytes(s);
    var h, t := HeadBytes(s), TailBytes(s);
    AsciiBytes(s[..h]);
    AsciiBytes(s[..t]);
    HeadIsLongest(s, h, h);
    TailIsShortest(s, t, t);
    assert Cut(s).0 == Cut(s).1;
    assert s[Cut(s).0..Cut(s).1] == [];
    MarkerSize(0);
  }

  lemma DigitsOf(n: nat)
    ensures n < 10 ==> |Decimal(n)| == 1
    ensures 10 <= n < 100 ==> |Decimal(n)| == 2
    ensures 100 <= n ==> 3 <= |Decimal(n)|
    ensures n >= 24 ==> n > 21 + |Decimal(n)|
  {
    if n >= 100 {
      assert |Decimal(n)| == |Decimal(n / 10)| + 1 && |Decimal(n / 10)| == |Decimal(n / 100)| + 1;
      FewDigits(n);
    }
  }

  lemma {:induction false} FewDigits(n: nat)
    requires n >= 100
    ensures n >= 25 * |Decimal(n)|
  {
    if n >= 1_000 {
      FewDigits(n / 10);
    } else {
      assert |Decimal(n)| == |Decimal(n / 10)| + 1 && |Decimal(n / 10)| == |Decimal(n / 100)| + 1;
    }
  }
}
