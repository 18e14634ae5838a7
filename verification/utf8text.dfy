/** Grapheme boundaries of a byte string: the two stateful scans, the cuts built from
    them, and the restart theorem that makes cutting and resuming safe.

    The break table of the Unicode library is an arbitrary function `brk` from
    (previous, current, state) to (break here?, next state). */
module Utf8Text {
  import opened Utf8View

  type BreakFn = (nat, nat, int) -> (bool, int)

  /** The break test with its state reset at every break. */
  function IsGraphemeBreak(brk: BreakFn, previous: nat, current: nat, state: int): (bool, int) {
    var (isBreak, next) := brk(previous, current, state);
    if isBreak then (true, 0) else (false, next)
  }

  /** What a scan remembers of the codepoints before its position. */
  datatype Scan = Fresh | Seen(previous: nat, state: int)

  /** One step of a scan over the codepoint `current`: is its start a break, and the new memory. */
  function StepScan(brk: BreakFn, k: Scan, current: nat): (bool, Scan) {
    match k
    case Fresh => (false, Seen(current, 0))
    case Seen(previous, state) =>
      var (isBreak, next) := IsGraphemeBreak(brk, previous, current, state);
      (isBreak, Seen(current, next))
  }

  /** The positions at which one left-to-right pass from `p` reports a break. */
  function Breaks(brk: BreakFn, s: string, p: nat, k: Scan): (bs: set<nat>)
    requires p <= |s|
    ensures forall x :: x in bs ==> p <= x < |s|
    ensures k.Fresh? ==> p !in bs
    decreases |s| - p
  {
    if p == |s| then {}
    else
      var d := Decode(s, p);
      var (isBreak, next) := StepScan(brk, k, d.codepoint);
      (if isBreak then {p} else {}) + Breaks(brk, s, p + d.size, next)
  }

  /** All grapheme boundaries: both ends and every break of the single pass. */
  function Boundaries(brk: BreakFn, s: string): set<nat> {
    {0, |s|} + Breaks(brk, s, 0, Fresh)
  }

  // ---- Segmentation restarts at every boundary ----

  lemma {:induction false} BreaksOfShift(brk: BreakFn, s: string, b: nat, p: nat, k: Scan, x: nat)
    requires b + p <= |s|
    ensures x in Breaks(brk, s[b..], p, k) <==> b + x in Breaks(brk, s, b + p, k)
    decreases |s| - p
  {
    hide Decode, StepScan;
    if b + p < |s| {
      DecodeSuffix(s, b, p);
      var d := Decode(s, b + p);
      BreaksOfShift(brk, s, b, p + d.size, StepScan(brk, k, d.codepoint).1, x);
    }
  }

  /** At a break the memory of the pass is that of a fresh pass that starts there. */
  lemma {:induction false} BreaksRestart(brk: BreakFn, s: string, p: nat, k: Scan, b: nat, x: nat)
    requires p <= |s| && b in Breaks(brk, s, p, k) && b <= x
    ensures x in Breaks(brk, s, p, k) <==> x == b || x in Breaks(brk, s, b, Fresh)
    decreases |s| - p
  {
    hide Decode;
    if p < b {
      var d := Decode(s, p);
      BreaksRestart(brk, s, p + d.size, StepScan(brk, k, d.codepoint).1, b, x);
    }
  }

  lemma {:induction false} BreaksOfPrefix(brk: BreakFn, s: string, b: nat, p: nat, k: Scan, x: nat)
    requires p <= b <= |s| && (b == |s| || b in Breaks(brk, s, p, k))
    ensures x in Breaks(brk, s[..b], p, k) <==> x in Breaks(brk, s, p, k) && x < b
    decreases |s| - p
  {
    hide Decode, StepScan;
    if b == |s| {
      assert s[..b] == s;
    } else if p < b {
      var d := Decode(s, p);
      DecodePrefix(s, b, p);
      BreaksOfPrefix(brk, s, b, p + d.size, StepScan(brk, k, d.codepoint).1, x);
    }
  }

  /** The boundaries of the text after a boundary b are the text's boundaries from b on, shifted. */
  lemma SuffixBoundaries(brk: BreakFn, s: string, b: nat)
    requires b in Boundaries(brk, s)
    ensures b <= |s|
    ensures forall x: nat :: x in Boundaries(brk, s[b..]) <==> b + x in Boundaries(brk, s)
  {
    forall x: nat
      ensures x in Boundaries(brk, s[b..]) <==> b + x in Boundaries(brk, s)
    {
      BreaksOfShift(brk, s, b, 0, Fresh, x);
      if 0 < b < |s| {
        BreaksRestart(brk, s, 0, Fresh, b, b + x);
      }
    }
  }

  /** The boundaries of the text before a boundary b are the text's boundaries up to b. */
  lemma PrefixBoundaries(brk: BreakFn, s: string, b: nat)
    requires b in Boundaries(brk, s)
    ensures b <= |s|
    ensures forall x: nat :: x in Boundaries(brk, s[..b]) <==> x in Boundaries(brk, s) && x <= b
  {
    forall x: nat
      ensures x in Boundaries(brk, s[..b]) <==> x in Boundaries(brk, s) && x <= b
    {
      if b > 0 {
        BreaksOfPrefix(brk, s, b, 0, Fresh, x);
      }
    }
  }

  /** Every grapheme boundary is a codepoint start, so a cut there never splits a UTF8-char. */
  lemma {:induction false} BreaksAreCodepointStarts(brk: BreakFn, s: string, p: nat, k: Scan, b: nat)
    requires p <= |s| && b in Breaks(brk, s, p, k)
    ensures exists n: nat :: Advance(s, p, n) == b
    decreases |s| - p
  {
    hide Decode, StepScan;
    if b == p {
      assert Advance(s, p, 0) == b;
    } else {
      var d := Decode(s, p);
      BreaksAreCodepointStarts(brk, s, p + d.size, StepScan(brk, k, d.codepoint).1, b);
      var n: nat :| Advance(s, p + d.size, n) == b;
      assert Advance(s, p, n + 1) == b;
    }
  }

  lemma BoundaryCutKeepsWellFormed(brk: BreakFn, s: string, b: nat)
    requires b in Boundaries(brk, s)
    ensures b <= |s| && (WellFormed(s) <==> WellFormed(s[..b]) && WellFormed(s[b..]))
  {
    if 0 < b < |s| {
      BreaksAreCodepointStarts(brk, s, 0, Fresh, b);
    } else {
      assert Advance(s, 0, b) == b;
    }
    CutKeepsWellFormed(s, b);
  }

  // ---- Greatest boundary at or below, least boundary at or above ----

  /** The greatest member of `bs` not above n (0 always belongs). */
  function Floor(bs: set<nat>, n: nat): (f: nat)
    requires 0 in bs
    ensures f in bs && f <= n
    ensures forall x :: x in bs && x <= n ==> x <= f
  {
    if n in bs then n else Floor(bs, n - 1)
  }

  /** The least member of `bs` not below n, or `size` when there is none before it. */
  function Ceiling(bs: set<nat>, n: nat, size: nat): (c: nat)
    requires size in bs
    ensures c in bs && c <= size && (if n <= size then n <= c else c == size)
    ensures forall x :: x in bs && n <= x ==> c <= x
    decreases size - n
  {
    if n >= size then size else if n in bs then n else Ceiling(bs, n + 1, size)
  }

  function LastBoundaryWithin(brk: BreakFn, s: string, maxBytes: nat): nat {
    Floor(Boundaries(brk, s), if maxBytes <= |s| then maxBytes else |s|)
  }

  function NextBoundary(brk: BreakFn, s: string, offset: nat): nat {
    Ceiling(Boundaries(brk, s), offset, |s|)
  }

  // ---- The two scans ----

  /** The scan of `next_grapheme_boundary`; `k` packs its three loop variables. */
  method NextGraphemeBoundary(brk: BreakFn, s: string, offset: nat) returns (r: nat)
    ensures r == NextBoundary(brk, s, offset)
  {
    if offset == 0 {
      return 0;
    }
    if offset >= |s| {
      return |s|;
    }
    var p := 0;
    var k := Fresh;
    ghost var all := Breaks(brk, s, 0, Fresh);
    while p < |s|
      invariant p <= |s| && Breaks(brk, s, p, k) <= all
      invariant forall x :: x in all && x !in Breaks(brk, s, p, k) ==> x < offset
    {
      var d := Decode(s, p);
      var (isBreak, next) := StepScan(brk, k, d.codepoint);
      if isBreak && offset <= p {
        return p;
      }
      k := next;
      p := p + d.size;
    }
    return |s|;
  }

  method LastBoundaryWithinBudget(brk: BreakFn, s: string, maxBytes: nat) returns (r: nat)
    ensures r == LastBoundaryWithin(brk, s, maxBytes)
  {
    if maxBytes >= |s| {
      return |s|;
    }
    var p, last := 0, 0;
    var k := Fresh;
    ghost var all := Boundaries(brk, s);
    while p < |s|
      invariant p <= |s| && Breaks(brk, s, p, k) <= all
      invariant last in all && last <= maxBytes && last <= p
      invariant forall x :: x in all && last < x < |s| ==> x in Breaks(brk, s, p, k)
    {
      var d := Decode(s, p);
      var (isBreak, next) := StepScan(brk, k, d.codepoint);
      if isBreak {
        if p > maxBytes {
          return last;
        }
        last := p;
      }
      k := next;
      p := p + d.size;
    }
    return last;
  }

  // ---- The cuts ----

  function AlignOffset(brk: BreakFn, s: string, offset: nat): nat {
    NextBoundary(brk, s, offset)
  }

  function PrefixByBytes(brk: BreakFn, s: string, maxBytes: nat): string {
    s[..LastBoundaryWithin(brk, s, maxBytes)]
  }

  function SliceByBytes(brk: BreakFn, s: string, offset: nat, maxBytes: nat): string {
    if maxBytes == 0 || offset >= |s| then ""
    else
      var start := AlignOffset(brk, s, offset);
      if start >= |s| then "" else PrefixByBytes(brk, s[start..], maxBytes)
  }

  /** Re-segmenting the suffix gives the cut the whole text has there. */
  lemma SuffixCut(brk: BreakFn, s: string, start: nat, maxBytes: nat)
    requires start in Boundaries(brk, s)
    ensures start <= |s|
    ensures start + LastBoundaryWithin(brk, s[start..], maxBytes) == LastBoundaryWithin(brk, s, start + maxBytes)
  {
    hide Breaks, Floor;
    SuffixBoundaries(brk, s, start);
    var here := LastBoundaryWithin(brk, s[start..], maxBytes);
    var there := LastBoundaryWithin(brk, s, start + maxBytes);
    assert start + here in Boundaries(brk, s);
    assert start + (there - start) == there;
    assert there - start in Boundaries(brk, s[start..]);
  }

  /** A slice lies between boundaries of the whole text: from the aligned offset to the
      greatest boundary within the budget. */
  lemma SliceIsGlobalCut(brk: BreakFn, s: string, offset: nat, maxBytes: nat)
    ensures var start := AlignOffset(brk, s, offset);
            SliceByBytes(brk, s, offset, maxBytes) == s[start..LastBoundaryWithin(brk, s, start + maxBytes)]
  {
    hide Breaks, Floor, Ceiling;
    var start := AlignOffset(brk, s, offset);
    SuffixCut(brk, s, start, maxBytes);
    var cut := LastBoundaryWithin(brk, s, start + maxBytes);
    assert s[start..][..cut - start] == s[start..cut];
  }

  /** Cutting to n and then to m is cutting to the smaller of the two. */
  lemma PrefixOfPrefix(brk: BreakFn, s: string, n: nat, m: nat)
    ensures PrefixByBytes(brk, PrefixByBytes(brk, s, n), m)
         == PrefixByBytes(brk, s, if m <= n then m else n)
  {
    hide Breaks, Floor;
    var b := LastBoundaryWithin(brk, s, n);
    var t := s[..b];
    PrefixBoundaries(brk, s, b);
    var c := LastBoundaryWithin(brk, t, m);
    var e := LastBoundaryWithin(brk, s, if m <= n then m else n);
    assert c in Boundaries(brk, s) && e in Boundaries(brk, t);
    assert c == e;
    assert t[..c] == s[..c];
  }

  /** Both roundings are monotone and fixed exactly at the boundaries.  An offset beyond the text is
      clamped to its size. */
  lemma RoundingLaws(brk: BreakFn, s: string, n: nat, m: nat)
    requires n <= m
    ensures LastBoundaryWithin(brk, s, n) <= LastBoundaryWithin(brk, s, m)
    ensures NextBoundary(brk, s, n) <= NextBoundary(brk, s, m)
    ensures LastBoundaryWithin(brk, s, n) <= n
    ensures if n <= |s| then n <= NextBoundary(brk, s, n)
            else LastBoundaryWithin(brk, s, n) == NextBoundary(brk, s, n) == |s|
    ensures n in Boundaries(brk, s) <==> LastBoundaryWithin(brk, s, n) == n
    ensures n in Boundaries(brk, s) <==> NextBoundary(brk, s, n) == n
    ensures LastBoundaryWithin(brk, s, LastBoundaryWithin(brk, s, n)) == LastBoundaryWithin(brk, s, n)
    ensures NextBoundary(brk, s, NextBoundary(brk, s, n)) == NextBoundary(brk, s, n)
  {
    hide Breaks, Floor, Ceiling;
  }
}
