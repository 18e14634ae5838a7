/** What the grapheme boundaries have to do with the break function: the questions it is asked between
    two boundaries, in their order, and that the answers fix the boundaries. */
module Segmentation {
  import opened Utf8View
  import opened Utf8Text

  // ---- The questions, from one boundary on ----

  /** The n-th codepoint from the byte position b. */
  function CodepointAt(s: string, b: nat, n: nat): nat
    requires b <= |s|
  {
    Decode(s, Advance(s, b, n)).codepoint
  }

  /** The state after the first n questions from b: the break function is asked about each codepoint
      and the one before it, and hands its state on, starting from 0. */
  function StateAfter(brk: BreakFn, s: string, b: nat, n: nat): int
    requires b <= |s|
  {
    if n == 0 then 0
    else brk(CodepointAt(s, b, n - 1), CodepointAt(s, b, n), StateAfter(brk, s, b, n - 1)).1
  }

  /** The answer before the n-th codepoint from b. */
  predicate BreaksBefore(brk: BreakFn, s: string, b: nat, n: nat)
    requires b <= |s| && n >= 1
  {
    brk(CodepointAt(s, b, n - 1), CodepointAt(s, b, n), StateAfter(brk, s, b, n - 1)).0
  }

  ghost predicate NoneBetween(bs: set<nat>, b: nat, p: nat) {
    forall x :: x in bs ==> !(b < x < p)
  }

  /** Both ends belong; every member is a codepoint start; and after a member, with none in between,
      a codepoint start belongs exactly when the break function answers so. */
  ghost predicate IsSegmentation(brk: BreakFn, s: string, bs: set<nat>) {
    && 0 in bs && |s| in bs
    && (forall x :: x in bs ==> x <= |s| && IsCodepointStart(s, x))
    && forall b: nat, n: nat :: b in bs && b <= |s| && n >= 1 && Advance(s, b, n) < |s|
                                && NoneBetween(bs, b, Advance(s, b, n)) ==>
         (Advance(s, b, n) in bs <==> BreaksBefore(brk, s, b, n))
  }

  // ---- The scan asks these questions ----

  lemma AdvanceIsStrict(s: string, b: nat, m: nat, n: nat)
    requires b <= |s| && m < n && Advance(s, b, n) < |s|
    ensures Advance(s, b, m) < Advance(s, b, n)
  {
    hide Advance;
    AdvanceTwice(s, b, m, n - m);
  }

  /** One more codepoint without a break. */
  lemma ScanGoesOn(brk: BreakFn, s: string, p: nat, previous: nat, state: int, x: nat)
    requires p < |s| && p + Decode(s, p).size <= x && p !in Breaks(brk, s, p, Seen(previous, state))
    ensures var cp := Decode(s, p).codepoint;
            x in Breaks(brk, s, p, Seen(previous, state)) <==>
            x in Breaks(brk, s, p + Decode(s, p).size, Seen(cp, brk(previous, cp, state).1))
  {
    hide Decode;
  }

  lemma ScanBegins(brk: BreakFn, s: string, b: nat, x: nat)
    requires b < |s| && b < x
    ensures x in Breaks(brk, s, b, Fresh) <==>
            x in Breaks(brk, s, b + Decode(s, b).size, Seen(Decode(s, b).codepoint, 0))
  {
    hide Decode;
  }

  /** The n-th step of the walk. */
  lemma WalkStep(s: string, b: nat, n: nat)
    requires b <= |s| && n >= 1 && Advance(s, b, n - 1) < |s|
    ensures var p := Advance(s, b, n - 1);
            && Advance(s, b, n) == p + Decode(s, p).size && p < Advance(s, b, n)
            && CodepointAt(s, b, n - 1) == Decode(s, p).codepoint
  {
    hide Decode, Advance;
    var p := Advance(s, b, n - 1);
    AdvanceTwice(s, b, n - 1, 1);
    AdvanceByCases(s, p, 1);
    AdvanceByCases(s, p + Decode(s, p).size, 0);
  }

  /** After n codepoints from b without a break, the scan remembers the n-th codepoint and the state. */
  lemma {:induction false} ScanRemembers(brk: BreakFn, s: string, b: nat, n: nat, x: nat)
    requires b <= |s| && n >= 1 && b < |s| && Advance(s, b, n - 1) < |s| && Advance(s, b, n) <= x
    requires forall m :: 1 <= m < n ==> Advance(s, b, m) !in Breaks(brk, s, b, Fresh)
    ensures x in Breaks(brk, s, b, Fresh) <==>
            x in Breaks(brk, s, Advance(s, b, n), Seen(CodepointAt(s, b, n - 1), StateAfter(brk, s, b, n - 1)))
  {
    hide Decode, Advance, Breaks, CodepointAt;
    AdvanceByCases(s, b, 0);
    WalkStep(s, b, n);
    var p := Advance(s, b, n - 1);
    if n == 1 {
      ScanBegins(brk, s, b, x);
    } else {
      AdvanceIsStrict(s, b, n - 2, n - 1);
      ScanRemembers(brk, s, b, n - 1, x);
      ScanRemembers(brk, s, b, n - 1, p);
      ScanGoesOn(brk, s, p, CodepointAt(s, b, n - 2), StateAfter(brk, s, b, n - 2), x);
    }
  }

  lemma BoundariesFrom(brk: BreakFn, s: string, b: nat, x: nat)
    requires b in Boundaries(brk, s) && b < x < |s|
    ensures x in Boundaries(brk, s) <==> x in Breaks(brk, s, b, Fresh)
  {
    if b > 0 {
      BreaksRestart(brk, s, 0, Fresh, b, x);
    }
  }

  /** The question at a codepoint start behind a boundary decides whether it is one. */
  lemma AnswerDecides(brk: BreakFn, s: string, b: nat, n: nat)
    requires b in Boundaries(brk, s) && b <= |s| && n >= 1 && Advance(s, b, n) < |s|
    requires NoneBetween(Boundaries(brk, s), b, Advance(s, b, n))
    ensures Advance(s, b, n) in Boundaries(brk, s) <==> BreaksBefore(brk, s, b, n)
  {
    hide Decode, Advance, Boundaries;
    AdvanceByCases(s, b, 0);
    AdvanceIsStrict(s, b, 0, n);
    AdvanceIsStrict(s, b, n - 1, n);
    forall m | 1 <= m < n
      ensures Advance(s, b, m) !in Breaks(brk, s, b, Fresh)
    {
      AdvanceIsStrict(s, b, 0, m) by {
        AdvanceIsStrict(s, b, m, n);
      }
      AdvanceIsStrict(s, b, m, n);
      BoundariesFrom(brk, s, b, Advance(s, b, m));
    }
    var p := Advance(s, b, n);
    ScanRemembers(brk, s, b, n, p);
    BoundariesFrom(brk, s, b, p);
    FirstOfScan(brk, s, p, CodepointAt(s, b, n - 1), StateAfter(brk, s, b, n - 1));
    AdvanceByCases(s, p, 0);
  }

  lemma FirstOfScan(brk: BreakFn, s: string, p: nat, previous: nat, state: int)
    requires p < |s|
    ensures p in Breaks(brk, s, p, Seen(previous, state)) <==> brk(previous, Decode(s, p).codepoint, state).0
  {
    hide Decode;
  }

  lemma BoundariesAreSegmentation(brk: BreakFn, s: string)
    ensures IsSegmentation(brk, s, Boundaries(brk, s))
  {
    hide Advance, Decode;
    var bs := Boundaries(brk, s);
    forall x | x in bs
      ensures x <= |s| && IsCodepointStart(s, x)
    {
      BoundaryIsStart(brk, s, x);
    }
    forall b: nat, n: nat | b in bs && b <= |s| && n >= 1 && Advance(s, b, n) < |s|
                            && NoneBetween(bs, b, Advance(s, b, n))
      ensures Advance(s, b, n) in bs <==> BreaksBefore(brk, s, b, n)
    {
      AnswerDecides(brk, s, b, n);
    }
  }

  lemma BoundaryIsStart(brk: BreakFn, s: string, x: nat)
    requires x in Boundaries(brk, s)
    ensures x <= |s| && IsCodepointStart(s, x)
  {
    if x == 0 {
      assert Advance(s, 0, 0) == 0;
    } else if x == |s| {
      WalkEnds(s, 0, |s|);
    } else {
      BreaksAreCodepointStarts(brk, s, 0, Fresh, x);
    }
  }

  lemma WalkEnds(s: string, p: nat, n: nat)
    requires p + n >= |s| >= p
    ensures Advance(s, p, n) == |s|
  {
    hide Advance;
  }

  // ---- The answers fix the boundaries ----

  lemma StartsFollow(s: string, b: nat, x: nat) returns (n: nat)
    requires IsCodepointStart(s, b) && IsCodepointStart(s, x) && b < x <= |s|
    ensures b <= |s| && n >= 1 && Advance(s, b, n) == x
  {
    var m: nat :| Advance(s, 0, m) == b;
    var k: nat :| Advance(s, 0, k) == x;
    hide Advance;
    if k <= m {
      AdvanceTwice(s, 0, k, m - k);
    }
    n := k - m;
    AdvanceTwice(s, 0, m, n);
  }

  lemma {:induction false} SegmentationsAgree(brk: BreakFn, s: string, bs: set<nat>, cs: set<nat>, x: nat)
    requires IsSegmentation(brk, s, bs) && IsSegmentation(brk, s, cs) && x in bs
    ensures x in cs
    decreases x, 0
  {
    if 0 < x < |s| {
      var b := Floor(bs, x - 1);
      assert NoneBetween(bs, b, x);
      SegmentationsAgree(brk, s, bs, cs, b);
      var n := StartsFollow(s, b, x);
      forall y | y in cs && b < y < x
        ensures false
      {
        SegmentationsAgree(brk, s, cs, bs, y);
      }
      assert NoneBetween(cs, b, x);
      assert BreaksBefore(brk, s, b, n);
    }
  }

  /** The boundaries of the scans are the only segmentation by the break function. */
  lemma SegmentationIsExact(brk: BreakFn, s: string, bs: set<nat>)
    ensures IsSegmentation(brk, s, bs) <==> bs == Boundaries(brk, s)
  {
    BoundariesAreSegmentation(brk, s);
    hide IsSegmentation, Boundaries;
    if IsSegmentation(brk, s, bs) {
      forall x: nat
        ensures x in bs <==> x in Boundaries(brk, s)
      {
        if x in bs {
          SegmentationsAgree(brk, s, bs, Boundaries(brk, s), x);
        }
        if x in Boundaries(brk, s) {
          SegmentationsAgree(brk, s, Boundaries(brk, s), bs, x);
        }
      }
    }
  }

  // ---- Two break functions at work ----

  lemma ScanStep(brk: BreakFn, s: string, p: nat, cp: nat, size: nat, previous: nat, state: int)
    requires p < |s| && Decode(s, p) == Decoded(cp, size)
    ensures var (isBreak, next) := brk(previous, cp, state);
            Breaks(brk, s, p, Seen(previous, state)) ==
            (if isBreak then {p} else {}) + Breaks(brk, s, p + size, Seen(cp, if isBreak then 0 else next))
  {
    hide Decode;
  }

  lemma ScanStart(brk: BreakFn, s: string, cp: nat, size: nat)
    requires s != "" && Decode(s, 0) == Decoded(cp, size)
    ensures Breaks(brk, s, 0, Fresh) == Breaks(brk, s, size, Seen(cp, 0))
  {
    hide Decode;
  }

  lemma ScanEnd(brk: BreakFn, s: string, k: Scan)
    ensures Breaks(brk, s, |s|, k) == {}
  {
  }

  /** Breaks before every second of ascending codepoints. */
  const PAIRS: BreakFn := (previous, current, state) => (previous < current && state == 1, state + 1)

  /** The arguments are the earlier and the later codepoint, the state is handed on, and a break
      resets it. */
  lemma PairsOfAscendingText()
    ensures Boundaries(PAIRS, "abcdef") == {0, 2, 4, 6}
  {
    hide Breaks, Decode;
    var s := "abcdef";
    forall p | 0 <= p < 6 {
      DecodeOne(s, p);
    }
    ScanStart(PAIRS, s, 97, 1);
    ScanStep(PAIRS, s, 1, 98, 1, 97, 0);
    ScanStep(PAIRS, s, 2, 99, 1, 98, 1);
    ScanStep(PAIRS, s, 3, 100, 1, 99, 0);
    ScanStep(PAIRS, s, 4, 101, 1, 100, 1);
    ScanStep(PAIRS, s, 5, 102, 1, 101, 0);
    ScanEnd(PAIRS, s, Seen(102, 1));
  }

  /** Keeps the combining acute accent, U+0301, with what precedes it. */
  const ACCENTS: BreakFn := (_, current, state) => (current != 0x301, state)

  /** "e" with its accent is one grapheme of three bytes. */
  lemma AccentStaysWithItsLetter()
    ensures Boundaries(ACCENTS, ['e', 0xCC as char, 0x81 as char, 'x']) == {0, 3, 4}
  {
    hide Breaks, Decode;
    var s := ['e', 0xCC as char, 0x81 as char, 'x'];
    DecodeOne(s, 0);
    DecodeTwo(s, 1, 12, 1);
    DecodeOne(s, 3);
    ScanStart(ACCENTS, s, 101, 1);
    ScanStep(ACCENTS, s, 1, 0x301, 2, 101, 0);
    ScanStep(ACCENTS, s, 3, 120, 1, 0x301, 0);
    ScanEnd(ACCENTS, s, Seen(120, 0));
  }
}
