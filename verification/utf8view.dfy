/** The hand-written UTF-8 decoder and the codepoint walks built on it.

    Text is a `string` whose characters each carry one byte.  The bit masks of the
    decoder are written as the divisions and remainders they compute. */
module Utf8View {

  const REPLACEMENT_CHAR: nat := 0xFFFD
  const UNICODE_MAX: nat := 0x10FFFF

  /** `size` is the number of bytes to advance: 0 only at the end of the text. */
  datatype Decoded = Decoded(codepoint: nat, size: nat)

  function ByteAt(s: string, p: nat): nat
    requires p < |s|
  {
    s[p] as int
  }

  predicate IsCont(s: string, p: nat) {
    p < |s| && ByteAt(s, p) / 64 == 2
  }

  function Decode(s: string, p: nat): (d: Decoded)
    ensures p < |s| ==> 1 <= d.size <= 4 && p + d.size <= |s|
  {
    if p >= |s| then Decoded(0, 0)
    else
      var c := ByteAt(s, p);
      if c < 0x80 then Decoded(c, 1)
      else if c / 32 == 6 then
        if !IsCont(s, p + 1) then Decoded(REPLACEMENT_CHAR, 1)
        else
          var cp := (c % 32) * 64 + ByteAt(s, p + 1) % 64;
          if cp < 0x80 then Decoded(REPLACEMENT_CHAR, 1) else Decoded(cp, 2)
      else if c / 16 == 14 then
        if !IsCont(s, p + 1) || !IsCont(s, p + 2) then Decoded(REPLACEMENT_CHAR, 1)
        else
          var cp := (c % 16) * 4096 + (ByteAt(s, p + 1) % 64) * 64 + ByteAt(s, p + 2) % 64;
          if cp < 0x800 then Decoded(REPLACEMENT_CHAR, 1)
          else if 0xD800 <= cp <= 0xDFFF then Decoded(REPLACEMENT_CHAR, 1)
          else Decoded(cp, 3)
      else if c / 8 == 30 then
        if !IsCont(s, p + 1) || !IsCont(s, p + 2) || !IsCont(s, p + 3) then Decoded(REPLACEMENT_CHAR, 1)
        else
          var cp := (c % 8) * 262144 + (ByteAt(s, p + 1) % 64) * 4096
                    + (ByteAt(s, p + 2) % 64) * 64 + ByteAt(s, p + 3) % 64;
          if cp < 0x10000 then Decoded(REPLACEMENT_CHAR, 1)
          else if cp > UNICODE_MAX then Decoded(REPLACEMENT_CHAR, 1)
          else Decoded(cp, 4)
      else Decoded(REPLACEMENT_CHAR, 1)
  }

  /** What the decoder answers for a byte it cannot decode.  U+FFFD itself takes three bytes. */
  predicate IsError(d: Decoded) {
    d == Decoded(REPLACEMENT_CHAR, 1)
  }

  // ---- The reference: sections 3 and 4 of RFC 3629 ----

  predicate IsScalar(cp: nat) {
    cp <= UNICODE_MAX && !(0xD800 <= cp <= 0xDFFF)
  }

  predicate IsTail(c: char) {
    0x80 <= c as int <= 0xBF
  }

  /** The production UTF8-char of section 4. */
  predicate WellFormedChar(u: string) {
    match |u|
    case 1 => u[0] as int <= 0x7F
    case 2 => 0xC2 <= u[0] as int <= 0xDF && IsTail(u[1])
    case 3 =>
      var a, b := u[0] as int, u[1] as int;
      && IsTail(u[2])
      && (|| (a == 0xE0 && 0xA0 <= b <= 0xBF)
          || (0xE1 <= a <= 0xEC && 0x80 <= b <= 0xBF)
          || (a == 0xED && 0x80 <= b <= 0x9F)
          || (0xEE <= a <= 0xEF && 0x80 <= b <= 0xBF))
    case 4 =>
      var a, b := u[0] as int, u[1] as int;
      && IsTail(u[2]) && IsTail(u[3])
      && (|| (a == 0xF0 && 0x90 <= b <= 0xBF)
          || (0xF1 <= a <= 0xF3 && 0x80 <= b <= 0xBF)
          || (a == 0xF4 && 0x80 <= b <= 0x8F))
    case _ => false
  }

  /** The octet table of section 3. */
  function Encode(cp: nat): (u: string)
    requires IsScalar(cp)
    ensures WellFormedChar(u)
  {
    SixBitGroups(cp);
    if cp < 0x80 then [cp as char]
    else if cp < 0x800 then [(0xC0 + cp / 64) as char, (0x80 + cp % 64) as char]
    else if cp < 0x10000 then
      [(0xE0 + cp / 4096) as char, (0x80 + cp / 64 % 64) as char, (0x80 + cp % 64) as char]
    else
      [(0xF0 + cp / 262144) as char, (0x80 + cp / 4096 % 64) as char,
       (0x80 + cp / 64 % 64) as char, (0x80 + cp % 64) as char]
  }

  /** The decoder accepts a prefix exactly when it is a UTF8-char. */
  lemma DecodeAcceptsExactly(s: string, p: nat, n: nat)
    requires p + n <= |s| && 1 <= n
    ensures (Decode(s, p).size == n && !IsError(Decode(s, p))) <==> WellFormedChar(s[p..p + n])
  {
  }

  lemma NothingToDecode(s: string, p: nat)
    ensures Decode(s, p).size == 0 <==> p >= |s|
    ensures p >= |s| ==> Decode(s, p) == Decoded(0, 0)
  {
  }

  /** Where no UTF8-char starts, the decoder answers U+FFFD and takes one byte. */
  lemma ErrorsAreReplaced(s: string, p: nat)
    requires p < |s|
    ensures Decode(s, p) == Decoded(0xFFFD, 1) <==> forall q :: p < q <= |s| ==> !WellFormedChar(s[p..q])
  {
    hide WellFormedChar;
    forall q | p < q <= |s|
      ensures WellFormedChar(s[p..q]) <==> Decode(s, p).size == q - p && !IsError(Decode(s, p))
    {
      DecodeAcceptsExactly(s, p, q - p);
      assert p + (q - p) == q;
    }
    var end := p + Decode(s, p).size;
    assert p < end <= |s|;
    hide Decode;
    assert WellFormedChar(s[p..end]) <==> !IsError(Decode(s, p));
  }

  lemma DecodeOne(s: string, p: nat)
    requires p < |s| && s[p] as int < 0x80
    ensures Decode(s, p) == Decoded(s[p] as int, 1)
  {
  }

  /** A lead byte and its tails, split into the bits they carry. */
  lemma DecodeTwo(s: string, p: nat, x: nat, y: nat)
    requires p + 2 <= |s| && 2 <= x < 32 && y < 64
    requires s[p] as int == 0xC0 + x && s[p + 1] as int == 0x80 + y
    ensures Decode(s, p) == Decoded(x * 64 + y, 2)
  {
  }

  lemma DecodeThree(s: string, p: nat, x: nat, y: nat, z: nat)
    requires p + 3 <= |s| && x < 16 && y < 64 && z < 64
    requires s[p] as int == 0xE0 + x && s[p + 1] as int == 0x80 + y && s[p + 2] as int == 0x80 + z
    requires 0x800 <= x * 4096 + y * 64 + z && IsScalar(x * 4096 + y * 64 + z)
    ensures Decode(s, p) == Decoded(x * 4096 + y * 64 + z, 3)
  {
  }

  lemma DecodeFour(s: string, p: nat, w: nat, x: nat, y: nat, z: nat)
    requires p + 4 <= |s| && w < 8 && x < 64 && y < 64 && z < 64
    requires s[p] as int == 0xF0 + w && s[p + 1] as int == 0x80 + x
    requires s[p + 2] as int == 0x80 + y && s[p + 3] as int == 0x80 + z
    requires 0x10000 <= w * 262144 + x * 4096 + y * 64 + z <= UNICODE_MAX
    ensures Decode(s, p) == Decoded(w * 262144 + x * 4096 + y * 64 + z, 4)
  {
  }

  lemma SixBitGroups(cp: nat)
    ensures cp == cp / 64 * 64 + cp % 64
    ensures cp == cp / 4096 * 4096 + cp / 64 % 64 * 64 + cp % 64
    ensures cp == cp / 262144 * 262144 + cp / 4096 % 64 * 4096 + cp / 64 % 64 * 64 + cp % 64
  {
    assert cp / 4096 == cp / 64 / 64;
    assert cp / 262144 == cp / 4096 / 64;
  }

  /** Decoding inverts encoding on every scalar value. */
  lemma DecodeInvertsEncode(cp: nat, rest: string)
    requires IsScalar(cp)
    ensures Decode(Encode(cp) + rest, 0) == Decoded(cp, |Encode(cp)|)
  {
    hide Decode, WellFormedChar;
    var s := Encode(cp) + rest;
    SixBitGroups(cp);
    if cp < 0x80 {
      DecodeOne(s, 0);
    } else if cp < 0x800 {
      DecodeTwo(s, 0, cp / 64, cp % 64);
    } else if cp < 0x10000 {
      DecodeThree(s, 0, cp / 4096, cp / 64 % 64, cp % 64);
    } else {
      DecodeFour(s, 0, cp / 262144, cp / 4096 % 64, cp / 64 % 64, cp % 64);
    }
  }

  lemma LastSixBits(q: nat, r: nat)
    requires r < 64
    ensures (q * 64 + r) / 64 == q && (q * 64 + r) % 64 == r
  {
  }

  /** The bytes of the octet table carry the groups of the value they are built from. */
  lemma EncodeOne(cp: nat)
    requires cp < 0x80
    ensures Encode(cp) == [cp as char]
  {
  }

  lemma EncodeTwo(x: nat, y: nat)
    requires 2 <= x < 32 && y < 64
    ensures Encode(x * 64 + y) == [(0xC0 + x) as char, (0x80 + y) as char]
  {
    LastSixBits(x, y);
  }

  lemma EncodeThree(x: nat, y: nat, z: nat)
    requires x < 16 && y < 64 && z < 64
    requires 0x800 <= x * 4096 + y * 64 + z && IsScalar(x * 4096 + y * 64 + z)
    ensures Encode(x * 4096 + y * 64 + z) == [(0xE0 + x) as char, (0x80 + y) as char, (0x80 + z) as char]
  {
    var cp := x * 4096 + y * 64 + z;
    LastSixBits(x * 64 + y, z);
    LastSixBits(x, y);
    assert cp == (x * 64 + y) * 64 + z;
    assert cp / 64 == x * 64 + y && cp / 4096 == cp / 64 / 64;
  }

  lemma EncodeFour(w: nat, x: nat, y: nat, z: nat)
    requires w < 8 && x < 64 && y < 64 && z < 64
    requires 0x10000 <= w * 262144 + x * 4096 + y * 64 + z <= UNICODE_MAX
    ensures Encode(w * 262144 + x * 4096 + y * 64 + z) ==
            [(0xF0 + w) as char, (0x80 + x) as char, (0x80 + y) as char, (0x80 + z) as char]
  {
    var cp := w * 262144 + x * 4096 + y * 64 + z;
    LastSixBits(w * 4096 + x * 64 + y, z);
    LastSixBits(w * 64 + x, y);
    LastSixBits(w, x);
    assert cp == (w * 4096 + x * 64 + y) * 64 + z && w * 4096 + x * 64 + y == (w * 64 + x) * 64 + y;
    assert cp / 64 == (w * 64 + x) * 64 + y && cp / 4096 == cp / 64 / 64 && cp / 262144 == cp / 4096 / 64;
  }

  /** The bits of a lead or tail byte below its mark. */
  lemma BelowMark(c: char)
    ensures c as int / 32 == 6 ==> c == (0xC0 + c as int % 32) as char
    ensures c as int / 16 == 14 ==> c == (0xE0 + c as int % 16) as char
    ensures c as int / 8 == 30 ==> c == (0xF0 + c as int % 8) as char
    ensures c as int / 64 == 2 ==> c == (0x80 + c as int % 64) as char
  {
  }

  lemma DecodedOne(s: string, p: nat) returns (x: nat)
    requires p < |s| && Decode(s, p).size == 1 && !IsError(Decode(s, p))
    ensures x < 0x80 && s[p..p + 1] == [x as char] && Decode(s, p).codepoint == x
  {
    x := ByteAt(s, p);
  }

  lemma DecodedTwo(s: string, p: nat) returns (x: nat, y: nat)
    requires p < |s| && Decode(s, p).size == 2
    ensures 2 <= x < 32 && y < 64 && p + 2 <= |s| && s[p..p + 2] == [(0xC0 + x) as char, (0x80 + y) as char]
    ensures Decode(s, p).codepoint == x * 64 + y
  {
    BelowMark(s[p]);
    BelowMark(s[p + 1]);
    x, y := ByteAt(s, p) % 32, ByteAt(s, p + 1) % 64;
  }

  lemma DecodedThree(s: string, p: nat) returns (x: nat, y: nat, z: nat)
    requires p < |s| && Decode(s, p).size == 3
    ensures x < 16 && y < 64 && z < 64 && p + 3 <= |s|
    ensures s[p..p + 3] == [(0xE0 + x) as char, (0x80 + y) as char, (0x80 + z) as char]
    ensures Decode(s, p).codepoint == x * 4096 + y * 64 + z
    ensures 0x800 <= Decode(s, p).codepoint && IsScalar(Decode(s, p).codepoint)
  {
    BelowMark(s[p]);
    BelowMark(s[p + 1]);
    BelowMark(s[p + 2]);
    x, y, z := ByteAt(s, p) % 16, ByteAt(s, p + 1) % 64, ByteAt(s, p + 2) % 64;
  }

  lemma DecodedFour(s: string, p: nat) returns (w: nat, x: nat, y: nat, z: nat)
    requires p < |s| && Decode(s, p).size == 4
    ensures w < 8 && x < 64 && y < 64 && z < 64 && p + 4 <= |s|
    ensures s[p..p + 4] == [(0xF0 + w) as char, (0x80 + x) as char, (0x80 + y) as char, (0x80 + z) as char]
    ensures Decode(s, p).codepoint == w * 262144 + x * 4096 + y * 64 + z
    ensures 0x10000 <= Decode(s, p).codepoint <= UNICODE_MAX
  {
    BelowMark(s[p]);
    BelowMark(s[p + 1]);
    BelowMark(s[p + 2]);
    BelowMark(s[p + 3]);
    w, x := ByteAt(s, p) % 8, ByteAt(s, p + 1) % 64;
    y, z := ByteAt(s, p + 2) % 64, ByteAt(s, p + 3) % 64;
  }

  /** What was decoded without error is a scalar value, and its encoding is the bytes consumed. */
  lemma EncodeInvertsDecode(s: string, p: nat)
    requires p < |s| && !IsError(Decode(s, p))
    ensures var d := Decode(s, p);
            IsScalar(d.codepoint) && p + d.size <= |s| && Encode(d.codepoint) == s[p..p + d.size]
  {
    hide Decode, Encode, WellFormedChar;
    var d := Decode(s, p);
    if d.size == 1 {
      var x := DecodedOne(s, p);
      EncodeOne(x);
    } else if d.size == 2 {
      var x, y := DecodedTwo(s, p);
      EncodeTwo(x, y);
    } else if d.size == 3 {
      var x, y, z := DecodedThree(s, p);
      EncodeThree(x, y, z);
    } else {
      var w, x, y, z := DecodedFour(s, p);
      EncodeFour(w, x, y, z);
    }
  }

  // ---- Decoding sees only the bytes it consumes, so cuts commute with it ----

  lemma DecodeSuffix(s: string, b: nat, p: nat)
    requires b <= |s|
    ensures Decode(s[b..], p) == Decode(s, b + p)
  {
  }

  lemma DecodePrefix(s: string, b: nat, p: nat)
    requires p < b <= |s| && p + Decode(s, p).size <= b
    ensures Decode(s[..b], p) == Decode(s, p)
  {
  }

  // ---- The codepoint walk ----

  /** The byte offset reached from `p` after `n` increments of the iterator. */
  function Advance(s: string, p: nat, n: nat): (q: nat)
    requires p <= |s|
    ensures p <= q <= |s|
    ensures q < |s| ==> p + n <= q
    decreases n
  {
    if n == 0 || p == |s| then p else Advance(s, p + Decode(s, p).size, n - 1)
  }

  /** The raw bytes the iterator shows at each step from `p`. */
  function Pieces(s: string, p: nat): seq<string>
    requires p <= |s|
    decreases |s| - p
  {
    if p == |s| then []
    else
      var d := Decode(s, p);
      [s[p..p + d.size]] + Pieces(s, p + d.size)
  }

  function Concat(parts: seq<string>): string {
    if parts == [] then "" else parts[0] + Concat(parts[1..])
  }

  lemma {:induction false} PiecesConcat(s: string, p: nat)
    requires p <= |s|
    ensures Concat(Pieces(s, p)) == s[p..]
    decreases |s| - p
  {
    hide Decode;
    if p < |s| {
      var q := p + Decode(s, p).size;
      PiecesConcat(s, q);
      assert s[p..] == s[p..q] + s[q..];
      assert Pieces(s, p)[1..] == Pieces(s, q);
    }
  }

  lemma {:induction false} AdvanceTwice(s: string, p: nat, n: nat, m: nat)
    requires p <= |s|
    ensures Advance(s, Advance(s, p, n), m) == Advance(s, p, n + m)
    decreases n
  {
    hide Decode, Advance;
    AdvanceByCases(s, p, n);
    AdvanceByCases(s, p, n + m);
    AdvanceByCases(s, p, m);
    if n > 0 && p < |s| {
      AdvanceTwice(s, p + Decode(s, p).size, n - 1, m);
    }
  }

  /** `substr(pos, count)` as the byte range [start, end). */
  method Substr(s: string, pos: nat, count: nat) returns (start: nat, end: nat)
    ensures start == Advance(s, 0, pos) && end == Advance(s, start, count)
    ensures start <= end <= |s|
  {
    hide Decode, Advance;
    start := 0;
    AdvanceByCases(s, 0, pos);
    var i := 0;
    while i < pos
      invariant i <= pos && start <= |s|
      invariant Advance(s, start, pos - i) == Advance(s, 0, pos)
    {
      AdvanceByCases(s, start, pos - i);
      if start >= |s| {
        return |s|, |s|;
      }
      start := start + Decode(s, start).size;
      i := i + 1;
    }
    AdvanceByCases(s, start, 0);
    end := start;
    i := 0;
    while i < count
      invariant i <= count && start <= end <= |s|
      invariant Advance(s, end, count - i) == Advance(s, start, count)
    {
      AdvanceByCases(s, end, count - i);
      if end >= |s| {
        break;
      }
      end := end + Decode(s, end).size;
      i := i + 1;
    }
    AdvanceByCases(s, end, count - i);
  }

  lemma AdvanceByCases(s: string, p: nat, n: nat)
    requires p <= |s|
    ensures n == 0 || p == |s| ==> Advance(s, p, n) == p
    ensures n > 0 && p < |s| ==> Advance(s, p, n) == Advance(s, p + Decode(s, p).size, n - 1)
    ensures Advance(s, |s|, n) == |s|
  {
  }

  function SubstrBytes(s: string, pos: nat, count: nat): string {
    var start := Advance(s, 0, pos);
    s[start..Advance(s, start, count)]
  }

  /** Cutting after n codepoints and resuming there loses nothing.  Any `rest` that is
      at least the size of the text stands for the default `npos`. */
  lemma SubstrSplits(s: string, n: nat, rest: nat)
    requires |s| <= rest
    ensures SubstrBytes(s, 0, n) + SubstrBytes(s, n, rest) == s
  {
  }

  lemma PiecesByCases(s: string, p: nat)
    requires p <= |s|
    ensures p == |s| ==> Pieces(s, p) == []
    ensures p < |s| ==> var q := p + Decode(s, p).size; Pieces(s, p) == [s[p..q]] + Pieces(s, q)
    ensures forall parts: seq<string> :: parts == [] ==> Concat(parts) == ""
  {
  }

  lemma FirstPieces(first: string, rest: seq<string>, k: nat)
    requires k <= |rest|
    ensures Concat(([first] + rest)[..k + 1]) == first + Concat(rest[..k])
  {
    assert ([first] + rest)[..k + 1] == [first] + rest[..k];
    assert ([first] + rest[..k])[1..] == rest[..k];
  }

  lemma {:induction false} SubstrIsPieces(s: string, p: nat, n: nat)
    requires p <= |s|
    ensures s[p..Advance(s, p, n)] ==
            Concat(Pieces(s, p)[..if n < |Pieces(s, p)| then n else |Pieces(s, p)|])
    decreases n
  {
    hide Decode, Pieces, Advance, Concat;
    AdvanceByCases(s, p, n);
    PiecesByCases(s, p);
    if n > 0 && p < |s| {
      var q := p + Decode(s, p).size;
      SubstrIsPieces(s, q, n - 1);
      var k := if n - 1 < |Pieces(s, q)| then n - 1 else |Pieces(s, q)|;
      FirstPieces(s[p..q], Pieces(s, q), k);
      assert s[p..Advance(s, p, n)] == s[p..q] + s[q..Advance(s, q, n - 1)];
    }
  }

  /** A view with its lazily cached codepoint count. */
  class StringViewUtf8 {
    const internalstr: string
    var cachedCount: int

    /** SIZE_MAX of a 64-bit size_t, the mark for "not computed". */
    static const SIZE_MAX: int := 0xFFFF_FFFF_FFFF_FFFF

    ghost predicate Valid()
      reads this
    {
      cachedCount == SIZE_MAX || cachedCount == |Pieces(internalstr, 0)|
    }

    constructor (sv: string)
      ensures internalstr == sv && Valid()
    {
      internalstr := sv;
      cachedCount := SIZE_MAX;
    }

    method CountCodepoints() returns (n: nat)
      requires Valid() && |internalstr| < SIZE_MAX
      modifies `cachedCount
      ensures Valid() && n == |Pieces(internalstr, 0)| && cachedCount == n
    {
      if cachedCount == SIZE_MAX {
        var p, count := 0, 0;
        while p < |internalstr|
          invariant p <= |internalstr|
          invariant count + |Pieces(internalstr, p)| == |Pieces(internalstr, 0)|
        {
          p := p + Decode(internalstr, p).size;
          count := count + 1;
        }
        cachedCount := count;
      }
      PiecesAreShort(internalstr, 0);
      n := cachedCount;
    }
  }

  lemma {:induction false} PiecesAreShort(s: string, p: nat)
    requires p <= |s|
    ensures |Pieces(s, p)| <= |s| - p
    decreases |s| - p
  {
    if p < |s| {
      PiecesAreShort(s, p + Decode(s, p).size);
    }
  }

  // ---- Well-formed texts and cuts at codepoint starts ----

  predicate WellFormed(s: string) {
    forall i :: 0 <= i < |Pieces(s, 0)| ==> WellFormedChar(Pieces(s, 0)[i])
  }

  /** b is where the walk from the start of the text stops at some step. */
  ghost predicate IsCodepointStart(s: string, b: nat) {
    exists n: nat :: Advance(s, 0, n) == b
  }

  lemma {:induction false} PiecesSplit(s: string, p: nat, n: nat)
    requires p <= |s|
    ensures var b := Advance(s, p, n);
            Pieces(s, p) == Pieces(s[..b], p) + Pieces(s, b)
    decreases n
  {
    hide Decode, Advance, Pieces;
    var b := Advance(s, p, n);
    AdvanceByCases(s, p, n);
    PiecesByCases(s, p);
    PiecesByCases(s[..b], p);
    if n > 0 && p < |s| {
      var q := p + Decode(s, p).size;
      PiecesSplit(s, q, n - 1);
      DecodePrefix(s, b, p);
      assert s[..b][p..q] == s[p..q];
    }
  }

  lemma {:induction false} PiecesSuffix(s: string, b: nat, p: nat)
    requires b <= p <= |s|
    ensures Pieces(s[b..], p - b) == Pieces(s, p)
    decreases |s| - p
  {
    hide Decode;
    if p < |s| {
      var q := p + Decode(s, p).size;
      DecodeSuffix(s, b, p - b);
      assert s[b..][p - b..q - b] == s[p..q];
      PiecesSuffix(s, b, q);
    }
  }

  /** Both halves of a text cut at a codepoint start are well-formed exactly when the text is. */
  lemma AllOfBoth(left: seq<string>, right: seq<string>)
    ensures var whole := left + right;
            (forall i :: 0 <= i < |whole| ==> WellFormedChar(whole[i])) <==>
            (forall i :: 0 <= i < |left| ==> WellFormedChar(left[i]))
            && (forall i :: 0 <= i < |right| ==> WellFormedChar(right[i]))
  {
    hide WellFormedChar;
    var whole := left + right;
    assert forall i :: 0 <= i < |left| ==> left[i] == whole[i];
    assert forall i :: 0 <= i < |right| ==> right[i] == whole[|left| + i];
  }

  lemma CutKeepsWellFormed(s: string, b: nat)
    requires IsCodepointStart(s, b)
    ensures b <= |s| && (WellFormed(s) <==> WellFormed(s[..b]) && WellFormed(s[b..]))
  {
    var n: nat :| Advance(s, 0, n) == b;
    PiecesSplit(s, 0, n);
    PiecesSuffix(s, b, b);
    var whole, left, right := Pieces(s, 0), Pieces(s[..b], 0), Pieces(s[b..], 0);
    hide Pieces, Advance, WellFormedChar;
    AllOfBoth(left, right);
    assert whole == left + right;
  }
}
