/** The `db.head` tool: one page of a stored message, and what a reader gets by following
    `next_offset`. */
module DbHead {
  import opened Common
  import opened Utf8View
  import opened Utf8Text

  datatype Args = Args(table: string, rowId: int, column: string, offsetBytes: int, bytesToRead: nat)

  datatype Page = Page(data: string, bytesRead: nat, nextOffset: nat, eof: bool)

  function Min(a: nat, b: nat): nat {
    if a <= b then a else b
  }

  /** Where the page that starts at boundary `start` ends, in terms of the boundaries of the
      whole text only: as many whole graphemes as fit, and one if not even the first fits. */
  function PageEnd(brk: BreakFn, s: string, start: nat, budget: nat): (end: nat)
    requires start in Boundaries(brk, s)
    ensures start <= end <= |s| && end in Boundaries(brk, s)
    ensures budget > 0 && start < |s| ==> start < end
    ensures end <= start + budget || forall x :: x in Boundaries(brk, s) && start < x ==> end <= x
    ensures budget > 0 ==> forall x :: x in Boundaries(brk, s) && start <= x <= start + budget ==> x <= end
  {
    if budget == 0 then start
    else
      var cut := LastBoundaryWithin(brk, s, start + budget);
      if cut > start then cut else NextBoundary(brk, s, Min(start + 1, |s|))
  }

  function PageAt(brk: BreakFn, s: string, offset: nat, budget: nat): Page {
    var start := AlignOffset(brk, s, offset);
    var end := PageEnd(brk, s, start, budget);
    Page(s[start..end], end - start, end, end == |s|)
  }

  /** The first check that fails decides the message. */
  function Refusal(args: Args): string {
    if args.offsetBytes < 0 then "offset_bytes must be >= 0"
    else if args.table != "messages" then "only table 'messages' is allowed"
    else if args.column != "content" then "only column 'content' is allowed"
    else "row not found"
  }

  /** The slice, or the next grapheme when the slice is empty, is the page. */
  lemma ChunkIsPage(brk: BreakFn, content: string, offset: nat, toRead: nat)
    ensures var start := AlignOffset(brk, content, offset);
            var slice := SliceByBytes(brk, content, offset, toRead);
            var next := AlignOffset(brk, content, start + 1);
            && start <= |content|
            && (start < |content| ==> start < next <= |content|)
            && var chunk := if slice == "" && start < |content| && toRead > 0 then content[start..next] else slice;
               PageAt(brk, content, offset, toRead) ==
               Page(chunk, |chunk|, start + |chunk|, start + |chunk| >= |content|)
  {
    hide Breaks, Floor, Ceiling, SliceByBytes;
    SliceIsGlobalCut(brk, content, offset, toRead);
  }

  /** `invoke` over the stored contents `rows` (row id to text).  The tool re-segments the
      suffix of the text; the page it returns is the one the whole text's boundaries give. */
  method Invoke(brk: BreakFn, rows: map<int, string>, maxBytes: nat, args: Args) returns (r: Result<Page>)
    ensures r.Ok? <==> args.offsetBytes >= 0 && args.table == "messages" && args.column == "content"
                       && args.rowId in rows
    ensures r.Ok? && args.bytesToRead <= maxBytes ==>
              r.value == PageAt(brk, rows[args.rowId], args.offsetBytes, args.bytesToRead)
    ensures r.Ok? && maxBytes <= args.bytesToRead ==>
              r.value == PageAt(brk, rows[args.rowId], args.offsetBytes, maxBytes)
    ensures r.Err? ==> r.message == Refusal(args)
  {
    hide Breaks, Floor, Ceiling, SliceByBytes, PageAt, AlignOffset, Boundaries;
    if args.offsetBytes < 0 {
      return Err("offset_bytes must be >= 0");
    }
    var toRead := Min(args.bytesToRead, maxBytes);
    if args.table != "messages" {
      return Err("only table 'messages' is allowed");
    }
    if args.column != "content" {
      return Err("only column 'content' is allowed");
    }
    if args.rowId !in rows {
      return Err("row not found");
    }
    var content := rows[args.rowId];
    var startOffset := AlignOffset(brk, content, args.offsetBytes);
    var chunk := SliceByBytes(brk, content, args.offsetBytes, toRead);
    ChunkIsPage(brk, content, args.offsetBytes, toRead);
    if chunk == "" && startOffset < |content| && toRead > 0 {
      var next := AlignOffset(brk, content, startOffset + 1);
      chunk := content[startOffset..startOffset + (next - startOffset)];
    }
    var nextOffset := startOffset + |chunk|;
    r := Ok(Page(chunk, |chunk|, nextOffset, nextOffset >= |content|));
  }

  /** A page, whatever the offset and the budget: it starts at the least boundary not below the
      offset; a zero budget gives nothing; otherwise it ends at the last boundary within the budget,
      or with the one grapheme that does not fit. */
  lemma PageIsExact(brk: BreakFn, s: string, offset: nat, budget: nat, start: nat)
    requires start in Boundaries(brk, s) && (offset <= start || start == |s|)
    requires forall x :: x in Boundaries(brk, s) && offset <= x ==> start <= x
    ensures var page := PageAt(brk, s, offset, budget);
            var end := page.nextOffset;
            && start <= end <= |s| && end in Boundaries(brk, s)
            && page.data == s[start..end] && page.bytesRead == end - start && (page.eof <==> end == |s|)
            && (budget == 0 || start == |s| ==> end == start)
            && (budget > 0 && start < |s| ==>
                  && start < end
                  && if end <= start + budget then forall x :: x in Boundaries(brk, s) && end < x ==> start + budget < x
                     else forall x :: x in Boundaries(brk, s) && start < x ==> end <= x)
  {
    hide Breaks, Floor, Ceiling;
    assert start <= |s|;
    assert AlignOffset(brk, s, offset) == start;
    hide LastBoundaryWithin, NextBoundary, AlignOffset;
  }

  // ---- Following next_offset ----

  /** The pages a reader gets from `offset`, with budget budgets[i] for the i-th request,
      until the end of the text or of the list of requests. */
  function Read(brk: BreakFn, s: string, offset: nat, budgets: seq<nat>): seq<Page>
    decreases |budgets|
  {
    if budgets == [] then []
    else
      var page := PageAt(brk, s, offset, budgets[0]);
      [page] + if page.eof then [] else Read(brk, s, page.nextOffset, budgets[1..])
  }

  function Data(pages: seq<Page>): string {
    if pages == [] then "" else pages[0].data + Data(pages[1..])
  }

  function LastOffset(pages: seq<Page>): nat
    requires pages != []
  {
    pages[|pages| - 1].nextOffset
  }

  ghost predicate AllPositive(budgets: seq<nat>) {
    forall i :: 0 <= i < |budgets| ==> budgets[i] > 0
  }

  /** A page is whole graphemes of the text, in order; it fits the budget or is one grapheme,
      and it is empty only at the end. */
  ghost predicate IsWholeGraphemes(brk: BreakFn, s: string, start: nat, budget: nat, page: Page) {
    && start <= page.nextOffset <= |s|
    && start in Boundaries(brk, s) && page.nextOffset in Boundaries(brk, s)
    && page.data == s[start..page.nextOffset] && page.bytesRead == |page.data|
    && (|page.data| <= budget || forall x :: x in Boundaries(brk, s) ==> !(start < x < page.nextOffset))
    && (page.eof <==> page.nextOffset == |s|)
    && (page.data == "" ==> page.eof)
  }

  /** Each page is whole graphemes and starts where the one before it stopped. */
  ghost predicate AllWholeGraphemes(brk: BreakFn, s: string, start: nat, budgets: seq<nat>, pages: seq<Page>)
    decreases |pages|
  {
    pages == [] ||
    (budgets != [] && IsWholeGraphemes(brk, s, start, budgets[0], pages[0])
     && AllWholeGraphemes(brk, s, pages[0].nextOffset, budgets[1..], pages[1..]))
  }

  lemma PageIsWholeGraphemes(brk: BreakFn, s: string, offset: nat, budget: nat)
    requires offset in Boundaries(brk, s) && budget > 0
    ensures IsWholeGraphemes(brk, s, offset, budget, PageAt(brk, s, offset, budget))
  {
    hide Breaks, PageEnd;
    assert AlignOffset(brk, s, offset) == offset;
  }

  lemma PageProgress(brk: BreakFn, s: string, offset: nat, budget: nat)
    requires offset in Boundaries(brk, s) && budget > 0
    ensures var page := PageAt(brk, s, offset, budget);
            && offset <= page.nextOffset <= |s| && page.nextOffset in Boundaries(brk, s)
            && page.data == s[offset..page.nextOffset]
            && (page.eof <==> page.nextOffset == |s|) && (!page.eof ==> offset < page.nextOffset)
  {
    hide PageAt, Boundaries;
    PageIsWholeGraphemes(brk, s, offset, budget);
  }

  /** Whatever positive budgets the reader asks for, the pages read so far are exactly the text
      up to the last `next_offset`, every page is whole graphemes, and |s| - offset requests
      (one for an empty text) always suffice to reach the end. */
  lemma {:induction false} PagingLosesNothing(brk: BreakFn, s: string, offset: nat, budgets: seq<nat>)
    requires offset in Boundaries(brk, s) && AllPositive(budgets) && budgets != []
    ensures var pages := Read(brk, s, offset, budgets);
            && pages != [] && |pages| <= |budgets|
            && offset <= LastOffset(pages) <= |s|
            && Data(pages) == s[offset..LastOffset(pages)]
            && AllWholeGraphemes(brk, s, offset, budgets, pages)
            && (|s| - offset <= |budgets| ==> LastOffset(pages) == |s|)
    decreases |budgets|
  {
    hide PageAt, Boundaries, IsWholeGraphemes, Read, Data, LastOffset, AllWholeGraphemes;
    var page := PageAt(brk, s, offset, budgets[0]);
    var rest := if page.eof then [] else Read(brk, s, page.nextOffset, budgets[1..]);
    ReadOne(brk, s, offset, budgets);
    PageProgress(brk, s, offset, budgets[0]);
    PageIsWholeGraphemes(brk, s, offset, budgets[0]);
    PageThenRest(page, rest);
    if rest != [] {
      PagingLosesNothing(brk, s, page.nextOffset, budgets[1..]);
      assert s[offset..LastOffset(rest)] == page.data + s[page.nextOffset..LastOffset(rest)];
    }
    PageAndAll(brk, s, offset, budgets, page, rest);
  }

  lemma ReadOne(brk: BreakFn, s: string, offset: nat, budgets: seq<nat>)
    requires budgets != []
    ensures var page := PageAt(brk, s, offset, budgets[0]);
            var rest := if page.eof then [] else Read(brk, s, page.nextOffset, budgets[1..]);
            Read(brk, s, offset, budgets) == [page] + rest && (rest != [] <==> !page.eof && |budgets| > 1)
  {
    hide PageAt;
  }

  lemma PageThenRest(page: Page, rest: seq<Page>)
    ensures Data([page] + rest) == page.data + Data(rest) && (rest == [] ==> Data(rest) == "")
    ensures LastOffset([page] + rest) == if rest == [] then page.nextOffset else LastOffset(rest)
  {
  }

  lemma PageAndAll(brk: BreakFn, s: string, start: nat, budgets: seq<nat>, page: Page, rest: seq<Page>)
    requires budgets != [] && IsWholeGraphemes(brk, s, start, budgets[0], page)
    requires rest == [] || AllWholeGraphemes(brk, s, page.nextOffset, budgets[1..], rest)
    ensures AllWholeGraphemes(brk, s, start, budgets, [page] + rest)
  {
    hide IsWholeGraphemes;
    assert ([page] + rest)[1..] == rest;
  }
}
