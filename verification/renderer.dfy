/** The page layout of the QR-code document: the page-batching loop, the
    per-page drawing loop, and the caption placed above each code. Drawing
    is modelled as emitting one `Placement` per record instead of calling
    the document library. */
module Renderer {
  import opened Geometry
  import opened Records
  import opened Pagination

  /** Estimated width of one caption character, in points. */
  const CharWidth: int := 10

  /** Vertical gap between the top edge of a code and its caption. */
  const CaptionGap: int := 10

  /** A caption: its text and the point at which it is drawn. */
  datatype Label = Label(text: string, x: int, y: int)

  /** One drawn record: the page it is on, its index in the input array,
      the data its QR code carries, the code's corner and its caption. */
  datatype Placement = Placement(page: nat, index: nat, data: string, code: Cursor, caption: Label)

  /** Estimated width of a caption: a fixed width per UTF-16 code unit,
      the unit in which JavaScript measures a string's length. */
  function TextWidth(t: string): int
  {
    Utf16Length(t) * CharWidth
  }

  /** The caption of a record whose code is drawn at `c`: the text is the
      `posicao` value, horizontally centred on the code by its estimated
      width, and set `CaptionGap` points above the code's top edge. The
      centring offset is a division by two in `createQRCodePDF`; it is exact,
      because the code size and every estimated width are even. */
  function Caption(c: Cursor, p: Posicao): (l: Label)
    ensures l.text == CaptionText(p)
    ensures 2 * l.x + TextWidth(l.text) == 2 * c.x + QrCodeSize
    ensures l.y - CaptionGap == c.y + QrCodeSize
  {
    var t := CaptionText(p);
    var spare := QrCodeSize - TextWidth(t);
    assert spare == 2 * (100 - 5 * Utf16Length(t));
    Label(t, c.x + spare / 2, c.y + QrCodeSize + CaptionGap)
  }

  /** The caption position computed for a one-emoji caption at the top-left
      slot: the emoji is two code units wide, so x = 50 + (200 - 20) / 2. */
  lemma NonBmpCaption()
    ensures Caption(Start(), Text("\U{1F600}")).x == 140
  {
  }

  /** Drawing record `r`, the `index`-th of the input, at cursor `c` of page `page`. */
  function Draw(page: nat, index: nat, r: Record, c: Cursor): Placement
  {
    Placement(page, index, r.payload, c, Caption(c, r.posicao))
  }

  /** Where record `i` must end up: on page `i / QrPerPage`, in slot
      `i % QrPerPage` of that page. */
  function Expected(records: seq<Record>, i: nat): Placement
    requires i < |records|
  {
    Draw(i / QrPerPage, i, records[i], Slot(i % QrPerPage))
  }

  /** `placements` draws the first `|placements|` records, in input order,
      each at its expected page and slot. */
  predicate IsLayoutPrefix(records: seq<Record>, placements: seq<Placement>)
  {
    |placements| <= |records| &&
    forall i :: 0 <= i < |placements| ==> placements[i] == Expected(records, i)
  }

  /** `placements` draws every record once, in input order, each at its
      expected page and slot. */
  predicate IsLayoutOf(records: seq<Record>, placements: seq<Placement>)
  {
    IsLayoutPrefix(records, placements) && |placements| == |records|
  }

  /** Opens a page and draws the records from `startIndex` on, at most
      `QrPerPage` of them, stepping the cursor after each one. */
  method AddPageWithQrs(records: seq<Record>, startIndex: nat, page: nat) returns (drawn: seq<Placement>)
    ensures |drawn| == if startIndex < |records| then Min(QrPerPage, |records| - startIndex) else 0
    ensures forall k :: 0 <= k < |drawn| ==>
      startIndex + k < |records| &&
      drawn[k] == Draw(page, startIndex + k, records[startIndex + k], Slot(k))
  {
    drawn := [];
    var cursor := Start();
    var i := startIndex;
    while i < startIndex + QrPerPage && i < |records|
      invariant startIndex <= i <= startIndex + QrPerPage
      invariant i == startIndex || i <= |records|
      invariant |drawn| == i - startIndex
      invariant cursor == CursorAfter(i - startIndex)
      invariant forall k :: 0 <= k < |drawn| ==>
        startIndex + k < |records| &&
        drawn[k] == Draw(page, startIndex + k, records[startIndex + k], Slot(k))
      decreases |records| - i
    {
      CursorAfterIsSlot(i - startIndex);
      drawn := drawn + [Draw(page, i, records[i], cursor)];
      cursor := Advance(cursor);
      i := i + 1;
    }
  }

  /** Record `QrPerPage * page + k` sits on page `page` in slot `k`. */
  lemma PageAndSlot(page: nat, k: nat)
    requires k < QrPerPage
    ensures (QrPerPage * page + k) / QrPerPage == page
    ensures (QrPerPage * page + k) % QrPerPage == k
  {
  }

  /** Appending the codes of page `page` to a layout of the records before
      that page yields a layout of the records up to the end of the page. */
  lemma ExtendLayout(records: seq<Record>, prev: seq<Placement>, drawn: seq<Placement>, page: nat)
    requires IsLayoutPrefix(records, prev) && |prev| == QrPerPage * page
    requires forall k :: 0 <= k < |drawn| ==>
      |prev| + k < |records| &&
      drawn[k] == Draw(page, |prev| + k, records[|prev| + k], Slot(k))
    requires |drawn| <= QrPerPage
    ensures IsLayoutPrefix(records, prev + drawn)
  {
    var all := prev + drawn;
    if |drawn| > 0 {
      var last := |drawn| - 1;
      assert drawn[last] in drawn;
    }
    forall i | 0 <= i < |all|
      ensures all[i] == Expected(records, i)
    {
      if i >= |prev| {
        PageAndSlot(page, i - |prev|);
      }
    }
  }

  /** Lays out the whole record array: one page per batch of `QrPerPage`
      records, until every record has been drawn. Returns the number of
      pages opened and the placements in drawing order. */
  method CreateQrCodePdf(records: seq<Record>) returns (pages: nat, placements: seq<Placement>)
    ensures pages * QrPerPage >= |records| && pages * QrPerPage < |records| + QrPerPage
    ensures |records| == 0 ==> pages == 0
    ensures pages == |Batches(records)|
    ensures IsLayoutOf(records, placements)
  {
    pages := 0;
    placements := [];
    var startIndex := 0;
    while startIndex < |records|
      invariant startIndex == QrPerPage * pages
      invariant startIndex < |records| + QrPerPage
      invariant |placements| == Min(startIndex, |records|)
      invariant IsLayoutPrefix(records, placements)
      decreases |records| - startIndex
    {
      var drawn := AddPageWithQrs(records, startIndex, pages);
      ExtendLayout(records, placements, drawn, pages);
      placements := placements + drawn;
      startIndex := startIndex + QrPerPage;
      pages := pages + 1;
    }
    PagesAreBatches(records, pages);
  }

  /** The number of pages is the number of batches of the reference
      pagination. */
  lemma PagesAreBatches(records: seq<Record>, pages: nat)
    requires pages * QrPerPage >= |records| && pages * QrPerPage < |records| + QrPerPage
    ensures pages == |Batches(records)|
  {
    BatchCount(records);
    PageCountUnique(|records|, pages);
  }

  /** Page `p` of a layout holds exactly the records of batch `p`, in order:
      the `k`-th code of the page carries the `k`-th record of the batch. */
  lemma {:induction false} LayoutFollowsBatches(records: seq<Record>, placements: seq<Placement>, p: nat, k: nat)
    requires IsLayoutOf(records, placements)
    requires p < |Batches(records)| && k < |Batches(records)[p]|
    ensures QrPerPage * p + k < |placements|
    ensures placements[QrPerPage * p + k] == Draw(p, QrPerPage * p + k, Batches(records)[p][k], CursorAfter(k))
  {
    BatchContents(records, p);
    PageAndSlot(p, k);
    CursorAfterIsSlot(k);
  }

  /** A record is on page `p` exactly when its index lies in
      `[QrPerPage * p, QrPerPage * p + QrPerPage)`. */
  lemma PageMembership(records: seq<Record>, placements: seq<Placement>, i: nat, p: nat)
    requires IsLayoutOf(records, placements)
    requires i < |placements|
    ensures placements[i].page == p <==> QrPerPage * p <= i < QrPerPage * p + QrPerPage
  {
  }

  /** The first code of every page is drawn at the top-left slot. */
  lemma FirstOnPageAtTopLeft(records: seq<Record>, placements: seq<Placement>, i: nat)
    requires IsLayoutOf(records, placements)
    requires i < |placements|
    requires i == 0 || placements[i - 1].page != placements[i].page
    ensures placements[i].code == Cursor(Margin, PageHeight - Margin - QrCodeSize)
  {
  }

  /** Every code lies inside the page margins, and two codes on the same
      page never overlap. */
  lemma CodesFitAndDoNotOverlap(records: seq<Record>, placements: seq<Placement>, i: nat, j: nat)
    requires IsLayoutOf(records, placements)
    requires i < |placements| && j < |placements|
    ensures FitsHorizontally(placements[i].code) && FitsVertically(placements[i].code)
    ensures i != j && placements[i].page == placements[j].page ==>
      Apart(placements[i].code, placements[j].code)
  {
  }

  /** Each record is drawn exactly once, and the captions read the records'
      `posicao` values in input order. */
  lemma EachRecordOnce(records: seq<Record>, placements: seq<Placement>, i: nat, j: nat)
    requires IsLayoutOf(records, placements)
    requires i < |placements| && j < |placements|
    ensures placements[i].index == placements[j].index <==> i == j
    ensures placements[i].data == records[i].payload
    ensures placements[i].caption.text == CaptionText(records[i].posicao)
  {
  }
}
