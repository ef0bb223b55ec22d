/** Page geometry and the drawing cursor that walks a page's grid of QR
    codes. All lengths are PDF points; every value is an integer, so the
    arithmetic is exact. */
module Geometry {

  const PageWidth: int := 595
  const PageHeight: int := 842
  const Margin: int := 50
  const QrCodeSize: int := 200
  const QrPerPage: nat := 6

  /** Distance between the origins of two neighbouring codes, in either direction. */
  const Pitch: int := QrCodeSize + Margin

  /** Number of codes that fit side by side between the margins. */
  const Columns: nat := 2

  /** The bottom-left corner at which the next code is drawn. */
  datatype Cursor = Cursor(x: int, y: int)

  /** The top-left slot of a page: one margin from the left edge, and one
      margin plus one code below the top edge. */
  function Start(): Cursor
  {
    Cursor(Margin, PageHeight - Margin - QrCodeSize)
  }

  /** A code drawn at `c` lies between the left and right margins. */
  predicate FitsHorizontally(c: Cursor)
  {
    Margin <= c.x && c.x + QrCodeSize <= PageWidth - Margin
  }

  /** A code drawn at `c` lies between the bottom and top margins. */
  predicate FitsVertically(c: Cursor)
  {
    Margin <= c.y && c.y + QrCodeSize <= PageHeight - Margin
  }

  /** The codes drawn at `a` and `b` do not overlap. */
  predicate Apart(a: Cursor, b: Cursor)
  {
    a.x + QrCodeSize <= b.x || b.x + QrCodeSize <= a.x ||
    a.y + QrCodeSize <= b.y || b.y + QrCodeSize <= a.y
  }

  /** The cursor step taken after each code: move one pitch to the right,
      and when a code there would cross the right margin, return to the left
      margin one row lower. */
  function Advance(c: Cursor): (r: Cursor)
    ensures FitsHorizontally(c) ==> FitsHorizontally(r)
    ensures (r.x == c.x + Pitch && r.y == c.y) || (r.x == Margin && r.y == c.y - Pitch)
  {
    var x := c.x + Pitch;
    if x + QrCodeSize > PageWidth - Margin then Cursor(Margin, c.y - Pitch) else Cursor(x, c.y)
  }

  /** The cursor after `k` codes have been drawn on a page, obtained by
      stepping from `Start`. */
  function CursorAfter(k: nat): (r: Cursor)
    ensures FitsHorizontally(r)
    ensures r.y <= Start().y
    decreases k
  {
    if k == 0 then Start() else Advance(CursorAfter(k - 1))
  }

  /** Closed form of the `k`-th slot of a page: slots fill rows of `Columns`
      codes left to right, rows top to bottom. */
  function Slot(k: nat): (r: Cursor)
    ensures FitsHorizontally(r)
    ensures k < QrPerPage ==> FitsVertically(r)
  {
    Cursor(Margin + (k % Columns) * Pitch, Start().y - (k / Columns) * Pitch)
  }

  /** One step of the cursor moves from one slot to the next. */
  lemma AdvanceSlot(k: nat)
    ensures Advance(Slot(k)) == Slot(k + 1)
  {
  }

  /** Stepping the cursor `k` times from the top-left slot lands on slot `k`. */
  lemma {:induction false} CursorAfterIsSlot(k: nat)
    ensures CursorAfter(k) == Slot(k)
    decreases k
  {
    if k > 0 {
      CursorAfterIsSlot(k - 1);
      AdvanceSlot(k - 1);
    }
  }

  /** The six positions a page fills: two columns by three rows. */
  lemma PageSlots()
    ensures CursorAfter(0) == Cursor(50, 592)
    ensures CursorAfter(1) == Cursor(300, 592)
    ensures CursorAfter(2) == Cursor(50, 342)
    ensures CursorAfter(3) == Cursor(300, 342)
    ensures CursorAfter(4) == Cursor(50, 92)
    ensures CursorAfter(5) == Cursor(300, 92)
  {
  }

  /** Distinct slots never overlap. */
  lemma SlotsApart(j: nat, k: nat)
    requires j != k
    ensures Apart(Slot(j), Slot(k))
  {
  }
}
