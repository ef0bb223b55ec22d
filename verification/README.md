# QR-code sheet layout

A Dafny model of the layout logic of the QR-code sheet generator. The generator reads a JSON array of records. It then produces an A4 PDF with one QR code per record, up to six codes per page. Each code has the record's `posicao` value as a caption above it.

The model covers the part of `createQRCodePDF` that is arithmetic rather than library calls:

- **Layout constants** (`Geometry`): page width 595, page height 842, margin 50, code size 200 and six codes per page. All are integers, so every position is exact.
- **Grid cursor** (`Geometry`): the cursor starts at the top-left slot `(margin, height - margin - size)`. After each code it moves one code plus one margin to the right. When a code there would cross the right margin, it wraps back to the left margin one row lower. The operational cursor (`CursorAfter`) is proved equal to a closed-form slot table (`Slot`): two columns by three rows per page.
- **Captions** (`Records`, `Renderer`): the caption is the `posicao` value as a template string renders it. Its width is estimated at 10 points per UTF-16 code unit, the unit of JavaScript's string `length`. It is centred on the code by that estimate and set 10 points above the code's top edge.
- **Pagination** (`Pagination`, `Renderer`): the outer `while` loop opens one page per batch of six records. The inner loop (`AddPageWithQrs`) draws up to six records from the batch's start index. A reference definition of the batches (`Batches`) is proved to partition the input in order.

Drawing is modelled as emitting one `Placement` per record. A placement holds the page number, the input index, the record's serialized data, the code's corner and the caption. Records are opaque. The model keeps only their JSON serialization, which is the data the code carries, and their `posicao` value.

For empty input the batching loop opens no page, because it never runs.

## Model

| member | source | states |
|---|---|---|
| Geometry.Advance | src/new-qrcode-generator.js:84-90 | after a code, the cursor either moves one pitch (size + margin) right on the same row, or returns to the left margin exactly one pitch lower; a cursor that keeps a code inside the horizontal margins still does after the step |
| Geometry.CursorAfter | src/new-qrcode-generator.js:37-90 | the cursor reached after any number of steps from the top-left slot keeps codes within the left and right margins and never rises above the first row |
| Geometry.Slot | src/new-qrcode-generator.js:26-30 | every grid slot lies within the horizontal margins, and the six slots of a page also lie within the vertical margins |
| Geometry.AdvanceSlot | src/new-qrcode-generator.js:84-90 | one cursor step takes slot k to slot k + 1: two codes per row, then a wrap |
| Geometry.CursorAfterIsSlot | src/new-qrcode-generator.js:37-90 | the cursor after k codes on a page, obtained by stepping from the top-left slot, is the closed-form slot k |
| Geometry.PageSlots | src/new-qrcode-generator.js:84-90 | a page's six codes are drawn at (50,592), (300,592), (50,342), (300,342), (50,92) and (300,92) |
| Geometry.SlotsApart | src/new-qrcode-generator.js:84-90 | codes in two distinct slots never overlap |
| Records.CaptionText | src/new-qrcode-generator.js:66 | a string `posicao` is the caption unchanged; a missing field is spelled "undefined" and a null "null" |
| Records.Utf16Length | src/new-qrcode-generator.js:70 | a string's JavaScript length lies between its character count and twice that: each character outside the Basic Multilingual Plane counts two |
| Records.Utf16LengthOfBmp | src/new-qrcode-generator.js:70 | a string of Basic Multilingual Plane characters has a length equal to its character count |
| Records.Utf16LengthIsCountOnlyForBmp | src/new-qrcode-generator.js:70 | a string's JavaScript length equals its character count if and only if every character lies in the Basic Multilingual Plane |
| Records.Utf16LengthAppend | src/new-qrcode-generator.js:70 | the length of a concatenation is the sum of the lengths |
| Renderer.NonBmpCaption | src/new-qrcode-generator.js:70-77 | for a one-emoji caption at the top-left slot, line 76 computes x = 140, because the emoji is measured as two code units |
| Renderer.Caption | src/new-qrcode-generator.js:66-77 | the caption text is the record's `posicao`; its midpoint, estimated at 10 points per UTF-16 code unit, is the code's horizontal midpoint, and the centring division is exact; its baseline is 10 points above the code's top edge |
| Pagination.PageCount | src/new-qrcode-generator.js:95-99 | the page count is ceil(n/6): it covers all n records and one page fewer would not |
| Pagination.Batches | src/new-qrcode-generator.js:40-44 | every batch holds between one and six records |
| Pagination.FlattenBatches | src/new-qrcode-generator.js:95-98 | concatenating the batches gives back the input, so every record is in exactly one batch, in order |
| Pagination.BatchCount | src/new-qrcode-generator.js:95-99 | there are exactly ceil(n/6) batches, and none for empty input |
| Pagination.BatchContents | src/new-qrcode-generator.js:40-44 | batch p holds the records with indices 6p up to min(6p + 6, n) - 1 |
| Renderer.AddPageWithQrs | src/new-qrcode-generator.js:33-91 | drawing a page from start index s emits min(6, n - s) codes (none when s is past the end); the k-th is record s + k at slot k, with its caption |
| Renderer.ExtendLayout | src/new-qrcode-generator.js:95-98 | appending page p's codes to the layout of the first 6p records gives the layout of the records up to the end of page p |
| Renderer.CreateQrCodePdf | src/new-qrcode-generator.js:94-99 | the batching loop opens ceil(n/6) pages, one per reference batch and none for empty input; it draws every record exactly once, in input order, record i on page i / 6 in slot i mod 6 |
| Renderer.PagesAreBatches | src/new-qrcode-generator.js:95-99 | a page count that covers all records without an empty page equals the number of reference batches |
| Renderer.LayoutFollowsBatches | src/new-qrcode-generator.js:40-44 | in a layout, the k-th code of page p is batch p's k-th record drawn, with its caption, where the cursor is after k steps |
| Renderer.PageMembership | src/new-qrcode-generator.js:95-98 | record i is on page p exactly when 6p <= i < 6p + 6 |
| Renderer.FirstOnPageAtTopLeft | src/new-qrcode-generator.js:37-38 | the first code of every page is at (margin, height - margin - size), because the cursor resets per page |
| Renderer.CodesFitAndDoNotOverlap | src/new-qrcode-generator.js:86-90 | every drawn code lies within all four margins, and two codes on the same page never overlap |
| Renderer.EachRecordOnce | src/new-qrcode-generator.js:40-45 | two placements share an input index only if they are the same placement, and each carries its record's data and `posicao` caption |

## Left out

- Reading and parsing the JSON file (`loadDataFromFile`) and the top-level driver. These are file I/O and a foreign parser.
- QR encoding, PNG embedding, the actual drawing calls, and saving and writing the PDF. These are calls into the `qrcode` and `pdf-lib` libraries and file output. A placement records what would be drawn instead.
- The scaled image size. The model takes the drawn image to be exactly `qrCodeSize` wide and high, as the scale factor `qrCodeSize / width` intends; QR images are square. In floating point, `width * (200 / width)` can be off in the last bit: 199.99999999999997 for widths 388 and 644, and 200.00000000000003 for 692. The floating-point font size derived from it is not modelled.
- The page size returned by the document library. It is taken to be the 595 by 842 size the page was created with.
- The caption's JavaScript division is floating point. The model uses integer division. `Renderer.Caption` proves the division exact only under the assumption above that the image width is exactly 200.
- Records.CaptionText: a numeric, boolean, object or array `posicao` goes through JavaScript's own to-string rules, which are not modelled. Only strings, a missing field and null are.
- Records.Utf16Length: a JSON string may hold a lone surrogate, which is not a Dafny `char`, so such captions cannot be represented.
- A parsed value that is not an array. The model takes the parsed JSON to be an array of records. A top-level `null` makes the loop test `startIndex < dataArray.length` at line 96 throw a TypeError, and the document is lost. Any other non-array value is walked through its `length` property at lines 42 and 96, which none of the model's inputs can express.
- A `null` element of the input array. `JSON.stringify(null)` succeeds, but reading `item.posicao` on it throws a TypeError inside `createQRCodePDF`. The catch then skips saving, so no file is written and the whole document is lost. `Record` cannot represent such an element. A primitive element (a number, string or boolean) does not throw; it is represented as a record whose `posicao` is `Undefined`.
- A caption the default font cannot encode. `drawText` is given no font, so the library uses standard Helvetica with WinAnsi encoding. A character outside Windows-1252 makes `drawText` throw, and that includes every character outside the Basic Multilingual Plane. The document is then lost, as for the `null` element. The model still computes such a caption's position, which is the `x` that line 76 computes.
- Caption line breaking. `Label` holds the origin of the caption's first line. With `maxWidth` set to the code width (line 80), the library breaks a caption wider than that into several lines, measured with real font metrics at the derived font size. The extra lines are drawn below the first. None of this is modelled.
- The blank page of an empty document. `pdfDoc.save()` is called with default options, and the document library then adds one blank page to a document that has none. So empty input yields a file with one blank page, although the batching loop opens none. This is library behaviour and is not modelled.
- Asynchronous sequencing and the catch-and-log error handling. Every library call is awaited in order, which the sequential loops already capture. The error paths come from the libraries left out above, from a caption the default font cannot encode, from a `null` element, and from a top-level `null` failing the loop test at line 96.
