# Sticker label generator: document assembly and line-location width check

This project models two pieces of logic in the sticker-label generator `instr.py`.

- **Document assembly** (`Pagination`, `pagination.dfy`). For every record of the uploaded table, `generate_sticker_labels` appends seven label tables to the document story. The tables are, in order: assembly, part number, description, quantity, type, date and the bottom line-location table. A page-break marker follows every record except the last. `AssembleDocument` is that loop, written with a local sequence buffer. Its result is tied to the specification function `Document`. The lemmas about `Document` state the length, the position of every table and every page break, the page-break count, append-only growth, and the split at the page-break markers into one run per record. In the model, tables are opaque tokens `Table(kind, row)` and the page break is the token `PageBreak`.
- **Line-location width check** (`LineLocationWidths`, `line_location_widths.dfy`). Five sidebar sliders set the widths: the header in [10, 50] with initial value 25, and four boxes in [5, 30] with initial values 20, 20, 20 and 15. Every slider steps by 5. The sidebar warns when the total is more than 1 percentage point away from 100% and reports success otherwise. The widths then go to `generate_sticker_labels` unchanged. Widths are modelled as whole percentages, which is what the sliders produce. The source divides each value by 100 into a float. `FractionCheckAgrees` shows that, in exact arithmetic, its `abs(total - 1.0) > 0.01` comparison gives the same verdict as the integer check.

Notes on the source:
- The loop header over the records and the creation of `elements` lie outside instr.py:31-43. `AssembleDocument` takes the loop to have four properties:
  - `elements` is a fresh, empty list for each record.
  - `index` is the record's 0-based position.
  - Every record is visited once, in input order.
  - No iteration skips line 31, for example by an earlier `continue`.
  The guard `index < len(df) - 1` (instr.py:42) puts the page breaks in the right places only when `index` is the 0-based position. If the loop ran over row labels such as [0, 2, 5] with `len(df)` = 3, only label 0 would get a page break. The tables read by `pd.read_csv` and `pd.read_excel` (instr.py:111-114) carry the default 0..n-1 index, so the assumption holds for this caller.
- `main` neither rejects nor renormalises a width total other than 100%: it warns and passes the five widths to `generate_sticker_labels` unchanged (instr.py:102-105, 152-160; `ConfigurePassesWidthsUnchanged`, `WarnedWidthsReachGeneration`). What `generate_sticker_labels` does with them lies outside the modelled lines.

## Model

| member | source | states |
|---|---|---|
| Pagination.AssembleDocument | instr.py:31-43 | The loop that extends each record's tables onto the story, then appends a page break when `index < len(df) - 1`, yields exactly `Document(records)`. |
| Pagination.LabelTables | instr.py:31-39 | Each record contributes exactly seven tables and no page break. |
| Pagination.DocumentLength | instr.py:31-43 | N records give 8N − 1 story entries, and no records give an empty story. |
| Pagination.DocumentAt | instr.py:31-43 | Entry 8i + k is entry k of `LabelTables` for record i, for k < 7; `LabelTables` lists assly, partno, desc, qty, type, date, bottom in that order. Entry 8i + 7 is a page break for every record i except the last. |
| Pagination.DocumentEntry | instr.py:41-43 | An entry is a page break if and only if its position is 7 mod 8. Every other entry is the matching table of record position / 8. |
| Pagination.LastEntryIsBottomTable | instr.py:42-43 | No page break follows the last record: the story ends with the last record's bottom table. |
| Pagination.PageBreakCount | instr.py:41-43 | N records give exactly N − 1 page breaks (0 for no records) and exactly 7N tables. |
| Pagination.AssembledPrefix | instr.py:31-43 | Append-only: the story after i iterations is a prefix of the story after any later iteration. |
| Pagination.DocumentSnoc | instr.py:31-43 | Adding one more record keeps the earlier story unchanged and appends a page break and the new record's tables. |
| Pagination.DocumentPages | instr.py:41-43 | For N ≥ 1 records, splitting the story at its page breaks gives exactly N runs. Run j holds exactly record j's seven tables, in input order. |
| LineLocationWidths.Validate | instr.py:99-105 | The report carries the total of the five widths. It is a success exactly when the total is within 1 point of 100%, otherwise a warning. |
| LineLocationWidths.InitialPasses | instr.py:92-105 | The initial slider values 25 + 20 + 20 + 20 + 15 are slider values, total exactly 100% and pass the check. |
| LineLocationWidths.SliderTotalMultipleOfFive | instr.py:92-96 | Every total the sliders can produce is a multiple of 5. |
| LineLocationWidths.SliderCheckIsExact | instr.py:92-105 | On the slider grid the check passes if and only if the total is exactly 100%, and warns otherwise. |
| LineLocationWidths.SliderTotalBounds | instr.py:92-96 | Slider totals lie between 30% and 170%. |
| LineLocationWidths.FractionCheckAgrees | instr.py:92-102 | The integer check agrees with the source's test on the fractions `w / 100` against 1.0 with tolerance 0.01, in exact arithmetic. |
| LineLocationWidths.ConfigurePassesWidthsUnchanged | instr.py:152-160 | `Configure` (validate, then pass on): for every slider setting, the widths given to `generate_sticker_labels` are the slider widths, not renormalised. The sidebar warns exactly when those widths do not total 100%, and reports their total. |
| LineLocationWidths.WarnedWidthsReachGeneration | instr.py:102-103 | All sliders at their maxima draw a warning (170%), and those widths still reach generation with total 170%. |

## Left out

- The Streamlit user interface of `main` (instr.py:63-214): file uploaders, expanders, buttons, download and messages. Only the five sliders and the width check are modelled; the sliders appear as the set of values they can produce.
- ReportLab style lists, `setStyle`, `doc.build` and `draw_border` (instr.py:1-28, 48): library calls whose behaviour is not visible here. `Pages` splits the story at its page-break markers. Any page that `doc.build` adds when content overflows the frame is not modelled, so `DocumentPages` counts runs between markers, not PDF pages.
- Building the label tables from a record's fields (column widths, row heights, QR image and logo): this happens earlier in `generate_sticker_labels`, outside the modelled lines. The tables are opaque tokens.
- The progress bar (instr.py:45): a UI side effect. Its updates, if any, lie outside the modelled lines.
- File reading, the temporary PDF file and its removal (instr.py:51-55, 111-114): I/O.
- The timestamped file name (instr.py:57): it depends on the wall clock.
- The blanket exception handler (instr.py:59-61): the model has no failing operations for it to catch.
- How `generate_sticker_labels` turns the five widths into the bottom table's column widths: this lies outside the modelled lines, so the model does not say whether generation rescales them.
- Column detection with `find_column` and the `column_mappings` table (instr.py:127-143): `find_column` is defined outside the modelled lines, so its matching rules are not part of this model.
- Validate: does not model floating-point rounding of the width total. Widths are whole percents, and `FractionCheckAgrees` covers the source's division by 100 in exact reals, not in binary floating point. As a consequence, `Validate` passes off-grid totals of 99% and 101%, where the source, in double precision, can warn (1.01 − 1.0 evaluates slightly above the double 0.01). The sliders cannot produce those totals, and on the slider grid (`SliderCheckIsExact`) the verdicts agree.
