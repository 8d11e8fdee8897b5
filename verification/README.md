# Service-order PDF report: pagination model

This project models the core of a single HTTP route (`app/api/route.js`) that
turns a JSON list of companies and their service orders into a paginated PDF
report. Every call into the PDF library becomes an abstract drawing event:

- `Header(c)`: the page header of the company at index `c`;
- `Table(columns, rows)`: one table with its column specs and rows;
- `Footer(k, t)`: the text `Page k of t`;
- `AddPage`: a new landscape page.

The functions return the trace of these events. The library's report of how
many pages it has buffered (`doc.bufferedPageRange().count`) is an arbitrary
oracle `reported: nat -> nat`. The proofs hold for every such oracle.

Modules, one per file:

- `Wrappers` holds `Option`.
- `Text` covers decimal rendering and `padStart`.
- `DateFormat` covers `formatDate`.
- `Columns` covers header labels, the width table and alignment.
- `Chunking` covers slicing rows into pages of at most 5.
- `Paginator` covers the `addTable` loops, with counters threaded explicitly.
- `Layout` holds the intended page layout, stated without counters, and the
  proofs that the loops produce it.
- `Handler` covers the 405/400/500 gate and the response.

The main results:

- The footer loop writes exactly one footer per slice, `Page k of ceil(n/5)`.
  The loop's `startPage` is always 1, because `totalPages` is 0 when each
  company starts.
- The trace of a request whose companies all have orders is exactly the
  layout. So the renderer's page-count report never changes what is drawn.
- Chunking is the unique partition of the rows into full slices of 5 plus a
  last slice of 1 to 5 rows.
- Counts over the whole report:
  - company `c` gets its header `ceil(n/5)` times;
  - there is one new page fewer than pages in all;
  - the report ends with the last company's `Page T of T`.
- Header labels are idempotent. They contain no `_` and no lowercase-uppercase
  pair, and they keep every other character in order.

The footer loop is sometimes read as numbering physical pages, using the
renderer's page count. The code does not work that way. `totalPages` feeds
only `startPage`, and `startPage` is 1 for every company. So the footer
counts slices, one per slice, whatever the renderer reports. A slice whose
table overflows spans several physical pages but still carries a single
footer. Where that footer lands on paper is up to the PDF library, which is
not modelled. The model follows the code.

## Model

| member | source | states |
|---|---|---|
| `Text.NatToString` | app/api/route.js:5-6 | `n.toString()` is all digits, has no leading zero, and reads back as `n`; it is one digit exactly when `n < 10` |
| `Text.IntToString` | app/api/route.js:7-8 | the year's `toString()` reads back as the year, with a leading `-` for negative years, and its digits carry no leading zero |
| `Text.PadStart` | app/api/route.js:5-6 | `padStart` adds fill characters on the left up to the width and keeps the original as the suffix |
| `Text.LeadingZeros` | app/api/route.js:5-6 | zero-padding never changes the number a digit string denotes |
| `DateFormat.TwoDigitField` | app/api/route.js:5-6 | a padded day or month is at least 2 digits, reads back as the number, is exactly 2 digits below 100, and is `0d` below 10 |
| `DateFormat.FormatDate` | app/api/route.js:4-9 | the result is `DD/MM/` followed by the unpadded year; `DD` reads back as the day and `MM` as month index + 1; single digits get one leading `0`; a real calendar date gives exactly 6 characters before the year |
| `Columns.SplitCamel` | app/api/route.js:97 | the global regex replace leaves no lowercase-uppercase pair, keeps the first character, and adds no underscore |
| `Columns.SplitCamelInsertsSpaces` | app/api/route.js:97 | the left-to-right regex scan equals inserting one space between every adjacent lowercase-uppercase pair |
| `Columns.UnderscoresToSpaces` | app/api/route.js:97 | every `_` becomes a space, and nothing else changes |
| `Columns.Label` | app/api/route.js:97 | a label has no `_` and no lowercase-uppercase pair |
| `Columns.LabelIdempotent` | app/api/route.js:97 | applying the label transform twice equals applying it once |
| `Columns.SplitCamelFixes` | app/api/route.js:97 | a string with no lowercase-uppercase pair is left unchanged by the regex replace |
| `Columns.LabelKeepsLetters` | app/api/route.js:97 | without spaces and underscores, the label spells the key without spaces and underscores |
| `Columns.Lookup` | app/api/route.js:95 | `columnWidths[key]` is defined exactly for the listed keys and is then the listed width |
| `Columns.OrElse` | app/api/route.js:95 | the falsy-value fallback yields either the fallback or the looked-up value; a truthy value is kept, and the result is never 0 when the fallback is not |
| `Columns.Width` | app/api/route.js:69-95 | the width lookup with its falsy fallback is the listed width for the 14 listed keys and 100 for any other key, so it is always positive |
| `Columns.HorizontalAlign` | app/api/route.js:100 | alignment is left exactly for `ServiceOrderNo` and `Command`, centred for every other key |
| `Columns.ColumnFor` | app/api/route.js:95-103 | a column has its key as property, the key's label and positive width, `valign` center, header colour white, and `align` left exactly for `ServiceOrderNo` and `Command` |
| `Columns.HeaderSpecs` | app/api/route.js:94-104 | one column per key, in key order; each column has its key as property, the key's label and width, `valign` center, header colour white, and `align` left exactly for `ServiceOrderNo` and `Command` |
| `Paginator.KeysValuesRebuild` | app/api/route.js:94-106 | `Object.keys` and `Object.values` of a record have its length and pair up again, position by position, into the record |
| `Paginator.ColumnsHeadCells` | app/api/route.js:94-106 | when every order has the first order's keys, column `i` of the header heads cell `i` of every row, and that cell is the order's value for that key |
| `Chunking.PageCount` | app/api/route.js:129 | `Math.ceil(n / 5)` is the fewest pages of 5 rows that hold `n` rows |
| `Chunking.PageSlice` | app/api/route.js:111-113 | a slice holds 1 to 5 rows, and holds fewer than 5 only when it reaches the end of the rows |
| `Chunking.ChunksFrom` | app/api/route.js:110-140 | starting at row `r` of `n`, the row loop draws `ceil((n - r) / 5)` slices |
| `Chunking.ChunksConcat` | app/api/route.js:107-113 | concatenating the slices in order gives back exactly the rows |
| `Chunking.ChunksWellSized` | app/api/route.js:110-113 | every slice has 1 to 5 rows, and every slice but the last has exactly 5 |
| `Chunking.ChunksCount` | app/api/route.js:129 | there are `ceil(n/5)` slices |
| `Chunking.ChunksUnique` | app/api/route.js:110-113 | any well-sized split that concatenates back to the rows is exactly the computed slicing |
| `Chunking.ChunksPartition` | app/api/route.js:106-113 | the slicing of a company's rows is a partition of exactly `ceil(n/5)` well-sized slices |
| `Paginator.FooterNumber` | app/api/route.js:131-136 | the computed page number equals `currentPage` exactly at index `T - 1`, or at index 1 of a single-page company on its first page |
| `Paginator.FooterLoop` | app/api/route.js:130-138 | every footer the loop writes through `addPageFooter` reads `Page currentPage of T`, and a start index past `T` writes none |
| `Paginator.FooterLoopWrites` | app/api/route.js:59-63 | from any start index of at least 1, the footer loop writes at most one footer, `Page currentPage of T`; a single-page company gets `Page 1 of 1` from start index 1, and when `T >= 2` a start index past `T - 1` loses it |
| `Paginator.OneFooterPerPage` | app/api/route.js:129-138 | with `startPage` 1 and `1 <= k <= T`, the loop writes exactly one footer, `Page k of T` |
| `Paginator.ChunkLoop` | app/api/route.js:110-153 | the row loop asks the renderer to draw once per slice; after a company that is not the last, `totalPages` is back at 0; a loop with no rows left draws nothing |
| `Paginator.CompanyLoop` | app/api/route.js:86-104 | company processing throws exactly when some remaining company has no orders |
| `Paginator.Generate` | app/api/route.js:65-66 | generation throws exactly when some company has an empty order list |
| `Layout.PlanFor` | app/api/route.js:86-113 | a company's plan has its index, is marked last exactly for the last company, and has `ceil(n/5)` slices |
| `Layout.ChunkLoopStep` | app/api/route.js:110-152 | one pass of the row loop draws a table of the next slice, then its single footer `Page k of T`, then the page advance, then the rest of the loop while rows remain |
| `Layout.ChunkLoopFollowsLayout` | app/api/route.js:110-153 | while `currentPage` is the slice number and `startPage` is 1, the row loop draws exactly the intended pages |
| `Layout.CompanyLoopFollowsLayout` | app/api/route.js:86-154 | every company starts with `totalPages` 0, so `startPage` is 1, and the company loop draws exactly the layout |
| `Layout.GenerateFollowsLayout` | app/api/route.js:65-155 | when every company has orders, `addTable` draws exactly the intended layout |
| `Layout.RendererCountIrrelevant` | app/api/route.js:125-127 | the renderer's buffered-page count never changes the drawn trace |
| `Layout.PagesFooters` | app/api/route.js:129-138 | from page `k` on, the footers read `Page k of T`, `Page k+1 of T` and so on, one per slice |
| `Layout.CompanyFooters` | app/api/route.js:129-138 | each company's footers are exactly `Page 1 of T` through `Page T of T`, with `T = ceil(n/5)` |
| `Layout.PagesCounts` | app/api/route.js:142-152 | within a company, the header is redrawn once per later slice, and a new page follows every slice but the last, plus one after the last unless the company is the last |
| `Layout.CompanyCounts` | app/api/route.js:92 | a company draws its own header once per slice and no other company's header |
| `Layout.LayoutHeaders` | app/api/route.js:146-147 | over consecutive plans, company `c`'s header appears once per slice of `c`, and no other header appears |
| `Layout.LayoutNewPages` | app/api/route.js:142-145 | over consecutive plans, the number of new pages is the number of slices minus one |
| `Layout.LayoutEndsWithFooter` | app/api/route.js:142-145 | the trace ends with the last company's final footer, not a new page |
| `Layout.DocumentHeaders` | app/api/route.js:92 | in the whole report, company `c` gets its header `ceil(n/5)` times |
| `Layout.DocumentNewPages` | app/api/route.js:142-145 | the whole report issues one new page fewer than its total page count |
| `Layout.DocumentEndsWithFooter` | app/api/route.js:142-152 | the report ends with `Page T of T` for the last company, with no new page after it |
| `Handler.NoData` | app/api/route.js:20 | the payload counts as data exactly when `companyData` is present and non-empty |
| `Handler.Handle` | app/api/route.js:13-169 | a non-POST method gives 405 whatever the body is; a POST with missing or empty `companyData` gives 400 with its message; a company without orders gives 500 with the retry message; the PDF is streamed exactly in the remaining case, with its content type and file name, and its trace is the layout |

## Left out

- The PDF library itself. Fonts, font sizes, text flow and `moveDown` are not modelled, and neither is what `table.draw` puts on a page. Whether drawing before the first `addPage` works is not modelled either. These are foreign calls, seen here only as events.
- The meaning of `doc.bufferedPageRange().count`: it is an arbitrary oracle, because it only feeds `totalPages`.
- The header text: the fixed titles, the company name and code, and the date. `Header(c)` carries only the company index.
- The table's column defaults (border, padding), its position `(10, doc.y)` and its width 780.
- The clock read `new Date()`. `FormatDate` takes the day, month index and year as parameters.
- HTTP plumbing: `res.setHeader`, `doc.pipe`, `doc.end` and console logging. The response is a value.
- Library failures, such as a missing font file. They would also end in the 500 retry response, but they happen inside calls this model does not see. Only the throw from an empty `ServiceOrder` is modelled.
- The events drawn before a throw. Nothing is streamed before generation finishes, so a failed request carries only the 500 response.
- JavaScript payload shapes other than a list or `null`/absent, for example a truthy non-array `companyData`. Also a missing request body, or a company without a `ServiceOrder` field.
- Prototype lookups in `columnWidths[key]`, for example the key `toString`. The width table is a finite map with a default.
- Cell values: they are an uninterpreted type `V`. Rows keep each record's values in positional order, even when records differ in their keys.
