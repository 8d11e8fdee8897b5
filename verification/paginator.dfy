/** `addTable`: the per-company pagination loop, written as recursive
    functions that thread the loop counters explicitly and return the trace
    of drawing calls made on the document. Every drawing call is an
    uninterpreted event; the renderer's report of its buffered page count is
    an arbitrary oracle. */
module Paginator {
  import opened Columns
  import opened Chunking

  /** One field of an order record, as `Object.entries` lists it. */
  datatype Field<V> = Field(key: string, value: V)

  /** An order record: its fields in key order. */
  type Order<V> = seq<Field<V>>

  datatype Company<V> = Company(name: string, code: string, serviceOrder: seq<Order<V>>)

  /** One table row: the record's values, positionally (`Object.values`). */
  type Row<V> = seq<V>

  /** A drawing call on the document. `Header(c)` is `addPageHeader` for
      the company at index `c`; `Footer(k, t)` is the text `Page k of t`. */
  datatype Event<V> =
    | Header(company: nat)
    | Table(columns: seq<Column>, rows: seq<Row<V>>)
    | Footer(page: int, total: int)
    | AddPage

  /** `Object.keys(order)`. */
  function Keys<V>(order: Order<V>): (keys: seq<string>)
    ensures |keys| == |order| && forall i :: 0 <= i < |order| ==> keys[i] == order[i].key
  {
    seq(|order|, i requires 0 <= i < |order| => order[i].key)
  }

  /** `Object.values(order)`. */
  function Values<V>(order: Order<V>): (row: Row<V>)
    ensures |row| == |order| && forall i :: 0 <= i < |order| ==> row[i] == order[i].value
  {
    seq(|order|, i requires 0 <= i < |order| => order[i].value)
  }

  /** `company.ServiceOrder.map(order => Object.values(order))`. */
  function Rows<V>(orders: seq<Order<V>>): (rows: seq<Row<V>>)
    ensures |rows| == |orders| && forall i :: 0 <= i < |orders| ==> rows[i] == Values(orders[i])
  {
    seq(|orders|, i requires 0 <= i < |orders| => Values(orders[i]))
  }

  /** The keys and the values of a record pair up again into the record. */
  lemma KeysValuesRebuild<V>(order: Order<V>)
    ensures |Keys(order)| == |Values(order)| == |order|
    ensures forall i :: 0 <= i < |order| ==> order[i] == Field(Keys(order)[i], Values(order)[i])
  {
  }

  /** When every record has the first record's keys, column `i` of the
      header built from the first record heads cell `i` of every row. */
  lemma ColumnsHeadCells<V>(orders: seq<Order<V>>)
    requires |orders| > 0
    requires forall j :: 0 <= j < |orders| ==> Keys(orders[j]) == Keys(orders[0])
    ensures forall j :: 0 <= j < |orders| ==>
      |orders[j]| == |Rows(orders)[j]| == |HeaderSpecs(Keys(orders[0]))|
    ensures forall j, i :: 0 <= j < |orders| && 0 <= i < |orders[j]| ==>
      HeaderSpecs(Keys(orders[0]))[i].property == orders[j][i].key
      && Rows(orders)[j][i] == orders[j][i].value
  {
    var columns := HeaderSpecs(Keys(orders[0]));
    forall j | 0 <= j < |orders|
      ensures |orders[j]| == |Rows(orders)[j]| == |columns|
    {
      assert |Keys(orders[j])| == |orders[j]|;
    }
    forall j, i | 0 <= j < |orders| && 0 <= i < |orders[j]|
      ensures columns[i].property == orders[j][i].key && Rows(orders)[j][i] == orders[j][i].value
    {
      assert Keys(orders[j])[i] == Keys(orders[0])[i];
    }
  }

  // ------------------------------------------------------------ footers

  /** The page number the footer loop computes for loop index `i`. */
  function FooterNumber(i: int, totalCompanyPages: int, currentPage: int): (n: int)
    // the number meets `currentPage` at index `total - 1` only, or at index 1
    // of a single-page company on its first page
    ensures n == currentPage <==>
      i == totalCompanyPages - 1 || (i == totalCompanyPages == 1 && currentPage == 1)
  {
    if i == totalCompanyPages && totalCompanyPages == 1 then totalCompanyPages
    else currentPage - (totalCompanyPages - i) + 1
  }

  /** Every event of `events` is the footer `Page page of total`. */
  predicate AllFooters<V>(events: seq<Event<V>>, page: int, total: int) {
    forall k :: 0 <= k < |events| ==> events[k].Footer? && events[k].page == page && events[k].total == total
  }

  /** The footer loop from index `i` to `totalCompanyPages`: `addPageFooter`
      writes a footer only when the computed number equals `currentPage`. */
  function FooterLoop<V>(i: int, totalCompanyPages: int, currentPage: int): (footers: seq<Event<V>>)
    ensures AllFooters(footers, currentPage, totalCompanyPages)
    ensures i > totalCompanyPages ==> |footers| == 0
    decreases totalCompanyPages + 1 - i
  {
    if i > totalCompanyPages then []
    else
      var currentCompanyPage := FooterNumber(i, totalCompanyPages, currentPage);
      (if currentCompanyPage == currentPage then [Footer(currentCompanyPage, totalCompanyPages)] else [])
      + FooterLoop(i + 1, totalCompanyPages, currentPage)
  }

  /** From any start index of at least 1, the loop writes at most one
      footer, `Page currentPage of total`: at index `total - 1` when there
      are several pages, at index 1 when there is one. A start index past
      `total - 1` loses the footer of a multi-page company. */
  lemma {:induction false} FooterLoopWrites<V>(i: int, total: int, currentPage: int)
    requires i >= 1
    ensures FooterLoop<V>(i, total, currentPage) ==
      if total >= 2 && i <= total - 1 then [Footer(currentPage, total)]
      else if total == 1 && i == 1 && currentPage == 1 then [Footer(1, 1)]
      else []
    decreases total + 1 - i
  {
    if i <= total {
      FooterLoopWrites<V>(i + 1, total, currentPage);
    }
  }

  /** With the start index 1 that every company gets, the k-th page of a
      company gets exactly the one footer `Page k of total`. */
  lemma OneFooterPerPage<V>(total: int, k: int)
    requires 1 <= k <= total
    ensures FooterLoop<V>(1, total, k) == [Footer(k, total)]
  {
    FooterLoopWrites<V>(1, total, k);
  }

  // ------------------------------------------------------- the page loop

  /** Document-wide state: `totalPages`, and how many tables have been drawn
      (which selects the renderer's next page-count report). */
  datatype Doc = Doc(totalPages: int, draws: nat)

  /** What a company's loop leaves behind: the calls it made and the state. */
  datatype Run<V> = Run(events: seq<Event<V>>, doc: Doc)

  /** The per-company constants of the loop. */
  datatype Job<V> = Job(
    index: nat,
    isLast: bool,
    columns: seq<Column>,
    rows: seq<Row<V>>,
    startPage: int)

  /** The `while (rowIndex < totalRows)` loop. `reported(d)` is the
      renderer's `bufferedPageRange().count` after the document's d-th table
      draw (counting from 0); it feeds `totalPages` and nothing else. */
  function ChunkLoop<V>(job: Job<V>, rowIndex: nat, currentPage: int, doc: Doc, reported: nat -> nat): (run: Run<V>)
    ensures run.doc.draws == doc.draws + |ChunksFrom(job.rows, rowIndex)|
    // the last slice of a company that is not the last one resets the counter
    ensures rowIndex < |job.rows| && !job.isLast ==> run.doc.totalPages == 0
    ensures rowIndex >= |job.rows| ==> run == Run([], doc)
    decreases |job.rows| - rowIndex
  {
    if rowIndex >= |job.rows| then Run([], doc)
    else
      var chunk := PageSlice(job.rows, rowIndex);
      var endPage := doc.totalPages + reported(doc.draws);
      var drawn := Doc(endPage, doc.draws + 1);
      var totalCompanyPages := PageCount(|job.rows|);
      var footers := FooterLoop(job.startPage, totalCompanyPages, currentPage);
      var next := rowIndex + RowsPerPage;
      var page := [Table(job.columns, chunk)] + footers;
      if next < |job.rows| || !job.isLast then
        if next < |job.rows| then
          var rest := ChunkLoop(job, next, currentPage + 1, drawn, reported);
          Run(page + [AddPage, Header(job.index)] + rest.events, rest.doc)
        else
          var rest := ChunkLoop(job, next, 1, Doc(0, drawn.draws), reported);
          Run(page + [AddPage] + rest.events, rest.doc)
      else
        var rest := ChunkLoop(job, next, currentPage, drawn, reported);
        Run(page + rest.events, rest.doc)
  }

  /** How generation ends: the calls made, or the exception that
      `Object.keys(undefined)` throws for a company without orders. */
  datatype Outcome<V> = Drawn(events: seq<Event<V>>) | Threw

  /** True when every company from `index` on has at least one order. */
  predicate AllHaveOrders<V>(companies: seq<Company<V>>, index: nat) {
    forall i :: index <= i < |companies| ==> |companies[i].serviceOrder| > 0
  }

  /** `companyData.forEach(...)` from the company at `index` on. */
  function CompanyLoop<V>(companies: seq<Company<V>>, index: nat, doc: Doc, reported: nat -> nat): (out: Outcome<V>)
    ensures out.Threw? <==> !AllHaveOrders(companies, index)
    decreases |companies| - index
  {
    if index >= |companies| then Drawn([])
    else
      var company := companies[index];
      var isLast := index == |companies| - 1;
      var currentPage := 1;
      var startPage := doc.totalPages + 1;
      if |company.serviceOrder| == 0 then Threw
      else
        var columns := HeaderSpecs(Keys(company.serviceOrder[0]));
        var rows := Rows(company.serviceOrder);
        var run := ChunkLoop(Job(index, isLast, columns, rows, startPage), 0, currentPage, doc, reported);
        match CompanyLoop(companies, index + 1, run.doc, reported)
        case Threw => Threw
        case Drawn(more) => Drawn([Header(index)] + run.events + more)
  }

  /** `addTable(companyData)` on a fresh document. */
  function Generate<V>(companies: seq<Company<V>>, reported: nat -> nat): (out: Outcome<V>)
    ensures out.Threw? <==> exists i :: 0 <= i < |companies| && |companies[i].serviceOrder| == 0
  {
    CompanyLoop(companies, 0, Doc(0, 0), reported)
  }
}
