/** The intended page layout of a report, stated without the loop counters,
    and the proof that the pagination loop produces it for every renderer
    page-count report. */
module Layout {
  import opened Columns
  import opened Chunking
  import opened Paginator

  /** What a company's pages should hold, from its `k`-th page on: each slice
      as one table under the footer `Page k of total`, followed by a new page
      with the header again while slices remain, a bare new page after the
      last slice unless this is the last company, and nothing after the last
      slice of the last company. */
  function PagesLayout<V>(index: nat, isLast: bool, columns: seq<Column>, chunks: seq<seq<Row<V>>>, k: int, total: int): seq<Event<V>>
    decreases |chunks|
  {
    if |chunks| == 0 then []
    else
      [Table(columns, chunks[0]), Footer(k, total)]
      + Advance(index, |chunks| > 1, isLast)
      + PagesLayout(index, isLast, columns, chunks[1..], k + 1, total)
  }

  /** What the report should draw for one company: its position, whether
      it is the last one, its columns and its slices. */
  datatype Plan<V> = Plan(index: nat, isLast: bool, columns: seq<Column>, chunks: seq<seq<Row<V>>>)

  /** The plan of the company at `index`. */
  function PlanFor<V>(companies: seq<Company<V>>, index: nat): (p: Plan<V>)
    requires index < |companies| && |companies[index].serviceOrder| > 0
    ensures p.index == index && (p.isLast <==> index == |companies| - 1)
    ensures |p.chunks| == PageCount(|companies[index].serviceOrder|) && |p.chunks| > 0
  {
    var orders := companies[index].serviceOrder;
    ChunksCount(Rows(orders), 0);
    Plan(index, index == |companies| - 1, HeaderSpecs(Keys(orders[0])), Chunks(Rows(orders)))
  }

  /** The plans of all companies, in input order. */
  function Plans<V>(companies: seq<Company<V>>): (plans: seq<Plan<V>>)
    requires AllHaveOrders(companies, 0)
    ensures |plans| == |companies|
    ensures forall i :: 0 <= i < |companies| ==> plans[i] == PlanFor(companies, i)
  {
    seq(|companies|, i requires 0 <= i < |companies| => PlanFor(companies, i))
  }

  /** What follows a page: a new page with the header again while the
      company has more slices, a bare new page after its last slice unless
      it is the last company, nothing otherwise. */
  function Advance<V>(index: nat, more: bool, isLast: bool): seq<Event<V>> {
    if more then [AddPage, Header(index)] else if isLast then [] else [AddPage]
  }

  /** A company's part of the report: its header, then its pages numbered
      1 to the number of its slices. */
  function CompanyLayout<V>(plan: Plan<V>): seq<Event<V>> {
    [Header(plan.index)] + PagesLayout(plan.index, plan.isLast, plan.columns, plan.chunks, 1, |plan.chunks|)
  }

  /** The companies' parts one after the other. */
  function LayoutOf<V>(plans: seq<Plan<V>>): seq<Event<V>> {
    if |plans| == 0 then [] else CompanyLayout(plans[0]) + LayoutOf(plans[1..])
  }

  /** The whole report. */
  function DocumentLayout<V>(companies: seq<Company<V>>): seq<Event<V>>
    requires AllHaveOrders(companies, 0)
  {
    LayoutOf(Plans(companies))
  }

  // ------------------------------------------------- loop meets layout

  /** One turn of the page loop for page `k` of a company whose
      `startPage` is 1: a table of the next slice, its one footer
      `Page k of T`, the page advance, and the rest of the loop while rows
      remain. */
  lemma ChunkLoopStep<V>(job: Job<V>, rowIndex: nat, k: int, doc: Doc, reported: nat -> nat)
    requires job.startPage == 1 && rowIndex < |job.rows|
    requires 1 <= k <= PageCount(|job.rows|)
    ensures var next := rowIndex + RowsPerPage;
      var more := next < |job.rows|;
      var drawn := Doc(doc.totalPages + reported(doc.draws), doc.draws + 1);
      ChunkLoop(job, rowIndex, k, doc, reported).events
        == [Table(job.columns, PageSlice(job.rows, rowIndex)), Footer(k, PageCount(|job.rows|))]
          + Advance(job.index, more, job.isLast)
          + (if more then ChunkLoop(job, next, k + 1, drawn, reported).events else [])
  {
    var total := PageCount(|job.rows|);
    var next := rowIndex + RowsPerPage;
    var drawn := Doc(doc.totalPages + reported(doc.draws), doc.draws + 1);
    var page: seq<Event<V>> := [Table(job.columns, PageSlice(job.rows, rowIndex))] + FooterLoop(job.startPage, total, k);
    OneFooterPerPage<V>(total, k);
    assert page == [Table(job.columns, PageSlice(job.rows, rowIndex)), Footer(k, total)];
    var events := ChunkLoop(job, rowIndex, k, doc, reported).events;
    if next < |job.rows| {
      assert events == page + [AddPage, Header(job.index)] + ChunkLoop(job, next, k + 1, drawn, reported).events;
    } else if !job.isLast {
      assert ChunkLoop(job, next, 1, Doc(0, drawn.draws), reported).events == [];
      assert events == page + [AddPage] + [];
    } else {
      assert ChunkLoop(job, next, k, drawn, reported).events == [];
      assert events == page + [];
    }
  }

  /** The layout of a first slice followed by the rest. */
  lemma PagesLayoutCons<V>(index: nat, isLast: bool, columns: seq<Column>, chunk: seq<Row<V>>, rest: seq<seq<Row<V>>>, k: int, total: int)
    ensures PagesLayout(index, isLast, columns, [chunk] + rest, k, total)
      == [Table(columns, chunk), Footer(k, total)] + Advance(index, |rest| > 0, isLast)
        + PagesLayout(index, isLast, columns, rest, k + 1, total)
  {
    assert ([chunk] + rest)[1..] == rest;
  }

  /** While `startPage` is 1 and `currentPage` is the 1-based number of the
      slice at `rowIndex`, the page loop draws exactly the layout. */
  lemma {:induction false} ChunkLoopFollowsLayout<V>(job: Job<V>, rowIndex: nat, k: int, doc: Doc, reported: nat -> nat)
    requires job.startPage == 1
    requires k >= 1 && rowIndex == RowsPerPage * (k - 1)
    ensures ChunkLoop(job, rowIndex, k, doc, reported).events
      == PagesLayout(job.index, job.isLast, job.columns, ChunksFrom(job.rows, rowIndex), k, PageCount(|job.rows|))
    decreases |job.rows| - rowIndex
  {
    if rowIndex < |job.rows| {
      var next := rowIndex + RowsPerPage;
      var rest := ChunksFrom(job.rows, next);
      ChunksFromStep(job.rows, rowIndex);
      PagesLayoutCons(job.index, job.isLast, job.columns, PageSlice(job.rows, rowIndex), rest, k, PageCount(|job.rows|));
      ChunkLoopStep(job, rowIndex, k, doc, reported);
      if next < |job.rows| {
        ChunkLoopFollowsLayout(job, next, k + 1, Doc(doc.totalPages + reported(doc.draws), doc.draws + 1), reported);
      }
    }
  }

  /** Every company starts with `totalPages` at 0, so its `startPage` is 1,
      and the company loop draws exactly the layout of the remaining plans. */
  lemma {:induction false} CompanyLoopFollowsLayout<V>(companies: seq<Company<V>>, index: nat, doc: Doc, reported: nat -> nat)
    requires AllHaveOrders(companies, 0) && index <= |companies| && doc.totalPages == 0
    ensures CompanyLoop(companies, index, doc, reported) == Drawn(LayoutOf(Plans(companies)[index..]))
    decreases |companies| - index
  {
    var plans := Plans(companies);
    if index < |companies| {
      var orders := companies[index].serviceOrder;
      var isLast := index == |companies| - 1;
      var job := Job(index, isLast, HeaderSpecs(Keys(orders[0])), Rows(orders), doc.totalPages + 1);
      var run := ChunkLoop(job, 0, 1, doc, reported);
      ChunkLoopFollowsLayout(job, 0, 1, doc, reported);
      ChunksCount(job.rows, 0);
      assert plans[index..][1..] == plans[index + 1..];
      if !isLast {
        CompanyLoopFollowsLayout(companies, index + 1, run.doc, reported);
      } else {
        assert plans[index + 1..] == [];
      }
    } else {
      assert plans[index..] == [];
    }
  }

  /** The report drawn for companies that all have orders is the layout. */
  lemma GenerateFollowsLayout<V>(companies: seq<Company<V>>, reported: nat -> nat)
    requires AllHaveOrders(companies, 0)
    ensures Generate(companies, reported) == Drawn(DocumentLayout(companies))
  {
    CompanyLoopFollowsLayout(companies, 0, Doc(0, 0), reported);
    assert Plans(companies)[0..] == Plans(companies);
  }

  /** What the renderer reports about its buffered pages never changes what
      is drawn. */
  lemma RendererCountIrrelevant<V>(companies: seq<Company<V>>, reported1: nat -> nat, reported2: nat -> nat)
    ensures Generate(companies, reported1) == Generate(companies, reported2)
  {
    if AllHaveOrders(companies, 0) {
      GenerateFollowsLayout(companies, reported1);
      GenerateFollowsLayout(companies, reported2);
    }
  }

  // ------------------------------------------------- counting the layout

  /** Only the footers of a trace, in order. */
  function FootersOf<V>(events: seq<Event<V>>): (r: seq<Event<V>>)
    ensures forall j :: 0 <= j < |r| ==> r[j].Footer?
  {
    if |events| == 0 then []
    else (if events[0].Footer? then [events[0]] else []) + FootersOf(events[1..])
  }

  lemma {:induction false} FootersOfAppend<V>(a: seq<Event<V>>, b: seq<Event<V>>)
    ensures FootersOf(a + b) == FootersOf(a) + FootersOf(b)
    decreases |a|
  {
    if |a| == 0 {
      assert a + b == b;
    } else {
      FootersOfAppend(a[1..], b);
      assert (a + b)[1..] == a[1..] + b;
    }
  }

  lemma AdvanceHasNoFooter<V>(index: nat, more: bool, isLast: bool)
    ensures FootersOf(Advance<V>(index, more, isLast)) == []
  {
    var adv := Advance<V>(index, more, isLast);
    if more {
      var h: seq<Event<V>> := [Header(index)];
      assert h[1..] == [];
      assert FootersOf(h) == [];
      assert adv[1..] == h;
    } else if !isLast {
      assert adv[1..] == [];
    }
  }

  /** From page `k` on, the footers read `Page k of total`,
      `Page k+1 of total`, ... one per slice, in page order. */
  lemma {:induction false} PagesFooters<V>(index: nat, isLast: bool, columns: seq<Column>, chunks: seq<seq<Row<V>>>, k: int, total: int)
    ensures FootersOf(PagesLayout(index, isLast, columns, chunks, k, total))
      == seq(|chunks|, j => Footer(k + j, total))
    decreases |chunks|
  {
    if |chunks| > 0 {
      var rest := chunks[1..];
      var page: seq<Event<V>> := [Table(columns, chunks[0]), Footer(k, total)] + Advance<V>(index, |rest| > 0, isLast);
      var layoutRest := PagesLayout(index, isLast, columns, rest, k + 1, total);
      assert chunks == [chunks[0]] + rest;
      PagesLayoutCons(index, isLast, columns, chunks[0], rest, k, total);
      PagesFooters(index, isLast, columns, rest, k + 1, total);
      FootersOfAppend(page, layoutRest);
      PageHasOneFooter<V>(index, |rest| > 0, isLast, columns, chunks[0], k, total);
      var tail: seq<Event<V>> := seq(|rest|, j => Footer(k + 1 + j, total));
      var all: seq<Event<V>> := seq(|chunks|, j => Footer(k + j, total));
      assert [Footer(k, total)] + tail == all;
    }
  }

  /** One slice's page and the advance after it carry exactly its footer. */
  lemma PageHasOneFooter<V>(index: nat, more: bool, isLast: bool, columns: seq<Column>, chunk: seq<Row<V>>, k: int, total: int)
    ensures FootersOf([Table(columns, chunk), Footer(k, total)] + Advance<V>(index, more, isLast)) == [Footer(k, total)]
  {
    var head: seq<Event<V>> := [Table(columns, chunk), Footer(k, total)];
    FootersOfAppend(head, Advance<V>(index, more, isLast));
    AdvanceHasNoFooter<V>(index, more, isLast);
    assert FootersOf(head) == [Footer(k, total)] by {
      assert head[1..] == [Footer(k, total)];
      assert head[1..][1..] == [];
    }
  }

  /** Each company's footers are exactly `Page 1 of T` ... `Page T of T`,
      with T = ceil(n / 5) for its n orders. */
  lemma CompanyFooters<V>(companies: seq<Company<V>>, index: nat)
    requires index < |companies| && |companies[index].serviceOrder| > 0
    ensures var total := PageCount(|companies[index].serviceOrder|);
      FootersOf(CompanyLayout(PlanFor(companies, index))) == seq(total, j => Footer(j + 1, total))
  {
    var p := PlanFor(companies, index);
    PagesFooters(p.index, p.isLast, p.columns, p.chunks, 1, |p.chunks|);
    FootersOfAppend([Header(p.index)], PagesLayout(p.index, p.isLast, p.columns, p.chunks, 1, |p.chunks|));
    assert FootersOf<V>([Header(index)]) == [];
  }

  /** Counts of headers and new pages from page `k` on: one header less
      than there are slices (the first is drawn before the loop), and a new
      page after every slice but the last, plus one after the last unless
      this is the last company. */
  lemma {:induction false} PagesCounts<V>(index: nat, isLast: bool, columns: seq<Column>, chunks: seq<seq<Row<V>>>, k: int, total: int, c: nat)
    requires |chunks| > 0
    ensures var events := PagesLayout(index, isLast, columns, chunks, k, total);
      multiset(events)[Header(c)] == (if c == index then |chunks| - 1 else 0)
      && multiset(events)[AddPage] == |chunks| - 1 + (if isLast then 0 else 1)
    decreases |chunks|
  {
    var rest := chunks[1..];
    var head: seq<Event<V>> := [Table(columns, chunks[0]), Footer(k, total)];
    var advance := Advance<V>(index, |rest| > 0, isLast);
    assert chunks == [chunks[0]] + rest;
    PagesLayoutCons(index, isLast, columns, chunks[0], rest, k, total);
    var events := PagesLayout(index, isLast, columns, chunks, k, total);
    var tail := PagesLayout(index, isLast, columns, rest, k + 1, total);
    assert multiset(events) == multiset(head) + multiset(advance) + multiset(tail);
    if |rest| > 0 {
      PagesCounts(index, isLast, columns, rest, k + 1, total, c);
    } else {
      assert tail == [];
    }
  }

  /** A well-formed run of plans: consecutive company indices from `start`,
      each with at least one slice, and only the final one marked last. */
  predicate WellFormedPlans<V>(plans: seq<Plan<V>>, start: nat) {
    forall i :: 0 <= i < |plans| ==>
      plans[i].index == start + i && |plans[i].chunks| > 0 && (plans[i].isLast <==> i == |plans| - 1)
  }

  lemma WellFormedTail<V>(plans: seq<Plan<V>>, start: nat)
    requires WellFormedPlans(plans, start) && |plans| > 0
    ensures WellFormedPlans(plans[1..], start + 1)
  {
    forall i | 0 <= i < |plans[1..]|
      ensures plans[1..][i].index == start + 1 + i && |plans[1..][i].chunks| > 0
        && (plans[1..][i].isLast <==> i == |plans[1..]| - 1)
    {
      assert plans[1..][i] == plans[i + 1];
    }
  }

  /** A company draws its own header once per slice, and a new page after
      each slice except the last slice of the last company. */
  lemma CompanyCounts<V>(plan: Plan<V>, c: nat)
    requires |plan.chunks| > 0
    ensures multiset(CompanyLayout(plan))[Header(c)] == if c == plan.index then |plan.chunks| else 0
    ensures multiset(CompanyLayout(plan))[AddPage] == |plan.chunks| - (if plan.isLast then 1 else 0)
  {
    PagesCounts(plan.index, plan.isLast, plan.columns, plan.chunks, 1, |plan.chunks|, c);
  }

  lemma LayoutCountSplit<V>(plans: seq<Plan<V>>, e: Event<V>)
    requires |plans| > 0
    ensures multiset(LayoutOf(plans))[e] == multiset(CompanyLayout(plans[0]))[e] + multiset(LayoutOf(plans[1..]))[e]
  {
    assert LayoutOf(plans) == CompanyLayout(plans[0]) + LayoutOf(plans[1..]);
  }

  /** Total slices over a run of plans. */
  function ChunkTotal<V>(plans: seq<Plan<V>>): nat {
    if |plans| == 0 then 0 else |plans[0].chunks| + ChunkTotal(plans[1..])
  }

  /** Each company's header is drawn once per slice of that company, and no
      other header is drawn. */
  lemma {:induction false} LayoutHeaders<V>(plans: seq<Plan<V>>, start: nat, c: nat)
    requires WellFormedPlans(plans, start)
    ensures multiset(LayoutOf(plans))[Header(c)]
      == if start <= c < start + |plans| then |plans[c - start].chunks| else 0
    decreases |plans|
  {
    if |plans| > 0 {
      var tail := plans[1..];
      WellFormedTail(plans, start);
      LayoutHeaders(tail, start + 1, c);
      CompanyCounts(plans[0], c);
      LayoutCountSplit(plans, Header(c));
      if start + 1 <= c < start + |plans| {
        assert tail[c - (start + 1)] == plans[c - start];
      }
    }
  }

  /** A new page follows every slice except the very last one. */
  lemma {:induction false} LayoutNewPages<V>(plans: seq<Plan<V>>, start: nat)
    requires WellFormedPlans(plans, start) && |plans| > 0
    ensures multiset(LayoutOf(plans))[AddPage] == ChunkTotal(plans) - 1
    decreases |plans|
  {
    CompanyCounts(plans[0], 0);
    LayoutCountSplit(plans, AddPage);
    if |plans| > 1 {
      WellFormedTail(plans, start);
      LayoutNewPages(plans[1..], start + 1);
    } else {
      assert plans[1..] == [];
    }
  }

  /** The report ends with the final footer of the last company, never with
      a new page. */
  lemma {:induction false} LayoutEndsWithFooter<V>(plans: seq<Plan<V>>, start: nat)
    requires WellFormedPlans(plans, start) && |plans| > 0
    ensures var events := LayoutOf(plans);
      var total := |plans[|plans| - 1].chunks|;
      |events| > 0 && events[|events| - 1] == Footer(total, total)
    decreases |plans|
  {
    var p := plans[0];
    if |plans| > 1 {
      WellFormedTail(plans, start);
      LayoutEndsWithFooter(plans[1..], start + 1);
    } else {
      PagesEndWithFooter(p.index, p.columns, p.chunks, 1, |p.chunks|);
      assert plans[1..] == [];
    }
  }

  /** The pages of the last company end with the footer of its last page. */
  lemma {:induction false} PagesEndWithFooter<V>(index: nat, columns: seq<Column>, chunks: seq<seq<Row<V>>>, k: int, total: int)
    requires |chunks| > 0
    ensures var events := PagesLayout(index, true, columns, chunks, k, total);
      |events| > 0 && events[|events| - 1] == Footer(k + |chunks| - 1, total)
    decreases |chunks|
  {
    if |chunks| > 1 {
      PagesEndWithFooter(index, columns, chunks[1..], k + 1, total);
    } else {
      assert chunks[1..] == [];
    }
  }

  // ------------------------------------------- the report as a whole

  /** Total pages ceil(n / 5) over the companies from `index` on. */
  function TotalPages<V>(companies: seq<Company<V>>, index: nat): nat
    decreases |companies| - index
  {
    if index >= |companies| then 0
    else PageCount(|companies[index].serviceOrder|) + TotalPages(companies, index + 1)
  }

  lemma {:induction false} PlansWellFormed<V>(companies: seq<Company<V>>, index: nat)
    requires AllHaveOrders(companies, 0) && index <= |companies|
    ensures WellFormedPlans(Plans(companies)[index..], index)
    ensures ChunkTotal(Plans(companies)[index..]) == TotalPages(companies, index)
    decreases |companies| - index
  {
    var plans := Plans(companies)[index..];
    if index < |companies| {
      PlansWellFormed(companies, index + 1);
      assert plans[1..] == Plans(companies)[index + 1..];
    } else {
      assert plans == [];
    }
  }

  lemma AllPlansWellFormed<V>(companies: seq<Company<V>>)
    requires AllHaveOrders(companies, 0)
    ensures WellFormedPlans(Plans(companies), 0)
    ensures ChunkTotal(Plans(companies)) == TotalPages(companies, 0)
  {
    PlansWellFormed(companies, 0);
    assert Plans(companies)[0..] == Plans(companies);
  }

  /** In the report, company `c` gets its header ceil(n / 5) times, once
      per page, and no header belongs to a company that does not exist. */
  lemma DocumentHeaders<V>(companies: seq<Company<V>>, c: nat)
    requires AllHaveOrders(companies, 0)
    ensures multiset(DocumentLayout(companies))[Header(c)]
      == if c < |companies| then PageCount(|companies[c].serviceOrder|) else 0
  {
    var plans := Plans(companies);
    AllPlansWellFormed(companies);
    LayoutHeaders(plans, 0, c);
    var count := if c < |companies| then PageCount(|companies[c].serviceOrder|) else 0;
    assert (if 0 <= c < |plans| then |plans[c].chunks| else 0) == count;
    assert DocumentLayout(companies) == LayoutOf(plans);
  }

  /** The report starts a new page after every page but its last: one new
      page fewer than pages in all. */
  lemma DocumentNewPages<V>(companies: seq<Company<V>>)
    requires AllHaveOrders(companies, 0) && |companies| > 0
    ensures multiset(DocumentLayout(companies))[AddPage] == TotalPages(companies, 0) - 1
  {
    AllPlansWellFormed(companies);
    LayoutNewPages(Plans(companies), 0);
  }

  /** The report ends with the last company's `Page T of T` footer. */
  lemma DocumentEndsWithFooter<V>(companies: seq<Company<V>>)
    requires AllHaveOrders(companies, 0) && |companies| > 0
    ensures var events := DocumentLayout(companies);
      var total := PageCount(|companies[|companies| - 1].serviceOrder|);
      |events| > 0 && events[|events| - 1] == Footer(total, total)
  {
    AllPlansWellFormed(companies);
    LayoutEndsWithFooter(Plans(companies), 0);
  }
}
