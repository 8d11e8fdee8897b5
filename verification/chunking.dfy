/** Splitting a company's rows into the slices drawn one table per page. */
module Chunking {

  /** `ROWS_PER_PAGE`. */
  const RowsPerPage: nat := 5

  /** `Math.ceil(n / ROWS_PER_PAGE)`: the fewest pages of `RowsPerPage`
      rows that hold `n` rows. */
  function PageCount(n: nat): (pages: nat)
    ensures RowsPerPage * (pages - 1) < n <= RowsPerPage * pages
  {
    (n + RowsPerPage - 1) / RowsPerPage
  }

  /** The slice drawn when `rowIndex` rows are already drawn: the next
      `RowsPerPage` rows, or all remaining ones when fewer are left. */
  function PageSlice<R>(rows: seq<R>, rowIndex: nat): (chunk: seq<R>)
    requires rowIndex < |rows|
    ensures 1 <= |chunk| <= RowsPerPage
    ensures rowIndex + |chunk| <= |rows| && chunk == rows[rowIndex..rowIndex + |chunk|]
    ensures |chunk| < RowsPerPage ==> rowIndex + |chunk| == |rows|
  {
    var remainingRows := |rows| - rowIndex;
    var rowsOnPage := if remainingRows >= RowsPerPage then RowsPerPage else remainingRows;
    rows[rowIndex..rowIndex + rowsOnPage]
  }

  /** The slices from `rowIndex` on, advancing `RowsPerPage` rows each time
      until the rows run out. */
  function ChunksFrom<R>(rows: seq<R>, rowIndex: nat): (chunks: seq<seq<R>>)
    ensures rowIndex <= |rows| ==> |chunks| == PageCount(|rows| - rowIndex)
    decreases |rows| - rowIndex
  {
    if rowIndex >= |rows| then []
    else [PageSlice(rows, rowIndex)] + ChunksFrom(rows, rowIndex + RowsPerPage)
  }

  /** The slices from `rowIndex` on: the next slice, then the ones after
      it; there are more exactly when rows remain past it. */
  lemma ChunksFromStep<R>(rows: seq<R>, rowIndex: nat)
    requires rowIndex < |rows|
    ensures ChunksFrom(rows, rowIndex) == [PageSlice(rows, rowIndex)] + ChunksFrom(rows, rowIndex + RowsPerPage)
    ensures |ChunksFrom(rows, rowIndex + RowsPerPage)| > 0 <==> rowIndex + RowsPerPage < |rows|
  {
  }

  /** All of a company's slices. */
  function Chunks<R>(rows: seq<R>): seq<seq<R>> {
    ChunksFrom(rows, 0)
  }

  function Concat<R>(chunks: seq<seq<R>>): seq<R> {
    if |chunks| == 0 then [] else chunks[0] + Concat(chunks[1..])
  }

  /** The shape a paging of rows must have: every slice holds 1 to
      `RowsPerPage` rows and every slice but the last is full. */
  predicate WellSized<R>(chunks: seq<seq<R>>) {
    forall j :: 0 <= j < |chunks| ==>
      1 <= |chunks[j]| <= RowsPerPage && (j < |chunks| - 1 ==> |chunks[j]| == RowsPerPage)
  }

  /** Concatenating the slices in order gives back exactly the rows: none is
      dropped, repeated or moved. */
  lemma {:induction false} ChunksConcat<R>(rows: seq<R>, rowIndex: nat)
    requires rowIndex <= |rows|
    ensures Concat(ChunksFrom(rows, rowIndex)) == rows[rowIndex..]
    decreases |rows| - rowIndex
  {
    if rowIndex < |rows| {
      var chunk := PageSlice(rows, rowIndex);
      var next := rowIndex + RowsPerPage;
      var cs := ChunksFrom(rows, rowIndex);
      assert cs[0] == chunk && cs[1..] == ChunksFrom(rows, next);
      if next <= |rows| {
        ChunksConcat(rows, next);
        assert rows[rowIndex..] == chunk + rows[next..];
      } else {
        assert ChunksFrom(rows, next) == [];
        assert rows[rowIndex..] == chunk;
      }
    }
  }

  /** Every slice holds 1 to 5 rows and every slice but the last holds 5. */
  lemma {:induction false} ChunksWellSized<R>(rows: seq<R>, rowIndex: nat)
    ensures WellSized(ChunksFrom(rows, rowIndex))
    decreases |rows| - rowIndex
  {
    if rowIndex < |rows| {
      var cs := ChunksFrom(rows, rowIndex);
      var next := rowIndex + RowsPerPage;
      ChunksWellSized(rows, next);
      assert cs[1..] == ChunksFrom(rows, next);
      if |cs| > 1 {
        assert next < |rows|;
      }
      forall j | 0 <= j < |cs|
        ensures 1 <= |cs[j]| <= RowsPerPage && (j < |cs| - 1 ==> |cs[j]| == RowsPerPage)
      {
        if j > 0 { assert cs[j] == cs[1..][j - 1]; }
      }
    }
  }

  /** There are `ceil(n / 5)` slices for `n` rows. */
  lemma {:induction false} ChunksCount<R>(rows: seq<R>, rowIndex: nat)
    requires rowIndex <= |rows|
    ensures |ChunksFrom(rows, rowIndex)| == PageCount(|rows| - rowIndex)
    decreases |rows| - rowIndex
  {
    if rowIndex < |rows| {
      var next := rowIndex + RowsPerPage;
      if next <= |rows| {
        ChunksCount(rows, next);
      }
    }
  }

  /** The paging is the only one of its shape: any well-sized split of the
      rows that concatenates back to them is exactly `Chunks(rows)`. */
  lemma {:induction false} ChunksUnique<R>(rows: seq<R>, rowIndex: nat, chunks: seq<seq<R>>)
    requires rowIndex <= |rows|
    requires WellSized(chunks) && Concat(chunks) == rows[rowIndex..]
    ensures chunks == ChunksFrom(rows, rowIndex)
    decreases |chunks|
  {
    if |chunks| == 0 {
      assert |rows[rowIndex..]| == 0;
    } else {
      var c := chunks[0];
      var next := rowIndex + |c|;
      assert rows[rowIndex..] == c + Concat(chunks[1..]);
      assert c == rows[rowIndex..next];
      assert Concat(chunks[1..]) == rows[next..];
      assert WellSized(chunks[1..]) by {
        forall j | 0 <= j < |chunks[1..]|
          ensures 1 <= |chunks[1..][j]| <= RowsPerPage
            && (j < |chunks[1..]| - 1 ==> |chunks[1..][j]| == RowsPerPage)
        {
          assert chunks[1..][j] == chunks[j + 1];
        }
      }
      ChunksUnique(rows, next, chunks[1..]);
      if |c| < RowsPerPage {
        assert |chunks| == 1;
        assert next == |rows|;
      }
      assert c == PageSlice(rows, rowIndex);
      if next < rowIndex + RowsPerPage {
        assert ChunksFrom(rows, next) == [] && ChunksFrom(rows, rowIndex + RowsPerPage) == [];
      }
    }
  }

  /** The three partition facts for a whole company. */
  lemma ChunksPartition<R>(rows: seq<R>)
    ensures Concat(Chunks(rows)) == rows
    ensures WellSized(Chunks(rows))
    ensures |Chunks(rows)| == PageCount(|rows|)
  {
    ChunksConcat(rows, 0);
    ChunksWellSized(rows, 0);
    ChunksCount(rows, 0);
  }
}
