/** Filling a stretch of the table from the REST server, one validated chunk at a time. */
module Backfill {
  import opened Market
  import opened Aggregation
  import opened AggregationLaws
  import opened BarTable
  import opened Pagination
  import opened Ranges

  datatype BackfillError = BadChunks(chunks: ChunkError) | BadPage(page: FetchError) | BadSlice(slice: SliceError)

  // ----- Runs of minutes ----------------------------------------------------------------------

  lemma FillsJoin(a: seq<Bar>, b: seq<Bar>, lo: int, mid: int, hi: int)
    requires Fills(a, lo, mid) && Fills(b, mid, hi)
    ensures Fills(a + b, lo, hi)
  {
    var m, n := (mid - lo) / MINUTE, (hi - mid) / MINUTE;
    assert hi - lo == MINUTE * (m + n);
    forall i | 0 <= i < m + n
      ensures (a + b)[i].time == lo + MINUTE * i
    {
      if i >= m {
        assert (a + b)[i] == b[i - m];
      }
    }
  }

  lemma PartOfConsecutive(series: seq<Bar>, lo: int, k: nat, m: nat, n: nat)
    requires TimeOrdered(series)
    requires Consecutive(Between(series, lo, lo + MINUTE * (k + m + n)), lo, k + m + n)
    ensures Consecutive(Between(series, lo + MINUTE * k, lo + MINUTE * (k + m)), lo + MINUTE * k, m)
  {
    var p, q, hi := lo + MINUTE * k, lo + MINUTE * (k + m), lo + MINUTE * (k + m + n);
    BetweenSplits(series, lo, p, hi);
    BetweenSplits(series, p, q, hi);
    ConsecutiveSplits(Between(series, lo, p), Between(series, p, hi), lo, k, m + n);
    ConsecutiveSplits(Between(series, p, q), Between(series, q, hi), p, m, n);
  }

  lemma MinutesBetween(lo: int, hi: int)
    requires lo <= hi && (hi - lo) % MINUTE == 0
    ensures hi == lo + MINUTE * ((hi - lo) / MINUTE) && 0 <= (hi - lo) / MINUTE
  {
  }

  /** A part of a full stretch, cut on minutes, is full. */
  lemma FillsPart(series: seq<Bar>, lo: int, p: int, q: int, hi: int)
    requires TimeOrdered(series) && lo <= p <= q <= hi
    requires (p - lo) % MINUTE == 0 && (q - p) % MINUTE == 0
    requires Fills(Between(series, lo, hi), lo, hi)
    ensures Fills(Between(series, p, q), p, q)
  {
    MinutesBetween(lo, p);
    MinutesBetween(p, q);
    MinutesBetween(lo, hi);
    var k, m := (p - lo) / MINUTE, (q - p) / MINUTE;
    PartOfConsecutive(series, lo, k, m, (hi - lo) / MINUTE - k - m);
  }

  lemma FirstAfterLast(near: seq<Bar>, after: seq<Bar>)
    requires Spaced(near + after, MINUTE) && near != []
    ensures after != [] ==> near[|near| - 1].time + MINUTE <= after[0].time
  {
    var all := near + after;
    assert after != [] ==> all[|near| - 1].time + MINUTE <= all[|near|].time;
  }

  lemma NoneAfterLast(near: seq<Bar>, after: seq<Bar>, lo: int, last: int)
    requires Fills(near + after, lo, last + MINUTE)
    ensures after != [] ==> after[0].time <= last
  {
    var all := near + after;
    assert after != [] ==> all[|near|].time == lo + MINUTE * |near|;
  }

  /** When the last minute of a stretch is there, the next bar is a minute later. */
  lemma LastMinuteCloses(series: seq<Bar>, lo: int, last: int)
    requires Spaced(series, MINUTE) && lo <= last
    ensures var near, far := Between(series, lo, last + 1), Between(series, lo, last + MINUTE);
      Fills(near, lo, last + MINUTE) || Fills(far, lo, last + MINUTE) ==> near == far
  {
    var near, after := Between(series, lo, last + 1), Between(series, last + 1, last + MINUTE);
    SpacedIsOrdered(series, MINUTE);
    BetweenSplits(series, lo, last + 1, last + MINUTE);
    BetweenSpaced(series, MINUTE, lo, last + MINUTE);
    assert near + [] == near;
    if Fills(near, lo, last + MINUTE) {
      assert near[|near| - 1].time == last;
      FirstAfterLast(near, after);
    } else if Fills(near + after, lo, last + MINUTE) {
      NoneAfterLast(near, after, lo, last);
    }
  }

  // ----- One chunk ----------------------------------------------------------------------------

  /** What an honest server makes of a chunk: it is stored whole exactly when the series
      has every minute of it. */
  ghost predicate HonestChunk(server: Server, series: seq<Bar>, chunk: Chunk, result: Result<seq<Bar>, BackfillError>) {
    Serves(server, series, MINUTE) ==>
      var slice := Between(series, chunk.first, chunk.last + MINUTE);
      if Fills(slice, chunk.first, chunk.last + MINUTE) then result == Ok(slice) else result.Err?
  }

  /** Fetch, validate, store. */
  method BackfillChunk(table: Table, server: Server, chunk: Chunk, ghost series: seq<Bar>)
    returns (result: Result<seq<Bar>, BackfillError>)
    requires table.Valid() && chunk.first <= chunk.last
    modifies table
    ensures table.Valid()
    ensures result.Ok? ==>
      && StoredRun(old(table.rows), table.rows, result.value, chunk.first, chunk.last + MINUTE)
      && AllAnswered(server, result.value)
    ensures result.Err? ==> table.rows == old(table.rows)
    ensures HonestChunk(server, series, chunk, result)
  {
    HonestSlice(server, series, chunk);
    var fetched := FetchHistory(server, MINUTE, chunk.first, chunk.last);
    if fetched.Err? {
      return Err(BadPage(fetched.error));
    }
    HistoryIsAnswered(server, MINUTE, chunk.first, chunk.last);
    var valid := ValidateComplete(fetched.value, chunk.first, chunk.last + MINUTE);
    if valid.Err? {
      return Err(BadSlice(valid.error));
    }
    var written := table.Store(fetched.value);
    return Ok(fetched.value);
  }

  /** An honest server answers for a chunk with what its series has there. */
  lemma HonestSlice(server: Server, series: seq<Bar>, chunk: Chunk)
    requires chunk.first <= chunk.last
    ensures Serves(server, series, MINUTE) ==>
      var near, far := Between(series, chunk.first, chunk.last + 1), Between(series, chunk.first, chunk.last + MINUTE);
      && HistoryFrom(server, MINUTE, chunk.first, chunk.last) == Ok(near)
      && (Fills(near, chunk.first, chunk.last + MINUTE) || Fills(far, chunk.first, chunk.last + MINUTE) ==> near == far)
  {
    if Serves(server, series, MINUTE) {
      LastMinuteCloses(series, chunk.first, chunk.last);
      HonestHistory(server, series, MINUTE, chunk.first, chunk.last);
    }
  }

  // ----- A series of chunks ---------------------------------------------------------------------

  lemma {:induction false} TilesAt(ranges: seq<Range>, lo: int, hi: int, i: nat)
    requires Tiles(ranges, lo, hi) && i < |ranges|
    ensures ranges[i].start == if i == 0 then lo else ranges[i - 1].end
    ensures ranges[|ranges| - 1].end == hi && ranges[i].start < ranges[i].end
  {
    if i < |ranges| - 1 {
      TilesAt(ranges[..|ranges| - 1], lo, ranges[|ranges| - 1].start, i);
    } else if i > 0 {
      TilesAt(ranges[..i], lo, ranges[i].start, i - 1);
    }
  }

  /** Where the first `i` chunks end. */
  function Reached(chunks: seq<Chunk>, start: int, i: nat): int
    requires i <= |chunks|
  {
    if i == 0 then start else chunks[i - 1].last + MINUTE
  }

  lemma ChunkFollows(chunks: seq<Chunk>, start: int, stop: int, i: nat)
    requires Tiles(CandleSpans(chunks, MINUTE), start, stop) && i < |chunks|
    ensures chunks[i].first == Reached(chunks, start, i) && Reached(chunks, start, |chunks|) == stop
  {
    TilesAt(CandleSpans(chunks, MINUTE), start, stop, i);
  }

  /** The table after some chunks: their bars, a full run of minutes, were stored. */
  ghost predicate StoredRun(before: map<int, Bar>, after: map<int, Bar>, stored: seq<Bar>, lo: int, hi: int) {
    Fills(stored, lo, hi) && after == Upserted(before, stored)
  }

  /** After a run is stored the table holds each of its bars. */
  lemma StoredRunHolds(before: map<int, Bar>, after: map<int, Bar>, stored: seq<Bar>, lo: int, hi: int, i: nat)
    requires StoredRun(before, after, stored, lo, hi) && i < |stored|
    ensures stored[i].time in after && after[stored[i].time] == stored[i]
  {
    UpsertedHolds(before, stored, i);
  }

  lemma StoredRunGrows(before: map<int, Bar>, mid: map<int, Bar>, after: map<int, Bar>, stored: seq<Bar>,
                       next: seq<Bar>, lo: int, cut: int, hi: int)
    requires StoredRun(before, mid, stored, lo, cut) && StoredRun(mid, after, next, cut, hi)
    ensures StoredRun(before, after, stored + next, lo, hi)
  {
    FillsJoin(stored, next, lo, cut, hi);
    UpsertedJoin(before, stored, next);
  }

  /** Chunks that an honest server has filled hold its series. */
  ghost predicate HoldsSeries(server: Server, series: seq<Bar>, stored: seq<Bar>, lo: int, hi: int) {
    Serves(server, series, MINUTE) ==> stored == Between(series, lo, hi)
  }

  lemma HoldsMore(server: Server, series: seq<Bar>, stored: seq<Bar>, next: seq<Bar>, lo: int, cut: int, hi: int)
    requires HoldsSeries(server, series, stored, lo, cut) && HoldsSeries(server, series, next, cut, hi)
    requires lo <= cut <= hi
    ensures HoldsSeries(server, series, stored + next, lo, hi)
  {
    if Serves(server, series, MINUTE) {
      SpacedIsOrdered(series, MINUTE);
      BetweenSplits(series, lo, cut, hi);
    }
  }

  lemma ChunkHolds(server: Server, series: seq<Bar>, chunk: Chunk, result: Result<seq<Bar>, BackfillError>)
    requires HonestChunk(server, series, chunk, result) && result.Ok?
    ensures HoldsSeries(server, series, result.value, chunk.first, chunk.last + MINUTE)
  {
  }

  /** The range and the chunk span are whole numbers of minutes. */
  predicate WholeRange(start: int, end: int, span: int) {
    start <= end && MINUTE <= span && (end - start) % MINUTE == 0 && span % MINUTE == 0
  }

  lemma ChunkWithin(chunks: seq<Chunk>, i: nat, start: int, stop: int)
    requires i < |chunks| && Tiles(CandleSpans(chunks, MINUTE), start, stop)
    ensures start <= chunks[i].first < chunks[i].last + MINUTE <= stop
  {
    TilesWithin(CandleSpans(chunks, MINUTE), start, stop);
    assert CandleSpans(chunks, MINUTE)[i] == Range(chunks[i].first, chunks[i].last + MINUTE);
  }

  lemma WholeMinutesApart(first: int, last: int, start: int)
    requires (first - start) % MINUTE == 0 && (last - start) % MINUTE == 0
    ensures (last + MINUTE - first) % MINUTE == 0
  {
  }

  lemma ChunkIsPart(chunks: seq<Chunk>, i: nat, start: int, stop: int)
    requires i < |chunks| && Tiles(CandleSpans(chunks, MINUTE), start, stop) && ChunksOnGrid(chunks, start, MINUTE)
    ensures var first, last := chunks[i].first, chunks[i].last;
      && start <= first < last + MINUTE <= stop
      && (first - start) % MINUTE == 0 && (last + MINUTE - first) % MINUTE == 0
  {
    ChunkWithin(chunks, i, start, stop);
    assert OnGridFrom(chunks[i].first, start, MINUTE) && OnGridFrom(chunks[i].last, start, MINUTE);
    WholeMinutesApart(chunks[i].first, chunks[i].last, start);
  }

  /** With whole minutes, a chunk an honest server cannot fill is a gap of the range. */
  lemma GapInChunk(server: Server, series: seq<Bar>, chunks: seq<Chunk>, i: nat, start: int, stop: int,
                   result: Result<seq<Bar>, BackfillError>)
    requires i < |chunks| && HonestChunk(server, series, chunks[i], result) && result.Err?
    requires Tiles(CandleSpans(chunks, MINUTE), start, stop)
    ensures ErrMeansGap(server, series, chunks, start, stop)
  {
    if ChunksOnGrid(chunks, start, MINUTE) && Serves(server, series, MINUTE) {
      ChunkIsPart(chunks, i, start, stop);
      SpacedIsOrdered(series, MINUTE);
      if Fills(Between(series, start, stop), start, stop) {
        FillsPart(series, start, chunks[i].first, chunks[i].last + MINUTE, stop);
      }
    }
  }

  /** After some chunks: a full run of minutes the server gave is stored, the series' own if
      the server is honest. */
  ghost predicate RunStored(before: map<int, Bar>, after: map<int, Bar>, server: Server, series: seq<Bar>,
                            stored: seq<Bar>, lo: int, hi: int) {
    && StoredRun(before, after, stored, lo, hi)
    && HoldsSeries(server, series, stored, lo, hi)
    && AllAnswered(server, stored)
  }

  lemma NoRunStored(rows: map<int, Bar>, server: Server, series: seq<Bar>, lo: int)
    ensures RunStored(rows, rows, server, series, [], lo, lo)
  {
    NothingBetween(series, lo, lo);
  }

  lemma ChunkStored(before: map<int, Bar>, mid: map<int, Bar>, after: map<int, Bar>, server: Server, series: seq<Bar>,
                    stored: seq<Bar>, chunk: Chunk, result: Result<seq<Bar>, BackfillError>, lo: int, cut: int, hi: int)
    requires cut == chunk.first <= chunk.last && hi == chunk.last + MINUTE
    requires RunStored(before, mid, server, series, stored, lo, cut)
    requires result.Ok? && StoredRun(mid, after, result.value, cut, hi)
    requires HonestChunk(server, series, chunk, result) && AllAnswered(server, result.value)
    ensures RunStored(before, after, server, series, stored + result.value, lo, hi)
  {
    ChunkHolds(server, series, chunk, result);
    StoredRunGrows(before, mid, after, stored, result.value, lo, cut, hi);
    HoldsMore(server, series, stored, result.value, lo, cut, hi);
  }

  lemma ReachedWithin(chunks: seq<Chunk>, start: int, stop: int, i: nat)
    requires Tiles(CandleSpans(chunks, MINUTE), start, stop) && i <= |chunks|
    ensures start <= Reached(chunks, start, i) <= stop
    ensures i == |chunks| ==> Reached(chunks, start, i) == stop
    ensures i < |chunks| ==> chunks[i].first == Reached(chunks, start, i)
  {
    TilesWithin(CandleSpans(chunks, MINUTE), start, stop);
    if i > 0 {
      assert CandleSpans(chunks, MINUTE)[i - 1].end == Reached(chunks, start, i);
      ChunkFollows(chunks, start, stop, i - 1);
    }
    if i < |chunks| {
      ChunkFollows(chunks, start, stop, i);
    }
  }

  predicate AllForward(chunks: seq<Chunk>) {
    forall i :: 0 <= i < |chunks| ==> chunks[i].first <= chunks[i].last
  }

  /** An error of an honest server means a gap. */
  ghost predicate ErrMeansGap(server: Server, series: seq<Bar>, chunks: seq<Chunk>, start: int, stop: int) {
    ChunksOnGrid(chunks, start, MINUTE) && Serves(server, series, MINUTE) ==>
      !Fills(Between(series, start, stop), start, stop)
  }

  /** Chunk after chunk, up to the first that cannot be filled. */
  method BackfillChunks(table: Table, server: Server, chunks: seq<Chunk>, start: int, ghost chunksEnd: int,
                        ghost series: seq<Bar>)
    returns (result: Result<nat, BackfillError>, ghost stored: seq<Bar>, ghost stop: int)
    requires table.Valid()
    requires Tiles(CandleSpans(chunks, MINUTE), start, chunksEnd) && AllForward(chunks)
    modifies table
    ensures table.Valid()
    ensures RunStored(old(table.rows), table.rows, server, series, stored, start, stop) && stop <= chunksEnd
    ensures result.Ok? ==> result.value == |stored| && stop == chunksEnd
    ensures result.Err? ==> ErrMeansGap(server, series, chunks, start, chunksEnd)
  {
    stored := [];
    NoRunStored(table.rows, server, series, start);
    var fetched: nat := 0;
    for i := 0 to |chunks|
      invariant table.Valid() && fetched == |stored|
      invariant RunStored(old(table.rows), table.rows, server, series, stored, start, Reached(chunks, start, i))
    {
      ghost var mid := table.rows;
      var step := BackfillChunk(table, server, chunks[i], series);
      ReachedWithin(chunks, start, chunksEnd, i);
      if step.Err? {
        GapInChunk(server, series, chunks, i, start, chunksEnd, step);
        return Err(step.error), stored, Reached(chunks, start, i);
      }
      ChunkStored(old(table.rows), mid, table.rows, server, series, stored, chunks[i], step, start,
                  Reached(chunks, start, i), Reached(chunks, start, i + 1));
      stored, fetched := stored + step.value, fetched + |step.value|;
    }
    ReachedWithin(chunks, start, chunksEnd, |chunks|);
    return Ok(fetched), stored, chunksEnd;
  }

  /** The chunks of a range, ending behind its last candle. */
  ghost predicate CutsRange(chunks: seq<Chunk>, start: int, end: int, span: int, chunksEnd: int) {
    && Tiles(CandleSpans(chunks, MINUTE), start, chunksEnd) && AllForward(chunks)
    && end < chunksEnd <= end + MINUTE
    && (WholeRange(start, end, span) ==> ChunksOnGrid(chunks, start, MINUTE) && chunksEnd == end + MINUTE)
  }

  method CutRange(start: int, end: int, span: int)
    returns (result: Result<seq<Chunk>, ChunkError>, ghost chunksEnd: int)
    ensures result.Ok? <==> start <= end && MINUTE <= span
    ensures result.Ok? ==> CutsRange(result.value, start, end, span, chunksEnd)
  {
    result, chunksEnd := SeriesChunks(start, end, MINUTE, span);
    if result.Ok? {
      assert forall i :: 0 <= i < |result.value| ==> SpansFully(result.value[i], span, MINUTE, end);
    }
  }

  /** What a backfill of a range can end in. */
  ghost predicate RangeOutcome(result: Result<nat, BackfillError>, server: Server, series: seq<Bar>, stored: seq<Bar>,
                               start: int, end: int, span: int, stop: int) {
    && (start <= end ==> stop <= end + MINUTE)
    && (result.Ok? ==> result.value == |stored| && end < stop <= end + MINUTE)
    && (WholeRange(start, end, span) && result.Ok? ==> stop == end + MINUTE)
    && (WholeRange(start, end, span) && Serves(server, series, MINUTE) ==>
          (result.Ok? <==> Fills(Between(series, start, end + MINUTE), start, end + MINUTE)))
  }

  lemma RangeDecided(result: Result<nat, BackfillError>, server: Server, series: seq<Bar>, stored: seq<Bar>,
                     chunks: seq<Chunk>, start: int, end: int, span: int, stop: int, chunksEnd: int)
    requires CutsRange(chunks, start, end, span, chunksEnd) && stop <= chunksEnd
    requires Fills(stored, start, stop) && HoldsSeries(server, series, stored, start, stop)
    requires result.Ok? ==> result.value == |stored| && stop == chunksEnd
    requires result.Err? ==> ErrMeansGap(server, series, chunks, start, chunksEnd)
    ensures RangeOutcome(result, server, series, stored, start, end, span, stop)
  {
  }

  /** `backfill_ohlcv_series` with `validate_complete`. Whatever happens, what was added is
      one full run of minutes from `start`; on success it reaches past `end`. From an honest
      server it is the series itself, and it succeeds exactly when the series has no gap. */
  method BackfillSeries(table: Table, server: Server, start: int, end: int, span: int, ghost series: seq<Bar>)
    returns (result: Result<nat, BackfillError>, ghost stored: seq<Bar>, ghost stop: int)
    requires table.Valid()
    modifies table
    ensures table.Valid()
    ensures RunStored(old(table.rows), table.rows, server, series, stored, start, stop)
    ensures RangeOutcome(result, server, series, stored, start, end, span, stop)
  {
    stored, stop := [], start;
    NoRunStored(table.rows, server, series, start);
    var cut, chunksEnd := CutRange(start, end, span);
    if cut.Err? {
      return Err(BadChunks(cut.error)), stored, stop;
    }
    result, stored, stop := BackfillChunks(table, server, cut.value, start, chunksEnd, series);
    RangeDecided(result, server, series, stored, cut.value, start, end, span, stop, chunksEnd);
  }
}
