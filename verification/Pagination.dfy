/** Reading a stretch of bars from a server page by page, and cutting a long stretch
    into chunks of candles. */
module Pagination {
  import opened Market
  import opened Aggregation
  import opened AggregationLaws
  import opened Ranges

  const LIMIT := 1000

  /** One request: from `startTime` up to and including `endTime`. */
  type Server = (int, int) -> seq<Bar>

  datatype FetchError = DidNotAdvance

  function FirstPage(bars: seq<Bar>): seq<Bar> {
    if |bars| <= LIMIT then bars else bars[..LIMIT]
  }

  /** Bars of one interval never start closer together than it is long. */
  ghost predicate Spaced(series: seq<Bar>, interval: nat) {
    forall i, j :: 0 <= i < j < |series| ==> series[i].time + interval <= series[j].time
  }

  /** The server holds `series` and answers with the first bars of the range asked for. */
  ghost predicate Serves(server: Server, series: seq<Bar>, interval: nat) {
    && Spaced(series, interval)
    && forall from, upto :: server(from, upto) == FirstPage(Between(series, from, upto + 1))
  }

  predicate AllUpTo(bars: seq<Bar>, end: int) {
    forall i :: 0 <= i < |bars| ==> bars[i].time <= end
  }

  /** The bars of a page that are not after `end`. */
  function NotAfter(page: seq<Bar>, end: int): (kept: seq<Bar>)
    ensures AllUpTo(kept, end)
  {
    if page == [] then []
    else
      var earlier, last := NotAfter(page[..|page| - 1], end), page[|page| - 1];
      if last.time > end then earlier else earlier + [last]
  }

  lemma {:induction false} NoneAfter(page: seq<Bar>, end: int)
    requires forall i :: 0 <= i < |page| ==> page[i].time <= end
    ensures NotAfter(page, end) == page
  {
    if page != [] {
      NoneAfter(page[..|page| - 1], end);
      assert page == page[..|page| - 1] + [page[|page| - 1]];
    }
  }

  lemma {:induction false} BetweenSpaced(series: seq<Bar>, interval: nat, lo: int, hi: int)
    requires Spaced(series, interval)
    ensures Spaced(Between(series, lo, hi), interval)
    ensures forall i :: 0 <= i < |Between(series, lo, hi)| ==> Between(series, lo, hi)[i] in series
  {
    if series != [] {
      BetweenSpaced(series[..|series| - 1], interval, lo, hi);
    }
  }

  lemma SpacedIsOrdered(series: seq<Bar>, interval: nat)
    requires Spaced(series, interval) && 0 < interval
    ensures TimeOrdered(series) && StrictlyTimeOrdered(series)
  {
    forall i, j | 0 <= i < j < |series|
      ensures series[i].time < series[j].time
    {
      assert series[i].time + interval <= series[j].time;
    }
  }

  /** Cutting an ordered list of bars at a time cuts it at an index. */
  lemma {:induction false} BetweenOfJoin(a: seq<Bar>, b: seq<Bar>, lo: int, cut: int, hi: int)
    requires forall i :: 0 <= i < |a| ==> lo <= a[i].time < cut
    requires forall i :: 0 <= i < |b| ==> cut <= b[i].time < hi
    ensures Between(a + b, cut, hi) == b
  {
    if b == [] {
      assert a + b == a;
      NothingBetween(a, cut, hi);
    } else {
      var n := |b| - 1;
      assert (a + b)[..|a + b| - 1] == a + b[..n];
      BetweenOfJoin(a, b[..n], lo, cut, hi);
      assert b == b[..n] + [b[n]];
    }
  }

  lemma {:induction false} BetweenTwice(series: seq<Bar>, lo: int, cut: int, hi: int)
    requires lo <= cut
    ensures Between(Between(series, lo, hi), cut, hi) == Between(series, cut, hi)
  {
    if series != [] {
      var n := |series| - 1;
      BetweenTwice(series[..n], lo, cut, hi);
      var earlier := Between(series[..n], lo, hi);
      if lo <= series[n].time < hi {
        assert (earlier + [series[n]])[..|earlier|] == earlier;
      }
    }
  }

  lemma CutSpaced(first: seq<Bar>, rest: seq<Bar>, interval: nat, lo: int, hi: int)
    requires Spaced(first + rest, interval) && 0 < interval && first != []
    requires forall i :: 0 <= i < |first + rest| ==> lo <= (first + rest)[i].time < hi
    ensures var next := first[|first| - 1].time + interval;
      lo < next && Between(first + rest, next, hi) == rest
  {
    var all := first + rest;
    var next := first[|first| - 1].time + interval;
    forall i | 0 <= i < |first|
      ensures lo <= first[i].time < next
    {
      assert first[i] == all[i];
      if i < |first| - 1 {
        assert all[i].time + interval <= all[|first| - 1].time;
      }
    }
    forall i | 0 <= i < |rest|
      ensures next <= rest[i].time < hi
    {
      assert rest[i] == all[|first| + i];
      assert all[|first| - 1].time + interval <= all[|first| + i].time;
    }
    BetweenOfJoin(first, rest, lo, next, hi);
  }

  lemma CutLeft(series: seq<Bar>, left: seq<Bar>, first: seq<Bar>, rest: seq<Bar>, interval: nat, cursor: int, hi: int)
    requires left == Between(series, cursor, hi) && left == first + rest
    requires Spaced(left, interval) && 0 < interval && first != []
    ensures var next := first[|first| - 1].time + interval;
      cursor < next && Between(series, next, hi) == rest
  {
    var next := first[|first| - 1].time + interval;
    CutSpaced(first, rest, interval, cursor, hi);
    BetweenTwice(series, cursor, next, hi);
  }

  lemma FirstPageIsPrefix(left: seq<Bar>) returns (rest: seq<Bar>)
    ensures left == FirstPage(left) + rest && (left != [] ==> FirstPage(left) != [])
  {
    rest := if |left| <= LIMIT then [] else left[LIMIT..];
  }

  /** What is left after a page starts no earlier than one interval after its last bar. */
  lemma PageThenRest(series: seq<Bar>, interval: nat, cursor: int, end: int)
    requires Spaced(series, interval) && 0 < interval
    requires Between(series, cursor, end + 1) != []
    ensures var left := Between(series, cursor, end + 1);
      var page := FirstPage(left);
      var next := page[|page| - 1].time + interval;
      page != [] && cursor < next && left == page + Between(series, next, end + 1)
  {
    var left := Between(series, cursor, end + 1);
    var rest := FirstPageIsPrefix(left);
    BetweenSpaced(series, interval, cursor, end + 1);
    CutLeft(series, left, FirstPage(left), rest, interval, cursor, end + 1);
  }

  /** What a page and all pages after it come to. */
  function Prepend(page: seq<Bar>, rest: Result<seq<Bar>, FetchError>): Result<seq<Bar>, FetchError> {
    match rest
    case Ok(bars) => Ok(page + bars)
    case Err(error) => Err(error)
  }

  /** The pages a server gives from `cursor` on, whatever it answers. */
  function HistoryFrom(server: Server, interval: nat, cursor: int, end: int): (result: Result<seq<Bar>, FetchError>)
    requires 0 < interval
    ensures result.Ok? ==> AllUpTo(result.value, end)
    decreases if cursor <= end then end - cursor + 1 else 0
  {
    if cursor > end then Ok([])
    else
      var page := NotAfter(server(cursor, end), end);
      if page == [] then Ok([])
      else
        var next := page[|page| - 1].time + interval;
        if next <= cursor then Err(DidNotAdvance) else Prepend(page, HistoryFrom(server, interval, next, end))
  }

  lemma {:induction false} NotAfterKeeps(page: seq<Bar>, end: int, bar: Bar)
    ensures bar in NotAfter(page, end) <==> bar in page && bar.time <= end
  {
    if page != [] {
      NotAfterKeeps(page[..|page| - 1], end, bar);
      assert bar in page <==> bar in page[..|page| - 1] || bar == page[|page| - 1];
    }
  }

  // ----- The requests one by one -------------------------------------------------------------

  /** What a request from `at` contributes. */
  function Page(server: Server, at: int, end: int): seq<Bar> {
    NotAfter(server(at, end), end)
  }

  /** The last bar of the page puts the next request at `next`. */
  predicate LeadsTo(server: Server, interval: nat, end: int, at: int, next: int) {
    var page := Page(server, at, end);
    at <= end && page != [] && next == page[|page| - 1].time + interval
  }

  /** Each request is where the one before leads, further on. */
  predicate Trail(server: Server, interval: nat, end: int, stops: seq<int>) {
    stops != [] && forall i :: 0 <= i < |stops| - 1 ==>
      stops[i] < stops[i + 1] && LeadsTo(server, interval, end, stops[i], stops[i + 1])
  }

  /** A request that leads no further. */
  ghost predicate Stuck(server: Server, interval: nat, end: int, at: int) {
    exists next :: next <= at && LeadsTo(server, interval, end, at, next)
  }

  /** Nothing is left to ask for, or nothing comes back. */
  predicate Finished(server: Server, end: int, at: int) {
    at > end || Page(server, at, end) == []
  }

  function Pages(server: Server, end: int, stops: seq<int>): seq<Bar> {
    if stops == [] then [] else Page(server, stops[0], end) + Pages(server, end, stops[1..])
  }

  /** Along a trail of requests the history is its pages one after the other, or the error when
      the last of them leads no further. */
  lemma {:induction false} HistoryFollowsTrail(server: Server, interval: nat, end: int, stops: seq<int>)
    requires 0 < interval && Trail(server, interval, end, stops)
    ensures var last, history := stops[|stops| - 1], HistoryFrom(server, interval, stops[0], end);
      && (Stuck(server, interval, end, last) ==> history == Err(DidNotAdvance))
      && (Finished(server, end, last) ==> history == Ok(Pages(server, end, stops[..|stops| - 1])))
  {
    var n := |stops| - 1;
    if n > 0 {
      assert LeadsTo(server, interval, end, stops[0], stops[1]);
      HistoryFollowsTrail(server, interval, end, stops[1..]);
      assert stops[1..][..n - 1] == stops[..n][1..];
    }
  }

  /** Every history has such a trail. */
  lemma {:induction false} HistoryHasTrail(server: Server, interval: nat, cursor: int, end: int)
    returns (stops: seq<int>)
    requires 0 < interval
    ensures Trail(server, interval, end, stops) && stops[0] == cursor
    ensures Stuck(server, interval, end, stops[|stops| - 1]) || Finished(server, end, stops[|stops| - 1])
    decreases if cursor <= end then end - cursor + 1 else 0
  {
    stops := [cursor];
    if !Finished(server, end, cursor) {
      var page := Page(server, cursor, end);
      var next := page[|page| - 1].time + interval;
      assert LeadsTo(server, interval, end, cursor, next);
      if cursor < next {
        var rest := HistoryHasTrail(server, interval, next, end);
        stops := [cursor] + rest;
      }
    }
  }

  /** The server gives the bar on some request. */
  ghost predicate Answers(server: Server, bar: Bar) {
    exists from, upto :: bar in server(from, upto)
  }

  ghost predicate AllAnswered(server: Server, bars: seq<Bar>) {
    forall i :: 0 <= i < |bars| ==> Answers(server, bars[i])
  }

  lemma {:induction false} KeptFromPage(page: seq<Bar>, end: int)
    ensures forall i :: 0 <= i < |NotAfter(page, end)| ==> NotAfter(page, end)[i] in page
  {
    if page != [] {
      KeptFromPage(page[..|page| - 1], end);
    }
  }

  /** Every bar of the history is one the server gave. */
  lemma {:induction false} HistoryIsAnswered(server: Server, interval: nat, cursor: int, end: int)
    requires 0 < interval && HistoryFrom(server, interval, cursor, end).Ok?
    ensures AllAnswered(server, HistoryFrom(server, interval, cursor, end).value)
    decreases if cursor <= end then end - cursor + 1 else 0
  {
    var page := NotAfter(server(cursor, end), end);
    if cursor <= end && page != [] {
      KeptFromPage(server(cursor, end), end);
      HistoryIsAnswered(server, interval, page[|page| - 1].time + interval, end);
    }
  }

  lemma PrependTwice(a: seq<Bar>, b: seq<Bar>, rest: Result<seq<Bar>, FetchError>)
    ensures Prepend(a, Prepend(b, rest)) == Prepend(a + b, rest)
  {
    if rest.Ok? {
      assert a + (b + rest.value) == (a + b) + rest.value;
    }
  }

  lemma PrependNothing(bars: seq<Bar>, rest: Result<seq<Bar>, FetchError>)
    ensures Prepend([], rest) == rest && Prepend(bars, Ok([])) == Ok(bars)
  {
    assert bars + [] == bars;
    if rest.Ok? {
      assert [] + rest.value == rest.value;
    }
  }

  /** `fetch_ohlcv_history`: page after page; terminates for every server. */
  method FetchHistory(server: Server, interval: nat, start: int, end: int)
    returns (result: Result<seq<Bar>, FetchError>)
    requires 0 < interval
    ensures result == HistoryFrom(server, interval, start, end)
  {
    var cursor := start;
    var bars: seq<Bar> := [];
    PrependNothing([], HistoryFrom(server, interval, start, end));
    while cursor <= end
      invariant HistoryFrom(server, interval, start, end) == Prepend(bars, HistoryFrom(server, interval, cursor, end))
      decreases end - cursor
    {
      PrependNothing(bars, Ok([]));
      var payload := server(cursor, end);
      if payload == [] {
        return Ok(bars);
      }
      var page := NotAfter(payload, end);
      if page == [] {
        return Ok(bars);
      }
      var next := page[|page| - 1].time + interval;
      if next <= cursor {
        return Err(DidNotAdvance);
      }
      PrependTwice(bars, page, HistoryFrom(server, interval, next, end));
      bars := bars + page;
      cursor := next;
    }
    PrependNothing(bars, Ok([]));
    return Ok(bars);
  }

  lemma ServedPage(server: Server, series: seq<Bar>, interval: nat, cursor: int, end: int)
    requires Serves(server, series, interval) && 0 < interval
    ensures var left, page := Between(series, cursor, end + 1), NotAfter(server(cursor, end), end);
      if page == [] then left == []
      else
        var next := page[|page| - 1].time + interval;
        cursor < next && left == page + Between(series, next, end + 1)
  {
    NoneAfter(server(cursor, end), end);
    if Between(series, cursor, end + 1) != [] {
      PageThenRest(series, interval, cursor, end);
    }
  }

  /** From a server that serves a series the pages are exactly the bars of the range, in
      order, however many pages that takes. */
  lemma {:induction false} HonestHistory(server: Server, series: seq<Bar>, interval: nat, cursor: int, end: int)
    requires Serves(server, series, interval) && 0 < interval
    ensures HistoryFrom(server, interval, cursor, end) == Ok(Between(series, cursor, end + 1))
    decreases if cursor <= end then end - cursor + 1 else 0
  {
    if end < cursor {
      NothingBetween(series, cursor, end + 1);
    } else {
      ServedPage(server, series, interval, cursor, end);
      var page := NotAfter(server(cursor, end), end);
      if page != [] {
        HonestHistory(server, series, interval, page[|page| - 1].time + interval, end);
      }
    }
  }

  // ----- Chunks -------------------------------------------------------------------------------

  /** First and last candle of a chunk, both included. */
  datatype Chunk = Chunk(first: int, last: int)

  datatype ChunkError = EndBeforeStart | SpanTooShort

  /** The time the candles of the chunks take up. */
  function CandleSpans(chunks: seq<Chunk>, interval: nat): (ranges: seq<Range>)
    ensures |ranges| == |chunks|
  {
    seq(|chunks|, i requires 0 <= i < |chunks| => Range(chunks[i].first, chunks[i].last + interval))
  }

  /** A chunk is as long as the span allows, cut off at the end of the range. */
  predicate SpansFully(chunk: Chunk, span: int, interval: nat, end: int) {
    var full := chunk.first + span - interval;
    chunk.first <= chunk.last && chunk.last == if full < end then full else end
  }

  lemma OneMoreChunk(chunks: seq<Chunk>, next: Chunk, interval: nat, start: int, cursor: int)
    requires Tiles(CandleSpans(chunks, interval), start, cursor)
    requires next.first == cursor && next.first < next.last + interval
    ensures Tiles(CandleSpans(chunks + [next], interval), start, next.last + interval)
  {
    var ranges := CandleSpans(chunks + [next], interval);
    assert ranges[..|ranges| - 1] == CandleSpans(chunks, interval);
  }

  lemma MultiplesAdd(a: int, b: int, n: nat)
    requires 0 < n && a % n == 0 && b % n == 0
    ensures (a + b) % n == 0 && (a - b) % n == 0
  {
    var p, q := a / n, b / n;
    assert a == n * p && b == n * q;
    assert n * (p + q) == n * p + n * q && n * (p - q) == n * p - n * q;
    DivisionIsUnique(a + b, n, p + q, 0);
    DivisionIsUnique(a - b, n, p - q, 0);
  }

  /** The candles of the grid from `start`. */
  predicate OnGridFrom(time: int, start: int, interval: nat)
    requires 0 < interval
  {
    (time - start) % interval == 0
  }

  ghost predicate ChunksOnGrid(chunks: seq<Chunk>, start: int, interval: nat)
    requires 0 < interval
  {
    forall i :: 0 <= i < |chunks| ==>
      OnGridFrom(chunks[i].first, start, interval) && OnGridFrom(chunks[i].last, start, interval)
  }

  /** `iter_series_chunks`. The candles of the chunks follow each other without a gap or
      an overlap; when the span and the end lie on the grid, so does every chunk, and they
      stop with the candle of `end`. */
  method SeriesChunks(start: int, end: int, interval: nat, span: int)
    returns (result: Result<seq<Chunk>, ChunkError>, ghost stop: int)
    requires 0 < interval
    ensures result.Ok? <==> start <= end && interval <= span
    ensures result == Err(EndBeforeStart) <==> end < start
    ensures result == Err(SpanTooShort) <==> start <= end && span < interval
    ensures result.Ok? ==>
      && Tiles(CandleSpans(result.value, interval), start, stop)
      && end < stop <= end + interval
      && forall i :: 0 <= i < |result.value| ==> SpansFully(result.value[i], span, interval, end)
    ensures result.Ok? && span % interval == 0 && OnGridFrom(end, start, interval) ==>
      ChunksOnGrid(result.value, start, interval) && stop == end + interval
  {
    if end < start {
      return Err(EndBeforeStart), start;
    }
    if span < interval {
      return Err(SpanTooShort), start;
    }
    var chunks: seq<Chunk> := [];
    var cursor := start;
    var whole := span % interval == 0 && OnGridFrom(end, start, interval);
    ZeroOnGrid(interval);
    while cursor <= end
      invariant Tiles(CandleSpans(chunks, interval), start, cursor)
      invariant cursor <= end + interval
      invariant forall i :: 0 <= i < |chunks| ==> SpansFully(chunks[i], span, interval, end)
      invariant whole ==> OnGridFrom(cursor, start, interval) && ChunksOnGrid(chunks, start, interval)
      decreases end - cursor
    {
      var chunkEnd := if cursor + span - interval < end then cursor + span - interval else end;
      var chunk := Chunk(cursor, chunkEnd);
      OneMoreChunk(chunks, chunk, interval, start, cursor);
      if whole {
        ChunkOnGrid(start, end, cursor, span, interval);
      }
      chunks := chunks + [chunk];
      cursor := chunkEnd + interval;
    }
    if whole {
      StopOnGrid(start, end, cursor, interval);
    }
    return Ok(chunks), cursor;
  }

  lemma ZeroOnGrid(interval: nat)
    requires 0 < interval
    ensures 0 % interval == 0 && interval % interval == 0
  {
    DivisionIsUnique(interval, interval, 1, 0);
  }

  lemma ChunkOnGrid(start: int, end: int, cursor: int, span: int, interval: nat)
    requires 0 < interval && OnGridFrom(cursor, start, interval) && OnGridFrom(end, start, interval)
    requires span % interval == 0
    ensures OnGridFrom(cursor + span - interval, start, interval)
    ensures OnGridFrom(cursor + span - interval + interval, start, interval)
    ensures OnGridFrom(end + interval, start, interval)
  {
    ZeroOnGrid(interval);
    MultiplesAdd(cursor - start, span, interval);
    MultiplesAdd(cursor - start + span, interval, interval);
    MultiplesAdd(end - start, interval, interval);
    assert cursor - start + span == cursor + span - interval + interval - start;
    assert cursor - start + span - interval == cursor + span - interval - start;
    assert end - start + interval == end + interval - start;
  }

  lemma StopOnGrid(start: int, end: int, stop: int, interval: nat)
    requires 0 < interval && OnGridFrom(stop, start, interval) && OnGridFrom(end, start, interval)
    requires end < stop <= end + interval
    ensures stop == end + interval
  {
    MultiplesAdd(stop - start, end - start, interval);
    var d := stop - end;
    assert d == stop - start - (end - start);
    var q := d / interval;
    assert d == interval * q;
    MultiplesSpread(interval, q);
  }

  /** On the grid, every candle of the range is in exactly one chunk. */
  lemma ChunksPartitionGrid(chunks: seq<Chunk>, start: int, end: int, interval: nat, time: int)
    requires 0 < interval && ChunksOnGrid(chunks, start, interval)
    requires Tiles(CandleSpans(chunks, interval), start, end + interval)
    requires OnGridFrom(time, start, interval) && OnGridFrom(end, start, interval) && start <= time <= end
    ensures exists i :: 0 <= i < |chunks| && chunks[i].first <= time <= chunks[i].last
    ensures forall i, j :: 0 <= i < j < |chunks| ==> chunks[i].last < chunks[j].first
  {
    TilesCoverOnce(CandleSpans(chunks, interval), start, end + interval, time);
    CoveredBySome(CandleSpans(chunks, interval), time);
    var i :| 0 <= i < |chunks| && CandleSpans(chunks, interval)[i].Contains(time);
    BeforeNextCandle(time, chunks[i].last, start, interval);
    TilesInOrder(CandleSpans(chunks, interval), start, end + interval);
    forall i, j | 0 <= i < j < |chunks|
      ensures chunks[i].last < chunks[j].first
    {
      assert CandleSpans(chunks, interval)[i].end <= CandleSpans(chunks, interval)[j].start;
    }
  }

  lemma BeforeNextCandle(time: int, last: int, start: int, interval: nat)
    requires 0 < interval && OnGridFrom(time, start, interval) && OnGridFrom(last, start, interval)
    requires time < last + interval
    ensures time <= last
  {
    MultiplesAdd(time - start, last - start, interval);
    var d := time - last;
    assert d == time - start - (last - start);
    var q := d / interval;
    assert d == interval * q;
    MultiplesSpread(interval, q);
  }

  lemma {:induction false} TilesInOrder(ranges: seq<Range>, lo: int, hi: int)
    requires Tiles(ranges, lo, hi)
    ensures forall i, j :: 0 <= i < j < |ranges| ==> ranges[i].end <= ranges[j].start
  {
    if ranges != [] {
      var n := |ranges| - 1;
      TilesInOrder(ranges[..n], lo, ranges[n].start);
      TilesWithin(ranges[..n], lo, ranges[n].start);
      forall i, j | 0 <= i < j < |ranges|
        ensures ranges[i].end <= ranges[j].start
      {
        assert ranges[i] == ranges[..n][i];
        if j < n {
          assert ranges[j] == ranges[..n][j];
        }
      }
    }
  }
}
