/** One symbol's import: archives, REST ranges, the coverage check, the timeframes. */
module ImportRun {
  import opened Market
  import opened Calendar
  import opened Aggregation
  import opened AggregationLaws
  import opened BarTable
  import opened Pagination
  import opened Ranges
  import opened Archives
  import opened Backfill
  import opened StoredSeries
  import opened DerivedTables

  const FOUR_HOURS := 14400
  const SIXTEEN_HOURS := 57600

  datatype ImportError =
    | BadBoundaries
    | BadPlan(plan: PlanError)
    | BadArchive(slice: SliceError)
    | BadRest(rest: BackfillError)
    | IncompleteCoverage
    | BadAggregation(gap: GapError)

  // ----- What the imports add --------------------------------------------------------------------

  /** Where bars come from: the REST server, and the archives published for well-cut
      slices. */
  datatype Feeds = Feeds(server: Server, payload: Spec -> seq<Bar>, published: Spec -> bool, end: nat) {
    ghost predicate Give(bar: Bar) {
      || Answers(server, bar)
      || exists spec :: WellCut(spec, end) && published(spec) && bar in payload(spec)
    }
  }

  /** Every row is the row from before or a bar the sources give. */
  ghost predicate Sourced(before: map<int, Bar>, after: map<int, Bar>, feeds: Feeds) {
    forall t :: t in after ==> (t in before && after[t] == before[t]) || feeds.Give(after[t])
  }

  ghost predicate AllGiven(bars: seq<Bar>, feeds: Feeds) {
    forall i :: 0 <= i < |bars| ==> feeds.Give(bars[i])
  }

  /** Nothing was dropped, only whole minutes of the range were added, no row outside
      the range changed, and every new value comes from the sources. */
  ghost predicate Extends(before: map<int, Bar>, after: map<int, Bar>, start: int, end: int, feeds: Feeds) {
    && (forall t :: t in before ==> t in after)
    && (forall t :: t in after && t !in before ==> start <= t < end && t % MINUTE == 0)
    && Untouched(before, after, start, end)
    && Sourced(before, after, feeds)
  }

  ghost predicate HasMinutes(rows: map<int, Bar>, range: Range) {
    forall t :: range.Contains(t) && t % MINUTE == 0 ==> t in rows
  }

  /** No stored row of the range lies off the minute. */
  ghost predicate Clean(rows: map<int, Bar>, start: int, end: int) {
    forall t :: t in rows && start <= t < end ==> t % MINUTE == 0
  }

  /** The table while the sources `done` have been worked through. */
  ghost predicate Importing(before: map<int, Bar>, rows: map<int, Bar>, done: seq<Range>, start: int, end: int,
                            feeds: Feeds) {
    && Extends(before, rows, start, end, feeds)
    && (Clean(before, start, end) ==> forall i :: 0 <= i < |done| ==> HasMinutes(rows, done[i]))
  }

  ghost predicate Inside(range: Range, start: int, end: int) {
    start <= range.start < range.end <= end && range.start % MINUTE == 0 && range.end % MINUTE == 0
  }

  lemma RunKeys(before: map<int, Bar>, after: map<int, Bar>, stored: seq<Bar>, lo: int, hi: int, t: int)
    requires StoredRun(before, after, stored, lo, hi) && lo % MINUTE == 0
    ensures t in after <==> t in before || (lo <= t < hi && t % MINUTE == 0)
  {
    var count := (hi - lo) / MINUTE;
    UpsertedGrid(before, stored, lo, count);
    InGrid(lo, count, t);
    assert t in after.Keys <==> t in before.Keys || t in Grid(lo, count);
  }

  lemma RunElsewhere(before: map<int, Bar>, after: map<int, Bar>, stored: seq<Bar>, lo: int, hi: int, start: int, end: int)
    requires StoredRun(before, after, stored, lo, hi) && start <= lo && hi <= end
    ensures Untouched(before, after, start, end)
  {
    forall i | 0 <= i < |stored|
      ensures start <= stored[i].time < end
    {
      assert stored[i].time == lo + MINUTE * i;
    }
    UpsertedElsewhere(before, stored, start, end);
  }

  lemma RunIsSourced(before: map<int, Bar>, after: map<int, Bar>, stored: seq<Bar>, lo: int, hi: int, feeds: Feeds)
    requires StoredRun(before, after, stored, lo, hi) && AllGiven(stored, feeds)
    ensures Sourced(before, after, feeds)
  {
    forall t | t in after
      ensures (t in before && after[t] == before[t]) || feeds.Give(after[t])
    {
      UpsertedFrom(before, stored, t);
    }
  }

  lemma RunIsInside(before: map<int, Bar>, after: map<int, Bar>, stored: seq<Bar>, lo: int, hi: int, start: int,
                    end: int, feeds: Feeds)
    requires StoredRun(before, after, stored, lo, hi) && start <= lo && hi <= end && lo % MINUTE == 0
    requires AllGiven(stored, feeds)
    ensures Extends(before, after, start, end, feeds) && HasMinutes(after, Range(lo, hi))
  {
    RunElsewhere(before, after, stored, lo, hi, start, end);
    RunIsSourced(before, after, stored, lo, hi, feeds);
    forall t
      ensures t in after <==> t in before || (lo <= t < hi && t % MINUTE == 0)
    {
      RunKeys(before, after, stored, lo, hi, t);
    }
  }

  lemma ExtendsTwice(a: map<int, Bar>, b: map<int, Bar>, c: map<int, Bar>, start: int, end: int, feeds: Feeds)
    requires Extends(a, b, start, end, feeds) && Extends(b, c, start, end, feeds)
    ensures Extends(a, c, start, end, feeds)
  {
  }

  lemma SourceDone(before: map<int, Bar>, rows: map<int, Bar>, after: map<int, Bar>, done: seq<Range>, next: Range,
                   start: int, end: int, feeds: Feeds)
    requires Importing(before, rows, done, start, end, feeds) && Extends(rows, after, start, end, feeds)
    requires Clean(before, start, end) ==> HasMinutes(after, next)
    ensures Importing(before, after, done + [next], start, end, feeds)
  {
    ExtendsTwice(before, rows, after, start, end, feeds);
  }

  lemma CheckedOnGrid(rows: map<int, Bar>, range: Range, count: nat)
    requires range.start % MINUTE == 0 && 0 < count && range.end == range.start + MINUTE * count
    requires OnGrid(SliceOf(rows, range.start, range.end), range.start)
    requires FastCheck(SliceOf(rows, range.start, range.end), range.start, range.end)
    ensures HasMinutes(rows, range)
  {
    FastCheckAgrees(SliceOf(rows, range.start, range.end), range.start, count);
    GridHasMinutes(rows, range, count);
  }

  /** A slice the fast check accepts is complete unless the table was unclean to begin with. */
  lemma ReusedIsComplete(before: map<int, Bar>, rows: map<int, Bar>, range: Range, start: int, end: int, feeds: Feeds)
    requires Extends(before, rows, start, end, feeds) && Clean(before, start, end) && Inside(range, start, end)
    requires FastCheck(SliceOf(rows, range.start, range.end), range.start, range.end)
    ensures HasMinutes(rows, range)
  {
    CleanSliceOnGrid(before, rows, range.start, range.end, start, end, feeds);
    MinutesBetween(range.start, range.end);
    CheckedOnGrid(rows, range, (range.end - range.start) / MINUTE);
  }

  lemma MinutesBetween(lo: int, hi: int)
    requires lo < hi && lo % MINUTE == 0 && hi % MINUTE == 0
    ensures 0 < (hi - lo) / MINUTE && hi == lo + MINUTE * ((hi - lo) / MINUTE)
  {
  }

  lemma CleanSliceOnGrid(before: map<int, Bar>, rows: map<int, Bar>, lo: int, hi: int, start: int, end: int, feeds: Feeds)
    requires Extends(before, rows, start, end, feeds) && Clean(before, start, end)
    requires start <= lo && hi <= end && lo % MINUTE == 0
    ensures OnGrid(SliceOf(rows, lo, hi), lo)
  {
    forall t | t in SliceOf(rows, lo, hi)
      ensures (t - lo) % MINUTE == 0
    {
      MultiplesAdd(t, lo, MINUTE);
    }
  }

  lemma GridHasMinutes(rows: map<int, Bar>, range: Range, count: nat)
    requires range.start % MINUTE == 0 && range.end == range.start + MINUTE * count
    requires SliceOf(rows, range.start, range.end) == Grid(range.start, count)
    ensures HasMinutes(rows, range)
  {
    forall t | range.Contains(t) && t % MINUTE == 0
      ensures t in rows
    {
      InGrid(range.start, count, t);
      assert t in SliceOf(rows, range.start, range.end);
    }
  }

  // ----- Archives --------------------------------------------------------------------------------

  /** `store_bars_in_batches`: batch after batch is the whole list at once. */
  method StoreInBatches(table: Table, bars: seq<Bar>, batchSize: nat) returns (written: nat)
    requires table.Valid() && 0 < batchSize
    modifies table
    ensures table.Valid() && table.rows == Upserted(old(table.rows), bars) && written == |bars|
  {
    written := 0;
    while written < |bars|
      invariant table.Valid() && written <= |bars|
      invariant table.rows == Upserted(old(table.rows), bars[..written])
    {
      var next := if written + batchSize < |bars| then written + batchSize else |bars|;
      BatchJoins(old(table.rows), bars, written, next);
      var stored := table.Store(bars[written..next]);
      written := next;
    }
    assert bars[..|bars|] == bars;
  }

  lemma BatchJoins(rows: map<int, Bar>, bars: seq<Bar>, from: nat, next: nat)
    requires from <= next <= |bars|
    ensures Upserted(Upserted(rows, bars[..from]), bars[from..next]) == Upserted(rows, bars[..next])
  {
    UpsertedJoin(rows, bars[..from], bars[from..next]);
    assert bars[..from] + bars[from..next] == bars[..next];
  }

  datatype StorageAction = Reused | Stored

  /** Keep a slice the fast check accepts; otherwise validate the archive and store it. */
  method ImportArchive(table: Table, range: Range, bars: seq<Bar>, batchSize: nat)
    returns (result: Result<StorageAction, SliceError>)
    requires table.Valid() && 0 < batchSize
    modifies table
    ensures table.Valid()
    ensures result.Ok? && result.value.Reused? <==>
      FastCheck(SliceOf(old(table.rows), range.start, range.end), range.start, range.end)
    ensures result.Ok? && result.value.Stored? ==>
      range.start < range.end && StoredRun(old(table.rows), table.rows, bars, range.start, range.end)
    ensures result.Err? || result.value.Reused? ==> table.rows == old(table.rows)
    ensures result.Err? ==> !(range.start < range.end && Fills(bars, range.start, range.end))
  {
    var reused := FastCheck(table.Slice(range.start, range.end), range.start, range.end);
    if reused {
      return Ok(Reused);
    }
    var valid := ValidateComplete(bars, range.start, range.end);
    if valid.Err? {
      return Err(valid.error);
    }
    var written := StoreInBatches(table, bars, batchSize);
    return Ok(Stored);
  }

  /** Every published archive is a full slice. */
  ghost predicate FullArchives(payload: Spec -> seq<Bar>, published: Spec -> bool, end: nat) {
    forall spec :: WellCut(spec, end) && published(spec) ==> Fills(payload(spec), spec.range.start, spec.range.end)
  }

  /** What a plan downloads: well-cut published slices of the range. */
  ghost predicate Downloadable(downloaded: seq<Spec>, published: Spec -> bool, start: int, end: nat) {
    forall i :: 0 <= i < |downloaded| ==>
      Inside(downloaded[i].range, start, end) && WellCut(downloaded[i], end) && published(downloaded[i])
  }

  lemma ArchiveIsGiven(spec: Spec, feeds: Feeds)
    requires WellCut(spec, feeds.end) && feeds.published(spec)
    ensures AllGiven(feeds.payload(spec), feeds)
  {
  }

  method ImportArchives(table: Table, downloaded: seq<Spec>, feeds: Feeds, batchSize: nat, start: int)
    returns (result: Result<(), SliceError>)
    requires table.Valid() && 0 < batchSize
    requires Downloadable(downloaded, feeds.published, start, feeds.end)
    modifies table
    ensures table.Valid()
    ensures Extends(old(table.rows), table.rows, start, feeds.end, feeds)
    ensures result.Ok? ==> Importing(old(table.rows), table.rows, Spans(downloaded), start, feeds.end, feeds)
    ensures FullArchives(feeds.payload, feeds.published, feeds.end) ==> result.Ok?
  {
    for i := 0 to |downloaded|
      invariant table.Valid()
      invariant Importing(old(table.rows), table.rows, Spans(downloaded[..i]), start, feeds.end, feeds)
    {
      ghost var rows := table.rows;
      var spec := downloaded[i];
      assert downloaded[..i + 1] == downloaded[..i] + [spec];
      SpansOfMore(downloaded[..i], spec);
      var step := ImportArchive(table, spec.range, feeds.payload(spec), batchSize);
      if step.Err? {
        return Err(step.error);
      }
      ArchiveIsGiven(spec, feeds);
      ArchiveDone(old(table.rows), rows, table.rows, Spans(downloaded[..i]), spec.range, feeds.payload(spec), start,
                  feeds.end, feeds);
    }
    assert downloaded[..|downloaded|] == downloaded;
    return Ok(());
  }

  lemma ArchiveDone(before: map<int, Bar>, rows: map<int, Bar>, after: map<int, Bar>, done: seq<Range>, range: Range,
                    bars: seq<Bar>, start: int, end: int, feeds: Feeds)
    requires Importing(before, rows, done, start, end, feeds) && Inside(range, start, end) && AllGiven(bars, feeds)
    requires
      || (after == rows && FastCheck(SliceOf(rows, range.start, range.end), range.start, range.end))
      || StoredRun(rows, after, bars, range.start, range.end)
    ensures Importing(before, after, done + [range], start, end, feeds)
  {
    if StoredRun(rows, after, bars, range.start, range.end) {
      RunIsInside(rows, after, bars, range.start, range.end, start, end, feeds);
    } else if Clean(before, start, end) {
      ReusedIsComplete(before, rows, range, start, end, feeds);
    }
    SourceDone(before, rows, after, done, range, start, end, feeds);
  }

  // ----- REST ranges -----------------------------------------------------------------------------

  /** One REST range, whole or up to the chunk that failed. */
  method ImportRestRange(table: Table, range: Range, feeds: Feeds, start: int, ghost before: map<int, Bar>,
                         ghost done: seq<Range>, ghost series: seq<Bar>)
    returns (result: Result<(), BackfillError>)
    requires table.Valid() && Importing(before, table.rows, done, start, feeds.end, feeds)
    requires start % MINUTE == 0 && Inside(range, start, feeds.end)
    modifies table
    ensures table.Valid()
    ensures Extends(before, table.rows, start, feeds.end, feeds)
    ensures result.Ok? ==> Importing(before, table.rows, done + [range], start, feeds.end, feeds)
    ensures GaplessFeed(feeds, series, start) ==> result.Ok?
  {
    ghost var rows := table.rows;
    RestRangeIsWhole(range, start, feeds.end);
    FeedCoversRange(feeds, series, range, start);
    var step, stored, stop :=
      BackfillSeries(table, feeds.server, range.start, range.end - MINUTE, SIXTEEN_HOURS, series);
    RestAdded(rows, table.rows, stored, range, stop, start, feeds);
    ExtendsTwice(before, rows, table.rows, start, feeds.end, feeds);
    if step.Err? {
      return Err(step.error);
    }
    SourceDone(before, rows, table.rows, done, range, start, feeds.end, feeds);
    return Ok(());
  }

  /** An honest server whose series has every minute of the range. */
  ghost predicate GaplessFeed(feeds: Feeds, series: seq<Bar>, start: int) {
    Serves(feeds.server, series, MINUTE) && Fills(Between(series, start, feeds.end), start, feeds.end)
  }

  lemma FeedCoversRange(feeds: Feeds, series: seq<Bar>, range: Range, start: int)
    requires Inside(range, start, feeds.end) && start % MINUTE == 0
    ensures GaplessFeed(feeds, series, start) ==> Fills(Between(series, range.start, range.end), range.start, range.end)
  {
    if GaplessFeed(feeds, series, start) {
      RestRangeIsWhole(range, start, feeds.end);
      SpacedIsOrdered(series, MINUTE);
      FillsPart(series, start, range.start, range.end, feeds.end);
    }
  }

  method ImportRest(table: Table, rest: seq<Range>, feeds: Feeds, start: int, ghost before: map<int, Bar>,
                    ghost done: seq<Range>, ghost series: seq<Bar>)
    returns (result: Result<(), BackfillError>)
    requires table.Valid() && Importing(before, table.rows, done, start, feeds.end, feeds)
    requires start % MINUTE == 0
    requires forall i :: 0 <= i < |rest| ==> Inside(rest[i], start, feeds.end)
    modifies table
    ensures table.Valid()
    ensures Extends(before, table.rows, start, feeds.end, feeds)
    ensures result.Ok? ==> Importing(before, table.rows, done + rest, start, feeds.end, feeds)
    ensures GaplessFeed(feeds, series, start) ==> result.Ok?
  {
    assert done + rest[..0] == done;
    for i := 0 to |rest|
      invariant table.Valid()
      invariant Importing(before, table.rows, done + rest[..i], start, feeds.end, feeds)
    {
      result := ImportRestRange(table, rest[i], feeds, start, before, done + rest[..i], series);
      if result.Err? {
        return;
      }
      assert done + rest[..i + 1] == done + rest[..i] + [rest[i]];
    }
    assert rest[..|rest|] == rest;
    return Ok(());
  }

  lemma RestRangeIsWhole(range: Range, start: int, end: int)
    requires Inside(range, start, end) && start % MINUTE == 0
    ensures WholeRange(range.start, range.end - MINUTE, SIXTEEN_HOURS)
    ensures (range.start - start) % MINUTE == 0 && (range.end - range.start) % MINUTE == 0
  {
  }

  /** Up to where it got, a range has added minutes of its own, all given by the server. */
  lemma RestAdded(rows: map<int, Bar>, after: map<int, Bar>, stored: seq<Bar>, range: Range, stop: int, start: int,
                  feeds: Feeds)
    requires Inside(range, start, feeds.end) && AllAnswered(feeds.server, stored)
    requires StoredRun(rows, after, stored, range.start, stop) && stop <= range.end
    ensures Extends(rows, after, start, feeds.end, feeds)
    ensures stop == range.end ==> HasMinutes(after, range)
  {
    assert AllGiven(stored, feeds);
    RunIsInside(rows, after, stored, range.start, stop, start, feeds.end, feeds);
  }

  // ----- Coverage --------------------------------------------------------------------------------

  lemma CoveredMinuteIsStored(before: map<int, Bar>, rows: map<int, Bar>, done: seq<Range>, start: int, end: int, t: int, feeds: Feeds)
    requires Importing(before, rows, done, start, end, feeds) && Clean(before, start, end)
    requires start <= t < end && t % MINUTE == 0 && Cover(done, t) >= 1
    ensures t in rows
  {
    CoveredBySome(done, t);
    var i :| 0 <= i < |done| && done[i].Contains(t);
    assert HasMinutes(rows, done[i]);
  }

  lemma GridOfRange(start: int, end: int, t: int)
    requires start < end && start % MINUTE == 0 && end % MINUTE == 0
    ensures t in Grid(start, (end - start) / MINUTE) <==> start <= t < end && t % MINUTE == 0
  {
    InGrid(start, (end - start) / MINUTE, t);
  }

  /** Once sources covering the whole range are in, the range is the full minute grid
      exactly when no row of it lay off the minute beforehand. */
  lemma CoverageDecided(before: map<int, Bar>, rows: map<int, Bar>, done: seq<Range>, start: int, end: int, feeds: Feeds)
    requires Importing(before, rows, done, start, end, feeds)
    requires start < end && start % MINUTE == 0 && end % MINUTE == 0
    requires forall t :: start <= t < end ==> Cover(done, t) >= 1
    ensures SliceOf(rows, start, end) == Grid(start, (end - start) / MINUTE) <==> Clean(before, start, end)
  {
    var grid := Grid(start, (end - start) / MINUTE);
    if Clean(before, start, end) {
      forall t
        ensures t in SliceOf(rows, start, end) <==> t in grid
      {
        GridOfRange(start, end, t);
        if start <= t < end && t % MINUTE == 0 {
          CoveredMinuteIsStored(before, rows, done, start, end, t, feeds);
        }
      }
    }
    if SliceOf(rows, start, end) == grid {
      forall t | t in before && start <= t < end
        ensures t % MINUTE == 0
      {
        GridOfRange(start, end, t);
        assert t in SliceOf(rows, start, end);
      }
    }
  }

  lemma ScanMeansGrid(slice: set<int>, start: int, end: int)
    requires start < end && (end - start) % MINUTE == 0
    ensures Gapless(slice, start) && |slice| == WholeMinutes(end - start) <==>
            slice == Grid(start, (end - start) / MINUTE)
  {
    GridSize(start, (end - start) / MINUTE);
  }

  // ----- The run ---------------------------------------------------------------------------------

  predicate ValidBoundaries(start: nat, end: nat) {
    OnMonth(start) && end % FOUR_HOURS == 0 && start < end
  }

  /** A run is taken from the first of a month to where every timeframe has a bar begin. */
  lemma BoundariesMeaning(start: nat, end: nat)
    ensures ValidBoundaries(start, end) <==>
            (exists month: nat :: start == MonthStart(month)) && OnEveryGrid(end) && start < end
  {
    if month: nat :| start == MonthStart(month) {
      MonthsAscend(month, month + 1);
      MonthIsUnique(start, month);
    }
    if end % FOUR_HOURS == 0 {
      FourHoursOnGrid(end);
    }
    assert OnEveryGrid(end) ==> H4.Aligned(end);
  }

  lemma BoundariesOnGrid(start: nat, end: nat)
    requires ValidBoundaries(start, end)
    ensures OnEveryGrid(start) && OnEveryGrid(end)
    ensures start % MINUTE == 0 && end % MINUTE == 0
  {
    MonthIsMidnight(MonthOf(start));
    FactorDivides(start, FOUR_HOURS, 6, DAY);
    FourHoursOnGrid(start);
    FourHoursOnGrid(end);
  }

  lemma FourHoursOnGrid(time: int)
    requires time % FOUR_HOURS == 0
    ensures OnEveryGrid(time) && time % MINUTE == 0
  {
    FactorDivides(time, 300, 48, FOUR_HOURS);
    FactorDivides(time, 900, 16, FOUR_HOURS);
    FactorDivides(time, 3600, 4, FOUR_HOURS);
    FactorDivides(time, 60, 240, FOUR_HOURS);
    forall tf: Timeframe
      ensures tf.Aligned(time)
    {
      match tf
      case M5 =>
      case M15 =>
      case H1 =>
      case H4 =>
    }
  }

  /** Sources the exchange keeps its promises for: every month is published, archives are
      full, and the REST server holds a gapless series over the range. */
  ghost predicate GoodSources(feeds: Feeds, series: seq<Bar>, start: int) {
    && (forall spec :: WellCut(spec, feeds.end) && spec.cadence.Monthly? ==> feeds.published(spec))
    && FullArchives(feeds.payload, feeds.published, feeds.end)
    && GaplessFeed(feeds, series, start)
  }

  function FlatMinutes(lo: int, count: int): seq<Bar> {
    seq(if count < 0 then 0 else count, i => Bar(lo + MINUTE * i, 1.0, 1.0, 1.0, 1.0, 1.0))
  }

  lemma FlatMinutesFill(lo: int, hi: int)
    requires lo <= hi && (hi - lo) % MINUTE == 0
    ensures Fills(FlatMinutes(lo, (hi - lo) / MINUTE), lo, hi)
    ensures Spaced(FlatMinutes(lo, (hi - lo) / MINUTE), MINUTE)
  {
  }

  function FlatArchive(spec: Spec): seq<Bar> {
    FlatMinutes(spec.range.start, (spec.range.end - spec.range.start) / MINUTE)
  }

  lemma FlatArchiveFull(spec: Spec, end: nat)
    requires WellCut(spec, end)
    ensures Fills(FlatArchive(spec), spec.range.start, spec.range.end)
  {
    WellCutOnMinutes(spec, end);
    WellCutNotEmpty(spec, end);
    var lo, hi := spec.range.start, spec.range.end;
    MultiplesAdd(hi, lo, MINUTE);
    FlatMinutesFill(lo, hi);
  }

  function ServerOf(series: seq<Bar>): Server {
    (from, upto) => FirstPage(Between(series, from, upto + 1))
  }

  lemma FlatSeriesServed(start: int, end: int)
    requires start <= end && (end - start) % MINUTE == 0
    ensures var series := FlatMinutes(start, (end - start) / MINUTE);
      Serves(ServerOf(series), series, MINUTE) && Fills(Between(series, start, end), start, end)
  {
    var series := FlatMinutes(start, (end - start) / MINUTE);
    FlatMinutesFill(start, end);
    EverythingBetween(series, start, end);
  }

  lemma FlatArchivesFull(published: Spec -> bool, end: nat)
    ensures FullArchives(FlatArchive, published, end)
  {
    forall spec | WellCut(spec, end) && published(spec)
      ensures Fills(FlatArchive(spec), spec.range.start, spec.range.end)
    {
      FlatArchiveFull(spec, end);
    }
  }

  predicate Always(spec: Spec) {
    true
  }

  /** Good sources are possible for every range of whole minutes. */
  lemma GoodSourcesExist(start: int, end: nat)
    requires start <= end && (end - start) % MINUTE == 0
    ensures var series := FlatMinutes(start, (end - start) / MINUTE);
      GoodSources(Feeds(ServerOf(series), FlatArchive, Always, end), series, start)
  {
    FlatSeriesServed(start, end);
    FlatArchivesFull(Always, end);
  }

  lemma WellCutNotEmpty(spec: Spec, end: nat)
    requires WellCut(spec, end)
    ensures spec.range.start < spec.range.end
  {
    if spec.cadence.Monthly? {
      MonthsAscend(MonthOf(spec.range.start), MonthOf(spec.range.start) + 1);
    }
  }

  lemma PlannedInside(specs: seq<Spec>, published: Spec -> bool, start: nat, end: nat)
    requires Planned(specs, start, TiledEnd(start, end), end) && start < end
    ensures Downloadable(Chosen(specs, published, true), published, start, end)
  {
    var downloaded := Chosen(specs, published, true);
    TilesAscend(specs, start, TiledEnd(start, end));
    TilesWithin(Spans(specs), start, TiledEnd(start, end));
    ChosenStaysStrict(specs, published, true);
    ChosenArePublished(specs, published);
    forall i | 0 <= i < |downloaded|
      ensures Inside(downloaded[i].range, start, end) && WellCut(downloaded[i], end)
    {
      var j :| 0 <= j < |specs| && specs[j] == downloaded[i];
      WellCutOnMinutes(specs[j], end);
      assert Spans(specs)[j] == downloaded[i].range;
    }
  }

  lemma {:induction false} ChosenArePublished(specs: seq<Spec>, published: Spec -> bool)
    ensures forall i :: 0 <= i < |Chosen(specs, published, true)| ==> published(Chosen(specs, published, true)[i])
    ensures forall i :: 0 <= i < |Chosen(specs, published, false)| ==> !published(Chosen(specs, published, false)[i])
  {
    if specs != [] {
      ChosenArePublished(specs[..|specs| - 1], published);
    }
  }

  lemma MonthsAllPublished(specs: seq<Spec>, published: Spec -> bool, start: nat, end: nat)
    requires Planned(specs, start, TiledEnd(start, end), end)
    requires forall spec :: WellCut(spec, end) && spec.cadence.Monthly? ==> published(spec)
    ensures !SomeMonthly(Chosen(specs, published, false))
  {
    TilesAscend(specs, start, TiledEnd(start, end));
    ChosenStaysStrict(specs, published, false);
    ChosenArePublished(specs, published);
    var unavailable := Chosen(specs, published, false);
    forall i | 0 <= i < |unavailable|
      ensures !unavailable[i].cadence.Monthly?
    {
      assert unavailable[i] in specs;
      assert WellCut(unavailable[i], end);
    }
  }

  lemma RestInside(plan: Plan, start: nat, end: nat)
    requires NoneEmpty(plan.rest) && OnMinutes(plan.rest)
    requires forall t :: Cover(plan.Sources(), t) >= 1 <==> start <= t < end
    ensures forall i :: 0 <= i < |plan.rest| ==> Inside(plan.rest[i], start, end)
  {
    forall i | 0 <= i < |plan.rest|
      ensures Inside(plan.rest[i], start, end)
    {
      var range := plan.rest[i];
      assert plan.Sources()[|plan.downloaded| + i] == range;
      CoveredBySome(plan.Sources(), range.start);
      CoveredBySome(plan.Sources(), range.end - 1);
      assert plan.Sources()[|plan.downloaded| + i].Contains(range.start);
      assert plan.Sources()[|plan.downloaded| + i].Contains(range.end - 1);
    }
  }

  /** Sources that cover the range and lie inside it. */
  ghost predicate Usable(plan: Plan, published: Spec -> bool, start: int, end: nat) {
    && Downloadable(plan.downloaded, published, start, end)
    && (forall i :: 0 <= i < |plan.rest| ==> Inside(plan.rest[i], start, end))
    && forall t :: start <= t < end ==> Cover(plan.Sources(), t) >= 1
  }

  lemma PlanIsUsable(specs: seq<Spec>, published: Spec -> bool, start: nat, end: nat, plan: Plan)
    requires ValidBoundaries(start, end) && Planned(specs, start, TiledEnd(start, end), end)
    requires plan.downloaded == Chosen(specs, published, true)
    requires plan.archiveEnd == ArchiveEnd(plan.downloaded, start)
    requires NoneEmpty(plan.rest) && OnMinutes(plan.rest) && Covers(plan, start, TiledEnd(start, end), end)
    ensures Usable(plan, published, start, end)
  {
    SourcesCoverRequest(specs, published, start, end, plan);
    PlannedInside(specs, published, start, end);
    RestInside(plan, start, end);
  }

  lemma NothingImported(rows: map<int, Bar>, start: int, end: int, feeds: Feeds)
    ensures Extends(rows, rows, start, end, feeds)
  {
  }

  /** Archives and REST ranges in, in that order. */
  method ImportSources(table: Table, plan: Plan, feeds: Feeds, start: int, batchSize: nat, ghost series: seq<Bar>)
    returns (result: Result<(), ImportError>)
    requires table.Valid() && 0 < batchSize && start % MINUTE == 0
    requires Usable(plan, feeds.published, start, feeds.end)
    modifies table
    ensures table.Valid()
    ensures Extends(old(table.rows), table.rows, start, feeds.end, feeds)
    ensures result.Ok? ==> Importing(old(table.rows), table.rows, plan.Sources(), start, feeds.end, feeds)
    ensures result.Err? ==> result.error.BadArchive? || result.error.BadRest?
    ensures GoodSources(feeds, series, start) ==> result.Ok?
  {
    var archives := ImportArchives(table, plan.downloaded, feeds, batchSize, start);
    if archives.Err? {
      return Err(BadArchive(archives.error));
    }
    var rest := ImportRest(table, plan.rest, feeds, start, old(table.rows), Spans(plan.downloaded), series);
    if rest.Err? {
      return Err(BadRest(rest.error));
    }
    return Ok(());
  }

  /** The table of one timeframe is the aggregate of the stored range and has the candle of
      every bucket of it. */
  ghost predicate DerivedFor(bars: seq<Bar>, rows: map<int, Bar>, start: int, end: int, tf: Timeframe) {
    && bars == Whole(Ordered(rows), tf, start, end).bars
    && HasEveryBucket(bars, tf, start, end)
  }

  ghost predicate Derived(tables: Tables, rows: map<int, Bar>, start: int, end: int) {
    forall tf: Timeframe :: tf in tables && DerivedFor(tables[tf], rows, start, end, tf)
  }

  /** A complete range on valid boundaries derives every bar of every timeframe. */
  lemma CompleteTableDerives(rows: map<int, Bar>, start: int, count: nat, end: int)
    requires Filed(rows) && end == start + MINUTE * count && OnEveryGrid(start) && OnEveryGrid(end)
    requires SliceOf(rows, start, end) == Grid(start, count)
    ensures TimeOrdered(Ordered(rows)) && NoGaps(Ordered(rows), start, end)
    ensures forall tf: Timeframe :: DerivedFor(Whole(Ordered(rows), tf, start, end).bars, rows, start, end, tf)
  {
    GridReadsBack(rows, start, count);
    CompleteRangeHasNoGaps(Ordered(rows), start, count, end);
    forall tf: Timeframe
      ensures DerivedFor(Whole(Ordered(rows), tf, start, end).bars, rows, start, end, tf)
    {
    }
  }

  /** Aggregation of a complete range cannot fail. */
  method DeriveComplete(rows: map<int, Bar>, start: int, ghost count: nat, end: int) returns (tables: Tables)
    requires Filed(rows) && start <= end == start + MINUTE * count && OnEveryGrid(start) && OnEveryGrid(end)
    requires SliceOf(rows, start, end) == Grid(start, count)
    ensures Derived(tables, rows, start, end)
  {
    CompleteTableDerives(rows, start, count, end);
    var derived := AggregateTimeframes(Ordered(rows), start, end);
    tables := derived.value;
    forall tf: Timeframe
      ensures tf in tables && DerivedFor(tables[tf], rows, start, end, tf)
    {
      assert tables[tf] == Whole(Ordered(rows), tf, start, end).bars;
    }
  }

  method CoverageHolds(table: Table, start: int, end: int) returns (complete: bool)
    requires start < end && (end - start) % MINUTE == 0
    ensures complete <==> SliceOf(table.rows, start, end) == Grid(start, (end - start) / MINUTE)
  {
    complete := ScanCoverage(table.Slice(start, end), start, end);
    ScanMeansGrid(SliceOf(table.rows, start, end), start, end);
  }

  /** Coverage check, then aggregation. */
  method CheckAndDerive(table: Table, start: int, end: int) returns (result: Result<Tables, ImportError>)
    requires table.Valid() && start < end && (end - start) % MINUTE == 0
    requires OnEveryGrid(start) && OnEveryGrid(end)
    ensures result.Ok? <==> SliceOf(table.rows, start, end) == Grid(start, (end - start) / MINUTE)
    ensures result.Ok? ==> Derived(result.value, table.rows, start, end)
    ensures result.Err? ==> result.error == IncompleteCoverage
  {
    var complete := CoverageHolds(table, start, end);
    if !complete {
      return Err(IncompleteCoverage);
    }
    var tables := DeriveComplete(table.rows, start, (end - start) / MINUTE, end);
    return Ok(tables);
  }

  /** What a run that reached its sources can end in. */
  ghost predicate Outcome(result: Result<Tables, ImportError>, before: map<int, Bar>, after: map<int, Bar>,
                          start: int, end: int, feeds: Feeds) {
    && Extends(before, after, start, end, feeds)
    && match result
       case Ok(tables) =>
         && start < end && SliceOf(after, start, end) == Grid(start, (end - start) / MINUTE)
         && Derived(tables, after, start, end)
         && Clean(before, start, end)
       case Err(error) => !error.BadAggregation? && (error.IncompleteCoverage? ==> !Clean(before, start, end))
  }

  lemma DecideOutcome(result: Result<Tables, ImportError>, before: map<int, Bar>, after: map<int, Bar>, plan: Plan,
                      published: Spec -> bool, start: int, end: nat, feeds: Feeds)
    requires start < end && start % MINUTE == 0 && end % MINUTE == 0
    requires Extends(before, after, start, end, feeds) && Importing(before, after, plan.Sources(), start, end, feeds)
    requires Usable(plan, published, start, end)
    requires result.Ok? <==> SliceOf(after, start, end) == Grid(start, (end - start) / MINUTE)
    requires if result.Ok? then Derived(result.value, after, start, end) else result.error == IncompleteCoverage
    ensures Outcome(result, before, after, start, end, feeds)
    ensures if Clean(before, start, end) then result.Ok? else result.Err?
  {
    CoverageDecided(before, after, plan.Sources(), start, end, feeds);
  }

  /** Everything after planning. */
  method ImportAndDerive(table: Table, plan: Plan, feeds: Feeds, start: int, batchSize: nat, ghost series: seq<Bar>)
    returns (result: Result<Tables, ImportError>)
    requires table.Valid() && 0 < batchSize && start < feeds.end
    requires start % MINUTE == 0 && feeds.end % MINUTE == 0 && OnEveryGrid(start) && OnEveryGrid(feeds.end)
    requires Usable(plan, feeds.published, start, feeds.end)
    modifies table
    ensures table.Valid() && Outcome(result, old(table.rows), table.rows, start, feeds.end, feeds)
    ensures result.Err? ==> !result.error.BadBoundaries?
    ensures GoodSources(feeds, series, start) ==>
      if Clean(old(table.rows), start, feeds.end) then result.Ok? else result.Err? && result.error.IncompleteCoverage?
  {
    var imported := ImportSources(table, plan, feeds, start, batchSize, series);
    if imported.Err? {
      return Err(imported.error);
    }
    result := CheckAndDerive(table, start, feeds.end);
    DecideOutcome(result, old(table.rows), table.rows, plan, feeds.published, start, feeds.end, feeds);
  }

  /** A plan on valid boundaries, usable as it stands; without one a monthly archive is
      missing. */
  method PlanRun(start: nat, end: nat, published: Spec -> bool, arrive: seq<Spec> -> seq<Spec>)
    returns (result: Result<Plan, PlanError>)
    requires ValidBoundaries(start, end)
    requires forall list :: multiset(arrive(list)) == multiset(list)
    ensures result.Err? ==> exists spec :: WellCut(spec, end) && spec.cadence.Monthly? && !published(spec)
    ensures result.Ok? ==> Usable(result.value, published, start, end)
  {
    BoundariesOnGrid(start, end);
    var specs;
    result, specs := PlanSources(start, end, published, arrive);
    if result.Ok? {
      PlanIsUsable(specs, published, start, end, result.value);
    } else if forall spec :: WellCut(spec, end) && spec.cadence.Monthly? ==> published(spec) {
      MonthsAllPublished(specs, published, start, end);
    }
  }

  /** `run_history_backfill` for one symbol. Nothing outside the range changes, nothing but
      whole minutes is added to it, and every new value was given by a source. The run ends
      with every minute of the range stored and every bar of every timeframe derived, or with
      an error. Once the sources are in, the coverage check passes exactly when no row of the
      range lay off the minute beforehand; with good sources that alone decides the whole run. */
  method RunImport(table: Table, feeds: Feeds, arrive: seq<Spec> -> seq<Spec>, start: nat, batchSize: nat,
                   ghost series: seq<Bar>)
    returns (result: Result<Tables, ImportError>)
    requires table.Valid() && 0 < batchSize
    requires forall list :: multiset(arrive(list)) == multiset(list)
    modifies table
    ensures table.Valid() && Outcome(result, old(table.rows), table.rows, start, feeds.end, feeds)
    ensures result.Err? && result.error.BadBoundaries? <==> !ValidBoundaries(start, feeds.end)
    ensures ValidBoundaries(start, feeds.end) && GoodSources(feeds, series, start) ==>
      if Clean(old(table.rows), start, feeds.end) then result.Ok? else result.Err? && result.error.IncompleteCoverage?
  {
    NothingImported(table.rows, start, feeds.end, feeds);
    if !ValidBoundaries(start, feeds.end) {
      return Err(BadBoundaries);
    }
    BoundariesOnGrid(start, feeds.end);
    var planned := PlanRun(start, feeds.end, feeds.published, arrive);
    if planned.Err? {
      return Err(BadPlan(planned.error));
    }
    result := ImportAndDerive(table, planned.value, feeds, start, batchSize, series);
  }

  // ----- What the stored values are ----------------------------------------------------------------

  /** All sources, and the rows of the range from before, tell the same series. */
  ghost predicate OneSeries(feeds: Feeds, series: seq<Bar>, before: map<int, Bar>, start: int) {
    && Serves(feeds.server, series, MINUTE)
    && (forall spec, bar :: WellCut(spec, feeds.end) && feeds.published(spec) && bar in feeds.payload(spec) ==>
          bar in series)
    && (forall t :: t in before && start <= t < feeds.end ==> before[t] in series)
  }

  lemma AnsweredInSeries(server: Server, series: seq<Bar>, bar: Bar)
    requires Serves(server, series, MINUTE) && Answers(server, bar)
    ensures bar in series
  {
    var from, upto :| bar in server(from, upto);
    var page := Between(series, from, upto + 1);
    assert server(from, upto) == FirstPage(page);
    BetweenSpaced(series, MINUTE, from, upto + 1);
    var i :| 0 <= i < |FirstPage(page)| && FirstPage(page)[i] == bar;
    assert page[i] == bar;
  }

  lemma StoredInSeries(feeds: Feeds, series: seq<Bar>, before: map<int, Bar>, after: map<int, Bar>, start: int, t: int)
    requires OneSeries(feeds, series, before, start) && Sourced(before, after, feeds)
    requires t in after && start <= t < feeds.end
    ensures after[t] in series
  {
    if !(t in before && after[t] == before[t]) && Answers(feeds.server, after[t]) {
      AnsweredInSeries(feeds.server, series, after[t]);
    }
  }

  ghost predicate AllFrom(bars: seq<Bar>, series: seq<Bar>) {
    forall i :: 0 <= i < |bars| ==> bars[i] in series
  }

  lemma SliceIsFrom(series: seq<Bar>, lo: int, hi: int)
    requires Spaced(series, MINUTE)
    ensures AllFrom(Between(series, lo, hi), series)
  {
    BetweenSpaced(series, MINUTE, lo, hi);
  }

  /** Bars of one series with the same times are the same bars. */
  lemma SameTimesSameBars(a: seq<Bar>, b: seq<Bar>, series: seq<Bar>, start: int, count: nat)
    requires Spaced(series, MINUTE) && Consecutive(a, start, count) && Consecutive(b, start, count)
    requires AllFrom(a, series) && AllFrom(b, series)
    ensures a == b
  {
    forall i | 0 <= i < count
      ensures a[i] == b[i]
    {
      var j :| 0 <= j < |series| && series[j] == a[i];
      var k :| 0 <= k < |series| && series[k] == b[i];
      assert a[i].time == b[i].time;
      assert !(j < k) && !(k < j);
    }
  }

  lemma ReadBackInSeries(feeds: Feeds, series: seq<Bar>, before: map<int, Bar>, after: map<int, Bar>, start: int)
    requires OneSeries(feeds, series, before, start) && Sourced(before, after, feeds) && Filed(after)
    ensures AllFrom(Between(Ordered(after), start, feeds.end), series)
  {
    var bars := Between(Ordered(after), start, feeds.end);
    OrderedTimes(after);
    BetweenSpaced(Ordered(after), 1, start, feeds.end);
    forall i | 0 <= i < |bars|
      ensures bars[i] in series
    {
      OrderedIsStored(after, bars[i]);
      StoredInSeries(feeds, series, before, after, start, bars[i].time);
    }
  }

  lemma ReadsBackTo(rows: map<int, Bar>, start: int, end: int, count: nat)
    requires Filed(rows) && end == start + MINUTE * count && SliceOf(rows, start, end) == Grid(start, count)
    ensures Consecutive(Between(Ordered(rows), start, end), start, count)
  {
    GridReadsBack(rows, start, count);
  }

  lemma StoredSlice(feeds: Feeds, series: seq<Bar>, before: map<int, Bar>, after: map<int, Bar>, start: int,
                    count: nat)
    requires Filed(after) && Sourced(before, after, feeds) && feeds.end == start + MINUTE * count
    requires SliceOf(after, start, feeds.end) == Grid(start, count) && OneSeries(feeds, series, before, start)
    ensures var bars := Between(Ordered(after), start, feeds.end);
      Consecutive(bars, start, count) && AllFrom(bars, series)
  {
    ReadsBackTo(after, start, feeds.end, count);
    ReadBackInSeries(feeds, series, before, after, start);
  }

  /** A full range whose sources tell one series without a gap is that series, bar by bar. */
  lemma FullRangeIsSeries(feeds: Feeds, series: seq<Bar>, before: map<int, Bar>, after: map<int, Bar>, start: int,
                          count: nat)
    requires Filed(after) && Sourced(before, after, feeds) && feeds.end == start + MINUTE * count
    requires SliceOf(after, start, feeds.end) == Grid(start, count) && OneSeries(feeds, series, before, start)
    requires Consecutive(Between(series, start, feeds.end), start, count)
    ensures Between(Ordered(after), start, feeds.end) == Between(series, start, feeds.end)
  {
    var stored, told := Between(Ordered(after), start, feeds.end), Between(series, start, feeds.end);
    StoredSlice(feeds, series, before, after, start, count);
    SliceIsFrom(series, start, feeds.end);
    SameTimesSameBars(stored, told, series, start, count);
  }

  /** After a successful run whose sources tell one series without a gap, the stored range is
      that series. */
  lemma StoredRangeIsSeries(result: Result<Tables, ImportError>, feeds: Feeds, series: seq<Bar>,
                            before: map<int, Bar>, after: map<int, Bar>, start: int)
    requires Filed(after) && Outcome(result, before, after, start, feeds.end, feeds) && result.Ok?
    requires OneSeries(feeds, series, before, start) && GaplessFeed(feeds, series, start)
    ensures Between(Ordered(after), start, feeds.end) == Between(series, start, feeds.end)
  {
    FullRangeIsSeries(feeds, series, before, after, start, (feeds.end - start) / MINUTE);
  }
}
