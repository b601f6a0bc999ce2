/** Which archives a backfill asks for, what arrives of them, and which stretches are
    left to the REST interface. */
module Archives {
  import opened Market
  import opened Calendar
  import opened Ranges
  import Sorting

  datatype Cadence = Monthly | Daily

  datatype Spec = Spec(range: Range, cadence: Cadence)

  datatype PlanError = StartNotOnMonth | MonthlyUnavailable

  function Spans(specs: seq<Spec>): (ranges: seq<Range>)
    ensures |ranges| == |specs|
    ensures forall i :: 0 <= i < |specs| ==> ranges[i] == specs[i].range
  {
    seq(|specs|, i requires 0 <= i < |specs| => specs[i].range)
  }

  lemma SpansOfMore(specs: seq<Spec>, next: Spec)
    ensures Spans(specs + [next]) == Spans(specs) + [next.range]
  {
  }

  predicate OnMonth(time: nat) {
    MonthStart(MonthOf(time)) == time
  }

  /** A monthly archive is one calendar month before the month of `end`; a daily one is
      one whole day of that month. */
  predicate WellCut(spec: Spec, end: nat) {
    var range := spec.range;
    && range.start >= 0
    && match spec.cadence
       case Monthly =>
         var month := MonthOf(range.start);
         range == Range(MonthStart(month), MonthStart(month + 1)) && month < MonthOf(end)
       case Daily =>
         range.start % DAY == 0 && range.end == range.start + DAY
         && MonthStart(MonthOf(end)) <= range.start && range.end <= FloorDay(end)
  }

  predicate AllWellCut(specs: seq<Spec>, end: nat) {
    forall i :: 0 <= i < |specs| ==> WellCut(specs[i], end)
  }

  /** Where the archives stop: midnight of the last day, or the start if that is later. */
  function TiledEnd(start: nat, end: nat): nat {
    if start < FloorDay(end) then FloorDay(end) else start
  }

  lemma MonthStartsItself(month: nat)
    ensures MonthOf(MonthStart(month)) == month && MonthStart(month) < MonthStart(month + 1)
    ensures OnMonth(MonthStart(month))
  {
    MonthsAscend(month, month + 1);
    MonthIsUnique(MonthStart(month), month);
  }

  lemma MonthBelowDay(end: nat)
    ensures MonthStart(MonthOf(end)) <= FloorDay(end)
  {
    var first := MonthStart(MonthOf(end));
    assert first % DAY == 0;
  }

  /** The specs tile the time from `start` to `cursor`, each one well cut. */
  predicate Planned(specs: seq<Spec>, start: int, cursor: int, end: nat) {
    Tiles(Spans(specs), start, cursor) && AllWellCut(specs, end)
  }

  lemma OneMoreSpec(specs: seq<Spec>, next: Spec, start: int, cursor: int, end: nat)
    requires Planned(specs, start, cursor, end)
    requires next.range.start == cursor < next.range.end && WellCut(next, end)
    ensures Planned(specs + [next], start, next.range.end, end)
  {
    SpansOfMore(specs, next);
    var ranges := Spans(specs + [next]);
    assert ranges[..|ranges| - 1] == Spans(specs);
  }

  /** The monthly loop. */
  method MonthlySpecs(start: nat, end: nat) returns (specs: seq<Spec>, cursor: nat)
    requires OnMonth(start)
    ensures Planned(specs, start, cursor, end)
    ensures OnMonth(cursor)
    ensures cursor == if start < MonthStart(MonthOf(end)) then MonthStart(MonthOf(end)) else start
  {
    specs, cursor := [], start;
    var currentMonth := MonthStart(MonthOf(end));
    while cursor < (if currentMonth < end then currentMonth else end)
      invariant Planned(specs, start, cursor, end)
      invariant OnMonth(cursor) && start <= cursor
      invariant start < currentMonth ==> cursor <= currentMonth
      invariant currentMonth <= start ==> cursor == start
      decreases currentMonth - cursor
    {
      var month := MonthOf(cursor);
      var following := MonthStart(month + 1);
      NextMonthFits(cursor, end);
      var spec := Spec(Range(cursor, following), Monthly);
      OneMoreSpec(specs, spec, start, cursor, end);
      specs := specs + [spec];
      cursor := following;
    }
  }

  lemma NextMonthFits(cursor: nat, end: nat)
    requires OnMonth(cursor) && cursor < MonthStart(MonthOf(end))
    ensures MonthOf(cursor) < MonthOf(end)
    ensures cursor < MonthStart(MonthOf(cursor) + 1) <= MonthStart(MonthOf(end))
    ensures OnMonth(MonthStart(MonthOf(cursor) + 1))
  {
    var month := MonthOf(cursor);
    if MonthOf(end) <= month {
      MonthsAscend(MonthOf(end), month);
    }
    MonthsAscend(month + 1, MonthOf(end));
    MonthStartsItself(month + 1);
  }

  lemma NextDayFits(cursor: nat, end: nat)
    requires cursor % DAY == 0 && MonthStart(MonthOf(end)) <= cursor < FloorDay(end)
    ensures cursor + DAY <= FloorDay(end) && (cursor + DAY) % DAY == 0
    ensures WellCut(Spec(Range(cursor, cursor + DAY), Daily), end)
  {
  }

  lemma OneMoreDay(specs: seq<Spec>, start: int, cursor: nat, end: nat)
    requires Planned(specs, start, cursor, end)
    requires cursor % DAY == 0 && MonthStart(MonthOf(end)) <= cursor < FloorDay(end)
    ensures cursor + DAY <= FloorDay(end) && (cursor + DAY) % DAY == 0
    ensures Planned(specs + [Spec(Range(cursor, cursor + DAY), Daily)], start, cursor + DAY, end)
  {
    NextDayFits(cursor, end);
    OneMoreSpec(specs, Spec(Range(cursor, cursor + DAY), Daily), start, cursor, end);
  }

  /** The daily loop. */
  method DailySpecs(monthly: seq<Spec>, start: nat, from: nat, end: nat) returns (specs: seq<Spec>)
    requires Planned(monthly, start, from, end)
    requires from % DAY == 0 && MonthStart(MonthOf(end)) <= from
    ensures Planned(specs, start, TiledEnd(from, end), end)
  {
    specs := monthly;
    var cursor := from;
    var completeDayEnd := FloorDay(end);
    while cursor < completeDayEnd
      invariant Planned(specs, start, cursor, end)
      invariant cursor % DAY == 0 && from <= cursor
      invariant cursor <= completeDayEnd || cursor == from
    {
      var following := cursor + DAY;
      OneMoreDay(specs, start, cursor, end);
      specs := specs + [Spec(Range(cursor, following), Daily)];
      cursor := following;
    }
  }

  /** `build_vision_archive_specs`: the months before the month of `end`, then its
      finished days. Together they tile the time up to the last midnight. */
  method BuildSpecs(start: nat, end: nat) returns (result: Result<seq<Spec>, PlanError>)
    ensures result.Ok? <==> OnMonth(start)
    ensures result.Ok? ==> Planned(result.value, start, TiledEnd(start, end), end)
  {
    if !OnMonth(start) {
      return Err(StartNotOnMonth);
    }
    var monthly, cursor := MonthlySpecs(start, end);
    MonthBelowDay(end);
    MonthIsMidnight(MonthOf(cursor));
    var specs := DailySpecs(monthly, start, cursor, end);
    return Ok(specs);
  }

  lemma MonthIsMidnight(month: nat)
    ensures MonthStart(month) % DAY == 0
  {
  }

  // ----- Downloads --------------------------------------------------------------------------

  /** The specs whose archive is (or is not) published, in the order given. */
  function Chosen(specs: seq<Spec>, published: Spec -> bool, wanted: bool): seq<Spec> {
    if specs == [] then []
    else
      var earlier, last := Chosen(specs[..|specs| - 1], published, wanted), specs[|specs| - 1];
      if published(last) == wanted then earlier + [last] else earlier
  }

  lemma {:induction false} ChosenMembers(specs: seq<Spec>, published: Spec -> bool, wanted: bool, spec: Spec)
    ensures multiset(Chosen(specs, published, wanted))[spec] ==
            if published(spec) == wanted then multiset(specs)[spec] else 0
  {
    if specs != [] {
      ChosenMembers(specs[..|specs| - 1], published, wanted, spec);
      assert specs == specs[..|specs| - 1] + [specs[|specs| - 1]];
    }
  }

  /** Every span is either downloaded or unavailable. */
  lemma {:induction false} ChosenCover(specs: seq<Spec>, published: Spec -> bool, time: int)
    ensures Cover(Spans(Chosen(specs, published, true)), time) + Cover(Spans(Chosen(specs, published, false)), time)
            == Cover(Spans(specs), time)
  {
    if specs != [] {
      var n := |specs| - 1;
      ChosenCover(specs[..n], published, time);
      assert Spans(specs)[..n] == Spans(specs[..n]);
      var wanted := published(specs[n]);
      assert Spans(Chosen(specs, published, wanted))[..|Chosen(specs[..n], published, wanted)|] ==
             Spans(Chosen(specs[..n], published, wanted));
    }
  }

  predicate ByStart(specs: seq<Spec>) {
    forall i, j :: 0 <= i < j < |specs| ==> specs[i].range.start <= specs[j].range.start
  }

  predicate StrictlyByStart(specs: seq<Spec>) {
    forall i, j :: 0 <= i < j < |specs| ==> specs[i].range.start < specs[j].range.start
  }

  predicate StartsBy(a: Spec, b: Spec) {
    a.range.start <= b.range.start
  }

  /** `sorted(..., key=expected_start)`. */
  function SortByStart(specs: seq<Spec>): seq<Spec> {
    Sorting.Sort(specs, StartsBy)
  }

  lemma SortMeaning(specs: seq<Spec>)
    ensures ByStart(SortByStart(specs)) && multiset(SortByStart(specs)) == multiset(specs)
  {
    Sorting.SortMeaning(specs, StartsBy);
    assert forall i, j :: 0 <= i < j < |specs| ==> StartsBy(SortByStart(specs)[i], SortByStart(specs)[j]);
  }

  lemma SameLastSpec(a: seq<Spec>, b: seq<Spec>)
    requires ByStart(a) && StrictlyByStart(b) && a != [] && b != []
    requires a[|a| - 1] in b && b[|b| - 1] in a
    ensures a[|a| - 1] == b[|b| - 1]
  {
    var i :| 0 <= i < |b| && b[i] == a[|a| - 1];
    var j :| 0 <= j < |a| && a[j] == b[|b| - 1];
  }

  lemma DropLast(a: seq<Spec>)
    requires a != []
    ensures multiset(a[..|a| - 1]) == multiset(a) - multiset{a[|a| - 1]}
    ensures a[|a| - 1] in multiset(a)
  {
    assert a == a[..|a| - 1] + [a[|a| - 1]];
  }

  lemma SameLength(a: seq<Spec>, b: seq<Spec>)
    requires multiset(a) == multiset(b)
    ensures |a| == |b|
  {
    assert |multiset(a)| == |a|;
  }

  lemma DropBoth(a: seq<Spec>, b: seq<Spec>)
    requires ByStart(a) && StrictlyByStart(b) && multiset(a) == multiset(b) && a != []
    ensures |a| == |b| && a[|a| - 1] == b[|a| - 1]
    ensures multiset(a[..|a| - 1]) == multiset(b[..|a| - 1])
  {
    SameLength(a, b);
    DropLast(a);
    DropLast(b);
    SameLastSpec(a, b);
  }

  /** A sorted list whose starts are distinct is determined by its members. */
  lemma {:induction false} SortedIsUnique(a: seq<Spec>, b: seq<Spec>)
    requires ByStart(a) && StrictlyByStart(b) && multiset(a) == multiset(b)
    ensures a == b
  {
    if a == [] {
      SameLength(a, b);
    } else {
      var n := |a| - 1;
      DropBoth(a, b);
      SortedIsUnique(a[..n], b[..n]);
      assert a == a[..n] + [a[n]] && b == b[..n] + [b[n]];
    }
  }

  lemma {:induction false} ChosenStaysStrict(specs: seq<Spec>, published: Spec -> bool, wanted: bool)
    requires StrictlyByStart(specs)
    ensures StrictlyByStart(Chosen(specs, published, wanted))
    ensures forall i :: 0 <= i < |Chosen(specs, published, wanted)| ==> Chosen(specs, published, wanted)[i] in specs
  {
    if specs != [] {
      ChosenStaysStrict(specs[..|specs| - 1], published, wanted);
    }
  }

  lemma ArrivalOrderForgotten(specs: seq<Spec>, arrivals: seq<Spec>, published: Spec -> bool, wanted: bool)
    requires StrictlyByStart(specs) && multiset(arrivals) == multiset(specs)
    ensures SortByStart(Chosen(arrivals, published, wanted)) == Chosen(specs, published, wanted)
  {
    var arrived, planned := Chosen(arrivals, published, wanted), Chosen(specs, published, wanted);
    forall spec
      ensures multiset(arrived)[spec] == multiset(planned)[spec]
    {
      ChosenMembers(arrivals, published, wanted, spec);
      ChosenMembers(specs, published, wanted, spec);
    }
    assert multiset(arrived) == multiset(planned);
    SortMeaning(arrived);
    ChosenStaysStrict(specs, published, wanted);
    SortedIsUnique(SortByStart(arrived), planned);
  }

  /** `_download_archives`: results are collected as they arrive and sorted afterwards, so
      the order in which the downloads finish does not matter. */
  method DownloadArchives(ghost specs: seq<Spec>, arrivals: seq<Spec>, published: Spec -> bool)
    returns (downloaded: seq<Spec>, unavailable: seq<Spec>)
    requires StrictlyByStart(specs) && multiset(arrivals) == multiset(specs)
    ensures downloaded == Chosen(specs, published, true)
    ensures unavailable == Chosen(specs, published, false)
  {
    downloaded, unavailable := [], [];
    for i := 0 to |arrivals|
      invariant downloaded == Chosen(arrivals[..i], published, true)
      invariant unavailable == Chosen(arrivals[..i], published, false)
    {
      assert arrivals[..i + 1][..i] == arrivals[..i];
      if published(arrivals[i]) {
        downloaded := downloaded + [arrivals[i]];
      } else {
        unavailable := unavailable + [arrivals[i]];
      }
    }
    assert arrivals[..|arrivals|] == arrivals;
    ArrivalOrderForgotten(specs, arrivals, published, true);
    ArrivalOrderForgotten(specs, arrivals, published, false);
    downloaded, unavailable := SortByStart(downloaded), SortByStart(unavailable);
  }

  lemma {:induction false} TilesAscend(specs: seq<Spec>, lo: int, hi: int)
    requires Tiles(Spans(specs), lo, hi)
    ensures StrictlyByStart(specs)
    ensures forall i :: 0 <= i < |specs| ==> specs[i].range.start < hi
  {
    if specs != [] {
      var n := |specs| - 1;
      assert Spans(specs)[..n] == Spans(specs[..n]);
      TilesAscend(specs[..n], lo, specs[n].range.start);
    }
  }

  // ----- The rest -----------------------------------------------------------------------------

  /** `max(expected_end_exclusive, default=start)`. */
  function ArchiveEnd(downloaded: seq<Spec>, start: int): int {
    if downloaded == [] then start
    else
      var n := |downloaded| - 1;
      if n == 0 || ArchiveEnd(downloaded[..n], start) < downloaded[n].range.end then downloaded[n].range.end
      else ArchiveEnd(downloaded[..n], start)
  }

  /** Of tiles, the downloads reach the end of the last one that is published. */
  lemma {:induction false} ArchiveEndOfTiles(specs: seq<Spec>, published: Spec -> bool, lo: int, hi: int)
    requires Tiles(Spans(specs), lo, hi)
    ensures var reached := ArchiveEnd(Chosen(specs, published, true), lo);
      && lo <= reached <= hi
      && (reached == hi <==> specs == [] || published(specs[|specs| - 1]))
  {
    if specs != [] {
      var n := |specs| - 1;
      assert Spans(specs)[..n] == Spans(specs[..n]);
      ArchiveEndOfTiles(specs[..n], published, lo, specs[n].range.start);
      var earlier := Chosen(specs[..n], published, true);
      if published(specs[n]) {
        assert (earlier + [specs[n]])[..|earlier|] == earlier;
      }
    }
  }

  predicate SomeMonthly(specs: seq<Spec>) {
    exists i :: 0 <= i < |specs| && specs[i].cadence.Monthly?
  }

  method AnyMonthly(specs: seq<Spec>) returns (found: bool)
    ensures found == SomeMonthly(specs)
  {
    for i := 0 to |specs|
      invariant forall j :: 0 <= j < i ==> !specs[j].cadence.Monthly?
    {
      if specs[i].cadence.Monthly? {
        return true;
      }
    }
    return false;
  }

  /** Downloads up to `archiveEnd`, and the merged ranges to fetch. */
  datatype Plan = Plan(downloaded: seq<Spec>, archiveEnd: int, rest: seq<Range>) {
    function Sources(): seq<Range> {
      Spans(downloaded) + rest
    }
  }

  /** The plan's sources cover the requested time once, and the stretch from the last
      download to the last planned archive once more. */
  ghost predicate Covers(plan: Plan, start: int, tiledEnd: int, end: int) {
    forall time ::
      Cover(plan.Sources(), time) == Once(start <= time < end) + Once(plan.archiveEnd <= time < tiledEnd)
  }

  lemma CoverOfPlan(specs: seq<Spec>, published: Spec -> bool, start: nat, end: nat, rest: seq<Range>, time: int)
    requires Tiles(Spans(specs), start, TiledEnd(start, end))
    requires var reached := ArchiveEnd(Chosen(specs, published, true), start);
      Cover(rest, time) == Cover(Spans(Chosen(specs, published, false)), time) + Once(reached <= time < end)
    ensures var reached := ArchiveEnd(Chosen(specs, published, true), start);
      Cover(Spans(Chosen(specs, published, true)) + rest, time) ==
      Once(start <= time < end) + Once(reached <= time < TiledEnd(start, end))
  {
    CoverOfJoin(Spans(Chosen(specs, published, true)), rest, time);
    ChosenCover(specs, published, time);
    TilesCoverOnce(Spans(specs), start, TiledEnd(start, end), time);
    ArchiveEndOfTiles(specs, published, start, TiledEnd(start, end));
  }

  /** The ranges handed to `_merge_ranges`. */
  function Candidates(unavailable: seq<Spec>, archiveEnd: int, end: int): seq<Range> {
    Spans(unavailable) + if archiveEnd < end then [Range(archiveEnd, end)] else []
  }

  lemma CoverOfCandidates(unavailable: seq<Spec>, archiveEnd: int, end: int, time: int)
    ensures Cover(Candidates(unavailable, archiveEnd, end), time) ==
            Cover(Spans(unavailable), time) + Once(archiveEnd <= time < end)
  {
    var tail := if archiveEnd < end then [Range(archiveEnd, end)] else [];
    CoverOfJoin(Spans(unavailable), tail, time);
    assert tail != [] ==> tail[..0] == [] && Cover(tail, time) == Once(tail[0].Contains(time));
  }

  lemma CandidatesNoneEmpty(specs: seq<Spec>, published: Spec -> bool, archiveEnd: int, lo: int, hi: int, end: int)
    requires Tiles(Spans(specs), lo, hi)
    ensures NoneEmpty(Candidates(Chosen(specs, published, false), archiveEnd, end))
  {
    TilesAscend(specs, lo, hi);
    TilesWithin(Spans(specs), lo, hi);
    ChosenStaysStrict(specs, published, false);
    var unavailable := Chosen(specs, published, false);
    forall i | 0 <= i < |unavailable|
      ensures unavailable[i].range.start < unavailable[i].range.end
    {
      var j :| 0 <= j < |specs| && specs[j] == unavailable[i];
      assert Spans(specs)[j] == specs[j].range;
    }
  }

  predicate OnMinutes(ranges: seq<Range>) {
    forall i :: 0 <= i < |ranges| ==> ranges[i].start % 60 == 0 && ranges[i].end % 60 == 0
  }

  lemma {:induction false} EndpointsOnMinutes(ranges: seq<Range>)
    requires OnMinutes(ranges)
    ensures forall t :: t in Endpoints(ranges) ==> t % 60 == 0
  {
    if ranges != [] {
      EndpointsOnMinutes(ranges[..|ranges| - 1]);
    }
  }

  lemma OnMinutesEndpoints(ranges: seq<Range>)
    requires forall t :: t in Endpoints(ranges) ==> t % 60 == 0
    ensures OnMinutes(ranges)
  {
    forall i | 0 <= i < |ranges|
      ensures ranges[i].start % 60 == 0 && ranges[i].end % 60 == 0
    {
      EndpointsOfMember(ranges, i);
    }
  }

  lemma MidnightOnMinute(time: int)
    requires time % DAY == 0
    ensures time % 60 == 0 && (time + DAY) % 60 == 0
  {
  }

  lemma MonthOnMinute(month: nat)
    ensures MonthStart(month) % 60 == 0
  {
    MonthIsMidnight(month);
    MidnightOnMinute(MonthStart(month));
  }

  lemma WellCutOnMinutes(spec: Spec, end: nat)
    requires WellCut(spec, end)
    ensures spec.range.start % 60 == 0 && spec.range.end % 60 == 0
  {
    match spec.cadence
    case Monthly =>
      MonthOnMinute(MonthOf(spec.range.start));
      MonthOnMinute(MonthOf(spec.range.start) + 1);
    case Daily =>
      MidnightOnMinute(spec.range.start);
  }

  lemma ChosenOnMinutes(specs: seq<Spec>, published: Spec -> bool, wanted: bool, start: nat, end: nat)
    requires Planned(specs, start, TiledEnd(start, end), end)
    ensures OnMinutes(Spans(Chosen(specs, published, wanted)))
  {
    TilesAscend(specs, start, TiledEnd(start, end));
    ChosenStaysStrict(specs, published, wanted);
    var chosen := Chosen(specs, published, wanted);
    forall i | 0 <= i < |chosen|
      ensures chosen[i].range.start % 60 == 0 && chosen[i].range.end % 60 == 0
    {
      assert chosen[i] in specs;
      WellCutOnMinutes(chosen[i], end);
    }
  }

  lemma {:induction false} ArchiveEndOnMinutes(downloaded: seq<Spec>, start: int)
    requires OnMinutes(Spans(downloaded)) && start % 60 == 0
    ensures ArchiveEnd(downloaded, start) % 60 == 0
  {
    if downloaded != [] {
      assert Spans(downloaded)[|downloaded| - 1] == downloaded[|downloaded| - 1].range;
      assert Spans(downloaded)[..|downloaded| - 1] == Spans(downloaded[..|downloaded| - 1]);
      ArchiveEndOnMinutes(downloaded[..|downloaded| - 1], start);
    }
  }

  lemma TailOnMinutes(unavailable: seq<Spec>, archiveEnd: int, end: int)
    requires OnMinutes(Spans(unavailable)) && archiveEnd % 60 == 0 && end % 60 == 0
    ensures OnMinutes(Candidates(unavailable, archiveEnd, end))
  {
  }

  lemma CandidatesOnMinutes(specs: seq<Spec>, published: Spec -> bool, start: nat, end: nat)
    requires Planned(specs, start, TiledEnd(start, end), end) && OnMonth(start) && end % 60 == 0
    ensures OnMinutes(Candidates(Chosen(specs, published, false), ArchiveEnd(Chosen(specs, published, true), start), end))
  {
    ChosenOnMinutes(specs, published, true, start, end);
    ChosenOnMinutes(specs, published, false, start, end);
    MonthOnMinute(MonthOf(start));
    ArchiveEndOnMinutes(Chosen(specs, published, true), start);
    TailOnMinutes(Chosen(specs, published, false), ArchiveEnd(Chosen(specs, published, true), start), end);
  }

  lemma PlanCovers(specs: seq<Spec>, published: Spec -> bool, start: nat, end: nat, rest: seq<Range>)
    requires Tiles(Spans(specs), start, TiledEnd(start, end))
    requires var downloaded, unavailable := Chosen(specs, published, true), Chosen(specs, published, false);
      SameCover(rest, Candidates(unavailable, ArchiveEnd(downloaded, start), end))
    ensures var downloaded := Chosen(specs, published, true);
      Covers(Plan(downloaded, ArchiveEnd(downloaded, start), rest), start, TiledEnd(start, end), end)
  {
    var downloaded, unavailable := Chosen(specs, published, true), Chosen(specs, published, false);
    var reached := ArchiveEnd(downloaded, start);
    forall time
      ensures Cover(Spans(downloaded) + rest, time) ==
              Once(start <= time < end) + Once(reached <= time < TiledEnd(start, end))
    {
      assert Cover(rest, time) == Cover(Candidates(unavailable, reached, end), time);
      CoverOfCandidates(unavailable, reached, end, time);
      CoverOfPlan(specs, published, start, end, rest, time);
    }
  }

  /** What one symbol is imported from: the published archives, and the merged ranges of
      everything else. `arrive` is the order in which downloads finish. */
  method PlanSources(start: nat, end: nat, published: Spec -> bool, arrive: seq<Spec> -> seq<Spec>)
    returns (result: Result<Plan, PlanError>, specs: seq<Spec>)
    requires forall list :: multiset(arrive(list)) == multiset(list)
    ensures OnMonth(start) ==> Planned(specs, start, TiledEnd(start, end), end)
    ensures result.Ok? <==> OnMonth(start) && !SomeMonthly(Chosen(specs, published, false))
    ensures result.Ok? ==>
      && result.value.downloaded == Chosen(specs, published, true)
      && result.value.archiveEnd == ArchiveEnd(result.value.downloaded, start)
      && NoneEmpty(result.value.rest)
      && (end % 60 == 0 ==> OnMinutes(result.value.rest))
      && Covers(result.value, start, TiledEnd(start, end), end)
  {
    var built := BuildSpecs(start, end);
    if built.Err? {
      return Err(built.error), [];
    }
    specs := built.value;
    TilesAscend(specs, start, TiledEnd(start, end));
    var downloaded, unavailable := DownloadArchives(specs, arrive(specs), published);
    var monthly := AnyMonthly(unavailable);
    if monthly {
      return Err(MonthlyUnavailable), specs;
    }
    var archiveEnd := ArchiveEnd(downloaded, start);
    var candidates := Spans(unavailable);
    if archiveEnd < end {
      candidates := candidates + [Range(archiveEnd, end)];
    }
    assert candidates == Candidates(unavailable, archiveEnd, end);
    CandidatesNoneEmpty(specs, published, archiveEnd, start, TiledEnd(start, end), end);
    var rest := MergeRanges(candidates);
    if end % 60 == 0 {
      CandidatesOnMinutes(specs, published, start, end);
      EndpointsOnMinutes(candidates);
      OnMinutesEndpoints(rest);
    }
    PlanCovers(specs, published, start, end, rest);
    return Ok(Plan(downloaded, archiveEnd, rest)), specs;
  }

  /** Downloads and REST ranges cover the request, and nothing outside it; no instant is
      fetched twice exactly when the last planned archive is published (or none is planned). */
  lemma {:induction false} SourcesCoverRequest(specs: seq<Spec>, published: Spec -> bool, start: nat, end: nat, plan: Plan)
    requires start < end && Tiles(Spans(specs), start, TiledEnd(start, end))
    requires plan.archiveEnd == ArchiveEnd(Chosen(specs, published, true), start)
    requires Covers(plan, start, TiledEnd(start, end), end)
    ensures forall time :: Cover(plan.Sources(), time) >= 1 <==> start <= time < end
    ensures (forall time :: Cover(plan.Sources(), time) <= 1) <==>
            (specs == [] || published(specs[|specs| - 1]))
  {
    ArchiveEndOfTiles(specs, published, start, TiledEnd(start, end));
    assert TiledEnd(start, end) <= end;
    var reached := plan.archiveEnd;
    assert Cover(plan.Sources(), reached) == Once(start <= reached < end) + Once(reached < TiledEnd(start, end));
  }

  /** The first day of 1970 and four hours of the next, its archive unpublished: the day is
      left to REST by itself and again within the tail. */
  lemma SourcesOverlap()
    ensures var end, specs := DAY + 14400, [Spec(Range(0, DAY), Daily)];
      var rest := Merged(Sorted(Candidates(specs, ArchiveEnd([], 0), end)));
      Planned(specs, 0, TiledEnd(0, end), end) && forall time :: 0 <= time < DAY ==> Cover(rest, time) == 2
  {
    var end, day := DAY + 14400, Range(0, DAY);
    var specs := [Spec(day, Daily)];
    FirstDayIsPlanned(end, specs);
    var candidates := Candidates(specs, 0, end);
    assert NoneEmpty(candidates) && Spans(specs) == [day];
    MergedAndSorted(candidates);
    forall time | 0 <= time < DAY
      ensures Cover(Merged(Sorted(candidates)), time) == 2
    {
      assert Cover(Merged(Sorted(candidates)), time) == Cover(candidates, time);
      CoverOfCandidates(specs, 0, end, time);
      assert [day][..0] == [];
    }
  }

  lemma FirstDayIsPlanned(end: nat, specs: seq<Spec>)
    requires DAY <= end < 2 * DAY && specs == [Spec(Range(0, DAY), Daily)]
    ensures Planned(specs, 0, TiledEnd(0, end), end) && TiledEnd(0, end) == DAY
  {
    assert MonthStart(0) == 0 && MonthStart(1) == DAY * 31;
    MonthIsUnique(end, 0);
    assert FloorDay(end) == DAY;
    var spans := Spans(specs);
    assert spans == [Range(0, DAY)] && spans[..0] == [];
  }
}
