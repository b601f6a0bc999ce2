/** The transactional rename of `market_extras.symbol` and the read-only audit that
    licenses it. */
module SymbolMigration {
  import opened Market
  import opened Symbols

  datatype Payload = Payload(fundingRate: Option<real>, openInterest: Option<real>, longRatio: Option<real>,
                             shortRatio: Option<real>, liquidationUsd: Option<real>)

  datatype Row = Row(symbol: string, time: int, payload: Payload) {
    function Key(): (string, int) {
      (symbol, time)
    }

    function Renamed(): Row {
      this.(symbol := Canonical(symbol))
    }

    predicate Legacy() {
      symbol != Canonical(symbol)
    }
  }

  datatype Candle = Candle(symbol: string, exchange: string, timeframe: string, bar: Bar)

  // ----- Queries --------------------------------------------------------------------

  function CountWhere(rows: seq<Row>, p: Row -> bool): (n: nat)
    ensures n <= |rows|
    ensures n == 0 <==> forall i :: 0 <= i < |rows| ==> !p(rows[i])
    ensures n == |rows| <==> forall i :: 0 <= i < |rows| ==> p(rows[i])
  {
    if rows == [] then 0 else CountWhere(rows[..|rows| - 1], p) + if p(rows[|rows| - 1]) then 1 else 0
  }

  function LegacyRows(rows: seq<Row>): nat {
    CountWhere(rows, (r: Row) => r.Legacy())
  }

  function CanonicalRows(rows: seq<Row>): nat {
    CountWhere(rows, (r: Row) => !r.Legacy())
  }

  function LikeRows(rows: seq<Row>): nat {
    CountWhere(rows, (r: Row) => LikeMarked(r.symbol))
  }

  function SymbolsOf(rows: seq<Row>): set<string> {
    set r | r in rows :: r.symbol
  }

  /** Symbols of the rows still to be renamed. */
  function LegacySymbols(rows: seq<Row>): set<string> {
    set r | r in rows && r.Legacy() :: r.symbol
  }

  /** Pairs of a legacy row and a canonical row already holding its target key. */
  function Overlaps(rows: seq<Row>): set<(Row, Row)> {
    set legacy, canon | legacy in rows && canon in rows && legacy.Legacy() && !canon.Legacy()
      && canon.Key() == legacy.Renamed().Key() :: (legacy, canon)
  }

  /** Overlaps whose payloads differ. */
  function Conflicts(rows: seq<Row>): set<(Row, Row)> {
    set pair | pair in Overlaps(rows) && pair.0.payload != pair.1.payload
  }

  /** Canonical keys onto which two different symbols fall. */
  function Collapses(rows: seq<Row>): set<(string, int)> {
    set a, b | a in rows && b in rows && a.symbol != b.symbol && a.Renamed().Key() == b.Renamed().Key()
      :: a.Renamed().Key()
  }

  /** Keys held by more than one row. */
  function Duplicates(rows: seq<Row>): set<(string, int)> {
    set i, j | 0 <= i < j < |rows| && rows[i].Key() == rows[j].Key() :: rows[i].Key()
  }

  function RowsPer(rows: seq<Row>): map<string, nat> {
    map s | s in SymbolsOf(rows) :: CountWhere(rows, (r: Row) => r.symbol == s)
  }

  function AllRenamed(rows: seq<Row>): (renamed: seq<Row>)
    ensures |renamed| == |rows|
    ensures forall i :: 0 <= i < |rows| ==> renamed[i] == rows[i].Renamed()
  {
    seq(|rows|, i requires 0 <= i < |rows| => rows[i].Renamed())
  }

  /** The hash over the canonicalised rows in key order distinguishes collections of
      rows and nothing else. */
  function Fingerprint(rows: seq<Row>): multiset<Row> {
    multiset(AllRenamed(rows))
  }

  ghost predicate UniqueKeys(rows: seq<Row>) {
    forall i, j :: 0 <= i < j < |rows| ==> rows[i].Key() != rows[j].Key()
  }

  // ----- The audit ---------------------------------------------------------------------

  datatype StopReason = CanonicalRowsPresent | OverlapPresent | PayloadConflict | InternalCollapse | NothingToMigrate

  /** `_finish`: collect every stop condition that holds; safe means none does. */
  method Audit(rows: seq<Row>) returns (stops: seq<StopReason>)
    ensures CanonicalRowsPresent in stops <==> CanonicalRows(rows) > 0
    ensures OverlapPresent in stops <==> Overlaps(rows) != {}
    ensures PayloadConflict in stops <==> Conflicts(rows) != {}
    ensures InternalCollapse in stops <==> Collapses(rows) != {}
    ensures NothingToMigrate in stops <==> LegacyRows(rows) == 0
    ensures stops == [] <==> SafeToMigrate(rows)
  {
    var overlap, conflicting := Overlaps(rows) != {}, false;
    NoConflictWithoutOverlap(rows);
    if overlap {
      conflicting := Conflicts(rows) != {};
    }
    var internal := Collapses(rows) != {};
    AuditMeaning(rows);
    stops := Collect(CanonicalRows(rows) > 0, overlap, conflicting, internal, LegacyRows(rows) == 0);
  }

  lemma NoConflictWithoutOverlap(rows: seq<Row>)
    ensures Conflicts(rows) <= Overlaps(rows)
  {
  }

  method Collect(canonical: bool, overlap: bool, conflicting: bool, internal: bool, nothing: bool)
    returns (stops: seq<StopReason>)
    ensures CanonicalRowsPresent in stops <==> canonical
    ensures OverlapPresent in stops <==> overlap
    ensures PayloadConflict in stops <==> conflicting
    ensures InternalCollapse in stops <==> internal
    ensures NothingToMigrate in stops <==> nothing
    ensures stops == [] <==> !canonical && !overlap && !conflicting && !internal && !nothing
  {
    stops := [];
    if canonical {
      stops := stops + [CanonicalRowsPresent];
    }
    if overlap {
      stops := stops + [OverlapPresent];
    }
    if conflicting {
      stops := stops + [PayloadConflict];
    }
    if internal {
      stops := stops + [InternalCollapse];
    }
    if nothing {
      stops := stops + [NothingToMigrate];
    }
  }

  /** What the audit's counts amount to: every row is legacy, there is one, and no
      two symbols meet on a canonical key. */
  ghost predicate SafeToMigrate(rows: seq<Row>) {
    && rows != []
    && (forall i :: 0 <= i < |rows| ==> rows[i].Legacy())
    && (forall i, j :: 0 <= i < j < |rows| && rows[i].symbol != rows[j].symbol ==>
          rows[i].Renamed().Key() != rows[j].Renamed().Key())
  }

  lemma CollapseFound(rows: seq<Row>, i: nat, j: nat)
    requires i < |rows| && j < |rows| && rows[i].symbol != rows[j].symbol
    requires rows[i].Renamed().Key() == rows[j].Renamed().Key()
    ensures Collapses(rows) != {}
  {
    assert rows[i].Renamed().Key() in Collapses(rows);
  }

  lemma NoCollapseMeaning(rows: seq<Row>)
    ensures Collapses(rows) == {} <==> forall i, j :: 0 <= i < j < |rows| && rows[i].symbol != rows[j].symbol ==>
              rows[i].Renamed().Key() != rows[j].Renamed().Key()
  {
    forall i, j | 0 <= i < j < |rows| && rows[i].symbol != rows[j].symbol
                  && rows[i].Renamed().Key() == rows[j].Renamed().Key()
      ensures Collapses(rows) != {}
    {
      CollapseFound(rows, i, j);
    }
    forall key | key in Collapses(rows)
      ensures exists i, j :: 0 <= i < j < |rows| && rows[i].symbol != rows[j].symbol
                && rows[i].Renamed().Key() == rows[j].Renamed().Key()
    {
      var a, b :| a in rows && b in rows && a.symbol != b.symbol && a.Renamed().Key() == b.Renamed().Key();
      var i :| 0 <= i < |rows| && rows[i] == a;
      var j :| 0 <= j < |rows| && rows[j] == b;
      assert i < j || j < i;
    }
  }

  lemma AuditMeaning(rows: seq<Row>)
    ensures SafeToMigrate(rows) <==>
      CanonicalRows(rows) == 0 && Overlaps(rows) == {} && Collapses(rows) == {} && LegacyRows(rows) != 0
  {
    NoCollapseMeaning(rows);
  }

  /** With the unique index in force, a safe audit says exactly that every row is to
      be renamed and the renamed keys are again unique. */
  lemma SafeAuditMeaning(rows: seq<Row>)
    requires UniqueKeys(rows)
    ensures SafeToMigrate(rows) <==>
      rows != [] && (forall i :: 0 <= i < |rows| ==> rows[i].Legacy()) && UniqueKeys(AllRenamed(rows))
  {
    var renamed := AllRenamed(rows);
    if SafeToMigrate(rows) {
      forall i, j | 0 <= i < j < |rows|
        ensures renamed[i].Key() != renamed[j].Key()
      {
        assert rows[i].Key() != rows[j].Key();
      }
    }
    if UniqueKeys(renamed) {
      forall i, j | 0 <= i < j < |rows|
        ensures rows[i].Renamed().Key() != rows[j].Renamed().Key()
      {
        assert renamed[i].Key() != renamed[j].Key();
      }
    }
  }

  // ----- The migration ------------------------------------------------------------------

  const EXPECT_TOTAL := 106292
  const EXPECT_LEGACY_SYMBOLS := 10

  /** The stored rows have the shape the migration insists on. */
  ghost predicate ExpectedShape(rows: seq<Row>) {
    && (forall i :: 0 <= i < |rows| ==> rows[i].Legacy())
    && |rows| == EXPECT_TOTAL
    && |LegacySymbols(rows)| == EXPECT_LEGACY_SYMBOLS
  }

  /** One pass of the rule finishes every stored symbol, out of reach of the
      case-insensitive pattern too, and keeps the keys unique. */
  ghost predicate RenamesCleanly(rows: seq<Row>) {
    && (forall i :: 0 <= i < |rows| ==> Idempotent(rows[i].symbol))
    && (forall i :: 0 <= i < |rows| ==> !LikeMarked(Canonical(rows[i].symbol)))
    && UniqueKeys(AllRenamed(rows))
  }

  /** The table while the update has passed the first `n` rows. */
  function Partly(rows: seq<Row>, n: nat): (partial: seq<Row>)
    requires n <= |rows|
    ensures |partial| == |rows|
    ensures forall i :: 0 <= i < |rows| ==> partial[i] == if i < n then rows[i].Renamed() else rows[i]
  {
    AllRenamed(rows[..n]) + rows[n..]
  }

  predicate KeyTaken(rows: seq<Row>, n: nat, key: (string, int)) {
    exists j :: 0 <= j < |rows| && j != n && rows[j].Key() == key
  }

  /** A clean rename never collides on the way: renamed rows differ from one another,
      and a row still to come holds no canonical key. */
  lemma NoCollisionOnTheWay(rows: seq<Row>, n: nat)
    requires n < |rows| && RenamesCleanly(rows) && UniqueKeys(rows) && rows[n].Legacy()
    ensures !KeyTaken(Partly(rows, n), n, rows[n].Renamed().Key())
  {
    var renamed, key := AllRenamed(rows), rows[n].Renamed().Key();
    assert forall j :: 0 <= j < |rows| && j != n ==> renamed[j].Key() != renamed[n].Key();
    forall j | 0 <= j < |rows| && j != n
      ensures Partly(rows, n)[j].Key() != key
    {
      if j > n && rows[j].symbol == Canonical(rows[n].symbol) {
        assert rows[j].Renamed().symbol == Canonical(rows[n].symbol);
      }
    }
  }

  /** Passing one more row: rename it if its new key is free, else report it taken. */
  lemma PassRow(rows: seq<Row>, n: nat, indexed: bool)
    requires n < |rows|
    requires indexed ==> UniqueKeys(Partly(rows, n))
    ensures !rows[n].Legacy() ==> Partly(rows, n + 1) == Partly(rows, n)
    ensures Partly(rows, n)[n := rows[n].Renamed()] == Partly(rows, n + 1)
    ensures indexed && !KeyTaken(Partly(rows, n), n, rows[n].Renamed().Key()) ==> UniqueKeys(Partly(rows, n + 1))
  {
    var now, next, key := Partly(rows, n), Partly(rows, n + 1), rows[n].Renamed().Key();
    if indexed && !KeyTaken(now, n, key) {
      forall i, j | 0 <= i < j < |next|
        ensures next[i].Key() != next[j].Key()
      {
        assert next[i] == if i == n then rows[n].Renamed() else now[i];
        assert next[j] == if j == n then rows[n].Renamed() else now[j];
      }
    }
  }

  lemma UncleanWhenTaken(rows: seq<Row>, n: nat)
    requires n < |rows| && UniqueKeys(rows) && rows[n].Legacy()
    requires KeyTaken(Partly(rows, n), n, rows[n].Renamed().Key())
    ensures !RenamesCleanly(rows)
  {
    if RenamesCleanly(rows) {
      NoCollisionOnTheWay(rows, n);
    }
  }

  class Database {
    var market: seq<Row>
    var ohlcv: seq<Candle>
    const indexed: bool

    constructor (market: seq<Row>, ohlcv: seq<Candle>, indexed: bool)
      requires indexed ==> UniqueKeys(market)
      ensures this.market == market && this.ohlcv == ohlcv && this.indexed == indexed && Valid()
    {
      this.market, this.ohlcv, this.indexed := market, ohlcv, indexed;
    }

    /** The unique index on symbol and time, where the table has it. */
    ghost predicate Valid()
      reads this
    {
      indexed ==> UniqueKeys(market)
    }

    /** One row of the UPDATE: left alone, renamed, or refused for its new key. */
    method UpdateRow(n: nat, ghost saved: seq<Row>) returns (done: bool)
      requires n < |saved| && market == Partly(saved, n) && Valid() && (indexed ==> UniqueKeys(saved))
      modifies this`market
      ensures done ==> market == Partly(saved, n + 1) && Valid()
      ensures !done ==> !RenamesCleanly(saved)
    {
      PassRow(saved, n, indexed);
      var row := market[n];
      if !row.Legacy() {
        return true;
      }
      if indexed && KeyTaken(market, n, row.Renamed().Key()) {
        UncleanWhenTaken(saved, n);
        return false;
      }
      market := market[n := row.Renamed()];
      return true;
    }

    /** The UPDATE statement, row by row; a key already taken undoes it. */
    method RenameSymbols() returns (updated: Option<nat>)
      requires Valid()
      modifies this`market
      ensures Valid()
      ensures updated.Some? ==> market == AllRenamed(old(market)) && updated.value == LegacyRows(old(market))
      ensures updated.None? ==> market == old(market) && !RenamesCleanly(market)
    {
      var saved := market;
      for n := 0 to |saved|
        invariant market == Partly(saved, n) && Valid()
      {
        var done := UpdateRow(n, saved);
        if !done {
          market := saved;
          return None;
        }
      }
      assert Partly(saved, |saved|) == AllRenamed(saved);
      return Some(LegacyRows(saved));
    }
  }

  /** Under a clean rename every check after the update passes. */
  lemma CleanRenamePasses(rows: seq<Row>)
    requires RenamesCleanly(rows)
    ensures var post := AllRenamed(rows);
      && LegacyRows(post) == 0 && LikeRows(post) == 0 && Duplicates(post) == {}
      && Fingerprint(post) == Fingerprint(rows)
  {
    var post := AllRenamed(rows);
    assert AllRenamed(post) == post;
  }

  lemma NoDuplicateMeansUnique(rows: seq<Row>)
    ensures Duplicates(rows) == {} <==> UniqueKeys(rows)
  {
    if !UniqueKeys(rows) {
      var i, j :| 0 <= i < j < |rows| && rows[i].Key() == rows[j].Key();
      assert rows[i].Key() in Duplicates(rows);
    }
  }

  /** The checks after the update pass only if the rename was clean. */
  lemma ChecksMeanClean(rows: seq<Row>)
    requires var post := AllRenamed(rows); LegacyRows(post) == 0 && LikeRows(post) == 0 && Duplicates(post) == {}
    ensures RenamesCleanly(rows)
  {
    var post := AllRenamed(rows);
    forall i | 0 <= i < |rows|
      ensures Idempotent(rows[i].symbol) && !LikeMarked(Canonical(rows[i].symbol))
    {
      assert !post[i].Legacy() && !LikeMarked(post[i].symbol);
    }
    NoDuplicateMeansUnique(post);
  }

  datatype Outcome = Aborted | RolledBack | IntegrityError | Committed

  /** `main` and `_apply`: check under the write lock, update, verify inside the
      transaction, and commit or leave everything as it was. */
  method Migrate(db: Database, writers: nat, backups: nat) returns (outcome: Outcome)
    requires db.Valid()
    modifies db`market
    ensures db.Valid()
    ensures outcome.Committed? <==>
      writers == 0 && backups > 0 && ExpectedShape(old(db.market)) && RenamesCleanly(old(db.market))
    ensures db.market == if outcome.Committed? then AllRenamed(old(db.market)) else old(db.market)
  {
    if writers > 0 || backups == 0 {
      return Aborted;
    }
    var saved, candles := db.market, db.ohlcv;
    if CanonicalRows(saved) > 0 || Overlaps(saved) != {} {
      NoOverlapWhenAllLegacy(saved);
      return RolledBack;
    }
    if |saved| != EXPECT_TOTAL || LegacyRows(saved) != EXPECT_TOTAL || |LegacySymbols(saved)| != EXPECT_LEGACY_SYMBOLS {
      return RolledBack;
    }
    var before, perSymbolBefore := Fingerprint(saved), RowsPer(AllRenamed(saved));
    var updated := db.RenameSymbols();
    if updated.None? {
      return IntegrityError;
    }
    var fails := updated.value != |saved| || |db.market| != |saved| || LegacyRows(db.market) > 0;
    fails := fails || LikeRows(db.market) > 0 || Duplicates(db.market) != {};
    fails := fails || Fingerprint(db.market) != before || multiset(db.ohlcv) != multiset(candles);
    fails := fails || RowsPer(db.market) != perSymbolBefore;
    if fails {
      if RenamesCleanly(saved) {
        CleanRenamePasses(saved);
      }
      db.market := saved;
      return RolledBack;
    }
    ChecksMeanClean(saved);
    return Committed;
  }

  lemma NoOverlapWhenAllLegacy(rows: seq<Row>)
    ensures ExpectedShape(rows) ==> CanonicalRows(rows) == 0 && Overlaps(rows) == {}
  {
  }

  /** A committed table: nothing left to rename, keys unique, and each row what it
      was under its canonical symbol. */
  lemma CommittedTable(rows: seq<Row>)
    requires RenamesCleanly(rows)
    ensures var post := AllRenamed(rows);
      && UniqueKeys(post) && LegacyRows(post) == 0
      && forall i :: 0 <= i < |rows| ==>
           post[i].symbol == Canonical(rows[i].symbol) && post[i].time == rows[i].time
           && post[i].payload == rows[i].payload
  {
    CleanRenamePasses(rows);
  }

  /** After a safe audit the migration commits exactly when the counts are the
      expected ones, no stored symbol spells a mark around others, and none keeps a mark
      in other letter case. */
  lemma SafeAuditThenCommit(rows: seq<Row>)
    requires UniqueKeys(rows) && SafeToMigrate(rows)
    ensures ExpectedShape(rows) && RenamesCleanly(rows) <==>
      && |rows| == 106292 && |LegacySymbols(rows)| == 10
      && (forall i :: 0 <= i < |rows| ==> !Nested(rows[i].symbol))
      && (forall i :: 0 <= i < |rows| ==> !LikeMarked(Canonical(rows[i].symbol)))
  {
    SafeAuditMeaning(rows);
    forall i | 0 <= i < |rows|
      ensures Idempotent(rows[i].symbol) <==> !Nested(rows[i].symbol)
    {
      IdempotentUnlessNested(rows[i].symbol);
    }
  }

  /** Symbols in exchange form satisfy both conditions. */
  lemma ExchangeSymbolsCommit(rows: seq<Row>, bases: seq<string>)
    requires UniqueKeys(rows) && SafeToMigrate(rows) && |bases| == |rows|
    requires forall i :: 0 <= i < |rows| ==> rows[i].symbol == bases[i] + MARK && ':' !in bases[i]
    requires |rows| == EXPECT_TOTAL && |LegacySymbols(rows)| == EXPECT_LEGACY_SYMBOLS
    ensures ExpectedShape(rows) && RenamesCleanly(rows)
  {
    forall i | 0 <= i < |rows|
      ensures Idempotent(rows[i].symbol) && !LikeMarked(Canonical(rows[i].symbol))
    {
      ExchangeFormIsSafe(bases[i]);
    }
    SafeAuditMeaning(rows);
  }

  // ----- A table the audit calls safe and the migration refuses ------------------------

  /** `n` rows at different times whose symbols take turns. */
  function TakingTurns(symbols: seq<string>, n: nat): (rows: seq<Row>)
    requires symbols != []
    ensures |rows| == n
    ensures forall i :: 0 <= i < n ==> rows[i].symbol == symbols[i % |symbols|] && rows[i].time == i
  {
    if n == 0 then []
    else
      var row := Row(symbols[(n - 1) % |symbols|], n - 1, Payload(None, None, None, None, None));
      TakingTurns(symbols, n - 1) + [row]
  }

  function SetOf(symbols: seq<string>): set<string> {
    if symbols == [] then {} else SetOf(symbols[..|symbols| - 1]) + {symbols[|symbols| - 1]}
  }

  ghost predicate Distinct(symbols: seq<string>) {
    forall i, j :: 0 <= i < j < |symbols| ==> symbols[i] != symbols[j]
  }

  ghost predicate AllLegacy(symbols: seq<string>) {
    forall i :: 0 <= i < |symbols| ==> symbols[i] != Canonical(symbols[i])
  }

  lemma {:induction false} SetOfMeaning(symbols: seq<string>)
    ensures forall s :: s in SetOf(symbols) <==> s in symbols
    ensures Distinct(symbols) ==> |SetOf(symbols)| == |symbols|
  {
    if symbols != [] {
      var n := |symbols| - 1;
      SetOfMeaning(symbols[..n]);
      assert symbols == symbols[..n] + [symbols[n]];
    }
  }

  lemma TurnTaken(symbols: seq<string>, n: nat, s: string)
    requires s in symbols && AllLegacy(symbols) && |symbols| <= n
    ensures s in LegacySymbols(TakingTurns(symbols, n))
  {
    var rows := TakingTurns(symbols, n);
    var i :| 0 <= i < |symbols| && symbols[i] == s;
    assert i % |symbols| == i;
    assert rows[i] in rows && rows[i].symbol == s;
  }

  lemma TurnsMakeSymbols(symbols: seq<string>, n: nat)
    requires symbols != [] && |symbols| <= n && Distinct(symbols) && AllLegacy(symbols)
    ensures |LegacySymbols(TakingTurns(symbols, n))| == |symbols|
  {
    var rows := TakingTurns(symbols, n);
    SetOfMeaning(symbols);
    forall s
      ensures s in LegacySymbols(rows) <==> s in SetOf(symbols)
    {
      if s in symbols {
        TurnTaken(symbols, n, s);
      }
    }
    assert LegacySymbols(rows) == SetOf(symbols);
  }

  /** A table of such rows is safe by the audit, and clean only if each symbol is. */
  lemma TakingTurnsIsSafe(symbols: seq<string>, n: nat)
    requires symbols != [] && |symbols| <= n && AllLegacy(symbols)
    requires forall k :: 0 <= k < |symbols| ==> Idempotent(symbols[k]) && LikeMarked(Canonical(symbols[k]))
    ensures var rows := TakingTurns(symbols, n);
      && UniqueKeys(rows) && SafeToMigrate(rows) && !RenamesCleanly(rows)
      && forall i :: 0 <= i < n ==> rows[i].Legacy() && Idempotent(rows[i].symbol)
  {
    var rows := TakingTurns(symbols, n);
    assert rows[0].symbol == symbols[0];
  }

  /** A symbol with a lower-case mark before the mark. */
  function LowerCaseSymbol(k: nat): string
    requires k < 10
  {
    [('0' as int + k) as char] + ":usdt" + MARK
  }

  lemma LowerCaseFacts(k: nat, s: string)
    requires k < 10 && s == LowerCaseSymbol(k)
    ensures s != [] && s[0] == ('0' as int + k) as char
    ensures s != Canonical(s) && Idempotent(s) && LikeMarked(Canonical(s))
  {
    var base := [('0' as int + k) as char];
    LowerCaseMarkSurvives(base);
    assert |base + ":usdt"| < |base + ":usdt" + MARK|;
  }

  function LowerCaseSymbols(): seq<string> {
    seq(10, k requires 0 <= k < 10 => LowerCaseSymbol(k))
  }

  lemma LowerCaseSymbolsFacts()
    ensures var symbols := LowerCaseSymbols();
      && |symbols| == 10 && Distinct(symbols) && AllLegacy(symbols)
      && forall k :: 0 <= k < 10 ==> Idempotent(symbols[k]) && LikeMarked(Canonical(symbols[k]))
  {
    var symbols := LowerCaseSymbols();
    forall k | 0 <= k < 10
      ensures symbols[k] != [] && symbols[k][0] == ('0' as int + k) as char
      ensures symbols[k] != Canonical(symbols[k]) && Idempotent(symbols[k]) && LikeMarked(Canonical(symbols[k]))
    {
      LowerCaseFacts(k, symbols[k]);
    }
    ByFirstLetter(symbols);
  }

  lemma ByFirstLetter(symbols: seq<string>)
    requires |symbols| == 10
    requires forall k :: 0 <= k < 10 ==> symbols[k] != [] && symbols[k][0] == ('0' as int + k) as char
    ensures Distinct(symbols)
  {
    forall j, k | 0 <= j < k < 10
      ensures symbols[j] != symbols[k]
    {
      assert symbols[j][0] != symbols[k][0];
    }
  }

  /** Safe by the audit, of the expected shape, the rule idempotent on every symbol, and
      yet no commit: the pattern ignores letter case. */
  lemma LowerCaseMarksBlockCommit()
    ensures var rows := TakingTurns(LowerCaseSymbols(), EXPECT_TOTAL);
      && UniqueKeys(rows) && SafeToMigrate(rows) && ExpectedShape(rows)
      && (forall i :: 0 <= i < |rows| ==> Idempotent(rows[i].symbol))
      && !RenamesCleanly(rows)
  {
    LowerCaseSymbolsFacts();
    BlockedOfExpectedShape(LowerCaseSymbols());
  }

  lemma BlockedOfExpectedShape(symbols: seq<string>)
    requires |symbols| == EXPECT_LEGACY_SYMBOLS && Distinct(symbols) && AllLegacy(symbols)
    requires forall k :: 0 <= k < |symbols| ==> Idempotent(symbols[k]) && LikeMarked(Canonical(symbols[k]))
    ensures var rows := TakingTurns(symbols, EXPECT_TOTAL);
      && UniqueKeys(rows) && SafeToMigrate(rows) && ExpectedShape(rows)
      && (forall i :: 0 <= i < |rows| ==> Idempotent(rows[i].symbol))
      && !RenamesCleanly(rows)
  {
    TurnsMakeSymbols(symbols, EXPECT_TOTAL);
    TakingTurnsIsSafe(symbols, EXPECT_TOTAL);
  }
}
