/** The incremental sync job: read the watermark from the target, select the newer
    source rows, prepare them, append them in one bulk call and, when that fails,
    row by row up to the first row that fails. */
module SyncJob {
  import opened Common
  import opened SyncFrame

  /** `datetime(2000, 1, 1)`: the watermark when the target has none. */
  const FLOOR: Timestamp := 946684800

  /** A row's `Timestamp`, when it holds a datetime (SQL NULL otherwise). */
  function TimestampOf(row: Row): Option<Timestamp> {
    if TIMESTAMP_COLUMN in row && row[TIMESTAMP_COLUMN].Time? then Some(row[TIMESTAMP_COLUMN].t) else None
  }

  /** `SELECT MAX("Timestamp")`: the greatest non-NULL `Timestamp`, or NULL when there
      is none. */
  function MaxTimestamp(rows: seq<Row>): (m: Option<Timestamp>)
    ensures m.None? <==> forall j :: 0 <= j < |rows| ==> TimestampOf(rows[j]).None?
    ensures m.Some? ==> forall j :: 0 <= j < |rows| && TimestampOf(rows[j]).Some? ==> TimestampOf(rows[j]).value <= m.value
    ensures m.Some? ==> exists j :: 0 <= j < |rows| && TimestampOf(rows[j]) == m
  {
    if |rows| == 0 then None
    else
      var rest := MaxTimestamp(rows[1..]);
      assert forall j :: 1 <= j < |rows| ==> rows[j] == rows[1..][j - 1];
      match TimestampOf(rows[0])
      case None => rest
      case Some(t) =>
        match rest
        case None => Some(t)
        case Some(u) => Some(Max(t, u))
  }

  /** `get_last_sync_time`: the target's greatest `Timestamp`; 2000-01-01 when the
      target holds none or the query raises. */
  function LastSyncTime(target: seq<Row>, queryFails: bool): (ts: Timestamp)
    ensures queryFails || (forall j :: 0 <= j < |target| ==> TimestampOf(target[j]).None?) ==> ts == FLOOR
    ensures !queryFails && (exists j :: 0 <= j < |target| && TimestampOf(target[j]).Some?) ==>
              && (forall j :: 0 <= j < |target| && TimestampOf(target[j]).Some? ==> TimestampOf(target[j]).value <= ts)
              && (exists j :: 0 <= j < |target| && TimestampOf(target[j]) == Some(ts))
  {
    if queryFails then FLOOR else MaxTimestamp(target).GetOr(FLOOR)
  }

  /** `"Timestamp" > :ts` in SQL: false for a NULL `Timestamp`. */
  predicate Newer(row: Row, ts: Timestamp) {
    TimestampOf(row).Some? && TimestampOf(row).value > ts
  }

  /** `SELECT * ... WHERE "Timestamp" > :ts`, in the order the source returns its rows. */
  function SelectNewer(source: seq<Row>, ts: Timestamp): (r: seq<Row>)
    ensures |r| <= |source|
    ensures forall row :: row in r <==> row in source && Newer(row, ts)
  {
    if |source| == 0 then []
    else
      assert forall row :: row in source <==> row == source[0] || row in source[1..];
      (if Newer(source[0], ts) then [source[0]] else []) + SelectNewer(source[1..], ts)
  }

  /** The selection keeps every newer row as many times as the source holds it, and
      no other row. */
  lemma {:induction false} SelectNewerCounts(source: seq<Row>, ts: Timestamp)
    ensures forall row :: multiset(SelectNewer(source, ts))[row] == if Newer(row, ts) then multiset(source)[row] else 0
    decreases |source|
  {
    if |source| > 0 {
      SelectNewerCounts(source[1..], ts);
      assert source == [source[0]] + source[1..];
    }
  }

  /** A row whose `Timestamp` equals the watermark, or is NULL, is never selected. */
  lemma WatermarkRowExcluded(source: seq<Row>, ts: Timestamp, row: Row)
    requires TimestampOf(row) == Some(ts) || TimestampOf(row).None?
    ensures row !in SelectNewer(source, ts)
  {
  }

  // ---------------------------------------------------------------------------
  // Writing to the target.

  /** What the target table enforces, which the job does not establish: `to_sql` with
      `if_exists="append"` creates the table without a primary key when it does not
      exist, so uniqueness of `Udise_code` is a parameter, as are the lengths of the
      string columns (`VARCHAR(n)` when the table was created from `dtype_mapping`). */
  datatype TargetRules = TargetRules(enforcePk: bool, maxLengths: map<ColName, nat>)

  /** A row's `Udise_code`, when it holds an integer. */
  function KeyOf(row: Row): Option<int> {
    if KEY_COLUMN in row && row[KEY_COLUMN].Int? then Some(row[KEY_COLUMN].i) else None
  }

  /** The target refuses `row` on top of `target`: a primary-key clash, or a string
      longer than its column allows. */
  predicate Rejects(rules: TargetRules, target: seq<Row>, row: Row) {
    || (rules.enforcePk && KeyOf(row).Some? && exists j :: 0 <= j < |target| && KeyOf(target[j]) == KeyOf(row))
    || (exists c :: c in row && c in rules.maxLengths && row[c].Text? && |row[c].s| > rules.maxLengths[c])
  }

  /** Every row is accepted on top of the target and the rows before it. */
  predicate AllAccepted(rules: TargetRules, target: seq<Row>, rows: seq<Row>)
    decreases |rows|
  {
    |rows| == 0 || (!Rejects(rules, target, rows[0]) && AllAccepted(rules, target + [rows[0]], rows[1..]))
  }

  /** `df.to_sql(..., if_exists="append", chunksize=CHUNK_SIZE)`, ASSUMED all or
      nothing: it appends every row, or raises (a refused row, or `fault`) and appends
      none. */
  function BulkAppend(rules: TargetRules, target: seq<Row>, rows: seq<Row>, fault: bool): (r: Option<seq<Row>>)
    ensures r.Some? <==> !fault && AllAccepted(rules, target, rows)
    ensures r.Some? ==> r.value == target + rows
  {
    if !fault && AllAccepted(rules, target, rows) then Some(target + rows) else None
  }

  /** The target after the row-by-row fallback and the row it stopped at, if any. */
  datatype Fallback = Fallback(target: seq<Row>, stoppedAt: Option<nat>)

  /** `insert_with_debug` from row `i` on: each row is appended in its own call; the
      first call that raises (a refused row, or `rowFault`) ends the loop. */
  function InsertRowByRow(rules: TargetRules, target: seq<Row>, rows: seq<Row>, rowFault: nat -> bool, i: nat): (r: Fallback)
    requires i <= |rows|
    ensures var p := r.stoppedAt.GetOr(|rows|);
            && i <= p <= |rows|
            && r.target == target + rows[i..p]
            && (r.stoppedAt.Some? ==> p < |rows| && (rowFault(p) || Rejects(rules, r.target, rows[p])))
            && (forall q :: i <= q < p ==> !rowFault(q) && !Rejects(rules, target + rows[i..q], rows[q]))
    decreases |rows| - i
  {
    if i == |rows| then Fallback(target, None)
    else if rowFault(i) || Rejects(rules, target, rows[i]) then Fallback(target, Some(i))
    else
      var r := InsertRowByRow(rules, target + [rows[i]], rows, rowFault, i + 1);
      assert forall q :: i + 1 <= q <= |rows| ==> target + [rows[i]] + rows[i + 1..q] == target + rows[i..q];
      r
  }

  /** With no row failing for other reasons, the fallback from row `i` inserts every
      remaining row exactly when the target accepts each of them in turn. */
  lemma {:induction false} FallbackCompletesIff(rules: TargetRules, target: seq<Row>, rows: seq<Row>, rowFault: nat -> bool, i: nat)
    requires i <= |rows|
    requires forall q :: i <= q < |rows| ==> !rowFault(q)
    ensures InsertRowByRow(rules, target, rows, rowFault, i).stoppedAt.None? <==> AllAccepted(rules, target, rows[i..])
    decreases |rows| - i
  {
    if i < |rows| {
      assert rows[i..][0] == rows[i] && rows[i..][1..] == rows[i + 1..];
      if !Rejects(rules, target, rows[i]) {
        FallbackCompletesIff(rules, target + [rows[i]], rows, rowFault, i + 1);
      }
    }
  }

  /** The bulk append and the row-by-row fallback agree when nothing but the target's
      rules can fail: the bulk append succeeds exactly when the fallback inserts every
      row, and then both leave the same table. */
  lemma BulkAppendAgreesWithFallback(rules: TargetRules, target: seq<Row>, rows: seq<Row>, rowFault: nat -> bool)
    requires forall q :: 0 <= q < |rows| ==> !rowFault(q)
    ensures BulkAppend(rules, target, rows, false).Some? <==> InsertRowByRow(rules, target, rows, rowFault, 0).stoppedAt.None?
    ensures BulkAppend(rules, target, rows, false).Some? ==>
              BulkAppend(rules, target, rows, false).value == InsertRowByRow(rules, target, rows, rowFault, 0).target
  {
    FallbackCompletesIff(rules, target, rows, rowFault, 0);
    assert rows[0..] == rows && rows[0..|rows|] == rows;
  }

  // ---------------------------------------------------------------------------
  // One run of the job.

  /** Everything a run depends on besides the source and target tables: whether
      connecting to the target, the `MAX` query and the source read fail; the instant
      `utcnow()` returns for each audit column; the pandas conversions and which
      column conversions raise; whether the bulk append fails for a reason other than
      a refused row, and which single-row inserts do; and the target's constraints. */
  datatype SyncEnv = SyncEnv(
    connectFails: bool,
    queryFails: bool,
    readFails: bool,
    clock: ColName -> Timestamp,
    parsers: Parsers,
    raises: ColName -> bool,
    bulkFault: bool,
    rowFault: nat -> bool,
    rules: TargetRules)

  /** How a run ended: the outer handler caught an error before anything was written,
      nothing newer than the watermark, the bulk append succeeded, or the row-by-row
      fallback ran and stopped at the given row (none when it inserted every row). */
  datatype SyncOutcome = Aborted | NothingToSync | BulkAppended | RowByRow(stoppedAt: Option<nat>)

  /** The outcome of a run, the target table afterwards, and the columns whose
      conversion raised. */
  datatype SyncRun = SyncRun(outcome: SyncOutcome, target: seq<Row>, conversionErrors: set<ColName>)

  /** The rows newer than `ts`, as the frame `pd.read_sql` returns. */
  function Selected(source: Frame, ts: Timestamp): (r: Frame)
    requires WellFormed(source)
    ensures WellFormed(r) && r.columns == source.columns
  {
    var rows := SelectNewer(source.rows, ts);
    assert forall j :: 0 <= j < |rows| ==> rows[j] in source.rows;
    Frame(source.columns, rows)
  }

  /** The selected frame after the audit-column backfill and the coercion loop over
      `DTYPE_MAPPING`. */
  function Prepare(sel: Frame, env: SyncEnv): (r: Frame)
    requires WellFormed(sel)
    ensures WellFormed(r) && |r.rows| == |sel.rows|
  {
    Coerced(Backfill(sel, env.clock), DTYPE_MAPPING, env.parsers, env.raises)
  }

  /** The number of prepared rows a run wrote. */
  function Written(outcome: SyncOutcome, n: nat): nat {
    match outcome
    case Aborted => 0
    case NothingToSync => 0
    case BulkAppended => n
    case RowByRow(stop) => Min(stop.GetOr(n), n)
  }

  /** The top level of the sync script. */
  function RunSync(source: Frame, target: seq<Row>, env: SyncEnv): SyncRun
    requires WellFormed(source)
  {
    if env.connectFails then SyncRun(Aborted, target, {})
    else
      var ts := LastSyncTime(target, env.queryFails);
      if env.readFails then SyncRun(Aborted, target, {})
      else
        var sel := Selected(source, ts);
        if |sel.rows| == 0 then SyncRun(NothingToSync, target, {})
        else
          var backfilled := Backfill(sel, env.clock);
          var prepared := Coerced(backfilled, DTYPE_MAPPING, env.parsers, env.raises);
          Deliver(env.rules, target, prepared.rows, env.bulkFault, env.rowFault,
                  ConversionErrors(backfilled, DTYPE_MAPPING, env.raises))
  }

  /** How a run ends: it aborts, writing nothing, exactly when connecting or reading
      fails; it finds nothing to sync, writing nothing, exactly when no source row is
      newer than the watermark. */
  lemma RunSyncOutcomes(source: Frame, target: seq<Row>, env: SyncEnv)
    requires WellFormed(source)
    ensures var r := RunSync(source, target, env);
            && (r.outcome.Aborted? <==> env.connectFails || env.readFails)
            && (r.outcome.NothingToSync? <==>
                  && !env.connectFails && !env.readFails
                  && forall j :: 0 <= j < |source.rows| ==> !Newer(source.rows[j], LastSyncTime(target, env.queryFails)))
            && (r.outcome.Aborted? || r.outcome.NothingToSync? ==> r.target == target && r.conversionErrors == {})
  {
    var sel := Selected(source, LastSyncTime(target, env.queryFails));
    if !env.connectFails && !env.readFails {
      if |sel.rows| == 0 {
        assert forall j :: 0 <= j < |source.rows| ==> source.rows[j] in source.rows;
      } else {
        assert sel.rows[0] in source.rows;
      }
    }
  }

  /** What a run writes: the target gains a prefix of the prepared rows, in order,
      and nothing else. */
  lemma RunSyncWrites(source: Frame, target: seq<Row>, env: SyncEnv)
    requires WellFormed(source)
    ensures var r := RunSync(source, target, env);
            var rows := Prepare(Selected(source, LastSyncTime(target, env.queryFails)), env).rows;
            && Written(r.outcome, |rows|) <= |rows|
            && r.target == target + rows[..Written(r.outcome, |rows|)]
            && (r.outcome.NothingToSync? ==> |rows| == 0)
  {
    var sel := Selected(source, LastSyncTime(target, env.queryFails));
    var rows := Prepare(sel, env).rows;
    assert rows[..0] == [];
    if !env.connectFails && !env.readFails && |sel.rows| > 0 {
      var errors := ConversionErrors(Backfill(sel, env.clock), DTYPE_MAPPING, env.raises);
      DeliverWritesPrefix(env.rules, target, rows, env.bulkFault, env.rowFault, errors);
    }
  }

  /** The write step: the bulk append, and the row-by-row fallback when it raises. */
  function Deliver(rules: TargetRules, target: seq<Row>, rows: seq<Row>, bulkFault: bool, rowFault: nat -> bool, errors: set<ColName>): (r: SyncRun)
    ensures r.outcome.BulkAppended? || r.outcome.RowByRow?
    ensures r.conversionErrors == errors
  {
    match BulkAppend(rules, target, rows, bulkFault)
    case Some(t) => SyncRun(BulkAppended, t, errors)
    case None =>
      var fb := InsertRowByRow(rules, target, rows, rowFault, 0);
      SyncRun(RowByRow(fb.stoppedAt), fb.target, errors)
  }

  /** The write step appends exactly a prefix of the rows, in order: all of them when
      the bulk append succeeds, which needs no fault and every row accepted;
      otherwise the rows before the first one whose own insert failed, each of which
      was accepted. */
  lemma DeliverWritesPrefix(rules: TargetRules, target: seq<Row>, rows: seq<Row>, bulkFault: bool, rowFault: nat -> bool, errors: set<ColName>)
    ensures var r := Deliver(rules, target, rows, bulkFault, rowFault, errors);
            var n := Written(r.outcome, |rows|);
            && n <= |rows|
            && r.target == target + rows[..n]
            && (r.outcome.BulkAppended? <==> !bulkFault && AllAccepted(rules, target, rows))
            && (r.outcome.RowByRow? && r.outcome.stoppedAt.Some? ==>
                  n < |rows| && (rowFault(n) || Rejects(rules, r.target, rows[n])))
            && (r.outcome.RowByRow? ==>
                  forall q :: 0 <= q < n ==> !rowFault(q) && !Rejects(rules, target + rows[..q], rows[q]))
  {
    assert rows[..|rows|] == rows;
    assert forall q :: 0 <= q <= |rows| ==> rows[0..q] == rows[..q];
  }

  /** Every column conversion either raises or reads a datetime back unchanged, or
      `Timestamp`'s conversion raises: the prepared rows keep their `Timestamp`. */
  ghost predicate KeepsTimestamps(env: SyncEnv) {
    env.raises(TIMESTAMP_COLUMN) || forall t: Timestamp :: env.parsers.toDatetime(Time(t)) == Some(t)
  }

  /** `Timestamp` is declared a datetime column. */
  lemma TimestampIsDateTime()
    ensures TIMESTAMP_COLUMN in DTYPE_MAPPING && DTYPE_MAPPING[TIMESTAMP_COLUMN] == DateTimeT
  {
  }

  /** Coercing a row whose `Timestamp` is a datetime leaves it as it was, when the
      column is declared a datetime and the conversions keep timestamps. */
  lemma CoerceKeepsTimestamp(row: Row, schema: map<ColName, Dtype>, env: SyncEnv)
    requires TimestampOf(row).Some? && KeepsTimestamps(env)
    requires TIMESTAMP_COLUMN in schema ==> schema[TIMESTAMP_COLUMN] == DateTimeT
    ensures TimestampOf(CoerceRow(row, schema, env.parsers, env.raises)) == TimestampOf(row)
  {
    assert CoerceRow(row, schema, env.parsers, env.raises)[TIMESTAMP_COLUMN]
        == CellAfter(schema, TIMESTAMP_COLUMN, row[TIMESTAMP_COLUMN], env.parsers, env.raises);
  }

  /** Preparing a row leaves a datetime `Timestamp` as it was, under conversions that
      keep timestamps. */
  lemma PrepareKeepsTimestamp(sel: Frame, env: SyncEnv, j: nat)
    requires WellFormed(sel) && KeepsTimestamps(env)
    requires j < |sel.rows| && TimestampOf(sel.rows[j]).Some?
    ensures TimestampOf(Prepare(sel, env).rows[j]) == TimestampOf(sel.rows[j])
  {
    var b := Backfill(sel, env.clock);
    BackfillKeepsPresentColumns(sel, env.clock);
    assert TIMESTAMP_COLUMN in sel.columns;
    assert TimestampOf(b.rows[j]) == TimestampOf(sel.rows[j]);
    TimestampIsDateTime();
    CoerceKeepsTimestamp(b.rows[j], DTYPE_MAPPING, env);
  }

  /** A run that neither aborts nor finds nothing hands the prepared rows to the
      write step. */
  lemma RunSyncDelivers(source: Frame, target: seq<Row>, env: SyncEnv)
    requires WellFormed(source) && !env.connectFails && !env.readFails
    requires |Selected(source, LastSyncTime(target, env.queryFails)).rows| > 0
    ensures var sel := Selected(source, LastSyncTime(target, env.queryFails));
            RunSync(source, target, env) ==
              Deliver(env.rules, target, Prepare(sel, env).rows, env.bulkFault, env.rowFault,
                      ConversionErrors(Backfill(sel, env.clock), DTYPE_MAPPING, env.raises))
  {
  }

  /** Every selected row is newer than the watermark it was selected against. */
  lemma SelectedAreNewer(source: Frame, ts: Timestamp)
    requires WellFormed(source)
    ensures forall j :: 0 <= j < |Selected(source, ts).rows| ==> Newer(Selected(source, ts).rows[j], ts)
  {
    var rows := Selected(source, ts).rows;
    assert forall j :: 0 <= j < |rows| ==> rows[j] in rows;
  }

  /** Appending rows newer than the watermark never lowers it, and the watermark of the
      grown target is at least the `Timestamp` of every appended row. */
  lemma WatermarkCoversAppended(target: seq<Row>, rows: seq<Row>)
    requires forall j :: 0 <= j < |rows| ==> Newer(rows[j], LastSyncTime(target, false))
    ensures LastSyncTime(target, false) <= LastSyncTime(target + rows, false)
    ensures forall j :: 0 <= j < |rows| ==> TimestampOf(rows[j]).Some? && TimestampOf(rows[j]).value <= LastSyncTime(target + rows, false)
  {
    var grown := target + rows;
    assert forall j :: 0 <= j < |rows| ==> grown[|target| + j] == rows[j];
    assert forall j :: 0 <= j < |target| ==> grown[j] == target[j];
    if exists j :: 0 <= j < |target| && TimestampOf(target[j]).Some? {
      var j :| 0 <= j < |target| && TimestampOf(target[j]) == Some(LastSyncTime(target, false));
      assert TimestampOf(grown[j]).Some?;
    } else if |rows| > 0 {
      assert TimestampOf(grown[|target|]).Some?;
      var j :| 0 <= j < |grown| && TimestampOf(grown[j]) == Some(LastSyncTime(grown, false));
      assert j >= |target|;
      assert TimestampOf(rows[j - |target|]).Some?;
    } else {
      assert grown == target;
    }
  }

  /** When the `MAX` query raises, the watermark falls back to 2000-01-01 whatever the
      target holds, so every source row newer than that is selected again, including
      rows an earlier run already wrote. */
  lemma FailedQueryReselects(source: Frame, target: seq<Row>)
    requires WellFormed(source)
    ensures LastSyncTime(target, true) == FLOOR
    ensures forall j :: 0 <= j < |source.rows| && Newer(source.rows[j], FLOOR) ==>
              source.rows[j] in Selected(source, LastSyncTime(target, true)).rows
  {
  }

  /** A run that wrote every row it selected. */
  predicate Complete(outcome: SyncOutcome) {
    outcome.NothingToSync? || outcome.BulkAppended? || outcome == RowByRow(None)
  }

  /** The rows a complete run appends carry the `Timestamp`s of the rows it selected,
      all newer than its watermark. */
  lemma CompleteRunAppendsNewer(source: Frame, target: seq<Row>, env: SyncEnv)
    requires WellFormed(source) && KeepsTimestamps(env)
    requires Complete(RunSync(source, target, env).outcome)
    ensures var sel := Selected(source, LastSyncTime(target, env.queryFails));
            var rows := Prepare(sel, env).rows;
            && RunSync(source, target, env).target == target + rows
            && |rows| == |sel.rows|
            && forall j :: 0 <= j < |rows| ==> TimestampOf(rows[j]) == TimestampOf(sel.rows[j])
  {
    var ts := LastSyncTime(target, env.queryFails);
    CompleteRunWritesAll(source, target, env);
    SelectedAreNewer(source, ts);
    PreparedKeepTimestamps(Selected(source, ts), env);
  }

  /** A complete run appends every prepared row. */
  lemma CompleteRunWritesAll(source: Frame, target: seq<Row>, env: SyncEnv)
    requires WellFormed(source)
    requires Complete(RunSync(source, target, env).outcome)
    ensures RunSync(source, target, env).target == target + Prepare(Selected(source, LastSyncTime(target, env.queryFails)), env).rows
  {
    var rows := Prepare(Selected(source, LastSyncTime(target, env.queryFails)), env).rows;
    RunSyncWrites(source, target, env);
    assert rows[..|rows|] == rows;
  }

  /** Preparing rows that all carry a datetime `Timestamp` keeps every one of them. */
  lemma PreparedKeepTimestamps(sel: Frame, env: SyncEnv)
    requires WellFormed(sel) && KeepsTimestamps(env)
    requires forall j :: 0 <= j < |sel.rows| ==> TimestampOf(sel.rows[j]).Some?
    ensures forall j :: 0 <= j < |sel.rows| ==> TimestampOf(Prepare(sel, env).rows[j]) == TimestampOf(sel.rows[j])
  {
    forall j | 0 <= j < |sel.rows|
      ensures TimestampOf(Prepare(sel, env).rows[j]) == TimestampOf(sel.rows[j])
    {
      PrepareKeepsTimestamp(sel, env, j);
    }
  }

  /** Re-running the job after a run that wrote everything it selected, with the
      source unchanged and the watermark query answering both times, selects nothing
      and writes nothing: the new watermark is at least every synced row's
      `Timestamp`, and selection is strict. */
  lemma SecondRunWritesNothing(source: Frame, target: seq<Row>, env1: SyncEnv, env2: SyncEnv)
    requires WellFormed(source) && KeepsTimestamps(env1)
    requires !env1.queryFails && !env2.connectFails && !env2.queryFails && !env2.readFails
    requires Complete(RunSync(source, target, env1).outcome)
    ensures var first := RunSync(source, target, env1);
            var second := RunSync(source, first.target, env2);
            second.outcome == NothingToSync && second.target == first.target
  {
    WatermarkAfterCompleteRun(source, target, env1);
    RunSyncOutcomes(source, RunSync(source, target, env1).target, env2);
  }

  /** After a complete run, no source row is newer than the target's new watermark. */
  lemma WatermarkAfterCompleteRun(source: Frame, target: seq<Row>, env: SyncEnv)
    requires WellFormed(source) && KeepsTimestamps(env) && !env.queryFails
    requires Complete(RunSync(source, target, env).outcome)
    ensures forall j :: 0 <= j < |source.rows| ==>
              !Newer(source.rows[j], LastSyncTime(RunSync(source, target, env).target, false))
  {
    var ts1 := LastSyncTime(target, false);
    var sel := Selected(source, ts1);
    CompleteRunAppendsNewer(source, target, env);
    SyncedCoverSelection(source.rows, sel.rows, target, Prepare(sel, env).rows, ts1);
  }

  /** Appending, after `target`, rows carrying the `Timestamp`s of the rows selected
      against its watermark leaves no source row newer than the new watermark. */
  lemma SyncedCoverSelection(source: seq<Row>, sel: seq<Row>, target: seq<Row>, rows: seq<Row>, ts1: Timestamp)
    requires ts1 == LastSyncTime(target, false) && sel == SelectNewer(source, ts1)
    requires |rows| == |sel| && forall j :: 0 <= j < |rows| ==> TimestampOf(rows[j]) == TimestampOf(sel[j])
    ensures forall j :: 0 <= j < |source| ==> !Newer(source[j], LastSyncTime(target + rows, false))
  {
    assert forall j :: 0 <= j < |sel| ==> sel[j] in sel;
    WatermarkCoversAppended(target, rows);
    NothingNewer(source, sel, ts1, LastSyncTime(target + rows, false));
  }

  /** When every row newer than `ts1` is among `synced`, and `ts2` is at least `ts1`
      and every synced row's `Timestamp`, no row is newer than `ts2`. */
  lemma NothingNewer(source: seq<Row>, synced: seq<Row>, ts1: Timestamp, ts2: Timestamp)
    requires ts1 <= ts2
    requires forall row :: row in source && Newer(row, ts1) ==> row in synced
    requires forall k :: 0 <= k < |synced| ==> TimestampOf(synced[k]).Some? && TimestampOf(synced[k]).value <= ts2
    ensures forall j :: 0 <= j < |source| ==> !Newer(source[j], ts2)
  {
    forall j | 0 <= j < |source|
      ensures !Newer(source[j], ts2)
    {
      if Newer(source[j], ts1) {
        assert source[j] in synced;
      }
    }
  }

  /** With the bulk append failing, for a fault or because some row is refused, the write step stops at the first row whose own
      insert fails, by a fault or because the target refuses it, and keeps the rows
      before it. */
  lemma DeliverStopsAt(rules: TargetRules, target: seq<Row>, rows: seq<Row>, bulkFault: bool, rowFault: nat -> bool, errors: set<ColName>, p: nat)
    requires BulkAppend(rules, target, rows, bulkFault).None?
    requires p < |rows| && (rowFault(p) || Rejects(rules, target + rows[..p], rows[p]))
    requires forall q :: 0 <= q < p ==> !rowFault(q) && !Rejects(rules, target + rows[..q], rows[q])
    ensures Deliver(rules, target, rows, bulkFault, rowFault, errors) == SyncRun(RowByRow(Some(p)), target + rows[..p], errors)
  {
    DeliverWritesPrefix(rules, target, rows, bulkFault, rowFault, errors);
  }

  /** The source of the stranding scenario below: a row stamped 20 seconds after
      2000-01-01, then one stamped 10 seconds after. */
  function StrandSource(): Frame {
    Frame({TIMESTAMP_COLUMN}, [map[TIMESTAMP_COLUMN := Time(FLOOR + 20)], map[TIMESTAMP_COLUMN := Time(FLOOR + 10)]])
  }

  /** The first run of the scenario: the watermark query answers, conversions keep
      timestamps, the target has no constraints, the bulk append fails, and of the
      single-row inserts only the second one fails. */
  ghost predicate StrandFirstEnv(env: SyncEnv) {
    && !env.connectFails && !env.queryFails && !env.readFails
    && KeepsTimestamps(env)
    && env.bulkFault && !env.rowFault(0) && env.rowFault(1)
    && env.rules == TargetRules(false, map[])
  }

  /** An environment of that kind exists. */
  lemma StrandFirstEnvExists()
    ensures StrandFirstEnv(SyncEnv(false, false, false, c => 0,
              Parsers((v: Value) => None, (v: Value) => if v.Time? then Some(v.t) else None, (v: Value) => ""),
              c => false, true, q => q == 1, TargetRules(false, map[])))
  {
  }

  /** Both rows of the scenario are newer than the floor watermark. */
  lemma StrandSelected(source: Frame)
    requires source == StrandSource()
    ensures WellFormed(source) && Selected(source, FLOOR).rows == source.rows
  {
    var rows := source.rows;
    assert TimestampOf(rows[0]) == Some(FLOOR + 20) && TimestampOf(rows[1]) == Some(FLOOR + 10);
    assert rows[1..] == [rows[1]];
    assert SelectNewer([rows[1]], FLOOR) == [rows[1]] + SelectNewer([], FLOOR);
  }

  /** Both rows of the scenario keep their `Timestamp` through preparation. */
  lemma StrandPrepared(source: Frame, env: SyncEnv)
    requires source == StrandSource() && KeepsTimestamps(env)
    ensures WellFormed(source)
    ensures var sel := Selected(source, FLOOR);
            && |Prepare(sel, env).rows| == 2
            && TimestampOf(Prepare(sel, env).rows[0]) == Some(FLOOR + 20)
  {
    StrandSelected(source);
    var sel := Selected(source, FLOOR);
    assert TimestampOf(sel.rows[0]) == Some(FLOOR + 20);
    PrepareKeepsTimestamp(sel, env, 0);
  }

  /** The first run of the scenario: both rows are selected, the bulk append fails, the
      first row is inserted on its own and the second row's insert fails. */
  lemma StrandFirstRun(source: Frame, env: SyncEnv)
    requires source == StrandSource() && StrandFirstEnv(env)
    ensures WellFormed(source)
    ensures var first := RunSync(source, [], env);
            && first.outcome == RowByRow(Some(1))
            && |first.target| == 1 && TimestampOf(first.target[0]) == Some(FLOOR + 20)
  {
    assert LastSyncTime([], false) == FLOOR;
    StrandPrepared(source, env);
    var sel := Selected(source, FLOOR);
    var rows := Prepare(sel, env).rows;
    var errors := ConversionErrors(Backfill(sel, env.clock), DTYPE_MAPPING, env.raises);
    RunSyncDelivers(source, [], env);
    StrandDeliver(rows, errors, env.rowFault);
  }

  /** With no constraints on the target and the bulk append failing, two rows of
      which only the second one's insert fails leave the first row alone in an empty
      target. */
  lemma StrandDeliver(rows: seq<Row>, errors: set<ColName>, rowFault: nat -> bool)
    requires |rows| == 2 && rowFault(1) && !rowFault(0)
    ensures Deliver(TargetRules(false, map[]), [], rows, true, rowFault, errors) == SyncRun(RowByRow(Some(1)), [rows[0]], errors)
  {
    var rules := TargetRules(false, map[]);
    forall q | 0 <= q < 1
      ensures !rowFault(q) && !Rejects(rules, [] + rows[..q], rows[q])
    {
      assert q == 0;
    }
    DeliverStopsAt(rules, [], rows, true, rowFault, errors, 1);
    assert [] + rows[..1] == [rows[0]];
  }

  /** Rows after the fallback's stopping row are not necessarily synced by the next
      run: the selection has no ORDER BY, so the rows inserted before the failing row
      can raise the watermark past the failing row and the rows after it. In the
      scenario above the second source row's insert fails; the next run, with nothing
      failing, finds nothing to sync, and that row never reaches the target although
      it is newer than the watermark the first run used. */
  lemma FallbackCanStrandRows(source: Frame, failing: SyncEnv, clean: SyncEnv)
    requires source == StrandSource() && StrandFirstEnv(failing)
    requires !clean.connectFails && !clean.queryFails && !clean.readFails
    ensures WellFormed(source)
    ensures var early := source.rows[1];
            var first := RunSync(source, [], failing);
            var second := RunSync(source, first.target, clean);
            && Newer(early, LastSyncTime([], false))
            && first.outcome == RowByRow(Some(1))
            && second.outcome == NothingToSync && second.target == first.target
            && forall j :: 0 <= j < |second.target| ==> TimestampOf(second.target[j]) != TimestampOf(early)
  {
    StrandFirstRun(source, failing);
    var first := RunSync(source, [], failing);
    StrandSecondRun(source, first.target, clean);
    var second := RunSync(source, first.target, clean);
    assert LastSyncTime([], false) == FLOOR;
    assert TimestampOf(source.rows[1]) == Some(FLOOR + 10);
    assert second.target == first.target && |first.target| == 1;
    assert TimestampOf(second.target[0]) == Some(FLOOR + 20);
  }

  /** The second run of the scenario: the target's watermark is the first row's
      `Timestamp`, and neither source row is newer. */
  lemma StrandSecondRun(source: Frame, target: seq<Row>, env: SyncEnv)
    requires source == StrandSource()
    requires |target| == 1 && TimestampOf(target[0]) == Some(FLOOR + 20)
    requires !env.connectFails && !env.queryFails && !env.readFails
    ensures WellFormed(source)
    ensures RunSync(source, target, env).outcome == NothingToSync && RunSync(source, target, env).target == target
  {
    assert LastSyncTime(target, false) == FLOOR + 20;
    assert TimestampOf(source.rows[0]) == Some(FLOOR + 20) && TimestampOf(source.rows[1]) == Some(FLOOR + 10);
    RunSyncOutcomes(source, target, env);
  }
}
