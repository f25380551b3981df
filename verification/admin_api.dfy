/** The Admin API: `POST /admin/bulk` (`create_admin_records`), which writes a list
    of records to two backends batch by batch without a distributed transaction,
    and the two read endpoints, which consult backend 1 only. */
module AdminApi {
  import opened Common
  import opened Chunking
  import opened AdminStore

  /** `BATCH_SIZE` of `create_admin_records`. */
  const BATCH_SIZE: nat := 1000

  /** The session calls of one batch, and the two rollbacks of the error handler. */
  datatype Step = Insert1 | Insert2 | Commit1 | Commit2 | Rollback1 | Rollback2

  /** The session calls made for one batch, in order (the source logs one line per batch). */
  datatype BatchLog = BatchLog(batch: nat, calls: seq<Step>)

  /** The calls a batch makes, in order, when none of them raises. */
  const PROTOCOL: seq<Step> := [Insert1, Insert2, Commit1, Commit2]

  /** Failure oracle: whether call `step` of batch `k` raises for a reason other than
      a primary-key violation (connectivity, a rejected commit, ...). */
  type Faults = (nat, Step) -> bool

  /** Where a call stands in a batch: its index in `PROTOCOL`, and for the rollbacks
      of the error handler, the places after it. */
  function Position(st: Step): nat {
    match st
    case Insert1 => 0
    case Insert2 => 1
    case Commit1 => 2
    case Commit2 => 3
    case Rollback1 => 4
    case Rollback2 => 5
  }

  /** The calls of batch `k` when its call `at` raised: the protocol up to and
      including `at`, then the rollback of both sessions. */
  function AbortLog(k: nat, at: Step): BatchLog {
    BatchLog(k, PROTOCOL[..Min(Position(at) + 1, |PROTOCOL|)] + [Rollback1, Rollback2])
  }

  /** `trace` is the calls of `n` batches numbered from `first` on, each of which
      ran the full protocol. */
  predicate CommittedLogs(trace: seq<BatchLog>, first: nat, n: nat) {
    |trace| == n && forall j :: 0 <= j < n ==> trace[j] == BatchLog(first + j, PROTOCOL)
  }

  /** The oracle fails none of the four calls of batch `k`. */
  predicate FaultFree(faults: Faults, k: nat) {
    !faults(k, Insert1) && !faults(k, Insert2) && !faults(k, Commit1) && !faults(k, Commit2)
  }

  /** The oracle fails no call of batches `from`, ..., `to - 1`. */
  predicate NoFaults(faults: Faults, from: nat, to: nat) {
    forall k: nat :: from <= k < to ==> FaultFree(faults, k)
  }

  /** Whether call `st` of batch `k` raises, judged against the sessions as the batch
      finds them (the first insert leaves backend 2's session alone, so both insert
      checks can be stated against the starting sessions). */
  predicate StepFails(k: nat, batch: seq<Admin>, s1: Session, s2: Session, faults: Faults, st: Step) {
    match st
    case Insert1 => faults(k, Insert1) || !Fresh(Visible(s1), batch)
    case Insert2 => faults(k, Insert2) || !Fresh(Visible(s2), batch)
    case Commit1 => faults(k, Commit1)
    case Commit2 => faults(k, Commit2)
    case _ => false
  }

  /** None of the first `n` calls of the protocol raises. */
  predicate CleanBefore(k: nat, batch: seq<Admin>, s1: Session, s2: Session, faults: Faults, n: nat) {
    && (n > 0 ==> !StepFails(k, batch, s1, s2, faults, Insert1))
    && (n > 1 ==> !StepFails(k, batch, s1, s2, faults, Insert2))
    && (n > 2 ==> !StepFails(k, batch, s1, s2, faults, Commit1))
    && (n > 3 ==> !StepFails(k, batch, s1, s2, faults, Commit2))
  }

  /** How one batch ends: committed on both sessions, or failed at call `at` and
      rolled back. */
  datatype BatchOutcome =
    | Committed(s1: Session, s2: Session)
    | Failed(at: Step, s1: Session, s2: Session)

  /** One iteration of the loop: insert into backend 1, insert into backend 2, commit 1,
      commit 2; the first call that raises sends control to the handler, which rolls
      both sessions back. A commit that succeeded is not undone by the rollback. */
  function RunBatch(k: nat, batch: seq<Admin>, s1: Session, s2: Session, faults: Faults): (r: BatchOutcome)
    requires s1.pending == [] && s2.pending == []
    ensures r.Committed? <==> CleanBefore(k, batch, s1, s2, faults, |PROTOCOL|)
    ensures r.Failed? ==> && r.at in PROTOCOL
                          && StepFails(k, batch, s1, s2, faults, r.at)
                          && CleanBefore(k, batch, s1, s2, faults, Position(r.at))
    ensures r.s1.pending == [] && r.s2.pending == []
    ensures r.s1.committed == if r.Committed? || r.at == Commit2 then AddAll(s1.committed, batch) else s1.committed
    ensures r.s2.committed == if r.Committed? then AddAll(s2.committed, batch) else s2.committed
  {
    match BulkInsertMappings(s1, batch, faults(k, Insert1))
    case Raised(_) => Failed(Insert1, Rollback(s1), Rollback(s2))
    case Done(t1) =>
      match BulkInsertMappings(s2, batch, faults(k, Insert2))
      case Raised(_) => Failed(Insert2, Rollback(t1), Rollback(s2))
      case Done(t2) =>
        match Commit(t1, faults(k, Commit1))
        case Raised(_) => Failed(Commit1, Rollback(t1), Rollback(t2))
        case Done(u1) =>
          match Commit(t2, faults(k, Commit2))
          case Raised(_) => Failed(Commit2, Rollback(u1), Rollback(t2))
          case Done(u2) => Committed(u1, u2)
  }

  /** The HTTP reply of `POST /admin/bulk`: 200 with the created records, or 500 (the
      source's detail string carries the exception text; the model names the batch
      and the call instead). There is no partial-success shape. */
  datatype Reply = Created(records: seq<Admin>) | ServerError(batch: nat, at: Step)

  /** A request's reply, both backends' tables once the sessions close, the session
      calls made, and the batches sliced from the input. */
  datatype Ingestion = Ingestion(reply: Reply, db1: Table, db2: Table, trace: seq<BatchLog>, batches: seq<seq<Admin>>)

  /** The `for i in range(i, total, BATCH_SIZE)` loop from offset `i` on, with the
      records created so far. */
  function BulkLoop(admins: seq<Admin>, i: nat, s1: Session, s2: Session, created: seq<Admin>, faults: Faults): Ingestion
    requires s1.pending == [] && s2.pending == []
    decreases |admins| - i
  {
    if i >= |admins| then Ingestion(Created(created), s1.committed, s2.committed, [], [])
    else
      var k := i / BATCH_SIZE;
      var batch := Slice(admins, i, i + BATCH_SIZE);
      match RunBatch(k, batch, s1, s2, faults)
      case Failed(at, t1, t2) =>
        Ingestion(ServerError(k, at), t1.committed, t2.committed, [AbortLog(k, at)], [batch])
      case Committed(t1, t2) =>
        var rest := BulkLoop(admins, i + BATCH_SIZE, t1, t2, created + batch, faults);
        rest.(trace := [BatchLog(k, PROTOCOL)] + rest.trace, batches := [batch] + rest.batches)
  }

  /** `POST /admin/bulk` against backends holding `db1` and `db2`. An empty list makes
      no call and changes neither backend. */
  function CreateAdminRecords(admins: seq<Admin>, db1: Table, db2: Table, faults: Faults): (r: Ingestion)
    ensures |admins| == 0 ==> r == Ingestion(Created([]), db1, db2, [], [])
  {
    BulkLoop(admins, 0, Open(db1), Open(db2), [], faults)
  }

  /** The reply of `GET /admin/{udise_code}`: the record, or 404. */
  datatype Lookup = Found(admin: Admin) | NotFound

  /** `GET /admin/{udise_code}`, answered from backend 1's table alone. */
  function GetAdmin(db1: Table, udiseCode: int): (r: Lookup)
    requires Keyed(db1)
    ensures r.NotFound? <==> forall k :: k in db1 ==> db1[k].udiseCode != udiseCode
    ensures r.Found? ==> r.admin.udiseCode == udiseCode && r.admin in db1.Values
  {
    if udiseCode in db1 then Found(db1[udiseCode]) else NotFound
  }

  /** `GET /admin/`: every row of backend 1's table (the order of a query without
      ORDER BY is the database's, so the model returns the rows as a set). */
  function GetAllAdmins(db1: Table): (r: set<Admin>)
    requires Keyed(db1)
    ensures forall a :: a in r <==> a.udiseCode in db1 && db1[a.udiseCode] == a
  {
    var r := set k | k in db1 :: db1[k];
    assert forall a: Admin :: a.udiseCode in db1 && db1[a.udiseCode] == a ==> a in r;
    r
  }

  // ---------------------------------------------------------------------------
  // The loop, one batch at a time.

  /** Taking one batch at offset `i` leaves the rest of the input at offset `i + BATCH_SIZE`. */
  lemma BatchStep(admins: seq<Admin>, i: nat)
    requires i % BATCH_SIZE == 0 && i < |admins|
    ensures Slice(admins, i, |admins|) == Slice(admins, i, i + BATCH_SIZE) + Slice(admins, i + BATCH_SIZE, |admins|)
    ensures ChunksFrom(admins, BATCH_SIZE, i) == [Slice(admins, i, i + BATCH_SIZE)] + ChunksFrom(admins, BATCH_SIZE, i + BATCH_SIZE)
    ensures (i + BATCH_SIZE) % BATCH_SIZE == 0 && (i + BATCH_SIZE) / BATCH_SIZE == i / BATCH_SIZE + 1
  {
    SliceConcat(admins, i, i + BATCH_SIZE, |admins|);
    if |admins| < i + BATCH_SIZE {
      SliceClamp(admins, i, i + BATCH_SIZE);
    }
  }

  /** From offset `i` on, the oracle fails no call and the remaining records can be
      inserted into backends holding `t1` and `t2`. */
  predicate Admissible(admins: seq<Admin>, i: nat, t1: Table, t2: Table, faults: Faults) {
    && NoFaults(faults, i / BATCH_SIZE, i / BATCH_SIZE + |ChunksFrom(admins, BATCH_SIZE, i)|)
    && Fresh(t1, Slice(admins, i, |admins|))
    && Fresh(t2, Slice(admins, i, |admins|))
  }

  /** The remaining input is admissible exactly when its first batch is, and the rest
      is once that batch has been added to both backends. */
  lemma AdmissibleStep(admins: seq<Admin>, i: nat, t1: Table, t2: Table, faults: Faults)
    requires i % BATCH_SIZE == 0 && i < |admins|
    ensures Admissible(admins, i, t1, t2, faults) <==>
              && FaultFree(faults, i / BATCH_SIZE)
              && Fresh(t1, Slice(admins, i, i + BATCH_SIZE))
              && Fresh(t2, Slice(admins, i, i + BATCH_SIZE))
              && Admissible(admins, i + BATCH_SIZE, AddAll(t1, Slice(admins, i, i + BATCH_SIZE)),
                            AddAll(t2, Slice(admins, i, i + BATCH_SIZE)), faults)
  {
    var k := i / BATCH_SIZE;
    var batch := Slice(admins, i, i + BATCH_SIZE);
    var rest := Slice(admins, i + BATCH_SIZE, |admins|);
    var n := |ChunksFrom(admins, BATCH_SIZE, i)|;
    BatchStep(admins, i);
    FreshAppend(t1, batch, rest);
    FreshAppend(t2, batch, rest);
    assert NoFaults(faults, k, k + n) <==> FaultFree(faults, k) && NoFaults(faults, k + 1, k + n);
  }

  /** The loop from offset `i` returns 200 exactly when the oracle fails no remaining
      call and the remaining records can be inserted into both backends. */
  lemma {:induction false} BulkLoopSucceedsIff(admins: seq<Admin>, i: nat, s1: Session, s2: Session, created: seq<Admin>, faults: Faults)
    requires i % BATCH_SIZE == 0
    requires s1.pending == [] && s2.pending == []
    ensures BulkLoop(admins, i, s1, s2, created, faults).reply.Created? <==>
              Admissible(admins, i, s1.committed, s2.committed, faults)
    decreases |admins| - i
  {
    if i < |admins| {
      var k := i / BATCH_SIZE;
      var batch := Slice(admins, i, i + BATCH_SIZE);
      BatchStep(admins, i);
      AdmissibleStep(admins, i, s1.committed, s2.committed, faults);
      var o := RunBatch(k, batch, s1, s2, faults);
      assert o.Committed? <==> FaultFree(faults, k) && Fresh(s1.committed, batch) && Fresh(s2.committed, batch);
      if o.Committed? {
        BulkLoopSucceedsIff(admins, i + BATCH_SIZE, o.s1, o.s2, created + batch, faults);
      }
    } else {
      assert Slice(admins, i, |admins|) == [];
    }
  }

  /** A loop that returns 200 has created every remaining record, in order. */
  lemma {:induction false} BulkLoopCreated(admins: seq<Admin>, i: nat, s1: Session, s2: Session, created: seq<Admin>, faults: Faults)
    requires i % BATCH_SIZE == 0
    requires s1.pending == [] && s2.pending == []
    requires BulkLoop(admins, i, s1, s2, created, faults).reply.Created?
    ensures BulkLoop(admins, i, s1, s2, created, faults).reply.records == created + Slice(admins, i, |admins|)
    decreases |admins| - i
  {
    if i < |admins| {
      var batch := Slice(admins, i, i + BATCH_SIZE);
      var rest := Slice(admins, i + BATCH_SIZE, |admins|);
      var o := RunBatch(i / BATCH_SIZE, batch, s1, s2, faults);
      CreatedStep(admins, i, s1, s2, created, faults);
      BulkLoopCreated(admins, i + BATCH_SIZE, o.s1, o.s2, created + batch, faults);
      assert (created + batch) + rest == created + (batch + rest);
    }
  }

  /** A 200 from offset `i` is a committed first batch followed by a 200 from the next
      offset, with that batch added to the records created. */
  lemma CreatedStep(admins: seq<Admin>, i: nat, s1: Session, s2: Session, created: seq<Admin>, faults: Faults)
    requires i % BATCH_SIZE == 0 && i < |admins|
    requires s1.pending == [] && s2.pending == []
    requires BulkLoop(admins, i, s1, s2, created, faults).reply.Created?
    ensures var batch := Slice(admins, i, i + BATCH_SIZE);
            var o := RunBatch(i / BATCH_SIZE, batch, s1, s2, faults);
            && o.Committed?
            && o.s1.pending == [] && o.s2.pending == []
            && (i + BATCH_SIZE) % BATCH_SIZE == 0
            && Slice(admins, i, |admins|) == batch + Slice(admins, i + BATCH_SIZE, |admins|)
            && BulkLoop(admins, i, s1, s2, created, faults).reply
               == BulkLoop(admins, i + BATCH_SIZE, o.s1, o.s2, created + batch, faults).reply
  {
    BatchStep(admins, i);
    var o := RunBatch(i / BATCH_SIZE, Slice(admins, i, i + BATCH_SIZE), s1, s2, faults);
    assert o.Committed?;
    CommittedStep(admins, i, s1, s2, created, faults);
  }

  /** A loop that returns 200 has stored every remaining record in both backends. */
  lemma {:induction false} BulkLoopStored(admins: seq<Admin>, i: nat, s1: Session, s2: Session, created: seq<Admin>, faults: Faults)
    requires i % BATCH_SIZE == 0
    requires s1.pending == [] && s2.pending == []
    requires BulkLoop(admins, i, s1, s2, created, faults).reply.Created?
    ensures BulkLoop(admins, i, s1, s2, created, faults).db1 == AddAll(s1.committed, Slice(admins, i, |admins|))
    ensures BulkLoop(admins, i, s1, s2, created, faults).db2 == AddAll(s2.committed, Slice(admins, i, |admins|))
    decreases |admins| - i
  {
    if i < |admins| {
      var batch := Slice(admins, i, i + BATCH_SIZE);
      var rest := Slice(admins, i + BATCH_SIZE, |admins|);
      BatchStep(admins, i);
      var o := RunBatch(i / BATCH_SIZE, batch, s1, s2, faults);
      assert o.Committed?;
      CommittedStep(admins, i, s1, s2, created, faults);
      BulkLoopStored(admins, i + BATCH_SIZE, o.s1, o.s2, created + batch, faults);
      AddAllAppend(s1.committed, batch, rest);
      AddAllAppend(s2.committed, batch, rest);
    }
  }

  /** A loop that returns 200 has sent every remaining batch and run the full protocol
      for each of them. */
  lemma {:induction false} BulkLoopCreatedLog(admins: seq<Admin>, i: nat, s1: Session, s2: Session, created: seq<Admin>, faults: Faults)
    requires i % BATCH_SIZE == 0
    requires s1.pending == [] && s2.pending == []
    requires BulkLoop(admins, i, s1, s2, created, faults).reply.Created?
    ensures BulkLoop(admins, i, s1, s2, created, faults).batches == ChunksFrom(admins, BATCH_SIZE, i)
    ensures CommittedLogs(BulkLoop(admins, i, s1, s2, created, faults).trace, i / BATCH_SIZE, |ChunksFrom(admins, BATCH_SIZE, i)|)
    decreases |admins| - i
  {
    if i < |admins| {
      var batch := Slice(admins, i, i + BATCH_SIZE);
      BatchStep(admins, i);
      var o := RunBatch(i / BATCH_SIZE, batch, s1, s2, faults);
      assert o.Committed?;
      CommittedStep(admins, i, s1, s2, created, faults);
      var r' := BulkLoop(admins, i + BATCH_SIZE, o.s1, o.s2, created + batch, faults);
      BulkLoopCreatedLog(admins, i + BATCH_SIZE, o.s1, o.s2, created + batch, faults);
      CommittedLogsCons(r'.trace, i / BATCH_SIZE, |ChunksFrom(admins, BATCH_SIZE, i + BATCH_SIZE)|);
    }
  }

  /** A committed batch in front of a run of committed batches. */
  lemma CommittedLogsCons(trace: seq<BatchLog>, first: nat, n: nat)
    requires CommittedLogs(trace, first + 1, n)
    ensures CommittedLogs([BatchLog(first, PROTOCOL)] + trace, first, n + 1)
  {
    var t := [BatchLog(first, PROTOCOL)] + trace;
    forall j | 0 < j < n + 1
      ensures t[j] == BatchLog(first + j, PROTOCOL)
    {
      assert t[j] == trace[j - 1];
    }
  }

  /** A batch that commits leaves the rest of the request to the loop at the next offset. */
  lemma CommittedStep(admins: seq<Admin>, i: nat, s1: Session, s2: Session, created: seq<Admin>, faults: Faults)
    requires i < |admins|
    requires s1.pending == [] && s2.pending == []
    requires RunBatch(i / BATCH_SIZE, Slice(admins, i, i + BATCH_SIZE), s1, s2, faults).Committed?
    ensures var batch := Slice(admins, i, i + BATCH_SIZE);
            var o := RunBatch(i / BATCH_SIZE, batch, s1, s2, faults);
            var r' := BulkLoop(admins, i + BATCH_SIZE, o.s1, o.s2, created + batch, faults);
            BulkLoop(admins, i, s1, s2, created, faults)
              == r'.(trace := [BatchLog(i / BATCH_SIZE, PROTOCOL)] + r'.trace, batches := [batch] + r'.batches)
  {
  }

  /** `trace` is the calls of batches `first`, ..., `k - 1`, each of which committed,
      followed by those of batch `k`, which raised at call `at`. */
  predicate AbortedLogs(trace: seq<BatchLog>, first: nat, k: nat, at: Step) {
    && first <= k
    && |trace| == k - first + 1
    && (forall j :: 0 <= j < k - first ==> trace[j] == BatchLog(first + j, PROTOCOL))
    && trace[k - first] == AbortLog(k, at)
  }

  /** A committed batch in front of an aborted run extends its log by one batch. */
  lemma AbortedLogsCons(trace: seq<BatchLog>, first: nat, k: nat, at: Step)
    requires AbortedLogs(trace, first + 1, k, at)
    ensures AbortedLogs([BatchLog(first, PROTOCOL)] + trace, first, k, at)
  {
    var t := [BatchLog(first, PROTOCOL)] + trace;
    forall j | 0 <= j < k - first
      ensures t[j] == BatchLog(first + j, PROTOCOL)
    {
      if j > 0 {
        assert t[j] == trace[j - 1];
      }
    }
  }

  /** A batch that raises ends the request with 500 naming it and the call that raised. */
  lemma FailedStep(admins: seq<Admin>, i: nat, s1: Session, s2: Session, created: seq<Admin>, faults: Faults)
    requires i < |admins|
    requires s1.pending == [] && s2.pending == []
    requires RunBatch(i / BATCH_SIZE, Slice(admins, i, i + BATCH_SIZE), s1, s2, faults).Failed?
    ensures var batch := Slice(admins, i, i + BATCH_SIZE);
            var o := RunBatch(i / BATCH_SIZE, batch, s1, s2, faults);
            BulkLoop(admins, i, s1, s2, created, faults)
              == Ingestion(ServerError(i / BATCH_SIZE, o.at), o.s1.committed, o.s2.committed,
                           [AbortLog(i / BATCH_SIZE, o.at)], [batch])
  {
  }

  /** The calls and batches of a request that returned 500 for batch `k` at call `at`,
      counted from offset `i`: `k` is one of the remaining batches, `at` a call of the
      protocol, no later batch was touched, and the batches sliced are the remaining
      ones up to and including `k`. */
  predicate AbortedLog(k: nat, at: Step, trace: seq<BatchLog>, batches: seq<seq<Admin>>, admins: seq<Admin>, i: nat) {
    && i / BATCH_SIZE <= k < i / BATCH_SIZE + |ChunksFrom(admins, BATCH_SIZE, i)|
    && at in PROTOCOL
    && AbortedLogs(trace, i / BATCH_SIZE, k, at)
    && batches == ChunksFrom(admins, BATCH_SIZE, i)[..k - i / BATCH_SIZE + 1]
  }

  /** Putting a committed batch in front of an aborted run extends its calls and batches. */
  lemma AbortedLogCons(k: nat, at: Step, trace: seq<BatchLog>, batches: seq<seq<Admin>>, admins: seq<Admin>, i: nat)
    requires i % BATCH_SIZE == 0 && i < |admins|
    requires AbortedLog(k, at, trace, batches, admins, i + BATCH_SIZE)
    ensures AbortedLog(k, at, [BatchLog(i / BATCH_SIZE, PROTOCOL)] + trace, [Slice(admins, i, i + BATCH_SIZE)] + batches, admins, i)
  {
    BatchStep(admins, i);
    AbortedLogsCons(trace, i / BATCH_SIZE, k, at);
    var cs := ChunksFrom(admins, BATCH_SIZE, i);
    var cs' := ChunksFrom(admins, BATCH_SIZE, i + BATCH_SIZE);
    var m := k - (i / BATCH_SIZE + 1) + 1;
    assert cs[..m + 1] == [Slice(admins, i, i + BATCH_SIZE)] + cs'[..m];
  }

  /** A loop that returns 500 names a batch among the remaining ones and a call of the
      protocol, made no call for a later batch, and sliced the batches up to that one. */
  lemma {:induction false} BulkLoopAbortedLog(admins: seq<Admin>, i: nat, s1: Session, s2: Session, created: seq<Admin>, faults: Faults)
    requires i % BATCH_SIZE == 0
    requires s1.pending == [] && s2.pending == []
    requires BulkLoop(admins, i, s1, s2, created, faults).reply.ServerError?
    ensures var r := BulkLoop(admins, i, s1, s2, created, faults);
            AbortedLog(r.reply.batch, r.reply.at, r.trace, r.batches, admins, i)
    decreases |admins| - i
  {
    assert i < |admins|;
    var k := i / BATCH_SIZE;
    var batch := Slice(admins, i, i + BATCH_SIZE);
    BatchStep(admins, i);
    var o := RunBatch(k, batch, s1, s2, faults);
    if o.Committed? {
      CommittedStep(admins, i, s1, s2, created, faults);
      var r' := BulkLoop(admins, i + BATCH_SIZE, o.s1, o.s2, created + batch, faults);
      BulkLoopAbortedLog(admins, i + BATCH_SIZE, o.s1, o.s2, created + batch, faults);
      AbortedLogCons(r'.reply.batch, r'.reply.at, r'.trace, r'.batches, admins, i);
    } else {
      FailedStep(admins, i, s1, s2, created, faults);
    }
  }

  /** What a request that returned 500 for batch `k`, naming call `at`, left in
      backends that held `t1` and `t2` before offset `i`: the batches before `k`
      (records `done`) were fresh and are stored in both; every call of batch `k`
      (records `failing`) before `at` succeeded and `at` raised; batch `k` stays in
      backend 1 only when the call that raised was the second commit. */
  predicate AbortedTables(k: nat, at: Step, db1: Table, db2: Table, admins: seq<Admin>, i: nat, t1: Table, t2: Table, faults: Faults) {
    var done := Slice(admins, i, k * BATCH_SIZE);
    var failing := Slice(admins, k * BATCH_SIZE, (k + 1) * BATCH_SIZE);
    && Fresh(t1, done) && Fresh(t2, done)
    && CleanBefore(k, failing, Open(AddAll(t1, done)), Open(AddAll(t2, done)), faults, Position(at))
    && StepFails(k, failing, Open(AddAll(t1, done)), Open(AddAll(t2, done)), faults, at)
    && db2 == AddAll(t2, done)
    && db1 == if at == Commit2 then AddAll(AddAll(t1, done), failing) else AddAll(t1, done)
  }

  /** Putting a committed batch in front of an aborted run: the tables it describes
      from the next offset are the tables from this offset with the batch added. */
  lemma AbortedTablesCons(k: nat, at: Step, db1: Table, db2: Table, admins: seq<Admin>, i: nat, t1: Table, t2: Table, faults: Faults)
    requires i + BATCH_SIZE <= k * BATCH_SIZE
    requires Fresh(t1, Slice(admins, i, i + BATCH_SIZE)) && Fresh(t2, Slice(admins, i, i + BATCH_SIZE))
    requires AbortedTables(k, at, db1, db2, admins, i + BATCH_SIZE, AddAll(t1, Slice(admins, i, i + BATCH_SIZE)),
                           AddAll(t2, Slice(admins, i, i + BATCH_SIZE)), faults)
    ensures AbortedTables(k, at, db1, db2, admins, i, t1, t2, faults)
  {
    var batch := Slice(admins, i, i + BATCH_SIZE);
    var done' := Slice(admins, i + BATCH_SIZE, k * BATCH_SIZE);
    SliceConcat(admins, i, i + BATCH_SIZE, k * BATCH_SIZE);
    assert Slice(admins, i, k * BATCH_SIZE) == batch + done';
    AddAllAppend(t1, batch, done');
    AddAllAppend(t2, batch, done');
    FreshAppend(t1, batch, done');
    FreshAppend(t2, batch, done');
  }

  /** The batch at offset `i` raising: nothing before it, and the tables the rollback left. */
  lemma AbortedTablesHere(admins: seq<Admin>, i: nat, s1: Session, s2: Session, faults: Faults)
    requires i % BATCH_SIZE == 0
    requires s1.pending == [] && s2.pending == []
    requires RunBatch(i / BATCH_SIZE, Slice(admins, i, i + BATCH_SIZE), s1, s2, faults).Failed?
    ensures var o := RunBatch(i / BATCH_SIZE, Slice(admins, i, i + BATCH_SIZE), s1, s2, faults);
            AbortedTables(i / BATCH_SIZE, o.at, o.s1.committed, o.s2.committed, admins, i, s1.committed, s2.committed, faults)
  {
    var k := i / BATCH_SIZE;
    assert k * BATCH_SIZE == i;
    assert Slice(admins, i, k * BATCH_SIZE) == [];
    assert s1 == Open(s1.committed) && s2 == Open(s2.committed);
  }

  /** A loop that returns 500 stored exactly the batches before the one it names, in
      both backends, and that batch too in backend 1 when only the second commit
      raised. */
  lemma {:induction false} BulkLoopAbortedTables(admins: seq<Admin>, i: nat, s1: Session, s2: Session, created: seq<Admin>, faults: Faults)
    requires i % BATCH_SIZE == 0
    requires s1.pending == [] && s2.pending == []
    requires BulkLoop(admins, i, s1, s2, created, faults).reply.ServerError?
    ensures var r := BulkLoop(admins, i, s1, s2, created, faults);
            AbortedTables(r.reply.batch, r.reply.at, r.db1, r.db2, admins, i, s1.committed, s2.committed, faults)
    decreases |admins| - i
  {
    assert i < |admins|;
    var k := i / BATCH_SIZE;
    var batch := Slice(admins, i, i + BATCH_SIZE);
    BatchStep(admins, i);
    assert k * BATCH_SIZE == i;
    var o := RunBatch(k, batch, s1, s2, faults);
    if o.Committed? {
      CommittedStep(admins, i, s1, s2, created, faults);
      var r' := BulkLoop(admins, i + BATCH_SIZE, o.s1, o.s2, created + batch, faults);
      BulkLoopAbortedLog(admins, i + BATCH_SIZE, o.s1, o.s2, created + batch, faults);
      BulkLoopAbortedTables(admins, i + BATCH_SIZE, o.s1, o.s2, created + batch, faults);
      AbortedTablesCons(r'.reply.batch, r'.reply.at, r'.db1, r'.db2, admins, i, s1.committed, s2.committed, faults);
    } else {
      FailedStep(admins, i, s1, s2, created, faults);
      AbortedTablesHere(admins, i, s1, s2, faults);
    }
  }

  // ---------------------------------------------------------------------------
  // Whole requests.

  /** `POST /admin/bulk` returns 200 exactly when the oracle fails no call of any of
      the `ceil(len(admins) / BATCH_SIZE)` batches and the whole list can be inserted
      into each backend: its keys are pairwise distinct and absent from both. */
  lemma BulkSucceedsIff(admins: seq<Admin>, db1: Table, db2: Table, faults: Faults)
    ensures CreateAdminRecords(admins, db1, db2, faults).reply.Created? <==>
              && NoFaults(faults, 0, CeilDiv(|admins|, BATCH_SIZE))
              && Fresh(db1, admins) && Fresh(db2, admins)
  {
    BulkLoopSucceedsIff(admins, 0, Open(db1), Open(db2), [], faults);
    ChunksPartition(admins, BATCH_SIZE);
    SliceToEnd(admins, 0);
  }

  /** A 200 reply echoes the whole input, in order; both backends then hold their old
      rows plus every input record; the batches were the `BATCH_SIZE` slices of the
      input, each of which ran the full protocol. */
  lemma BulkSuccessStoresEverything(admins: seq<Admin>, db1: Table, db2: Table, faults: Faults)
    requires CreateAdminRecords(admins, db1, db2, faults).reply.Created?
    ensures var r := CreateAdminRecords(admins, db1, db2, faults);
            && r.reply.records == admins
            && r.db1 == AddAll(db1, admins) && r.db2 == AddAll(db2, admins)
            && r.batches == Chunks(admins, BATCH_SIZE)
            && CommittedLogs(r.trace, 0, CeilDiv(|admins|, BATCH_SIZE))
  {
    BulkLoopCreated(admins, 0, Open(db1), Open(db2), [], faults);
    BulkLoopStored(admins, 0, Open(db1), Open(db2), [], faults);
    BulkLoopCreatedLog(admins, 0, Open(db1), Open(db2), [], faults);
    ChunksPartition(admins, BATCH_SIZE);
    SliceToEnd(admins, 0);
  }

  /** Read after write: after a 200, `GET /admin/{code}` finds every input record
      under its code and every row backend 1 held before, unchanged, and
      `GET /admin/` lists all of them. */
  lemma BulkSuccessReadable(admins: seq<Admin>, db1: Table, db2: Table, faults: Faults)
    requires Keyed(db1)
    requires CreateAdminRecords(admins, db1, db2, faults).reply.Created?
    ensures var db := CreateAdminRecords(admins, db1, db2, faults).db1;
            && Keyed(db)
            && (forall i :: 0 <= i < |admins| ==>
                  GetAdmin(db, admins[i].udiseCode) == Found(admins[i]) && admins[i] in GetAllAdmins(db))
            && (forall k :: k in db1 ==> GetAdmin(db, k) == Found(db1[k]) && db1[k] in GetAllAdmins(db))
  {
    BulkSuccessStoresEverything(admins, db1, db2, faults);
    BulkSucceedsIff(admins, db1, db2, faults);
    AddAllFreshValues(db1, admins);
    var db := AddAll(db1, admins);
    forall i | 0 <= i < |admins|
      ensures admins[i].udiseCode in db
    {
      assert admins[i].udiseCode in KeySet(admins);
    }
  }

  /** The loop's account of a 500 read from offset 0. */
  lemma AbortedFromStart(k: nat, at: Step, trace: seq<BatchLog>, batches: seq<seq<Admin>>, r1: Table, r2: Table,
                         admins: seq<Admin>, db1: Table, db2: Table, faults: Faults)
    requires AbortedLog(k, at, trace, batches, admins, 0)
    requires AbortedTables(k, at, r1, r2, admins, 0, db1, db2, faults)
    ensures var done := Slice(admins, 0, k * BATCH_SIZE);
            var failing := Slice(admins, k * BATCH_SIZE, (k + 1) * BATCH_SIZE);
            && k < CeilDiv(|admins|, BATCH_SIZE) && at in PROTOCOL
            && |done| == k * BATCH_SIZE && done + failing == Slice(admins, 0, (k + 1) * BATCH_SIZE)
            && k < |Chunks(admins, BATCH_SIZE)| && batches == Chunks(admins, BATCH_SIZE)[..k + 1]
            && AbortedLogs(trace, 0, k, at)
            && Fresh(db1, done) && Fresh(db2, done)
            && r2 == AddAll(db2, done)
            && r1 == if at == Commit2 then AddAll(db1, done + failing) else AddAll(db1, done)
  {
    ChunksPartition(admins, BATCH_SIZE);
    assert k * BATCH_SIZE < |admins|;
    SliceConcat(admins, 0, k * BATCH_SIZE, (k + 1) * BATCH_SIZE);
    AddAllAppend(db1, Slice(admins, 0, k * BATCH_SIZE), Slice(admins, k * BATCH_SIZE, (k + 1) * BATCH_SIZE));
  }

  /** A 500 for batch `k` at call `at`: `k` is one of the batches and `at` a call of
      the protocol; batches `0`, ..., `k - 1` committed on both backends and nothing
      after batch `k` was attempted; backend 2 holds exactly its old rows plus the
      records before batch `k`, and so does backend 1 unless the call that raised was
      the second commit, in which case it holds batch `k` as well. */
  lemma BulkAbortKeepsEarlierBatches(admins: seq<Admin>, db1: Table, db2: Table, faults: Faults)
    requires CreateAdminRecords(admins, db1, db2, faults).reply.ServerError?
    ensures var r := CreateAdminRecords(admins, db1, db2, faults);
            var k := r.reply.batch;
            var done := Slice(admins, 0, k * BATCH_SIZE);
            var failing := Slice(admins, k * BATCH_SIZE, (k + 1) * BATCH_SIZE);
            && k < CeilDiv(|admins|, BATCH_SIZE) && r.reply.at in PROTOCOL
            && |done| == k * BATCH_SIZE && done + failing == Slice(admins, 0, (k + 1) * BATCH_SIZE)
            && k < |Chunks(admins, BATCH_SIZE)| && r.batches == Chunks(admins, BATCH_SIZE)[..k + 1]
            && AbortedLogs(r.trace, 0, k, r.reply.at)
            && Fresh(db1, done) && Fresh(db2, done)
            && r.db2 == AddAll(db2, done)
            && r.db1 == if r.reply.at == Commit2 then AddAll(db1, done + failing) else AddAll(db1, done)
  {
    var r := CreateAdminRecords(admins, db1, db2, faults);
    BulkLoopAbortedLog(admins, 0, Open(db1), Open(db2), [], faults);
    BulkLoopAbortedTables(admins, 0, Open(db1), Open(db2), [], faults);
    AbortedFromStart(r.reply.batch, r.reply.at, r.trace, r.batches, r.db1, r.db2, admins, db1, db2, faults);
  }

  /** What a second-commit failure leaves: every record of the failing batch is
      stored under its key in backend 1's table and absent from backend 2's. */
  lemma CommitTwoTables(k: nat, db1: Table, db2: Table, admins: seq<Admin>, t1: Table, t2: Table, faults: Faults)
    requires Keyed(t1)
    requires AbortedTables(k, Commit2, db1, db2, admins, 0, t1, t2, faults)
    ensures var failing := Slice(admins, k * BATCH_SIZE, (k + 1) * BATCH_SIZE);
            && Keyed(db1)
            && forall j :: 0 <= j < |failing| ==>
                 && GetAdmin(db1, failing[j].udiseCode) == Found(failing[j])
                 && failing[j].udiseCode !in db2
  {
    var done := Slice(admins, 0, k * BATCH_SIZE);
    var failing := Slice(admins, k * BATCH_SIZE, (k + 1) * BATCH_SIZE);
    assert Fresh(AddAll(t1, done), failing);
    assert Fresh(AddAll(t2, done), failing);
    AddAllFreshValues(AddAll(t1, done), failing);
    forall j | 0 <= j < |failing|
      ensures failing[j].udiseCode in db1
    {
      assert failing[j].udiseCode in KeySet(failing);
    }
  }

  /** The one way the backends diverge: when only the second commit of batch `k`
      raises, `GET /admin/{code}` on backend 1 finds every record of that batch while
      backend 2 has none of their codes. */
  lemma CommitTwoFailureDiverges(admins: seq<Admin>, db1: Table, db2: Table, faults: Faults)
    requires Keyed(db1)
    requires CreateAdminRecords(admins, db1, db2, faults).reply.ServerError?
    requires CreateAdminRecords(admins, db1, db2, faults).reply.at == Commit2
    ensures var r := CreateAdminRecords(admins, db1, db2, faults);
            var k := r.reply.batch;
            var failing := Slice(admins, k * BATCH_SIZE, (k + 1) * BATCH_SIZE);
            && |failing| > 0
            && Keyed(r.db1)
            && forall j :: 0 <= j < |failing| ==>
                 && GetAdmin(r.db1, failing[j].udiseCode) == Found(failing[j])
                 && failing[j].udiseCode !in r.db2
  {
    var r := CreateAdminRecords(admins, db1, db2, faults);
    var k := r.reply.batch;
    BulkLoopAbortedLog(admins, 0, Open(db1), Open(db2), [], faults);
    BulkLoopAbortedTables(admins, 0, Open(db1), Open(db2), [], faults);
    ChunksPartition(admins, BATCH_SIZE);
    assert k * BATCH_SIZE < |admins|;
    CommitTwoTables(k, r.db1, r.db2, admins, db1, db2, faults);
  }
}
