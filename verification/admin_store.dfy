/** One backend's `admin` table as the ingestion service sees it through a
    SQLAlchemy session: rows keyed by the primary key `Udise_code`, a transaction
    holding the rows inserted but not yet committed, and the three session calls
    the service makes (`bulk_insert_mappings`, `commit`, `rollback`). */
module AdminStore {
  import opened Common

  /** An `admin` row: the primary key, the sync cursor `Timestamp`, and the other
      columns carried as opaque text keyed by column name (never examined here). */
  datatype Admin = Admin(udiseCode: int, timestamp: Timestamp, attributes: map<string, string>)

  /** A table: primary key to row. */
  type Table = map<int, Admin>

  /** Every row is stored under its own primary key. */
  predicate Keyed(t: Table) {
    forall k :: k in t ==> t[k].udiseCode == k
  }

  /** The primary keys carried by a list of rows. */
  function KeySet(rs: seq<Admin>): (ks: set<int>)
    ensures forall i :: 0 <= i < |rs| ==> rs[i].udiseCode in ks
    ensures forall k :: k in ks ==> exists i :: 0 <= i < |rs| && rs[i].udiseCode == k
    decreases |rs|
  {
    if |rs| == 0 then {}
    else
      var ks' := KeySet(rs[1..]);
      assert forall k :: k in ks' ==> exists i :: 1 <= i < |rs| && rs[i].udiseCode == k by {
        forall k | k in ks'
          ensures exists i :: 1 <= i < |rs| && rs[i].udiseCode == k
        {
          var i :| 0 <= i < |rs[1..]| && rs[1..][i].udiseCode == k;
          assert rs[i + 1].udiseCode == k;
        }
      }
      {rs[0].udiseCode} + ks'
  }

  /** No primary key occurs twice in the list. */
  predicate DistinctKeys(rs: seq<Admin>) {
    forall i, j :: 0 <= i < j < |rs| ==> rs[i].udiseCode != rs[j].udiseCode
  }

  /** Inserting `rs` into a table holding `t` violates no primary-key constraint:
      the keys are pairwise distinct and none is already present. */
  predicate Fresh(t: Table, rs: seq<Admin>) {
    && DistinctKeys(rs)
    && forall i :: 0 <= i < |rs| ==> rs[i].udiseCode !in t
  }

  /** `t` with the rows `rs` stored, in order. */
  function AddAll(t: Table, rs: seq<Admin>): (r: Table)
    ensures r.Keys == t.Keys + KeySet(rs)
    ensures Keyed(t) ==> Keyed(r)
    decreases |rs|
  {
    if |rs| == 0 then t else AddAll(t[rs[0].udiseCode := rs[0]], rs[1..])
  }

  /** Storing `a + b` is storing `a`, then `b`. */
  lemma {:induction false} AddAllAppend(t: Table, a: seq<Admin>, b: seq<Admin>)
    ensures AddAll(t, a + b) == AddAll(AddAll(t, a), b)
    decreases |a|
  {
    if |a| > 0 {
      assert (a + b)[0] == a[0];
      assert (a + b)[1..] == a[1..] + b;
      AddAllAppend(t[a[0].udiseCode := a[0]], a[1..], b);
    } else {
      assert a + b == b;
    }
  }

  /** Storing fresh rows keeps every old row and finds each new row under its key. */
  lemma {:induction false} AddAllFreshValues(t: Table, rs: seq<Admin>)
    requires Fresh(t, rs)
    ensures forall k :: k in t ==> AddAll(t, rs)[k] == t[k]
    ensures forall i :: 0 <= i < |rs| ==> AddAll(t, rs)[rs[i].udiseCode] == rs[i]
    decreases |rs|
  {
    if |rs| > 0 {
      var t' := t[rs[0].udiseCode := rs[0]];
      assert Fresh(t', rs[1..]) by {
        forall i | 0 <= i < |rs[1..]|
          ensures rs[1..][i].udiseCode !in t'
        {
          assert rs[1..][i] == rs[i + 1];
        }
      }
      AddAllFreshValues(t', rs[1..]);
      forall i | 0 <= i < |rs|
        ensures AddAll(t, rs)[rs[i].udiseCode] == rs[i]
      {
        if i > 0 {
          assert rs[1..][i - 1] == rs[i];
        }
      }
    }
  }

  /** Freshness of a concatenation: `a + b` can be inserted into `t` exactly when
      `a` can, and then `b` can be inserted on top of `a`. */
  lemma FreshAppend(t: Table, a: seq<Admin>, b: seq<Admin>)
    ensures Fresh(t, a + b) <==> Fresh(t, a) && Fresh(AddAll(t, a), b)
  {
    var ab := a + b;
    var ta := AddAll(t, a);
    assert forall i :: 0 <= i < |a| ==> ab[i] == a[i];
    assert forall j :: 0 <= j < |b| ==> ab[|a| + j] == b[j];
    if Fresh(t, ab) {
      assert Fresh(t, a);
      forall j | 0 <= j < |b|
        ensures b[j].udiseCode !in ta
      {
        assert ab[|a| + j].udiseCode !in t;
      }
      forall i, j | 0 <= i < j < |b|
        ensures b[i].udiseCode != b[j].udiseCode
      {
        assert ab[|a| + i].udiseCode != ab[|a| + j].udiseCode;
      }
    }
    if Fresh(t, a) && Fresh(ta, b) {
      forall i, j | 0 <= i < j < |ab|
        ensures ab[i].udiseCode != ab[j].udiseCode
      {
        if j < |a| {
        } else if i < |a| {
          assert ab[i].udiseCode in KeySet(a);
          assert ab[j] == b[j - |a|];
        } else {
          assert ab[i] == b[i - |a|] && ab[j] == b[j - |a|];
        }
      }
      forall i | 0 <= i < |ab|
        ensures ab[i].udiseCode !in t
      {
        if i >= |a| {
          assert ab[i] == b[i - |a|];
        }
      }
    }
  }

  /** A session on one backend: the committed table and the rows inserted in the
      current transaction (SQLAlchemy's `bulk_insert_mappings` issues its INSERTs
      immediately, so the database sees them before `commit`). */
  datatype Session = Session(committed: Table, pending: seq<Admin>)

  /** A fresh session (`SessionLocal()`): nothing pending. */
  function Open(t: Table): Session {
    Session(t, [])
  }

  /** The table as seen inside the session's transaction. */
  function Visible(s: Session): Table {
    AddAll(s.committed, s.pending)
  }

  /** What a session call raises: a constraint violation, or any other database
      failure (connectivity, serialisation, ...), which the model takes from an oracle. */
  datatype DbError = IntegrityError | OperationalError

  /** The session after a call that returned, or the error it raised. */
  datatype Attempt = Done(session: Session) | Raised(error: DbError)

  /** `session.bulk_insert_mappings(AdminDB, batch)`; `fault` says whether the
      backend fails the call for a reason other than the primary key. */
  function BulkInsertMappings(s: Session, batch: seq<Admin>, fault: bool): (r: Attempt)
    ensures r.Done? <==> !fault && Fresh(Visible(s), batch)
    ensures r.Raised? && !fault ==> r.error == IntegrityError
    ensures r.Done? ==> r.session.committed == s.committed
    ensures r.Done? ==> Visible(r.session) == AddAll(Visible(s), batch)
  {
    if fault then Raised(OperationalError)
    else if !Fresh(Visible(s), batch) then Raised(IntegrityError)
    else
      AddAllAppend(s.committed, s.pending, batch);
      Done(Session(s.committed, s.pending + batch))
  }

  /** `session.commit()`: the transaction's rows become the committed table. */
  function Commit(s: Session, fault: bool): (r: Attempt)
    ensures r.Done? <==> !fault
    ensures r.Done? ==> r.session.committed == Visible(s) && r.session.pending == []
  {
    if fault then Raised(OperationalError) else Done(Session(Visible(s), []))
  }

  /** `session.rollback()`: the transaction's rows are discarded; committed rows stay. */
  function Rollback(s: Session): (r: Session)
    ensures r.committed == s.committed && Visible(r) == s.committed
  {
    Session(s.committed, [])
  }

  /** Rolling back an accepted insert returns the session to the state it was opened
      in: the table is as it was and nothing is pending. */
  lemma RollbackUndoesInsert(t: Table, batch: seq<Admin>)
    requires Fresh(t, batch)
    ensures BulkInsertMappings(Open(t), batch, false).Done?
    ensures Rollback(BulkInsertMappings(Open(t), batch, false).session) == Open(t)
    ensures Visible(Rollback(BulkInsertMappings(Open(t), batch, false).session)) == t
  {
  }

  /** Committing an accepted insert stores the batch: the session is left open on the
      table with the batch added, with nothing pending. */
  lemma CommitAfterInsert(t: Table, batch: seq<Admin>)
    requires Fresh(t, batch)
    ensures BulkInsertMappings(Open(t), batch, false).Done?
    ensures Commit(BulkInsertMappings(Open(t), batch, false).session, false) == Done(Open(AddAll(t, batch)))
  {
  }
}
