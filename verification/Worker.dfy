/** apps/worker: one tick polls a batch of runnable transactions and runs each of them. */
module Worker {
  import opened Domain
  import opened Store
  import opened Plans
  import opened Db
  import opened StoredEvidence
  import opened Engine
  import opened Reachability

  const RUNNABLE: set<Status> := {Ready, FailedInfrastructure}
  const BATCH: nat := 20

  datatype Row = Row(id: string, organizationId: string)

  /** A polled batch: at most twenty different runnable rows, and all of them when there are fewer. */
  ghost predicate IsBatch(rows: seq<Row>, transactions: map<string, Transaction>) {
    && |rows| <= 20
    && (forall i, j | 0 <= i < j < |rows| :: rows[i].id != rows[j].id)
    && (forall row | row in rows :: Runnable(row, transactions))
    && (|rows| < 20 ==> forall id | id in transactions && transactions[id].status in {Ready, FailedInfrastructure} ::
          Row(id, transactions[id].tenantId) in rows)
  }

  predicate Runnable(row: Row, transactions: map<string, Transaction>) {
    && row.id in transactions && transactions[row.id].status in {Ready, FailedInfrastructure}
    && row.organizationId == transactions[row.id].tenantId
  }

  /** What running the rows one after another performs, each run planned on what the ones before it left. */
  function Sweep(s: State, rows: seq<Row>, regs: Registries, answers: seq<Answers>): seq<Act>
    requires |answers| == |rows|
  {
    if rows == [] then []
    else
      var n := |rows| - 1;
      var before := Sweep(s, rows[..n], regs, answers[..n]);
      before + EnginePlan(ApplyAll(s, before), rows[n].id, rows[n].organizationId, regs, answers[n]).acts
  }

  lemma SweepStarts(s: State, rows: seq<Row>, regs: Registries, answers: seq<Answers>)
    requires |answers| == |rows|
    ensures Sweep(s, rows[..0], regs, answers[..0]) == []
  {}

  lemma SweepOneMore(s: State, rows: seq<Row>, regs: Registries, answers: seq<Answers>, i: nat)
    requires |answers| == |rows| && i < |rows|
    ensures var before := Sweep(s, rows[..i], regs, answers[..i]);
      Sweep(s, rows[..i + 1], regs, answers[..i + 1])
        == before + EnginePlan(ApplyAll(s, before), rows[i].id, rows[i].organizationId, regs, answers[i]).acts
  {
    hide EnginePlan, ApplyAll;
    assert rows[..i + 1][..i] == rows[..i] && answers[..i + 1][..i] == answers[..i];
  }

  lemma StateAfter(origin: State, log: seq<Act>, acts: seq<Act>, now: seq<Act>)
    requires Performs(log, acts, now, false)
    ensures ApplyAll(origin, now) == ApplyAll(ApplyAll(origin, log), acts)
  {
    ApplyAllConcat(origin, log, acts);
  }

  lemma NothingMore(before: seq<Act>, acts: seq<Act>, after: seq<Act>, stopped: bool)
    requires Performs(before, acts, after, stopped) && |after| <= |before|
    ensures before == after
  {}

  lemma StoppedMeansShorter(before: seq<Act>, acts: seq<Act>, after: seq<Act>, stopped: bool)
    requires Performs(before, acts, after, stopped)
    ensures stopped <==> |after| < |before| + |acts|
    ensures !stopped ==> after == before + acts
  {}

  class PollingWorker {
    const db: FlowCommitDb
    const engine: TransactionEngine
    var running: bool
    var stopping: bool

    constructor (engine: TransactionEngine)
      ensures this.engine == engine && db == engine.store && !running && !stopping
    {
      this.engine, db, running, stopping := engine, engine.store, false, false;
    }

    /** The poll; creation times are not modelled, so any runnable rows may come first. */
    method Poll() returns (rows: seq<Row>)
      ensures IsBatch(rows, db.transactions)
    {
      rows := [];
      var rest := db.transactions.Keys;
      while rest != {} && |rows| < BATCH
        invariant rest <= db.transactions.Keys && |rows| <= BATCH
        invariant forall i, j | 0 <= i < j < |rows| :: rows[i].id != rows[j].id
        invariant forall row | row in rows :: Runnable(row, db.transactions) && row.id !in rest
        invariant forall id | id in db.transactions && id !in rest && db.transactions[id].status in RUNNABLE ::
          Row(id, db.transactions[id].tenantId) in rows
      {
        var id :| id in rest;
        rest := rest - {id};
        if db.transactions[id].status in RUNNABLE {
          rows := rows + [Row(id, db.transactions[id].tenantId)];
        }
      }
    }

    /** Every row of a batch is run; a run that throws does not keep the others from running. */
    method RunBatch(rows: seq<Row>, answers: seq<Answers>)
      requires db.Valid() && db == engine.store && |answers| == |rows|
      modifies db
      ensures var acts := Sweep(old(db.Contents()), rows, engine.Regs(), answers);
        db.Did(acts, |db.log| < old(|db.log|) + |acts|)
      ensures db.life > 0 ==> db.log == old(db.log) + Sweep(old(db.Contents()), rows, engine.Regs(), answers)
      ensures old(Reachable(db.Contents())) ==> Reachable(db.Contents())
    {
      hide AllRowsCarry, PlainPayloads, Reachable, ApplyAll, EnginePlan, Sweep, Performs;
      PerformsCompose();
      ghost var s := db.Contents();
      ghost var stopped := false;
      SweepStarts(s, rows, engine.Regs(), answers);
      for i := 0 to |rows|
        invariant db.Did(Sweep(s, rows[..i], engine.Regs(), answers[..i]), stopped)
        invariant old(Reachable(db.Contents())) ==> Reachable(db.Contents())
      {
        SweepOneMore(s, rows, engine.Regs(), answers, i);
        if !stopped {
          StateAfter(db.origin, old(db.log), Sweep(s, rows[..i], engine.Regs(), answers[..i]), db.log);
        }
        ghost var before, state := db.log, db.Contents();
        var r := engine.Run(rows[i].id, rows[i].organizationId, answers[i]);
        if stopped {
          ghost var p := EnginePlan(state, rows[i].id, rows[i].organizationId, engine.Regs(), answers[i]);
          NothingMore(before, p.acts, db.log, r == Err(Stopped));
        } else {
          stopped := r == Err(Stopped);
        }
      }
      assert rows[..|rows|] == rows && answers[..|answers|] == answers;
      StoppedMeansShorter(old(db.log), Sweep(s, rows, engine.Regs(), answers), db.log, stopped);
    }

    /** tick: nothing while another tick runs or the worker is stopping; `rows` is the batch it ran. */
    method Tick(answers: seq<Answers>) returns (rows: seq<Row>)
      requires db.Valid() && db == engine.store && |answers| == BATCH
      modifies this`running, db
      ensures running == old(running) && |rows| <= BATCH
      ensures old(stopping || running) ==> rows == [] && db.log == old(db.log)
      ensures !old(stopping || running) ==> IsBatch(rows, old(db.transactions))
      ensures var acts := Sweep(old(db.Contents()), rows, engine.Regs(), answers[..|rows|]);
        db.Did(acts, |db.log| < old(|db.log|) + |acts|)
      ensures old(Reachable(db.Contents())) ==> Reachable(db.Contents())
    {
      hide AllRowsCarry, PlainPayloads, Reachable, Sweep, ApplyAll;
      if stopping || running {
        SweepStarts(db.Contents(), [], engine.Regs(), []);
        return [];
      }
      running := true;
      rows := Poll();
      hide IsBatch;
      RunBatch(rows, answers[..|rows|]);
      running := false;
    }

    method Stop()
      modifies this`stopping
      ensures stopping
    {
      stopping := true;
    }
  }
}
