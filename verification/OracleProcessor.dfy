// processSubmission and triggerSubmission as code. Between any two I/O
// operations of a job the rest of the system may take any number of actions;
// every execution is a run of the protocol in which the job's own actions form
// a complete script.
module OracleProcessor {
  import opened Basics
  import opened OracleProtocol
  import opened OracleExactlyOnce

  predicate OfJob(a: Action, j: JobId) {
    && (a.Load? || a.FailUnconfigured? || a.ReadNonce? || a.Decide? || a.SaveResequenced? || a.RejectSnapshot? ||
        a.MarkSubmitted? || a.Broadcast? || a.SendFails? || a.ReportSuccess? || a.Finish? || a.Abandon?)
    && a.j == j
  }

  // The actions of job j in a run.
  function Own(run: seq<Action>, j: JobId): seq<Action> {
    if run == [] then [] else (if OfJob(run[0], j) then [run[0]] else []) + Own(run[1..], j)
  }

  ghost predicate ReachesWith(d: Deployment, s: State, t: State, j: JobId, own: seq<Action>) {
    exists run :: Legal(d, s, run) && Exec(d, s, run) == t && Own(run, j) == own
  }

  lemma {:induction false} OwnComposes(first: seq<Action>, second: seq<Action>, j: JobId)
    ensures Own(first + second, j) == Own(first, j) + Own(second, j)
  {
    if first == [] {
      assert first + second == second;
    } else {
      var head := if OfJob(first[0], j) then [first[0]] else [];
      assert (first + second)[1..] == first[1..] + second && (first + second)[0] == first[0];
      OwnComposes(first[1..], second, j);
      Associates(head, Own(first[1..], j), Own(second, j));
    }
  }

  lemma Advance(d: Deployment, s0: State, s: State, j: JobId, own: seq<Action>, a: Action)
    requires ReachesWith(d, s0, s, j, own) && Possible(s, a) && Allowed(d, s, a) && OfJob(a, j)
    ensures ReachesWith(d, s0, Apply(s, a), j, own + [a])
  {
    var run :| Legal(d, s0, run) && Exec(d, s0, run) == s && Own(run, j) == own;
    assert [a][1..] == [];
    assert Legal(d, Apply(s, a), []) && Exec(d, Apply(s, a), []) == Apply(s, a);
    assert Legal(d, s, [a]) && Exec(d, s, [a]) == Apply(s, a);
    RunsCompose(d, s0, run, [a]);
    OwnComposes(run, [a], j);
    assert Own([a], j) == [a];
    assert Legal(d, s0, run + [a]);
  }

  // ── Scripts ──────────────────────────────────────────────────────────────

  // What the outside world answers during one attempt.
  datatype Answers = Answers(
    configured: bool,
    nonceReadable: bool,
    snapshotValid: bool,
    broadcast: bool,
    reported: bool)

  // From Ready on: the reading is mapped, the row marked, the transaction sent.
  ghost predicate SendScript(x: Answers, j: JobId, own: seq<Action>) {
    if !x.snapshotValid then own == [RejectSnapshot(j), Finish(j)]
    else
      || own == [MarkSubmitted(j), Finish(j)]
      || (!x.broadcast && own == [MarkSubmitted(j), SendFails(j), Finish(j)])
      || (x.broadcast && own == [MarkSubmitted(j), Broadcast(j), SendFails(j), Finish(j)])
      || (x.broadcast && x.reported && own == [MarkSubmitted(j), Broadcast(j), ReportSuccess(j), Finish(j)])
  }

  // From the comparison on.
  ghost predicate DecisionScript(x: Answers, j: JobId, own: seq<Action>) {
    || own == [Finish(j)]
    || own == [SaveResequenced(j)]
    || SendScript(x, j, own)
    || (|own| > 1 && own[0] == SaveResequenced(j) && SendScript(x, j, own[1..]))
  }

  // After the row was found unconfirmed.
  ghost predicate CheckScript(x: Answers, j: JobId, own: seq<Action>) {
    if !x.configured then own == [FailUnconfigured(j), Finish(j)]
    else if !x.nonceReadable then own == [Abandon(j)]
    else |own| > 2 && own[0] == ReadNonce(j) && own[1] == Decide(j) && DecisionScript(x, j, own[2..])
  }

  lemma ReadThenCompared(x: Answers, j: JobId, rest: seq<Action>)
    requires x.configured && x.nonceReadable
    requires rest != [] && DecisionScript(x, j, rest)
    ensures CheckScript(x, j, [ReadNonce(j), Decide(j)] + rest)
  {
    assert ([ReadNonce(j), Decide(j)] + rest)[2..] == rest;
  }

  // A whole attempt of a job that found its row unconfirmed.
  ghost predicate AttemptScript(x: Answers, j: JobId, id: Id, own: seq<Action>) {
    own != [] && own[0] == Load(j, id) && CheckScript(x, j, own[1..])
  }

  // ── What an attempt leaves in the table ──────────────────────────────────

  ghost predicate Fails(script: seq<Action>, j: JobId) {
    FailUnconfigured(j) in script || RejectSnapshot(j) in script || SendFails(j) in script
  }

  // `last` is the row as the attempt saved it at its end, if it got that far.
  ghost predicate Outcome(script: seq<Action>, j: JobId, last: Option<Row>) {
    && (last.Some? <==> Finish(j) in script)
    && (Fails(script, j) ==> last.Some? && last.value.status == FAILED)
    && (ReportSuccess(j) in script ==> last.Some? && last.value.status == CONFIRMED)
    && (last.Some? ==> last.value.status == FAILED || last.value.status == CONFIRMED)
    && (MarkSubmitted(j) in script ==> Reported(script, j, last))
  }

  // CONFIRMED only for a reported success.
  ghost predicate Reported(script: seq<Action>, j: JobId, last: Option<Row>) {
    last.Some? && last.value.status == CONFIRMED ==> ReportSuccess(j) in script
  }

  // No other step has a say in it.
  lemma OutcomeGrows(a: Action, script: seq<Action>, j: JobId, last: Option<Row>)
    requires Outcome(script, j, last) && OfJob(a, j)
    requires a.Load? || a.ReadNonce? || a.Decide? || a.SaveResequenced? || a.MarkSubmitted? || a.Broadcast?
    requires a.MarkSubmitted? ==> Reported(script, j, last)
    ensures Outcome([a] + script, j, last)
  {
    assert forall b :: b in [a] + script <==> b == a || b in script;
  }

  // The new nonce is saved; if that does not throw the reading is sent.
  ghost predicate Resequenced(x: Answers, j: JobId, script: seq<Action>) {
    && script != [] && script[0] == SaveResequenced(j)
    && (script == [SaveResequenced(j)] || (|script| > 1 && SendScript(x, j, script[1..])))
  }

  lemma NotSent(x: Answers, j: JobId)
    ensures Resequenced(x, j, [SaveResequenced(j)]) && Outcome([SaveResequenced(j)], j, None)
  {
  }

  lemma ResequencedThenSent(x: Answers, j: JobId, rest: seq<Action>, last: Option<Row>)
    requires SendScript(x, j, rest) && Outcome(rest, j, last)
    ensures Resequenced(x, j, [SaveResequenced(j)] + rest) && Outcome([SaveResequenced(j)] + rest, j, last)
  {
    assert ([SaveResequenced(j)] + rest)[1..] == rest;
    OutcomeGrows(SaveResequenced(j), rest, j, last);
  }

  // From Marked on: at most one broadcast, ending in failure or in a success
  // that was reported.
  ghost predicate TransmitScript(x: Answers, j: JobId, script: seq<Action>) {
    || (!x.broadcast && script == [SendFails(j), Finish(j)])
    || (x.broadcast && script == [Broadcast(j), SendFails(j), Finish(j)])
    || (x.broadcast && x.reported && script == [Broadcast(j), ReportSuccess(j), Finish(j)])
  }

  lemma MarkedThenTransmitted(x: Answers, j: JobId, rest: seq<Action>, last: Option<Row>)
    requires x.snapshotValid && TransmitScript(x, j, rest) && Outcome(rest, j, last)
    ensures SendScript(x, j, [MarkSubmitted(j)] + rest) && Outcome([MarkSubmitted(j)] + rest, j, last)
  {
    assert SendFails(j) in rest || ReportSuccess(j) in rest;
    OutcomeGrows(MarkSubmitted(j), rest, j, last);
  }

  // The save went through, or another row of the project holds the nonce.
  ghost predicate SavedOrTaken(rows: map<Id, Row>, id: Id, row: Row) {
    || (id in rows && rows[id] == row)
    || exists other ::
         other in rows && other != id && rows[other].project == row.project && rows[other].nonce == row.nonce
  }

  // The row loaded, but for its status and a nonce that was re-sequenced.
  predicate SameButStatus(loaded: Row, row: Row) {
    row == loaded.(status := row.status)
  }

  ghost predicate Left(rows: map<Id, Row>, id: Id, loaded: Row, last: Option<Row>) {
    last.Some? ==> SavedOrTaken(rows, id, last.value) && SameButStatus(loaded, last.value)
  }

  class Oracle {
    const d: Deployment
    var rows: map<Id, Row>
    var chain: seq<Id>
    ghost var pool: multiset<Tx>
    ghost var jobs: map<JobId, Job>
    ghost var saves: set<Copy>

    // The attempt being followed: its job, where it started, what it did.
    ghost var mine: JobId
    ghost var start: State
    ghost var own: seq<Action>

    ghost function Snapshot(): State
      reads this
    {
      State(rows, chain, pool, jobs, saves)
    }

    ghost predicate Following()
      reads this
    {
      ReachesWith(d, start, Snapshot(), mine, own)
    }

    ghost predicate MyJob(id: Id, row: Row, stage: Stage)
      reads this
    {
      mine in jobs && jobs[mine] == Job(id, row, stage)
    }

    constructor (d: Deployment)
      ensures this.d == d && Snapshot() == INITIAL
    {
      this.d := d;
      rows, chain, pool, jobs, saves := map[], [], multiset{}, map[], {};
    }

    // Other jobs, sweeps, triggers and the chain do as they please: a caller
    // knows nothing of the state afterwards but this contract.
    method Interfere()
      requires Following()
      modifies `rows, `chain, `pool, `jobs, `saves
      ensures Following()
      ensures mine in jobs <==> mine in old(jobs)
      ensures mine in jobs ==> jobs[mine] == old(jobs[mine])
    {
    }

    // The followed job takes action `a`, which only moves it on to `next`.
    ghost method Move(a: Action, next: Job)
      requires Following() && OfJob(a, mine) && Possible(Snapshot(), a) && Allowed(d, Snapshot(), a)
      requires Apply(Snapshot(), a) == Snapshot().(jobs := jobs[mine := next])
      modifies `jobs, `own
      ensures Following() && jobs == old(jobs)[mine := next] && own == old(own) + [a]
    {
      Advance(d, start, Snapshot(), mine, own, a);
      jobs := jobs[mine := next];
      own := own + [a];
    }

    // The followed job takes its last action.
    ghost method Leave(a: Action)
      requires Following() && OfJob(a, mine) && Possible(Snapshot(), a) && Allowed(d, Snapshot(), a)
      requires Apply(Snapshot(), a) == EndJob(Snapshot(), mine)
      modifies `jobs, `own
      ensures Following() && own == old(own) + [a]
    {
      Advance(d, start, Snapshot(), mine, own, a);
      jobs := jobs - {mine};
      own := own + [a];
    }

    method SaveAndFinish(id: Id, row: Row)
      requires Following() && MyJob(id, row, Finishing)
      modifies `rows, `chain, `pool, `jobs, `saves, `own
      ensures Following() && own == old(own) + [Finish(mine)] && SavedOrTaken(rows, id, row)
    {
      Interfere();
      if Collides(rows, id, row) {
        Leave(Finish(mine));
      } else {
        Advance(d, start, Snapshot(), mine, own, Finish(mine));
        rows := rows[id := row];
        jobs := jobs - {mine};
        own := own + [Finish(mine)];
      }
    }

    // status = FAILED, save, and the error is logged or rethrown.
    method FailAndFinish(ghost a: Action, id: Id, row: Row, ghost stage: Stage) returns (last: Option<Row>)
      requires Following() && MyJob(id, row, stage)
      requires
        || (a == FailUnconfigured(mine) && stage == Loaded)
        || (a == RejectSnapshot(mine) && stage == Ready)
        || (a == SendFails(mine) && (stage == Marked || stage == Sent))
      modifies `rows, `chain, `pool, `jobs, `saves, `own
      ensures Following() && own == old(own) + [a, Finish(mine)]
      ensures Outcome([a, Finish(mine)], mine, last) && Left(rows, id, row, last)
    {
      var failed := row.(status := FAILED);
      Move(a, Job(id, failed, Finishing));
      SaveAndFinish(id, failed);
      last := Some(failed);
    }

    // The followed job saves `row` and moves on.
    method SaveAndMove(ghost a: Action, id: Id, row: Row, ghost next: Stage)
      requires Following() && OfJob(a, mine) && Possible(Snapshot(), a) && Allowed(d, Snapshot(), a)
      requires mine in jobs && jobs[mine].sub == id
      requires Apply(Snapshot(), a) == SaveAndGoOn(Snapshot(), mine, row, next)
      modifies `rows, `jobs, `own
      ensures Following() && MyJob(id, row, next) && own == old(own) + [a] && rows == old(rows)[id := row]
    {
      Advance(d, start, Snapshot(), mine, own, a);
      rows := rows[id := row];
      jobs := jobs[mine := Job(id, row, next)];
      own := own + [a];
    }

    // `last` is the row as its last save left it, or would have: FAILED or
    // CONFIRMED, as the attempt went.
    method ProcessSubmission(ghost j: JobId, submissionId: Id, x: Answers) returns (last: Option<Row>)
      requires j !in jobs
      requires d.oneLiveJob ==> forall k :: k in jobs ==> jobs[k].sub != submissionId
      modifies this
      ensures Following() && start == old(Snapshot()) && mine == j
      ensures if submissionId in old(rows) && old(rows)[submissionId].status != CONFIRMED
        then AttemptScript(x, j, submissionId, own)
        else own == [] && Snapshot() == old(Snapshot())
      ensures Outcome(own, j, last)
      ensures last.Some? ==> SavedOrTaken(rows, submissionId, last.value)
      ensures last.Some? && SaveResequenced(j) !in own ==> SameButStatus(old(rows)[submissionId], last.value)
    {
      start, mine, own, last := Snapshot(), j, [], None;
      assert Legal(d, start, []) && Exec(d, start, []) == start && Own([], j) == own;
      if submissionId !in rows {
        return;
      }
      var submission := rows[submissionId];
      if submission.status == CONFIRMED {
        return;
      }
      last := Attempt(submissionId, submission, x);
    }

    method Attempt(id: Id, submission: Row, x: Answers) returns (last: Option<Row>)
      requires Following() && own == [] && mine !in jobs && id in rows && rows[id] == submission
      requires submission.status != CONFIRMED && (d.oneLiveJob ==> forall k :: k in jobs ==> jobs[k].sub != id)
      modifies `rows, `chain, `pool, `jobs, `saves, `own
      ensures Following() && AttemptScript(x, mine, id, own) && Outcome(own, mine, last)
      ensures last.Some? ==> SavedOrTaken(rows, id, last.value)
      ensures last.Some? && SaveResequenced(mine) !in own ==> SameButStatus(submission, last.value)
    {
      Move(Load(mine, id), Job(id, submission, Loaded));
      ghost var script;
      script, last := Check(id, submission, x);
      OutcomeGrows(Load(mine, id), script, mine, last);
      assert own == [Load(mine, id)] + script && own[1..] == script;
    }

    // No contract id: FAILED; an unreadable nonce: the attempt is given up.
    method Check(id: Id, row: Row, x: Answers) returns (ghost script: seq<Action>, last: Option<Row>)
      requires Following() && MyJob(id, row, Loaded)
      modifies `rows, `chain, `pool, `jobs, `saves, `own
      ensures Following() && own == old(own) + script
      ensures CheckScript(x, mine, script) && Outcome(script, mine, last)
      ensures last.Some? ==> SavedOrTaken(rows, id, last.value)
      ensures last.Some? && SaveResequenced(mine) !in script ==> SameButStatus(row, last.value)
    {
      Interfere();
      if !x.configured {
        last := FailAndFinish(FailUnconfigured(mine), id, row, Loaded);
        script := [FailUnconfigured(mine), Finish(mine)];
      } else if !x.nonceReadable {
        GiveUp(id, row);
        script, last := [Abandon(mine)], None;
      } else {
        script, last := ReadAndCompare(id, row, x);
      }
    }

    method ReadAndCompare(id: Id, row: Row, x: Answers) returns (ghost script: seq<Action>, last: Option<Row>)
      requires Following() && MyJob(id, row, Loaded) && x.configured && x.nonceReadable
      modifies `rows, `chain, `pool, `jobs, `saves, `own
      ensures Following() && own == old(own) + script
      ensures CheckScript(x, mine, script) && Outcome(script, mine, last)
      ensures last.Some? ==> SavedOrTaken(rows, id, last.value)
      ensures last.Some? && SaveResequenced(mine) !in script ==> SameButStatus(row, last.value)
    {
      ghost var rest;
      rest, last := CompareAsRead(id, row, x);
      script := [ReadNonce(mine), Decide(mine)] + rest;
      ReadThenCompared(x, mine, rest);
      OutcomeGrows(Decide(mine), rest, mine, last);
      OutcomeGrows(ReadNonce(mine), [Decide(mine)] + rest, mine, last);
      assert [ReadNonce(mine)] + ([Decide(mine)] + rest) == script;
    }

    method CompareAsRead(id: Id, row: Row, x: Answers) returns (ghost script: seq<Action>, last: Option<Row>)
      requires Following() && MyJob(id, row, Loaded)
      modifies `rows, `chain, `pool, `jobs, `saves, `own
      ensures Following() && own == old(own) + ([ReadNonce(mine), Decide(mine)] + script)
      ensures script != [] && DecisionScript(x, mine, script) && Outcome(script, mine, last)
      ensures last.Some? ==> SavedOrTaken(rows, id, last.value)
      ensures last.Some? && script[0] != SaveResequenced(mine) ==> SameButStatus(row, last.value)
    {
      var onChainNonce := GetOracleNonce(id, row);
      Interfere();
      script, last := Compare(id, row, onChainNonce, x);
      assert old(own) + [ReadNonce(mine)] + [Decide(mine)] == old(own) + [ReadNonce(mine), Decide(mine)];
      Associates(old(own), [ReadNonce(mine), Decide(mine)], script);
    }

    ghost method GiveUp(id: Id, row: Row)
      requires Following() && MyJob(id, row, Loaded)
      modifies `jobs, `own
      ensures Following() && own == old(own) + [Abandon(mine)]
    {
      Leave(Abandon(mine));
    }

    method GetOracleNonce(ghost id: Id, ghost row: Row) returns (onChainNonce: int)
      requires Following() && MyJob(id, row, Loaded)
      modifies `jobs, `own
      ensures Following() && MyJob(id, row, NonceRead(onChainNonce))
      ensures onChainNonce == |chain| && own == old(own) + [ReadNonce(mine)]
    {
      onChainNonce := |chain|;
      Move(ReadNonce(mine), Job(id, row, NonceRead(onChainNonce)));
    }

    // The nonce comparison and everything after it: the last accepted nonce
    // means CONFIRMED, an older one FAILED; one too far ahead is FAILED if a row
    // created later is CONFIRMED, and re-sequenced otherwise.
    method Compare(id: Id, row: Row, onChainNonce: int, x: Answers)
      returns (ghost script: seq<Action>, last: Option<Row>)
      requires Following() && MyJob(id, row, NonceRead(onChainNonce))
      modifies `rows, `chain, `pool, `jobs, `saves, `own
      ensures Following() && own == old(own) + [Decide(mine)] + script
      ensures script != [] && DecisionScript(x, mine, script) && Outcome(script, mine, last)
      ensures row.nonce == onChainNonce ==> script == [Finish(mine)] && last == Some(row.(status := CONFIRMED))
      ensures row.nonce < onChainNonce ==> script == [Finish(mine)] && last == Some(row.(status := FAILED))
      ensures row.nonce == onChainNonce + 1 ==> SendScript(x, mine, script)
      ensures row.nonce > onChainNonce + 1 ==>
        if exists k ::
          k in old(rows) && k != id && old(rows)[k].status == CONFIRMED && row.createdAt < old(rows)[k].createdAt
        then script == [Finish(mine)] && last == Some(row.(status := FAILED))
        else script[0] == SaveResequenced(mine) && (last.Some? ==> last.value.nonce == onChainNonce + 1)
      ensures script[0] == SaveResequenced(mine) <==> row.nonce > onChainNonce + 1 && script != [Finish(mine)]
      ensures last.Some? ==> SavedOrTaken(rows, id, last.value)
      ensures last.Some? && script[0] != SaveResequenced(mine) ==> SameButStatus(row, last.value)
    {
      var expectedNonce := onChainNonce + 1;
      if row.nonce == expectedNonce {
        Move(Decide(mine), Job(id, row, Ready));
        script, last := Send(id, row, x);
      } else if row.nonce < expectedNonce {
        var settled := row.(status := if row.nonce == onChainNonce then CONFIRMED else FAILED);
        last := Settle(id, row, settled, onChainNonce);
        script := [Finish(mine)];
      } else if NewerConfirmed(rows, id, row) {
        last := Settle(id, row, row.(status := FAILED), onChainNonce);
        script := [Finish(mine)];
      } else {
        Move(Decide(mine), Job(id, row.(nonce := expectedNonce), Resequencing));
        script, last := Resequence(id, row.(nonce := expectedNonce), x);
      }
    }

    // The comparison has settled the row.
    method Settle(id: Id, ghost row: Row, settled: Row, ghost onChainNonce: int) returns (last: Option<Row>)
      requires Following() && MyJob(id, row, NonceRead(onChainNonce))
      requires AfterDecision(Snapshot(), mine) == Snapshot().(jobs := jobs[mine := Job(id, settled, Finishing)])
      modifies `rows, `chain, `pool, `jobs, `saves, `own
      ensures Following() && own == old(own) + [Decide(mine)] + [Finish(mine)]
      ensures last == Some(settled) && SavedOrTaken(rows, id, settled)
    {
      Move(Decide(mine), Job(id, settled, Finishing));
      SaveAndFinish(id, settled);
      last := Some(settled);
    }

    // The new nonce is saved before anything is sent.
    method Resequence(id: Id, row: Row, x: Answers) returns (ghost script: seq<Action>, last: Option<Row>)
      requires Following() && MyJob(id, row, Resequencing)
      modifies `rows, `chain, `pool, `jobs, `saves, `own
      ensures Following() && own == old(own) + script
      ensures Resequenced(x, mine, script) && Outcome(script, mine, last) && Left(rows, id, row, last)
    {
      Interfere();
      var saved := SaveNewNonce(id, row);
      if saved {
        ghost var rest;
        rest, last := Send(id, row, x);
        script := [SaveResequenced(mine)] + rest;
        ResequencedThenSent(x, mine, rest, last);
        Associates(old(own), [SaveResequenced(mine)], rest);
      } else {
        script, last := [SaveResequenced(mine)], None;
        NotSent(x, mine);
      }
    }

    method SaveNewNonce(id: Id, row: Row) returns (saved: bool)
      requires Following() && MyJob(id, row, Resequencing)
      modifies `rows, `jobs, `own
      ensures Following() && own == old(own) + [SaveResequenced(mine)]
      ensures saved == !Collides(old(rows), id, row) && (saved ==> MyJob(id, row, Ready))
      ensures rows == if saved then old(rows)[id := row] else old(rows)
    {
      saved := !Collides(rows, id, row);
      if saved {
        SaveAndMove(SaveResequenced(mine), id, row, Ready);
      } else {
        Leave(SaveResequenced(mine));
      }
    }

    method Send(id: Id, row: Row, x: Answers) returns (ghost script: seq<Action>, last: Option<Row>)
      requires Following() && MyJob(id, row, Ready)
      modifies `rows, `chain, `pool, `jobs, `saves, `own
      ensures Following() && own == old(own) + script
      ensures SendScript(x, mine, script) && Outcome(script, mine, last) && Left(rows, id, row, last)
    {
      Interfere();
      if x.snapshotValid {
        script, last := MarkAndTransmit(id, row, x);
      } else {
        last := FailAndFinish(RejectSnapshot(mine), id, row, Ready);
        script := [RejectSnapshot(mine), Finish(mine)];
      }
    }

    // status = SUBMITTED is saved first; if that throws, so is FAILED.
    method MarkAndTransmit(id: Id, row: Row, x: Answers) returns (ghost script: seq<Action>, last: Option<Row>)
      requires Following() && MyJob(id, row, Ready) && x.snapshotValid
      modifies `rows, `chain, `pool, `jobs, `saves, `own
      ensures Following() && own == old(own) + script
      ensures SendScript(x, mine, script) && Outcome(script, mine, last) && Left(rows, id, row, last)
    {
      var submission := row.(status := SUBMITTED);
      var saved := SaveSubmitted(id, submission, row);
      if saved {
        ghost var rest;
        rest, last := Transmit(id, submission, x);
        script := [MarkSubmitted(mine)] + rest;
        MarkedThenTransmitted(x, mine, rest, last);
      } else {
        var failed := submission.(status := FAILED);
        SaveAndFinish(id, failed);
        script, last := [MarkSubmitted(mine), Finish(mine)], Some(failed);
      }
    }

    method SaveSubmitted(id: Id, submission: Row, ghost row: Row) returns (saved: bool)
      requires Following() && MyJob(id, row, Ready) && submission == row.(status := SUBMITTED)
      modifies `rows, `jobs, `own
      ensures Following() && own == old(own) + [MarkSubmitted(mine)]
      ensures saved == !Collides(old(rows), id, submission)
      ensures rows == if saved then old(rows)[id := submission] else old(rows)
      ensures if saved then MyJob(id, submission, Marked) else MyJob(id, submission.(status := FAILED), Finishing)
    {
      saved := !Collides(rows, id, submission);
      if saved {
        SaveAndMove(MarkSubmitted(mine), id, submission, Marked);
      } else {
        Move(MarkSubmitted(mine), Job(id, submission.(status := FAILED), Finishing));
      }
    }

    // At most one broadcast; what it ends with is saved.
    method Transmit(id: Id, row: Row, x: Answers) returns (ghost script: seq<Action>, last: Option<Row>)
      requires Following() && MyJob(id, row, Marked)
      modifies `rows, `chain, `pool, `jobs, `saves, `own
      ensures Following() && own == old(own) + script
      ensures TransmitScript(x, mine, script) && Outcome(script, mine, last) && Left(rows, id, row, last)
    {
      Interfere();
      if !x.broadcast {
        last := FailAndFinish(SendFails(mine), id, row, Marked);
        script := [SendFails(mine), Finish(mine)];
      } else {
        BroadcastTx(id, row);
        ghost var rest;
        rest, last := AwaitOutcome(id, row, x);
        script := [Broadcast(mine)] + rest;
        OutcomeGrows(Broadcast(mine), rest, mine, last);
      }
    }

    ghost method BroadcastTx(id: Id, row: Row)
      requires Following() && MyJob(id, row, Marked)
      modifies `pool, `jobs, `own
      ensures Following() && MyJob(id, row, Sent) && own == old(own) + [Broadcast(mine)]
      ensures pool == old(pool) + multiset{Tx(id, row.nonce)}
    {
      Advance(d, start, Snapshot(), mine, own, Broadcast(mine));
      pool := pool + multiset{Tx(id, row.nonce)};
      jobs := jobs[mine := Job(id, row, Sent)];
      own := own + [Broadcast(mine)];
    }

    // Polls for the outcome; SUCCESS can only be reported for a landed one.
    method AwaitOutcome(id: Id, row: Row, x: Answers) returns (ghost script: seq<Action>, last: Option<Row>)
      requires Following() && MyJob(id, row, Sent)
      modifies `rows, `chain, `pool, `jobs, `saves, `own
      ensures Following() && own == old(own) + script
      ensures script == [SendFails(mine), Finish(mine)] || (x.reported && script == [ReportSuccess(mine), Finish(mine)])
      ensures Outcome(script, mine, last) && Left(rows, id, row, last)
    {
      Interfere();
      if x.reported && 1 <= row.nonce <= |chain| && chain[row.nonce - 1] == id {
        last := ConfirmAndFinish(id, row);
        script := [ReportSuccess(mine), Finish(mine)];
      } else {
        last := FailAndFinish(SendFails(mine), id, row, Sent);
        script := [SendFails(mine), Finish(mine)];
      }
    }

    method ConfirmAndFinish(id: Id, row: Row) returns (last: Option<Row>)
      requires Following() && MyJob(id, row, Sent) && 1 <= row.nonce <= |chain| && chain[row.nonce - 1] == id
      modifies `rows, `chain, `pool, `jobs, `saves, `own
      ensures Following() && own == old(own) + [ReportSuccess(mine), Finish(mine)]
      ensures Outcome([ReportSuccess(mine), Finish(mine)], mine, last) && Left(rows, id, row, last)
    {
      var confirmed := row.(status := CONFIRMED);
      Move(ReportSuccess(mine), Job(id, confirmed, Finishing));
      SaveAndFinish(id, confirmed);
      last := Some(confirmed);
    }

    // SELECT MAX(nonce), with NULL read as 0.
    method MaxNonce() returns (max: int)
      ensures IsMaxNonce(rows, max)
    {
      max := 0;
      var left := rows.Keys;
      while left != {}
        invariant left <= rows.Keys
        invariant forall k :: k in rows ==> k in left || rows[k].nonce <= max
        invariant max == 0 || exists k :: k in rows && rows[k].nonce == max
        decreases left
      {
        ghost var _ := Member(left);
        var k :| k in left;
        if max < rows[k].nonce {
          max := rows[k].nonce;
        }
        left := left - {k};
      }
    }

    // The advisory-lock transaction: read the maximum, insert maximum + 1.
    method TriggerSubmission(id: Id, project: Project, createdAt: int) returns (nonce: int)
      requires id !in rows && project in d.projects
      modifies `rows
      ensures IsMaxNonce(old(rows), nonce - 1) && rows == old(rows)[id := Row(project, nonce, PENDING, createdAt)]
      ensures Reaches(d, old(Snapshot()), Snapshot())
    {
      var max := MaxNonce();
      nonce := max + 1;
      StepReaches(d, Snapshot(), Trigger(id, project, max, createdAt));
      rows := rows[id := Row(project, nonce, PENDING, createdAt)];
    }
  }

  // Whatever one attempt does, exactly-once survives it.
  lemma AttemptsKeepExactlyOnce(d: Deployment, run: seq<Action>, t: State, j: JobId, own: seq<Action>)
    requires OneProject(d) && Legal(d, INITIAL, run) && ReachesWith(d, Exec(d, INITIAL, run), t, j, own)
    ensures ExactlyOnce(t)
  {
    var more :| Legal(d, Exec(d, INITIAL, run), more) && Exec(d, Exec(d, INITIAL, run), more) == t;
    RunsCompose(d, INITIAL, run, more);
    ExactlyOnceAlways(d, run + more);
  }
}
