// One project per oracle address: every submission is accepted by the contract
// exactly once or not yet at all, whatever is lost, late, retried or swept.
module OracleExactlyOnce {
  import opened Basics
  import opened OracleProtocol

  ghost predicate OneProject(d: Deployment) {
    forall p, q :: p in d.projects && q in d.projects ==> p == q
  }

  // `log` lists the submissions in allocation order.
  ghost predicate Numbered(d: Deployment, rows: map<Id, Row>, log: seq<Id>) {
    && (forall i :: 0 <= i < |log| ==> log[i] in rows && rows[log[i]].nonce == i + 1)
    && (forall id :: id in rows ==> 1 <= rows[id].nonce <= |log| && rows[id].project in d.projects)
    && (forall a, b :: a in rows && b in rows && a != b ==> rows[a].nonce != rows[b].nonce)
  }

  // Writing `row` back cannot disturb the numbering.
  ghost predicate Harmless(s: State, id: Id, row: Row) {
    && id in s.rows
    && row.project == s.rows[id].project
    && 1 <= row.nonce <= s.rows[id].nonce
    && (row.status == CONFIRMED ==> row.nonce <= |s.chain|)
  }

  ghost predicate GoodJob(s: State, job: Job) {
    && Harmless(s, job.sub, job.entity)
    && (job.entity.status == CONFIRMED ==> job.stage.Finishing?)
    && (job.entity.nonce < s.rows[job.sub].nonce ==> job.stage.Resequencing?)
    && (job.stage.Resequencing? ==> job.entity.nonce < s.rows[job.sub].nonce)
    && (job.stage.NonceRead? ==> 0 <= job.stage.onChain <= |s.chain|)
  }

  ghost predicate Inv(d: Deployment, s: State, log: seq<Id>) {
    && Numbered(d, s.rows, log)
    && s.chain <= log
    && (forall id :: id in s.rows && s.rows[id].status == CONFIRMED ==> s.rows[id].nonce <= |s.chain|)
    && (forall tx :: tx in s.pool ==> tx.sub in s.rows && tx.nonce == s.rows[tx.sub].nonce)
    && (forall j :: j in s.jobs ==> GoodJob(s, s.jobs[j]))
    && (forall c :: c in s.saves ==> Harmless(s, c.id, c.row))
  }

  // Every nonce up to the number of rows is taken, so a save that would give a
  // row another of those nonces violates the unique constraint.
  lemma EveryOtherNonceIsTaken(d: Deployment, s: State, log: seq<Id>, id: Id, row: Row)
    requires OneProject(d) && Inv(d, s, log) && Harmless(s, id, row)
    ensures Collides(s.rows, id, row) <==> row.nonce != s.rows[id].nonce
  {
    var owner := log[row.nonce - 1];
    assert owner in s.rows && s.rows[owner].nonce == row.nonce && s.rows[owner].project == row.project;
  }

  lemma MaxIsCount(d: Deployment, rows: map<Id, Row>, log: seq<Id>, max: int)
    requires Numbered(d, rows, log) && IsMaxNonce(rows, max)
    ensures max == |log|
  {
    if log != [] {
      var last := log[|log| - 1];
      assert last in rows && rows[last].nonce == |log|;
    }
  }

  // ── Each action keeps the invariant ──────────────────────────────────────

  // A harmless save either aborts or leaves every project and nonce alone.
  lemma SaveKeepsInv(d: Deployment, s: State, log: seq<Id>, id: Id, row: Row)
    requires OneProject(d) && Inv(d, s, log) && Harmless(s, id, row)
    requires !Collides(s.rows, id, row)
    ensures Inv(d, s.(rows := s.rows[id := row]), log)
    ensures row.nonce == s.rows[id].nonce
  {
    EveryOtherNonceIsTaken(d, s, log, id, row);
  }

  lemma JobUpdateKeepsInv(d: Deployment, s: State, log: seq<Id>, j: JobId, job: Job)
    requires Inv(d, s, log) && GoodJob(s, job)
    ensures Inv(d, s.(jobs := s.jobs[j := job]), log)
  {
  }

  lemma JobRemovalKeepsInv(d: Deployment, s: State, log: seq<Id>, j: JobId)
    requires Inv(d, s, log)
    ensures Inv(d, EndJob(s, j), log)
  {
  }

  lemma JobStepKeepsInv(d: Deployment, s: State, log: seq<Id>, j: JobId, status: Status, stage: Stage)
    requires Inv(d, s, log) && j in s.jobs && !s.jobs[j].stage.Resequencing? && !stage.Resequencing?
    requires status == CONFIRMED ==> stage.Finishing? && s.jobs[j].entity.nonce <= |s.chain|
    requires stage.NonceRead? ==> 0 <= stage.onChain <= |s.chain|
    ensures Inv(d, GoOn(s, j, s.jobs[j].entity.(status := status), stage), log)
  {
    assert GoodJob(s, s.jobs[j]);
    JobUpdateKeepsInv(d, s, log, j, Job(s.jobs[j].sub, s.jobs[j].entity.(status := status), stage));
  }

  lemma JobSaveKeepsInv(d: Deployment, s: State, log: seq<Id>, j: JobId, entity: Row, stage: Stage)
    requires OneProject(d) && Inv(d, s, log) && j in s.jobs
    requires Harmless(s, s.jobs[j].sub, entity) && !Collides(s.rows, s.jobs[j].sub, entity)
    requires !stage.NonceRead? && !stage.Resequencing?
    requires entity.status == CONFIRMED ==> stage.Finishing?
    ensures Inv(d, SaveAndGoOn(s, j, entity, stage), log)
  {
    var id := s.jobs[j].sub;
    SaveKeepsInv(d, s, log, id, entity);
    JobUpdateKeepsInv(d, s.(rows := s.rows[id := entity]), log, j, Job(id, entity, stage));
  }

  lemma TriggerKeepsInv(d: Deployment, s: State, log: seq<Id>, id: Id, row: Row)
    requires Inv(d, s, log) && id !in s.rows && row.project in d.projects
    requires row.nonce == |log| + 1 && row.status == PENDING
    ensures Inv(d, s.(rows := s.rows[id := row]), log + [id])
  {
    assert s.chain <= log + [id];
  }

  lemma DecideKeepsInv(d: Deployment, s: State, log: seq<Id>, j: JobId)
    requires Inv(d, s, log) && j in s.jobs && s.jobs[j].stage.NonceRead?
    ensures Inv(d, AfterDecision(s, j), log)
  {
    assert GoodJob(s, s.jobs[j]);
    JobUpdateKeepsInv(d, s, log, j, AfterDecision(s, j).jobs[j]);
  }

  lemma MarkKeepsInv(d: Deployment, s: State, log: seq<Id>, j: JobId)
    requires OneProject(d) && Inv(d, s, log) && AtStage(s, j, Ready)
    ensures Inv(d, Apply(s, MarkSubmitted(j)), log)
  {
    var job := s.jobs[j];
    var marked := job.entity.(status := SUBMITTED);
    if Collides(s.rows, job.sub, marked) {
      JobStepKeepsInv(d, s, log, j, FAILED, Finishing);
    } else {
      JobSaveKeepsInv(d, s, log, j, marked, Marked);
    }
  }

  lemma PoolKeepsInv(d: Deployment, s: State, log: seq<Id>, pool: multiset<Tx>)
    requires Inv(d, s, log)
    requires forall tx :: tx in pool ==> tx.sub in s.rows && tx.nonce == s.rows[tx.sub].nonce
    ensures Inv(d, s.(pool := pool), log)
  {
  }

  lemma BroadcastKeepsInv(d: Deployment, s: State, log: seq<Id>, j: JobId)
    requires Inv(d, s, log) && AtStage(s, j, Marked)
    ensures Inv(d, Apply(s, Broadcast(j)), log)
  {
    var job := s.jobs[j];
    assert GoodJob(s, job);
    JobStepKeepsInv(d, s, log, j, job.entity.status, Sent);
    PoolKeepsInv(d, GoOn(s, j, job.entity, Sent), log, s.pool + multiset{Tx(job.sub, job.entity.nonce)});
  }

  lemma FinishKeepsInv(d: Deployment, s: State, log: seq<Id>, j: JobId)
    requires OneProject(d) && Inv(d, s, log) && AtStage(s, j, Finishing)
    ensures Inv(d, Apply(s, Finish(j)), log)
  {
    var job := s.jobs[j];
    assert GoodJob(s, job);
    if !Collides(s.rows, job.sub, job.entity) {
      SaveKeepsInv(d, s, log, job.sub, job.entity);
      JobRemovalKeepsInv(d, s.(rows := s.rows[job.sub := job.entity]), log, j);
    }
  }

  // With one project the nonce a job wants to move to is always taken.
  lemma ResequencingAborts(d: Deployment, s: State, log: seq<Id>, j: JobId)
    requires OneProject(d) && Inv(d, s, log) && AtStage(s, j, Resequencing)
    ensures Apply(s, SaveResequenced(j)) == EndJob(s, j)
  {
    assert GoodJob(s, s.jobs[j]);
    EveryOtherNonceIsTaken(d, s, log, s.jobs[j].sub, s.jobs[j].entity);
  }

  lemma JobStartKeepsInv(d: Deployment, s: State, log: seq<Id>, a: Action)
    requires OneProject(d) && Inv(d, s, log) && Possible(s, a)
    requires a.Load? || a.FailUnconfigured? || a.ReadNonce? || a.Decide? || a.SaveResequenced?
    ensures Inv(d, Apply(s, a), log)
  {
    match a
    case Load(j, id) => JobUpdateKeepsInv(d, s, log, j, Job(id, s.rows[id], Loaded));
    case FailUnconfigured(j) => JobStepKeepsInv(d, s, log, j, FAILED, Finishing);
    case ReadNonce(j) =>
      assert GoodJob(s, s.jobs[j]);
      JobStepKeepsInv(d, s, log, j, s.jobs[j].entity.status, NonceRead(|s.chain|));
    case Decide(j) => DecideKeepsInv(d, s, log, j);
    case SaveResequenced(j) =>
      ResequencingAborts(d, s, log, j);
      JobRemovalKeepsInv(d, s, log, j);
  }

  lemma JobSendKeepsInv(d: Deployment, s: State, log: seq<Id>, a: Action)
    requires OneProject(d) && Inv(d, s, log) && Possible(s, a)
    requires a.RejectSnapshot? || a.MarkSubmitted? || a.Broadcast? || a.SendFails? || a.ReportSuccess? || a.Finish? ||
      a.Abandon?
    ensures Inv(d, Apply(s, a), log)
  {
    match a
    case RejectSnapshot(j) => JobStepKeepsInv(d, s, log, j, FAILED, Finishing);
    case MarkSubmitted(j) => MarkKeepsInv(d, s, log, j);
    case Broadcast(j) => BroadcastKeepsInv(d, s, log, j);
    case SendFails(j) => JobStepKeepsInv(d, s, log, j, FAILED, Finishing);
    case ReportSuccess(j) => JobStepKeepsInv(d, s, log, j, CONFIRMED, Finishing);
    case Finish(j) => FinishKeepsInv(d, s, log, j);
    case Abandon(j) => JobRemovalKeepsInv(d, s, log, j);
  }

  // A landing belongs to the next submission in allocation order.
  lemma LandKeepsInv(d: Deployment, s: State, log: seq<Id>, tx: Tx)
    requires Inv(d, s, log) && Possible(s, Land(tx))
    ensures Inv(d, Apply(s, Land(tx)), log)
  {
    assert log[tx.nonce - 1] == tx.sub;
    assert s.chain + [tx.sub] <= log;
  }

  lemma SavesGrowKeepsInv(d: Deployment, s: State, log: seq<Id>, more: set<Copy>)
    requires Inv(d, s, log) && forall c :: c in more ==> Harmless(s, c.id, c.row)
    ensures Inv(d, s.(saves := s.saves + more), log)
  {
  }

  // Stale rows have distinct nonces beyond the one read, in ascending order,
  // so the i-th of them is at least i + 1 beyond it.
  lemma {:induction false} StaleRank(d: Deployment, s: State, log: seq<Id>, again: int, found: seq<Copy>, i: int)
    requires Inv(d, s, log) && Listing(s.rows, found, IsStale(again)) && 0 <= i < |found|
    ensures again + 1 + i <= found[i].row.nonce
  {
    assert IsStale(again)(found[i].row);
    if i > 0 {
      StaleRank(d, s, log, again, found, i - 1);
      assert found[i - 1].id != found[i].id;
      assert log[found[i - 1].row.nonce - 1] == found[i - 1].id && log[found[i].row.nonce - 1] == found[i].id;
    }
  }

  lemma FindStaleKeepsInv(d: Deployment, s: State, log: seq<Id>, onChain: int, again: int, found: seq<Copy>)
    requires Inv(d, s, log) && Possible(s, FindStale(onChain, again, found))
    ensures Inv(d, Apply(s, FindStale(onChain, again, found)), log)
  {
    forall c | c in Renumbered(onChain, found) ensures Harmless(s, c.id, c.row) {
      var i :| 0 <= i < |found| && c == RenumberedCopy(onChain, found, i);
      StaleRank(d, s, log, again, found, i);
    }
    SavesGrowKeepsInv(d, s, log, Renumbered(onChain, found));
  }

  lemma FindToConfirmKeepsInv(d: Deployment, s: State, log: seq<Id>, found: seq<Copy>, match_: Row -> bool)
    requires Inv(d, s, log) && Listing(s.rows, found, match_)
    requires forall row :: match_(row) ==> row.nonce <= |s.chain|
    ensures Inv(d, s.(saves := s.saves + Confirmed(found)), log)
  {
    SavesGrowKeepsInv(d, s, log, Confirmed(found));
  }

  lemma CopyKeepsInv(d: Deployment, s: State, log: seq<Id>, c: Copy)
    requires OneProject(d) && Inv(d, s, log) && c in s.saves
    ensures Inv(d, Apply(s, SaveCopy(c)), log)
  {
    if !Collides(s.rows, c.id, c.row) {
      SaveKeepsInv(d, s, log, c.id, c.row);
    }
  }

  lemma FindKeepsInv(d: Deployment, s: State, log: seq<Id>, a: Action)
    requires OneProject(d) && Inv(d, s, log) && Possible(s, a)
    requires a.FindStale? || a.FindGaps? || a.FindIndexed?
    ensures Inv(d, Apply(s, a), log)
  {
    match a
    case FindStale(onChain, again, found) => FindStaleKeepsInv(d, s, log, onChain, again, found);
    case FindGaps(onChain, found) => FindToConfirmKeepsInv(d, s, log, found, IsGap(onChain));
    case FindIndexed(slot, found) =>
      FindToConfirmKeepsInv(d, s, log, found, IsUnconfirmed(s.rows[s.chain[slot]].project, slot + 1));
  }

  lemma AllocationKeepsInv(d: Deployment, s: State, log: seq<Id>, a: Action)
    requires Inv(d, s, log) && Possible(s, a) && Allowed(d, s, a) && a.Trigger?
    ensures Inv(d, Apply(s, a), log + [a.id])
  {
    var row := Row(a.project, |log| + 1, PENDING, a.createdAt);
    assert Apply(s, a) == s.(rows := s.rows[a.id := row]) by { MaxIsCount(d, s.rows, log, a.max); }
    TriggerKeepsInv(d, s, log, a.id, row);
  }

  ghost predicate BeforeSending(a: Action) {
    a.Load? || a.FailUnconfigured? || a.ReadNonce? || a.Decide? || a.SaveResequenced?
  }

  lemma QuietStepKeepsInv(d: Deployment, s: State, log: seq<Id>, a: Action)
    requires OneProject(d) && Inv(d, s, log) && Possible(s, a) && !a.Trigger?
    ensures Inv(d, Apply(s, a), log)
  {
    if a.Land? {
      LandKeepsInv(d, s, log, a.tx);
    } else if a.Expire? {
      PoolKeepsInv(d, s, log, s.pool - multiset{a.tx});
    } else if a.SaveCopy? {
      CopyKeepsInv(d, s, log, a.c);
    } else if a.FindStale? || a.FindGaps? || a.FindIndexed? {
      FindKeepsInv(d, s, log, a);
    } else if BeforeSending(a) {
      JobStartKeepsInv(d, s, log, a);
    } else {
      JobSendKeepsInv(d, s, log, a);
    }
  }

  lemma StepKeepsInv(d: Deployment, s: State, log: seq<Id>, a: Action)
    requires OneProject(d) && Inv(d, s, log) && Possible(s, a) && Allowed(d, s, a)
    ensures Inv(d, Apply(s, a), log + Allocated(a))
  {
    if a.Trigger? {
      AllocationKeepsInv(d, s, log, a);
    } else {
      QuietStepKeepsInv(d, s, log, a);
      assert log + Allocated(a) == log;
    }
  }

  ghost function Allocated(a: Action): seq<Id> { if a.Trigger? then [a.id] else [] }

  // The submissions a run allocates, in order.
  ghost function Allocations(run: seq<Action>): seq<Id> {
    if run == [] then [] else Allocated(run[0]) + Allocations(run[1..])
  }

  lemma {:induction false} RunKeepsInv(d: Deployment, s: State, log: seq<Id>, run: seq<Action>)
    requires OneProject(d) && Inv(d, s, log) && Legal(d, s, run)
    ensures Inv(d, Exec(d, s, run), log + Allocations(run))
    decreases |run|
  {
    if run == [] {
      assert log + [] == log;
    } else {
      StepKeepsInv(d, s, log, run[0]);
      RunKeepsInv(d, Apply(s, run[0]), log + Allocated(run[0]), run[1..]);
      Associates(log, Allocated(run[0]), Allocations(run[1..]));
    }
  }

  // ── Main results ─────────────────────────────────────────────────────────

  // How often the contract accepted a transaction of `id`.
  ghost function Landings(s: State, id: Id): nat { multiset(s.chain)[id] }

  ghost predicate ExactlyOnce(s: State) {
    && (forall id :: id in s.rows ==> Landings(s, id) == if s.rows[id].nonce <= |s.chain| then 1 else 0)
    && (forall id :: id in s.rows && s.rows[id].status == CONFIRMED ==> Landings(s, id) == 1)
  }

  lemma {:induction false} CountInDistinct(chain: seq<Id>, id: Id)
    requires forall i, k :: 0 <= i < k < |chain| ==> chain[i] != chain[k]
    ensures multiset(chain)[id] == if id in chain then 1 else 0
  {
    if chain != [] {
      var n := |chain| - 1;
      assert chain == chain[..n] + [chain[n]];
      CountInDistinct(chain[..n], id);
    }
  }

  lemma InvGivesExactlyOnce(d: Deployment, s: State, log: seq<Id>)
    requires Inv(d, s, log)
    ensures ExactlyOnce(s)
  {
    forall i, k | 0 <= i < k < |s.chain| ensures s.chain[i] != s.chain[k] {
      assert log[i] == s.chain[i] && log[k] == s.chain[k];
    }
    forall id | id in s.rows
      ensures Landings(s, id) == if s.rows[id].nonce <= |s.chain| then 1 else 0
    {
      CountInDistinct(s.chain, id);
      if s.rows[id].nonce <= |s.chain| {
        assert s.chain[s.rows[id].nonce - 1] == log[s.rows[id].nonce - 1];
      }
      if id in s.chain {
        var i :| 0 <= i < |s.chain| && s.chain[i] == id;
        assert log[i] == id;
      }
    }
  }

  // Over every run of a one-project deployment: a submission has been accepted
  // once iff its nonce is at most the on-chain nonce (else never), and every
  // CONFIRMED row was accepted exactly once.
  lemma ExactlyOnceAlways(d: Deployment, run: seq<Action>)
    requires OneProject(d) && Legal(d, INITIAL, run)
    ensures ExactlyOnce(Exec(d, INITIAL, run))
  {
    RunKeepsInv(d, INITIAL, [], run);
    InvGivesExactlyOnce(d, Exec(d, INITIAL, run), [] + Allocations(run));
  }

  // The chain accepts submissions in the order in which they were allocated;
  // nonces are the allocation positions 1, 2, 3, ... and never change.
  lemma ChainFollowsAllocation(d: Deployment, run: seq<Action>)
    requires OneProject(d) && Legal(d, INITIAL, run)
    ensures Exec(d, INITIAL, run).chain <= Allocations(run)
    ensures Numbered(d, Exec(d, INITIAL, run).rows, Allocations(run))
  {
    RunKeepsInv(d, INITIAL, [], run);
    assert [] + Allocations(run) == Allocations(run);
  }

  // A nonce handed out by triggerSubmission is beyond everything on chain.
  lemma AllocatedNonceIsFresh(d: Deployment, run: seq<Action>, max: int)
    requires OneProject(d) && Legal(d, INITIAL, run)
    requires IsMaxNonce(Exec(d, INITIAL, run).rows, max)
    ensures max + 1 == |Allocations(run)| + 1 > |Exec(d, INITIAL, run).chain|
  {
    ChainFollowsAllocation(d, run);
    MaxIsCount(d, Exec(d, INITIAL, run).rows, Allocations(run), max);
  }

  // Re-sequencing is dead code with one project: its save always aborts.
  lemma ResequencingNeverCommits(d: Deployment, run: seq<Action>, j: JobId)
    requires OneProject(d) && Legal(d, INITIAL, run)
    requires AtStage(Exec(d, INITIAL, run), j, Resequencing)
    ensures var s := Exec(d, INITIAL, run); Apply(s, SaveResequenced(j)) == EndJob(s, j)
  {
    RunKeepsInv(d, INITIAL, [], run);
    ResequencingAborts(d, Exec(d, INITIAL, run), [] + Allocations(run), j);
  }

  // What the comparison of row nonce and on-chain nonce tells about the chain
  // as it was when the nonce was read: the job is sent iff its submission is
  // the next to be accepted, confirmed iff it was the last one accepted, and
  // failed, although accepted, iff it was accepted before the last one.
  lemma DecisionFollowsTheChain(d: Deployment, run: seq<Action>, j: JobId)
    requires OneProject(d) && Legal(d, INITIAL, run)
    requires j in Exec(d, INITIAL, run).jobs && Exec(d, INITIAL, run).jobs[j].stage.NonceRead?
    ensures var s := Exec(d, INITIAL, run);
      var job, next := s.jobs[j], AfterDecision(s, j).jobs[j];
      var onChain, order := job.stage.onChain, Allocations(run);
      && 0 <= onChain <= |s.chain| && job.sub in order && next.sub == job.sub
      && (next.stage == Ready <==> onChain < |order| && order[onChain] == job.sub)
      && (next.entity.status == CONFIRMED <==> onChain > 0 && s.chain[onChain - 1] == job.sub)
      && (job.sub in s.chain[..onChain] <==> next.stage == Finishing && next.entity.nonce <= onChain)
      && (job.sub in s.chain[..onChain] ==>
           next.entity.status == if s.chain[onChain - 1] == job.sub then CONFIRMED else FAILED)
  {
    var s := Exec(d, INITIAL, run);
    RunKeepsInv(d, INITIAL, [], run);
    assert [] + Allocations(run) == Allocations(run);
    DecisionIn(d, s, Allocations(run), j);
  }

  lemma DecisionIn(d: Deployment, s: State, log: seq<Id>, j: JobId)
    requires Inv(d, s, log) && j in s.jobs && s.jobs[j].stage.NonceRead?
    ensures var job, next, onChain := s.jobs[j], AfterDecision(s, j).jobs[j], s.jobs[j].stage.onChain;
      && 0 <= onChain <= |s.chain| && job.sub in log && next.sub == job.sub
      && (next.stage == Ready <==> onChain < |log| && log[onChain] == job.sub)
      && (next.entity.status == CONFIRMED <==> onChain > 0 && s.chain[onChain - 1] == job.sub)
      && (job.sub in s.chain[..onChain] <==> next.stage == Finishing && next.entity.nonce <= onChain)
      && (job.sub in s.chain[..onChain] ==>
           next.entity.status == if s.chain[onChain - 1] == job.sub then CONFIRMED else FAILED)
  {
    var job := s.jobs[j];
    var n, onChain := job.entity.nonce, job.stage.onChain;
    assert GoodJob(s, job);
    assert log[n - 1] == job.sub;
    PositionIsNonce(d, s, log, job.sub, onChain);
    if 0 < onChain {
      assert s.chain[onChain - 1] == log[onChain - 1];
    }
  }

  lemma PositionIsNonce(d: Deployment, s: State, log: seq<Id>, id: Id, n: int)
    requires Inv(d, s, log) && id in s.rows && 0 <= n <= |s.chain|
    ensures log[s.rows[id].nonce - 1] == id
    ensures forall i :: 0 <= i < |log| && log[i] == id ==> i == s.rows[id].nonce - 1
    ensures id in s.chain[..n] <==> s.rows[id].nonce <= n
  {
    var at := s.rows[id].nonce - 1;
    assert log[at] in s.rows && s.rows[log[at]].nonce == at + 1;
    if at < n {
      assert s.chain[..n][at] == log[at];
    }
    if id in s.chain[..n] {
      var i :| 0 <= i < n && s.chain[..n][i] == id;
      assert log[i] == id;
    }
  }

  // findStaleSubmissions finds nothing iff no submission was confirmed at a
  // nonce that landed after its own nonce read; with no such landing (again is
  // the current nonce) it is always empty.
  lemma StaleListingIsEmpty(d: Deployment, s: State, log: seq<Id>, again: int, found: seq<Copy>)
    requires Inv(d, s, log) && Listing(s.rows, found, IsStale(again)) && 0 <= again
    ensures found == [] <==> forall n :: again <= n < |s.chain| ==> s.rows[s.chain[n]].status != CONFIRMED
    ensures again == |s.chain| ==> found == []
  {
    if found != [] {
      var c := found[0];
      assert IsStale(again)(c.row);
      assert s.chain[c.row.nonce - 1] == c.id;
    } else {
      forall n | again <= n < |s.chain| ensures s.rows[s.chain[n]].status != CONFIRMED {
        assert log[n] == s.chain[n] && !IsStale(again)(s.rows[s.chain[n]]);
      }
    }
  }

  // The event of an accepted transaction leads the indexer to the accepted
  // submission and no other row, unless that is CONFIRMED already.
  lemma IndexedIsAccepted(d: Deployment, run: seq<Action>, slot: int, found: seq<Copy>)
    requires OneProject(d) && Legal(d, INITIAL, run) && Possible(Exec(d, INITIAL, run), FindIndexed(slot, found))
    ensures var s := Exec(d, INITIAL, run);
      var id := s.chain[slot];
      && id in s.rows
      && found == (if s.rows[id].status == CONFIRMED then [] else [Copy(id, s.rows[id])])
      && Apply(s, FindIndexed(slot, found)).saves ==
         s.saves + if s.rows[id].status == CONFIRMED then {} else {Copy(id, s.rows[id].(status := CONFIRMED))}
  {
    RunKeepsInv(d, INITIAL, [], run);
    IndexedIn(d, Exec(d, INITIAL, run), [] + Allocations(run), slot, found);
  }

  lemma IndexedIn(d: Deployment, s: State, log: seq<Id>, slot: int, found: seq<Copy>)
    requires OneProject(d) && Inv(d, s, log) && 0 <= slot < |s.chain| && s.chain[slot] in s.rows
    requires Listing(s.rows, found, IsUnconfirmed(s.rows[s.chain[slot]].project, slot + 1))
    ensures found == if s.rows[s.chain[slot]].status == CONFIRMED then []
      else [Copy(s.chain[slot], s.rows[s.chain[slot]])]
    ensures Confirmed(found) ==
      if s.rows[s.chain[slot]].status == CONFIRMED then {}
      else {Copy(s.chain[slot], s.rows[s.chain[slot]].(status := CONFIRMED))}
  {
    var id := s.chain[slot];
    var wanted := IsUnconfirmed(s.rows[id].project, slot + 1);
    assert log[slot] == id && s.rows[id].nonce == slot + 1;
    forall i | 0 <= i < |found| ensures found[i] == Copy(id, s.rows[id]) && found[i].row.status != CONFIRMED {
      assert wanted(found[i].row) && s.rows[found[i].id].nonce == s.rows[id].nonce;
    }
    assert found != [] ==> found[0].row.status != CONFIRMED;
    if s.rows[id].status != CONFIRMED {
      assert wanted(s.rows[id]) && Copy(id, s.rows[id]) in found;
      assert |found| > 1 ==> found[0].id != found[1].id;
      assert found == [Copy(id, s.rows[id])];
    }
  }

  // The comparison changes the status or the nonce of the row it holds, and
  // nothing else of it.
  lemma ComparisonChangesOneColumn(s: State, j: JobId)
    requires j in s.jobs && s.jobs[j].stage.NonceRead?
    ensures var e, next := s.jobs[j].entity, AfterDecision(s, j).jobs[j].entity;
      next == e.(status := next.status) || next == e.(nonce := s.jobs[j].stage.onChain + 1)
  {
  }
}
