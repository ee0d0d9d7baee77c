// Several projects behind one oracle address. The unique constraint is per
// project while the contract's nonce is per oracle, so exactly-once is lost;
// what remains, and exactly when, is proved here.
module OracleSharedAddress {
  import opened OracleProtocol
  import opened OracleExactlyOnce

  // ── At most once, for careful deployments ────────────────────────────────

  predicate Careful(d: Deployment) { d.oneLiveJob && d.atomicStaleQuery }

  // No row or job entity of `id` carries a nonce above n.
  ghost predicate Bounded(s: State, id: Id, n: int) {
    && id in s.rows && s.rows[id].nonce <= n
    && (forall j :: j in s.jobs && s.jobs[j].sub == id ==> s.jobs[j].entity.nonce <= n)
  }

  ghost predicate SoundJob(s: State, job: Job) {
    && job.sub in s.rows
    && (job.entity.status == CONFIRMED ==> job.stage.Finishing? && job.entity.nonce <= |s.chain|)
    && (job.stage.NonceRead? ==> 0 <= job.stage.onChain <= |s.chain|)
    && (job.stage.Resequencing? || job.stage.Ready? || job.stage.Marked? ==> job.entity.nonce <= |s.chain| + 1)
    && (job.stage.Marked? ==> s.rows[job.sub].nonce <= |s.chain| + 1)
  }

  ghost predicate Distinct(chain: seq<Id>) {
    forall i, k :: 0 <= i < k < |chain| ==> chain[i] != chain[k]
  }

  ghost predicate Inv2(s: State) {
    && (forall id :: id in s.rows && s.rows[id].status == CONFIRMED ==> s.rows[id].nonce <= |s.chain|)
    && (forall j :: j in s.jobs ==> SoundJob(s, s.jobs[j]))
    && (forall j, k :: j in s.jobs && k in s.jobs && j != k ==> s.jobs[j].sub != s.jobs[k].sub)
    && (forall c :: c in s.saves ==> c.id in s.rows && c.row.nonce <= |s.chain|)
    && (forall tx :: tx in s.pool ==> tx.nonce <= |s.chain| + 1 && Bounded(s, tx.sub, |s.chain| + 1))
    && (forall id :: id in s.chain ==> Bounded(s, id, |s.chain|))
    && (forall tx :: tx in s.pool && tx.sub in s.chain ==> tx.nonce <= |s.chain|)
    && Distinct(s.chain)
  }

  lemma JobUpdateKeepsInv2(s: State, j: JobId, job: Job)
    requires Inv2(s) && SoundJob(s, job)
    requires j in s.jobs && s.jobs[j].sub == job.sub
    requires job.entity.nonce <= s.jobs[j].entity.nonce || job.entity.nonce <= |s.chain| + 1
    requires job.sub in s.chain ==> job.entity.nonce <= |s.chain|
    ensures Inv2(s.(jobs := s.jobs[j := job]))
  {
  }

  lemma StageKeepsInv2(s: State, j: JobId, status: Status, stage: Stage)
    requires Inv2(s) && j in s.jobs
    requires SoundJob(s, Job(s.jobs[j].sub, s.jobs[j].entity.(status := status), stage))
    ensures Inv2(GoOn(s, j, s.jobs[j].entity.(status := status), stage))
  {
    JobUpdateKeepsInv2(s, j, Job(s.jobs[j].sub, s.jobs[j].entity.(status := status), stage));
  }

  // Saving a row whose nonce is one of the submission's own keeps every bound.
  lemma SaveKeepsInv2(s: State, id: Id, row: Row)
    requires Inv2(s) && id in s.rows
    requires row.status == CONFIRMED ==> row.nonce <= |s.chain|
    requires row.nonce <= |s.chain| ||
      exists j :: j in s.jobs && s.jobs[j].sub == id && s.jobs[j].entity.nonce == row.nonce
    requires (forall j :: j in s.jobs && s.jobs[j].sub == id && s.jobs[j].stage.Marked? ==> row.nonce <= |s.chain| + 1)
    ensures Inv2(s.(rows := s.rows[id := row]))
  {
  }

  lemma RemovalKeepsInv2(s: State, j: JobId)
    requires Inv2(s)
    ensures Inv2(EndJob(s, j))
  {
  }

  lemma SavesGrowKeepsInv2(s: State, more: set<Copy>)
    requires Inv2(s) && forall c :: c in more ==> c.id in s.rows && c.row.nonce <= |s.chain|
    ensures Inv2(s.(saves := s.saves + more))
  {
  }

  lemma PoolShrinkKeepsInv2(s: State, tx: Tx)
    requires Inv2(s)
    ensures Inv2(s.(pool := s.pool - multiset{tx}))
  {
  }

  lemma TriggerKeepsInv2(s: State, id: Id, row: Row)
    requires Inv2(s) && id !in s.rows && row.status == PENDING
    ensures Inv2(s.(rows := s.rows[id := row]))
  {
  }

  lemma LoadKeepsInv2(s: State, j: JobId, id: Id)
    requires Inv2(s) && j !in s.jobs && id in s.rows && s.rows[id].status != CONFIRMED
    requires forall k :: k in s.jobs ==> s.jobs[k].sub != id
    ensures Inv2(Apply(s, Load(j, id)))
  {
  }

  lemma DecideKeepsInv2(s: State, j: JobId)
    requires Inv2(s) && j in s.jobs && s.jobs[j].stage.NonceRead?
    ensures Inv2(AfterDecision(s, j))
  {
    assert SoundJob(s, s.jobs[j]);
    JobUpdateKeepsInv2(s, j, AfterDecision(s, j).jobs[j]);
  }

  lemma ResequenceKeepsInv2(s: State, j: JobId)
    requires Inv2(s) && AtStage(s, j, Resequencing)
    ensures Inv2(Apply(s, SaveResequenced(j)))
  {
    var job := s.jobs[j];
    assert SoundJob(s, job);
    if Collides(s.rows, job.sub, job.entity) {
      RemovalKeepsInv2(s, j);
    } else {
      SaveKeepsInv2(s, job.sub, job.entity);
      var t := s.(rows := s.rows[job.sub := job.entity]);
      StageKeepsInv2(t, j, job.entity.status, Ready);
    }
  }

  lemma MarkKeepsInv2(s: State, j: JobId)
    requires Inv2(s) && AtStage(s, j, Ready)
    ensures Inv2(Apply(s, MarkSubmitted(j)))
  {
    var job := s.jobs[j];
    assert SoundJob(s, job);
    var marked := job.entity.(status := SUBMITTED);
    if Collides(s.rows, job.sub, marked) {
      StageKeepsInv2(s, j, FAILED, Finishing);
    } else {
      SaveKeepsInv2(s, job.sub, marked);
      var t := s.(rows := s.rows[job.sub := marked]);
      StageKeepsInv2(t, j, SUBMITTED, Marked);
    }
  }

  // A broadcast freezes the submission: nothing of it exceeds the next nonce.
  lemma BroadcastKeepsInv2(s: State, j: JobId)
    requires Inv2(s) && AtStage(s, j, Marked)
    ensures Inv2(Apply(s, Broadcast(j)))
  {
    var job := s.jobs[j];
    assert SoundJob(s, job);
    StageKeepsInv2(s, j, job.entity.status, Sent);
    var t := GoOn(s, j, job.entity, Sent);
    assert Bounded(t, job.sub, |t.chain| + 1);
    assert job.sub in s.chain ==> Bounded(s, job.sub, |s.chain|);
    PoolGrowsKeepsInv2(t, Tx(job.sub, job.entity.nonce));
  }

  lemma PoolGrowsKeepsInv2(s: State, tx: Tx)
    requires Inv2(s) && tx.nonce <= |s.chain| + 1 && Bounded(s, tx.sub, |s.chain| + 1)
    requires tx.sub in s.chain ==> tx.nonce <= |s.chain|
    ensures Inv2(s.(pool := s.pool + multiset{tx}))
  {
    assert forall x :: x in s.pool + multiset{tx} ==> x in s.pool || x == tx;
  }

  lemma FinishKeepsInv2(s: State, j: JobId)
    requires Inv2(s) && AtStage(s, j, Finishing)
    ensures Inv2(Apply(s, Finish(j)))
  {
    var job := s.jobs[j];
    assert SoundJob(s, job);
    if !Collides(s.rows, job.sub, job.entity) {
      SaveKeepsInv2(s, job.sub, job.entity);
      RemovalKeepsInv2(s.(rows := s.rows[job.sub := job.entity]), j);
    } else {
      RemovalKeepsInv2(s, j);
    }
  }

  lemma CopyKeepsInv2(s: State, c: Copy)
    requires Inv2(s) && c in s.saves
    ensures Inv2(Apply(s, SaveCopy(c)))
  {
    if !Collides(s.rows, c.id, c.row) {
      SaveKeepsInv2(s, c.id, c.row);
    }
  }

  lemma LandKeepsJobs(s: State, tx: Tx)
    requires Inv2(s) && Possible(s, Land(tx))
    ensures var t := Apply(s, Land(tx)); forall j :: j in t.jobs ==> SoundJob(t, t.jobs[j])
  {
    var t := Apply(s, Land(tx));
    forall j | j in t.jobs ensures SoundJob(t, t.jobs[j]) {
      assert SoundJob(s, s.jobs[j]);
    }
  }

  lemma LandKeepsChain(s: State, tx: Tx)
    requires Inv2(s) && Possible(s, Land(tx))
    ensures var t := Apply(s, Land(tx));
      Distinct(t.chain) && forall id :: id in t.chain ==> Bounded(t, id, |t.chain|)
  {
    assert tx.sub !in s.chain;
    assert Bounded(s, tx.sub, |s.chain| + 1);
    var t := Apply(s, Land(tx));
    forall id | id in t.chain ensures Bounded(t, id, |t.chain|) {
      assert id in s.chain || id == tx.sub;
      assert id in s.chain ==> Bounded(s, id, |s.chain|);
    }
  }

  lemma LandKeepsPool(s: State, tx: Tx)
    requires Inv2(s) && Possible(s, Land(tx))
    ensures var t := Apply(s, Land(tx));
      && (forall tx' :: tx' in t.pool ==> tx'.nonce <= |t.chain| + 1 && Bounded(t, tx'.sub, |t.chain| + 1))
      && (forall tx' :: tx' in t.pool && tx'.sub in t.chain ==> tx'.nonce <= |t.chain|)
  {
    var t := Apply(s, Land(tx));
    forall tx' | tx' in t.pool
      ensures tx'.nonce <= |t.chain| + 1 && Bounded(t, tx'.sub, |t.chain| + 1)
      ensures tx'.nonce <= |t.chain|
    {
      assert tx' in s.pool && Bounded(s, tx'.sub, |s.chain| + 1);
    }
  }

  lemma LandKeepsInv2(s: State, tx: Tx)
    requires Inv2(s) && Possible(s, Land(tx))
    ensures Inv2(Apply(s, Land(tx)))
  {
    LandKeepsJobs(s, tx);
    LandKeepsChain(s, tx);
    LandKeepsPool(s, tx);
  }

  // Nothing lands between the nonce read and the query, so nothing is stale.
  lemma FindKeepsInv2(s: State, a: Action)
    requires Inv2(s) && Possible(s, a)
    requires a.FindStale? || a.FindGaps? || a.FindIndexed?
    requires a.FindStale? ==> a.again == |s.chain|
    ensures Inv2(Apply(s, a))
  {
    match a
    case FindStale(onChain, again, found) =>
      assert forall c :: c in found ==> IsStale(again)(c.row);
      SavesGrowKeepsInv2(s, Renumbered(onChain, found));
    case FindGaps(onChain, found) =>
      assert forall c :: c in found ==> IsGap(onChain)(c.row);
      SavesGrowKeepsInv2(s, Confirmed(found));
    case FindIndexed(slot, found) =>
      assert forall c :: c in found ==> IsUnconfirmed(s.rows[s.chain[slot]].project, slot + 1)(c.row);
      SavesGrowKeepsInv2(s, Confirmed(found));
  }

  lemma JobKeepsInv2(s: State, a: Action)
    requires Inv2(s) && Possible(s, a)
    requires a.FailUnconfigured? || a.ReadNonce? || a.Decide? || a.SaveResequenced? || a.RejectSnapshot? ||
      a.MarkSubmitted? || a.Broadcast? || a.SendFails? || a.ReportSuccess? || a.Finish? || a.Abandon?
    ensures Inv2(Apply(s, a))
  {
    assert SoundJob(s, s.jobs[a.j]);
    match a
    case FailUnconfigured(j) => StageKeepsInv2(s, j, FAILED, Finishing);
    case ReadNonce(j) => StageKeepsInv2(s, j, s.jobs[j].entity.status, NonceRead(|s.chain|));
    case Decide(j) => DecideKeepsInv2(s, j);
    case SaveResequenced(j) => ResequenceKeepsInv2(s, j);
    case RejectSnapshot(j) => StageKeepsInv2(s, j, FAILED, Finishing);
    case MarkSubmitted(j) => MarkKeepsInv2(s, j);
    case Broadcast(j) => BroadcastKeepsInv2(s, j);
    case SendFails(j) => StageKeepsInv2(s, j, FAILED, Finishing);
    case ReportSuccess(j) => StageKeepsInv2(s, j, CONFIRMED, Finishing);
    case Finish(j) => FinishKeepsInv2(s, j);
    case Abandon(j) => RemovalKeepsInv2(s, j);
  }

  lemma ChainOrSaveKeepsInv2(s: State, a: Action)
    requires Inv2(s) && Possible(s, a)
    requires a.Land? || a.Expire? || a.SaveCopy?
    ensures Inv2(Apply(s, a))
  {
    match a
    case Land(tx) => LandKeepsInv2(s, tx);
    case Expire(tx) => PoolShrinkKeepsInv2(s, tx);
    case SaveCopy(c) => CopyKeepsInv2(s, c);
  }

  lemma StartKeepsInv2(d: Deployment, s: State, a: Action)
    requires Careful(d) && Inv2(s) && Possible(s, a) && Allowed(d, s, a)
    requires a.Trigger? || a.Load?
    ensures Inv2(Apply(s, a))
  {
    match a
    case Trigger(id, project, max, createdAt) => TriggerKeepsInv2(s, id, Row(project, max + 1, PENDING, createdAt));
    case Load(j, id) => LoadKeepsInv2(s, j, id);
  }

  lemma StepKeepsInv2(d: Deployment, s: State, a: Action)
    requires Careful(d) && Inv2(s) && Possible(s, a) && Allowed(d, s, a)
    ensures Inv2(Apply(s, a))
  {
    if a.Trigger? || a.Load? {
      StartKeepsInv2(d, s, a);
    } else if a.Land? || a.Expire? || a.SaveCopy? {
      ChainOrSaveKeepsInv2(s, a);
    } else if a.FindStale? || a.FindGaps? || a.FindIndexed? {
      FindKeepsInv2(s, a);
    } else {
      JobKeepsInv2(s, a);
    }
  }

  lemma {:induction false} RunKeepsInv2(d: Deployment, s: State, run: seq<Action>)
    requires Careful(d) && Inv2(s) && Legal(d, s, run)
    ensures Inv2(Exec(d, s, run))
    decreases |run|
  {
    if run != [] {
      StepKeepsInv2(d, s, run[0]);
      RunKeepsInv2(d, Apply(s, run[0]), run[1..]);
    }
  }

  ghost predicate AtMostOnce(s: State) {
    forall id :: Landings(s, id) <= 1
  }

  // With one live job per submission and an atomic stale query, no submission
  // is accepted twice, however many projects share the oracle.
  lemma AtMostOnceWhenCareful(d: Deployment, run: seq<Action>)
    requires Careful(d) && Legal(d, INITIAL, run)
    ensures AtMostOnce(Exec(d, INITIAL, run))
  {
    RunKeepsInv2(d, INITIAL, run);
    var s := Exec(d, INITIAL, run);
    forall id ensures Landings(s, id) <= 1 {
      CountInDistinct(s.chain, id);
    }
  }

  // ── What fails when two projects share the oracle ────────────────────────

  lemma OneMore(d: Deployment, s: State, a: Action)
    requires Reaches(d, INITIAL, s) && Possible(s, a) && Allowed(d, s, a)
    ensures Reaches(d, INITIAL, Apply(s, a))
  {
    StepReaches(d, s, a);
    ReachesIsTransitive(d, INITIAL, s, Apply(s, a));
  }

  // Submission 1 of project p got nonce 1, submission 2 of project q nonce 2.
  function TwoRows(p: Project, q: Project): map<Id, Row> {
    map[1 := Row(p, 1, PENDING, 0), 2 := Row(q, 2, PENDING, 0)]
  }

  lemma TwoTriggers(d: Deployment, p: Project, q: Project)
    requires p in d.projects && q in d.projects
    ensures Reaches(d, INITIAL, State(TwoRows(p, q), [], multiset{}, map[], {}))
  {
    assert Legal(d, INITIAL, []);
    assert Exec(d, INITIAL, []) == INITIAL;
    OneMore(d, INITIAL, Trigger(1, p, 0, 0));
    var s := Apply(INITIAL, Trigger(1, p, 0, 0));
    assert s.rows[1].nonce == 1;
    OneMore(d, s, Trigger(2, q, 1, 0));
    assert Apply(s, Trigger(2, q, 1, 0)).rows == TwoRows(p, q);
  }

  // A job reads the on-chain nonce and compares.
  lemma Compares(d: Deployment, s: State, j: JobId, next: Job)
    requires Reaches(d, INITIAL, s) && AtStage(s, j, Loaded)
    requires next == AfterDecision(GoOn(s, j, s.jobs[j].entity, NonceRead(|s.chain|)), j).jobs[j]
    ensures Reaches(d, INITIAL, s.(jobs := s.jobs[j := next]))
  {
    var t := GoOn(s, j, s.jobs[j].entity, NonceRead(|s.chain|));
    OneMore(d, s, ReadNonce(j));
    OneMore(d, t, Decide(j));
    assert s.(jobs := s.jobs[j := next]) == AfterDecision(t, j);
  }

  // A job with the expected nonce sends and its transaction lands.
  ghost function Delivered(s: State, j: JobId): State
    requires j in s.jobs
  {
    var marked := s.jobs[j].entity.(status := SUBMITTED);
    s.(rows := s.rows[s.jobs[j].sub := marked],
       chain := s.chain + [s.jobs[j].sub],
       jobs := s.jobs[j := Job(s.jobs[j].sub, marked, Sent)])
  }

  lemma Delivers(d: Deployment, s: State, j: JobId)
    requires Reaches(d, INITIAL, s) && AtStage(s, j, Ready) && s.pool == multiset{}
    requires s.jobs[j].entity.nonce == |s.chain| + 1
    requires !Collides(s.rows, s.jobs[j].sub, s.jobs[j].entity)
    ensures Reaches(d, INITIAL, Delivered(s, j))
  {
    var sub, marked := s.jobs[j].sub, s.jobs[j].entity.(status := SUBMITTED);
    OneMore(d, s, MarkSubmitted(j));
    assert Apply(s, MarkSubmitted(j)) == SaveAndGoOn(s, j, marked, Marked);
    BroadcastAndLanded(d, SaveAndGoOn(s, j, marked, Marked), j);
    assert Delivered(s, j).jobs == s.jobs[j := Job(sub, marked, Marked)][j := Job(sub, marked, Sent)];
  }

  lemma BroadcastAndLanded(d: Deployment, t: State, j: JobId)
    requires Reaches(d, INITIAL, t) && AtStage(t, j, Marked) && t.pool == multiset{}
    requires t.jobs[j].entity.nonce == |t.chain| + 1
    ensures Reaches(d, INITIAL, GoOn(t, j, t.jobs[j].entity, Sent).(chain := t.chain + [t.jobs[j].sub]))
  {
    var tx := Tx(t.jobs[j].sub, t.jobs[j].entity.nonce);
    var u := GoOn(t, j, t.jobs[j].entity, Sent).(pool := multiset{tx});
    OneMore(d, t, Broadcast(j));
    assert Apply(t, Broadcast(j)) == u;
    OneMore(d, u, Land(tx));
    assert u.pool - multiset{tx} == multiset{};
  }

  // Submission 2, loaded at nonce 2, has moved to nonce 1 and landed there.
  ghost function MovedState(p: Project, q: Project, j: JobId, jobs: map<JobId, Job>): State {
    State(TwoRows(p, q)[2 := Row(q, 1, SUBMITTED, 0)], [2], multiset{},
          jobs[j := Job(2, Row(q, 1, SUBMITTED, 0), Sent)], {})
  }

  // Its job sees on-chain nonce 0 and takes nonce 1, although submission 1
  // holds that nonce in the other project.
  lemma TakesNonceOne(d: Deployment, p: Project, q: Project, j: JobId, jobs: map<JobId, Job>)
    requires p != q && j in jobs && jobs[j] == Job(2, Row(q, 2, PENDING, 0), Loaded)
    requires Reaches(d, INITIAL, State(TwoRows(p, q), [], multiset{}, jobs, {}))
    ensures Reaches(d, INITIAL,
      State(TwoRows(p, q), [], multiset{}, jobs[j := Job(2, Row(q, 1, PENDING, 0), Resequencing)], {}))
  {
    var s := State(TwoRows(p, q), [], multiset{}, jobs, {});
    assert !NewerConfirmed(s.rows, 2, jobs[j].entity);
    Compares(d, s, j, Job(2, Row(q, 1, PENDING, 0), Resequencing));
  }

  lemma SavesNonceOne(d: Deployment, p: Project, q: Project, j: JobId, jobs: map<JobId, Job>)
    requires p != q && j in jobs && jobs[j] == Job(2, Row(q, 1, PENDING, 0), Resequencing)
    requires Reaches(d, INITIAL, State(TwoRows(p, q), [], multiset{}, jobs, {}))
    ensures Reaches(d, INITIAL,
      State(TwoRows(p, q)[2 := Row(q, 1, PENDING, 0)], [], multiset{},
        jobs[j := Job(2, Row(q, 1, PENDING, 0), Ready)], {}))
  {
    var s := State(TwoRows(p, q), [], multiset{}, jobs, {});
    assert !Collides(s.rows, 2, Row(q, 1, PENDING, 0));
    OneMore(d, s, SaveResequenced(j));
  }

  lemma MovesToOneAndLands(d: Deployment, p: Project, q: Project, j: JobId, jobs: map<JobId, Job>)
    requires p != q && j in jobs && jobs[j] == Job(2, Row(q, 2, PENDING, 0), Loaded)
    requires Reaches(d, INITIAL, State(TwoRows(p, q), [], multiset{}, jobs, {}))
    ensures Reaches(d, INITIAL, MovedState(p, q, j, jobs))
  {
    var moved := Row(q, 1, PENDING, 0);
    TakesNonceOne(d, p, q, j, jobs);
    SavesNonceOne(d, p, q, j, jobs[j := Job(2, moved, Resequencing)]);
    var ready := jobs[j := Job(2, moved, Ready)];
    assert jobs[j := Job(2, moved, Resequencing)][j := Job(2, moved, Ready)] == ready;
    LandsAtOne(d, p, q, j, ready);
    assert MovedState(p, q, j, ready) == MovedState(p, q, j, jobs);
  }

  lemma LandsAtOne(d: Deployment, p: Project, q: Project, j: JobId, jobs: map<JobId, Job>)
    requires p != q && j in jobs && jobs[j] == Job(2, Row(q, 1, PENDING, 0), Ready)
    requires Reaches(d, INITIAL, State(TwoRows(p, q)[2 := Row(q, 1, PENDING, 0)], [], multiset{}, jobs, {}))
    ensures Reaches(d, INITIAL, MovedState(p, q, j, jobs))
  {
    var u := State(TwoRows(p, q)[2 := Row(q, 1, PENDING, 0)], [], multiset{}, jobs, {});
    assert !Collides(u.rows, 2, Row(q, 1, PENDING, 0));
    Delivers(d, u, j);
    assert Delivered(u, j) == MovedState(p, q, j, jobs);
  }

  // Submission 1 is confirmed by its own nonce comparison, never having sent.
  lemma WrongConfirmation(d: Deployment, p: Project, q: Project) returns (t: State)
    requires p in d.projects && q in d.projects && p != q
    ensures Reaches(d, INITIAL, t)
    ensures 1 in t.rows && t.rows[1].status == CONFIRMED && Landings(t, 1) == 0
  {
    TwoTriggers(d, p, q);
    var jobs := map[1 := Job(2, Row(q, 2, PENDING, 0), Loaded)];
    OneMore(d, State(TwoRows(p, q), [], multiset{}, map[], {}), Load(1, 2));
    MovesToOneAndLands(d, p, q, 1, jobs);
    t := ConfirmsUnsent(d, p, q, MovedState(p, q, 1, jobs));
  }

  lemma ConfirmsUnsent(d: Deployment, p: Project, q: Project, s: State) returns (t: State)
    requires p != q && Reaches(d, INITIAL, s)
    requires s.chain == [2] && s.rows == TwoRows(p, q)[2 := Row(q, 1, SUBMITTED, 0)]
    requires s.jobs.Keys == {1} && s.jobs[1].sub == 2
    ensures Reaches(d, INITIAL, t)
    ensures 1 in t.rows && t.rows[1].status == CONFIRMED && Landings(t, 1) == 0
  {
    OneMore(d, s, Load(2, 1));
    var u := Apply(s, Load(2, 1));
    var done := Job(1, Row(p, 1, CONFIRMED, 0), Finishing);
    Compares(d, u, 2, done);
    var v := u.(jobs := u.jobs[2 := done]);
    OneMore(d, v, Finish(2));
    assert !Collides(v.rows, 1, done.entity);
    t := Apply(v, Finish(2));
  }

  // Two live jobs of one submission: the slower one still holds nonce 2 when
  // the faster one has landed at nonce 1, and lands a second time.
  lemma DoubleLanding(d: Deployment, p: Project, q: Project) returns (t: State)
    requires p in d.projects && q in d.projects && p != q && !d.oneLiveJob
    ensures Reaches(d, INITIAL, t) && Landings(t, 2) == 2
  {
    TwoTriggers(d, p, q);
    var loaded := Job(2, Row(q, 2, PENDING, 0), Loaded);
    var s := State(TwoRows(p, q), [], multiset{}, map[], {});
    OneMore(d, s, Load(1, 2));
    OneMore(d, s.(jobs := map[1 := loaded]), Load(2, 2));
    var jobs := map[1 := loaded, 2 := loaded];
    MovesToOneAndLands(d, p, q, 2, jobs);
    t := LandsAgain(d, p, q, MovedState(p, q, 2, jobs));
  }

  lemma LandsAgain(d: Deployment, p: Project, q: Project, s: State) returns (t: State)
    requires p != q && Reaches(d, INITIAL, s)
    requires s.chain == [2] && s.pool == multiset{} && s.rows == TwoRows(p, q)[2 := Row(q, 1, SUBMITTED, 0)]
    requires 1 in s.jobs && s.jobs[1] == Job(2, Row(q, 2, PENDING, 0), Loaded)
    ensures Reaches(d, INITIAL, t) && Landings(t, 2) == 2
  {
    var ready := Job(2, Row(q, 2, PENDING, 0), Ready);
    Compares(d, s, 1, ready);
    var u := s.(jobs := s.jobs[1 := ready]);
    assert !Collides(u.rows, 2, ready.entity);
    Delivers(d, u, 1);
    t := Delivered(u, 1);
    assert t.chain == [2, 2];
  }

  // Submission 2 has landed at nonce 1 and is CONFIRMED; so is submission 1,
  // which only compared nonces. No job is live.
  function BothConfirmed(p: Project, q: Project): State {
    State(map[1 := Row(p, 1, CONFIRMED, 0), 2 := Row(q, 1, CONFIRMED, 0)], [2], multiset{}, map[], {})
  }

  lemma LastSave(d: Deployment, s: State, j: JobId, t: State)
    requires Reaches(d, INITIAL, s) && AtStage(s, j, Finishing) && !Collides(s.rows, s.jobs[j].sub, s.jobs[j].entity)
    requires t == EndJob(s, j).(rows := s.rows[s.jobs[j].sub := s.jobs[j].entity])
    ensures Reaches(d, INITIAL, t)
  {
    OneMore(d, s, Finish(j));
  }

  lemma SecondIsConfirmed(d: Deployment, p: Project, q: Project) returns (s: State)
    requires p in d.projects && q in d.projects && p != q
    ensures s == State(TwoRows(p, q)[2 := Row(q, 1, CONFIRMED, 0)], [2], multiset{}, map[], {}) &&
      Reaches(d, INITIAL, s)
  {
    TwoTriggers(d, p, q);
    var jobs := map[1 := Job(2, Row(q, 2, PENDING, 0), Loaded)];
    OneMore(d, State(TwoRows(p, q), [], multiset{}, map[], {}), Load(1, 2));
    MovesToOneAndLands(d, p, q, 1, jobs);
    var landed := MovedState(p, q, 1, jobs);
    OneMore(d, landed, ReportSuccess(1));
    var reported := landed.(jobs := map[1 := Job(2, Row(q, 1, CONFIRMED, 0), Finishing)]);
    assert Apply(landed, ReportSuccess(1)) == reported;
    s := State(TwoRows(p, q)[2 := Row(q, 1, CONFIRMED, 0)], [2], multiset{}, map[], {});
    assert !Collides(reported.rows, 2, Row(q, 1, CONFIRMED, 0));
    LastSave(d, reported, 1, s);
  }

  lemma FirstIsCompared(d: Deployment, p: Project, q: Project) returns (v: State)
    requires p in d.projects && q in d.projects && p != q
    ensures v ==
      State(TwoRows(p, q)[2 := Row(q, 1, CONFIRMED, 0)], [2], multiset{},
        map[1 := Job(1, Row(p, 1, CONFIRMED, 0), Finishing)], {})
    ensures Reaches(d, INITIAL, v)
  {
    var s := SecondIsConfirmed(d, p, q);
    OneMore(d, s, Load(1, 1));
    var u := s.(jobs := map[1 := Job(1, Row(p, 1, PENDING, 0), Loaded)]);
    assert Apply(s, Load(1, 1)) == u;
    var done := Job(1, Row(p, 1, CONFIRMED, 0), Finishing);
    Compares(d, u, 1, done);
    v := u.(jobs := map[1 := done]);
    assert u.(jobs := u.jobs[1 := done]) == v;
  }

  lemma BothAreConfirmed(d: Deployment, p: Project, q: Project)
    requires p in d.projects && q in d.projects && p != q
    ensures Reaches(d, INITIAL, BothConfirmed(p, q))
  {
    var v := FirstIsCompared(d, p, q);
    assert !Collides(v.rows, 1, Row(p, 1, CONFIRMED, 0));
    LastSave(d, v, 1, BothConfirmed(p, q));
  }

  function StaleCopies(p: Project, q: Project): seq<Copy> {
    [Copy(1, Row(p, 1, CONFIRMED, 0)), Copy(2, Row(q, 1, CONFIRMED, 0))]
  }

  function MovedCopies(p: Project, q: Project): set<Copy> {
    {Copy(1, Row(p, 1, PENDING, 0)), Copy(2, Row(q, 2, PENDING, 0))}
  }

  lemma CopiesAreRenumbered(p: Project, q: Project)
    ensures Renumbered(0, StaleCopies(p, q)) == MovedCopies(p, q)
  {
    var found := StaleCopies(p, q);
    assert RenumberedCopy(0, found, 0) == Copy(1, Row(p, 1, PENDING, 0));
    assert RenumberedCopy(0, found, 1) == Copy(2, Row(q, 2, PENDING, 0));
  }

  // The sweep read nonce 0 before the landing and queries after it: both rows
  // look stale.
  lemma SweepFinds(d: Deployment, p: Project, q: Project)
    requires p in d.projects && q in d.projects && p != q && !d.atomicStaleQuery
    ensures Reaches(d, INITIAL, BothConfirmed(p, q).(saves := MovedCopies(p, q)))
  {
    BothAreConfirmed(d, p, q);
    CopiesAreRenumbered(p, q);
    var s := BothConfirmed(p, q);
    assert Listing(s.rows, StaleCopies(p, q), IsStale(0));
    OneMore(d, s, FindStale(0, 0, StaleCopies(p, q)));
    assert Apply(s, FindStale(0, 0, StaleCopies(p, q))) == s.(saves := MovedCopies(p, q));
  }

  lemma SaveGoesThrough(d: Deployment, s: State, c: Copy)
    requires Reaches(d, INITIAL, s) && c in s.saves && !Collides(s.rows, c.id, c.row)
    ensures Reaches(d, INITIAL, s.(rows := s.rows[c.id := c.row]))
  {
    OneMore(d, s, SaveCopy(c));
  }

  // Its loop moves submission 2 on to nonce 2.
  lemma SweepMovesOn(d: Deployment, p: Project, q: Project) returns (t: State)
    requires p in d.projects && q in d.projects && p != q && !d.atomicStaleQuery
    ensures t ==
      BothConfirmed(p, q).(rows := map[1 := Row(p, 1, PENDING, 0), 2 := Row(q, 2, PENDING, 0)],
        saves := MovedCopies(p, q))
    ensures Reaches(d, INITIAL, t)
  {
    SweepFinds(d, p, q);
    var u := BothConfirmed(p, q).(saves := MovedCopies(p, q));
    SaveGoesThrough(d, u, Copy(1, Row(p, 1, PENDING, 0)));
    var v := u.(rows := u.rows[1 := Row(p, 1, PENDING, 0)]);
    assert !Collides(v.rows, 2, Row(q, 2, PENDING, 0));
    SaveGoesThrough(d, v, Copy(2, Row(q, 2, PENDING, 0)));
    t := v.(rows := v.rows[2 := Row(q, 2, PENDING, 0)]);
  }

  lemma ReadyAgain(d: Deployment, p: Project, q: Project) returns (v: State)
    requires p in d.projects && q in d.projects && p != q && !d.atomicStaleQuery
    ensures v == BothConfirmed(p, q).(rows := map[1 := Row(p, 1, PENDING, 0), 2 := Row(q, 2, PENDING, 0)],
      saves := MovedCopies(p, q), jobs := map[1 := Job(2, Row(q, 2, PENDING, 0), Ready)])
    ensures Reaches(d, INITIAL, v)
  {
    var s := SweepMovesOn(d, p, q);
    OneMore(d, s, Load(1, 2));
    var u := s.(jobs := map[1 := Job(2, Row(q, 2, PENDING, 0), Loaded)]);
    assert Apply(s, Load(1, 2)) == u;
    var ready := Job(2, Row(q, 2, PENDING, 0), Ready);
    Compares(d, u, 1, ready);
    v := u.(jobs := map[1 := ready]);
    assert u.(jobs := u.jobs[1 := ready]) == v;
  }

  // A racing stale query alone is enough: with never more than one live job,
  // submission 2 is sent again at nonce 2 and lands a second time.
  lemma DoubleLandingByStaleQuery(d: Deployment, p: Project, q: Project) returns (t: State)
    requires p in d.projects && q in d.projects && p != q && !d.atomicStaleQuery
    ensures Reaches(d, INITIAL, t) && Landings(t, 2) == 2
  {
    var v := ReadyAgain(d, p, q);
    assert !Collides(v.rows, 2, Row(q, 2, PENDING, 0));
    Delivers(d, v, 1);
    t := Delivered(v, 1);
    assert t.chain == [2, 2];
  }

  // ── Exactly when the guarantees hold ─────────────────────────────────────

  lemma ExactlyOnceIffOneProject(d: Deployment)
    ensures (forall run :: Legal(d, INITIAL, run) ==> ExactlyOnce(Exec(d, INITIAL, run))) <==> OneProject(d)
  {
    if OneProject(d) {
      forall run | Legal(d, INITIAL, run) ensures ExactlyOnce(Exec(d, INITIAL, run)) {
        ExactlyOnceAlways(d, run);
      }
    } else {
      var p, q :| p in d.projects && q in d.projects && p != q;
      var t := WrongConfirmation(d, p, q);
      assert !ExactlyOnce(t) by {
        assert 1 in t.rows && t.rows[1].status == CONFIRMED && Landings(t, 1) == 0;
      }
      var run :| Legal(d, INITIAL, run) && Exec(d, INITIAL, run) == t;
      assert Legal(d, INITIAL, run) && !ExactlyOnce(Exec(d, INITIAL, run));
    }
  }

  lemma AtMostOnceIffOneProjectOrCareful(d: Deployment)
    ensures (forall run :: Legal(d, INITIAL, run) ==> AtMostOnce(Exec(d, INITIAL, run))) <==>
      (OneProject(d) || Careful(d))
  {
    if OneProject(d) || Careful(d) {
      forall run | Legal(d, INITIAL, run) ensures AtMostOnce(Exec(d, INITIAL, run)) {
        if Careful(d) {
          AtMostOnceWhenCareful(d, run);
        } else {
          LandsAtMostOnce(d, run);
        }
      }
    } else {
      var p, q :| p in d.projects && q in d.projects && p != q;
      var t := TwoLandings(d, p, q);
      var run :| Legal(d, INITIAL, run) && Exec(d, INITIAL, run) == t;
      assert Landings(Exec(d, INITIAL, run), 2) == 2;
      assert Legal(d, INITIAL, run) && !AtMostOnce(Exec(d, INITIAL, run));
    }
  }

  lemma TwoLandings(d: Deployment, p: Project, q: Project) returns (t: State)
    requires p in d.projects && q in d.projects && p != q && !Careful(d)
    ensures Reaches(d, INITIAL, t) && Landings(t, 2) == 2
  {
    if !d.oneLiveJob {
      t := DoubleLanding(d, p, q);
    } else {
      t := DoubleLandingByStaleQuery(d, p, q);
    }
  }

  lemma LandsAtMostOnce(d: Deployment, run: seq<Action>)
    requires OneProject(d) && Legal(d, INITIAL, run)
    ensures AtMostOnce(Exec(d, INITIAL, run))
  {
    var s := Exec(d, INITIAL, run);
    ExactlyOnceAlways(d, run);
    ChainFollowsAllocation(d, run);
    forall id ensures Landings(s, id) <= 1 {
      if id in s.chain {
        var i :| 0 <= i < |s.chain| && s.chain[i] == id;
        assert Allocations(run)[i] == id;
        assert id in s.rows;
      }
    }
  }
}
