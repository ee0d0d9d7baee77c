// The oracle submission pipeline for one oracle address as an interleaved
// protocol: every database statement, chain read, broadcast and landing is one
// atomic action, and a run is any legal sequence of actions.
module OracleProtocol {

  type Id = int
  type Project = int
  type JobId = int

  datatype Status = PENDING | SUBMITTED | CONFIRMED | FAILED

  // A row of oracle_submissions. (project, nonce) is unique in the table.
  datatype Row = Row(project: Project, nonce: int, status: Status, createdAt: int)

  // A row as loaded into memory; saving it writes every column back.
  datatype Copy = Copy(id: Id, row: Row)

  // A signed submit_reading transaction that may still land.
  datatype Tx = Tx(sub: Id, nonce: int)

  // Where a run of processSubmission stands between two I/O operations.
  datatype Stage =
    | Loaded
    | NonceRead(onChain: int)
    | Resequencing             // in-memory nonce replaced, not yet saved
    | Ready                    // nonce settled, reading not yet mapped
    | Marked                   // SUBMITTED saved, nothing broadcast yet
    | Sent                     // broadcast, waiting for an outcome
    | Finishing                // only the last save is left

  datatype Job = Job(sub: Id, entity: Row, stage: Stage)

  // chain[i] is the submission whose transaction the contract accepted at
  // nonce i + 1, so |chain| is the on-chain nonce. A copy in `saves` was loaded
  // and edited by reconcile() or the indexer; it may be written back at any
  // later time, in any order, and more than once.
  datatype State = State(
    rows: map<Id, Row>,
    chain: seq<Id>,
    pool: multiset<Tx>,
    jobs: map<JobId, Job>,
    saves: set<Copy>)

  const INITIAL := State(map[], [], multiset{}, map[], {})

  datatype Action =
    | Trigger(id: Id, project: Project, max: int, createdAt: int)
    | Load(j: JobId, id: Id)
    | FailUnconfigured(j: JobId)
    | ReadNonce(j: JobId)
    | Decide(j: JobId)
    | SaveResequenced(j: JobId)
    | RejectSnapshot(j: JobId)
    | MarkSubmitted(j: JobId)
    | Broadcast(j: JobId)
    | SendFails(j: JobId)
    | ReportSuccess(j: JobId)
    | Finish(j: JobId)
    | Abandon(j: JobId)
    | Land(tx: Tx)
    | Expire(tx: Tx)
    | FindStale(onChain: int, again: int, found: seq<Copy>)
    | FindGaps(onChain: int, found: seq<Copy>)
    | FindIndexed(slot: int, found: seq<Copy>)
    | SaveCopy(c: Copy)

  // projects: the projects that submit through this oracle address.
  // oneLiveJob: a submission has at most one live job.
  // atomicStaleQuery: nothing lands between the nonce read of
  // findStaleSubmissions and its query.
  datatype Deployment = Deployment(projects: set<Project>, oneLiveJob: bool, atomicStaleQuery: bool)

  // ── Queries ──────────────────────────────────────────────────────────────

  // m is SELECT MAX(nonce), with NULL read as 0.
  ghost predicate IsMaxNonce(rows: map<Id, Row>, m: int) {
    && (forall id :: id in rows ==> rows[id].nonce <= m)
    && (m == 0 || exists id :: id in rows && rows[id].nonce == m)
  }

  // Would saving `row` under `id` violate UNIQUE (project, oracle, nonce)?
  predicate Collides(rows: map<Id, Row>, id: Id, row: Row) {
    exists other :: other in rows && other != id && rows[other].project == row.project && rows[other].nonce == row.nonce
  }

  predicate NewerConfirmed(rows: map<Id, Row>, id: Id, row: Row) {
    exists other ::
      other in rows && other != id && rows[other].status == CONFIRMED && row.createdAt < rows[other].createdAt
  }

  // `found` is the result of a SELECT ... WHERE match ORDER BY nonce ASC.
  ghost predicate Listing(rows: map<Id, Row>, found: seq<Copy>, match_: Row -> bool) {
    && (forall i :: 0 <= i < |found| ==>
         found[i].id in rows && rows[found[i].id] == found[i].row && match_(found[i].row))
    && (forall id :: id in rows && match_(rows[id]) ==> Copy(id, rows[id]) in found)
    && (forall i, k :: 0 <= i < k < |found| ==> found[i].id != found[k].id && found[i].row.nonce <= found[k].row.nonce)
  }

  function IsStale(onChain: int): Row -> bool {
    (row: Row) => row.status == CONFIRMED && onChain < row.nonce
  }

  function IsGap(onChain: int): Row -> bool {
    (row: Row) => (row.status == PENDING || row.status == FAILED) && row.nonce <= onChain
  }

  function IsUnconfirmed(project: Project, nonce: int): Row -> bool {
    (row: Row) => row.project == project && row.nonce == nonce && row.status != CONFIRMED
  }

  // The copies the renumber loop writes: onChain + 1, onChain + 2, ...
  ghost function Renumbered(onChain: int, found: seq<Copy>): set<Copy> {
    set i | 0 <= i < |found| :: RenumberedCopy(onChain, found, i)
  }

  function RenumberedCopy(onChain: int, found: seq<Copy>, i: int): Copy
    requires 0 <= i < |found|
  {
    Copy(found[i].id, found[i].row.(nonce := onChain + 1 + i, status := PENDING))
  }

  function ConfirmedCopy(c: Copy): Copy { c.(row := c.row.(status := CONFIRMED)) }

  ghost function Confirmed(found: seq<Copy>): set<Copy> {
    set c | c in found :: ConfirmedCopy(c)
  }

  // ── Actions ──────────────────────────────────────────────────────────────

  ghost predicate AtStage(s: State, j: JobId, stage: Stage) {
    j in s.jobs && s.jobs[j].stage == stage
  }

  ghost predicate Possible(s: State, a: Action) {
    match a
    case Trigger(id, _, max, _) => id !in s.rows && IsMaxNonce(s.rows, max)
    case Load(j, id) => j !in s.jobs && id in s.rows && s.rows[id].status != CONFIRMED
    case FailUnconfigured(j) => AtStage(s, j, Loaded)
    case ReadNonce(j) => AtStage(s, j, Loaded)
    case Decide(j) => j in s.jobs && s.jobs[j].stage.NonceRead?
    case SaveResequenced(j) => AtStage(s, j, Resequencing)
    case RejectSnapshot(j) => AtStage(s, j, Ready)
    case MarkSubmitted(j) => AtStage(s, j, Ready)
    case Broadcast(j) => AtStage(s, j, Marked)
    case SendFails(j) => AtStage(s, j, Marked) || AtStage(s, j, Sent)
    // An RPC node reports SUCCESS only for a transaction the ledger applied.
    case ReportSuccess(j) =>
      && AtStage(s, j, Sent)
      && 1 <= s.jobs[j].entity.nonce <= |s.chain|
      && s.chain[s.jobs[j].entity.nonce - 1] == s.jobs[j].sub
    case Finish(j) => AtStage(s, j, Finishing)
    case Abandon(j) => j in s.jobs
    // The contract accepts exactly the next nonce.
    case Land(tx) => tx in s.pool && tx.nonce == |s.chain| + 1
    case Expire(tx) => tx in s.pool
    // A nonce read earlier is any value up to the present one.
    case FindStale(onChain, again, found) =>
      0 <= onChain <= again <= |s.chain| && Listing(s.rows, found, IsStale(again))
    case FindGaps(onChain, found) => 0 <= onChain <= |s.chain| && Listing(s.rows, found, IsGap(onChain))
    // The event of an accepted transaction names its project and nonce.
    case FindIndexed(slot, found) =>
      && 0 <= slot < |s.chain| && s.chain[slot] in s.rows
      && Listing(s.rows, found, IsUnconfirmed(s.rows[s.chain[slot]].project, slot + 1))
    case SaveCopy(c) => c in s.saves
  }

  ghost predicate Allowed(d: Deployment, s: State, a: Action) {
    match a
    case Trigger(_, project, _, _) => project in d.projects
    case Load(_, id) => d.oneLiveJob ==> forall k :: k in s.jobs ==> s.jobs[k].sub != id
    case FindStale(_, again, _) => d.atomicStaleQuery ==> again == |s.chain|
    case _ => true
  }

  ghost function GoOn(s: State, j: JobId, entity: Row, stage: Stage): State
    requires j in s.jobs
  {
    s.(jobs := s.jobs[j := Job(s.jobs[j].sub, entity, stage)])
  }

  ghost function EndJob(s: State, j: JobId): State {
    s.(jobs := s.jobs - {j})
  }

  // save() of the job's entity, then `stage`.
  ghost function SaveAndGoOn(s: State, j: JobId, entity: Row, stage: Stage): State
    requires j in s.jobs
  {
    GoOn(s, j, entity, stage).(rows := s.rows[s.jobs[j].sub := entity])
  }

  ghost function Apply(s: State, a: Action): State
    requires Possible(s, a)
  {
    match a
    case Trigger(id, project, max, createdAt) =>
      s.(rows := s.rows[id := Row(project, max + 1, PENDING, createdAt)])
    case Load(j, id) => s.(jobs := s.jobs[j := Job(id, s.rows[id], Loaded)])
    case FailUnconfigured(j) => GoOn(s, j, s.jobs[j].entity.(status := FAILED), Finishing)
    case ReadNonce(j) => GoOn(s, j, s.jobs[j].entity, NonceRead(|s.chain|))
    case Decide(j) => AfterDecision(s, j)
    case SaveResequenced(j) =>
      if Collides(s.rows, s.jobs[j].sub, s.jobs[j].entity) then EndJob(s, j)
      else SaveAndGoOn(s, j, s.jobs[j].entity, Ready)
    case RejectSnapshot(j) => GoOn(s, j, s.jobs[j].entity.(status := FAILED), Finishing)
    case MarkSubmitted(j) =>
      var marked := s.jobs[j].entity.(status := SUBMITTED);
      if Collides(s.rows, s.jobs[j].sub, marked) then GoOn(s, j, marked.(status := FAILED), Finishing)
      else SaveAndGoOn(s, j, marked, Marked)
    case Broadcast(j) =>
      var job := s.jobs[j];
      GoOn(s, j, job.entity, Sent).(pool := s.pool + multiset{Tx(job.sub, job.entity.nonce)})
    case SendFails(j) => GoOn(s, j, s.jobs[j].entity.(status := FAILED), Finishing)
    case ReportSuccess(j) => GoOn(s, j, s.jobs[j].entity.(status := CONFIRMED), Finishing)
    case Finish(j) =>
      if Collides(s.rows, s.jobs[j].sub, s.jobs[j].entity) then EndJob(s, j)
      else EndJob(s, j).(rows := s.rows[s.jobs[j].sub := s.jobs[j].entity])
    case Abandon(j) => EndJob(s, j)
    case Land(tx) => s.(chain := s.chain + [tx.sub], pool := s.pool - multiset{tx})
    case Expire(tx) => s.(pool := s.pool - multiset{tx})
    case FindStale(onChain, _, found) => s.(saves := s.saves + Renumbered(onChain, found))
    case FindGaps(_, found) => s.(saves := s.saves + Confirmed(found))
    case FindIndexed(_, found) => s.(saves := s.saves + Confirmed(found))
    case SaveCopy(c) => if Collides(s.rows, c.id, c.row) then s else s.(rows := s.rows[c.id := c.row])
  }

  // The nonce comparison of processSubmission.
  ghost function AfterDecision(s: State, j: JobId): State
    requires j in s.jobs && s.jobs[j].stage.NonceRead?
  {
    var job := s.jobs[j];
    var e, onChain := job.entity, job.stage.onChain;
    if e.nonce == onChain + 1 then GoOn(s, j, e, Ready)
    else if e.nonce == onChain then GoOn(s, j, e.(status := CONFIRMED), Finishing)
    else if e.nonce < onChain then GoOn(s, j, e.(status := FAILED), Finishing)
    else if NewerConfirmed(s.rows, job.sub, e) then GoOn(s, j, e.(status := FAILED), Finishing)
    else GoOn(s, j, e.(nonce := onChain + 1), Resequencing)
  }

  // ── Runs ─────────────────────────────────────────────────────────────────

  ghost predicate Legal(d: Deployment, s: State, run: seq<Action>)
    decreases |run|
  {
    run == [] || (Possible(s, run[0]) && Allowed(d, s, run[0]) && Legal(d, Apply(s, run[0]), run[1..]))
  }

  ghost function Exec(d: Deployment, s: State, run: seq<Action>): State
    requires Legal(d, s, run)
    decreases |run|
  {
    if run == [] then s else Exec(d, Apply(s, run[0]), run[1..])
  }

  // t can be reached from s by some legal run.
  ghost predicate Reaches(d: Deployment, s: State, t: State) {
    exists run :: Legal(d, s, run) && Exec(d, s, run) == t
  }

  lemma {:induction false} RunsCompose(d: Deployment, s: State, first: seq<Action>, second: seq<Action>)
    requires Legal(d, s, first) && Legal(d, Exec(d, s, first), second)
    ensures Legal(d, s, first + second)
    ensures Exec(d, s, first + second) == Exec(d, Exec(d, s, first), second)
    decreases |first|
  {
    if first == [] {
      assert first + second == second;
    } else {
      assert (first + second)[1..] == first[1..] + second;
      RunsCompose(d, Apply(s, first[0]), first[1..], second);
    }
  }

  lemma ReachesIsTransitive(d: Deployment, s: State, t: State, u: State)
    requires Reaches(d, s, t) && Reaches(d, t, u)
    ensures Reaches(d, s, u)
  {
    var first :| Legal(d, s, first) && Exec(d, s, first) == t;
    var second :| Legal(d, t, second) && Exec(d, t, second) == u;
    RunsCompose(d, s, first, second);
  }

  lemma StepReaches(d: Deployment, s: State, a: Action)
    requires Possible(s, a) && Allowed(d, s, a)
    ensures Reaches(d, s, Apply(s, a))
  {
    assert [a][1..] == [];
    assert Legal(d, Apply(s, a), []) && Exec(d, Apply(s, a), []) == Apply(s, a);
    assert Legal(d, s, [a]) && Exec(d, s, [a]) == Apply(s, a);
  }
}
