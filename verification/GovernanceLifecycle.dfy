// What a proposal goes through, over whole runs.
module GovernanceLifecycle {
  import opened Basics
  import opened Governance

  // ── Terminal states, indexer included ────────────────────────────────────

  // A row held between load and save has the status it was loaded with.
  ghost predicate HeldStatuses(s: State) {
    forall h :: h in s.held ==>
      h.id in s.proposals && (h.purpose.Creating? ==> h.row.status == ACTIVE) &&
      (h.purpose.Executing? ==> h.row.status == PASSED)
  }

  // Where a row in memory after a step comes from.
  predicate Arrives(s: State, a: Action, h: Held) {
    || h in s.held
    || (a.Create? && h == Held(a.id, Proposal(0, 0, ACTIVE, a.deadline, None), Creating, |s.votes|))
    || (a.BeginExecute? && a.id in s.proposals && h == Held(a.id, s.proposals[a.id], Executing, |s.votes|))
    || (a.Register? && a.h.purpose.Executing? && h == a.h.(row := a.h.row.(onChainId := Some(a.ledgerId))))
    || (a.FindExecuted? && a.id in s.proposals && h == Held(a.id, s.proposals[a.id], Indexing(a.ledgerId), |s.votes|))
  }

  lemma HeldArrives(s: State, a: Action, h: Held)
    requires Possible(s, a) && h in Apply(s, a).held
    ensures Arrives(s, a, h)
  {
  }

  lemma IdsStay(s: State, a: Action)
    requires Possible(s, a)
    ensures s.proposals.Keys <= Apply(s, a).proposals.Keys && (a.Create? ==> a.id in Apply(s, a).proposals)
  {
  }

  lemma StepKeepsHeldStatuses(s: State, a: Action)
    requires HeldStatuses(s) && Possible(s, a)
    ensures HeldStatuses(Apply(s, a))
  {
    var t := Apply(s, a);
    IdsStay(s, a);
    forall h | h in t.held
      ensures h.id in t.proposals && (h.purpose.Creating? ==> h.row.status == ACTIVE) &&
        (h.purpose.Executing? ==> h.row.status == PASSED)
    {
      HeldArrives(s, a, h);
    }
  }

  predicate SameTallies(p: Proposal, q: Proposal) {
    q.votesFor == p.votesFor && q.votesAgainst == p.votesAgainst
  }

  predicate OneVoteMore(p: Proposal, q: Proposal) {
    || (q.votesFor == p.votesFor + 1 && q.votesAgainst == p.votesAgainst)
    || (q.votesFor == p.votesFor && q.votesAgainst == p.votesAgainst + 1)
  }

  // What every step but the whole-row saves can do to a row.
  predicate Moves(a: Action, id: int, p: Proposal, q: Proposal) {
    || q == p
    || (a.CastVote? && a.v.proposal == id && p.status == ACTIVE && a.now <= p.deadline && OneVoteMore(p, q) &&
         q == p.(votesFor := q.votesFor, votesAgainst := q.votesAgainst, status := q.status) && Outcome(a, q))
    || (a.IndexVote? && OneVoteMore(p, q) && q == p.(votesFor := q.votesFor, votesAgainst := q.votesAgainst))
    || (a.CheckExpiry? && p.status == ACTIVE && q == p.(status := EXPIRED))
    || (a.Commit? && a.h.id == id && q == p.(status := EXECUTED))
  }

  // A vote decides iff its quorum is met, by the majority.
  predicate Outcome(a: Action, q: Proposal)
    requires a.CastVote?
  {
    q.status == if !QuorumMet(a, q) then ACTIVE else if q.votesFor > q.votesAgainst then PASSED else REJECTED
  }

  predicate QuorumMet(a: Action, q: Proposal)
    requires a.CastVote?
  {
    EvaluateQuorum(q.votesFor, q.votesAgainst, a.config, if a.config.quorumBasisPoints <= 0 then 0 else a.eligible).met
  }

  lemma RowMoves(s: State, a: Action, id: int)
    requires Possible(s, a) && !SavesRow(a) && id in s.proposals
    ensures id in Apply(s, a).proposals && Moves(a, id, s.proposals[id], Apply(s, a).proposals[id])
  {
  }

  lemma OthersStay(s: State, a: Action, id: int)
    requires Possible(s, a) && SavesRow(a) && id in s.proposals && id != a.h.id
    ensures id in Apply(s, a).proposals && Apply(s, a).proposals[id] == s.proposals[id]
  {
  }

  lemma StatusStays(s: State, a: Action, id: int)
    requires Possible(s, a) && id in s.proposals && !(a.Register? && a.h.id == id)
    ensures id in Apply(s, a).proposals
    ensures s.proposals[id].status == EXECUTED ==> Apply(s, a).proposals[id].status == EXECUTED
    ensures s.proposals[id].status != ACTIVE ==> Apply(s, a).proposals[id].status != ACTIVE
  {
    if SavesRow(a) {
      if id != a.h.id {
        OthersStay(s, a, id);
      }
    } else {
      RowMoves(s, a, id);
    }
  }

  lemma RegisterSets(s: State, a: Action)
    requires HeldStatuses(s) && Possible(s, a) && a.Register?
    ensures a.h.id in s.proposals && a.h.id in Apply(s, a).proposals
    ensures Apply(s, a).proposals[a.h.id].status == if a.h.purpose.Creating? then ACTIVE else PASSED
  {
  }

  ghost predicate KeepsExecuted(s: State, a: Action) {
    Possible(s, a) ==>
      forall id :: id in s.proposals && s.proposals[id].status == EXECUTED ==>
        id in Apply(s, a).proposals && Apply(s, a).proposals[id].status == EXECUTED
  }

  predicate RegistersUnexecuted(s: State, a: Action) {
    a.Register? && a.h.id in s.proposals ==> s.proposals[a.h.id].status != EXECUTED
  }

  lemma ExecutedStep(s: State, a: Action)
    requires HeldStatuses(s) && Possible(s, a)
    ensures KeepsExecuted(s, a) <==> RegistersUnexecuted(s, a)
  {
    forall id | id in s.proposals && s.proposals[id].status == EXECUTED && !(a.Register? && a.h.id == id)
      ensures id in Apply(s, a).proposals && Apply(s, a).proposals[id].status == EXECUTED
    {
      StatusStays(s, a, id);
    }
    if a.Register? {
      RegisterSets(s, a);
    }
  }

  lemma {:induction false} ExecutedIff(s: State, run: seq<Action>)
    requires HeldStatuses(s) && Legal(s, run)
    ensures Throughout(s, run, KeepsExecuted) <==> Throughout(s, run, RegistersUnexecuted)
    decreases |run|
  {
    if run != [] {
      ExecutedStep(s, run[0]);
      StepKeepsHeldStatuses(s, run[0]);
      ExecutedIff(Apply(s, run[0]), run[1..]);
    }
  }

  // Over every run, indexer included: EXECUTED is terminal iff no save after a
  // registration finds its proposal already EXECUTED.
  lemma ExecutedIsTerminalIff(run: seq<Action>)
    requires Legal(INITIAL, run)
    ensures Throughout(INITIAL, run, KeepsExecuted) <==> Throughout(INITIAL, run, RegistersUnexecuted)
  {
    ExecutedIff(INITIAL, run);
  }

  ghost predicate KeepsInactive(s: State, a: Action) {
    Possible(s, a) ==>
      forall id :: id in s.proposals && s.proposals[id].status != ACTIVE ==>
        id in Apply(s, a).proposals && Apply(s, a).proposals[id].status != ACTIVE
  }

  predicate RegistersNewWhileActive(s: State, a: Action) {
    a.Register? && a.h.purpose.Creating? && a.h.id in s.proposals ==> s.proposals[a.h.id].status == ACTIVE
  }

  lemma InactiveStep(s: State, a: Action)
    requires HeldStatuses(s) && Possible(s, a)
    ensures KeepsInactive(s, a) <==> RegistersNewWhileActive(s, a)
  {
    forall id | id in s.proposals && s.proposals[id].status != ACTIVE && !(a.Register? && a.h.id == id)
      ensures id in Apply(s, a).proposals && Apply(s, a).proposals[id].status != ACTIVE
    {
      StatusStays(s, a, id);
    }
    if a.Register? {
      RegisterSets(s, a);
    }
  }

  lemma {:induction false} InactiveIff(s: State, run: seq<Action>)
    requires HeldStatuses(s) && Legal(s, run)
    ensures Throughout(s, run, KeepsInactive) <==> Throughout(s, run, RegistersNewWhileActive)
    decreases |run|
  {
    if run != [] {
      InactiveStep(s, run[0]);
      StepKeepsHeldStatuses(s, run[0]);
      InactiveIff(Apply(s, run[0]), run[1..]);
    }
  }

  // A proposal never becomes ACTIVE again iff createProposal's second save
  // always finds it still ACTIVE.
  lemma NeverActiveAgainIff(run: seq<Action>)
    requires Legal(INITIAL, run)
    ensures Throughout(INITIAL, run, KeepsInactive) <==> Throughout(INITIAL, run, RegistersNewWhileActive)
  {
    InactiveIff(INITIAL, run);
  }

  // ── The majority of a PASSED proposal ────────────────────────────────────

  predicate HasMajority(p: Proposal) { p.status == PASSED ==> p.votesFor > p.votesAgainst }

  ghost predicate Majorities(s: State) {
    && (forall id :: id in s.proposals ==> HasMajority(s.proposals[id]))
    && (forall h :: h in s.held && !h.purpose.Indexing? ==> HasMajority(h.row))
  }

  ghost predicate KeepsMajorities(s: State, a: Action) {
    Possible(s, a) ==> forall id :: id in Apply(s, a).proposals ==> HasMajority(Apply(s, a).proposals[id])
  }

  ghost predicate AddsAgainstPassed(s: State, a: Action) {
    && a.IndexVote? && a.v.proposal in s.proposals && s.proposals[a.v.proposal].status == PASSED
    && !a.v.support && !HasVote(s.votes, a.v.proposal, a.v.wallet)
  }

  // A first vote against, indexed after the proposal passed, meets a lead of
  // more than one.
  ghost predicate IndexesWithinLead(s: State, a: Action) {
    AddsAgainstPassed(s, a) ==> s.proposals[a.v.proposal].votesFor > s.proposals[a.v.proposal].votesAgainst + 1
  }

  lemma IndexedVoteStep(s: State, a: Action)
    requires Majorities(s) && Possible(s, a) && a.IndexVote?
    ensures KeepsMajorities(s, a) <==> IndexesWithinLead(s, a)
  {
    var id := a.v.proposal;
    var p, q := s.proposals[id], Apply(s, a).proposals[id];
    assert HasMajority(p);
    assert HasMajority(q) <==> IndexesWithinLead(s, a);
    forall k | k in Apply(s, a).proposals && k != id ensures HasMajority(Apply(s, a).proposals[k]) {
      assert HasMajority(s.proposals[k]);
    }
  }

  lemma OtherRowHasMajority(s: State, a: Action, id: int)
    requires Majorities(s) && Possible(s, a) && !a.IndexVote? && id in Apply(s, a).proposals
    ensures HasMajority(Apply(s, a).proposals[id])
  {
    if id in s.proposals {
      if SavesRow(a) {
        if id != a.h.id {
          OthersStay(s, a, id);
        }
      } else {
        RowMoves(s, a, id);
      }
    }
  }

  lemma MajorityStep(s: State, a: Action)
    requires Majorities(s) && Possible(s, a)
    ensures KeepsMajorities(s, a) <==> IndexesWithinLead(s, a)
    ensures KeepsMajorities(s, a) ==> Majorities(Apply(s, a))
  {
    if a.IndexVote? {
      IndexedVoteStep(s, a);
    } else {
      forall id | id in Apply(s, a).proposals ensures HasMajority(Apply(s, a).proposals[id]) {
        OtherRowHasMajority(s, a, id);
      }
    }
    forall h | h in Apply(s, a).held && !h.purpose.Indexing? ensures HasMajority(h.row) {
      HeldArrives(s, a, h);
    }
  }

  lemma {:induction false} MajorityIff(s: State, run: seq<Action>)
    requires Majorities(s) && Legal(s, run)
    ensures Throughout(s, run, KeepsMajorities) <==> Throughout(s, run, IndexesWithinLead)
    decreases |run|
  {
    if run != [] {
      MajorityStep(s, run[0]);
      if KeepsMajorities(s, run[0]) {
        MajorityIff(Apply(s, run[0]), run[1..]);
      }
    }
  }

  // Over every run, stale saves and indexer included: PASSED proposals have a
  // majority in every state iff no vote against that the indexer adds to a
  // PASSED one meets a lead of one.
  lemma PassedHasMajorityIff(run: seq<Action>)
    requires Legal(INITIAL, run)
    ensures Throughout(INITIAL, run, KeepsMajorities) <==> Throughout(INITIAL, run, IndexesWithinLead)
  {
    MajorityIff(INITIAL, run);
  }

  // ── The state machine of the API ─────────────────────────────────────────

  // ACTIVE takes votes one by one, expires, or is decided by a vote and its
  // majority; PASSED is executed; tallies change in no other way.
  predicate Edge(p: Proposal, q: Proposal) {
    && q.deadline == p.deadline
    && match p.status
       case ACTIVE =>
         || (SameTallies(p, q) && (q.status == ACTIVE || q.status == EXPIRED))
         || (OneVoteMore(p, q) &&
              (q.status == ACTIVE || q.status == if q.votesFor > q.votesAgainst then PASSED else REJECTED))
       case PASSED => SameTallies(p, q) && (q.status == PASSED || q.status == EXECUTED)
       case _ => SameTallies(p, q) && q.status == p.status
  }

  ghost predicate FollowsMachine(s: State, a: Action) {
    Possible(s, a) ==> forall id :: id in s.proposals ==>
      id in Apply(s, a).proposals && Edge(s.proposals[id], Apply(s, a).proposals[id])
  }

  // The row in the table is still the one that was loaded.
  predicate Fresh(s: State, h: Held) {
    h.id in s.proposals && SameTallies(h.row, s.proposals[h.id]) && s.proposals[h.id].status == h.row.status
  }

  predicate RegistersFresh(s: State, a: Action) { a.Register? ==> Fresh(s, a.h) }

  // Where a row held by the API stands compared with the table.
  predicate Tracks(h: Held, p: Proposal) {
    && h.row.deadline == p.deadline
    && (h.purpose.Creating? ==> h.row.status == ACTIVE && h.row.votesFor == 0 && h.row.votesAgainst == 0)
    && (h.purpose.Executing? ==>
         h.row.status == PASSED && SameTallies(h.row, p) && (p.status == PASSED || p.status == EXECUTED))
    && !h.purpose.Indexing?
  }

  ghost predicate Tracked(s: State) {
    && (forall h :: h in s.held ==> h.id in s.proposals && Tracks(h, s.proposals[h.id]))
    && (forall id :: id in s.proposals ==> s.proposals[id].votesFor >= 0 && s.proposals[id].votesAgainst >= 0)
  }

  lemma RegisterStep(s: State, a: Action)
    requires Tracked(s) && Possible(s, a) && a.Register?
    ensures FollowsMachine(s, a) <==> Fresh(s, a.h)
  {
    var p, q := s.proposals[a.h.id], Apply(s, a).proposals[a.h.id];
    forall id | id in s.proposals && id != a.h.id
      ensures id in Apply(s, a).proposals && Edge(s.proposals[id], Apply(s, a).proposals[id])
    {
      OthersStay(s, a, id);
    }
    assert Tracks(a.h, p);
    assert SameTallies(a.h.row, q) && q.status == a.h.row.status && q.deadline == p.deadline;
    assert Edge(p, q) <==> Fresh(s, a.h);
  }

  lemma MachineStep(s: State, a: Action)
    requires Tracked(s) && Possible(s, a) && ApiAction(a)
    ensures FollowsMachine(s, a) <==> RegistersFresh(s, a)
  {
    if a.Register? {
      RegisterStep(s, a);
    } else {
      assert a.Commit? ==> Tracks(a.h, s.proposals[a.h.id]);
      forall id | id in s.proposals
        ensures id in Apply(s, a).proposals && Edge(s.proposals[id], Apply(s, a).proposals[id])
      {
        RowMoves(s, a, id);
      }
    }
  }

  lemma TracksAlongEdge(h: Held, p: Proposal, q: Proposal)
    requires Tracks(h, p) && Edge(p, q)
    ensures Tracks(h, q)
  {
  }

  lemma ArrivalTracks(s: State, a: Action, h: Held, p: Proposal)
    requires Possible(s, a) && ApiAction(a) && Arrives(s, a, h) && h !in s.held
    requires a.Register? ==> Tracks(a.h, p)
    requires a.Create? ==> p == h.row
    requires a.BeginExecute? ==> p == h.row
    ensures Tracks(h, p)
  {
  }

  lemma NewRowsAreCurrent(s: State, a: Action)
    requires Possible(s, a) && (a.Create? || a.BeginExecute?)
    ensures a.id in Apply(s, a).proposals
    ensures Apply(s, a).proposals[a.id] ==
      if a.Create? then Proposal(0, 0, ACTIVE, a.deadline, None) else s.proposals[a.id]
  {
  }

  lemma HeldStaysTracked(s: State, a: Action, h: Held)
    requires Tracked(s) && Possible(s, a) && ApiAction(a) && FollowsMachine(s, a) && h in Apply(s, a).held
    ensures h.id in Apply(s, a).proposals && Tracks(h, Apply(s, a).proposals[h.id])
  {
    HeldArrives(s, a, h);
    var ps := Apply(s, a).proposals;
    if h in s.held {
      TracksAlongEdge(h, s.proposals[h.id], ps[h.id]);
    } else if a.Register? {
      TracksAlongEdge(a.h, s.proposals[a.h.id], ps[a.h.id]);
      ArrivalTracks(s, a, h, ps[h.id]);
    } else {
      NewRowsAreCurrent(s, a);
      ArrivalTracks(s, a, h, ps[h.id]);
    }
  }

  lemma StaysCounted(s: State, a: Action, id: int)
    requires Tracked(s) && Possible(s, a) && ApiAction(a) && FollowsMachine(s, a) && id in Apply(s, a).proposals
    ensures Apply(s, a).proposals[id].votesFor >= 0 && Apply(s, a).proposals[id].votesAgainst >= 0
  {
    assert id in s.proposals ==> Edge(s.proposals[id], Apply(s, a).proposals[id]);
  }

  lemma StepKeepsTracked(s: State, a: Action)
    requires Tracked(s) && Possible(s, a) && ApiAction(a) && FollowsMachine(s, a)
    ensures Tracked(Apply(s, a))
  {
    var t := Apply(s, a);
    forall h | h in t.held ensures h.id in t.proposals && Tracks(h, t.proposals[h.id]) {
      HeldStaysTracked(s, a, h);
    }
    forall id | id in t.proposals ensures t.proposals[id].votesFor >= 0 && t.proposals[id].votesAgainst >= 0 {
      StaysCounted(s, a, id);
    }
  }

  lemma {:induction false} MachineIff(s: State, run: seq<Action>)
    requires Tracked(s) && Legal(s, run) && ApiOnly(run)
    ensures Throughout(s, run, FollowsMachine) <==> Throughout(s, run, RegistersFresh)
    decreases |run|
  {
    if run != [] {
      MachineStep(s, run[0]);
      if FollowsMachine(s, run[0]) {
        StepKeepsTracked(s, run[0]);
        MachineIff(Apply(s, run[0]), run[1..]);
      }
    }
  }

  // Over every API run: each step moves each proposal along the state machine
  // iff each save after a registration finds the row as it was loaded.
  lemma LifecycleIff(run: seq<Action>)
    requires Legal(INITIAL, run) && ApiOnly(run)
    ensures Throughout(INITIAL, run, FollowsMachine) <==> Throughout(INITIAL, run, RegistersFresh)
  {
    MachineIff(INITIAL, run);
  }

  // ── What such runs guarantee ─────────────────────────────────────────────

  // The only way on from a settled proposal is execution of a PASSED one.
  predicate Follows(before: Proposal, after: Proposal) {
    && SameTallies(before, after) && after.deadline == before.deadline
    && (after.status == before.status || (before.status == PASSED && after.status == EXECUTED))
  }

  predicate Justifies(c: Clearance, id: int, p: Proposal) {
    && c.proposal == id && c.votesFor == p.votesFor && c.votesAgainst == p.votesAgainst
    && c.at >= p.deadline + c.config.timelockPeriod * 1000
    && (c.config.quorumBasisPoints > 0 ==> EvaluateQuorum(p.votesFor, p.votesAgainst, c.config, c.eligible).met)
  }

  ghost predicate Cleared(s: State, id: int)
    requires id in s.proposals
  {
    exists c :: c in s.cleared && Justifies(c, id, s.proposals[id])
  }

  ghost predicate Sound(s: State, id: int)
    requires id in s.proposals
  {
    var p := s.proposals[id];
    && (p.status == PASSED || p.status == EXECUTED ==> p.votesFor > p.votesAgainst)
    && (p.status == REJECTED ==> p.votesFor <= p.votesAgainst)
    && (p.status == EXECUTED ==> Cleared(s, id))
  }

  ghost predicate Inv(s: State) {
    && Tracked(s)
    && (forall id :: id in s.proposals ==> Sound(s, id))
    && (forall h :: h in s.held && h.purpose.Executing? ==> Cleared(s, h.id))
  }

  lemma ClearedStays(s: State, t: State, id: int)
    requires id in s.proposals && id in t.proposals && Cleared(s, id) && s.cleared <= t.cleared
    requires SameTallies(s.proposals[id], t.proposals[id]) && s.proposals[id].deadline == t.proposals[id].deadline
    ensures Cleared(t, id)
  {
    var c :| c in s.cleared && Justifies(c, id, s.proposals[id]);
    assert c in t.cleared && Justifies(c, id, t.proposals[id]);
  }

  function GrantedBy(s: State, a: Action): Clearance
    requires a.BeginExecute? && a.id in s.proposals
  {
    Clearance(a.id, a.now, a.config, a.eligible, s.proposals[a.id].votesFor, s.proposals[a.id].votesAgainst)
  }

  lemma ClearancesGrow(s: State, a: Action)
    requires Possible(s, a)
    ensures s.cleared <= Apply(s, a).cleared
    ensures a.BeginExecute? ==> Apply(s, a).proposals == s.proposals && GrantedBy(s, a) in Apply(s, a).cleared
  {
  }

  lemma BeginClears(s: State, a: Action)
    requires Possible(s, a) && a.BeginExecute?
    ensures a.id in Apply(s, a).proposals && Cleared(Apply(s, a), a.id)
  {
    ClearancesGrow(s, a);
    assert Justifies(GrantedBy(s, a), a.id, s.proposals[a.id]);
  }

  lemma StepClears(s: State, a: Action, h: Held)
    requires Inv(s) && Possible(s, a) && ApiAction(a) && FollowsMachine(s, a)
    requires h in Apply(s, a).held && h.purpose.Executing?
    ensures h.id in Apply(s, a).proposals && Cleared(Apply(s, a), h.id)
  {
    HeldArrives(s, a, h);
    ClearancesGrow(s, a);
    if h !in s.held && a.BeginExecute? {
      BeginClears(s, a);
    } else {
      var before := if h in s.held then h else a.h;
      assert before in s.held && before.id == h.id && Tracks(before, s.proposals[h.id]);
      assert Edge(s.proposals[h.id], Apply(s, a).proposals[h.id]);
      ClearedStays(s, Apply(s, a), h.id);
    }
  }

  lemma StepIsSound(s: State, a: Action, id: int)
    requires Inv(s) && Possible(s, a) && ApiAction(a) && FollowsMachine(s, a) && id in Apply(s, a).proposals
    ensures Sound(Apply(s, a), id)
  {
    var t := Apply(s, a);
    if id in s.proposals {
      assert Sound(s, id) && Edge(s.proposals[id], t.proposals[id]);
      if t.proposals[id].status == EXECUTED {
        BecomesExecuted(s, a, id);
        ClearedStays(s, t, id);
      }
    }
  }

  lemma BecomesExecuted(s: State, a: Action, id: int)
    requires Inv(s) && Possible(s, a) && ApiAction(a) && FollowsMachine(s, a)
    requires id in s.proposals && Apply(s, a).proposals[id].status == EXECUTED
    ensures Cleared(s, id) && s.cleared <= Apply(s, a).cleared
  {
    assert Sound(s, id) && Edge(s.proposals[id], Apply(s, a).proposals[id]);
    if a.Register? {
      if id != a.h.id {
        OthersStay(s, a, id);
      }
    } else {
      RowMoves(s, a, id);
    }
  }

  lemma StepKeepsInv(s: State, a: Action)
    requires Inv(s) && Possible(s, a) && ApiAction(a) && RegistersFresh(s, a)
    ensures Inv(Apply(s, a)) && FollowsMachine(s, a)
  {
    MachineStep(s, a);
    StepKeepsTracked(s, a);
    var t := Apply(s, a);
    forall id | id in t.proposals ensures Sound(t, id) {
      StepIsSound(s, a, id);
    }
    forall h | h in t.held && h.purpose.Executing? ensures Cleared(t, h.id) {
      StepClears(s, a, h);
    }
  }

  lemma {:induction false} RunKeepsInv(s: State, run: seq<Action>)
    requires Inv(s) && Legal(s, run) && ApiOnly(run) && Throughout(s, run, RegistersFresh)
    ensures Inv(Exec(s, run))
    ensures forall id :: id in s.proposals && s.proposals[id].status != ACTIVE ==>
      id in Exec(s, run).proposals && Follows(s.proposals[id], Exec(s, run).proposals[id])
    decreases |run|
  {
    if run != [] {
      var t := Apply(s, run[0]);
      StepKeepsInv(s, run[0]);
      RunKeepsInv(t, run[1..]);
      forall id | id in s.proposals && s.proposals[id].status != ACTIVE
        ensures id in Exec(s, run).proposals && Follows(s.proposals[id], Exec(s, run).proposals[id])
      {
        assert Edge(s.proposals[id], t.proposals[id]);
      }
    }
  }

  // A PASSED or EXECUTED proposal has a majority, a REJECTED one has none, and
  // an EXECUTED one went through a call made at or after deadline plus the
  // timelock then in force, with quorum met again when the percentage model
  // was on.
  lemma OutcomesAreEarned(run: seq<Action>, id: int)
    requires Legal(INITIAL, run) && ApiOnly(run) && Throughout(INITIAL, run, RegistersFresh)
    requires id in Exec(INITIAL, run).proposals
    ensures Sound(Exec(INITIAL, run), id)
  {
    RunKeepsInv(INITIAL, run);
  }

  // Once a proposal has left ACTIVE its tallies are frozen and it changes
  // status at most once more, from PASSED to EXECUTED.
  lemma SettledStaysSettled(before: seq<Action>, after: seq<Action>, id: int)
    requires Legal(INITIAL, before) && ApiOnly(before) && Throughout(INITIAL, before, RegistersFresh)
    requires Legal(Exec(INITIAL, before), after) && ApiOnly(after) &&
      Throughout(Exec(INITIAL, before), after, RegistersFresh)
    requires id in Exec(INITIAL, before).proposals && Exec(INITIAL, before).proposals[id].status != ACTIVE
    ensures var s, t := Exec(INITIAL, before), Exec(Exec(INITIAL, before), after);
      id in t.proposals && Follows(s.proposals[id], t.proposals[id])
  {
    RunKeepsInv(INITIAL, before);
    RunKeepsInv(Exec(INITIAL, before), after);
  }

  // A vote in time whose quorum the tallies of `p` meet.
  predicate Decides(a: Action, id: int, p: Proposal) {
    a.CastVote? && a.v.proposal == id && a.now <= p.deadline && QuorumMet(a, p)
  }

  lemma DecisionStep(s: State, a: Action, id: int)
    requires Inv(s) && Possible(s, a) && ApiAction(a) && RegistersFresh(s, a)
    requires id in s.proposals ==> s.proposals[id].status == ACTIVE
    requires id in Apply(s, a).proposals && Apply(s, a).proposals[id].status != ACTIVE
    ensures Apply(s, a).proposals[id].status == EXPIRED || Decides(a, id, Apply(s, a).proposals[id])
  {
    assert id in s.proposals;
    if a.Register? {
      if id != a.h.id {
        OthersStay(s, a, id);
      }
    } else {
      RowMoves(s, a, id);
      assert a.Commit? ==> Tracks(a.h, s.proposals[a.h.id]);
    }
  }

  lemma DecidedNow(s: State, run: seq<Action>, id: int)
    requires Inv(s) && Legal(s, run) && ApiOnly(run) && Throughout(s, run, RegistersFresh) && run != []
    requires id in s.proposals ==> s.proposals[id].status == ACTIVE
    requires id in Apply(s, run[0]).proposals && Apply(s, run[0]).proposals[id].status != ACTIVE
    ensures id in Exec(s, run).proposals
    ensures Exec(s, run).proposals[id].status == EXPIRED || Decides(run[0], id, Exec(s, run).proposals[id])
  {
    var t := Apply(s, run[0]);
    StepKeepsInv(s, run[0]);
    DecisionStep(s, run[0], id);
    RunKeepsInv(t, run[1..]);
    assert Follows(t.proposals[id], Exec(t, run[1..]).proposals[id]);
  }

  // A proposal is decided only by a vote in time after which the quorum of that
  // moment was met, and its tallies are still those of that moment.
  lemma {:induction false} DecidedByQuorum(s: State, run: seq<Action>, id: int)
    requires Inv(s) && Legal(s, run) && ApiOnly(run) && Throughout(s, run, RegistersFresh) &&
      id in Exec(s, run).proposals
    requires id in s.proposals ==> s.proposals[id].status == ACTIVE
    requires Exec(s, run).proposals[id].status != ACTIVE && Exec(s, run).proposals[id].status != EXPIRED
    ensures exists i :: 0 <= i < |run| && Decides(run[i], id, Exec(s, run).proposals[id])
    decreases |run|
  {
    var t := Apply(s, run[0]);
    StepKeepsInv(s, run[0]);
    if id in t.proposals && t.proposals[id].status != ACTIVE {
      DecidedNow(s, run, id);
    } else {
      DecidedByQuorum(t, run[1..], id);
      var i :| 0 <= i < |run[1..]| && Decides(run[1..][i], id, Exec(s, run).proposals[id]);
      assert run[i + 1] == run[1..][i];
    }
  }

  // And the first accepted vote that meets the quorum decides for good: the
  // outcome is that of the majority at that moment.
  lemma QuorumDecidesForGood(s: State, a: Action, after: seq<Action>)
    requires Inv(s) && a.CastVote? && VoteAnswer(s, a.v, a.now) == Accepted
    requires Legal(Apply(s, a), after) && ApiOnly(after) && Throughout(Apply(s, a), after, RegistersFresh)
    requires Decides(a, a.v.proposal, Apply(s, a).proposals[a.v.proposal])
    ensures var id := a.v.proposal;
      var p, q := Apply(s, a).proposals[id], Exec(Apply(s, a), after).proposals;
      && id in q && SameTallies(p, q[id])
      && (if p.votesFor > p.votesAgainst then q[id].status == PASSED || q[id].status == EXECUTED
           else q[id].status == REJECTED)
  {
    StepKeepsInv(s, a);
    RunKeepsInv(Apply(s, a), after);
  }

  // A run whose votes on the proposal all come after its deadline leaves the
  // tallies alone and never decides it.
  lemma {:induction false} NoVoteAfterDeadline(s: State, run: seq<Action>, id: int)
    requires Inv(s) && Legal(s, run) && ApiOnly(run) && Throughout(s, run, RegistersFresh) && id in s.proposals
    requires forall i :: 0 <= i < |run| && run[i].CastVote? && run[i].v.proposal == id ==>
      s.proposals[id].deadline < run[i].now
    ensures var p, t := s.proposals[id], Exec(s, run);
      && id in t.proposals && SameTallies(p, t.proposals[id]) && t.proposals[id].deadline == p.deadline
      && (p.status != PASSED ==> t.proposals[id].status != PASSED)
    decreases |run|
  {
    if run != [] {
      var t := Apply(s, run[0]);
      StepKeepsInv(s, run[0]);
      LateStep(s, run[0], id);
      NoVoteAfterDeadline(t, run[1..], id);
    }
  }

  lemma LateStep(s: State, a: Action, id: int)
    requires Inv(s) && Possible(s, a) && ApiAction(a) && RegistersFresh(s, a) && id in s.proposals
    requires a.CastVote? && a.v.proposal == id ==> s.proposals[id].deadline < a.now
    ensures var p, t := s.proposals[id], Apply(s, a);
      && id in t.proposals && SameTallies(p, t.proposals[id]) && t.proposals[id].deadline == p.deadline
      && (p.status != PASSED ==> t.proposals[id].status != PASSED)
  {
    if a.Register? {
      if id != a.h.id {
        OthersStay(s, a, id);
      }
    } else {
      RowMoves(s, a, id);
    }
  }
}
