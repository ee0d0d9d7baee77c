// Three calls load a proposal row and save all of it later. Exactly which of
// them must keep the row to themselves in between, and what happens when one
// does not.
module GovernanceLocks {
  import opened Basics
  import opened Governance
  import opened GovernanceLifecycle

  // Which calls lock the row from load to save.
  datatype Locks = Locks(creating: bool, executing: bool, indexing: bool)

  predicate Locked(l: Locks, h: Held) {
    match h.purpose
    case Creating => l.creating
    case Executing => l.executing && h.row.onChainId.None?
    case Indexing(_) => l.indexing
  }

  // The proposal whose row an action loads or writes.
  function Target(a: Action): Option<int> {
    match a
    case Create(id, _) => Some(id)
    case CastVote(v, _, _, _) => Some(v.proposal)
    case CheckExpiry(id, _) => Some(id)
    case BeginExecute(id, _, _, _) => Some(id)
    case Register(h, _) => Some(h.id)
    case Commit(h) => Some(h.id)
    case Abandon(_) => None
    case IndexVote(v) => Some(v.proposal)
    case FindExecuted(id, _) => Some(id)
    case SaveExecuted(h) => Some(h.id)
  }

  ghost predicate Allowed(l: Locks, s: State, a: Action) {
    forall h :: h in s.held && Locked(l, h) && Target(a) == Some(h.id) ==> SavesRow(a) && a.h == h
  }

  ghost predicate Obeys(l: Locks, s: State, run: seq<Action>)
    requires Legal(s, run)
    decreases |run|
  {
    run == [] || (Allowed(l, s, run[0]) && Obeys(l, Apply(s, run[0]), run[1..]))
  }

  // ── Locked rows stay as they were loaded ─────────────────────────────────

  ghost predicate Kept(s: State, h: Held) {
    s.held[h] == 1 && h.id in s.proposals && s.proposals[h.id] == h.row && 0 <= h.seen <= |s.votes| && Undisturbed(s, h)
  }

  ghost predicate AllKept(l: Locks, s: State) {
    && (forall h :: h in s.held ==> h.id in s.proposals)
    && (forall h :: h in s.held && Locked(l, h) ==> Kept(s, h))
  }

  // A row that an action does not target stays, and gets no vote.
  lemma UntargetedStays(s: State, a: Action, h: Held)
    requires Possible(s, a) && h in s.held && h.id in s.proposals && Target(a) != Some(h.id)
    requires 0 <= h.seen <= |s.votes| && Undisturbed(s, h)
    ensures h.id in Apply(s, a).proposals && Apply(s, a).proposals[h.id] == s.proposals[h.id]
    ensures h.seen <= |Apply(s, a).votes| && Undisturbed(Apply(s, a), h)
  {
  }

  lemma MultiplicityStays(s: State, a: Action, h: Held)
    requires Possible(s, a) && h in Apply(s, a).held && s.held[h] == 1 && Target(a) != Some(h.id)
    ensures Apply(s, a).held[h] == 1
  {
  }

  // What a step adds to the rows in memory is loaded just now.
  lemma NewlyHeld(l: Locks, s: State, a: Action, h: Held)
    requires Possible(s, a) && h in Apply(s, a).held && h !in s.held && Locked(l, h)
    ensures Kept(Apply(s, a), h)
  {
  }

  // A locked row that is targeted is saved and let go of.
  lemma SavedIsReleased(l: Locks, s: State, a: Action, h: Held)
    requires AllKept(l, s) && Possible(s, a) && Allowed(l, s, a) && h in s.held && Locked(l, h)
    ensures Target(a) == Some(h.id) ==> h !in Apply(s, a).held
  {
    assert Kept(s, h);
  }

  lemma StillHeld(l: Locks, s: State, a: Action, h: Held)
    requires AllKept(l, s) && Possible(s, a) && h in s.held && h in Apply(s, a).held && Locked(l, h)
    requires Target(a) != Some(h.id)
    ensures Kept(Apply(s, a), h)
  {
    assert Kept(s, h);
    UntargetedStays(s, a, h);
    MultiplicityStays(s, a, h);
  }

  lemma IdsAreKnown(s: State, a: Action)
    requires Possible(s, a) && forall h :: h in s.held ==> h.id in s.proposals
    ensures forall h :: h in Apply(s, a).held ==> h.id in Apply(s, a).proposals
  {
    IdsStay(s, a);
    forall h | h in Apply(s, a).held ensures h.id in Apply(s, a).proposals {
      HeldArrives(s, a, h);
    }
  }

  lemma StepKeepsRows(l: Locks, s: State, a: Action)
    requires AllKept(l, s) && Possible(s, a) && Allowed(l, s, a)
    ensures AllKept(l, Apply(s, a))
  {
    var t := Apply(s, a);
    IdsAreKnown(s, a);
    forall h | h in t.held && Locked(l, h) ensures Kept(t, h) {
      if h in s.held {
        SavedIsReleased(l, s, a, h);
        StillHeld(l, s, a, h);
      } else {
        NewlyHeld(l, s, a, h);
      }
    }
  }

  lemma {:induction false} LockedSavesAreFresh(l: Locks, s: State, run: seq<Action>)
    requires AllKept(l, s) && Legal(s, run) && Obeys(l, s, run)
    ensures l.creating && l.executing ==> Throughout(s, run, RegistersFresh)
    ensures l.creating && l.executing && l.indexing ==> Throughout(s, run, SaveMissesNoVote)
    decreases |run|
  {
    if run != [] {
      assert SavesRow(run[0]) && Locked(l, run[0].h) ==> Kept(s, run[0].h);
      StepKeepsRows(l, s, run[0]);
      LockedSavesAreFresh(l, Apply(s, run[0]), run[1..]);
    }
  }

  // ── Runs that break without a lock ───────────────────────────────────────

  // `s` is reached by a run that obeys the locks; api: by the API alone.
  ghost predicate Reaches(l: Locks, s: State, api: bool) {
    exists run :: Legal(INITIAL, run) && Obeys(l, INITIAL, run) && Exec(INITIAL, run) == s && (api ==> ApiOnly(run))
  }

  ghost predicate Breaks(l: Locks, P: (State, Action) -> bool, api: bool) {
    exists run ::
      Legal(INITIAL, run) && Obeys(l, INITIAL, run) && !Throughout(INITIAL, run, P) && (api ==> ApiOnly(run))
  }

  lemma {:induction false} RunGrows(l: Locks, s: State, run: seq<Action>, a: Action)
    requires Legal(s, run) && Obeys(l, s, run) && Possible(Exec(s, run), a) && Allowed(l, Exec(s, run), a)
    ensures Legal(s, run + [a]) && Obeys(l, s, run + [a]) && Exec(s, run + [a]) == Apply(Exec(s, run), a)
    decreases |run|
  {
    if run == [] {
      assert run + [a] == [a] && [a][1..] == [];
      assert Legal(Apply(s, a), []) && Obeys(l, Apply(s, a), []) && Exec(Apply(s, a), []) == Apply(s, a);
    } else {
      assert (run + [a])[1..] == run[1..] + [a];
      RunGrows(l, Apply(s, run[0]), run[1..], a);
    }
  }

  lemma {:induction false} LastStepCounts(s: State, run: seq<Action>, a: Action, P: (State, Action) -> bool)
    requires Legal(s, run) && Legal(s, run + [a]) && Throughout(s, run + [a], P)
    ensures P(Exec(s, run), a)
    decreases |run|
  {
    if run == [] {
      assert run + [a] == [a];
    } else {
      assert (run + [a])[1..] == run[1..] + [a];
      LastStepCounts(Apply(s, run[0]), run[1..], a, P);
    }
  }

  lemma Starts(l: Locks, api: bool)
    ensures Reaches(l, INITIAL, api)
  {
    assert Legal(INITIAL, []) && Obeys(l, INITIAL, []) && Exec(INITIAL, []) == INITIAL;
    assert ApiOnly([]);
  }

  lemma Goes(l: Locks, s: State, a: Action, t: State, api: bool)
    requires Reaches(l, s, api) && Possible(s, a) && Allowed(l, s, a) && Apply(s, a) == t && (api ==> ApiAction(a))
    ensures Reaches(l, t, api)
  {
    var run :| Legal(INITIAL, run) && Obeys(l, INITIAL, run) && Exec(INITIAL, run) == s && (api ==> ApiOnly(run));
    RunGrows(l, INITIAL, run, a);
    assert api ==> ApiOnly(run + [a]);
  }

  lemma Ends(l: Locks, s: State, a: Action, P: (State, Action) -> bool, api: bool)
    requires Reaches(l, s, api) && Possible(s, a) && Allowed(l, s, a) && !P(s, a) && (api ==> ApiAction(a))
    ensures Breaks(l, P, api)
  {
    var run :| Legal(INITIAL, run) && Obeys(l, INITIAL, run) && Exec(INITIAL, run) == s && (api ==> ApiOnly(run));
    RunGrows(l, INITIAL, run, a);
    if Throughout(INITIAL, run + [a], P) {
      LastStepCounts(INITIAL, run, a, P);
    }
    assert api ==> ApiOnly(run + [a]);
  }

  // Proposal 1 with deadline 10; a quorum of one vote; no timelock.
  const CONFIG := Config(0, 1, 0)
  const NEW := Proposal(0, 0, ACTIVE, 10, None)
  const WON := Proposal(1, 0, PASSED, 10, None)
  const YES := Vote(1, 7, true)
  const CREATED := Held(1, NEW, Creating, 0)
  const LOADED := Held(1, WON, Executing, 1)

  lemma CreatedState(l: Locks, api: bool) returns (s: State)
    ensures s == State(map[1 := NEW], [], multiset{CREATED}, {}) && Reaches(l, s, api)
  {
    Starts(l, api);
    s := State(map[1 := NEW], [], multiset{CREATED}, {});
    Goes(l, INITIAL, Create(1, 10), s, api);
  }

  lemma CountsOfYes(late: Vote)
    ensures Count([YES], 1, true) == 1
    ensures late.proposal == 1 && late.support ==> Count([YES, late], 1, true) == 2
  {
    assert [YES][..0] == [];
    assert [YES, late][..1] == [YES];
  }

  // One vote for it passes proposal 1.
  lemma YesPasses(s: State, onChainId: Option<int>)
    requires s.proposals == map[1 := NEW.(onChainId := onChainId)] && s.votes == []
    ensures Apply(s, CastVote(YES, 0, CONFIG, 0)) ==
      s.(proposals := map[1 := WON.(onChainId := onChainId)], votes := [YES])
  {
    var p := Proposal(1, 0, ACTIVE, 10, onChainId);
    assert Recorded(s, YES) == s.(proposals := map[1 := p], votes := [YES]);
    assert EvaluateQuorum(1, 0, CONFIG, 0).met;
    assert Settled(p, CONFIG, 0) == WON.(onChainId := onChainId);
  }

  lemma VotedState(l: Locks, api: bool) returns (s: State)
    requires !l.creating
    ensures s == State(map[1 := WON], [YES], multiset{CREATED}, {}) && Reaches(l, s, api)
  {
    var s0 := CreatedState(l, api);
    s := State(map[1 := WON], [YES], multiset{CREATED}, {});
    YesPasses(s0, None);
    Goes(l, s0, CastVote(YES, 0, CONFIG, 0), s, api);
  }

  // The vote arrives while createProposal waits for the chain: its second save
  // undoes the vote and makes the PASSED proposal ACTIVE again.
  lemma UnlockedCreation(l: Locks, api: bool)
    requires !l.creating
    ensures Breaks(l, StaysConserved, api) && Breaks(l, FollowsMachine, api) && Breaks(l, KeepsInactive, api)
  {
    var s := VotedState(l, api);
    var a := Register(CREATED, 5);
    var u := AfterRegister(s, CREATED, 5);
    CountsOfYes(YES);
    assert u.proposals[1] == NEW.(onChainId := Some(5)) && !TalliesAre(u.proposals[1], u.votes, 1);
    assert !Edge(s.proposals[1], u.proposals[1]);
    Ends(l, s, a, StaysConserved, api);
    Ends(l, s, a, FollowsMachine, api);
    Ends(l, s, a, KeepsInactive, api);
  }

  // Its creation unregistered, the proposal has passed.
  lemma PassedState(l: Locks, api: bool) returns (s: State)
    ensures s == State(map[1 := WON], [YES], multiset{}, {}) && Reaches(l, s, api)
  {
    var s0 := CreatedState(l, api);
    var s1 := s0.(held := multiset{});
    Goes(l, s0, Abandon(CREATED), s1, api);
    s := State(map[1 := WON], [YES], multiset{}, {});
    YesPasses(s1, None);
    Goes(l, s1, CastVote(YES, 0, CONFIG, 0), s, api);
  }

  // Two calls of executeProposal have loaded it.
  lemma LoadedTwice(l: Locks, api: bool) returns (s: State)
    requires !l.executing
    ensures Reaches(l, s, api)
    ensures s == State(map[1 := WON], [YES], multiset{LOADED, LOADED}, {Clearance(1, 10, CONFIG, 0, 1, 0)})
  {
    var s2 := PassedState(l, api);
    var begin := BeginExecute(1, 10, CONFIG, 0);
    var s3 := s2.(held := multiset{LOADED}, cleared := {Clearance(1, 10, CONFIG, 0, 1, 0)});
    Goes(l, s2, begin, s3, api);
    s := s3.(held := multiset{LOADED, LOADED});
    assert s3.held + multiset{LOADED} == multiset{LOADED, LOADED};
    Goes(l, s3, begin, s, api);
  }

  const REGISTERED := WON.(onChainId := Some(5))
  const GOING := LOADED.(row := REGISTERED)

  lemma OneRegisters(before: State)
    requires before.proposals == map[1 := WON] && before.votes == [YES] && before.held == multiset{LOADED, LOADED}
    ensures Possible(before, Register(LOADED, 5))
    ensures AfterRegister(before, LOADED, 5) ==
      State(map[1 := REGISTERED], [YES], multiset{LOADED, GOING}, before.cleared)
  {
    assert before.held - multiset{LOADED} == multiset{LOADED};
    assert multiset{LOADED} + multiset{GOING} == multiset{LOADED, GOING};
    assert before.proposals[1 := REGISTERED] == map[1 := REGISTERED];
  }

  // And one has registered it.
  lemma TwoExecutors(l: Locks, api: bool) returns (s: State)
    requires !l.executing
    ensures Reaches(l, s, api)
    ensures s.proposals == map[1 := REGISTERED] && s.votes == [YES] && s.held == multiset{LOADED, GOING}
  {
    var before := LoadedTwice(l, api);
    OneRegisters(before);
    s := AfterRegister(before, LOADED, 5);
    Unlocked(l, before, Register(LOADED, 5));
    Goes(l, before, Register(LOADED, 5), s, api);
  }

  // With no row locked anything is allowed.
  lemma Unlocked(l: Locks, s: State, a: Action)
    requires forall h :: h in s.held ==> !Locked(l, h)
    ensures Allowed(l, s, a)
  {
  }

  // The other call's save undoes a vote indexed since.
  lemma UnlockedExecutionLosesAVote(l: Locks)
    requires !l.executing
    ensures Breaks(l, StaysConserved, false)
  {
    var s := TwoExecutors(l, false);
    var late := Vote(1, 8, true);
    var t := Recorded(s, late);
    assert forall i :: 0 <= i < |[YES]| ==> [YES][i].wallet != 8;
    Goes(l, s, IndexVote(late), t, false);
    LosesTheVote(l, t, late);
  }

  lemma LosesTheVote(l: Locks, t: State, late: Vote)
    requires !l.executing && Reaches(l, t, false) && late == Vote(1, 8, true)
    requires 1 in t.proposals && t.votes == [YES, late]
    requires t.held == multiset{LOADED, GOING}
    ensures Breaks(l, StaysConserved, false)
  {
    var u := AfterRegister(t, LOADED, 6);
    CountsOfYes(late);
    assert u.proposals[1].votesFor == 1 && !TalliesAre(u.proposals[1], u.votes, 1);
    Ends(l, t, Register(LOADED, 6), StaysConserved, false);
  }

  lemma OneCommits(s: State)
    requires s.proposals == map[1 := REGISTERED] && s.held == multiset{LOADED, GOING}
    ensures Possible(s, Commit(GOING))
    ensures var t := AfterCommit(s, GOING);
      && t == State(map[1 := REGISTERED.(status := EXECUTED)], s.votes, multiset{LOADED}, s.cleared)
      && Possible(t, Register(LOADED, 6))
      && Apply(t, Register(LOADED, 6)).proposals == map[1 := WON.(onChainId := Some(6))]
  {
    assert s.held - multiset{GOING} == multiset{LOADED};
    var t := AfterCommit(s, GOING);
    assert t.proposals == map[1 := REGISTERED.(status := EXECUTED)];
  }

  lemma ExecutedState(l: Locks, api: bool) returns (t: State)
    requires !l.executing
    ensures Reaches(l, t, api) && t.proposals == map[1 := REGISTERED.(status := EXECUTED)]
    ensures t.held == multiset{LOADED} && Possible(t, Register(LOADED, 6))
    ensures Apply(t, Register(LOADED, 6)).proposals == map[1 := WON.(onChainId := Some(6))]
  {
    var s := TwoExecutors(l, api);
    OneCommits(s);
    Unlocked(l, s, Commit(GOING));
    t := AfterCommit(s, GOING);
    Goes(l, s, Commit(GOING), t, api);
  }

  // Or makes a proposal the first call has EXECUTED PASSED again.
  lemma UnlockedExecutionUndoesExecuted(l: Locks, api: bool)
    requires !l.executing
    ensures Breaks(l, FollowsMachine, api) && Breaks(l, KeepsExecuted, api)
  {
    var t := ExecutedState(l, api);
    var u := Apply(t, Register(LOADED, 6));
    assert t.proposals[1].status == EXECUTED && u.proposals[1].status == PASSED;
    Unlocked(l, t, Register(LOADED, 6));
    Ends(l, t, Register(LOADED, 6), FollowsMachine, api);
    Ends(l, t, Register(LOADED, 6), KeepsExecuted, api);
  }

  const KNOWN := NEW.(onChainId := Some(5))
  const FOUND := Held(1, KNOWN, Indexing(5), 0)

  // The indexer has found the registered proposal by its on-chain id.
  lemma FoundState(l: Locks) returns (s: State)
    requires !l.indexing
    ensures s == State(map[1 := KNOWN], [], multiset{FOUND}, {}) && Reaches(l, s, false)
  {
    var s0 := CreatedState(l, false);
    var s1 := State(map[1 := KNOWN], [], multiset{}, {});
    Goes(l, s0, Register(CREATED, 5), s1, false);
    s := s1.(held := multiset{FOUND});
    assert Matches(s1.proposals, 5, 1);
    Goes(l, s1, FindExecuted(1, 5), s, false);
  }

  // A vote between the indexer's lookup and its save is lost.
  lemma UnlockedIndexing(l: Locks)
    requires !l.indexing
    ensures Breaks(l, StaysConserved, false)
  {
    var s2 := FoundState(l);
    var s3 := State(map[1 := WON.(onChainId := Some(5))], [YES], multiset{FOUND}, {});
    YesPasses(s2, Some(5));
    Goes(l, s2, CastVote(YES, 0, CONFIG, 0), s3, false);
    var u := AfterSaveExecuted(s3, FOUND);
    CountsOfYes(YES);
    assert u.proposals[1].votesFor == 0 && !TalliesAre(u.proposals[1], u.votes, 1);
    Ends(l, s3, SaveExecuted(FOUND), StaysConserved, false);
  }

  // ── Exactly which locks are needed ───────────────────────────────────────

  // The tallies equal the vote rows in every state of every run iff all three
  // calls keep the row to themselves from load to save.
  lemma ConservedIffLocked(l: Locks)
    ensures !Breaks(l, StaysConserved, false) <==> l.creating && l.executing && l.indexing
  {
    if !l.creating {
      UnlockedCreation(l, false);
    } else if !l.executing {
      UnlockedExecutionLosesAVote(l);
    } else if !l.indexing {
      UnlockedIndexing(l);
    } else {
      forall run | Legal(INITIAL, run) && Obeys(l, INITIAL, run) ensures Throughout(INITIAL, run, StaysConserved) {
        LockedSavesAreFresh(l, INITIAL, run);
        TalliesAreConservedIff(run);
      }
    }
  }

  // Every API run follows the state machine iff createProposal and
  // executeProposal do.
  lemma MachineIffLocked(l: Locks)
    ensures !Breaks(l, FollowsMachine, true) <==> l.creating && l.executing
  {
    if !l.creating {
      UnlockedCreation(l, true);
    } else if !l.executing {
      UnlockedExecutionUndoesExecuted(l, true);
    } else {
      forall run | Legal(INITIAL, run) && Obeys(l, INITIAL, run) && ApiOnly(run)
        ensures Throughout(INITIAL, run, FollowsMachine)
      {
        LockedSavesAreFresh(l, INITIAL, run);
        LifecycleIff(run);
      }
    }
  }
}
