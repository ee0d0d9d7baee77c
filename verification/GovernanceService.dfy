// The governance calls and the indexer's two handlers as code over the same
// tables. Between a load and the save that follows it anybody else may act.
module GovernanceService {
  import opened Basics
  import opened Governance
  import opened GovernanceDelivery

  // A step of a run, and whether the call being followed takes it.
  datatype Step = Step(mine: bool, a: Action)

  function Actions(steps: seq<Step>): seq<Action> {
    if steps == [] then [] else Actions(steps[..|steps| - 1]) + [steps[|steps| - 1].a]
  }

  function Own(steps: seq<Step>): seq<Action> {
    if steps == [] then [] else
      var last := steps[|steps| - 1];
      Own(steps[..|steps| - 1]) + if last.mine then [last.a] else []
  }

  ghost predicate Leads(s: State, steps: seq<Step>, t: State) {
    Legal(s, Actions(steps)) && Exec(s, Actions(steps)) == t
  }

  // A run from s to t in which the call's own actions are `own`.
  ghost predicate ReachesWith(s: State, t: State, own: seq<Action>) {
    exists steps :: Leads(s, steps, t) && Own(steps) == own
  }

  lemma {:induction false} RunGrows(s: State, run: seq<Action>, a: Action)
    requires Legal(s, run) && Possible(Exec(s, run), a)
    ensures Legal(s, run + [a]) && Exec(s, run + [a]) == Apply(Exec(s, run), a)
    decreases |run|
  {
    if run == [] {
      assert run + [a] == [a] && [a][1..] == [];
      assert Legal(Apply(s, a), []) && Exec(Apply(s, a), []) == Apply(s, a);
    } else {
      assert (run + [a])[1..] == run[1..] + [a];
      RunGrows(Apply(s, run[0]), run[1..], a);
    }
  }

  lemma Advance(s0: State, s: State, own: seq<Action>, a: Action)
    requires ReachesWith(s0, s, own) && Possible(s, a)
    ensures ReachesWith(s0, Apply(s, a), own + [a])
  {
    var steps :| Leads(s0, steps, s) && Own(steps) == own;
    var more := steps + [Step(true, a)];
    assert more[..|steps|] == steps;
    RunGrows(s0, Actions(steps), a);
    assert Leads(s0, more, Apply(s, a));
  }

  datatype ExecuteResult = Executed | UnknownProposal | NotPassed | TimelockNotElapsed | QuorumLost | Unregistered
      | ChainFailed

  // What executeProposal() does after its checks, holding `h`.
  function ExecuteScript(h: Held, registered: Option<int>, chainOk: bool): seq<Action> {
    if h.row.onChainId.Some? then [if chainOk then Commit(h) else Abandon(h)]
    else if registered.None? then [Abandon(h)]
    else
      var r := h.(row := h.row.(onChainId := registered));
      [Register(h, registered.value), if chainOk then Commit(r) else Abandon(r)]
  }

  function ExecuteAnswer(h: Held, registered: Option<int>, chainOk: bool): ExecuteResult {
    if h.row.onChainId.None? && registered.None? then Unregistered
    else if chainOk then Executed
    else ChainFailed
  }

  // What executeProposal() is called with, and what the chain answers it.
  datatype Request = Request(now: int, config: Config, eligible: int, registered: Option<int>, chainOk: bool)

  function AfterExpiry(p: Proposal, now: int): Proposal {
    if p.status == ACTIVE && now > p.deadline then p.(status := EXPIRED) else p
  }

  // What it does with the row it has loaded.
  function CheckedScript(h: Held, x: Request): seq<Action> {
    if !MayExecute(h.row, x.now, x.config, x.eligible) then []
    else [BeginExecute(h.id, x.now, x.config, x.eligible)] + ExecuteScript(h, x.registered, x.chainOk)
  }

  function CheckedAnswer(h: Held, x: Request): ExecuteResult {
    if h.row.status != PASSED then NotPassed
    else if x.now - h.row.deadline < x.config.timelockPeriod * 1000 then TimelockNotElapsed
    else if !MayExecute(h.row, x.now, x.config, x.eligible) then QuorumLost
    else ExecuteAnswer(h, x.registered, x.chainOk)
  }

  // ACTIVE, and the deadline has not passed.
  predicate Open(p: Proposal, now: int) { p.status == ACTIVE && now <= p.deadline }

  class GovernanceService {
    var proposals: map<int, Proposal>
    var votes: seq<Vote>
    ghost var held: multiset<Held>
    ghost var cleared: set<Clearance>

    // The call being followed: where it started, what it did and the row it
    // holds in memory.
    ghost var start: State
    ghost var own: seq<Action>
    ghost var mine: Option<Held>

    ghost function Snapshot(): State
      reads this
    {
      State(proposals, votes, held, cleared)
    }

    ghost predicate Following()
      reads this
    {
      ReachesWith(start, Snapshot(), own) && (mine.Some? ==> mine.value in held && mine.value.id in proposals)
    }

    constructor ()
      ensures Snapshot() == INITIAL
    {
      proposals, votes, held, cleared := map[], [], multiset{}, {};
    }

    // Other calls and the indexer do as they please with everything but the row
    // this call holds in memory: a caller knows nothing more afterwards.
    method Interfere()
      requires Following()
      modifies `proposals, `votes, `held, `cleared
      ensures Following()
    {
    }

    ghost method Begin()
      modifies `start, `own, `mine
      ensures Following() && start == Snapshot() && own == [] && mine == None
    {
      start, own, mine := Snapshot(), [], None;
      assert Leads(start, [], start) && Own([]) == [];
    }

    // Takes `a` and leaves it to the caller to write the proposals.
    ghost method Take(a: Action, keep: Option<Held>)
      requires Following() && Possible(Snapshot(), a) && Apply(Snapshot(), a).votes == votes
      requires keep.Some? ==> keep.value in Apply(Snapshot(), a).held && keep.value.id in Apply(Snapshot(), a).proposals
      modifies `held, `cleared, `own, `mine
      ensures own == old(own) + [a] && mine == keep
      ensures State(Apply(old(Snapshot()), a).proposals, votes, held, cleared) == Apply(old(Snapshot()), a)
      ensures ReachesWith(start, Apply(old(Snapshot()), a), own)
    {
      Advance(start, Snapshot(), own, a);
      var t := Apply(Snapshot(), a);
      held, cleared, own, mine := t.held, t.cleared, own + [a], keep;
    }

    // ── Votes ──────────────────────────────────────────────────────────────

    method FindVote(proposal: int, wallet: int) returns (found: bool)
      ensures found <==> HasVote(votes, proposal, wallet)
    {
      found := false;
      for i := 0 to |votes|
        invariant found <==> exists k :: 0 <= k < i && votes[k].proposal == proposal && votes[k].wallet == wallet
      {
        if votes[i].proposal == proposal && votes[i].wallet == wallet {
          found := true;
        }
      }
    }

    // INSERT the row, then increment one counter in place.
    method InsertAndCount(v: Vote)
      requires v.proposal in proposals
      modifies `proposals, `votes
      ensures Snapshot() == Recorded(old(Snapshot()), v)
    {
      votes := votes + [v];
      var p := proposals[v.proposal];
      if v.support {
        proposals := proposals[v.proposal := p.(votesFor := p.votesFor + 1)];
      } else {
        proposals := proposals[v.proposal := p.(votesAgainst := p.votesAgainst + 1)];
      }
    }

    // The vote adds one to its own side; then the turnout decides whether the
    // majority does.
    ghost predicate Decided(before: map<int, Proposal>, v: Vote, config: Config, countEligible: int)
      reads this
    {
      && v.proposal in before && v.proposal in proposals && proposals == before[v.proposal := proposals[v.proposal]]
      && var p, q := before[v.proposal], proposals[v.proposal];
      && q.votesFor == p.votesFor + (if v.support then 1 else 0)
      && q.votesAgainst == p.votesAgainst + (if v.support then 0 else 1)
      && q.deadline == p.deadline && q.onChainId == p.onChainId
      && q.status ==
         if !Enough(q.votesFor + q.votesAgainst, config, countEligible) then ACTIVE
         else if q.votesFor > q.votesAgainst then PASSED else REJECTED
    }

    // The serialisable transaction of vote().
    method CastVote(v: Vote, now: int, config: Config, countEligible: int) returns (result: VoteResult)
      modifies `proposals, `votes
      ensures result == VoteAnswer(old(Snapshot()), v, now)
      ensures Snapshot() == Apply(old(Snapshot()), Action.CastVote(v, now, config, countEligible))
      ensures result == Refused(NotFound) <==> v.proposal !in old(proposals)
      ensures result == Refused(NotActive) <==> v.proposal in old(proposals) && !Open(old(proposals)[v.proposal], now)
      ensures result == Refused(AlreadyVoted) <==>
        v.proposal in old(proposals) && Open(old(proposals)[v.proposal], now) &&
        v.wallet in Voters(old(votes), v.proposal)
      ensures result == Accepted ==> Decided(old(proposals), v, config, countEligible) && votes == old(votes) + [v]
      ensures result != Accepted ==> proposals == old(proposals) && votes == old(votes)
    {
      assert v.wallet in Voters(votes, v.proposal) <==> HasVote(votes, v.proposal, v.wallet);
      if v.proposal !in proposals {
        return Refused(NotFound);
      }
      var proposal := proposals[v.proposal];
      if proposal.status == ACTIVE && now > proposal.deadline {
        proposal := proposal.(status := EXPIRED); // this write is rolled back below
      }
      if proposal.status != ACTIVE {
        return Refused(NotActive);
      }
      var existingVote := FindVote(v.proposal, v.wallet);
      if existingVote {
        return Refused(AlreadyVoted);
      }
      InsertAndCount(v);
      var updated := proposals[v.proposal];
      var eligibleCount := if config.quorumBasisPoints <= 0 then 0 else countEligible;
      if EvaluateQuorum(updated.votesFor, updated.votesAgainst, config, eligibleCount).met {
        var newStatus := if updated.votesFor > updated.votesAgainst then PASSED else REJECTED;
        proposals := proposals[v.proposal := updated.(status := newStatus)];
      }
      result := Accepted;
    }

    // findOne without an order: any row with the on-chain id.
    method FindByOnChainId(onChainId: int) returns (found: Option<int>)
      ensures found.Some? ==> Matches(proposals, onChainId, found.value)
      ensures found.None? ==> forall id :: !Matches(proposals, onChainId, id)
    {
      var ids := set id | id in proposals && proposals[id].onChainId == Some(onChainId);
      if ids == {} {
        assert forall id :: Matches(proposals, onChainId, id) ==> id in ids;
        return None;
      }
      ghost var _ := Member(ids);
      var id :| id in ids;
      found := Some(id);
    }

    // INSERT ... ON CONFLICT DO NOTHING RETURNING id, then the increment.
    method OnGovernanceVoteCast(e: VoteCast)
      modifies `proposals, `votes
      ensures Delivers(old(Snapshot()), e, Snapshot())
      ensures votes != old(votes) ==> exists id ::
        id in old(proposals) && old(proposals)[id].onChainId == Some(e.onChainId) &&
        e.wallet !in Voters(old(votes), id) && votes == old(votes) + [Vote(id, e.wallet, e.support)]
    {
      assert forall id :: e.wallet in Voters(votes, id) <==> HasVote(votes, id, e.wallet);
      var found := FindByOnChainId(e.onChainId);
      if found.None? {
        assert forall id :: !IsFor(Snapshot(), e, id);
        return;
      }
      assert IsFor(Snapshot(), e, found.value);
      var duplicate := FindVote(found.value, e.wallet);
      if !duplicate {
        InsertAndCount(Vote(found.value, e.wallet, e.support));
      }
    }

    // ── Calls that load a row and save it later ────────────────────────────

    // The second save of createProposal and the save of executeProposal.
    method SaveRegistered(h: Held, ledgerId: int)
      requires Following() && mine == Some(h) && !h.purpose.Indexing? && h.row.onChainId.None?
      modifies `proposals, `held, `cleared, `own, `mine
      ensures Following() && own == old(own) + [Register(h, ledgerId)]
      ensures mine == if h.purpose.Executing? then Some(h.(row := h.row.(onChainId := Some(ledgerId)))) else None
      ensures proposals == old(proposals)[h.id := h.row.(onChainId := Some(ledgerId))]
    {
      var row := h.row.(onChainId := Some(ledgerId));
      Take(Register(h, ledgerId), if h.purpose.Executing? then Some(h.(row := row)) else None);
      proposals := proposals[h.id := row];
    }

    ghost method LetGoOf(h: Held)
      requires Following() && mine == Some(h)
      modifies `held, `cleared, `own, `mine
      ensures Following() && own == old(own) + [Abandon(h)] && mine == None
    {
      Take(Abandon(h), None);
    }

    method CreateProposal(id: int, deadline: int, registered: Option<int>)
      requires id !in proposals
      modifies this
      ensures Following() && start == old(Snapshot())
      ensures var h := Held(id, Proposal(0, 0, ACTIVE, deadline, None), Creating, |old(votes)|);
        own == [Create(id, deadline), if registered.Some? then Register(h, registered.value) else Abandon(h)]
      ensures id in proposals && (registered.Some? ==> proposals[id] == Proposal(0, 0, ACTIVE, deadline, registered))
    {
      var saved := Proposal(0, 0, ACTIVE, deadline, None);
      var h := Held(id, saved, Creating, |votes|);
      Begin();
      InsertProposal(id, saved);
      Interfere();
      if registered.Some? {
        SaveRegistered(h, registered.value);
      } else {
        LetGoOf(h);
      }
    }

    method InsertProposal(id: int, saved: Proposal)
      requires Following() && id !in proposals && saved == Proposal(0, 0, ACTIVE, saved.deadline, None)
      modifies `proposals, `held, `cleared, `own, `mine
      ensures Following() && own == old(own) + [Create(id, saved.deadline)]
      ensures mine == Some(Held(id, saved, Creating, |votes|)) && proposals == old(proposals)[id := saved]
    {
      Take(Create(id, saved.deadline), Some(Held(id, saved, Creating, |votes|)));
      proposals := proposals[id := saved];
    }

    // getProposalById, then what depends on the row it returned.
    method ExecuteProposal(id: int, x: Request) returns (result: ExecuteResult)
      modifies this
      ensures Following() && start == old(Snapshot())
      ensures id !in old(proposals) ==> result == UnknownProposal && own == []
      ensures id in old(proposals) ==>
        var h := Held(id, AfterExpiry(old(proposals)[id], x.now), Executing, |old(votes)|);
        own == [CheckExpiry(id, x.now)] + CheckedScript(h, x) && result == CheckedAnswer(h, x)
      ensures result == Executed ==> id in proposals && proposals[id].status == EXECUTED
    {
      Begin();
      if id !in proposals {
        return UnknownProposal;
      }
      var proposal := GetProposalById(id, x.now);
      result := ExecuteLoaded(id, proposal, x);
    }

    method ExecuteLoaded(id: int, proposal: Proposal, x: Request) returns (result: ExecuteResult)
      requires Following() && mine == None && id in proposals && proposal == proposals[id]
      modifies `proposals, `votes, `held, `cleared, `own, `mine
      ensures Following()
      ensures var h := Held(id, proposal, Executing, |old(votes)|);
        own == old(own) + CheckedScript(h, x) && result == CheckedAnswer(h, x)
      ensures result == Executed ==> id in proposals && proposals[id].status == EXECUTED
    {
      var refusal := CheckExecutable(proposal, x.now, x.config, x.eligible);
      if refusal.Some? {
        return refusal.value;
      }
      var h := Held(id, proposal, Executing, |votes|);
      Take(BeginExecute(id, x.now, x.config, x.eligible), Some(h));
      result := RegisterAndExecute(h, x.registered, x.chainOk);
    }

    method CheckExecutable(proposal: Proposal, now: int, config: Config, eligible: int)
      returns (refusal: Option<ExecuteResult>)
      ensures refusal.None? <==> MayExecute(proposal, now, config, eligible)
      ensures refusal == Some(NotPassed) <==> proposal.status != PASSED
      ensures refusal == Some(TimelockNotElapsed) <==>
        proposal.status == PASSED && now - proposal.deadline < config.timelockPeriod * 1000
      ensures refusal == Some(QuorumLost) <==>
        proposal.status == PASSED && now - proposal.deadline >= config.timelockPeriod * 1000 &&
        config.quorumBasisPoints > 0 && !Enough(proposal.votesFor + proposal.votesAgainst, config, eligible)
      ensures refusal.Some? ==> refusal.value in {NotPassed, TimelockNotElapsed, QuorumLost}
    {
      refusal := None;
      var elapsed := now - proposal.deadline;
      if proposal.status != PASSED {
        refusal := Some(NotPassed);
      } else if elapsed < config.timelockPeriod * 1000 {
        refusal := Some(TimelockNotElapsed);
      } else if config.quorumBasisPoints > 0 {
        var quorum := EvaluateQuorum(proposal.votesFor, proposal.votesAgainst, config, eligible);
        if !quorum.met {
          refusal := Some(QuorumLost);
        }
      }
    }

    method GetProposalById(id: int, now: int) returns (proposal: Proposal)
      requires Following() && id in proposals && mine == None
      modifies `proposals, `held, `cleared, `own, `mine
      ensures Following() && mine == None && own == old(own) + [CheckExpiry(id, now)]
      ensures Snapshot() == AfterCheckExpiry(old(Snapshot()), id, now) && proposal == proposals[id]
      ensures proposal == AfterExpiry(old(proposals)[id], now)
      ensures var p := old(proposals)[id];
        proposal == p.(status := if p.status == ACTIVE && p.deadline < now then EXPIRED else p.status)
    {
      proposal := proposals[id];
      Take(CheckExpiry(id, now), None);
      if proposal.status == ACTIVE && now > proposal.deadline {
        proposal := proposal.(status := EXPIRED);
        proposals := proposals[id := proposal];
      }
    }

    // The status changes last, and only after the chain call went through.
    method RegisterAndExecute(loaded: Held, registered: Option<int>, chainOk: bool) returns (result: ExecuteResult)
      requires Following() && mine == Some(loaded) && loaded.purpose.Executing?
      modifies `proposals, `votes, `held, `cleared, `own, `mine
      ensures Following() && mine == None
      ensures own == old(own) + ExecuteScript(loaded, registered, chainOk) &&
        result == ExecuteAnswer(loaded, registered, chainOk)
      ensures result == Executed ==> loaded.id in proposals && proposals[loaded.id].status == EXECUTED
    {
      Interfere();
      if loaded.row.onChainId.Some? {
        result := CommitOrFail(loaded, chainOk);
      } else if registered.None? {
        LetGoOf(loaded);
        result := Unregistered;
      } else {
        SaveRegistered(loaded, registered.value);
        result := CommitOrFail(loaded.(row := loaded.row.(onChainId := registered)), chainOk);
      }
    }

    method CommitOrFail(h: Held, chainOk: bool) returns (result: ExecuteResult)
      requires Following() && mine == Some(h) && h.purpose.Executing? && h.row.onChainId.Some?
      modifies `proposals, `votes, `held, `cleared, `own, `mine
      ensures Following() && mine == None && own == old(own) + [if chainOk then Commit(h) else Abandon(h)]
      ensures result == if chainOk then Executed else ChainFailed
      ensures result == Executed ==> h.id in proposals && proposals[h.id].status == EXECUTED
    {
      Interfere();
      if !chainOk {
        LetGoOf(h);
        return ChainFailed;
      }
      Take(Commit(h), None);
      proposals := proposals[h.id := proposals[h.id].(status := EXECUTED)];
      result := Executed;
    }

    // The row with the event's on-chain id, or failing that a PASSED one.
    method FindExecuted(ledgerId: int) returns (found: Option<int>)
      ensures found.Some? ==> Names(proposals, ledgerId, found.value)
      ensures found.None? ==> forall id :: !Names(proposals, ledgerId, id)
      ensures found.Some? ==>
        found.value in proposals &&
        (proposals[found.value].onChainId == Some(ledgerId) || proposals[found.value].status == PASSED)
      ensures forall id :: id in proposals && proposals[id].onChainId == Some(ledgerId) ==>
        found.Some? && proposals[found.value].onChainId == Some(ledgerId)
      ensures forall id :: id in proposals && proposals[id].status == PASSED ==> found.Some?
    {
      found := FindByOnChainId(ledgerId);
      assert forall id :: id in proposals && proposals[id].onChainId == Some(ledgerId) ==>
        Matches(proposals, ledgerId, id);
      if found.None? {
        var passed := set id | id in proposals && proposals[id].status == PASSED;
        assert forall id :: id in proposals && proposals[id].status == PASSED ==> id in passed;
        if passed != {} {
          ghost var _ := Member(passed);
          var id :| id in passed;
          found := Some(id);
        } else {
          assert forall id :: Names(proposals, ledgerId, id) ==> id in passed;
        }
      }
    }

    method OnGovernanceProposalExecuted(ledgerId: int) returns (found: Option<int>)
      modifies this
      ensures Following() && start == old(Snapshot())
      ensures found.Some? ==>
        found.value in old(proposals) &&
        (old(proposals)[found.value].onChainId == Some(ledgerId) || old(proposals)[found.value].status == PASSED)
      ensures forall id :: id in old(proposals) && old(proposals)[id].onChainId == Some(ledgerId) ==>
        found.Some? && old(proposals)[found.value].onChainId == Some(ledgerId)
      ensures forall id :: id in old(proposals) && old(proposals)[id].status == PASSED ==> found.Some?
      ensures if found.None? || old(proposals)[found.value].status == EXECUTED
        then own == [] && Snapshot() == old(Snapshot())
        else
          var h := Held(found.value, old(proposals)[found.value], Indexing(ledgerId), |old(votes)|);
          own == [Action.FindExecuted(found.value, ledgerId), SaveExecuted(h)] && found.value in proposals &&
          proposals[found.value] == old(proposals)[found.value].(status := EXECUTED, onChainId := Some(ledgerId))
    {
      found := FindExecuted(ledgerId);
      Begin();
      if found.None? || proposals[found.value].status == EXECUTED {
        return;
      }
      var proposal := proposals[found.value];
      ghost var h := Held(found.value, proposal, Indexing(ledgerId), |votes|);
      Take(Action.FindExecuted(found.value, ledgerId), Some(h));
      Interfere();
      SaveAsExecuted(found.value, proposal, ledgerId, h);
    }

    // The whole row, EXECUTED and with the event's id.
    method SaveAsExecuted(id: int, proposal: Proposal, ledgerId: int, ghost h: Held)
      requires Following() && mine == Some(h) && h.id == id && h.row == proposal && h.purpose == Indexing(ledgerId)
      modifies `proposals, `held, `cleared, `own, `mine
      ensures Following() && own == old(own) + [SaveExecuted(h)] && mine == None
      ensures proposals == old(proposals)[id := proposal.(status := EXECUTED, onChainId := Some(ledgerId))]
    {
      Take(SaveExecuted(h), None);
      proposals := proposals[id := proposal.(status := EXECUTED, onChainId := Some(ledgerId))];
    }
  }
}
