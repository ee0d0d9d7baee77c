// Proposals and votes. Two writers update the vote table and the tallies: the
// API's vote() transaction and the indexer's vote_cast handler.
module Governance {
  import opened Basics

  datatype Status = ACTIVE | PASSED | REJECTED | EXECUTED | EXPIRED

  // Times are in milliseconds; timelockPeriod is in seconds.
  datatype Config = Config(timelockPeriod: int, quorum: int, quorumBasisPoints: int)

  datatype Proposal = Proposal(votesFor: int, votesAgainst: int, status: Status, deadline: int, onChainId: Option<int>)
  datatype Vote = Vote(proposal: int, wallet: int, support: bool)

  // An executeProposal() call whose checks have passed.
  datatype Clearance = Clearance(proposal: int, at: int, config: Config, eligible: int, votesFor: int,
      votesAgainst: int)

  // A proposal row in the memory of a call that may still save it; saving
  // writes every column back. seen: how many votes were stored at the load.
  datatype Purpose = Creating | Executing | Indexing(ledgerId: int)
  datatype Held = Held(id: int, row: Proposal, purpose: Purpose, seen: int)

  datatype State = State(proposals: map<int, Proposal>, votes: seq<Vote>, held: multiset<Held>, cleared: set<Clearance>)

  const INITIAL := State(map[], [], multiset{}, {})

  // ── Quorum ───────────────────────────────────────────────────────────────

  datatype Quorum = Quorum(met: bool, turnoutBasisPoints: Option<int>)

  function EvaluateQuorum(votesFor: int, votesAgainst: int, config: Config, eligible: int): Quorum {
    var total := votesFor + votesAgainst;
    if config.quorumBasisPoints <= 0 || eligible <= 0 then Quorum(total >= config.quorum, None)
    else Quorum(total * 10000 >= eligible * config.quorumBasisPoints, Some(total * 10000 / eligible))
  }

  lemma MulIsMonotone(b: int, x: int, y: int)
    requires 0 <= b && x <= y
    ensures b * x <= b * y
  {
  }

  lemma FloorIsThreshold(a: int, b: int, q: int)
    requires 0 <= a && 0 < b
    ensures a >= b * q <==> a / b >= q
  {
    var f := a / b;
    assert a == b * f + a % b;
    if f >= q {
      MulIsMonotone(b, q, f);
    } else {
      MulIsMonotone(b, f + 1, q);
      assert b * (f + 1) == b * f + b;
    }
  }

  // The exact integer comparison agrees with the floored basis points shown.
  lemma QuorumMatchesTurnout(votesFor: int, votesAgainst: int, config: Config, eligible: int)
    requires votesFor >= 0 && votesAgainst >= 0
    ensures var q := EvaluateQuorum(votesFor, votesAgainst, config, eligible);
      && (q.turnoutBasisPoints.Some? <==> config.quorumBasisPoints > 0 && eligible > 0)
      && (q.turnoutBasisPoints.Some? ==> (q.met <==> q.turnoutBasisPoints.value >= config.quorumBasisPoints))
  {
    if config.quorumBasisPoints > 0 && eligible > 0 {
      FloorIsThreshold((votesFor + votesAgainst) * 10000, eligible, config.quorumBasisPoints);
    }
  }

  // Turnout counts votes for and against alike: only their sum matters, and
  // with everybody voting it is 10000 basis points.
  lemma TurnoutIsEverybody(f: int, a: int, f': int, a': int, config: Config, eligible: int)
    requires f + a == f' + a'
    ensures EvaluateQuorum(f, a, config, eligible) == EvaluateQuorum(f', a', config, eligible)
    ensures config.quorumBasisPoints > 0 && f + a == eligible > 0 ==>
      EvaluateQuorum(f, a, config, eligible).turnoutBasisPoints == Some(10000) &&
      (EvaluateQuorum(f, a, config, eligible).met <==> config.quorumBasisPoints <= 10000)
  {
    if config.quorumBasisPoints > 0 && f + a == eligible > 0 {
      FloorIsThreshold(eligible * 10000, eligible, 10000);
      FloorIsThreshold(eligible * 10000, eligible, 10001);
      FloorIsThreshold(eligible * 10000, eligible, config.quorumBasisPoints);
    }
  }

  // More votes never lose the quorum, and among positive populations fewer
  // eligible voters never lose it.
  lemma QuorumIsMonotone(f: int, a: int, f': int, a': int, config: Config, eligible: int, eligible': int)
    requires f <= f' && a <= a'
    requires (0 < eligible' <= eligible) || eligible' == eligible
    requires EvaluateQuorum(f, a, config, eligible).met
    ensures EvaluateQuorum(f', a', config, eligible').met
  {
    if config.quorumBasisPoints > 0 && eligible > 0 {
      assert (eligible - eligible') * config.quorumBasisPoints >= 0;
    }
  }

  // ── Votes ────────────────────────────────────────────────────────────────

  ghost predicate HasVote(votes: seq<Vote>, proposal: int, wallet: int) {
    exists i :: 0 <= i < |votes| && votes[i].proposal == proposal && votes[i].wallet == wallet
  }

  function Count(votes: seq<Vote>, proposal: int, support: bool): int {
    if votes == [] then 0 else
      var last := votes[|votes| - 1];
      Count(votes[..|votes| - 1], proposal, support) +
        if last.proposal == proposal && last.support == support then 1 else 0
  }

  // The row and the counter of one more vote.
  function Recorded(s: State, v: Vote): State
    requires v.proposal in s.proposals
  {
    var p := s.proposals[v.proposal];
    var p' := if v.support then p.(votesFor := p.votesFor + 1) else p.(votesAgainst := p.votesAgainst + 1);
    s.(votes := s.votes + [v], proposals := s.proposals[v.proposal := p'])
  }

  function Settled(p: Proposal, config: Config, eligible: int): Proposal {
    if EvaluateQuorum(p.votesFor, p.votesAgainst, config, if config.quorumBasisPoints <= 0 then 0 else eligible).met
    then p.(status := if p.votesFor > p.votesAgainst then PASSED else REJECTED)
    else p
  }

  datatype VoteError = NotFound | NotActive | AlreadyVoted
  datatype VoteResult = Accepted | Refused(error: VoteError)

  ghost function VoteAnswer(s: State, v: Vote, now: int): VoteResult {
    if v.proposal !in s.proposals then Refused(NotFound)
    else if s.proposals[v.proposal].status != ACTIVE || s.proposals[v.proposal].deadline < now then Refused(NotActive)
    else if HasVote(s.votes, v.proposal, v.wallet) then Refused(AlreadyVoted)
    else Accepted
  }

  // A refusal rolls the transaction back, the expiry write included.
  ghost function AfterVote(s: State, v: Vote, now: int, config: Config, eligible: int): State {
    if VoteAnswer(s, v, now) != Accepted then s else
      var t := Recorded(s, v);
      t.(proposals := t.proposals[v.proposal := Settled(t.proposals[v.proposal], config, eligible)])
  }

  // ── Actions ──────────────────────────────────────────────────────────────

  // Register is the save after an on-chain registration: the second save of
  // createProposal, or the one executeProposal makes before the chain call.
  datatype Action =
    | Create(id: int, deadline: int)
    | CastVote(v: Vote, now: int, config: Config, eligible: int)
    | CheckExpiry(id: int, now: int)
    | BeginExecute(id: int, now: int, config: Config, eligible: int)
    | Register(h: Held, ledgerId: int)
    | Commit(h: Held)
    | Abandon(h: Held)
    | IndexVote(v: Vote)
    | FindExecuted(id: int, ledgerId: int)
    | SaveExecuted(h: Held)

  predicate MayExecute(p: Proposal, now: int, config: Config, eligible: int) {
    && p.status == PASSED
    && now - p.deadline >= config.timelockPeriod * 1000
    && (config.quorumBasisPoints > 0 ==> EvaluateQuorum(p.votesFor, p.votesAgainst, config, eligible).met)
  }

  ghost predicate Matches(proposals: map<int, Proposal>, onChainId: int, id: int) {
    id in proposals && proposals[id].onChainId == Some(onChainId)
  }

  // The row of a proposal_executed event: by on-chain id, or failing that some
  // PASSED proposal.
  ghost predicate Names(proposals: map<int, Proposal>, ledgerId: int, id: int) {
    || Matches(proposals, ledgerId, id)
    || (id in proposals && proposals[id].status == PASSED && !exists other :: Matches(proposals, ledgerId, other))
  }

  ghost predicate Possible(s: State, a: Action) {
    match a
    case Create(id, _) => id !in s.proposals
    case CastVote(_, _, _, _) => true
    case CheckExpiry(id, _) => id in s.proposals
    case BeginExecute(id, now, config, eligible) =>
      id in s.proposals && MayExecute(s.proposals[id], now, config, eligible)
    case Register(h, _) => h in s.held && h.id in s.proposals && !h.purpose.Indexing? && h.row.onChainId.None?
    case Commit(h) => h in s.held && h.id in s.proposals && h.purpose.Executing? && h.row.onChainId.Some?
    case Abandon(h) => h in s.held
    // The handler found the proposal by its on-chain id.
    case IndexVote(v) => v.proposal in s.proposals && s.proposals[v.proposal].onChainId.Some?
    case FindExecuted(id, ledgerId) => Names(s.proposals, ledgerId, id) && s.proposals[id].status != EXECUTED
    case SaveExecuted(h) => h in s.held && h.id in s.proposals && h.purpose.Indexing?
  }

  function Hold(s: State, id: int, purpose: Purpose): State
    requires id in s.proposals
  {
    s.(held := s.held + multiset{Held(id, s.proposals[id], purpose, |s.votes|)})
  }

  function LetGo(s: State, h: Held): State { s.(held := s.held - multiset{h}) }

  // The whole row, with the on-chain id; executeProposal goes on with it.
  function AfterRegister(s: State, h: Held, ledgerId: int): State {
    var row := h.row.(onChainId := Some(ledgerId));
    var t := LetGo(s, h).(proposals := s.proposals[h.id := row]);
    if h.purpose.Executing? then t.(held := t.held + multiset{h.(row := row)}) else t
  }

  // UPDATE ... SET status = 'executed'.
  function AfterCommit(s: State, h: Held): State
    requires h.id in s.proposals
  {
    LetGo(s, h).(proposals := s.proposals[h.id := s.proposals[h.id].(status := EXECUTED)])
  }

  function AfterSaveExecuted(s: State, h: Held): State
    requires h.purpose.Indexing?
  {
    LetGo(s, h).(proposals := s.proposals[h.id := h.row.(status := EXECUTED, onChainId := Some(h.purpose.ledgerId))])
  }

  // UPDATE ... SET status = 'expired' WHERE id AND status = 'active'.
  function AfterCheckExpiry(s: State, id: int, now: int): State
    requires id in s.proposals
  {
    var p := s.proposals[id];
    if p.status == ACTIVE && now > p.deadline then s.(proposals := s.proposals[id := p.(status := EXPIRED)]) else s
  }

  ghost function Apply(s: State, a: Action): State
    requires Possible(s, a)
  {
    match a
    case Create(id, deadline) =>
      Hold(s.(proposals := s.proposals[id := Proposal(0, 0, ACTIVE, deadline, None)]), id, Creating)
    case CastVote(v, now, config, eligible) => AfterVote(s, v, now, config, eligible)
    case CheckExpiry(id, now) => AfterCheckExpiry(s, id, now)
    case BeginExecute(id, now, config, eligible) =>
      var p := s.proposals[id];
      Hold(s, id, Executing).(cleared := s.cleared + {Clearance(id, now, config, eligible, p.votesFor, p.votesAgainst)})
    case Register(h, ledgerId) => AfterRegister(s, h, ledgerId)
    case Commit(h) => AfterCommit(s, h)
    case Abandon(h) => LetGo(s, h)
    case IndexVote(v) => if HasVote(s.votes, v.proposal, v.wallet) then s else Recorded(s, v)
    case FindExecuted(id, ledgerId) => Hold(s, id, Indexing(ledgerId))
    case SaveExecuted(h) => AfterSaveExecuted(s, h)
  }

  ghost predicate Legal(s: State, run: seq<Action>)
    decreases |run|
  {
    run == [] || (Possible(s, run[0]) && Legal(Apply(s, run[0]), run[1..]))
  }

  ghost function Exec(s: State, run: seq<Action>): State
    requires Legal(s, run)
    decreases |run|
  {
    if run == [] then s else Exec(Apply(s, run[0]), run[1..])
  }

  // `P` holds of every step of the run.
  ghost predicate Throughout(s: State, run: seq<Action>, P: (State, Action) -> bool)
    requires Legal(s, run)
    decreases |run|
  {
    run == [] || (P(s, run[0]) && Throughout(Apply(s, run[0]), run[1..], P))
  }

  // No indexer action: the API alone.
  predicate ApiAction(a: Action) { !a.IndexVote? && !a.FindExecuted? && !a.SaveExecuted? }

  predicate ApiOnly(run: seq<Action>) {
    forall i :: 0 <= i < |run| ==> ApiAction(run[i])
  }

  // ── Conservation, with both writers ──────────────────────────────────────

  ghost predicate OneVoteEach(votes: seq<Vote>) {
    forall i, k :: 0 <= i < k < |votes| ==> votes[i].proposal != votes[k].proposal || votes[i].wallet != votes[k].wallet
  }

  predicate TalliesAre(p: Proposal, votes: seq<Vote>, id: int) {
    p.votesFor == Count(votes, id, true) && p.votesAgainst == Count(votes, id, false)
  }

  ghost predicate Conserved(s: State) {
    forall id :: id in s.proposals ==> TalliesAre(s.proposals[id], s.votes, id)
  }

  // Every row in memory has the tallies of the votes stored when it was loaded.
  ghost predicate HeldConserved(s: State) {
    forall h :: h in s.held ==>
      h.id in s.proposals && 0 <= h.seen <= |s.votes| && TalliesAre(h.row, s.votes[..h.seen], h.id)
  }

  ghost predicate Grounded(s: State) {
    OneVoteEach(s.votes) && forall i :: 0 <= i < |s.votes| ==> s.votes[i].proposal in s.proposals
  }

  // Nobody has voted on the proposal since its row was loaded.
  ghost predicate Undisturbed(s: State, h: Held) {
    forall i :: 0 <= h.seen <= i < |s.votes| ==> s.votes[i].proposal != h.id
  }

  predicate SavesRow(a: Action) { a.Register? || a.SaveExecuted? }

  ghost predicate SaveMissesNoVote(s: State, a: Action) {
    SavesRow(a) ==> Undisturbed(s, a.h)
  }

  ghost predicate StaysConserved(s: State, a: Action) {
    Possible(s, a) ==> Conserved(Apply(s, a))
  }

  lemma {:induction false} CountGrows(votes: seq<Vote>, k: nat, id: int)
    requires k <= |votes|
    ensures Count(votes[..k], id, true) <= Count(votes, id, true) &&
      Count(votes[..k], id, false) <= Count(votes, id, false)
    ensures (forall i :: k <= i < |votes| ==> votes[i].proposal != id) <==>
      (Count(votes[..k], id, true) == Count(votes, id, true) && Count(votes[..k], id, false) == Count(votes, id, false))
    decreases |votes|
  {
    if k == |votes| {
      assert votes[..k] == votes;
    } else {
      var before := votes[..|votes| - 1];
      assert before[..k] == votes[..k];
      CountGrows(before, k, id);
      assert forall i :: k <= i < |before| ==> before[i] == votes[i];
    }
  }

  lemma {:induction false} NoVotesNoCount(votes: seq<Vote>, id: int, support: bool)
    requires forall i :: 0 <= i < |votes| ==> votes[i].proposal != id
    ensures Count(votes, id, support) == 0
  {
    if votes != [] {
      NoVotesNoCount(votes[..|votes| - 1], id, support);
    }
  }

  // What every reachable state keeps while all saves miss no vote.
  ghost predicate Balanced(s: State) {
    Grounded(s) && Conserved(s) && HeldConserved(s)
  }

  lemma RecordingBalances(s: State, v: Vote)
    requires Balanced(s) && v.proposal in s.proposals && !HasVote(s.votes, v.proposal, v.wallet)
    ensures Balanced(Recorded(s, v))
  {
    var t := Recorded(s, v);
    assert t.votes[..|s.votes|] == s.votes;
    forall id | id in t.proposals ensures TalliesAre(t.proposals[id], t.votes, id) {
      assert TalliesAre(s.proposals[id], s.votes, id);
    }
    forall h | h in t.held
      ensures h.id in t.proposals && 0 <= h.seen <= |t.votes| && TalliesAre(h.row, t.votes[..h.seen], h.id)
    {
      assert t.votes[..h.seen] == s.votes[..h.seen];
    }
  }

  // A step that changes neither votes nor counters, and holds nothing new.
  lemma SameTalliesBalance(s: State, t: State)
    requires Balanced(s) && t.votes == s.votes && t.proposals.Keys == s.proposals.Keys && t.held <= s.held
    requires forall id :: id in s.proposals ==>
      t.proposals[id].votesFor == s.proposals[id].votesFor &&
        t.proposals[id].votesAgainst == s.proposals[id].votesAgainst
    ensures Balanced(t)
  {
    forall id | id in t.proposals ensures TalliesAre(t.proposals[id], t.votes, id) {
      assert TalliesAre(s.proposals[id], s.votes, id);
    }
    assert forall h :: h in t.held ==> h in s.held;
  }

  lemma HoldingBalances(s: State, id: int, purpose: Purpose)
    requires Balanced(s) && id in s.proposals
    ensures Balanced(Hold(s, id, purpose))
  {
    assert s.votes[..|s.votes|] == s.votes;
    assert TalliesAre(s.proposals[id], s.votes, id);
  }

  lemma CreatingBalances(s: State, id: int, deadline: int)
    requires Balanced(s) && id !in s.proposals
    ensures Balanced(Apply(s, Create(id, deadline)))
  {
    NoVotesNoCount(s.votes, id, true);
    NoVotesNoCount(s.votes, id, false);
    var t := s.(proposals := s.proposals[id := Proposal(0, 0, ACTIVE, deadline, None)]);
    forall k | k in t.proposals ensures TalliesAre(t.proposals[k], t.votes, k) {
      assert k in s.proposals ==> TalliesAre(s.proposals[k], s.votes, k);
    }
    HoldingBalances(t, id, Creating);
  }

  lemma VotingBalances(s: State, a: Action)
    requires Balanced(s) && Possible(s, a) && (a.CastVote? || a.IndexVote?)
    ensures Balanced(Apply(s, a))
  {
    match a
    case CastVote(v, now, _, _) =>
      if VoteAnswer(s, v, now) == Accepted {
        RecordingBalances(s, v);
        SameTalliesBalance(Recorded(s, v), Apply(s, a));
      }
    case IndexVote(v) =>
      if !HasVote(s.votes, v.proposal, v.wallet) {
        RecordingBalances(s, v);
      }
  }

  lemma LoadingBalances(s: State, a: Action)
    requires Balanced(s) && Possible(s, a) && (a.BeginExecute? || a.FindExecuted?)
    ensures Balanced(Apply(s, a))
  {
    if a.BeginExecute? {
      HoldingBalances(s, a.id, Executing);
      SameTalliesBalance(Hold(s, a.id, Executing), Apply(s, a));
    } else {
      HoldingBalances(s, a.id, Indexing(a.ledgerId));
    }
  }

  lemma OtherStepBalances(s: State, a: Action)
    requires Balanced(s) && Possible(s, a) && !SavesRow(a)
    ensures Balanced(Apply(s, a))
  {
    if a.Create? {
      CreatingBalances(s, a.id, a.deadline);
    } else if a.CastVote? || a.IndexVote? {
      VotingBalances(s, a);
    } else if a.BeginExecute? || a.FindExecuted? {
      LoadingBalances(s, a);
    } else {
      SameTalliesBalance(s, Apply(s, a));
    }
  }

  // A whole-row save keeps the tallies right exactly when nobody has voted on
  // the proposal since the row was loaded.
  lemma SaveBalancesIff(s: State, a: Action)
    requires Balanced(s) && Possible(s, a) && SavesRow(a)
    ensures Conserved(Apply(s, a)) <==> Undisturbed(s, a.h)
    ensures Conserved(Apply(s, a)) ==> Balanced(Apply(s, a))
  {
    var t, h := Apply(s, a), a.h;
    CountGrows(s.votes, h.seen, h.id);
    assert TalliesAre(h.row, s.votes[..h.seen], h.id);
    assert TalliesAre(t.proposals[h.id], s.votes, h.id) <==> Undisturbed(s, h);
    forall id | id in t.proposals && id != h.id ensures TalliesAre(t.proposals[id], t.votes, id) {
      assert TalliesAre(s.proposals[id], s.votes, id);
    }
    forall k | k in t.held
      ensures k.id in t.proposals && 0 <= k.seen <= |t.votes| && TalliesAre(k.row, t.votes[..k.seen], k.id)
    {
      assert k in s.held || (k.id == h.id && k.seen == h.seen);
    }
  }

  lemma {:induction false} ConservedIff(s: State, run: seq<Action>)
    requires Balanced(s) && Legal(s, run)
    ensures Throughout(s, run, StaysConserved) <==> Throughout(s, run, SaveMissesNoVote)
    ensures Throughout(s, run, SaveMissesNoVote) ==> Balanced(Exec(s, run))
    decreases |run|
  {
    if run != [] {
      var t := Apply(s, run[0]);
      if SavesRow(run[0]) {
        SaveBalancesIff(s, run[0]);
      } else {
        OtherStepBalances(s, run[0]);
      }
      if Balanced(t) {
        ConservedIff(t, run[1..]);
      }
    }
  }

  // Over every run of API calls and indexed events: the tallies equal the vote
  // rows per support value in every state iff no whole-row save follows a vote
  // on its proposal that came after the load.
  lemma TalliesAreConservedIff(run: seq<Action>)
    requires Legal(INITIAL, run)
    ensures Throughout(INITIAL, run, StaysConserved) <==> Throughout(INITIAL, run, SaveMissesNoVote)
  {
    ConservedIff(INITIAL, run);
  }

  // ── Quorum over the vote rows ────────────────────────────────────────────

  // Who has voted on a proposal.
  function Voters(votes: seq<Vote>, proposal: int): set<int> {
    set i | 0 <= i < |votes| && votes[i].proposal == proposal :: votes[i].wallet
  }

  lemma {:induction false} VotersAreCounted(votes: seq<Vote>, id: int)
    requires OneVoteEach(votes)
    ensures |Voters(votes, id)| == Count(votes, id, true) + Count(votes, id, false)
  {
    if votes != [] {
      var n := |votes| - 1;
      VotersAreCounted(votes[..n], id);
      OneVoterMore(votes, id);
    }
  }

  lemma OneVoterMore(votes: seq<Vote>, id: int)
    requires OneVoteEach(votes) && votes != []
    ensures var last, before := votes[|votes| - 1], Voters(votes[..|votes| - 1], id);
      if last.proposal == id then last.wallet !in before && Voters(votes, id) == before + {last.wallet}
      else Voters(votes, id) == before
  {
    var n := |votes| - 1;
    forall w ensures w in Voters(votes, id) <==>
      w in Voters(votes[..n], id) || (votes[n].proposal == id && w == votes[n].wallet) {
      if i :| 0 <= i < |votes| && votes[i].proposal == id && votes[i].wallet == w {
        assert i < n ==> votes[..n][i] == votes[i];
      }
      if i :| 0 <= i < n && votes[..n][i].proposal == id && votes[..n][i].wallet == w {
        assert votes[i] == votes[..n][i];
      }
    }
  }

  // The threshold in both modes.
  predicate Enough(turnout: int, config: Config, eligible: int) {
    if config.quorumBasisPoints > 0 && eligible > 0 then eligible * config.quorumBasisPoints <= turnout * 10000
    else config.quorum <= turnout
  }

  // In a run whose saves miss no vote a proposal has its quorum iff enough
  // wallets have voted on it, whichever way.
  lemma QuorumCountsVoters(run: seq<Action>, id: int, config: Config, eligible: int)
    requires Legal(INITIAL, run) && Throughout(INITIAL, run, SaveMissesNoVote) && id in Exec(INITIAL, run).proposals
    ensures var s := Exec(INITIAL, run);
      var p := s.proposals[id];
      EvaluateQuorum(p.votesFor, p.votesAgainst, config, eligible).met <==>
      Enough(|Voters(s.votes, id)|, config, eligible)
  {
    ConservedIff(INITIAL, run);
    var s := Exec(INITIAL, run);
    VotersAreCounted(s.votes, id);
    assert TalliesAre(s.proposals[id], s.votes, id);
  }

  // ── What holds without any condition ─────────────────────────────────────

  predicate AtMostCounted(p: Proposal, votes: seq<Vote>, id: int) {
    p.votesFor <= Count(votes, id, true) && p.votesAgainst <= Count(votes, id, false)
  }

  ghost predicate NeverAbove(s: State) {
    && (forall id :: id in s.proposals ==> AtMostCounted(s.proposals[id], s.votes, id))
    && (forall h :: h in s.held ==> h.id in s.proposals && AtMostCounted(h.row, s.votes, h.id))
  }

  lemma RecordingStaysBelow(s: State, v: Vote)
    requires Grounded(s) && NeverAbove(s) && v.proposal in s.proposals && !HasVote(s.votes, v.proposal, v.wallet)
    ensures Grounded(Recorded(s, v)) && NeverAbove(Recorded(s, v))
  {
    var t := Recorded(s, v);
    assert t.votes[..|s.votes|] == s.votes;
    forall id | id in t.proposals ensures AtMostCounted(t.proposals[id], t.votes, id) {
      assert AtMostCounted(s.proposals[id], s.votes, id);
    }
    forall h | h in t.held ensures h.id in t.proposals && AtMostCounted(h.row, t.votes, h.id) {
      assert AtMostCounted(h.row, s.votes, h.id);
    }
  }

  lemma CreatingStaysBelow(s: State, id: int, deadline: int)
    requires Grounded(s) && NeverAbove(s) && id !in s.proposals
    ensures Grounded(Apply(s, Create(id, deadline))) && NeverAbove(Apply(s, Create(id, deadline)))
  {
    var t := Apply(s, Create(id, deadline));
    NoVotesNoCount(s.votes, id, true);
    NoVotesNoCount(s.votes, id, false);
    forall k | k in t.proposals ensures AtMostCounted(t.proposals[k], t.votes, k) {
      assert k in s.proposals ==> AtMostCounted(s.proposals[k], s.votes, k);
    }
  }

  lemma VotingStaysBelow(s: State, a: Action)
    requires Grounded(s) && NeverAbove(s) && Possible(s, a) && (a.CastVote? || a.IndexVote?)
    ensures Grounded(Apply(s, a)) && NeverAbove(Apply(s, a))
  {
    if a.CastVote? && VoteAnswer(s, a.v, a.now) == Accepted {
      RecordingStaysBelow(s, a.v);
      assert AtMostCounted(Recorded(s, a.v).proposals[a.v.proposal], Recorded(s, a.v).votes, a.v.proposal);
    } else if a.IndexVote? && !HasVote(s.votes, a.v.proposal, a.v.wallet) {
      RecordingStaysBelow(s, a.v);
    }
  }

  lemma SavingStaysBelow(s: State, a: Action)
    requires Grounded(s) && NeverAbove(s) && Possible(s, a) && SavesRow(a)
    ensures Grounded(Apply(s, a)) && NeverAbove(Apply(s, a))
  {
    var t := Apply(s, a);
    assert AtMostCounted(a.h.row, s.votes, a.h.id);
    forall h | h in t.held ensures h.id in t.proposals && AtMostCounted(h.row, t.votes, h.id) {
      HeldAfterSave(s, a, h);
      assert h in s.held ==> AtMostCounted(h.row, s.votes, h.id);
    }
    forall id | id in t.proposals ensures AtMostCounted(t.proposals[id], t.votes, id) {
      assert id != a.h.id ==> AtMostCounted(s.proposals[id], s.votes, id);
    }
  }

  lemma HeldAfterSave(s: State, a: Action, h: Held)
    requires Possible(s, a) && SavesRow(a) && h in Apply(s, a).held
    ensures h in s.held ||
      (h.id == a.h.id && h.row.votesFor == a.h.row.votesFor && h.row.votesAgainst == a.h.row.votesAgainst)
  {
  }

  lemma OtherStepStaysBelow(s: State, a: Action)
    requires Grounded(s) && NeverAbove(s) && Possible(s, a)
    requires !SavesRow(a) && !a.Create? && !a.CastVote? && !a.IndexVote?
    ensures Grounded(Apply(s, a)) && NeverAbove(Apply(s, a))
  {
    var t := Apply(s, a);
    forall id | id in t.proposals ensures AtMostCounted(t.proposals[id], t.votes, id) {
      assert AtMostCounted(s.proposals[id], s.votes, id);
    }
  }

  lemma StepStaysBelow(s: State, a: Action)
    requires Grounded(s) && NeverAbove(s) && Possible(s, a)
    ensures Grounded(Apply(s, a)) && NeverAbove(Apply(s, a))
  {
    if a.Create? {
      CreatingStaysBelow(s, a.id, a.deadline);
    } else if a.CastVote? || a.IndexVote? {
      VotingStaysBelow(s, a);
    } else if SavesRow(a) {
      SavingStaysBelow(s, a);
    } else {
      OtherStepStaysBelow(s, a);
    }
  }

  lemma {:induction false} RunStaysBelow(s: State, run: seq<Action>)
    requires Grounded(s) && NeverAbove(s) && Legal(s, run)
    ensures Grounded(Exec(s, run)) && NeverAbove(Exec(s, run))
    decreases |run|
  {
    if run != [] {
      StepStaysBelow(s, run[0]);
      RunStaysBelow(Apply(s, run[0]), run[1..]);
    }
  }

  // Over every run, stale saves included: no wallet has two rows for a
  // proposal, and no tally exceeds the rows.
  lemma VotesAreNeverOvercounted(run: seq<Action>)
    requires Legal(INITIAL, run)
    ensures OneVoteEach(Exec(INITIAL, run).votes) && NeverAbove(Exec(INITIAL, run))
  {
    RunStaysBelow(INITIAL, run);
  }
}
