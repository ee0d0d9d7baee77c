// The indexer's vote_cast handler. Nothing makes on-chain ids unique, and the
// handler takes any row that carries the id of the event: what delivering an
// event again does, and exactly when it does nothing.
module GovernanceDelivery {
  import opened Basics
  import opened Governance

  datatype VoteCast = VoteCast(onChainId: int, wallet: int, support: bool)

  ghost predicate IsFor(s: State, e: VoteCast, id: int) { Matches(s.proposals, e.onChainId, id) }

  function VoteOn(e: VoteCast, id: int): Vote { Vote(id, e.wallet, e.support) }

  // The insert and the increment, on the row found.
  ghost function DeliverTo(s: State, e: VoteCast, id: int): State
    requires id in s.proposals
  {
    if HasVote(s.votes, id, e.wallet) then s else Recorded(s, VoteOn(e, id))
  }

  // A delivery of `e` in s can end in t.
  ghost predicate Delivers(s: State, e: VoteCast, t: State) {
    || (t == s && !exists id :: IsFor(s, e, id))
    || exists id :: IsFor(s, e, id) && t == DeliverTo(s, e, id)
  }

  ghost predicate DeliversAll(s: State, events: seq<VoteCast>, t: State)
    decreases |events|
  {
    if events == [] then t == s else exists u :: Delivers(s, events[0], u) && DeliversAll(u, events[1..], t)
  }

  // Every row the event may go to has the vote.
  ghost predicate Processed(s: State, e: VoteCast) {
    forall id :: IsFor(s, e, id) ==> HasVote(s.votes, id, e.wallet)
  }

  ghost predicate AllProcessed(s: State, events: seq<VoteCast>) {
    forall f :: f in events ==> Processed(s, f)
  }

  ghost predicate NamesOne(s: State, e: VoteCast) {
    forall a, b :: IsFor(s, e, a) && IsFor(s, e, b) ==> a == b
  }

  // ── One event ────────────────────────────────────────────────────────────

  lemma HasVoteGrows(votes: seq<Vote>, v: Vote)
    ensures forall p, w :: HasVote(votes + [v], p, w) <==> HasVote(votes, p, w) || (p == v.proposal && w == v.wallet)
  {
    assert (votes + [v])[|votes|] == v;
    forall p, w | HasVote(votes, p, w) ensures HasVote(votes + [v], p, w) {
      var i :| 0 <= i < |votes| && votes[i].proposal == p && votes[i].wallet == w;
      assert (votes + [v])[i] == votes[i];
    }
  }

  // Nothing but the vote of `e` on that row is new.
  lemma DeliveryAdds(s: State, e: VoteCast, id: int)
    requires IsFor(s, e, id)
    ensures var t := DeliverTo(s, e, id);
      && (forall f, k :: IsFor(t, f, k) <==> IsFor(s, f, k))
      && (forall p, w :: HasVote(t.votes, p, w) <==> HasVote(s.votes, p, w) || (p == id && w == e.wallet))
      && |s.votes| <= |t.votes| && (t == s <==> HasVote(s.votes, id, e.wallet))
  {
    HasVoteGrows(s.votes, VoteOn(e, id));
  }

  lemma DeliveryGrows(s: State, e: VoteCast, t: State)
    requires Delivers(s, e, t)
    ensures |s.votes| <= |t.votes| && forall f, k :: IsFor(t, f, k) <==> IsFor(s, f, k)
    ensures forall p, w :: HasVote(s.votes, p, w) ==> HasVote(t.votes, p, w)
    ensures t != s ==> |s.votes| < |t.votes|
  {
    if t != s {
      var id :| IsFor(s, e, id) && t == DeliverTo(s, e, id);
      DeliveryAdds(s, e, id);
    }
  }

  lemma Delivered(s: State, e: VoteCast) returns (t: State)
    ensures Delivers(s, e, t)
  {
    if id :| IsFor(s, e, id) {
      t := DeliverTo(s, e, id);
    } else {
      t := s;
    }
  }

  // Delivering an event changes nothing, whichever row is found, iff every row
  // it may go to has the vote.
  lemma DeliveryIsNoOpIff(s: State, e: VoteCast)
    ensures (forall t :: Delivers(s, e, t) ==> t == s) <==> Processed(s, e)
  {
    if Processed(s, e) {
      forall t | Delivers(s, e, t) ensures t == s {
        if id :| IsFor(s, e, id) && t == DeliverTo(s, e, id) {
          DeliveryAdds(s, e, id);
        }
      }
    } else {
      var t := SomethingNew(s, e);
      assert Delivers(s, e, t) && t != s;
    }
  }

  lemma SomethingNew(s: State, e: VoteCast) returns (t: State)
    requires !Processed(s, e)
    ensures Delivers(s, e, t) && |s.votes| < |t.votes|
  {
    var id :| IsFor(s, e, id) && !HasVote(s.votes, id, e.wallet);
    t := DeliverTo(s, e, id);
  }

  // No row but `id` lacks the vote.
  ghost predicate OthersHaveIt(s: State, e: VoteCast, id: int) {
    forall k :: IsFor(s, e, k) && k != id ==> HasVote(s.votes, k, e.wallet)
  }

  ghost predicate Lacks(s: State, e: VoteCast, id: int) { IsFor(s, e, id) && !HasVote(s.votes, id, e.wallet) }

  lemma DeliveryProcessesIff(s: State, e: VoteCast, id: int)
    requires IsFor(s, e, id)
    ensures Processed(DeliverTo(s, e, id), e) <==> OthersHaveIt(s, e, id)
  {
    DeliveryAdds(s, e, id);
  }

  // Afterwards every such row has the vote, whichever is found, iff there is
  // but one or all have it already.
  lemma EveryDeliveryProcessesIff(s: State, e: VoteCast)
    ensures (forall t :: Delivers(s, e, t) ==> Processed(t, e)) <==> (NamesOne(s, e) || Processed(s, e))
  {
    if NamesOne(s, e) || Processed(s, e) {
      forall t | Delivers(s, e, t) ensures Processed(t, e) {
        if id :| IsFor(s, e, id) && t == DeliverTo(s, e, id) {
          DeliveryProcessesIff(s, e, id);
        }
      }
    } else {
      var id :| IsFor(s, e, id) && !HasVote(s.votes, id, e.wallet);
      var a, b :| IsFor(s, e, a) && IsFor(s, e, b) && a != b;
      var other := if a != id then a else b;
      DeliveryProcessesIff(s, e, other);
      assert !OthersHaveIt(s, e, other);
      assert Delivers(s, e, DeliverTo(s, e, other)) && !Processed(DeliverTo(s, e, other), e);
    }
  }

  // And for some choice of the row iff at most one lacks the vote.
  lemma SomeDeliveryProcessesIff(s: State, e: VoteCast)
    ensures (exists t :: Delivers(s, e, t) && Processed(t, e)) <==>
      forall a, b :: Lacks(s, e, a) && Lacks(s, e, b) ==> a == b
  {
    if t :| Delivers(s, e, t) && Processed(t, e) {
      if id :| IsFor(s, e, id) && t == DeliverTo(s, e, id) {
        DeliveryProcessesIff(s, e, id);
        assert forall k :: Lacks(s, e, k) ==> k == id;
      }
    }
    if forall a, b :: Lacks(s, e, a) && Lacks(s, e, b) ==> a == b {
      var t := OneLacking(s, e);
      assert Delivers(s, e, t) && Processed(t, e);
    }
  }

  lemma OneLacking(s: State, e: VoteCast) returns (t: State)
    requires forall a, b :: Lacks(s, e, a) && Lacks(s, e, b) ==> a == b
    ensures Delivers(s, e, t) && Processed(t, e)
  {
    if id :| Lacks(s, e, id) {
      t := DeliverTo(s, e, id);
      DeliveryProcessesIff(s, e, id);
      forall k | IsFor(s, e, k) && k != id ensures HasVote(s.votes, k, e.wallet) {
        assert !Lacks(s, e, k);
      }
    } else {
      t := Delivered(s, e);
      DeliveryGrows(s, e, t);
      forall k | IsFor(t, e, k) ensures HasVote(t.votes, k, e.wallet) {
        assert !Lacks(s, e, k);
      }
    }
  }

  // ── Pages of events ──────────────────────────────────────────────────────

  lemma {:induction false} SomehowDelivered(s: State, events: seq<VoteCast>) returns (t: State)
    ensures DeliversAll(s, events, t) && |s.votes| <= |t.votes|
    decreases |events|
  {
    if events == [] {
      t := s;
    } else {
      var u := Delivered(s, events[0]);
      DeliveryGrows(s, events[0], u);
      t := SomehowDelivered(u, events[1..]);
    }
  }

  lemma {:induction false} ProcessedStayPut(s: State, again: seq<VoteCast>, t: State)
    requires AllProcessed(s, again) && DeliversAll(s, again, t)
    ensures t == s
    decreases |again|
  {
    if again != [] {
      var u :| Delivers(s, again[0], u) && DeliversAll(u, again[1..], t);
      assert again[0] in again;
      DeliveryIsNoOpIff(s, again[0]);
      ProcessedStayPut(s, again[1..], t);
    }
  }

  lemma {:induction false} OtherwiseSomethingHappens(s: State, again: seq<VoteCast>) returns (t: State)
    requires !AllProcessed(s, again)
    ensures DeliversAll(s, again, t) && t != s
    decreases |again|
  {
    if Processed(s, again[0]) {
      var u := Delivered(s, again[0]);
      DeliveryIsNoOpIff(s, again[0]);
      assert forall f :: f in again ==> f == again[0] || f in again[1..];
      t := OtherwiseSomethingHappens(s, again[1..]);
    } else {
      var u := SomethingNew(s, again[0]);
      t := SomehowDelivered(u, again[1..]);
    }
  }

  // Delivering a page changes nothing, whichever rows are found, iff all its
  // events are processed.
  lemma RedeliveryIsNoOpIff(s: State, again: seq<VoteCast>)
    ensures (forall t :: DeliversAll(s, again, t) ==> t == s) <==> AllProcessed(s, again)
  {
    if AllProcessed(s, again) {
      forall t | DeliversAll(s, again, t) ensures t == s {
        ProcessedStayPut(s, again, t);
      }
    } else {
      var t := OtherwiseSomethingHappens(s, again);
      assert DeliversAll(s, again, t) && t != s;
    }
  }

  lemma {:induction false} PageProcesses(s: State, page: seq<VoteCast>, t: State, f: VoteCast)
    requires DeliversAll(s, page, t)
    requires Processed(s, f) || (f in page && NamesOne(s, f))
    ensures Processed(t, f)
    decreases |page|
  {
    if page != [] {
      var u :| Delivers(s, page[0], u) && DeliversAll(u, page[1..], t);
      DeliveryGrows(s, page[0], u);
      if page[0] == f {
        EveryDeliveryProcessesIff(s, f);
      }
      PageProcesses(u, page[1..], t, f);
    }
  }

  // Whoever finds `other` for the events of `e` never votes on `left`.
  lemma {:induction false} PageLeavesOut(s: State, page: seq<VoteCast>, e: VoteCast, left: int, other: int)
    returns (t: State)
    requires IsFor(s, e, left) && IsFor(s, e, other) && left != other && !HasVote(s.votes, left, e.wallet)
    ensures DeliversAll(s, page, t) && IsFor(t, e, left) && !HasVote(t.votes, left, e.wallet)
    decreases |page|
  {
    if page == [] {
      t := s;
    } else {
      var u;
      if page[0].onChainId == e.onChainId {
        assert IsFor(s, page[0], other);
        u := DeliverTo(s, page[0], other);
        DeliveryAdds(s, page[0], other);
      } else {
        u := Delivered(s, page[0]);
        if u != s {
          var id :| IsFor(s, page[0], id) && u == DeliverTo(s, page[0], id);
          DeliveryAdds(s, page[0], id);
        }
      }
      assert Delivers(s, page[0], u);
      DeliveryGrows(s, page[0], u);
      t := PageLeavesOut(u, page[1..], e, left, other);
    }
  }

  ghost predicate Harmless(s: State, first: seq<VoteCast>, again: seq<VoteCast>) {
    forall t, u :: DeliversAll(s, first, t) && DeliversAll(t, again, u) ==> u == t
  }

  predicate Repeats(first: seq<VoteCast>, again: seq<VoteCast>) { forall f :: f in again ==> f in first }

  // Delivering again, in any order and number, what an earlier page held
  // changes nothing, whichever rows are found, iff each such event names one
  // proposal or was processed before.
  lemma OverlapIsHarmlessIff(s: State, first: seq<VoteCast>, again: seq<VoteCast>)
    requires Repeats(first, again)
    ensures Harmless(s, first, again) <==> forall f :: f in again ==> NamesOne(s, f) || Processed(s, f)
  {
    if f :| f in again && !NamesOne(s, f) && !Processed(s, f) {
      AmbiguousIsHarmful(s, first, again, f);
    } else {
      forall t, u | DeliversAll(s, first, t) && DeliversAll(t, again, u) ensures u == t {
        forall f | f in again ensures Processed(t, f) {
          PageProcesses(s, first, t, f);
        }
        ProcessedStayPut(t, again, u);
      }
    }
  }

  lemma AmbiguousIsHarmful(s: State, first: seq<VoteCast>, again: seq<VoteCast>, f: VoteCast)
    requires f in again && !NamesOne(s, f) && !Processed(s, f)
    ensures !Harmless(s, first, again)
  {
    var left :| IsFor(s, f, left) && !HasVote(s.votes, left, f.wallet);
    var a, b :| IsFor(s, f, a) && IsFor(s, f, b) && a != b;
    var t := PageLeavesOut(s, first, f, left, if a != left then a else b);
    assert !Processed(t, f);
    var u := OtherwiseSomethingHappens(t, again);
  }

  // ── Two proposals with one on-chain id ───────────────────────────────────

  const NEW := Proposal(0, 0, ACTIVE, 0, None)
  const KNOWN := Proposal(0, 0, ACTIVE, 0, Some(5))
  const VOTED := Proposal(1, 0, ACTIVE, 0, Some(5))
  const EVENT := VoteCast(5, 7, true)

  function TwoRegistrations(): seq<Action> {
    [Create(1, 0), Create(2, 0), Register(Held(1, NEW, Creating, 0), 5), Register(Held(2, NEW, Creating, 0), 5)]
  }

  lemma OneStepFirst(s: State, a: Action, t: State, run: seq<Action>, u: State)
    requires Possible(s, a) && Apply(s, a) == t && Legal(t, run) && Exec(t, run) == u
    ensures Legal(s, [a] + run) && Exec(s, [a] + run) == u
  {
    assert ([a] + run)[1..] == run;
  }

  lemma OneIdTwice() returns (s: State)
    ensures Legal(INITIAL, TwoRegistrations()) && s == Exec(INITIAL, TwoRegistrations())
    ensures s == State(map[1 := KNOWN, 2 := KNOWN], [], multiset{}, {})
  {
    var h1, h2 := Held(1, NEW, Creating, 0), Held(2, NEW, Creating, 0);
    var s2 := State(map[1 := NEW, 2 := NEW], [], multiset{h1, h2}, {});
    s := RegistersBoth(s2, h1, h2);
    var s1 := State(map[1 := NEW], [], multiset{h1}, {});
    OneStepFirst(s1, Create(2, 0), s2, [Register(h1, 5), Register(h2, 5)], s);
    OneStepFirst(INITIAL, Create(1, 0), s1, [Create(2, 0)] + [Register(h1, 5), Register(h2, 5)], s);
    assert [Create(1, 0)] + ([Create(2, 0)] + [Register(h1, 5), Register(h2, 5)]) == TwoRegistrations();
  }

  lemma RegistersBoth(s: State, h1: Held, h2: Held) returns (t: State)
    requires h1 == Held(1, NEW, Creating, 0) && h2 == Held(2, NEW, Creating, 0)
    requires s == State(map[1 := NEW, 2 := NEW], [], multiset{h1, h2}, {})
    ensures Legal(s, [Register(h1, 5), Register(h2, 5)]) && t == Exec(s, [Register(h1, 5), Register(h2, 5)])
    ensures t == State(map[1 := KNOWN, 2 := KNOWN], [], multiset{}, {})
  {
    var u := State(map[1 := KNOWN, 2 := NEW], [], multiset{h2}, {});
    t := State(map[1 := KNOWN, 2 := KNOWN], [], multiset{}, {});
    assert Legal(t, []) && Exec(t, []) == t;
    OneStepFirst(u, Register(h2, 5), t, [], t);
    assert [Register(h2, 5)] + [] == [Register(h2, 5)];
    OneStepFirst(s, Register(h1, 5), u, [Register(h2, 5)], t);
    assert [Register(h1, 5)] + [Register(h2, 5)] == [Register(h1, 5), Register(h2, 5)];
  }

  // A reachable state in which one event, delivered twice, is counted on two
  // proposals.
  lemma RedeliveryCountsTwice() returns (s: State, t: State)
    ensures Legal(INITIAL, TwoRegistrations()) && s == Exec(INITIAL, TwoRegistrations())
    ensures DeliversAll(s, [EVENT, EVENT], t) && t.proposals == map[1 := VOTED, 2 := VOTED]
  {
    s := OneIdTwice();
    var u := FirstIsCounted(s);
    t := SecondIsCounted(u);
    assert [EVENT, EVENT][1..] == [EVENT];
  }

  lemma FirstIsCounted(s: State) returns (u: State)
    requires s == State(map[1 := KNOWN, 2 := KNOWN], [], multiset{}, {})
    ensures u == State(map[1 := VOTED, 2 := KNOWN], [Vote(1, 7, true)], multiset{}, {}) && Delivers(s, EVENT, u)
  {
    u := State(map[1 := VOTED, 2 := KNOWN], [Vote(1, 7, true)], multiset{}, {});
    assert IsFor(s, EVENT, 1) && DeliverTo(s, EVENT, 1) == u;
  }

  lemma SecondIsCounted(u: State) returns (t: State)
    requires u == State(map[1 := VOTED, 2 := KNOWN], [Vote(1, 7, true)], multiset{}, {})
    ensures DeliversAll(u, [EVENT], t) && t.proposals == map[1 := VOTED, 2 := VOTED]
  {
    t := State(map[1 := VOTED, 2 := VOTED], [Vote(1, 7, true), Vote(2, 7, true)], multiset{}, {});
    assert IsFor(u, EVENT, 2) && DeliverTo(u, EVENT, 2) == t;
    assert Delivers(u, EVENT, t) && [EVENT][1..] == [] && DeliversAll(t, [], t);
  }
}
