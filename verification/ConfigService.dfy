// The configuration calls of the governance service and its scheduler pass as
// code over the same tables. Between a load and the save that follows it
// anybody else may act.
module ConfigService {
  import opened Basics
  import opened ConfigTimelock

  // ── Specification of one scheduler pass ──────────────────────────────────

  // The due changes in effectiveAt order.
  ghost predicate DueList(changes: map<int, Change>, now: int, due: seq<int>) {
    && (forall i :: 0 <= i < |due| ==> due[i] in changes && IsDue(changes[due[i]], now))
    && (forall id :: id in changes && IsDue(changes[id], now) ==> id in due)
    && (forall i, k :: 0 <= i < k < |due| ==>
         due[i] != due[k] && changes[due[i]].effectiveAt <= changes[due[k]].effectiveAt)
  }

  // How applySingleChange ends: somebody else had decided the change, or its
  // transaction committed, or was rolled back.
  datatype Outcome = Skipped | Applied | Failed

  function ApplyScript(id: int, outcome: Outcome): seq<Action> {
    match outcome
    case Skipped => [Skip(id)]
    case Applied => [BeginApply(id), SaveConfig(id)]
    case Failed => [BeginApply(id), RollBack(id)]
  }

  // The transactions of a pass, one after the other.
  function PassScript(due: seq<int>, outcomes: seq<Outcome>): seq<Action>
    requires |outcomes| <= |due|
  {
    if outcomes == [] then [] else
      var n := |outcomes| - 1;
      PassScript(due, outcomes[..n]) + ApplyScript(due[n], outcomes[n])
  }

  // The configuration after them, when nobody else acts.
  function AfterPass(config: Values, changes: map<int, Change>, due: seq<int>, outcomes: seq<Outcome>): Values
    requires |outcomes| <= |due| && forall i :: 0 <= i < |due| ==> due[i] in changes
  {
    if outcomes == [] then config else
      var n := |outcomes| - 1;
      var before := AfterPass(config, changes, due, outcomes[..n]);
      if outcomes[n] == Applied then before + changes[due[n]].values else before
  }

  predicate Sets(changes: map<int, Change>, due: seq<int>, outcomes: seq<Outcome>, i: int, f: Field)
    requires 0 <= i < |outcomes| <= |due| && due[i] in changes
  {
    outcomes[i] == Applied && f in changes[due[i]].values
  }

  // Every field holds the value of the last applied change that names it, in
  // effectiveAt order, or what it held before.
  lemma {:induction false} LastWriterWins(config: Values, changes: map<int, Change>, due: seq<int>,
      outcomes: seq<Outcome>, f: Field)
    requires |outcomes| <= |due| && forall i :: 0 <= i < |due| ==> due[i] in changes
    ensures var after := AfterPass(config, changes, due, outcomes);
      || (exists j :: 0 <= j < |outcomes| && Sets(changes, due, outcomes, j, f)
            && f in after && after[f] == changes[due[j]].values[f]
            && forall k :: j < k < |outcomes| ==> !Sets(changes, due, outcomes, k, f))
      || ((forall k :: 0 <= k < |outcomes| ==> !Sets(changes, due, outcomes, k, f))
            && (f in after <==> f in config) && (f in config ==> after[f] == config[f]))
    decreases |outcomes|
  {
    if outcomes != [] {
      var n := |outcomes| - 1;
      LastWriterWins(config, changes, due, outcomes[..n], f);
      assert forall k :: 0 <= k < n ==> Sets(changes, due, outcomes[..n], k, f) == Sets(changes, due, outcomes, k, f);
    }
  }

  // ── A pass with nobody else ──────────────────────────────────────────────

  predicate NoneSkipped(outcomes: seq<Outcome>) {
    forall i :: 0 <= i < |outcomes| ==> outcomes[i] != Skipped
  }

  function MarkedIf(applied: bool, c: Change): Change {
    if applied then c.(status := APPLIED) else c
  }

  // `id` is one of the changes applied.
  predicate AppliedIn(due: seq<int>, outcomes: seq<Outcome>, id: int)
    requires |outcomes| <= |due|
  {
    exists i :: 0 <= i < |outcomes| && due[i] == id && outcomes[i] == Applied
  }

  // t is s after the transactions with these outcomes.
  ghost predicate Passed(s: State, t: State, due: seq<int>, outcomes: seq<Outcome>)
    requires |outcomes| <= |due| && forall i :: 0 <= i < |due| ==> due[i] in s.changes
  {
    && t.config == AfterPass(s.config, s.changes, due, outcomes)
    && t.changes.Keys == s.changes.Keys && t.writing == s.writing
    && (forall i :: 0 <= i < |due| ==> due[i] in t.due)
    && (forall id :: id in s.changes ==> t.changes[id] == MarkedIf(AppliedIn(due, outcomes, id), s.changes[id]))
  }

  // A step of a run, and whether the call being followed takes it.
  datatype Step = Step(mine: bool, a: Action)

  function Actions(steps: seq<Step>): seq<Action> {
    if steps == [] then [] else Actions(steps[..|steps| - 1]) + [steps[|steps| - 1].a]
  }

  function Own(steps: seq<Step>): seq<Action> {
    if steps == [] then [] else
      var last := steps[|steps| - 1];
      Own(steps[..|steps| - 1]) + if last.mine then [last.a] else []
  }

  ghost predicate Leads(s: State, steps: seq<Step>, t: State) {
    Legal(s, Actions(steps)) && Exec(s, Actions(steps)) == t
  }

  // A run from s to t in which the call's own actions are `own`.
  ghost predicate ReachesWith(s: State, t: State, own: seq<Action>) {
    exists steps :: Leads(s, steps, t) && Own(steps) == own
  }

  lemma Advance(s0: State, s: State, own: seq<Action>, step: Step)
    requires ReachesWith(s0, s, own) && Possible(s, step.a)
    ensures ReachesWith(s0, Apply(s, step.a), if step.mine then own + [step.a] else own)
  {
    var steps :| Leads(s0, steps, s) && Own(steps) == own;
    var more := steps + [step];
    assert more[..|steps|] == steps;
    RunGrows(s0, Actions(steps), step.a);
    assert Leads(s0, more, Apply(s, step.a));
  }

  // One transaction on its own.
  function AfterApply(s: State, id: int, outcome: Outcome): State
    requires id in s.changes
  {
    if outcome == Applied then AfterSaveConfig(s.(writing := s.writing[id := s.config]), id) else s
  }

  lemma PassedGrows(s: State, t: State, due: seq<int>, outcomes: seq<Outcome>, outcome: Outcome)
    requires DueList(s.changes, s.now, due) && |outcomes| < |due| && Passed(s, t, due, outcomes)
    requires due[|outcomes|] !in s.writing
    ensures due[|outcomes|] in t.changes && t.changes[due[|outcomes|]] == s.changes[due[|outcomes|]]
    ensures Passed(s, AfterApply(t, due[|outcomes|], outcome), due, outcomes + [outcome])
  {
    var id, more := due[|outcomes|], outcomes + [outcome];
    assert more[..|outcomes|] == outcomes;
    assert !AppliedIn(due, outcomes, id);
    forall k | k in s.changes
      ensures AppliedIn(due, more, k) <==> AppliedIn(due, outcomes, k) || (k == id && outcome == Applied)
    {
      if AppliedIn(due, outcomes, k) {
        var i :| 0 <= i < |outcomes| && due[i] == k && outcomes[i] == Applied;
        assert more[i] == Applied;
      }
      assert more[|outcomes|] == outcome;
    }
  }

  lemma TransactionRuns(s0: State, run: seq<Action>, id: int, outcome: Outcome)
    requires Legal(s0, run) && outcome != Skipped
    requires var t := Exec(s0, run);
      id in t.changes && id in t.due && id !in t.writing && t.changes[id].status == PENDING
    ensures Legal(s0, run + ApplyScript(id, outcome)) &&
      Exec(s0, run + ApplyScript(id, outcome)) == AfterApply(Exec(s0, run), id, outcome)
  {
    var last := if outcome == Applied then SaveConfig(id) else RollBack(id);
    var t := Exec(s0, run);
    RunGrows(s0, run, BeginApply(id));
    RunGrows(s0, run + [BeginApply(id)], last);
    assert run + [BeginApply(id)] + [last] == run + ApplyScript(id, outcome);
    assert t.writing[id := t.config] - {id} == t.writing;
  }

  // With no other transaction open on a due change, the transactions of a pass
  // are a run of their own, with none to be skipped: it leaves the configuration
  // of AfterPass and marks exactly the changes it applied.
  lemma {:induction false} PassIsARun(s: State, due: seq<int>, outcomes: seq<Outcome>)
    requires DueList(s.changes, s.now, due) && |outcomes| <= |due| && NoneSkipped(outcomes)
    requires forall i :: 0 <= i < |due| ==> due[i] !in s.writing
    ensures Legal(s, [LoadDue] + PassScript(due, outcomes))
    ensures Passed(s, Exec(s, [LoadDue] + PassScript(due, outcomes)), due, outcomes)
    decreases |outcomes|
  {
    if outcomes == [] {
      PassBegins(s, due);
    } else {
      var n := |outcomes| - 1;
      PassIsARun(s, due, outcomes[..n]);
      var before := [LoadDue] + PassScript(due, outcomes[..n]);
      PassedGrows(s, Exec(s, before), due, outcomes[..n], outcomes[n]);
      TransactionRuns(s, before, due[n], outcomes[n]);
      assert outcomes[..n] + [outcomes[n]] == outcomes;
      Associates([LoadDue], PassScript(due, outcomes[..n]), ApplyScript(due[n], outcomes[n]));
    }
  }

  lemma PassBegins(s: State, due: seq<int>)
    requires DueList(s.changes, s.now, due)
    ensures Legal(s, [LoadDue] + PassScript(due, [])) && Passed(s, Exec(s, [LoadDue] + PassScript(due, [])), due, [])
  {
    RunGrows(s, [], LoadDue);
    assert [] + [LoadDue] == [LoadDue] + PassScript(due, []);
  }

  lemma {:induction false} AloneIsOwn(steps: seq<Step>)
    requires forall i :: 0 <= i < |steps| ==> steps[i].mine
    ensures Own(steps) == Actions(steps)
  {
    if steps != [] {
      AloneIsOwn(steps[..|steps| - 1]);
    }
  }

  lemma {:induction false} LegalSplits(s: State, first: seq<Action>, second: seq<Action>)
    requires Legal(s, first + second)
    ensures Legal(s, first) && Legal(Exec(s, first), second)
    decreases |first|
  {
    if first == [] {
      assert first + second == second;
    } else {
      assert (first + second)[1..] == first[1..] + second;
      LegalSplits(Apply(s, first[0]), first[1..], second);
    }
  }

  lemma {:induction false} NoneIsSkippedAlone(s: State, due: seq<int>, outcomes: seq<Outcome>)
    requires DueList(s.changes, s.now, due) && |outcomes| <= |due|
    requires forall i :: 0 <= i < |due| ==> due[i] !in s.writing
    requires Legal(s, [LoadDue] + PassScript(due, outcomes))
    ensures NoneSkipped(outcomes)
    decreases |outcomes|
  {
    if outcomes != [] {
      var n := |outcomes| - 1;
      LastOfPass(s, due, outcomes);
      NoneIsSkippedAlone(s, due, outcomes[..n]);
      PassIsARun(s, due, outcomes[..n]);
      PendingIsNotSkipped(s, Exec(s, [LoadDue] + PassScript(due, outcomes[..n])), due, outcomes[..n], outcomes[n]);
      assert outcomes == outcomes[..n] + [outcomes[n]];
    }
  }

  lemma LastOfPass(s: State, due: seq<int>, outcomes: seq<Outcome>)
    requires 0 < |outcomes| <= |due| && Legal(s, [LoadDue] + PassScript(due, outcomes))
    ensures var n := |outcomes| - 1;
      var before := [LoadDue] + PassScript(due, outcomes[..n]);
      Legal(s, before) && Legal(Exec(s, before), ApplyScript(due[n], outcomes[n]))
  {
    var n := |outcomes| - 1;
    Associates([LoadDue], PassScript(due, outcomes[..n]), ApplyScript(due[n], outcomes[n]));
    LegalSplits(s, [LoadDue] + PassScript(due, outcomes[..n]), ApplyScript(due[n], outcomes[n]));
  }

  lemma PendingIsNotSkipped(s: State, t: State, due: seq<int>, outcomes: seq<Outcome>, outcome: Outcome)
    requires DueList(s.changes, s.now, due) && |outcomes| < |due| && due[|outcomes|] !in s.writing
    requires Passed(s, t, due, outcomes) && Legal(t, ApplyScript(due[|outcomes|], outcome))
    ensures outcome != Skipped
  {
    PassedGrows(s, t, due, outcomes, outcome);
    assert !Possible(t, Skip(due[|outcomes|]));
  }

  // So what a pass does when every step is its own: it skips none, leaves the
  // configuration of AfterPass and marks exactly the changes it applied.
  lemma {:induction false} PassAlone(s: State, steps: seq<Step>, t: State, due: seq<int>, outcomes: seq<Outcome>)
    requires DueList(s.changes, s.now, due) && |outcomes| <= |due|
    requires forall i :: 0 <= i < |due| ==> due[i] !in s.writing
    requires Leads(s, steps, t) && Own(steps) == [LoadDue] + PassScript(due, outcomes)
    requires forall i :: 0 <= i < |steps| ==> steps[i].mine
    ensures NoneSkipped(outcomes) && Passed(s, t, due, outcomes)
  {
    AloneIsOwn(steps);
    NoneIsSkippedAlone(s, due, outcomes);
    PassIsARun(s, due, outcomes);
  }

  // Changes stay in the table, and what somebody has decided stays decided.
  predicate NothingReopened(before: map<int, Change>, after: map<int, Change>) {
    forall id :: id in before ==> id in after && (before[id].status != PENDING ==> after[id].status != PENDING)
  }

  lemma {:induction false} RunReopensNothing(s: State, run: seq<Action>)
    requires Inv(s) && Legal(s, run)
    ensures NothingReopened(s.changes, Exec(s, run).changes)
    decreases |run|
  {
    if run != [] {
      StepKeepsInv(s, run[0]);
      StepReopensNothing(s, run[0]);
      RunReopensNothing(Apply(s, run[0]), run[1..]);
    }
  }

  lemma StepReopensNothing(s: State, a: Action)
    requires Inv(s) && Possible(s, a)
    ensures NothingReopened(s.changes, Apply(s, a).changes)
  {
    if a.SaveCancelled? {
      CancelKeepsInv(s, a.l);
    } else {
      forall id | id in s.changes
        ensures id in Apply(s, a).changes &&
          (s.changes[id].status != PENDING ==> Apply(s, a).changes[id].status != PENDING)
      {
        RowFollows(s, a, id);
      }
    }
  }

  lemma LockIsOfPending(s0: State, s: State, own: seq<Action>, id: int)
    requires Inv(s0) && ReachesWith(s0, s, own) && id in s.writing
    requires id in s.due || exists l :: l in s.cancelling && l.id == id
    ensures Possible(s, RollBack(id))
  {
    var steps :| Leads(s0, steps, s) && Own(steps) == own;
    RunKeepsInv(s0, Actions(steps));
    assert Good(s, id);
    if id !in s.due {
      var l :| l in s.cancelling && l.id == id;
      assert GoodCopy(s, l);
    }
  }

  // ── The service ──────────────────────────────────────────────────────────

  datatype Answer = Done | NoFields | Forbidden | NotFound | NotPending

  // What the tables do not show: the protocol's record of everybody.
  datatype Hidden = Hidden(due: set<int>, cancelling: multiset<Loaded>, writing: map<int, Values>, log: seq<Write>)

  // A change that only this call may write, with the configuration it loaded.
  datatype Mine = Mine(id: int, row: Change, base: Values)

  // The call being followed: where it started, what it did, and what only it
  // may touch.
  datatype Call = Call(start: State, own: seq<Action>, loaded: Option<Loaded>, mine: Option<Mine>)

  class ConfigService {
    var config: Values
    var changes: map<int, Change>
    var now: int
    ghost var hidden: Hidden
    ghost var call: Call

    ghost function Snapshot(): State
      reads this
    {
      State(config, changes, now, hidden.due, hidden.cancelling, hidden.writing, hidden.log)
    }

    // What nobody else takes away from the call: a row it has loaded is in its
    // memory, a change it has locked or created is left alone.
    ghost predicate Keeps()
      reads this
    {
      && (call.loaded.Some? ==> call.loaded.value in hidden.cancelling)
      && (call.mine.Some? ==>
        var m := call.mine.value;
        && m.id in changes && changes[m.id] == m.row && (m.row.status == PENDING || m.row.status == EMERGENCY)
        && m.id in hidden.writing && hidden.writing[m.id] == m.base)
    }

    ghost predicate Following()
      reads this
    {
      ReachesWith(call.start, Snapshot(), call.own) && Keeps()
    }

    constructor (config: Values, now: int)
      ensures this.config == config && this.now == now && Started(Snapshot())
    {
      this.config, this.now, changes := config, now, map[];
      hidden := Hidden({}, multiset{}, map[], []);
    }

    // Anybody else may act: a caller knows nothing more of the state afterwards.
    method Interfere()
      requires Following()
      modifies `config, `changes, `now, `hidden
      ensures Following() && NothingReopened(old(changes), changes) && old(hidden).due <= hidden.due
    {
    }

    ghost method Begin()
      modifies `call
      ensures Following() && call == Call(Snapshot(), [], None, None)
    {
      call := Call(Snapshot(), [], None, None);
      assert Leads(Snapshot(), [], Snapshot()) && Own([]) == [];
    }

    // The call takes `a`, goes on as `next`, and leaves it to its code to write
    // the tables.
    ghost method Take(a: Action, next: Call)
      requires Following() && Possible(Snapshot(), a)
      requires next.start == call.start && next.own == call.own + [a]
      modifies `hidden, `call
      ensures call == next
      ensures var t := Apply(old(Snapshot()), a);
        hidden == Hidden(t.due, t.cancelling, t.writing, t.log) && ReachesWith(call.start, t, call.own)
    {
      Advance(call.start, Snapshot(), call.own, Step(true, a));
      var t := Apply(Snapshot(), a);
      hidden, call := Hidden(t.due, t.cancelling, t.writing, t.log), next;
    }

    method ProposeConfigChange(id: int, values: Values) returns (answer: Answer)
      requires id !in changes && TimelockPeriod in config
      modifies `changes, `hidden, `call
      ensures Following() && call.start == old(Snapshot())
      ensures answer == if values == map[] then NoFields else Done
      ensures call.own == if answer == Done then [Propose(id, values)] else []
      ensures answer == Done ==>
        id in changes && changes[id].values == values && changes[id].status == PENDING &&
        changes[id].proposedAt == old(now) && changes[id].effectiveAt == old(now) + 1000 * old(config)[TimelockPeriod]
      ensures forall k :: k in old(changes) ==> k in changes && changes[k] == old(changes)[k]
      ensures now == old(now) && config == old(config) && changes.Keys <= old(changes).Keys + {id}
    {
      Begin();
      if values == map[] {
        return NoFields;
      }
      var timelock := config[TimelockPeriod];
      Take(Propose(id, values), call.(own := call.own + [Propose(id, values)]));
      changes := changes[id := Change(values, now, timelock, now + timelock * 1000, PENDING)];
      answer := Done;
    }

    // Tests the row it loaded and saves all of it.
    method CancelConfigChange(id: int) returns (answer: Answer)
      requires Inv(Snapshot())
      modifies this
      ensures Following() && call.start == old(Snapshot())
      ensures answer == NotFound <==> id !in old(changes)
      ensures answer == Done <==> id in old(changes) && old(changes)[id].status == PENDING
      ensures answer == Done ==> id in changes && changes[id] == old(changes)[id].(status := CANCELLED)
      ensures answer == Done ==> call.own == [LoadToCancel(id), SaveCancelled(Loaded(id, old(changes)[id]))]
      ensures answer != Done ==> answer in {NotFound, NotPending} && call.own == [] && Snapshot() == old(Snapshot())
    {
      Begin();
      if id !in changes {
        return NotFound;
      }
      var change := changes[id];
      if change.status != PENDING {
        return NotPending;
      }
      Take(LoadToCancel(id), call.(loaded := Some(Loaded(id, change)), own := call.own + [LoadToCancel(id)]));
      AwaitUnlocked(id);
      SaveCancelledRow(id, change);
      answer := Done;
    }

    method SaveCancelledRow(id: int, change: Change)
      requires Following() && call.loaded == Some(Loaded(id, change)) && call.mine == None && id !in hidden.writing
      modifies `changes, `hidden, `call
      ensures Following() && Snapshot() == AfterCancel(old(Snapshot()), Loaded(id, change))
      ensures call == old(call).(loaded := None, own := old(call).own + [SaveCancelled(Loaded(id, change))])
    {
      ghost var l := Loaded(id, change);
      Take(SaveCancelled(l), call.(loaded := None, own := call.own + [SaveCancelled(l)]));
      changes := changes[id := change.(status := CANCELLED)];
    }

    // A statement waits while a transaction has the row locked: others act until
    // none has.
    method AwaitUnlocked(id: int)
      requires Following() && Inv(call.start) && call.mine == None
      requires id in hidden.due || (call.loaded.Some? && call.loaded.value.id == id)
      modifies `config, `changes, `now, `hidden
      ensures Following() && NothingReopened(old(changes), changes) && old(hidden).due <= hidden.due &&
        id !in hidden.writing
    {
      Interfere();
      if id in hidden.writing {
        LockIsOfPending(call.start, Snapshot(), call.own, id);
        Advance(call.start, Snapshot(), call.own, Step(false, RollBack(id)));
        hidden := hidden.(writing := hidden.writing - {id});
      }
    }

    // Loads the configuration, records the change, and saves the configuration
    // with its fields set.
    method EmergencyConfigUpdate(id: int, values: Values, superAdmin: bool) returns (answer: Answer)
      requires id !in changes
      modifies this
      ensures Following() && call.start == old(Snapshot())
      ensures answer == if !superAdmin then Forbidden else if values == map[] then NoFields else Done
      ensures answer == Done ==>
        call.own == [BeginEmergency(id, values), SaveConfig(id)] && config == old(config) + values &&
        id in changes && changes[id] == Change(values, old(now), 0, old(now), EMERGENCY)
      ensures answer != Done ==> call.own == [] && Snapshot() == old(Snapshot())
    {
      Begin();
      if !superAdmin {
        return Forbidden;
      }
      if values == map[] {
        return NoFields;
      }
      var loaded := config;
      var change := Change(values, now, 0, now, EMERGENCY);
      ghost var m := Mine(id, change, loaded);
      Take(BeginEmergency(id, values), call.(mine := Some(m), own := call.own + [BeginEmergency(id, values)]));
      changes := changes[id := change];
      Interfere();
      SaveLoadedConfig(id, loaded);
      answer := Done;
    }

    // Saves the configuration as loaded with the fields of the change set; a
    // scheduled change is marked in the same transaction.
    method SaveLoadedConfig(id: int, loaded: Values)
      requires Following() && call.mine.Some? && call.mine.value.id == id && call.mine.value.base == loaded
      modifies `config, `changes, `hidden, `call
      ensures Following() && call == old(call).(mine := None, own := old(call).own + [SaveConfig(id)])
      ensures Snapshot() == AfterSaveConfig(old(Snapshot()), id)
      ensures config == loaded + old(call).mine.value.row.values
    {
      ghost var t := AfterSaveConfig(Snapshot(), id);
      var change := changes[id];
      Take(SaveConfig(id), call.(mine := None, own := call.own + [SaveConfig(id)]));
      config := loaded + change.values;
      if change.status == PENDING {
        changes := changes[id := change.(status := APPLIED)];
      }
      assert changes == t.changes;
      assert Snapshot() == t;
    }

    method FindDue() returns (due: seq<int>)
      requires Following()
      modifies `hidden, `call
      ensures Following() && call == old(call).(own := old(call).own + [LoadDue])
      ensures DueList(changes, now, due) && forall i :: 0 <= i < |due| ==> due[i] in hidden.due
      ensures forall i, k :: 0 <= i < k < |due| ==>
        due[i] != due[k] && changes[due[i]].effectiveAt <= changes[due[k]].effectiveAt
      ensures forall id :: id in due <==>
        id in changes && changes[id].status == PENDING && changes[id].effectiveAt <= now
    {
      Take(LoadDue, call.(own := call.own + [LoadDue]));
      due := SortByEffectiveAt(set id | id in changes && IsDue(changes[id], now));
    }

    method SortByEffectiveAt(ids: set<int>) returns (due: seq<int>)
      requires ids <= changes.Keys
      ensures (forall id :: id in due <==> id in ids) && forall i :: 0 <= i < |due| ==> due[i] in ids
      ensures forall i, k :: 0 <= i < k < |due| ==> due[i] != due[k]
      ensures forall i, k :: 0 <= i < k < |due| ==>
        due[i] in changes && due[k] in changes && changes[due[i]].effectiveAt <= changes[due[k]].effectiveAt
    {
      due := [];
      var left := ids;
      while left != {}
        invariant left <= ids && forall id :: id in ids ==> (id in left <==> id !in due)
        invariant forall i :: 0 <= i < |due| ==> due[i] in ids && due[i] !in left
        invariant forall i, id :: 0 <= i < |due| && id in left ==>
          changes[due[i]].effectiveAt <= changes[id].effectiveAt
        invariant forall i, k :: 0 <= i < k < |due| ==>
          due[i] != due[k] && changes[due[i]].effectiveAt <= changes[due[k]].effectiveAt
        decreases left
      {
        var first := Earliest(left);
        due := due + [first];
        left := left - {first};
      }
    }

    method Earliest(among: set<int>) returns (first: int)
      requires among != {} && among <= changes.Keys
      ensures first in among && forall id :: id in among ==> changes[first].effectiveAt <= changes[id].effectiveAt
    {
      ghost var _ := Member(among);
      first :| first in among;
      var left := among - {first};
      while left != {}
        invariant left <= among && first in among
        invariant forall id :: id in among ==> id in left || changes[first].effectiveAt <= changes[id].effectiveAt
        decreases left
      {
        ghost var _ := Member(left);
        var id :| id in left;
        if changes[id].effectiveAt < changes[first].effectiveAt {
          first := id;
        }
        left := left - {id};
      }
    }

    // One transaction: lock the row and test it again, load the configuration,
    // save both; a failure rolls everything back.
    method ApplySingleChange(id: int, fails: bool) returns (outcome: Outcome)
      requires Following() && Inv(call.start) && call.mine == None && id in hidden.due && id in changes
      modifies `config, `changes, `now, `hidden, `call
      ensures Following() && NothingReopened(old(changes), changes) && old(hidden).due <= hidden.due
      ensures call == old(call).(own := old(call).own + ApplyScript(id, outcome))
      ensures (outcome == Failed ==> fails) && (outcome == Applied ==> !fails)
      ensures id in changes && (outcome != Failed ==> changes[id].status != PENDING)
    {
      AwaitUnlocked(id);
      outcome := ApplyLocked(id, fails);
    }

    method ApplyLocked(id: int, fails: bool) returns (outcome: Outcome)
      requires Following() && call.mine == None && id in hidden.due && id in changes && id !in hidden.writing
      modifies `config, `changes, `now, `hidden, `call
      ensures Following() && NothingReopened(old(changes), changes) && old(hidden).due <= hidden.due
      ensures call == old(call).(own := old(call).own + ApplyScript(id, outcome))
      ensures outcome == if old(changes)[id].status != PENDING then Skipped else if fails then Failed else Applied
      ensures outcome == Applied ==> config == old(config) + old(changes)[id].values
      ensures outcome == Applied ==> id in changes && changes[id] == old(changes)[id].(status := APPLIED)
      ensures id in changes && (outcome != Failed ==> changes[id].status != PENDING)
    {
      var locked := changes[id];
      if locked.status != PENDING {
        Take(Skip(id), call.(own := call.own + [Skip(id)]));
        return Skipped;
      }
      var loaded := config;
      Take(BeginApply(id), call.(mine := Some(Mine(id, locked, loaded)), own := call.own + [BeginApply(id)]));
      Interfere();
      if fails {
        Take(RollBack(id), call.(mine := None, own := call.own + [RollBack(id)]));
        outcome := Failed;
      } else {
        SaveLoadedConfig(id, loaded);
        outcome := Applied;
      }
    }

    // One pass; a failing change does not block the others.
    method ApplyDueConfigChanges(fails: set<int>) returns (ghost due: seq<int>, ghost outcomes: seq<Outcome>)
      requires Inv(Snapshot())
      modifies this
      ensures Following() && call.start == old(Snapshot())
      ensures DueList(old(changes), old(now), due) && |outcomes| == |due|
      ensures call.own == [LoadDue] + PassScript(due, outcomes)
      ensures forall i :: 0 <= i < |due| ==>
        due[i] in changes && (due[i] !in fails ==> outcomes[i] != Failed && changes[due[i]].status != PENDING)
      ensures forall i :: 0 <= i < |due| && outcomes[i] == Applied ==> due[i] !in fails
    {
      Begin();
      var list := FindDue();
      due := list;
      outcomes := ApplyEach(list, fails);
    }

    // What the loop has done after these outcomes.
    ghost predicate Progress(begun: Call, due: seq<int>, outcomes: seq<Outcome>, fails: set<int>)
      requires |outcomes| <= |due|
      reads this
    {
      && call == begun.(own := begun.own + PassScript(due, outcomes))
      && (forall i :: 0 <= i < |due| ==> due[i] in changes && due[i] in hidden.due)
      && (forall i :: 0 <= i < |outcomes| ==> Handled(due[i], outcomes[i], fails))
    }

    predicate Handled(id: int, outcome: Outcome, fails: set<int>)
      reads this
    {
      && id in changes && (outcome != Failed ==> changes[id].status != PENDING)
      && (outcome == Failed ==> id in fails) && (outcome == Applied ==> id !in fails)
    }

    method ApplyEach(due: seq<int>, fails: set<int>) returns (ghost outcomes: seq<Outcome>)
      requires Following() && Inv(call.start) && call.mine == None
      requires forall i :: 0 <= i < |due| ==> due[i] in changes && due[i] in hidden.due
      modifies `config, `changes, `now, `hidden, `call
      ensures Following() && |outcomes| == |due| && Progress(old(call), due, outcomes, fails)
    {
      outcomes := [];
      assert call.own + PassScript(due, []) == call.own;
      for i := 0 to |due|
        invariant Following() && |outcomes| == i && Progress(old(call), due, outcomes, fails)
      {
        outcomes := ApplyNext(due, i, fails, outcomes, old(call));
      }
    }

    method ApplyNext(due: seq<int>, i: nat, fails: set<int>, ghost outcomes: seq<Outcome>, ghost begun: Call)
      returns (ghost more: seq<Outcome>)
      requires Following() && Inv(begun.start) && begun.mine == None
      requires i == |outcomes| < |due| && Progress(begun, due, outcomes, fails)
      modifies `config, `changes, `now, `hidden, `call
      ensures Following() && |more| == i + 1 && Progress(begun, due, more, fails)
    {
      var outcome := ApplySingleChange(due[i], due[i] in fails);
      more := outcomes + [outcome];
      assert more[..i] == outcomes;
      Associates(begun.own, PassScript(due, outcomes), ApplyScript(due[i], outcome));
      forall k | 0 <= k < |more| ensures Handled(due[k], more[k], fails) {
        assert k < i ==> old(Handled(due[k], outcomes[k], fails));
      }
    }
  }
}
