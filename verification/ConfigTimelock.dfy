// Timelocked changes to the governance configuration: propose, cancel, apply
// when due, and the emergency override, any number of each at the same time.
// Every statement, or transaction up to its commit, is one action.
module ConfigTimelock {
  datatype Field =
    | ProtocolFeeBps | MinOracleConfirmations | VotingPeriod | TimelockPeriod | Quorum | QuorumBasisPoints
    | PhMin | PhMax | DoThreshold | TempPenaltyDelta | WeightVolumetric | WeightNitrogen | WeightPhosphorus

  type Values = map<Field, int>

  datatype Status = PENDING | APPLIED | CANCELLED | EMERGENCY

  // timelock is the period in force when the change was proposed, in seconds;
  // the other times are in milliseconds.
  datatype Change = Change(values: Values, proposedAt: int, timelock: int, effectiveAt: int, status: Status)

  // One write to the live configuration.
  datatype Write = Write(id: int, values: Values, at: int)

  // A row that cancelConfigChange has loaded; saving it writes every column.
  datatype Loaded = Loaded(id: int, row: Change)

  // due: changes loaded by some scheduler pass and perhaps not yet applied.
  // writing: the live configuration as loaded by the transaction that applies
  // a change, or by an emergency update, and not yet saved.
  datatype State = State(
    config: Values,
    changes: map<int, Change>,
    now: int,
    due: set<int>,
    cancelling: multiset<Loaded>,
    writing: map<int, Values>,
    log: seq<Write>)

  datatype Action =
    | Tick(to: int)
    | Propose(id: int, values: Values)
    | LoadToCancel(id: int)
    | SaveCancelled(l: Loaded)
    | BeginEmergency(id: int, values: Values)
    | LoadDue
    | BeginApply(id: int)
    | Skip(id: int)
    | SaveConfig(id: int)
    | RollBack(id: int)

  predicate IsDue(c: Change, now: int) { c.status == PENDING && c.effectiveAt <= now }

  predicate Possible(s: State, a: Action) {
    match a
    case Tick(to) => s.now <= to
    case Propose(id, values) => id !in s.changes && TimelockPeriod in s.config && values != map[]
    case LoadToCancel(id) => id in s.changes && s.changes[id].status == PENDING
    // The UPDATE waits for a transaction that has locked the row.
    case SaveCancelled(l) => l in s.cancelling && l.id !in s.writing
    case BeginEmergency(id, values) => id !in s.changes && values != map[]
    case LoadDue => true
    case BeginApply(id) => id in s.due && id in s.changes && s.changes[id].status == PENDING && id !in s.writing
    // applySingleChange finds the row decided by somebody else.
    case Skip(id) => id in s.due && id in s.changes && s.changes[id].status != PENDING
    case SaveConfig(id) => id in s.writing && id in s.changes
    case RollBack(id) => id in s.writing && id in s.changes && s.changes[id].status == PENDING
  }

  function Proposed(s: State, values: Values): Change
    requires TimelockPeriod in s.config
  {
    var timelock := s.config[TimelockPeriod];
    Change(values, s.now, timelock, s.now + timelock * 1000, PENDING)
  }

  function AfterCancel(s: State, l: Loaded): State {
    s.(changes := s.changes[l.id := l.row.(status := CANCELLED)], cancelling := s.cancelling - multiset{l})
  }

  // The record of the change goes in with the load of the configuration:
  // nothing happens that depends on which comes first.
  function AfterBeginEmergency(s: State, id: int, values: Values): State {
    s.(changes := s.changes[id := Change(values, s.now, 0, s.now, EMERGENCY)], writing := s.writing[id := s.config])
  }

  // The whole configuration row as it was loaded, with the values of the change.
  function AfterSaveConfig(s: State, id: int): State
    requires id in s.writing && id in s.changes
  {
    var c := s.changes[id];
    s.(config := s.writing[id] + c.values,
       changes := s.changes[id := if c.status == PENDING then c.(status := APPLIED) else c],
       writing := s.writing - {id}, log := s.log + [Write(id, c.values, s.now)])
  }

  function Apply(s: State, a: Action): State
    requires Possible(s, a)
  {
    match a
    case Tick(to) => s.(now := to)
    case Propose(id, values) => s.(changes := s.changes[id := Proposed(s, values)])
    case LoadToCancel(id) => s.(cancelling := s.cancelling + multiset{Loaded(id, s.changes[id])})
    case SaveCancelled(l) => AfterCancel(s, l)
    case BeginEmergency(id, values) => AfterBeginEmergency(s, id, values)
    case LoadDue => s.(due := s.due + set id | id in s.changes && IsDue(s.changes[id], s.now))
    case BeginApply(id) => s.(writing := s.writing[id := s.config])
    case Skip(_) => s
    case SaveConfig(id) => AfterSaveConfig(s, id)
    case RollBack(id) => s.(writing := s.writing - {id})
  }

  predicate Legal(s: State, run: seq<Action>)
    decreases |run|
  {
    run == [] || (Possible(s, run[0]) && Legal(Apply(s, run[0]), run[1..]))
  }

  function Exec(s: State, run: seq<Action>): State
    requires Legal(s, run)
    decreases |run|
  {
    if run == [] then s else Exec(Apply(s, run[0]), run[1..])
  }

  // `P` holds of every step of the run.
  ghost predicate Throughout(s: State, run: seq<Action>, P: (State, Action) -> bool)
    requires Legal(s, run)
    decreases |run|
  {
    run == [] || (P(s, run[0]) && Throughout(Apply(s, run[0]), run[1..], P))
  }

  predicate Started(s: State) {
    s.changes == map[] && s.due == {} && s.cancelling == multiset{} && s.writing == map[] && s.log == []
  }

  lemma {:induction false} RunGrows(s: State, run: seq<Action>, a: Action)
    requires Legal(s, run) && Possible(Exec(s, run), a)
    ensures Legal(s, run + [a]) && Exec(s, run + [a]) == Apply(Exec(s, run), a)
    decreases |run|
  {
    if run == [] {
      assert run + [a] == [a] && [a][1..] == [];
      assert Legal(Apply(s, a), []) && Exec(Apply(s, a), []) == Apply(s, a);
    } else {
      assert (run + [a])[1..] == run[1..] + [a];
      RunGrows(Apply(s, run[0]), run[1..], a);
    }
  }

  // ── What the log says ────────────────────────────────────────────────────

  ghost predicate Logged(log: seq<Write>, id: int) {
    exists i :: 0 <= i < |log| && log[i].id == id
  }

  ghost predicate Orderly(log: seq<Write>) {
    forall i, k :: 0 <= i < k < |log| ==> log[i].id != log[k].id && log[i].at <= log[k].at
  }

  predicate OnTime(c: Change) { c.effectiveAt == c.proposedAt + c.timelock * 1000 }

  // The write is that of the change, which was due.
  predicate Earned(s: State, w: Write) {
    && w.id in s.changes && w.at <= s.now
    && (var c := s.changes[w.id];
      c.values == w.values && c.status != PENDING && w.at >= c.effectiveAt && OnTime(c))
  }

  // Who has been written: nothing PENDING, everything APPLIED, an emergency
  // update unless it has yet to save.
  ghost predicate Accounted(s: State, id: int)
    requires id in s.changes
  {
    match s.changes[id].status
    case PENDING => !Logged(s.log, id)
    case APPLIED => Logged(s.log, id) && id !in s.writing
    case CANCELLED => id !in s.writing
    case EMERGENCY => Logged(s.log, id) <==> id !in s.writing
  }

  ghost predicate Good(s: State, id: int)
    requires id in s.changes
  {
    && Accounted(s, id) && OnTime(s.changes[id])
    && (id in s.due || id in s.writing ==> s.changes[id].effectiveAt <= s.now)
    && (id in s.due ==> s.changes[id].status != EMERGENCY)
  }

  // A loaded row differs from the table in its status at most.
  predicate GoodCopy(s: State, l: Loaded) {
    l.id in s.changes && s.changes[l.id].status != EMERGENCY && l.row == s.changes[l.id].(status := PENDING)
  }

  ghost predicate Inv(s: State) {
    && Orderly(s.log)
    && (forall i :: 0 <= i < |s.log| ==> Earned(s, s.log[i]))
    && (forall id :: id in s.changes ==> Good(s, id))
    && (forall l :: l in s.cancelling ==> GoodCopy(s, l))
    && s.due <= s.changes.Keys && s.writing.Keys <= s.changes.Keys
  }

  lemma LoggedGrows(log: seq<Write>, w: Write)
    ensures forall id :: Logged(log + [w], id) <==> Logged(log, id) || id == w.id
  {
    forall id ensures Logged(log + [w], id) <==> Logged(log, id) || id == w.id {
      if Logged(log, id) {
        var i :| 0 <= i < |log| && log[i].id == id;
        assert (log + [w])[i].id == id;
      }
      assert (log + [w])[|log|] == w;
    }
  }

  // Steps that leave the log and every existing row alone.
  lemma RowsStayGood(s: State, a: Action)
    requires Inv(s) && Possible(s, a) && !a.SaveCancelled? && !a.SaveConfig?
    ensures forall id :: id in Apply(s, a).changes ==> Good(Apply(s, a), id)
  {
    var t := Apply(s, a);
    forall id | id in t.changes ensures Good(t, id) {
      if id in s.changes {
        assert Good(s, id);
      } else {
        assert forall i :: 0 <= i < |s.log| ==> Earned(s, s.log[i]);
      }
    }
  }

  lemma CopiesStayGood(s: State, a: Action)
    requires Inv(s) && Possible(s, a) && !a.SaveCancelled? && !a.SaveConfig?
    ensures forall l :: l in Apply(s, a).cancelling ==> GoodCopy(Apply(s, a), l)
  {
    forall l | l in Apply(s, a).cancelling ensures GoodCopy(Apply(s, a), l) {
      assert l in s.cancelling ==> GoodCopy(s, l);
    }
  }

  lemma QuietStepKeepsInv(s: State, a: Action)
    requires Inv(s) && Possible(s, a) && !a.SaveCancelled? && !a.SaveConfig?
    ensures Inv(Apply(s, a))
  {
    var t := Apply(s, a);
    RowsStayGood(s, a);
    CopiesStayGood(s, a);
    forall i | 0 <= i < |t.log| ensures Earned(t, t.log[i]) {
      assert Earned(s, s.log[i]);
    }
  }

  lemma CancelKeepsInv(s: State, l: Loaded)
    requires Inv(s) && Possible(s, SaveCancelled(l))
    ensures Inv(AfterCancel(s, l))
    ensures AfterCancel(s, l).changes == s.changes[l.id := s.changes[l.id].(status := CANCELLED)]
  {
    var t := AfterCancel(s, l);
    assert GoodCopy(s, l);
    forall i | 0 <= i < |t.log| ensures Earned(t, t.log[i]) {
      assert Earned(s, s.log[i]);
    }
    forall id | id in t.changes ensures Good(t, id) {
      assert Good(s, id);
    }
    forall k | k in t.cancelling ensures GoodCopy(t, k) {
      assert GoodCopy(s, k);
    }
  }

  lemma AppendIsOrderly(s: State, w: Write)
    requires Orderly(s.log) && !Logged(s.log, w.id) && w.at == s.now
    requires forall i :: 0 <= i < |s.log| ==> Earned(s, s.log[i])
    ensures Orderly(s.log + [w])
  {
    forall i | 0 <= i < |s.log| ensures s.log[i].id != w.id && s.log[i].at <= w.at {
      assert Earned(s, s.log[i]);
    }
  }

  lemma SaveKeepsRows(s: State, id: int)
    requires Inv(s) && Possible(s, SaveConfig(id))
    ensures forall k :: k in AfterSaveConfig(s, id).changes ==> Good(AfterSaveConfig(s, id), k)
    ensures forall l :: l in AfterSaveConfig(s, id).cancelling ==> GoodCopy(AfterSaveConfig(s, id), l)
  {
    var t := AfterSaveConfig(s, id);
    LoggedGrows(s.log, Write(id, s.changes[id].values, s.now));
    assert Good(s, id);
    forall k | k in t.changes ensures Good(t, k) {
      assert Good(s, k);
    }
    forall l | l in t.cancelling ensures GoodCopy(t, l) {
      assert GoodCopy(s, l);
    }
  }

  lemma SaveKeepsInv(s: State, id: int)
    requires Inv(s) && Possible(s, SaveConfig(id))
    ensures Inv(AfterSaveConfig(s, id)) && !Logged(s.log, id)
  {
    var t, w := AfterSaveConfig(s, id), Write(id, s.changes[id].values, s.now);
    assert Good(s, id);
    SaveKeepsRows(s, id);
    AppendIsOrderly(s, w);
    forall i | 0 <= i < |t.log| ensures Earned(t, t.log[i]) {
      assert i < |s.log| ==> Earned(s, s.log[i]) && t.log[i] == s.log[i];
    }
  }

  lemma StepKeepsInv(s: State, a: Action)
    requires Inv(s) && Possible(s, a)
    ensures Inv(Apply(s, a))
  {
    if a.SaveCancelled? {
      CancelKeepsInv(s, a.l);
    } else if a.SaveConfig? {
      SaveKeepsInv(s, a.id);
    } else {
      QuietStepKeepsInv(s, a);
    }
  }

  lemma {:induction false} RunKeepsInv(s: State, run: seq<Action>)
    requires Inv(s) && Legal(s, run)
    ensures Inv(Exec(s, run))
    decreases |run|
  {
    if run != [] {
      StepKeepsInv(s, run[0]);
      RunKeepsInv(Apply(s, run[0]), run[1..]);
    }
  }

  // Over every run, whatever interleaves: no change is written twice, each
  // write has the values of its change, and a scheduled one comes not before
  // the timelock in force at its proposal has passed; nothing PENDING is
  // written, everything APPLIED is, and an emergency update unless it has yet
  // to save.
  lemma WritesAreEarned(s: State, run: seq<Action>)
    requires Started(s) && Legal(s, run)
    ensures var t := Exec(s, run);
      && Orderly(t.log)
      && (forall i :: 0 <= i < |t.log| ==> Earned(t, t.log[i]))
      && (forall id :: id in t.changes ==> Accounted(t, id))
  {
    RunKeepsInv(s, run);
    forall id | id in Exec(s, run).changes ensures Accounted(Exec(s, run), id) {
      assert Good(Exec(s, run), id);
    }
  }

  // ── Where a write comes from ─────────────────────────────────────────────

  // Some step of the run proposes `values` under this id, so early that the
  // TimelockPeriod which the live configuration holds there is over by `then_`.
  ghost predicate Proposes(s: State, run: seq<Action>, id: int, values: Values, then_: int)
    requires Legal(s, run)
    decreases |run|
  {
    run != [] &&
      ((run[0] == Propose(id, values) && s.now + 1000 * s.config[TimelockPeriod] <= then_) ||
       Proposes(Apply(s, run[0]), run[1..], id, values, then_))
  }

  lemma {:induction false} StaysOver(s: State, run: seq<Action>, id: int, values: Values, then_: int, later: int)
    requires Legal(s, run) && Proposes(s, run, id, values, then_) && then_ <= later
    ensures Proposes(s, run, id, values, later)
    decreases |run|
  {
    if Proposes(Apply(s, run[0]), run[1..], id, values, then_) {
      StaysOver(Apply(s, run[0]), run[1..], id, values, then_, later);
    }
  }

  // Some step of the run begins an emergency update under this id.
  predicate Overrides(run: seq<Action>, id: int, values: Values) {
    exists i :: 0 <= i < |run| && run[i] == BeginEmergency(id, values)
  }

  // The columns that are written once.
  predicate SameColumns(c: Change, k: Change) {
    && k == c.(status := k.status)
    && (c.status == EMERGENCY <==> k.status == EMERGENCY)
  }

  // What a step other than the save of a cancellation makes of one row.
  lemma RowFollows(s: State, a: Action, id: int)
    requires Possible(s, a) && !a.SaveCancelled? && id in s.changes
    ensures id in Apply(s, a).changes
    ensures var c := s.changes[id];
      Apply(s, a).changes[id] == if a == SaveConfig(id) && c.status == PENDING then c.(status := APPLIED) else c
  {
  }

  lemma StepKeepsColumns(s: State, a: Action, id: int)
    requires Inv(s) && Possible(s, a) && id in s.changes
    ensures id in Apply(s, a).changes && SameColumns(s.changes[id], Apply(s, a).changes[id])
  {
    if a.SaveCancelled? {
      CancelKeepsInv(s, a.l);
      assert GoodCopy(s, a.l);
    } else {
      RowFollows(s, a, id);
    }
  }

  lemma {:induction false} RunKeepsColumns(s: State, run: seq<Action>, id: int)
    requires Inv(s) && Legal(s, run) && id in s.changes
    ensures id in Exec(s, run).changes && SameColumns(s.changes[id], Exec(s, run).changes[id])
    decreases |run|
  {
    if run != [] {
      StepKeepsColumns(s, run[0], id);
      StepKeepsInv(s, run[0]);
      RunKeepsColumns(Apply(s, run[0]), run[1..], id);
    }
  }

  lemma NewChange(s: State, a: Action, id: int)
    requires Inv(s) && Possible(s, a) && id !in s.changes && id in Apply(s, a).changes
    ensures (a.Propose? || a.BeginEmergency?) && a.id == id && Apply(s, a).changes[id].values == a.values
    ensures a.Propose? ==> Apply(s, a).changes[id].effectiveAt == s.now + 1000 * s.config[TimelockPeriod]
    ensures a.BeginEmergency? <==> Apply(s, a).changes[id].status == EMERGENCY
  {
    assert a.SaveCancelled? ==> GoodCopy(s, a.l);
  }

  lemma {:induction false} ChangeComesFrom(s: State, run: seq<Action>, id: int)
    requires Inv(s) && Legal(s, run) && id !in s.changes && id in Exec(s, run).changes
    ensures var c := Exec(s, run).changes[id];
      if c.status == EMERGENCY then Overrides(run, id, c.values) else Proposes(s, run, id, c.values, c.effectiveAt)
    decreases |run|
  {
    var t, c := Apply(s, run[0]), Exec(s, run).changes[id];
    StepKeepsInv(s, run[0]);
    if id in t.changes {
      NewChange(s, run[0], id);
      RunKeepsColumns(t, run[1..], id);
    } else {
      ChangeComesFrom(t, run[1..], id);
      if i :| 0 <= i < |run[1..]| && run[1..][i] == BeginEmergency(id, c.values) {
        assert run[i + 1] == run[1..][i];
      }
    }
  }

  // Over every run: a write of the live configuration stems from an emergency
  // update, or from a proposal with the same values made at least the timelock
  // earlier that the live configuration held when it was made.
  lemma TimelockIsServed(s: State, run: seq<Action>, i: nat)
    requires Started(s) && Legal(s, run) && i < |Exec(s, run).log|
    ensures var w := Exec(s, run).log[i];
      Overrides(run, w.id, w.values) || Proposes(s, run, w.id, w.values, w.at)
  {
    RunKeepsInv(s, run);
    var t, w := Exec(s, run), Exec(s, run).log[i];
    assert Earned(t, w);
    ChangeComesFrom(s, run, w.id);
    var c := t.changes[w.id];
    if c.status != EMERGENCY {
      StaysOver(s, run, w.id, w.values, c.effectiveAt, w.at);
    }
  }

  // ── Cancelled changes ────────────────────────────────────────────────────

  ghost predicate KeepsDecided(s: State, a: Action) {
    Possible(s, a) ==>
      forall id :: id in s.changes && s.changes[id].status != PENDING ==>
        id in Apply(s, a).changes && Apply(s, a).changes[id] == s.changes[id]
  }

  ghost predicate CancelledUnwritten(s: State) {
    forall id :: id in s.changes && s.changes[id].status == CANCELLED ==> !Logged(s.log, id)
  }

  ghost predicate CancelsForGood(s: State, a: Action) { Possible(s, a) ==> CancelledUnwritten(Apply(s, a)) }

  // The save of a cancellation finds its change not applied meanwhile.
  predicate CancelsUnapplied(s: State, a: Action) {
    a.SaveCancelled? && a.l.id in s.changes ==> s.changes[a.l.id].status != APPLIED
  }

  lemma CancelDecides(s: State, l: Loaded)
    requires Inv(s) && Possible(s, SaveCancelled(l))
    ensures KeepsDecided(s, SaveCancelled(l)) <==> s.changes[l.id].status != APPLIED
  {
    CancelKeepsInv(s, l);
    assert GoodCopy(s, l);
  }

  lemma DecidedStep(s: State, a: Action)
    requires Inv(s) && Possible(s, a)
    ensures KeepsDecided(s, a) <==> CancelsUnapplied(s, a)
  {
    if a.SaveCancelled? {
      CancelDecides(s, a.l);
      assert GoodCopy(s, a.l);
    } else {
      forall id | id in s.changes && s.changes[id].status != PENDING
        ensures id in Apply(s, a).changes && Apply(s, a).changes[id] == s.changes[id]
      {
        RowFollows(s, a, id);
      }
    }
  }

  lemma CancelledStep(s: State, a: Action)
    requires Inv(s) && CancelledUnwritten(s) && Possible(s, a)
    ensures CancelsForGood(s, a) <==> CancelsUnapplied(s, a)
  {
    if a.SaveCancelled? {
      assert GoodCopy(s, a.l) && Good(s, a.l.id);
      CancelKeepsInv(s, a.l);
    } else if a.SaveConfig? {
      assert Good(s, a.id);
      LoggedGrows(s.log, Write(a.id, s.changes[a.id].values, s.now));
    }
  }

  lemma {:induction false} DecidedIff(s: State, run: seq<Action>)
    requires Inv(s) && Legal(s, run)
    ensures Throughout(s, run, KeepsDecided) <==> Throughout(s, run, CancelsUnapplied)
    decreases |run|
  {
    if run != [] {
      DecidedStep(s, run[0]);
      StepKeepsInv(s, run[0]);
      DecidedIff(Apply(s, run[0]), run[1..]);
    }
  }

  lemma {:induction false} CancelledIff(s: State, run: seq<Action>)
    requires Inv(s) && CancelledUnwritten(s) && Legal(s, run)
    ensures Throughout(s, run, CancelsForGood) <==> Throughout(s, run, CancelsUnapplied)
    decreases |run|
  {
    if run != [] {
      CancelledStep(s, run[0]);
      StepKeepsInv(s, run[0]);
      if CancelsForGood(s, run[0]) {
        CancelledIff(Apply(s, run[0]), run[1..]);
      }
    }
  }

  // Over every run: a change that has left PENDING never changes again, and a
  // CANCELLED one is never written, iff no cancellation saves over a change
  // applied since it was loaded.
  lemma DecidedIsFinalIff(s: State, run: seq<Action>)
    requires Started(s) && Legal(s, run)
    ensures Throughout(s, run, KeepsDecided) <==> Throughout(s, run, CancelsUnapplied)
    ensures Throughout(s, run, CancelsForGood) <==> Throughout(s, run, CancelsUnapplied)
  {
    DecidedIff(s, run);
    CancelledIff(s, run);
  }

  // ── The live configuration ───────────────────────────────────────────────

  function Overlay(config: Values, log: seq<Write>): Values {
    if log == [] then config else Overlay(config, log[..|log| - 1]) + log[|log| - 1].values
  }

  // The step leaves `initial` overlaid by the log.
  ghost function FollowsLog(initial: Values): (State, Action) -> bool {
    (s: State, a: Action) => Possible(s, a) ==> Apply(s, a).config == Overlay(initial, Apply(s, a).log)
  }

  // The same outside the fields of `values`.
  predicate AgreeOutside(base: Values, config: Values, values: Values) {
    base.Keys - values.Keys == config.Keys - values.Keys &&
    forall f :: f in base && f !in values ==> f in config && base[f] == config[f]
  }

  // A save of the configuration finds every field it does not set as loaded.
  predicate SavesMissNoWrite(s: State, a: Action) {
    a.SaveConfig? && a.id in s.writing && a.id in s.changes ==>
      AgreeOutside(s.writing[a.id], s.config, s.changes[a.id].values)
  }

  lemma OverlaysAgree(base: Values, config: Values, values: Values)
    ensures base + values == config + values <==> AgreeOutside(base, config, values)
  {
    if AgreeOutside(base, config, values) {
      assert (base + values).Keys == (base.Keys - values.Keys) + values.Keys;
      assert (config + values).Keys == (config.Keys - values.Keys) + values.Keys;
      assert base + values == config + values;
    } else if base + values == config + values {
      assert base.Keys - values.Keys == (base + values).Keys - values.Keys;
      assert config.Keys - values.Keys == (config + values).Keys - values.Keys;
      forall f | f in base && f !in values ensures f in config && base[f] == config[f] {
        assert (base + values)[f] == base[f];
        assert f in (config + values).Keys - values.Keys;
      }
    }
  }

  lemma ConfigStep(initial: Values, s: State, a: Action)
    requires Possible(s, a) && s.config == Overlay(initial, s.log)
    ensures FollowsLog(initial)(s, a) <==> SavesMissNoWrite(s, a)
  {
    if a.SaveConfig? {
      var w := Write(a.id, s.changes[a.id].values, s.now);
      assert (s.log + [w])[..|s.log|] == s.log;
      assert Overlay(initial, s.log + [w]) == s.config + w.values;
      OverlaysAgree(s.writing[a.id], s.config, w.values);
    }
  }

  lemma {:induction false} ConfigIff(initial: Values, s: State, run: seq<Action>)
    requires Legal(s, run) && s.config == Overlay(initial, s.log)
    ensures Throughout(s, run, FollowsLog(initial)) <==> Throughout(s, run, SavesMissNoWrite)
    decreases |run|
  {
    if run != [] {
      ConfigStep(initial, s, run[0]);
      if FollowsLog(initial)(s, run[0]) {
        ConfigIff(initial, Apply(s, run[0]), run[1..]);
      }
    }
  }

  // Over every run: the live configuration is the initial one overlaid by the
  // writes in order, in every state, iff every save of it finds the fields it
  // does not set as they were loaded.
  lemma ConfigFollowsLogIff(s: State, run: seq<Action>)
    requires Started(s) && Legal(s, run)
    ensures Throughout(s, run, FollowsLog(s.config)) <==> Throughout(s, run, SavesMissNoWrite)
  {
    ConfigIff(s.config, s, run);
  }

  // ── Which guards are needed ──────────────────────────────────────────────

  // cancelling: a cancellation is saved only if the row is still PENDING.
  // writing: the configuration is saved only if it is still as loaded.
  datatype Guards = Guards(cancelling: bool, writing: bool)

  predicate Guarded(g: Guards, s: State, a: Action) {
    && (g.cancelling && a.SaveCancelled? && a.l.id in s.changes ==> s.changes[a.l.id].status == PENDING)
    && (g.writing && a.SaveConfig? && a.id in s.writing ==> s.writing[a.id] == s.config)
  }

  ghost predicate Obeys(g: Guards, s: State, run: seq<Action>)
    requires Legal(s, run)
    decreases |run|
  {
    run == [] || (Guarded(g, s, run[0]) && Obeys(g, Apply(s, run[0]), run[1..]))
  }

  lemma {:induction false} GuardsSuffice(g: Guards, s: State, run: seq<Action>)
    requires Legal(s, run) && Obeys(g, s, run)
    ensures g.cancelling ==> Throughout(s, run, CancelsUnapplied)
    ensures g.writing ==> Throughout(s, run, SavesMissNoWrite)
    decreases |run|
  {
    if run != [] {
      assert Guarded(g, s, run[0]);
      GuardsSuffice(g, Apply(s, run[0]), run[1..]);
    }
  }

  const CONFIG: Values := map[TimelockPeriod := 0, Quorum := 1, PhMin := 6]
  const START := State(CONFIG, map[], 0, {}, multiset{}, map[], [])

  // Some run from START breaks the law.
  ghost predicate Breaks(g: Guards, P: (State, Action) -> bool) {
    exists run :: Legal(START, run) && Obeys(g, START, run) && !Throughout(START, run, P)
  }

  lemma {:induction false} LongerRun(g: Guards, s: State, run: seq<Action>, a: Action)
    requires Legal(s, run) && Obeys(g, s, run) && Possible(Exec(s, run), a) && Guarded(g, Exec(s, run), a)
    ensures Legal(s, run + [a]) && Obeys(g, s, run + [a]) && Exec(s, run + [a]) == Apply(Exec(s, run), a)
    decreases |run|
  {
    if run == [] {
      assert run + [a] == [a] && [a][1..] == [];
      assert Legal(Apply(s, a), []) && Exec(Apply(s, a), []) == Apply(s, a);
    } else {
      assert (run + [a])[1..] == run[1..] + [a];
      LongerRun(g, Apply(s, run[0]), run[1..], a);
    }
  }

  lemma {:induction false} LastStepCounts(s: State, run: seq<Action>, a: Action, P: (State, Action) -> bool)
    requires Legal(s, run) && Legal(s, run + [a]) && Throughout(s, run + [a], P)
    ensures P(Exec(s, run), a)
    decreases |run|
  {
    if run == [] {
      assert run + [a] == [a];
    } else {
      assert (run + [a])[1..] == run[1..] + [a];
      LastStepCounts(Apply(s, run[0]), run[1..], a, P);
    }
  }

  ghost predicate Arrives(g: Guards, s: State) {
    exists run :: Legal(START, run) && Obeys(g, START, run) && Exec(START, run) == s
  }

  lemma Goes(g: Guards, s: State, a: Action, t: State)
    requires Arrives(g, s) && Possible(s, a) && Guarded(g, s, a) && Apply(s, a) == t
    ensures Arrives(g, t)
  {
    var run :| Legal(START, run) && Obeys(g, START, run) && Exec(START, run) == s;
    LongerRun(g, START, run, a);
  }

  lemma Ends(g: Guards, s: State, a: Action, P: (State, Action) -> bool)
    requires Arrives(g, s) && Possible(s, a) && Guarded(g, s, a) && !P(s, a)
    ensures Breaks(g, P)
  {
    var run :| Legal(START, run) && Obeys(g, START, run) && Exec(START, run) == s;
    LongerRun(g, START, run, a);
    if Throughout(START, run + [a], P) {
      LastStepCounts(START, run, a, P);
    }
  }

  lemma Starts(g: Guards)
    ensures Arrives(g, START)
  {
    assert Legal(START, []) && Obeys(g, START, []) && Exec(START, []) == START;
  }

  const RAISED: Values := map[Quorum := 5]
  const CHANGE := Change(RAISED, 0, 0, 0, PENDING)

  // A change loaded to be cancelled is due, and a pass begins to apply it.
  lemma ApplyingState(g: Guards) returns (s: State)
    ensures Arrives(g, s)
    ensures s == State(CONFIG, map[1 := CHANGE], 0, {1}, multiset{Loaded(1, CHANGE)}, map[1 := CONFIG], [])
  {
    Starts(g);
    assert Quorum in RAISED;
    var s1 := START.(changes := map[1 := CHANGE]);
    Goes(g, START, Propose(1, RAISED), s1);
    var s2 := s1.(cancelling := multiset{Loaded(1, CHANGE)});
    Goes(g, s1, LoadToCancel(1), s2);
    var s3 := s2.(due := {1});
    Goes(g, s2, LoadDue, s3);
    s := s3.(writing := map[1 := CONFIG]);
    Goes(g, s3, BeginApply(1), s);
  }

  // The cancellation is saved after the commit: an applied change is CANCELLED.
  lemma UnguardedCancel(g: Guards)
    requires !g.cancelling
    ensures Breaks(g, KeepsDecided) && Breaks(g, CancelsForGood)
  {
    var s := ApplyingState(g);
    var t := AfterSaveConfig(s, 1);
    Goes(g, s, SaveConfig(1), t);
    var l := Loaded(1, CHANGE);
    assert t.changes[1].status == APPLIED && t.log[0].id == 1;
    var u := AfterCancel(t, l);
    assert u.changes[1].status == CANCELLED && Logged(u.log, 1);
    Ends(g, t, SaveCancelled(l), KeepsDecided);
    Ends(g, t, SaveCancelled(l), CancelsForGood);
  }

  const LOWERED: Values := map[PhMin := 5]

  // Two emergency updates load the configuration; the first one saves.
  lemma TwoEmergencies(g: Guards) returns (s: State)
    requires !g.writing
    ensures Arrives(g, s) && s.log == [Write(1, RAISED, 0)] && s.config == CONFIG + RAISED
    ensures s.writing == map[2 := CONFIG] && 2 in s.changes && s.changes[2].values == LOWERED
  {
    Starts(g);
    assert Quorum in RAISED && PhMin in LOWERED;
    var s1 := AfterBeginEmergency(START, 1, RAISED);
    Goes(g, START, BeginEmergency(1, RAISED), s1);
    var s2 := AfterBeginEmergency(s1, 2, LOWERED);
    Goes(g, s1, BeginEmergency(2, LOWERED), s2);
    s := AfterSaveConfig(s2, 1);
    Goes(g, s2, SaveConfig(1), s);
  }

  // The second one undoes it.
  lemma UnguardedWrite(g: Guards)
    requires !g.writing
    ensures Breaks(g, FollowsLog(CONFIG))
  {
    var s := TwoEmergencies(g);
    var a := SaveConfig(2);
    assert s.writing[2][Quorum] == 1 && s.config[Quorum] == 5;
    assert s.log[..0] == [] && Overlay(CONFIG, s.log) == CONFIG + RAISED;
    ConfigStep(CONFIG, s, a);
    assert !AgreeOutside(CONFIG, s.config, LOWERED);
    Ends(g, s, a, FollowsLog(CONFIG));
  }

  // Started from any configuration, no run changes a decided change or cancels
  // a written one if the save of a cancellation tests that its change is still
  // PENDING, and some run does if it does not.
  lemma FinalIffGuarded(g: Guards)
    ensures g.cancelling ==> forall s, run :: Started(s) && Legal(s, run) && Obeys(g, s, run) ==>
      Throughout(s, run, KeepsDecided) && Throughout(s, run, CancelsForGood)
    ensures !g.cancelling ==> Breaks(g, KeepsDecided) && Breaks(g, CancelsForGood)
  {
    if g.cancelling {
      forall s, run | Started(s) && Legal(s, run) && Obeys(g, s, run)
        ensures Throughout(s, run, KeepsDecided) && Throughout(s, run, CancelsForGood)
      {
        GuardsSuffice(g, s, run);
        DecidedIsFinalIff(s, run);
      }
    } else {
      UnguardedCancel(g);
    }
  }

  // And no run loses a write to the configuration if its saves test that it is
  // still as loaded, and some run does if they do not.
  lemma NoWriteLostIffGuarded(g: Guards)
    ensures g.writing ==> forall s, run :: Started(s) && Legal(s, run) && Obeys(g, s, run) ==>
      Throughout(s, run, FollowsLog(s.config))
    ensures !g.writing ==> Breaks(g, FollowsLog(START.config))
  {
    if g.writing {
      forall s, run | Started(s) && Legal(s, run) && Obeys(g, s, run) ensures Throughout(s, run, FollowsLog(s.config)) {
        GuardsSuffice(g, s, run);
        ConfigFollowsLogIff(s, run);
      }
    } else {
      UnguardedWrite(g);
    }
  }
}
