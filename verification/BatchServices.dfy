// ingestReading, the confirmation of a batch and the scheduler's claim-and-
// release loop as code over the same tables. Anybody else may act between any
// two statements.
module BatchServices {
  import opened Basics
  import opened ReadingBatches

  // ── Specification of one scheduler pass ──────────────────────────────────

  // How aggregation and triggerSubmission end for a claimed batch.
  datatype Outcome = Accepted | FailsBeforeInsert | FailsAfterInsert

  // How one iteration ends: another replica has the batch, its submission was
  // accepted, or it failed and the release went through or threw.
  datatype Turn = Lost | Submitted | Released | ReleaseThrew

  // The turns that an outcome allows.
  predicate Follows(turn: Turn, x: Outcome) {
    turn == Lost || (turn == Submitted <==> x == Accepted)
  }

  function TurnScript(id: int, turn: Turn, x: Outcome): seq<Action> {
    if turn == Lost then [Claim(id, false)]
    else
      match x
      case Accepted => [Claim(id, true), TriggerSubmission(id), LetGo(id)]
      case FailsBeforeInsert => [Claim(id, true), Release(id, turn == ReleaseThrew)]
      case FailsAfterInsert => [Claim(id, true), TriggerSubmission(id), Release(id, turn == ReleaseThrew)]
  }

  // Outcomes not listed are Accepted.
  function OutcomeOf(answers: map<int, Outcome>, id: int): Outcome {
    if id in answers then answers[id] else Accepted
  }

  // A pass over `found`, one turn after the other.
  function PassScript(found: seq<int>, turns: seq<Turn>, answers: map<int, Outcome>): seq<Action>
    requires |turns| <= |found|
  {
    if turns == [] then []
    else
      var n := |turns| - 1;
      PassScript(found, turns[..n], answers) + TurnScript(found[n], turns[n], OutcomeOf(answers, found[n]))
  }

  // The turns of a pass follow the outcomes, and a release that throws ends it.
  predicate Passes(found: seq<int>, turns: seq<Turn>, answers: map<int, Outcome>) {
    && |turns| <= |found|
    && (forall k :: 0 <= k < |turns| ==> Follows(turns[k], OutcomeOf(answers, found[k])))
    && (forall k :: 0 <= k < |turns| - 1 ==> turns[k] != ReleaseThrew)
  }

  predicate Threw(turns: seq<Turn>) { turns != [] && turns[|turns| - 1] == ReleaseThrew }

  predicate IsSubmittedOf(batches: map<int, Batch>, project: int, id: int) {
    id in batches && batches[id].project == project && batches[id].status == SUBMITTED
  }

  datatype Counters = Counters(submitted: nat, failed: nat)

  // SELECT ... ORDER BY created_at ASC.
  ghost predicate ListedByAge(batches: map<int, Batch>, ids: set<int>, found: seq<int>) {
    && (forall id :: id in found <==> id in ids) && (forall k :: 0 <= k < |found| ==> found[k] in ids)
    && ids <= batches.Keys
    && (forall i, k :: 0 <= i < k < |found| ==> found[i] != found[k])
    && (forall i, k :: 0 <= i < k < |found| ==>
         found[i] in batches && found[k] in batches && batches[found[i]].createdAt <= batches[found[k]].createdAt)
  }

  // What resolveBatch does; `found` is what its SELECT returns.
  function ResolveScript(project: int, newId: int, key: Key, cutoff: int, found: Option<int>): seq<Action> {
    [Close(project, cutoff), Open(project, newId)] +
      [if found.None? then SelectNone(project) else Select(project, found.value, key)]
  }

  // What an ingestion does.
  function IngestScript(project: int, newId: int, key: Key, cutoff: int, found: Option<int>): seq<Action> {
    ResolveScript(project, newId, key, cutoff, found) + if found.None? then [] else [Insert(Reading(key, found.value))]
  }

  lemma InvMatchesKeys(s: State)
    requires Inv(s)
    ensures s.batches.Keys == s.history.Keys && s.seen <= s.batches.Keys && s.held.Keys <= s.batches.Keys
  {
  }

  // ── Runs, and who takes which step ───────────────────────────────────────

  // None: a step of somebody else.
  ghost predicate StepsTo(s: State, mine: Option<Action>, t: State) {
    match mine
    case None => Leads(s, t)
    case Some(a) => Possible(s, a) && Apply(s, a) == t
  }

  ghost predicate Trail(chain: seq<State>, steps: seq<Option<Action>>) {
    && |chain| == |steps| + 1
    && forall i, k {:trigger StepsTo(chain[i], steps[i], chain[k])} ::
         0 <= i < |steps| && k == i + 1 ==> StepsTo(chain[i], steps[i], chain[k])
  }

  function Own(steps: seq<Option<Action>>): seq<Action> {
    if steps == [] then [] else
      var last := steps[|steps| - 1];
      Own(steps[..|steps| - 1]) + if last.Some? then [last.value] else []
  }

  // `t` can be reached from `s`, the call's own actions on the way being `own`.
  ghost predicate ReachesWith(s: State, t: State, own: seq<Action>) {
    exists chain, steps :: Trail(chain, steps) && chain[0] == s && chain[|steps|] == t && Own(steps) == own
  }

  lemma StartsWith(s: State)
    ensures ReachesWith(s, s, [])
  {
    var chain, steps: seq<Option<Action>> := [s], [];
    assert Trail(chain, steps) && chain[0] == s && chain[|steps|] == s && Own(steps) == [];
  }

  lemma TrailGrows(chain: seq<State>, steps: seq<Option<Action>>, a: Action)
    requires Trail(chain, steps) && Possible(chain[|steps|], a)
    ensures Trail(chain + [Apply(chain[|steps|], a)], steps + [Some(a)]) && Own(steps + [Some(a)]) == Own(steps) + [a]
  {
    var longer, more := chain + [Apply(chain[|steps|], a)], steps + [Some(a)];
    assert more[..|steps|] == steps;
    forall i, k | 0 <= i < |more| && k == i + 1 ensures StepsTo(longer[i], more[i], longer[k]) {
      assert i < |steps| ==> StepsTo(chain[i], steps[i], chain[k]);
    }
  }

  lemma AdvanceWith(s0: State, s: State, own: seq<Action>, a: Action)
    requires ReachesWith(s0, s, own) && Possible(s, a)
    ensures ReachesWith(s0, Apply(s, a), own + [a])
  {
    var chain, steps :| Trail(chain, steps) && chain[0] == s0 && chain[|steps|] == s && Own(steps) == own;
    TrailGrows(chain, steps, a);
    var longer, more := chain + [Apply(s, a)], steps + [Some(a)];
    assert longer[0] == s0 && longer[|more|] == Apply(s, a);
  }

  // Whoever took the steps, it is a run.
  lemma WithIsReached(s: State, t: State, own: seq<Action>)
    requires ReachesWith(s, t, own)
    ensures Reaches(s, t)
  {
    var chain, steps :| Trail(chain, steps) && chain[0] == s && chain[|steps|] == t && Own(steps) == own;
    forall i, k | 0 <= i < k < |chain| && k == i + 1 ensures Leads(chain[i], chain[k]) {
      assert StepsTo(chain[i], steps[i], chain[k]);
    }
    assert Chain(chain);
  }

  lemma ReachedHasUniqueKeys(s: State, t: State, own: seq<Action>)
    requires Inv(s) && ReachesWith(s, t, own)
    ensures forall q, r :: q in t.readings && r in t.readings && q.key == r.key ==> q == r
  {
    WithIsReached(s, t, own);
    ReachedKeepsInv(s, t);
  }

  // What the tables do not show: the protocol's record of everybody.
  datatype Hidden = Hidden(inflight: multiset<Reading>, loaded: multiset<Loaded>, seen: set<int>,
      held: map<int, bool>, history: map<int, History>)

  // The call being followed: where it started, what it did, and what only it
  // may touch: the batches it has claimed, the id it will insert, the reading
  // it has resolved, the row it has loaded.
  datatype Call = Call(start: State, own: seq<Action>, mine: map<int, bool>, reserved: Option<int>,
      resolved: Option<Reading>, confirming: Option<Loaded>)

  class Tables {
    var batches: map<int, Batch>
    var readings: seq<Reading>
    var now: int
    ghost var hidden: Hidden
    ghost var call: Call

    ghost function Snapshot(): State
      reads this
    {
      State(batches, readings, now, hidden.inflight, hidden.loaded, hidden.seen, hidden.held, hidden.history)
    }

    constructor ()
      ensures Snapshot() == INITIAL && KeysMatch()
    {
      batches, readings, now := map[], [], 0;
      hidden := Hidden(multiset{}, multiset{}, {}, map[], map[]);
    }

    ghost predicate KeysMatch()
      reads this
    {
      batches.Keys == hidden.history.Keys && hidden.seen <= batches.Keys && hidden.held.Keys <= batches.Keys
    }

    // What nobody else takes away from the call.
    ghost predicate Keeps()
      reads this
    {
      && KeysMatch()
      && call.mine.Keys <= hidden.held.Keys && (forall id :: id in call.mine ==> hidden.held[id] == call.mine[id])
      && (call.reserved.Some? ==> call.reserved.value !in batches)
      && (call.resolved.Some? ==> call.resolved.value in hidden.inflight && call.resolved.value.batch in batches)
      && (call.confirming.Some? ==> call.confirming.value in hidden.loaded && call.confirming.value.id in batches)
    }

    // Every state the call passes through is reachable.
    ghost predicate Following()
      reads this
    {
      ReachesWith(call.start, Snapshot(), call.own) && Keeps()
    }

    // Anybody else may do anything, except touch what only this call may: a
    // caller knows nothing of the state afterwards but this contract.
    method Interfere()
      requires Following()
      modifies `batches, `readings, `now, `hidden
      ensures Following() && old(hidden).seen <= hidden.seen
    {
    }

    ghost method Begin()
      requires KeysMatch()
      modifies `call
      ensures Following() && call == Call(Snapshot(), [], map[], None, None, None)
    {
      call := Call(Snapshot(), [], map[], None, None, None);
      StartsWith(Snapshot());
    }

    // The call takes `a`, goes on as `next`, and leaves it to its code to write
    // the tables.
    ghost method Take(a: Action, next: Call)
      requires Following() && Possible(Snapshot(), a)
      requires next.start == call.start && next.own == call.own + [a]
      modifies `hidden, `call
      ensures call == next
      ensures var t := Apply(old(Snapshot()), a); hidden == Hidden(t.inflight, t.loaded, t.seen, t.held, t.history)
      ensures ReachesWith(call.start, Apply(old(Snapshot()), a), call.own)
    {
      AdvanceWith(call.start, Snapshot(), call.own, a);
      var t := Apply(Snapshot(), a);
      hidden, call := Hidden(t.inflight, t.loaded, t.seen, t.held, t.history), next;
    }

    // ── SensorsService ─────────────────────────────────────────────────────

    // The UPDATE that closes an expired batch.
    method CloseExpiredBatch(project: int, cutoff: int)
      requires Following() && cutoff <= now - BATCH_WINDOW_MS
      modifies `batches, `hidden, `call
      ensures Following() && call == old(call).(own := old(call).own + [Close(project, cutoff)])
      ensures Snapshot() == AfterClose(old(Snapshot()), project, cutoff) && batches.Keys == old(batches).Keys
      ensures forall id :: id in old(batches) ==>
        var b := old(batches)[id];
        batches[id] == if b.project == project && b.status == PENDING &&
          b.createdAt < cutoff then b.(status := SUBMITTED) else b
    {
      Take(Close(project, cutoff), call.(own := call.own + [Close(project, cutoff)]));
      batches := CloseExpired(batches, project, cutoff);
    }

    // The INSERT that opens one unless the project has one.
    method OpenFreshBatch(project: int, newId: int)
      requires Following() && call.reserved == Some(newId)
      modifies `batches, `hidden, `call
      ensures Following() && call == old(call).(reserved := None, own := old(call).own + [Open(project, newId)])
      ensures Snapshot() == AfterOpen(old(Snapshot()), project, newId)
      ensures batches == if exists id :: id in old(batches) && IsPendingOf(old(batches), project, id) then old(batches)
        else old(batches)[newId := Batch(project, PENDING, 0, None, now)]
    {
      Take(Open(project, newId), call.(reserved := None, own := call.own + [Open(project, newId)]));
      if !HasPending(batches, project) {
        batches := batches[newId := Batch(project, PENDING, 0, None, now)];
      }
    }

    // The SELECT; without a row the call fails.
    method SelectBatch(project: int, ghost key: Key) returns (found: Option<int>)
      requires Following() && call.resolved == None
      modifies `hidden, `call
      ensures Following() && (found.None? <==> !HasPending(batches, project))
      ensures found.None? ==> call == old(call).(own := old(call).own + [SelectNone(project)])
      ensures found.Some? ==> IsPendingOf(batches, project, found.value)
      ensures found.Some? ==>
        call == old(call).(resolved := Some(Reading(key, found.value)),
          own := old(call).own + [Select(project, found.value, key)])
    {
      if !HasPending(batches, project) {
        Take(SelectNone(project), call.(own := call.own + [SelectNone(project)]));
        return None;
      }
      var id :| id in batches && IsPendingOf(batches, project, id);
      Take(Select(project, id, key),
        call.(resolved := Some(Reading(key, id)), own := call.own + [Select(project, id, key)]));
      found := Some(id);
    }

    method CloseAndOpen(project: int, newId: int)
      requires Following() && newId !in batches && call.reserved == None
      modifies `batches, `readings, `now, `hidden, `call
      ensures Following()
      ensures call ==
        old(call).(own := old(call).own + [Close(project, old(now) - BATCH_WINDOW_MS), Open(project, newId)])
    {
      call := call.(reserved := Some(newId));
      CloseExpiredBatch(project, now - BATCH_WINDOW_MS);
      Interfere();
      OpenFreshBatch(project, newId);
    }

    method ResolveBatch(project: int, newId: int, ghost key: Key) returns (found: Option<int>)
      requires Following() && newId !in batches && call.reserved == None && call.resolved == None
      modifies `batches, `readings, `now, `hidden, `call
      ensures Following()
      ensures call == old(call).(
        resolved := if found.Some? then Some(Reading(key, found.value)) else None,
        own := old(call).own + ResolveScript(project, newId, key, old(now) - BATCH_WINDOW_MS, found))
    {
      CloseAndOpen(project, newId);
      Interfere();
      found := SelectBatch(project, key);
    }

    // The transaction: insert the reading and increment the batch's counter, or
    // return the row that is already stored.
    method InsertReading(r: Reading) returns (saved: Reading)
      requires Following() && call.resolved == Some(r)
      modifies `batches, `readings, `hidden, `call
      ensures Following() && call == old(call).(resolved := None, own := old(call).own + [Insert(r)])
      ensures Snapshot() == AfterInsert(old(Snapshot()), r)
      ensures if exists q ::
        q in old(readings) && q.key == r.key then readings == old(readings) && batches == old(batches)
        else
          readings == old(readings) + [r] && r.batch in old(batches) &&
          batches ==
            old(batches)[r.batch := old(batches)[r.batch].(readingCount := old(batches)[r.batch].readingCount + 1)]
      ensures saved in readings && saved.key == r.key && (Stored(old(readings), r.key) || saved == r)
    {
      Take(Insert(r), call.(resolved := None, own := call.own + [Insert(r)]));
      if Stored(readings, r.key) {
        saved :| saved in readings && saved.key == r.key;
      } else {
        readings := readings + [r];
        var b := batches[r.batch];
        batches := batches[r.batch := b.(readingCount := b.readingCount + 1)];
        saved := r;
      }
    }

    // None: no PENDING batch was found. A fresh reading joins the batch found; a
    // replay returns the one stored row with its key.
    method IngestReading(project: int, newId: int, key: Key) returns (saved: Option<Reading>, ghost found: Option<int>)
      requires Inv(Snapshot()) && newId !in batches
      modifies this
      ensures Following() && call.start == old(Snapshot())
      ensures call.own == IngestScript(project, newId, key, old(now) - BATCH_WINDOW_MS, found)
      ensures saved.Some? <==> found.Some?
      ensures saved.Some? ==> saved.value in readings && saved.value.key == key
      ensures saved.Some? ==> forall r :: r in readings && r.key == key ==> r == saved.value
    {
      ghost var before := Snapshot();
      InvMatchesKeys(before);
      saved, found := ResolveAndInsert(project, newId, key);
      ReachedHasUniqueKeys(before, Snapshot(), call.own);
    }

    method ResolveAndInsert(project: int, newId: int, key: Key)
      returns (saved: Option<Reading>, ghost found: Option<int>)
      requires KeysMatch() && newId !in batches
      modifies this
      ensures Following() && call.start == old(Snapshot())
      ensures call.own == IngestScript(project, newId, key, old(now) - BATCH_WINDOW_MS, found)
      ensures saved.Some? <==> found.Some?
      ensures saved.Some? ==> saved.value in readings && saved.value.key == key
    {
      Begin();
      var batch := ResolveBatch(project, newId, key);
      found := batch;
      saved := None;
      ghost var script := ResolveScript(project, newId, key, old(now) - BATCH_WINDOW_MS, found);
      assert call.own == script;
      if batch.Some? {
        Interfere();
        var row := InsertReading(Reading(key, batch.value));
        saved := Some(row);
        assert call.own == script + [Insert(Reading(key, batch.value))];
      }
    }

    // ── Credits of a confirmed submission ──────────────────────────────────

    // Loads the submission's own batch, of its project and still SUBMITTED.
    method FindSubmittedBatch(batchId: Option<int>, project: int) returns (found: Option<Loaded>)
      requires Following() && call.confirming == None
      modifies `hidden, `call
      ensures Following()
      ensures found.Some? <==> batchId.Some? && IsSubmittedOf(batches, project, batchId.value)
      ensures found.Some? ==> found.value == Loaded(batchId.value, batches[batchId.value], |readings|)
      ensures found.Some? ==>
        call == old(call).(confirming := found, own := old(call).own + [LoadToConfirm(batchId.value)])
      ensures found.None? ==> call == old(call) && hidden == old(hidden)
    {
      if batchId.None? || !IsSubmittedOf(batches, project, batchId.value) {
        return None;
      }
      found := Some(Loaded(batchId.value, batches[batchId.value], |readings|));
      Take(LoadToConfirm(batchId.value), call.(confirming := found, own := call.own + [LoadToConfirm(batchId.value)]));
    }

    // Writes the whole loaded row back.
    method SaveBatch(c: Loaded, credits: int)
      requires Following() && call.confirming == Some(c)
      modifies `batches, `hidden, `call
      ensures Following() && call == old(call).(confirming := None, own := old(call).own + [SaveConfirmed(c, credits)])
      ensures Snapshot() == AfterConfirm(old(Snapshot()), c, credits)
    {
      Take(SaveConfirmed(c, credits), call.(confirming := None, own := call.own + [SaveConfirmed(c, credits)]));
      batches := batches[c.id := c.row.(status := CONFIRMED, credits := Some(credits))];
    }

    method ConfirmSubmittedBatch(batchId: Option<int>, project: int, credits: int) returns (confirmed: bool)
      requires KeysMatch()
      modifies this
      ensures Following() && call.start == old(Snapshot())
      ensures confirmed <==>
        batchId.Some? && batchId.value in old(batches) && old(batches)[batchId.value].project == project &&
        old(batches)[batchId.value].status == SUBMITTED
      ensures confirmed ==>
        var c := Loaded(batchId.value, old(batches)[batchId.value], |old(readings)|);
        call.own == [LoadToConfirm(batchId.value), SaveConfirmed(c, credits)]
      ensures confirmed ==>
        batchId.value in batches &&
        batches[batchId.value] == old(batches)[batchId.value].(status := CONFIRMED, credits := Some(credits))
      ensures !confirmed ==> call.own == [] && Snapshot() == old(Snapshot())
    {
      Begin();
      var found := FindSubmittedBatch(batchId, project);
      confirmed := found.Some?;
      if confirmed {
        Interfere();
        SaveBatch(found.value, credits);
      }
    }

    // ── OracleSchedulerService ─────────────────────────────────────────────

    method FindEligibleBatches(project: int) returns (found: seq<int>)
      requires Following()
      modifies `hidden, `call
      ensures Following() && call == old(call).(own := old(call).own + [FindEligible(project)])
      ensures ListedByAge(batches, EligibleBatches(old(Snapshot()), project), found)
      ensures forall id :: id in found <==>
        id in batches && batches[id].project == project && batches[id].status == PENDING &&
        batches[id].readingCount > 0 && now - batches[id].createdAt > 15 * 60 * 1000
      ensures forall i, k :: 0 <= i < k < |found| ==>
        found[i] in batches && found[k] in batches && batches[found[i]].createdAt <= batches[found[k]].createdAt
      ensures forall k :: 0 <= k < |found| ==> found[k] in hidden.seen
    {
      Take(FindEligible(project), call.(own := call.own + [FindEligible(project)]));
      found := SortByAge(set id | id in batches && Eligible(batches[id], project, now));
      assert ListedByAge(batches, EligibleBatches(old(Snapshot()), project), found);
    }

    method SortByAge(ids: set<int>) returns (found: seq<int>)
      requires ids <= batches.Keys
      ensures ListedByAge(batches, ids, found)
    {
      found := [];
      var left := ids;
      while left != {}
        invariant left <= ids && forall id :: id in ids ==> (id in left <==> id !in found)
        invariant ListedByAge(batches, ids - left, found)
        invariant forall f, id :: f in found && id in left ==>
          f in batches && batches[f].createdAt <= batches[id].createdAt
        decreases left
      {
        var oldest := Oldest(left);
        left := left - {oldest};
        forall i | 0 <= i < |found|
          ensures found[i] != oldest && batches[found[i]].createdAt <= batches[oldest].createdAt
        {
          assert found[i] in found;
        }
        found := found + [oldest];
      }
      assert ids - left == ids;
    }

    method Oldest(ids: set<int>) returns (id: int)
      requires ids != {} && ids <= batches.Keys
      ensures id in ids && forall k :: k in ids ==> batches[id].createdAt <= batches[k].createdAt
    {
      ghost var _ := Member(ids);
      id :| id in ids;
      var left := ids - {id};
      while left != {}
        invariant id in ids && left <= ids
        invariant forall k :: k in ids && k !in left ==> batches[id].createdAt <= batches[k].createdAt
        decreases left
      {
        ghost var _ := Member(left);
        var k :| k in left;
        left := left - {k};
        if batches[k].createdAt < batches[id].createdAt {
          id := k;
        }
      }
    }

    // The conditional UPDATE that claims a batch.
    method ClaimBatch(id: int) returns (affected: bool)
      requires Following() && id in hidden.seen && id !in call.mine
      modifies `batches, `hidden, `call
      ensures Following() && hidden.seen == old(hidden).seen
      ensures id in old(batches) && affected == (old(batches)[id].status == PENDING)
      ensures batches == if affected then old(batches)[id := old(batches)[id].(status := SUBMITTED)] else old(batches)
      ensures call == old(call).(
        mine := if affected then old(call).mine[id := false] else old(call).mine,
        own := old(call).own + [Claim(id, affected)])
    {
      var b := batches[id];
      affected := b.status == PENDING;
      Take(Claim(id, affected),
        call.(mine := if affected then call.mine[id := false] else call.mine, own := call.own + [Claim(id, affected)]));
      if affected {
        batches := batches[id := b.(status := SUBMITTED)];
      }
    }

    // The conditional UPDATE that releases it; true when the index makes it throw.
    method ReleaseBatch(id: int) returns (threw: bool)
      requires Following() && id in call.mine
      modifies `batches, `hidden, `call
      ensures Following() && hidden.seen == old(hidden).seen
      ensures call == old(call).(mine := old(call).mine - {id}, own := old(call).own + [Release(id, threw)])
      ensures id in old(batches)
      ensures batches ==
        if old(batches)[id].status == SUBMITTED && !threw
        then old(batches)[id := old(batches)[id].(status := PENDING)] else old(batches)
      ensures threw == (old(batches)[id].status == SUBMITTED && HasPending(old(batches), old(batches)[id].project))
    {
      var b := batches[id];
      var free := !HasPending(batches, b.project);
      threw := b.status == SUBMITTED && !free;
      Take(Release(id, threw), call.(mine := call.mine - {id}, own := call.own + [Release(id, threw)]));
      if b.status == SUBMITTED && free {
        batches := batches[id := b.(status := PENDING)];
      }
    }

    // triggerSubmission commits the submission row.
    ghost method TriggerBatch(id: int)
      requires Following() && id in call.mine && !call.mine[id]
      modifies `hidden, `call
      ensures Following() && hidden.seen == old(hidden).seen
      ensures call == old(call).(mine := old(call).mine[id := true], own := old(call).own + [TriggerSubmission(id)])
    {
      Take(TriggerSubmission(id), call.(mine := call.mine[id := true], own := call.own + [TriggerSubmission(id)]));
    }

    ghost method LetGoOfBatch(id: int)
      requires Following() && id in call.mine
      modifies `hidden, `call
      ensures Following() && hidden.seen == old(hidden).seen
      ensures call == old(call).(mine := old(call).mine - {id}, own := old(call).own + [LetGo(id)])
    {
      Take(LetGo(id), call.(mine := call.mine - {id}, own := call.own + [LetGo(id)]));
    }

    // One iteration, after the shutdown test.
    method SubmitBatch(id: int, x: Outcome) returns (turn: Turn)
      requires Following() && id in hidden.seen && call.mine == map[]
      modifies `batches, `readings, `now, `hidden, `call
      ensures Following() && old(hidden).seen <= hidden.seen && Follows(turn, x)
      ensures call == old(call).(own := old(call).own + TurnScript(id, turn, x))
    {
      Interfere();
      var affected := ClaimBatch(id);
      if affected {
        turn := WorkOnBatch(id, x);
      } else {
        turn := Lost;
      }
    }

    // Aggregate and trigger; release on any error.
    method WorkOnBatch(id: int, x: Outcome) returns (turn: Turn)
      requires Following() && call.mine == map[id := false]
      modifies `batches, `readings, `now, `hidden, `call
      ensures Following() && old(hidden).seen <= hidden.seen && turn != Lost && Follows(turn, x)
      ensures call == old(call).(mine := map[], own := old(call).own + TurnScript(id, turn, x)[1..])
    {
      Interfere();
      if x == FailsBeforeInsert {
        turn := GiveBack(id);
      } else {
        TriggerBatch(id);
        Interfere();
        turn := Conclude(id, x);
      }
    }

    method GiveBack(id: int) returns (turn: Turn)
      requires Following() && call.mine.Keys == {id}
      modifies `batches, `hidden, `call
      ensures Following() && hidden.seen == old(hidden).seen && (turn == Released || turn == ReleaseThrew)
      ensures call == old(call).(mine := map[], own := old(call).own + [Release(id, turn == ReleaseThrew)])
    {
      var threw := ReleaseBatch(id);
      assert call.mine == map[];
      turn := if threw then ReleaseThrew else Released;
    }

    method Conclude(id: int, x: Outcome) returns (turn: Turn)
      requires Following() && call.mine == map[id := true] && x != FailsBeforeInsert
      modifies `batches, `hidden, `call
      ensures Following() && hidden.seen == old(hidden).seen && turn != Lost && Follows(turn, x)
      ensures call == old(call).(mine := map[], own := old(call).own + TurnScript(id, turn, x)[2..])
    {
      if x == Accepted {
        LetGoOfBatch(id);
        turn := Submitted;
      } else {
        turn := GiveBack(id);
      }
    }

    // submitProjectBatches: `calm` is how many iterations run before a shutdown
    // is requested. None: a release threw, and the counters went with it.
    method SubmitProjectBatches(project: int, answers: map<int, Outcome>, calm: nat)
      returns (result: Option<Counters>, ghost found: seq<int>, ghost turns: seq<Turn>)
      requires KeysMatch()
      modifies this
      ensures Following() && call.start == old(Snapshot())
      ensures ListedByAge(old(batches), EligibleBatches(old(Snapshot()), project), found)
      ensures Passes(found, turns, answers) && (Threw(turns) || |turns| == if calm < |found| then calm else |found|)
      ensures call.own == [FindEligible(project)] + PassScript(found, turns, answers)
      ensures result ==
        if Threw(turns) then None else Some(Counters(multiset(turns)[Submitted], multiset(turns)[Released]))
    {
      var list := ListEligible(project);
      found := list;
      var submitted, failed, threw;
      submitted, failed, threw, turns := SubmitEach(list, answers, calm);
      result := if threw then None else Some(Counters(submitted, failed));
    }

    method ListEligible(project: int) returns (found: seq<int>)
      requires KeysMatch()
      modifies `hidden, `call
      ensures Following() && call == Call(old(Snapshot()), [FindEligible(project)], map[], None, None, None)
      ensures ListedByAge(batches, EligibleBatches(old(Snapshot()), project), found)
      ensures forall k :: 0 <= k < |found| ==> found[k] in hidden.seen
    {
      Begin();
      found := FindEligibleBatches(project);
    }

    // What the loop has done in these turns; a turn that throws is not counted.
    ghost predicate Progress(begun: Call, found: seq<int>, turns: seq<Turn>, answers: map<int, Outcome>,
        submitted: nat, failed: nat)
      reads `call
    {
      && Passes(found, turns, answers)
      && call == begun.(own := begun.own + PassScript(found, turns, answers))
      && submitted == multiset(turns)[Submitted] && failed == multiset(turns)[Released]
    }

    method SubmitEach(found: seq<int>, answers: map<int, Outcome>, calm: nat)
      returns (submitted: nat, failed: nat, threw: bool, ghost turns: seq<Turn>)
      requires Following() && call.mine == map[] && forall k :: 0 <= k < |found| ==> found[k] in hidden.seen
      modifies `batches, `readings, `now, `hidden, `call
      ensures Following() && Progress(old(call), found, turns, answers, submitted, failed)
      ensures threw == Threw(turns) && (threw || |turns| == if calm < |found| then calm else |found|)
    {
      submitted, failed, threw, turns := 0, 0, false, [];
      ghost var begun := call;
      assert begun.own + PassScript(found, [], answers) == begun.own;
      var i := 0;
      while i < |found| && i < calm && !threw
        invariant 0 <= i <= |found| && |turns| == i && i <= calm && threw == Threw(turns)
        invariant Following() && Progress(begun, found, turns, answers, submitted, failed)
        invariant forall k :: 0 <= k < |found| ==> found[k] in hidden.seen
      {
        submitted, failed, threw, turns := SubmitOne(found, i, answers, submitted, failed, turns, begun);
        i := i + 1;
      }
    }

    method SubmitOne(found: seq<int>, i: nat, answers: map<int, Outcome>, submitted: nat, failed: nat,
        ghost turns: seq<Turn>, ghost begun: Call)
      returns (submitted': nat, failed': nat, threw: bool, ghost more: seq<Turn>)
      requires Following() && begun.mine == map[] && i == |turns| < |found| && found[i] in hidden.seen
      requires Progress(begun, found, turns, answers, submitted, failed) && !Threw(turns)
      modifies `batches, `readings, `now, `hidden, `call
      ensures Following() && old(hidden).seen <= hidden.seen
      ensures |more| == i + 1 && threw == Threw(more) && Progress(begun, found, more, answers, submitted', failed')
    {
      var x := OutcomeOf(answers, found[i]);
      var turn := SubmitBatch(found[i], x);
      more := turns + [turn];
      assert more[..i] == turns;
      submitted' := if turn == Submitted then submitted + 1 else submitted;
      failed' := if turn == Released then failed + 1 else failed;
      threw := turn == ReleaseThrew;
      Associates(begun.own, PassScript(found, turns, answers), TurnScript(found[i], turn, x));
    }
  }
}
