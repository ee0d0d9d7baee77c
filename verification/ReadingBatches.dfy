// Reading batches: the collection window, the one-PENDING-per-project index,
// claims and releases by any number of scheduler replicas, reading counts and
// credits. Every SQL statement or transaction is one action.
module ReadingBatches {
  import opened Basics

  datatype Status = PENDING | SUBMITTED | CONFIRMED | FAILED

  const BATCH_WINDOW_MS := 15 * 60 * 1000

  datatype Batch = Batch(project: int, status: Status, readingCount: int, credits: Option<int>, createdAt: int)

  // (device, timestamp, signature) is unique in the table.
  datatype Key = Key(device: int, timestamp: int, signature: int)
  datatype Reading = Reading(key: Key, batch: int)

  // How often the scheduler replicas claimed and released a batch and how many
  // submissions they created for it.
  datatype History = History(claims: int, releases: int, submissions: int)

  // A batch row that the processor or reconcile() has loaded to confirm it;
  // saving it writes every column back. known: how many readings were stored
  // at the load.
  datatype Loaded = Loaded(id: int, row: Batch, known: int)

  // inflight: readings whose batch is resolved but which are not inserted yet.
  // seen: batches some replica found eligible. held: batches some replica has
  // claimed and not yet let go, with whether their submission row exists.
  datatype State = State(
    batches: map<int, Batch>,
    readings: seq<Reading>,
    now: int,
    inflight: multiset<Reading>,
    loaded: multiset<Loaded>,
    seen: set<int>,
    held: map<int, bool>,
    history: map<int, History>)

  const INITIAL := State(map[], [], 0, multiset{}, multiset{}, {}, map[], map[])

  // Close, Open and Select are the three statements of resolveBatch, Insert is
  // the transaction of ingestReading.
  datatype Action =
    | Tick(to: int)
    | Close(project: int, cutoff: int)
    | Open(project: int, newId: int)
    | Select(project: int, id: int, key: Key)
    | SelectNone(project: int)
    | Insert(r: Reading)
    | FindEligible(project: int)
    | Claim(id: int, affected: bool)
    | TriggerSubmission(id: int)
    | LetGo(id: int)
    | Release(id: int, threw: bool)
    | LoadToConfirm(id: int)
    | SaveConfirmed(c: Loaded, credits: int)
    | IndexerConfirm(project: int, amount: int)

  // ── Statements ───────────────────────────────────────────────────────────

  predicate IsPendingOf(batches: map<int, Batch>, project: int, id: int) {
    id in batches && batches[id].project == project && batches[id].status == PENDING
  }

  predicate HasPending(batches: map<int, Batch>, project: int) {
    exists id :: id in batches && IsPendingOf(batches, project, id)
  }

  // Close what is older than the window.
  function Closed(b: Batch, project: int, cutoff: int): Batch {
    if b.project == project && b.status == PENDING && b.createdAt < cutoff then b.(status := SUBMITTED) else b
  }

  function CloseExpired(batches: map<int, Batch>, project: int, cutoff: int): map<int, Batch> {
    map id | id in batches :: Closed(batches[id], project, cutoff)
  }

  function AfterClose(s: State, project: int, cutoff: int): State {
    s.(batches := CloseExpired(s.batches, project, cutoff))
  }

  // INSERT ... ON CONFLICT DO NOTHING.
  function AfterOpen(s: State, project: int, newId: int): State {
    if HasPending(s.batches, project) then s
    else s.(batches := s.batches[newId := Batch(project, PENDING, 0, None, s.now)],
      history := s.history[newId := History(0, 0, 0)])
  }

  // The first two statements with nothing in between.
  function AfterResolve(s: State, project: int, newId: int): State {
    AfterOpen(AfterClose(s, project, s.now - BATCH_WINDOW_MS), project, newId)
  }

  predicate Stored(readings: seq<Reading>, key: Key) {
    exists r :: r in readings && r.key == key
  }

  // The insert-and-increment transaction; a duplicate rolls it back.
  function AfterInsert(s: State, r: Reading): State
    requires r.batch in s.batches
  {
    var t := s.(inflight := s.inflight - multiset{r});
    if Stored(s.readings, r.key) then t
    else
      var b := s.batches[r.batch];
      t.(readings := s.readings + [r], batches := s.batches[r.batch := b.(readingCount := b.readingCount + 1)])
  }

  // The test an insertion could make before it stores the reading: the batch it
  // resolved is still inside its window.
  predicate InWindow(s: State, r: Reading) {
    r.batch in s.batches && s.now - BATCH_WINDOW_MS <= s.batches[r.batch].createdAt
  }

  predicate Eligible(b: Batch, project: int, now: int) {
    b.project == project && b.status == PENDING && b.readingCount > 0 && b.createdAt < now - BATCH_WINDOW_MS
  }

  function EligibleBatches(s: State, project: int): set<int> {
    set id | id in s.batches && Eligible(s.batches[id], project, s.now)
  }

  // UPDATE ... SET status = 'submitted' WHERE id AND status = 'pending'.
  function AfterClaim(s: State, id: int): State
    requires id in s.batches && id in s.history
  {
    var b, h := s.batches[id], s.history[id];
    if b.status != PENDING then s
    else s.(batches := s.batches[id := b.(status := SUBMITTED)], held := s.held[id := false],
      history := s.history[id := h.(claims := h.claims + 1)])
  }

  // The row of triggerSubmission is committed.
  function AfterTrigger(s: State, id: int): State
    requires id in s.history
  {
    var h := s.history[id];
    s.(held := s.held[id := true], history := s.history[id := h.(submissions := h.submissions + 1)])
  }

  function AfterLetGo(s: State, id: int): State {
    s.(held := s.held - {id})
  }

  // UPDATE ... SET status = 'pending' WHERE id AND status = 'submitted'; the
  // partial unique index makes it throw if the project has a PENDING batch.
  predicate Releasable(s: State, id: int) {
    id in s.batches && s.batches[id].status == SUBMITTED && !HasPending(s.batches, s.batches[id].project)
  }

  predicate ReleaseThrows(s: State, id: int) {
    id in s.batches && s.batches[id].status == SUBMITTED && HasPending(s.batches, s.batches[id].project)
  }

  function AfterRelease(s: State, id: int): State
    requires id in s.batches && id in s.history
  {
    var b, h := s.batches[id], s.history[id];
    if !Releasable(s, id) then AfterLetGo(s, id)
    else AfterLetGo(s, id).(batches := s.batches[id := b.(status := PENDING)],
      history := s.history[id := h.(releases := h.releases + 1)])
  }

  function AfterLoad(s: State, id: int): State
    requires id in s.batches
  {
    s.(loaded := s.loaded + multiset{Loaded(id, s.batches[id], |s.readings|)})
  }

  function AfterConfirm(s: State, c: Loaded, credits: int): State {
    s.(batches := s.batches[c.id := c.row.(status := CONFIRMED, credits := Some(credits))],
      loaded := s.loaded - multiset{c})
  }

  // The indexer's UPDATE with COALESCE.
  function Minted(b: Batch, project: int, amount: int): Batch {
    if b.project != project || (b.status != PENDING && b.status != SUBMITTED) then b
    else b.(status := CONFIRMED, credits := if b.credits.Some? then b.credits else Some(amount))
  }

  function AfterMint(s: State, project: int, amount: int): State {
    s.(batches := map id | id in s.batches :: Minted(s.batches[id], project, amount))
  }

  // ── Actions ──────────────────────────────────────────────────────────────

  predicate Possible(s: State, a: Action) {
    match a
    case Tick(to) => s.now <= to
    case Close(_, cutoff) => cutoff <= s.now - BATCH_WINDOW_MS
    case Open(_, newId) => newId !in s.batches
    case Select(project, id, _) => IsPendingOf(s.batches, project, id)
    case SelectNone(project) => !HasPending(s.batches, project)
    case Insert(r) => r in s.inflight && r.batch in s.batches
    case FindEligible(_) => true
    case Claim(id, affected) =>
      id in s.seen && id in s.batches && id in s.history && affected == (s.batches[id].status == PENDING)
    case TriggerSubmission(id) => id in s.held && !s.held[id] && id in s.history
    case LetGo(id) => id in s.held
    case Release(id, threw) =>
      id in s.held && id in s.batches && id in s.history && threw == ReleaseThrows(s, id)
    case LoadToConfirm(id) => id in s.batches && s.batches[id].status == SUBMITTED
    case SaveConfirmed(c, _) => c in s.loaded && c.id in s.batches
    case IndexerConfirm(_, _) => true
  }

  function Apply(s: State, a: Action): State
    requires Possible(s, a)
  {
    match a
    case Tick(to) => s.(now := to)
    case Close(project, cutoff) => AfterClose(s, project, cutoff)
    case Open(project, newId) => AfterOpen(s, project, newId)
    case Select(_, id, key) => s.(inflight := s.inflight + multiset{Reading(key, id)})
    case SelectNone(_) => s
    case Insert(r) => AfterInsert(s, r)
    case FindEligible(project) => s.(seen := s.seen + EligibleBatches(s, project))
    case Claim(id, _) => AfterClaim(s, id)
    case TriggerSubmission(id) => AfterTrigger(s, id)
    case LetGo(id) => AfterLetGo(s, id)
    case Release(id, _) => AfterRelease(s, id)
    case LoadToConfirm(id) => AfterLoad(s, id)
    case SaveConfirmed(c, credits) => AfterConfirm(s, c, credits)
    case IndexerConfirm(project, amount) => AfterMint(s, project, amount)
  }

  predicate Legal(s: State, run: seq<Action>)
    decreases |run|
  {
    run == [] || (Possible(s, run[0]) && Legal(Apply(s, run[0]), run[1..]))
  }

  function Exec(s: State, run: seq<Action>): State
    requires Legal(s, run)
    decreases |run|
  {
    if run == [] then s else Exec(Apply(s, run[0]), run[1..])
  }

  // `P` holds of every step of the run.
  ghost predicate Throughout(s: State, run: seq<Action>, P: (State, Action) -> bool)
    requires Legal(s, run)
    decreases |run|
  {
    run == [] || (P(s, run[0]) && Throughout(Apply(s, run[0]), run[1..], P))
  }

  ghost predicate Leads(s: State, t: State) {
    exists a :: Possible(s, a) && Apply(s, a) == t
  }

  // `t` can be reached from `s`, one action after the other.
  ghost predicate Reaches(s: State, t: State) {
    exists chain :: Chain(chain) && chain[0] == s && chain[|chain| - 1] == t
  }

  ghost predicate Chain(chain: seq<State>) {
    chain != [] && forall i, k {:trigger Leads(chain[i], chain[k])} :: 0 <= i < k < |chain| && k == i + 1 ==>
      Leads(chain[i], chain[k])
  }

  lemma ReachesItself(s: State)
    ensures Reaches(s, s)
  {
    assert Chain([s]) && [s][0] == s && [s][|[s]| - 1] == s;
  }

  lemma Advance(s0: State, s: State, a: Action)
    requires Reaches(s0, s) && Possible(s, a)
    ensures Reaches(s0, Apply(s, a))
  {
    var chain :| Chain(chain) && chain[0] == s0 && chain[|chain| - 1] == s;
    var longer := chain + [Apply(s, a)];
    assert Leads(s, Apply(s, a));
    forall i, k | 0 <= i < k < |longer| && k == i + 1 ensures Leads(longer[i], longer[k]) {
      assert k < |chain| ==> Leads(chain[i], chain[k]);
    }
    assert Chain(longer) && longer[0] == s0 && longer[|longer| - 1] == Apply(s, a);
  }

  // So it is the end of a legal run.
  lemma {:induction false} ChainIsRun(chain: seq<State>) returns (run: seq<Action>)
    requires Chain(chain)
    ensures Legal(chain[0], run) && Exec(chain[0], run) == chain[|chain| - 1]
    decreases |chain|
  {
    if |chain| == 1 {
      run := [];
    } else {
      assert Leads(chain[0], chain[1]);
      var a :| Possible(chain[0], a) && Apply(chain[0], a) == chain[1];
      var rest := chain[1..];
      forall i, k | 0 <= i < k < |rest| && k == i + 1 ensures Leads(rest[i], rest[k]) {
        assert Leads(chain[i + 1], chain[k + 1]);
      }
      var more := ChainIsRun(rest);
      run := [a] + more;
      assert run[1..] == more;
    }
  }

  lemma ReachedByRun(s: State, t: State) returns (run: seq<Action>)
    requires Reaches(s, t)
    ensures Legal(s, run) && Exec(s, run) == t
  {
    var chain :| Chain(chain) && chain[0] == s && chain[|chain| - 1] == t;
    run := ChainIsRun(chain);
  }

  // ── Invariant ────────────────────────────────────────────────────────────

  function CountIn(readings: seq<Reading>, id: int): int {
    if readings == [] then 0
    else CountIn(readings[..|readings| - 1], id) + if readings[|readings| - 1].batch == id then 1 else 0
  }

  lemma {:induction false} CountGrows(readings: seq<Reading>, k: nat, id: int)
    requires k <= |readings|
    ensures 0 <= CountIn(readings[..k], id) <= CountIn(readings, id)
    ensures CountIn(readings[..k], id) == CountIn(readings, id) <==>
      forall i :: k <= i < |readings| ==> readings[i].batch != id
    decreases |readings|
  {
    if readings == [] {
      assert readings[..k] == [];
    } else if k == |readings| {
      assert readings[..k] == readings;
      var before := readings[..k - 1];
      CountGrows(before, k - 1, id);
      assert before[..k - 1] == before;
    } else {
      var before := readings[..|readings| - 1];
      assert before[..k] == readings[..k];
      CountGrows(before, k, id);
      assert forall i :: k <= i < |before| ==> before[i] == readings[i];
    }
  }

  lemma AppendCounts(readings: seq<Reading>, r: Reading, id: int)
    ensures CountIn(readings + [r], id) == CountIn(readings, id) + if r.batch == id then 1 else 0
  {
    assert (readings + [r])[..|readings|] == readings;
  }

  lemma {:induction false} UnreferencedCountsZero(readings: seq<Reading>, id: int)
    requires forall r :: r in readings ==> r.batch != id
    ensures CountIn(readings, id) == 0
  {
    if readings != [] {
      UnreferencedCountsZero(readings[..|readings| - 1], id);
    }
  }

  ghost predicate OnePending(batches: map<int, Batch>) {
    forall a, b :: a in batches && b in batches && SamePending(batches[a], batches[b]) ==> a == b
  }

  predicate SamePending(a: Batch, b: Batch) {
    a.status == PENDING && b.status == PENDING && a.project == b.project
  }

  ghost predicate UniqueKeys(readings: seq<Reading>) {
    forall i, k :: 0 <= i < k < |readings| ==> readings[i].key != readings[k].key
  }

  // Claims and releases of a batch alternate; a batch on offer is released.
  predicate GoodHistory(b: Batch, h: History, held: bool, sent: bool) {
    && 0 <= h.releases <= h.claims <= h.releases + 1
    && (b.status == PENDING ==> h.claims == h.releases)
    && (held ==> b.status != PENDING && h.claims == h.releases + 1)
    && 0 <= h.submissions <= h.claims - (if held && !sent then 1 else 0)
  }

  predicate GoodBatch(b: Batch, h: History, seen: bool, now: int, stored: int) {
    && (b.credits.Some? <==> b.status == CONFIRMED)
    && b.createdAt <= now
    && 0 <= b.readingCount <= stored
    && (seen ==> b.createdAt < now - BATCH_WINDOW_MS && stored > 0)
    && (h.claims > 0 ==> seen)
  }

  predicate Good(s: State, id: int)
    requires id in s.batches && id in s.history
  {
    && GoodHistory(s.batches[id], s.history[id], id in s.held, id in s.held && s.held[id])
    && GoodBatch(s.batches[id], s.history[id], id in s.seen, s.now, CountIn(s.readings, id))
  }

  predicate GoodCopy(s: State, c: Loaded) {
    && c.id in s.batches && c.row.project == s.batches[c.id].project && c.row.createdAt == s.batches[c.id].createdAt
    && 0 <= c.known <= |s.readings| && 0 <= c.row.readingCount <= CountIn(s.readings, c.id)
  }

  ghost predicate Referenced(s: State) {
    && UniqueKeys(s.readings)
    && (forall r :: r in s.readings ==> r.batch in s.batches)
    && (forall r :: r in s.inflight ==> r.batch in s.batches)
  }

  ghost predicate Inv(s: State) {
    && OnePending(s.batches)
    && Referenced(s)
    && s.history.Keys == s.batches.Keys && s.seen <= s.batches.Keys && s.held.Keys <= s.batches.Keys
    && (forall id :: id in s.batches ==> Good(s, id))
    && (forall c :: c in s.loaded ==> GoodCopy(s, c))
  }

  predicate SameRow(b: Batch, c: Batch) {
    b.project == c.project && b.createdAt == c.createdAt
  }

  // Steps that touch neither readings nor the set of batches.
  lemma UpdateKeepsInv(s: State, t: State)
    requires Inv(s) && t.readings == s.readings && t.loaded <= s.loaded
    requires t.batches.Keys == s.batches.Keys == t.history.Keys && t.seen <= t.batches.Keys &&
      t.held.Keys <= t.batches.Keys
    requires forall id :: id in s.batches ==> SameRow(s.batches[id], t.batches[id])
    requires forall r :: r in t.inflight ==> r.batch in t.batches
    requires OnePending(t.batches)
    requires forall id :: id in t.batches ==> Good(t, id)
    ensures Inv(t)
  {
    forall c | c in t.loaded ensures GoodCopy(t, c) {
      assert c in s.loaded && GoodCopy(s, c);
    }
  }

  lemma CloseKeepsInv(s: State, project: int, cutoff: int)
    requires Inv(s)
    ensures Inv(AfterClose(s, project, cutoff))
  {
    var t := AfterClose(s, project, cutoff);
    forall id | id in t.batches ensures Good(t, id) {
      assert Good(s, id);
    }
    UpdateKeepsInv(s, t);
  }

  lemma OpeningStaysSingle(s: State, project: int, newId: int)
    requires OnePending(s.batches) && newId !in s.batches && !HasPending(s.batches, project)
    ensures OnePending(AfterOpen(s, project, newId).batches)
  {
    var t := AfterOpen(s, project, newId);
    forall a, b | a in t.batches && b in t.batches && SamePending(t.batches[a], t.batches[b]) ensures a == b {
      assert a in s.batches ==> !IsPendingOf(s.batches, project, a);
      assert b in s.batches ==> !IsPendingOf(s.batches, project, b);
    }
  }

  lemma OpenKeepsInv(s: State, project: int, newId: int)
    requires Inv(s) && newId !in s.batches
    ensures Inv(AfterOpen(s, project, newId))
  {
    if !HasPending(s.batches, project) {
      var t := AfterOpen(s, project, newId);
      UnreferencedCountsZero(s.readings, newId);
      OpeningStaysSingle(s, project, newId);
      forall id | id in t.batches ensures Good(t, id) {
        assert id in s.batches ==> Good(s, id);
      }
      forall c | c in t.loaded ensures GoodCopy(t, c) {
        assert GoodCopy(s, c);
      }
    }
  }

  lemma SelectKeepsInv(s: State, project: int, id: int, key: Key)
    requires Inv(s) && IsPendingOf(s.batches, project, id)
    ensures Inv(s.(inflight := s.inflight + multiset{Reading(key, id)}))
  {
    var t := s.(inflight := s.inflight + multiset{Reading(key, id)});
    forall k | k in t.batches ensures Good(t, k) {
      assert Good(s, k);
    }
    UpdateKeepsInv(s, t);
  }

  lemma AppendKeepsUnique(readings: seq<Reading>, r: Reading)
    requires UniqueKeys(readings) && !Stored(readings, r.key)
    ensures UniqueKeys(readings + [r])
  {
    forall i | 0 <= i < |readings| ensures readings[i].key != r.key {
      assert readings[i] in readings;
    }
  }

  lemma InsertKeepsRows(s: State, r: Reading)
    requires Inv(s) && r.batch in s.batches && !Stored(s.readings, r.key)
    ensures forall id :: id in AfterInsert(s, r).batches ==> id in s.history && Good(AfterInsert(s, r), id)
    ensures forall c :: c in AfterInsert(s, r).loaded ==> GoodCopy(AfterInsert(s, r), c)
  {
    var t := AfterInsert(s, r);
    forall id | id in t.batches ensures id in s.history && Good(t, id) {
      AppendCounts(s.readings, r, id);
      assert Good(s, id);
    }
    forall c | c in t.loaded ensures GoodCopy(t, c) {
      AppendCounts(s.readings, r, c.id);
      assert GoodCopy(s, c);
    }
  }

  lemma InsertKeepsInv(s: State, r: Reading)
    requires Inv(s) && r.batch in s.batches
    ensures Inv(AfterInsert(s, r))
  {
    var t := AfterInsert(s, r);
    if Stored(s.readings, r.key) {
      forall id | id in t.batches ensures Good(t, id) {
        assert Good(s, id);
      }
      UpdateKeepsInv(s, t);
    } else {
      InsertKeepsRows(s, r);
      AppendKeepsUnique(s.readings, r);
      assert Referenced(t);
      assert OnePending(t.batches);
    }
  }

  lemma ClaimKeepsInv(s: State, id: int)
    requires Inv(s) && id in s.seen && id in s.batches && id in s.history
    ensures Inv(AfterClaim(s, id))
  {
    var t := AfterClaim(s, id);
    forall k | k in t.batches ensures Good(t, k) {
      assert Good(s, k);
    }
    UpdateKeepsInv(s, t);
  }

  lemma TriggerKeepsInv(s: State, id: int)
    requires Inv(s) && Possible(s, TriggerSubmission(id))
    ensures Inv(AfterTrigger(s, id))
  {
    var t := AfterTrigger(s, id);
    forall k | k in t.batches ensures Good(t, k) {
      assert Good(s, k);
    }
    UpdateKeepsInv(s, t);
  }

  lemma LetGoKeepsInv(s: State, id: int)
    requires Inv(s)
    ensures Inv(AfterLetGo(s, id))
  {
    var t := AfterLetGo(s, id);
    forall k | k in t.batches ensures Good(t, k) {
      assert Good(s, k);
    }
    UpdateKeepsInv(s, t);
  }

  lemma ReleaseKeepsInv(s: State, id: int)
    requires Inv(s) && id in s.held && id in s.batches && id in s.history
    ensures Inv(AfterRelease(s, id))
    ensures s.batches[id].status == SUBMITTED && !ReleaseThrows(s, id) ==>
      IsPendingOf(AfterRelease(s, id).batches, s.batches[id].project, id)
    ensures ReleaseThrows(s, id) ==>
      AfterRelease(s, id).batches == s.batches && AfterRelease(s, id).history == s.history
  {
    if !Releasable(s, id) {
      LetGoKeepsInv(s, id);
    } else {
      var t := AfterRelease(s, id);
      forall k | k in t.batches ensures Good(t, k) {
        assert Good(s, k);
      }
      forall a, b | a in t.batches && b in t.batches && SamePending(t.batches[a], t.batches[b]) ensures a == b {
        assert !IsPendingOf(s.batches, s.batches[id].project, a) && !IsPendingOf(s.batches, s.batches[id].project, b);
      }
      UpdateKeepsInv(s, t);
    }
  }

  lemma LoadKeepsInv(s: State, id: int)
    requires Inv(s) && id in s.batches
    ensures Inv(AfterLoad(s, id))
  {
    var t := AfterLoad(s, id);
    assert Good(s, id);
    forall k | k in t.batches ensures Good(t, k) {
      assert Good(s, k);
    }
    forall c | c in t.loaded ensures GoodCopy(t, c) {
      assert c in s.loaded ==> GoodCopy(s, c);
    }
  }

  lemma ConfirmKeepsInv(s: State, c: Loaded, credits: int)
    requires Inv(s) && Possible(s, SaveConfirmed(c, credits))
    ensures Inv(AfterConfirm(s, c, credits))
  {
    var t := AfterConfirm(s, c, credits);
    assert GoodCopy(s, c);
    forall k | k in t.batches ensures Good(t, k) {
      assert Good(s, k);
    }
    UpdateKeepsInv(s, t);
  }

  lemma MintKeepsInv(s: State, project: int, amount: int)
    requires Inv(s)
    ensures Inv(AfterMint(s, project, amount))
    ensures forall id :: id in s.batches && s.batches[id].credits.Some? ==>
      AfterMint(s, project, amount).batches[id] == s.batches[id]
    ensures forall id :: id in s.batches ==>
      AfterMint(s, project, amount).batches[id] ==
        if s.batches[id].project == project && s.batches[id].status in {PENDING, SUBMITTED}
        then s.batches[id].(status := CONFIRMED, credits := Some(amount)) else s.batches[id]
  {
    var t := AfterMint(s, project, amount);
    forall k | k in t.batches ensures Good(t, k) {
      assert Good(s, k);
    }
    UpdateKeepsInv(s, t);
  }

  lemma ClockKeepsInv(s: State, now: int)
    requires Inv(s) && s.now <= now
    ensures Inv(s.(now := now))
  {
    var t := s.(now := now);
    forall k | k in t.batches ensures Good(t, k) {
      assert Good(s, k);
    }
    UpdateKeepsInv(s, t);
  }

  lemma FindKeepsInv(s: State, project: int)
    requires Inv(s)
    ensures Inv(s.(seen := s.seen + EligibleBatches(s, project)))
  {
    var t := s.(seen := s.seen + EligibleBatches(s, project));
    forall k | k in t.batches ensures Good(t, k) {
      assert Good(s, k);
    }
    UpdateKeepsInv(s, t);
  }

  lemma IngestionKeepsInv(s: State, a: Action)
    requires Inv(s) && Possible(s, a) && (a.Close? || a.Open? || a.Select? || a.SelectNone? || a.Insert?)
    ensures Inv(Apply(s, a))
  {
    match a
    case Close(project, cutoff) => CloseKeepsInv(s, project, cutoff);
    case Open(project, newId) => OpenKeepsInv(s, project, newId);
    case Select(project, id, key) => SelectKeepsInv(s, project, id, key);
    case SelectNone(_) => assert Apply(s, a) == s;
    case Insert(r) => InsertKeepsInv(s, r);
  }

  lemma SchedulerKeepsInv(s: State, a: Action)
    requires Inv(s) && Possible(s, a)
    requires a.FindEligible? || a.Claim? || a.TriggerSubmission? || a.LetGo? || a.Release?
    ensures Inv(Apply(s, a))
  {
    match a
    case FindEligible(project) => FindKeepsInv(s, project);
    case Claim(id, _) => ClaimKeepsInv(s, id);
    case TriggerSubmission(id) => TriggerKeepsInv(s, id);
    case LetGo(id) => LetGoKeepsInv(s, id);
    case Release(id, _) => ReleaseKeepsInv(s, id);
  }

  lemma StepKeepsInv(s: State, a: Action)
    requires Inv(s) && Possible(s, a)
    ensures Inv(Apply(s, a))
  {
    if a.Tick? {
      ClockKeepsInv(s, a.to);
    } else if a.Close? || a.Open? || a.Select? || a.SelectNone? || a.Insert? {
      IngestionKeepsInv(s, a);
    } else if a.LoadToConfirm? {
      LoadKeepsInv(s, a.id);
    } else if a.SaveConfirmed? {
      ConfirmKeepsInv(s, a.c, a.credits);
    } else if a.IndexerConfirm? {
      MintKeepsInv(s, a.project, a.amount);
    } else {
      SchedulerKeepsInv(s, a);
    }
  }

  lemma {:induction false} RunKeepsInv(s: State, run: seq<Action>)
    requires Inv(s) && Legal(s, run)
    ensures Inv(Exec(s, run))
    decreases |run|
  {
    if run != [] {
      StepKeepsInv(s, run[0]);
      RunKeepsInv(Apply(s, run[0]), run[1..]);
    }
  }

  lemma ReachedKeepsInv(s: State, t: State)
    requires Inv(s) && Reaches(s, t)
    ensures Inv(t)
  {
    var run := ReachedByRun(s, t);
    RunKeepsInv(s, run);
  }
}
