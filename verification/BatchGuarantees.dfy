// What holds of reading batches over every run of ingestion, scheduler
// replicas, processor, reconcile and indexer, and under exactly which condition
// where it does not always hold.
module BatchGuarantees {
  import opened Basics
  import opened ReadingBatches

  lemma AlwaysInv(run: seq<Action>)
    requires Legal(INITIAL, run)
    ensures Inv(Exec(INITIAL, run))
  {
    RunKeepsInv(INITIAL, run);
  }

  // What a step makes of one batch row.
  function RowAfter(s: State, a: Action, id: int): Batch
    requires id in s.batches
  {
    var b := s.batches[id];
    match a
    case Close(project, cutoff) => Closed(b, project, cutoff)
    case Insert(r) => if r.batch == id && !Stored(s.readings, r.key) then b.(readingCount := b.readingCount + 1) else b
    case Claim(k, _) => if k == id && b.status == PENDING then b.(status := SUBMITTED) else b
    case Release(k, _) => if k == id && Releasable(s, id) then b.(status := PENDING) else b
    case SaveConfirmed(c, credits) => if c.id == id then c.row.(status := CONFIRMED, credits := Some(credits)) else b
    case IndexerConfirm(project, amount) => Minted(b, project, amount)
    case _ => b
  }

  lemma RowsFollow(s: State, a: Action, id: int)
    requires Possible(s, a) && id in s.batches
    ensures id in Apply(s, a).batches && Apply(s, a).batches[id] == RowAfter(s, a, id)
  {
    if a.Close? {
      assert AfterClose(s, a.project, a.cutoff).batches[id] == Closed(s.batches[id], a.project, a.cutoff);
    } else if a.IndexerConfirm? {
      assert AfterMint(s, a.project, a.amount).batches[id] == Minted(s.batches[id], a.project, a.amount);
    } else {
      OneRowFollows(s, a, id);
    }
  }

  // Steps that write one row or none.
  lemma OneRowFollows(s: State, a: Action, id: int)
    requires Possible(s, a) && id in s.batches && !a.Close? && !a.IndexerConfirm?
    ensures id in Apply(s, a).batches && Apply(s, a).batches[id] == RowAfter(s, a, id)
  {
  }

  // ── Claims and the PENDING index ─────────────────────────────────────────

  // However many replicas run: claims and releases of a batch alternate, each
  // claim yields at most one submission, only batches with stored readings
  // whose window has closed are claimed, and a project never has two PENDING
  // batches.
  lemma ClaimsAlternate(run: seq<Action>, id: int)
    requires Legal(INITIAL, run) && id in Exec(INITIAL, run).batches
    ensures var s := Exec(INITIAL, run);
      && id in s.history
      && s.history[id].submissions <= s.history[id].claims <= s.history[id].releases + 1
      && s.history[id].releases <= s.history[id].claims
      && (id in s.held ==> s.history[id].claims == s.history[id].releases + 1)
      && (s.history[id].claims > 0 ==> CountIn(s.readings, id) > 0 && s.batches[id].createdAt < s.now - BATCH_WINDOW_MS)
    ensures OnePending(Exec(INITIAL, run).batches)
  {
    AlwaysInv(run);
    assert Good(Exec(INITIAL, run), id);
  }

  // findEligibleBatches sorts by age, but the index leaves it at most one.
  lemma AtMostOneEligible(run: seq<Action>, project: int)
    requires Legal(INITIAL, run)
    ensures |EligibleBatches(Exec(INITIAL, run), project)| <= 1
  {
    var s := Exec(INITIAL, run);
    AlwaysInv(run);
    var eligible := EligibleBatches(s, project);
    if eligible != {} {
      var _ := Member(eligible);
      var a :| a in eligible;
      forall b | b in eligible ensures b == a {
        assert SamePending(s.batches[a], s.batches[b]);
      }
      assert eligible == {a};
    }
  }

  lemma OpenLeavesOne(s: State, project: int, newId: int)
    requires OnePending(s.batches) && newId !in s.batches
    ensures var t := AfterOpen(s, project, newId);
      && HasPending(t.batches, project)
      && (forall a, b :: IsPendingOf(t.batches, project, a) && IsPendingOf(t.batches, project, b) ==> a == b)
  {
    var t := AfterOpen(s, project, newId);
    if !HasPending(s.batches, project) {
      OpeningStaysSingle(s, project, newId);
      assert IsPendingOf(t.batches, project, newId);
    }
    forall a, b | IsPendingOf(t.batches, project, a) && IsPendingOf(t.batches, project, b) ensures a == b {
      assert SamePending(t.batches[a], t.batches[b]);
    }
  }

  lemma PendingIsYoung(s: State, project: int, newId: int, id: int)
    requires Inv(s) && IsPendingOf(AfterResolve(s, project, newId).batches, project, id)
    ensures var t := AfterResolve(s, project, newId); t.now - BATCH_WINDOW_MS <= t.batches[id].createdAt <= t.now
  {
    var u := AfterClose(s, project, s.now - BATCH_WINDOW_MS);
    if HasPending(u.batches, project) || id != newId {
      assert id in s.batches && u.batches[id] == Closed(s.batches[id], project, s.now - BATCH_WINDOW_MS);
      assert Good(s, id);
    }
  }

  lemma ResolvingLeavesOne(s: State, project: int, newId: int)
    requires Inv(s) && newId !in s.batches
    ensures var t := AfterResolve(s, project, newId);
      && HasPending(t.batches, project)
      && (forall a, b :: IsPendingOf(t.batches, project, a) && IsPendingOf(t.batches, project, b) ==> a == b)
  {
    CloseKeepsInv(s, project, s.now - BATCH_WINDOW_MS);
    OpenLeavesOne(AfterClose(s, project, s.now - BATCH_WINDOW_MS), project, newId);
  }

  ghost predicate PendingInWindow(s: State, project: int) {
    forall id :: IsPendingOf(s.batches, project, id) ==> s.now - BATCH_WINDOW_MS <= s.batches[id].createdAt <= s.now
  }

  lemma ResolvingLeavesYoung(s: State, project: int, newId: int)
    requires Inv(s)
    ensures PendingInWindow(AfterResolve(s, project, newId), project)
  {
    var t := AfterResolve(s, project, newId);
    forall id | IsPendingOf(t.batches, project, id)
      ensures t.now - BATCH_WINDOW_MS <= t.batches[id].createdAt <= t.now
    {
      PendingIsYoung(s, project, newId, id);
    }
  }

  // With nothing in between, the first two statements of resolveBatch leave the
  // project exactly one PENDING batch, and it is inside the window.
  lemma ResolveGivesTheOpenBatch(run: seq<Action>, project: int, newId: int)
    requires Legal(INITIAL, run) && newId !in Exec(INITIAL, run).batches
    ensures var t := AfterResolve(Exec(INITIAL, run), project, newId);
      && HasPending(t.batches, project)
      && (forall a, b :: IsPendingOf(t.batches, project, a) && IsPendingOf(t.batches, project, b) ==> a == b)
    ensures PendingInWindow(AfterResolve(Exec(INITIAL, run), project, newId), project)
  {
    AlwaysInv(run);
    ResolvingLeavesOne(Exec(INITIAL, run), project, newId);
    ResolvingLeavesYoung(Exec(INITIAL, run), project, newId);
  }

  // The actions that leave a project without the PENDING batch it had.
  predicate Takes(s: State, a: Action, id: int)
    requires id in s.batches
  {
    || a == Claim(id, true)
    || (a.Close? && a.project == s.batches[id].project && s.batches[id].createdAt < a.cutoff)
    || (a.IndexerConfirm? && a.project == s.batches[id].project)
    || (a.SaveConfirmed? && a.c.id == id)
  }

  lemma PendingStays(s: State, a: Action, project: int, id: int)
    requires Inv(s) && Possible(s, a) && IsPendingOf(s.batches, project, id)
    ensures IsPendingOf(Apply(s, a).batches, project, id) <==> !Takes(s, a, id)
  {
    RowsFollow(s, a, id);
    RowStaysPending(s, a, project, id);
  }

  lemma RowStaysPending(s: State, a: Action, project: int, id: int)
    requires Inv(s) && Possible(s, a) && IsPendingOf(s.batches, project, id)
    ensures (RowAfter(s, a, id).status == PENDING && RowAfter(s, a, id).project == project) <==> !Takes(s, a, id)
  {
    assert a.SaveConfirmed? ==> GoodCopy(s, a.c);
  }

  ghost predicate LeavesPending(s: State, a: Action, project: int, id: int) {
    Possible(s, a) && IsPendingOf(Apply(s, a).batches, project, id)
  }

  predicate LeavesAlone(s: State, a: Action, id: int) { id in s.batches && !Takes(s, a, id) }

  // With others acting between the INSERT and the SELECT of resolveBatch, the
  // batch is there to be found throughout iff none of them takes it.
  lemma {:induction false} SelectFindsIff(s: State, run: seq<Action>, project: int, id: int)
    requires Inv(s) && Legal(s, run) && IsPendingOf(s.batches, project, id)
    ensures Throughout(s, run, (t: State, a: Action) => LeavesPending(t, a, project, id)) <==>
      Throughout(s, run, (t: State, a: Action) => LeavesAlone(t, a, id))
    decreases |run|
  {
    if run != [] {
      PendingStays(s, run[0], project, id);
      StepKeepsInv(s, run[0]);
      if LeavesPending(s, run[0], project, id) {
        SelectFindsIff(Apply(s, run[0]), run[1..], project, id);
      }
    }
  }

  // A step takes the PENDING batch that the project has.
  ghost predicate TakesAny(s: State, a: Action, project: int) {
    exists id :: IsPendingOf(s.batches, project, id) && Takes(s, a, id)
  }

  // A step gives the project a PENDING batch, if it has none.
  predicate Gives(s: State, a: Action, project: int) {
    || (a.Open? && a.project == project)
    || (a.Release? && Releasable(s, a.id) && s.batches[a.id].project == project)
  }

  lemma PendingComesFrom(s: State, a: Action, project: int, id: int)
    requires Inv(s) && Possible(s, a) && IsPendingOf(Apply(s, a).batches, project, id)
    ensures (IsPendingOf(s.batches, project, id) && !Takes(s, a, id)) ||
      (Gives(s, a, project) && !HasPending(s.batches, project))
  {
    if id in s.batches {
      RowsFollow(s, a, id);
      RowComesFrom(s, a, project, id);
    } else {
      NewIsOpened(s, a, id);
    }
  }

  lemma RowComesFrom(s: State, a: Action, project: int, id: int)
    requires Inv(s) && Possible(s, a) && id in s.batches
    requires RowAfter(s, a, id).status == PENDING && RowAfter(s, a, id).project == project
    ensures (IsPendingOf(s.batches, project, id) && !Takes(s, a, id)) ||
      (Gives(s, a, project) && !HasPending(s.batches, project))
  {
    assert a.SaveConfirmed? ==> GoodCopy(s, a.c);
  }

  lemma NewIsOpened(s: State, a: Action, id: int)
    requires Possible(s, a) && id !in s.batches && id in Apply(s, a).batches
    ensures a.Open? && !HasPending(s.batches, a.project) && Apply(s, a).batches[id].project == a.project
  {
  }

  lemma GivesOne(s: State, a: Action, project: int)
    requires Possible(s, a) && Gives(s, a, project) && !HasPending(s.batches, project)
    ensures HasPending(Apply(s, a).batches, project)
  {
    assert IsPendingOf(Apply(s, a).batches, project, if a.Open? then a.newId else a.id);
  }

  lemma PendingStep(s: State, a: Action, project: int)
    requires Inv(s) && Possible(s, a)
    ensures HasPending(Apply(s, a).batches, project) <==>
      if HasPending(s.batches, project) then !TakesAny(s, a, project) else Gives(s, a, project)
  {
    var t := Apply(s, a);
    if HasPending(t.batches, project) {
      var id :| id in t.batches && IsPendingOf(t.batches, project, id);
      PendingComesFrom(s, a, project, id);
      forall k | IsPendingOf(s.batches, project, k) && Takes(s, a, k) ensures k == id {
        assert SamePending(s.batches[k], s.batches[id]);
      }
    }
    if HasPending(s.batches, project) {
      var id :| id in s.batches && IsPendingOf(s.batches, project, id);
      PendingStays(s, a, project, id);
    } else if Gives(s, a, project) {
      GivesOne(s, a, project);
    }
  }

  // Some step takes the project's PENDING batch and no later one gives it one.
  ghost predicate TakenForGood(s: State, run: seq<Action>, project: int)
    requires Legal(s, run)
    decreases |run|
  {
    run != [] &&
      ((TakesAny(s, run[0], project) && NeverGiven(Apply(s, run[0]), run[1..], project)) ||
       TakenForGood(Apply(s, run[0]), run[1..], project))
  }

  ghost predicate NeverGiven(s: State, run: seq<Action>, project: int)
    requires Legal(s, run)
    decreases |run|
  {
    run == [] || (!Gives(s, run[0], project) && NeverGiven(Apply(s, run[0]), run[1..], project))
  }

  lemma {:induction false} NonePendingIff(s: State, run: seq<Action>, project: int)
    requires Inv(s) && Legal(s, run)
    ensures !HasPending(Exec(s, run).batches, project) <==>
      TakenForGood(s, run, project) || (!HasPending(s.batches, project) && NeverGiven(s, run, project))
    decreases |run|
  {
    if run != [] {
      PendingStep(s, run[0], project);
      StepKeepsInv(s, run[0]);
      NonePendingIff(Apply(s, run[0]), run[1..], project);
    }
  }

  // After the INSERT of resolveBatch its SELECT finds no row iff some step in
  // between takes the PENDING batch, whichever it is by then, and no later one
  // opens or releases one of the project.
  lemma SelectFindsNoneIff(s: State, run: seq<Action>, project: int)
    requires Inv(s) && Legal(s, run) && HasPending(s.batches, project)
    ensures Possible(Exec(s, run), SelectNone(project)) <==> TakenForGood(s, run, project)
    ensures Possible(Exec(s, run), SelectNone(project)) <==>
      forall id, key :: !Possible(Exec(s, run), Select(project, id, key))
  {
    NonePendingIff(s, run, project);
    var t := Exec(s, run);
    if HasPending(t.batches, project) {
      var id :| id in t.batches && IsPendingOf(t.batches, project, id);
      assert Possible(t, Select(project, id, Key(0, 0, 0)));
    }
  }

  // ── Readings ─────────────────────────────────────────────────────────────

  // Over every run no (device, timestamp, signature) is stored twice, and
  // readingCount never exceeds the stored readings of the batch.
  lemma ReadingsAreNeverOvercounted(run: seq<Action>)
    requires Legal(INITIAL, run)
    ensures var s := Exec(INITIAL, run);
      && UniqueKeys(s.readings)
      && (forall id :: id in s.batches ==> 0 <= s.batches[id].readingCount <= CountIn(s.readings, id))
  {
    AlwaysInv(run);
    forall id | id in Exec(INITIAL, run).batches
      ensures 0 <= Exec(INITIAL, run).batches[id].readingCount <= CountIn(Exec(INITIAL, run).readings, id)
    {
      assert Good(Exec(INITIAL, run), id);
    }
  }

  ghost predicate Counted(s: State) {
    forall id :: id in s.batches ==> s.batches[id].readingCount == CountIn(s.readings, id)
  }

  // A row in memory has the count of its readings when it was loaded.
  ghost predicate LoadedCounted(s: State) {
    forall c :: c in s.loaded ==>
      0 <= c.known <= |s.readings| && c.row.readingCount == CountIn(s.readings[..c.known], c.id)
  }

  // No reading of the batch was stored since its row was loaded.
  predicate Undisturbed(s: State, c: Loaded) {
    forall i :: 0 <= c.known <= i < |s.readings| ==> s.readings[i].batch != c.id
  }

  predicate SaveMissesNoReading(s: State, a: Action) { a.SaveConfirmed? ==> Undisturbed(s, a.c) }

  ghost predicate StaysCounted(s: State, a: Action) { Possible(s, a) ==> Counted(Apply(s, a)) }

  lemma InsertStaysCounted(s: State, r: Reading)
    requires Inv(s) && Counted(s) && LoadedCounted(s) && Possible(s, Insert(r))
    ensures Counted(AfterInsert(s, r)) && LoadedCounted(AfterInsert(s, r))
  {
    var t := AfterInsert(s, r);
    if !Stored(s.readings, r.key) {
      forall id | id in t.batches ensures t.batches[id].readingCount == CountIn(t.readings, id) {
        AppendCounts(s.readings, r, id);
      }
      forall c | c in t.loaded
        ensures 0 <= c.known <= |t.readings| && c.row.readingCount == CountIn(t.readings[..c.known], c.id)
      {
        assert t.readings[..c.known] == s.readings[..c.known];
      }
    }
  }

  lemma OpenStaysCounted(s: State, project: int, newId: int)
    requires Inv(s) && Counted(s) && newId !in s.batches
    ensures Counted(AfterOpen(s, project, newId))
  {
    UnreferencedCountsZero(s.readings, newId);
  }

  lemma LoadStaysCounted(s: State, id: int)
    requires Counted(s) && LoadedCounted(s) && id in s.batches
    ensures Counted(AfterLoad(s, id)) && LoadedCounted(AfterLoad(s, id))
  {
    assert s.readings[..|s.readings|] == s.readings;
  }

  lemma QuietStepStaysCounted(s: State, a: Action)
    requires Counted(s) && LoadedCounted(s) && Possible(s, a)
    requires !a.SaveConfirmed? && !a.Insert? && !a.Open? && !a.LoadToConfirm?
    ensures Counted(Apply(s, a)) && LoadedCounted(Apply(s, a))
  {
  }

  lemma OtherStepStaysCounted(s: State, a: Action)
    requires Inv(s) && Counted(s) && LoadedCounted(s) && Possible(s, a) && !a.SaveConfirmed?
    ensures Counted(Apply(s, a)) && LoadedCounted(Apply(s, a))
  {
    if a.Insert? {
      InsertStaysCounted(s, a.r);
    } else if a.Open? {
      OpenStaysCounted(s, a.project, a.newId);
    } else if a.LoadToConfirm? {
      LoadStaysCounted(s, a.id);
    } else {
      QuietStepStaysCounted(s, a);
    }
  }

  // Saving the confirmed row keeps the count right iff no reading of the batch
  // was stored since it was loaded.
  lemma SaveStaysCountedIff(s: State, c: Loaded, credits: int)
    requires Inv(s) && Counted(s) && LoadedCounted(s) && Possible(s, SaveConfirmed(c, credits))
    ensures Counted(AfterConfirm(s, c, credits)) <==> Undisturbed(s, c)
    ensures LoadedCounted(AfterConfirm(s, c, credits))
  {
    var t := AfterConfirm(s, c, credits);
    CountGrows(s.readings, c.known, c.id);
    assert t.batches[c.id].readingCount == CountIn(s.readings[..c.known], c.id);
    assert forall k :: k in t.loaded ==> k in s.loaded;
  }

  lemma {:induction false} CountedIff(s: State, run: seq<Action>)
    requires Inv(s) && Counted(s) && LoadedCounted(s) && Legal(s, run)
    ensures Throughout(s, run, StaysCounted) <==> Throughout(s, run, SaveMissesNoReading)
    decreases |run|
  {
    if run != [] {
      StepKeepsInv(s, run[0]);
      if run[0].SaveConfirmed? {
        SaveStaysCountedIff(s, run[0].c, run[0].credits);
      } else {
        OtherStepStaysCounted(s, run[0]);
      }
      if Counted(Apply(s, run[0])) {
        CountedIff(Apply(s, run[0]), run[1..]);
      }
    }
  }

  // Over every run: readingCount is the number of stored readings of the batch
  // in every state iff no confirming save follows an insertion that came after
  // its load.
  lemma ReadingsAreConservedIff(run: seq<Action>)
    requires Legal(INITIAL, run)
    ensures Throughout(INITIAL, run, StaysCounted) <==> Throughout(INITIAL, run, SaveMissesNoReading)
  {
    CountedIff(INITIAL, run);
  }

  lemma ResolveKeepsCounts(s: State, project: int, newId: int)
    ensures var t := AfterResolve(s, project, newId);
      && t.readings == s.readings
      && (forall k :: k in t.batches && (newId in s.batches ==> k != newId) ==>
           t.batches[k].readingCount == if k in s.batches then s.batches[k].readingCount else 0)
  {
    var t := AfterResolve(s, project, newId);
    forall k | k in t.batches && (newId in s.batches ==> k != newId)
      ensures t.batches[k].readingCount == if k in s.batches then s.batches[k].readingCount else 0
    {
      assert k != newId ==> t.batches[k] == Closed(s.batches[k], project, s.now - BATCH_WINDOW_MS);
    }
  }

  lemma DuplicateIsRolledBack(t: State, r: Reading)
    requires r.batch in t.batches && Stored(t.readings, r.key)
    ensures AfterInsert(t.(inflight := t.inflight + multiset{r}), r) == t
  {
    assert t.inflight + multiset{r} - multiset{r} == t.inflight;
  }

  // Replaying a stored reading, resolution included, stores nothing and changes
  // no count.
  lemma ReplayChangesNothing(s: State, project: int, newId: int, id: int, key: Key)
    requires newId !in s.batches && Stored(s.readings, key)
    requires IsPendingOf(AfterResolve(s, project, newId).batches, project, id)
    ensures var t := AfterResolve(s, project, newId);
      var u := AfterInsert(t.(inflight := t.inflight + multiset{Reading(key, id)}), Reading(key, id));
      && u == t && u.readings == s.readings
      && (forall k :: k in u.batches ==>
           u.batches[k].readingCount == if k in s.batches then s.batches[k].readingCount else 0)
  {
    ResolveKeepsCounts(s, project, newId);
    DuplicateIsRolledBack(AfterResolve(s, project, newId), Reading(key, id));
  }

  // ── Credits ──────────────────────────────────────────────────────────────

  // Over any continuation a CONFIRMED batch stays CONFIRMED, and a batch has
  // credits exactly then.
  lemma {:induction false} ConfirmedIsTerminal(s: State, run: seq<Action>, id: int)
    requires Inv(s) && Legal(s, run) && id in s.batches
    ensures id in Exec(s, run).batches
    ensures s.batches[id].status == CONFIRMED ==> Exec(s, run).batches[id].status == CONFIRMED
    ensures Exec(s, run).batches[id].credits.Some? <==> Exec(s, run).batches[id].status == CONFIRMED
    decreases |run|
  {
    if run == [] {
      assert Good(s, id);
    } else {
      StepKeepsInv(s, run[0]);
      RowsFollow(s, run[0], id);
      ConfirmedIsTerminal(Apply(s, run[0]), run[1..], id);
    }
  }

  ghost predicate KeepsCredits(s: State, a: Action) {
    Possible(s, a) ==>
      forall id :: id in s.batches && s.batches[id].credits.Some? ==>
        id in Apply(s, a).batches && Apply(s, a).batches[id].credits == s.batches[id].credits
  }

  // The batch is not CONFIRMED yet, or with the same credits.
  predicate ConfirmsOnce(s: State, a: Action) {
    a.SaveConfirmed? && a.c.id in s.batches ==>
      s.batches[a.c.id].status != CONFIRMED || s.batches[a.c.id].credits == Some(a.credits)
  }

  lemma OtherCreditsStay(s: State, a: Action, id: int)
    requires Inv(s) && Possible(s, a) && id in s.batches && s.batches[id].credits.Some? &&
      !(a.SaveConfirmed? && a.c.id == id)
    ensures id in Apply(s, a).batches && Apply(s, a).batches[id].credits == s.batches[id].credits
  {
    assert Good(s, id);
    RowsFollow(s, a, id);
  }

  lemma SaveSetsCredits(s: State, a: Action)
    requires Inv(s) && Possible(s, a) && a.SaveConfirmed?
    ensures a.c.id in Apply(s, a).batches && Apply(s, a).batches[a.c.id].credits == Some(a.credits)
    ensures s.batches[a.c.id].credits.Some? <==> s.batches[a.c.id].status == CONFIRMED
  {
    assert Good(s, a.c.id);
  }

  lemma CreditsStep(s: State, a: Action)
    requires Inv(s) && Possible(s, a)
    ensures KeepsCredits(s, a) <==> ConfirmsOnce(s, a)
  {
    forall id | id in s.batches && s.batches[id].credits.Some? && !(a.SaveConfirmed? && a.c.id == id)
      ensures id in Apply(s, a).batches && Apply(s, a).batches[id].credits == s.batches[id].credits
    {
      OtherCreditsStay(s, a, id);
    }
    if a.SaveConfirmed? {
      SaveSetsCredits(s, a);
    }
  }

  lemma {:induction false} CreditsIff(s: State, run: seq<Action>)
    requires Inv(s) && Legal(s, run)
    ensures Throughout(s, run, KeepsCredits) <==> Throughout(s, run, ConfirmsOnce)
    decreases |run|
  {
    if run != [] {
      CreditsStep(s, run[0]);
      StepKeepsInv(s, run[0]);
      CreditsIff(Apply(s, run[0]), run[1..]);
    }
  }

  // Over every run credits never change once set iff no confirming save finds
  // its batch already CONFIRMED with other credits.
  lemma CreditsAreWriteOnceIff(run: seq<Action>)
    requires Legal(INITIAL, run)
    ensures Throughout(INITIAL, run, KeepsCredits) <==> Throughout(INITIAL, run, ConfirmsOnce)
  {
    CreditsIff(INITIAL, run);
  }

  // ── The frozen window ────────────────────────────────────────────────────

  predicate Claimed(s: State, id: int) {
    id in s.batches && id in s.history && s.history[id].claims > 0
  }

  // No reading of the batch was stored between s and t.
  ghost predicate Frozen(s: State, t: State, id: int) {
    s.readings <= t.readings && forall r :: r in t.readings[|s.readings|..] ==> r.batch != id
  }

  // An insertion made after its batch's window, that does store the reading.
  predicate StoresLate(s: State, a: Action, id: int) {
    a.Insert? && a.r.batch == id && !InWindow(s, a.r) && !Stored(s.readings, a.r.key)
  }

  predicate InsertsInTime(s: State, a: Action) { a.Insert? ==> InWindow(s, a.r) }

  lemma StaysClaimed(s: State, a: Action, id: int)
    requires Possible(s, a) && Claimed(s, id)
    ensures Claimed(Apply(s, a), id)
  {
  }

  lemma ReadingsAfter(s: State, a: Action)
    requires Possible(s, a)
    ensures Apply(s, a).readings == if a.Insert? && !Stored(s.readings, a.r.key) then s.readings + [a.r] else s.readings
  {
  }

  // Only an insertion that its window test would have refused can add to a
  // claimed batch.
  lemma StepFreezes(s: State, a: Action, id: int)
    requires Inv(s) && Possible(s, a) && Claimed(s, id)
    ensures Claimed(Apply(s, a), id)
    ensures Frozen(s, Apply(s, a), id) <==> !StoresLate(s, a, id)
  {
    StaysClaimed(s, a, id);
    ReadingsAfter(s, a);
    ClaimedIsLate(s, id);
    var more := Apply(s, a).readings[|s.readings|..];
    if a.Insert? && !Stored(s.readings, a.r.key) {
      assert more == [a.r];
      assert a.r in more;
    } else {
      assert more == [];
    }
  }

  lemma ClaimedIsLate(s: State, id: int)
    requires Inv(s) && Claimed(s, id)
    ensures s.batches[id].createdAt < s.now - BATCH_WINDOW_MS
  {
    assert Good(s, id);
  }

  lemma FrozenComposes(s: State, t: State, u: State, id: int)
    requires s.readings <= t.readings <= u.readings
    ensures Frozen(s, u, id) <==> Frozen(s, t, id) && Frozen(t, u, id)
  {
    var a, b := t.readings[|s.readings|..], u.readings[|t.readings|..];
    assert u.readings[|s.readings|..] == a + b;
    assert forall r :: r in a + b <==> r in a || r in b;
  }

  lemma {:induction false} ReadingsGrow(s: State, run: seq<Action>)
    requires Legal(s, run)
    ensures s.readings <= Exec(s, run).readings
    decreases |run|
  {
    if run != [] {
      ReadingsGrow(Apply(s, run[0]), run[1..]);
    }
  }

  // After its first claim a batch gains no reading, even when the claim is
  // released, iff no ingestion stores one after the window closed.
  lemma {:induction false} ClaimedBatchIsFrozen(s: State, run: seq<Action>, id: int)
    requires Inv(s) && Legal(s, run) && Claimed(s, id)
    ensures Frozen(s, Exec(s, run), id) <==> Throughout(s, run, (t: State, a: Action) => !StoresLate(t, a, id))
    decreases |run|
  {
    if run == [] {
      assert s.readings[|s.readings|..] == [];
    } else {
      var t := Apply(s, run[0]);
      StepFreezes(s, run[0], id);
      StepKeepsInv(s, run[0]);
      ReadingsGrow(s, [run[0]] + run[1..]);
      ReadingsGrow(t, run[1..]);
      ClaimedBatchIsFrozen(t, run[1..], id);
      FrozenComposes(s, t, Exec(t, run[1..]), id);
    }
  }

  // So a window test at insertion is enough for every claimed batch.
  lemma {:induction false} TestedInsertionsFreeze(s: State, run: seq<Action>, id: int)
    requires Inv(s) && Legal(s, run) && Claimed(s, id) && Throughout(s, run, InsertsInTime)
    ensures Frozen(s, Exec(s, run), id)
    decreases |run|
  {
    if run == [] {
      assert s.readings[|s.readings|..] == [];
    } else {
      var t := Apply(s, run[0]);
      StepFreezes(s, run[0], id);
      StepKeepsInv(s, run[0]);
      ReadingsGrow(t, run[1..]);
      TestedInsertionsFreeze(t, run[1..], id);
      FrozenComposes(s, t, Exec(t, run[1..]), id);
    }
  }

  // A batch that was claimed and gained a reading afterwards; tested: although
  // insertions test the window.
  ghost predicate Thaws(tested: bool, s: State, more: seq<Action>, id: int) {
    && Reaches(INITIAL, s) && Legal(s, more) && Claimed(s, id)
    && (tested ==> Throughout(s, more, InsertsInTime))
    && !Frozen(s, Exec(s, more), id)
  }

  // Claimed batches are frozen in every run iff insertions test the window.
  lemma FrozenIffTested(tested: bool)
    ensures (forall s, more, id :: !Thaws(tested, s, more, id)) <==> tested
  {
    if tested {
      forall s, more, id ensures !Thaws(tested, s, more, id) {
        if Reaches(INITIAL, s) && Legal(s, more) && Claimed(s, id) && Throughout(s, more, InsertsInTime) {
          ReachedKeepsInv(INITIAL, s);
          TestedInsertionsFreeze(s, more, id);
        }
      }
    } else {
      var _, s := LateReadingJoins();
      assert Thaws(tested, s, [Insert(TWO)], 10);
    }
  }

  // ── Runs in which the conditions fail ────────────────────────────────────

  const ONE := Reading(Key(1, 1, 1), 10)
  const TWO := Reading(Key(1, 2, 2), 10)
  const LATER := BATCH_WINDOW_MS + 1

  lemma Goes(s: State, a: Action, t: State)
    requires Reaches(INITIAL, s) && Possible(s, a) && Apply(s, a) == t
    ensures Reaches(INITIAL, t)
  {
    Advance(INITIAL, s, a);
  }

  lemma GoesOn(u: State, s: State, a: Action, t: State)
    requires Reaches(INITIAL, s) && Reaches(u, s) && Possible(s, a) && Apply(s, a) == t
    ensures Reaches(INITIAL, t) && Reaches(u, t)
  {
    Advance(INITIAL, s, a);
    Advance(u, s, a);
  }

  // Batch 10 of project 1: reading ONE is stored, and reading TWO has resolved
  // the batch, while it was open.
  lemma OpenState() returns (s: State)
    ensures s ==
      State(map[10 := Batch(1, PENDING, 1, None, 0)], [ONE], 0, multiset{TWO}, multiset{}, {}, map[],
        map[10 := History(0, 0, 0)])
    ensures Reaches(INITIAL, s)
  {
    var s1 := State(map[10 := Batch(1, PENDING, 0, None, 0)], [], 0, multiset{}, multiset{}, {}, map[],
      map[10 := History(0, 0, 0)]);
    ReachesItself(INITIAL);
    Goes(INITIAL, Open(1, 10), s1);
    var s2 := s1.(inflight := multiset{ONE});
    Goes(s1, Select(1, 10, ONE.key), s2);
    var s3 := s1.(readings := [ONE], batches := map[10 := Batch(1, PENDING, 1, None, 0)]);
    Goes(s2, Insert(ONE), s3);
    s := s3.(inflight := multiset{TWO});
    Goes(s3, Select(1, 10, TWO.key), s);
  }

  // The window closes and a replica claims the batch.
  lemma ClaimedState() returns (u: State, s: State)
    ensures u ==
      State(map[10 := Batch(1, PENDING, 1, None, 0)], [ONE], 0, multiset{TWO}, multiset{}, {}, map[],
        map[10 := History(0, 0, 0)])
    ensures s ==
      State(map[10 := Batch(1, SUBMITTED, 1, None, 0)], [ONE], LATER, multiset{TWO}, multiset{}, {10},
        map[10 := false], map[10 := History(1, 0, 0)])
    ensures Reaches(INITIAL, u) && Reaches(u, s) && Reaches(INITIAL, s)
  {
    u := OpenState();
    ReachesItself(u);
    var s2 := u.(now := LATER);
    GoesOn(u, u, Tick(LATER), s2);
    var s3 := s2.(seen := {10});
    assert EligibleBatches(s2, 1) == {10};
    GoesOn(u, s2, FindEligible(1), s3);
    s := s3.(batches := map[10 := Batch(1, SUBMITTED, 1, None, 0)], held := map[10 := false],
      history := map[10 := History(1, 0, 0)]);
    GoesOn(u, s3, Claim(10, true), s);
  }

  // An ingestion's UPDATE and INSERT find that open batch and leave it; by the
  // time of its SELECT the claim has taken it, and there is none to be found.
  lemma NothingToSelect() returns (u: State, s: State)
    ensures Reaches(INITIAL, u) && IsPendingOf(u.batches, 1, 10) && AfterResolve(u, 1, 11) == u && Reaches(u, s)
    ensures Possible(s, SelectNone(1)) && forall id, key :: !Possible(s, Select(1, id, key))
  {
    u, s := ClaimedState();
    assert CloseExpired(u.batches, 1, u.now - BATCH_WINDOW_MS) == u.batches;
    assert IsPendingOf(u.batches, 1, 10);
  }

  // The ingestion that resolved the batch while it was open inserts only now,
  // and its reading joins the claimed batch.
  lemma LateReadingJoins() returns (u: State, s: State)
    ensures Reaches(INITIAL, u) && Reaches(u, s) && Reaches(INITIAL, s)
    ensures TWO in u.inflight && IsPendingOf(u.batches, 1, 10) && InWindow(u, TWO)
    ensures Claimed(s, 10) && Legal(s, [Insert(TWO)]) && !Frozen(s, Exec(s, [Insert(TWO)]), 10)
  {
    u, s := ClaimedState();
    assert [Insert(TWO)][1..] == [];
    var t := AfterInsert(s, TWO);
    assert Legal(t, []) && Exec(t, []) == t;
    assert t.readings[1..] == [TWO] && TWO in t.readings[1..];
  }

  // The processor has loaded the claimed batch.
  lemma LoadedState() returns (s: State, c: Loaded)
    ensures c == Loaded(10, Batch(1, SUBMITTED, 1, None, 0), 1)
    ensures s ==
      State(map[10 := Batch(1, SUBMITTED, 1, None, 0)], [ONE], LATER, multiset{TWO}, multiset{c}, {10},
        map[10 := false], map[10 := History(1, 0, 0)])
    ensures Reaches(INITIAL, s)
  {
    var _, s1 := ClaimedState();
    c := Loaded(10, Batch(1, SUBMITTED, 1, None, 0), 1);
    s := s1.(loaded := multiset{c});
    Goes(s1, LoadToConfirm(10), s);
  }

  lemma TwoReadings()
    ensures CountIn([ONE], 10) == 1 && CountIn([ONE, TWO], 10) == 2
  {
    assert [ONE][..0] == [];
    assert [ONE, TWO][..1] == [ONE];
  }

  // Its save undoes the count of a reading inserted since.
  lemma StaleConfirmLosesAReading() returns (s: State, a: Action)
    ensures Reaches(INITIAL, s) && Possible(s, a) && Counted(s) && !Counted(Apply(s, a))
  {
    var s1, c := LoadedState();
    s := AfterInsert(s1, TWO);
    Goes(s1, Insert(TWO), s);
    a := SaveConfirmed(c, 5);
    TwoReadings();
    assert s.readings == [ONE, TWO];
    assert AfterConfirm(s, c, 5).batches[10].readingCount == 1;
  }

  // Credits the indexer has set since are overwritten.
  lemma StaleConfirmRewritesCredits() returns (s: State, a: Action)
    ensures Reaches(INITIAL, s) && Possible(s, a) && !KeepsCredits(s, a)
  {
    var s1, c := LoadedState();
    s := AfterMint(s1, 1, 5);
    Goes(s1, IndexerConfirm(1, 5), s);
    a := SaveConfirmed(c, 6);
    assert s.batches[10].credits == Some(5);
    assert Apply(s, a).batches[10].credits == Some(6);
  }

  // ── Batches nobody will submit ───────────────────────────────────────────

  // Closed but not claimed: this is how resolveBatch leaves an expired batch.
  ghost predicate Stranded(s: State, id: int) {
    id in s.batches && id in s.history && s.batches[id].status != PENDING && id !in s.held
  }

  lemma StepKeepsStranded(s: State, a: Action, id: int)
    requires Stranded(s, id) && Possible(s, a)
    ensures Stranded(Apply(s, a), id) && Apply(s, a).history[id] == s.history[id]
  {
    RowsFollow(s, a, id);
  }

  // A batch that resolveBatch closed before a replica claimed it is never
  // claimed and never submitted: the scheduler only looks at PENDING rows.
  lemma {:induction false} StrandedForever(s: State, run: seq<Action>, id: int)
    requires Stranded(s, id) && Legal(s, run)
    ensures Stranded(Exec(s, run), id) && Exec(s, run).history[id] == s.history[id]
    decreases |run|
  {
    if run != [] {
      StepKeepsStranded(s, run[0], id);
      StrandedForever(Apply(s, run[0]), run[1..], id);
    }
  }

  lemma ExpiredBatchesAreStranded(run: seq<Action>, project: int, cutoff: int, id: int)
    requires Legal(INITIAL, run) && IsPendingOf(Exec(INITIAL, run).batches, project, id)
    ensures var s := Exec(INITIAL, run);
      Stranded(AfterClose(s, project, cutoff), id) <==> s.batches[id].createdAt < cutoff
  {
    AlwaysInv(run);
    assert Good(Exec(INITIAL, run), id);
  }
}
