// reconcile() against a table that nobody else writes meanwhile: the renumber
// loop for CONFIRMED rows beyond the on-chain nonce (a chain rollback), and the
// loop that confirms PENDING and FAILED rows the chain has passed.
module OracleReconcile {
  import opened Basics
  import opened OracleProtocol
  import opened OracleExactlyOnce

  ghost predicate OneProjectTable(rows: map<Id, Row>) {
    forall a, b :: a in rows && b in rows ==> rows[a].project == rows[b].project
  }

  ghost predicate UniqueNonces(rows: map<Id, Row>) {
    forall a, b :: a in rows && b in rows && a != b && rows[a].project == rows[b].project ==>
      rows[a].nonce != rows[b].nonce
  }

  ghost predicate Among(id: Id, found: seq<Copy>) {
    exists i :: 0 <= i < |found| && found[i].id == id
  }

  // ── The renumber loop ────────────────────────────────────────────────────

  // The table after the first n saves of the loop.
  ghost function AfterRenumber(rows: map<Id, Row>, stale: seq<Copy>, onChain: int, n: nat): map<Id, Row>
    requires n <= |stale|
  {
    if n == 0 then rows
    else AfterRenumber(rows, stale, onChain, n - 1)[stale[n - 1].id := RenumberedCopy(onChain, stale, n - 1).row]
  }

  // The first n stale rows are renumbered, and nothing else has changed.
  ghost predicate FirstRenumbered(was: map<Id, Row>, rows: map<Id, Row>, stale: seq<Copy>, onChain: int, n: int) {
    && rows.Keys == was.Keys
    && (forall i :: 0 <= i < |stale| ==>
         stale[i].id in rows &&
         rows[stale[i].id] == if i < n then RenumberedCopy(onChain, stale, i).row else stale[i].row)
    && (forall id :: id in was && !Among(id, stale) ==> rows[id] == was[id])
  }

  lemma {:induction false} AfterRenumberAt(rows: map<Id, Row>, stale: seq<Copy>, onChain: int, again: int, n: nat)
    requires n <= |stale| && Listing(rows, stale, IsStale(again)) && onChain <= again
    ensures FirstRenumbered(rows, AfterRenumber(rows, stale, onChain, n), stale, onChain, n)
  {
    if n > 0 {
      AfterRenumberAt(rows, stale, onChain, again, n - 1);
      OneMoreRenumbered(rows, AfterRenumber(rows, stale, onChain, n - 1), stale, onChain, n - 1);
    }
  }

  lemma OneMoreRenumbered(was: map<Id, Row>, rows: map<Id, Row>, stale: seq<Copy>, onChain: int, n: nat)
    requires FirstRenumbered(was, rows, stale, onChain, n) && n < |stale|
    requires forall i, k :: 0 <= i < k < |stale| ==> stale[i].id != stale[k].id
    ensures FirstRenumbered(was, rows[stale[n].id := RenumberedCopy(onChain, stale, n).row], stale, onChain, n + 1)
  {
    assert Among(stale[n].id, stale);
  }

  lemma {:induction false} StaleAscends(rows: map<Id, Row>, stale: seq<Copy>, onChain: int, again: int, i: int, k: int)
    requires OneProjectTable(rows) && UniqueNonces(rows) && Listing(rows, stale, IsStale(again)) && onChain <= again
    requires -1 <= i < k < |stale|
    ensures k - i <= stale[k].row.nonce - (if i < 0 then onChain else stale[i].row.nonce)
  {
    assert IsStale(again)(stale[k].row);
    if i < k - 1 {
      StaleAscends(rows, stale, onChain, again, i, k - 1);
    }
    if k > 0 {
      assert stale[k - 1].id != stale[k].id;
      assert rows[stale[k - 1].id].nonce != rows[stale[k].id].nonce;
    }
  }

  lemma AmongFirst(stale: seq<Copy>, n: nat, id: Id)
    requires n <= |stale|
    ensures Among(id, stale[..n]) <==> exists i :: 0 <= i < n && stale[i].id == id
  {
    if i :| 0 <= i < n && stale[i].id == id {
      assert stale[..n][i].id == id;
    }
  }

  // After every single save the stale rows are pairwise distinct and in their
  // old order, and no nonce was raised; after the last one row i holds
  // onChain + 1 + i.
  lemma RenumberKeepsOrder(rows: map<Id, Row>, stale: seq<Copy>, onChain: int, again: int, n: nat)
    requires OneProjectTable(rows) && UniqueNonces(rows) && Listing(rows, stale, IsStale(again)) && onChain <= again
    requires n <= |stale|
    ensures var after := AfterRenumber(rows, stale, onChain, n);
      && after.Keys == rows.Keys
      && (forall i, k :: 0 <= i < k < |stale| ==> after[stale[i].id].nonce < after[stale[k].id].nonce)
      && (forall i :: 0 <= i < |stale| ==> after[stale[i].id].nonce <= stale[i].row.nonce)
      && (n == |stale| ==> forall i :: 0 <= i < |stale| ==> after[stale[i].id].nonce == onChain + 1 + i)
    ensures var after := AfterRenumber(rows, stale, onChain, n);
      && (forall i :: 0 <= i < n ==> after[stale[i].id] == stale[i].row.(nonce := onChain + 1 + i, status := PENDING))
      && (forall id :: id in rows && !Among(id, stale[..n]) ==> after[id] == rows[id])
  {
    var after := AfterRenumber(rows, stale, onChain, n);
    AfterRenumberAt(rows, stale, onChain, again, n);
    forall i | 0 <= i < |stale| ensures after[stale[i].id].nonce <= stale[i].row.nonce {
      StaleAscends(rows, stale, onChain, again, -1, i);
    }
    forall i, k | 0 <= i < k < |stale| ensures after[stale[i].id].nonce < after[stale[k].id].nonce {
      StaleAscends(rows, stale, onChain, again, -1, k);
      StaleAscends(rows, stale, onChain, again, i, k);
    }
    forall id | id in rows && !Among(id, stale[..n]) ensures after[id] == rows[id] {
      AmongFirst(stale, n, id);
    }
  }

  // The nonces the loop hands out are free of rows that it does not renumber.
  ghost predicate RangeIsFree(rows: map<Id, Row>, stale: seq<Copy>, onChain: int, n: int) {
    forall id :: id in rows && !Among(id, stale) ==> !(onChain < rows[id].nonce <= onChain + n)
  }

  // No other stale row holds the nonce of the n-th save.
  lemma StaleNeverCollides(rows: map<Id, Row>, stale: seq<Copy>, onChain: int, again: int, n: nat, other: Id)
    requires OneProjectTable(rows) && UniqueNonces(rows) && Listing(rows, stale, IsStale(again)) && onChain <= again
    requires n < |stale| && Among(other, stale) && other != stale[n].id
    ensures var after := AfterRenumber(rows, stale, onChain, n); other in after && after[other].nonce != onChain + 1 + n
  {
    AfterRenumberAt(rows, stale, onChain, again, n);
    var i :| 0 <= i < |stale| && stale[i].id == other;
    StaleAscends(rows, stale, onChain, again, -1, i);
  }

  ghost predicate HeldOutside(rows: map<Id, Row>, stale: seq<Copy>, nonce: int) {
    exists id :: id in rows && !Among(id, stale) && rows[id].nonce == nonce
  }

  // The n-th save collides exactly with an outside row, never with a stale one.
  lemma RenumberCollision(rows: map<Id, Row>, stale: seq<Copy>, onChain: int, again: int, n: nat)
    requires OneProjectTable(rows) && UniqueNonces(rows) && Listing(rows, stale, IsStale(again)) && onChain <= again
    requires n < |stale|
    ensures Collides(AfterRenumber(rows, stale, onChain, n), stale[n].id, RenumberedCopy(onChain, stale, n).row)
      <==> HeldOutside(rows, stale, onChain + 1 + n)
  {
    var after := AfterRenumber(rows, stale, onChain, n);
    var row := RenumberedCopy(onChain, stale, n).row;
    AfterRenumberAt(rows, stale, onChain, again, n);
    assert Among(stale[n].id, stale);
    forall other | other in rows && other != stale[n].id
      ensures after[other].nonce == row.nonce <==> !Among(other, stale) && rows[other].nonce == row.nonce
      ensures after[other].project == row.project
    {
      if Among(other, stale) {
        StaleNeverCollides(rows, stale, onChain, again, n, other);
        var i :| 0 <= i < |stale| && stale[i].id == other;
      }
      assert rows[other].project == rows[stale[n].id].project;
    }
  }

  // ── The gap loop ─────────────────────────────────────────────────────────

  // Every PENDING or FAILED row at or below the nonce becomes CONFIRMED.
  ghost function GapsConfirmed(rows: map<Id, Row>, onChain: int): map<Id, Row> {
    map id | id in rows :: if IsGap(onChain)(rows[id]) then rows[id].(status := CONFIRMED) else rows[id]
  }

  // In any reachable state of a one-project deployment a quiet reconcile leaves
  // exactly the accepted submissions CONFIRMED, except rows still SUBMITTED.
  lemma QuietReconcileSettles(d: Deployment, run: seq<Action>, id: Id)
    requires OneProject(d) && Legal(d, INITIAL, run)
    requires id in Exec(d, INITIAL, run).rows
    ensures var s := Exec(d, INITIAL, run);
      var row := GapsConfirmed(s.rows, |s.chain|)[id];
      && (forall k :: k in s.rows ==> !IsStale(|s.chain|)(s.rows[k]))
      && (row.status != SUBMITTED ==> (row.status == CONFIRMED <==> Landings(s, id) == 1))
      && (row.status == SUBMITTED <==> s.rows[id].status == SUBMITTED)
  {
    RunKeepsInv(d, INITIAL, [], run);
    InvGivesExactlyOnce(d, Exec(d, INITIAL, run), [] + Allocations(run));
  }

  // ── The table and the loops over it ──────────────────────────────────────

  class SubmissionTable {
    var rows: map<Id, Row>

    constructor (rows: map<Id, Row>)
      ensures this.rows == rows
    {
      this.rows := rows;
    }

    // save(): writes the whole row, or throws on a unique violation.
    method Save(id: Id, row: Row) returns (ok: bool)
      modifies this
      ensures ok <==> !Collides(old(rows), id, row)
      ensures rows == if ok then old(rows)[id := row] else old(rows)
    {
      ok := !Collides(rows, id, row);
      if ok {
        rows := rows[id := row];
      }
    }

    // find(): the matching rows, by ascending nonce.
    method Find(match_: Row -> bool) returns (found: seq<Copy>)
      ensures Listing(rows, found, match_)
    {
      var left := set id | id in rows && match_(rows[id]);
      found := [];
      while left != {}
        invariant forall id :: id in left ==> id in rows && match_(rows[id])
        invariant forall i :: 0 <= i < |found| ==>
          found[i].id in rows && found[i].row == rows[found[i].id] && match_(found[i].row)
        invariant forall i :: 0 <= i < |found| ==> found[i].id !in left
        invariant forall id :: id in rows && match_(rows[id]) ==> id in left || Copy(id, rows[id]) in found
        invariant forall i, id :: 0 <= i < |found| && id in left ==> found[i].row.nonce <= rows[id].nonce
        invariant forall i, k :: 0 <= i < k < |found| ==>
          found[i].id != found[k].id && found[i].row.nonce <= found[k].row.nonce
        decreases left
      {
        var least := Least(left);
        found := found + [Copy(least, rows[least])];
        left := left - {least};
      }
    }

    method Least(ids: set<Id>) returns (least: Id)
      requires ids != {} && ids <= rows.Keys
      ensures least in ids && forall id :: id in ids ==> rows[least].nonce <= rows[id].nonce
    {
      ghost var _ := Member(ids);
      least :| least in ids;
      var left := ids - {least};
      while left != {}
        invariant left <= ids && least in ids
        invariant forall id :: id in ids ==> id in left || rows[least].nonce <= rows[id].nonce
        decreases left
      {
        ghost var _ := Member(left);
        var id :| id in left;
        if rows[id].nonce < rows[least].nonce {
          least := id;
        }
        left := left - {id};
      }
    }

    // Renumbers one by one; stops at the first save that throws.
    method RenumberStale(onChain: int, ghost again: int, stale: seq<Copy>) returns (done: nat)
      requires OneProjectTable(rows) && UniqueNonces(rows) && Listing(rows, stale, IsStale(again)) && onChain <= again
      modifies this
      ensures done <= |stale| && rows == AfterRenumber(old(rows), stale, onChain, done)
      ensures RangeIsFree(old(rows), stale, onChain, done)
      ensures done < |stale| ==> !RangeIsFree(old(rows), stale, onChain, done + 1)
      ensures done == |stale| <==> RangeIsFree(old(rows), stale, onChain, |stale|)
    {
      var currentExpectedNonce := onChain + 1;
      done := 0;
      while done < |stale|
        invariant done <= |stale| && currentExpectedNonce == onChain + 1 + done
        invariant rows == AfterRenumber(old(rows), stale, onChain, done)
        invariant RangeIsFree(old(rows), stale, onChain, done)
      {
        RenumberCollision(old(rows), stale, onChain, again, done);
        var sub := stale[done];
        var ok := Save(sub.id, sub.row.(nonce := currentExpectedNonce, status := PENDING));
        if !ok {
          return;
        }
        currentExpectedNonce := currentExpectedNonce + 1;
        done := done + 1;
      }
    }

    method ConfirmGaps(onChain: int, gaps: seq<Copy>)
      requires UniqueNonces(rows) && Listing(rows, gaps, IsGap(onChain))
      modifies this
      ensures rows == GapsConfirmed(old(rows), onChain) && rows.Keys == old(rows).Keys
      ensures forall id :: id in old(rows) ==>
        rows[id] ==
          if old(rows)[id].status in {PENDING, FAILED} && old(rows)[id].nonce <= onChain
          then old(rows)[id].(status := CONFIRMED) else old(rows)[id]
    {
      ghost var was := rows;
      for i := 0 to |gaps|
        invariant UniqueNonces(rows) && FirstConfirmed(was, rows, gaps, i)
      {
        OneMoreConfirmed(was, rows, gaps, i);
        var _ := Save(gaps[i].id, gaps[i].row.(status := CONFIRMED));
      }
      GapsAreConfirmed(was, rows, gaps, onChain);
    }

    // reconcile() with readable nonces: `again` is the second read, made by
    // findStaleSubmissions.
    method Reconcile(onChain: int, again: int) returns (ok: bool, ghost stale: seq<Copy>)
      requires OneProjectTable(rows) && UniqueNonces(rows) && onChain <= again
      modifies this
      ensures Listing(old(rows), stale, IsStale(again))
      ensures ok <==> RangeIsFree(old(rows), stale, onChain, |stale|)
      ensures ok ==> rows == GapsConfirmed(AfterRenumber(old(rows), stale, onChain, |stale|), onChain)
      ensures stale == [] ==> ok && rows == GapsConfirmed(old(rows), onChain)
    {
      var staleSubmissions := Find(IsStale(again));
      stale := staleSubmissions;
      var done := RenumberStale(onChain, again, staleSubmissions);
      ok := done == |staleSubmissions|;
      if ok {
        RenumberKeepsUnique(old(rows), stale, onChain, again);
        var gaps := Find(IsGap(onChain));
        ConfirmGaps(onChain, gaps);
      }
    }
  }

  // The first n gaps are confirmed, and nothing else has changed.
  ghost predicate FirstConfirmed(was: map<Id, Row>, rows: map<Id, Row>, gaps: seq<Copy>, n: int) {
    && rows.Keys == was.Keys
    && (forall k :: 0 <= k < |gaps| ==>
         gaps[k].id in rows &&
         rows[gaps[k].id] == if k < n then gaps[k].row.(status := CONFIRMED) else gaps[k].row)
    && (forall id :: id in was && !Among(id, gaps) ==> rows[id] == was[id])
  }

  lemma OneMoreConfirmed(was: map<Id, Row>, rows: map<Id, Row>, gaps: seq<Copy>, n: nat)
    requires FirstConfirmed(was, rows, gaps, n) && UniqueNonces(rows) && n < |gaps|
    requires forall i, k :: 0 <= i < k < |gaps| ==> gaps[i].id != gaps[k].id
    ensures var next := gaps[n].row.(status := CONFIRMED);
      && !Collides(rows, gaps[n].id, next) && UniqueNonces(rows[gaps[n].id := next])
      && FirstConfirmed(was, rows[gaps[n].id := next], gaps, n + 1)
  {
    assert rows[gaps[n].id] == gaps[n].row && Among(gaps[n].id, gaps);
  }

  lemma GapsAreConfirmed(was: map<Id, Row>, rows: map<Id, Row>, gaps: seq<Copy>, onChain: int)
    requires Listing(was, gaps, IsGap(onChain)) && FirstConfirmed(was, rows, gaps, |gaps|)
    ensures rows == GapsConfirmed(was, onChain)
  {
    forall id | id in was ensures rows[id] == GapsConfirmed(was, onChain)[id] {
      if Among(id, gaps) {
        var k :| 0 <= k < |gaps| && gaps[k].id == id;
        assert IsGap(onChain)(gaps[k].row);
      } else {
        assert IsGap(onChain)(was[id]) ==> Copy(id, was[id]) in gaps;
      }
    }
  }

  // Where the nonce of a row comes from after the loop.
  lemma NonceAfterRenumber(rows: map<Id, Row>, stale: seq<Copy>, onChain: int, again: int, id: Id)
    requires Listing(rows, stale, IsStale(again)) && onChain <= again && id in rows
    ensures var after := AfterRenumber(rows, stale, onChain, |stale|);
      && id in after && after[id].project == rows[id].project
      && (!Among(id, stale) ==> after[id].nonce == rows[id].nonce)
      && (Among(id, stale) ==>
           onChain < after[id].nonce <= onChain + |stale| && stale[after[id].nonce - onChain - 1].id == id)
  {
    AfterRenumberAt(rows, stale, onChain, again, |stale|);
    if Among(id, stale) {
      var i :| 0 <= i < |stale| && stale[i].id == id;
    }
  }

  lemma RenumberKeepsUnique(rows: map<Id, Row>, stale: seq<Copy>, onChain: int, again: int)
    requires OneProjectTable(rows) && UniqueNonces(rows) && Listing(rows, stale, IsStale(again)) && onChain <= again
    requires RangeIsFree(rows, stale, onChain, |stale|)
    ensures UniqueNonces(AfterRenumber(rows, stale, onChain, |stale|))
  {
    var after := AfterRenumber(rows, stale, onChain, |stale|);
    AfterRenumberAt(rows, stale, onChain, again, |stale|);
    forall a, b | a in after && b in after && a != b ensures after[a].nonce != after[b].nonce {
      NoncesDiffer(rows, stale, onChain, again, a, b);
    }
  }

  lemma NoncesDiffer(rows: map<Id, Row>, stale: seq<Copy>, onChain: int, again: int, a: Id, b: Id)
    requires OneProjectTable(rows) && UniqueNonces(rows) && Listing(rows, stale, IsStale(again)) && onChain <= again
    requires RangeIsFree(rows, stale, onChain, |stale|) && a in rows && b in rows && a != b
    ensures var after := AfterRenumber(rows, stale, onChain, |stale|);
      a in after && b in after && after[a].nonce != after[b].nonce
  {
    NonceAfterRenumber(rows, stale, onChain, again, a);
    NonceAfterRenumber(rows, stale, onChain, again, b);
    assert rows[a].project == rows[b].project;
  }
}
