// The indexer's poll cycle: paging through getEvents from the saved cursor to
// the chain tip, dispatching everything returned and saving the cursor after
// every page.
module IndexerPaging {
  import opened Basics

  // recognised: whether decodeEvent knows its topics.
  datatype Event = Event(ledger: int, id: int, recognised: bool)

  const MAX_EVENTS_PER_PAGE := 10000

  // What getEvents answers for each startLedger during one poll; a call with
  // no entry fails.
  type Server = map<int, seq<Event>>

  // Events come from startLedger or later.
  ghost predicate WellBehaved(server: Server) {
    forall start, i :: start in server && 0 <= i < |server[start]| ==> start <= server[start][i].ledger
  }

  function Min(a: int, b: int): int { if a < b then a else b }
  function Max(a: int, b: int): int { if a < b then b else a }

  function MaxLedger(events: seq<Event>): int {
    if events == [] then 0 else Max(MaxLedger(events[..|events| - 1]), events[|events| - 1].ledger)
  }

  lemma {:induction false} MaxLedgerBounds(events: seq<Event>)
    ensures forall e :: e in events ==> e.ledger <= MaxLedger(events)
    ensures MaxLedger(events) == 0 || exists e :: e in events && e.ledger == MaxLedger(events)
  {
    if events != [] {
      var last := |events| - 1;
      MaxLedgerBounds(events[..last]);
      assert events[last] in events;
      assert forall e :: e in events ==> e in events[..last] || e == events[last];
    }
  }

  // One iteration: the range asked for, what came back, and how far it counts.
  datatype Page = Page(from: int, pageTo: int, failed: bool, events: seq<Event>, to: int)

  function FetchEvents(server: Server, from: int, pageTo: int): Page {
    if from !in server then Page(from, pageTo, true, [], pageTo) else
      var events := server[from];
      Page(from, pageTo, false, events, if events == [] then pageTo else Min(MaxLedger(events), pageTo))
  }

  // A page counts up to the last event returned, but not beyond its end, or to
  // its end if nothing was returned or the call failed.
  lemma {:induction false} PageCountsUpTo(server: Server, from: int, pageTo: int)
    requires WellBehaved(server) && 0 <= from <= pageTo
    ensures var page := FetchEvents(server, from, pageTo);
      && (page.failed <==> from !in server) && page.events == (if from in server then server[from] else [])
      && page.from == from && page.pageTo == pageTo && page.to <= pageTo
      && (page.to < pageTo ==>
           (exists e :: e in page.events && e.ledger == page.to) && forall e :: e in page.events ==>
             e.ledger <= page.to)
      && (page.to == pageTo ==> page.events == [] || exists e :: e in page.events && pageTo <= e.ledger)
  {
    if from in server && server[from] != [] {
      MaxLedgerBounds(server[from]);
      assert server[from][0] in server[from];
    }
  }

  function PageEnd(current: int, tip: int): int { Min(current + MAX_EVENTS_PER_PAGE - 1, tip) }

  lemma FetchProgresses(server: Server, from: int, tip: int)
    requires WellBehaved(server) && from <= tip
    ensures from <= FetchEvents(server, from, PageEnd(from, tip)).to <= tip
  {
    if from in server && server[from] != [] {
      var events := server[from];
      MaxLedgerBounds(events);
      assert events[0] in events;
    }
  }

  // The pages of a poll that starts at ledger `current`.
  ghost function Pages(server: Server, current: int, tip: int): seq<Page>
    requires WellBehaved(server)
    decreases tip - current + 1
  {
    if current > tip then [] else
      var page := FetchEvents(server, current, PageEnd(current, tip));
      FetchProgresses(server, current, tip);
      [page] + Pages(server, page.to + 1, tip)
  }

  function Events(pages: seq<Page>): seq<Event> {
    if pages == [] then [] else pages[0].events + Events(pages[1..])
  }

  // ── Order and progress ───────────────────────────────────────────────────

  lemma PagesUnfold(server: Server, current: int, tip: int)
    requires WellBehaved(server) && current <= tip
    ensures var page := FetchEvents(server, current, PageEnd(current, tip));
      && current <= page.to <= tip
      && Pages(server, current, tip) == [page] + Pages(server, page.to + 1, tip)
  {
    FetchProgresses(server, current, tip);
  }

  // Each page starts right after its predecessor ends; the last ends at the
  // tip. A page asks for 10000 ledgers, or up to the tip.
  ghost predicate Ladder(pages: seq<Page>, current: int, tip: int) {
    && pages != [] && pages[0].from == current && pages[|pages| - 1].to == tip
    && (forall i :: 0 <= i < |pages| ==>
         pages[i].pageTo == tip || (pages[i].pageTo - pages[i].from == 9999 && pages[i].pageTo < tip))
    && (forall i :: 0 <= i < |pages| && pages[i].pageTo == tip ==> tip - pages[i].from <= 9999)
    && (forall i :: 0 <= i < |pages| ==> pages[i].from <= pages[i].to <= pages[i].pageTo <= tip)
    && (forall i, k :: 0 <= i < k < |pages| && k == i + 1 ==> pages[k].from == pages[i].to + 1)
  }

  // What a single page contributes.
  predicate Rung(page: Page, current: int, tip: int) {
    && page.from == current <= page.to <= page.pageTo <= tip
    && (page.pageTo == tip || page.pageTo - page.from == 9999)
    && (page.pageTo == tip ==> tip - page.from <= 9999)
  }

  lemma PageIsRung(server: Server, current: int, tip: int)
    requires WellBehaved(server) && current <= tip
    ensures Rung(FetchEvents(server, current, PageEnd(current, tip)), current, tip)
  {
    FetchProgresses(server, current, tip);
  }

  lemma LadderGrows(page: Page, rest: seq<Page>, current: int, tip: int)
    requires Rung(page, current, tip)
    requires if rest == [] then page.to == tip else Ladder(rest, page.to + 1, tip)
    ensures Ladder([page] + rest, current, tip)
  {
    var pages := [page] + rest;
    forall i, k | 0 <= i < k < |pages| && k == i + 1 ensures pages[k].from == pages[i].to + 1 {
      if i > 0 {
        assert pages[i] == rest[i - 1] && pages[k] == rest[k - 1];
      }
    }
  }

  // So the saved cursors strictly increase, ending at the tip.
  lemma {:induction false} CursorIncreases(server: Server, current: int, tip: int)
    requires WellBehaved(server) && current <= tip
    ensures Ladder(Pages(server, current, tip), current, tip)
    decreases tip - current
  {
    var page := FetchEvents(server, current, PageEnd(current, tip));
    var rest := Pages(server, page.to + 1, tip);
    PagesUnfold(server, current, tip);
    PageIsRung(server, current, tip);
    if page.to < tip {
      CursorIncreases(server, page.to + 1, tip);
      assert rest != [];
    } else {
      assert rest == [];
    }
    LadderGrows(page, rest, current, tip);
  }

  // ── Coverage ─────────────────────────────────────────────────────────────

  // The answer holds every archived event of the ledgers it reaches into, and
  // is empty only if the page range has no events.
  ghost predicate CompleteLedgers(archive: set<Event>, page: Page) {
    var reach := if page.events == [] then page.pageTo else MaxLedger(page.events);
    forall e :: e in archive && page.from <= e.ledger <= reach ==> e in page.events
  }

  // The event lies in one of the first n pages, and the call for it failed.
  ghost predicate InFailedPage(pages: seq<Page>, n: int, e: Event) {
    exists i :: 0 <= i < n && i < |pages| && pages[i].failed && pages[i].from <= e.ledger <= pages[i].pageTo
  }

  ghost predicate CompleteOrFailed(archive: set<Event>, page: Page) {
    page.failed || CompleteLedgers(archive, page)
  }

  lemma FailedLater(page: Page, rest: seq<Page>, n: int, e: Event)
    requires InFailedPage(rest, n, e)
    ensures InFailedPage([page] + rest, n + 1, e)
  {
    var i :| 0 <= i < n && i < |rest| && rest[i].failed && rest[i].from <= e.ledger <= rest[i].pageTo;
    assert ([page] + rest)[i + 1] == rest[i];
  }

  lemma FirstPageCovers(server: Server, archive: set<Event>, current: int, tip: int, e: Event)
    requires WellBehaved(server) && current <= tip && e in archive
    requires var page := FetchEvents(server, current, PageEnd(current, tip));
      CompleteOrFailed(archive, page) && current <= e.ledger <= page.to
    ensures var page := FetchEvents(server, current, PageEnd(current, tip));
      e in page.events || (page.failed && page.from <= e.ledger <= page.pageTo)
  {
  }

  // If every successful answer is complete, then at every saved cursor each
  // archived event up to it was dispatched or lies in a page whose call failed.
  lemma {:induction false} EverySavedCursorIsCovered(server: Server, archive: set<Event>, current: int, tip: int,
      n: nat, e: Event)
    requires WellBehaved(server)
    requires n < |Pages(server, current, tip)|
    requires forall i :: 0 <= i <= n ==> CompleteOrFailed(archive, Pages(server, current, tip)[i])
    requires e in archive && current <= e.ledger <= Pages(server, current, tip)[n].to
    ensures var pages := Pages(server, current, tip); e in Events(pages[..n + 1]) || InFailedPage(pages, n + 1, e)
    decreases n
  {
    var pages := Pages(server, current, tip);
    var page := FetchEvents(server, current, PageEnd(current, tip));
    var rest := Pages(server, page.to + 1, tip);
    PagesUnfold(server, current, tip);
    EventsOfFirst(page, rest, n);
    if e.ledger <= page.to {
      assert pages[0] == page;
      FirstPageCovers(server, archive, current, tip, e);
    } else {
      RestIsComplete(archive, page, rest, n);
      EverySavedCursorIsCovered(server, archive, page.to + 1, tip, n - 1, e);
      if InFailedPage(rest, n, e) {
        FailedLater(page, rest, n, e);
      }
    }
  }

  lemma RestIsComplete(archive: set<Event>, page: Page, rest: seq<Page>, n: nat)
    requires n <= |rest| && forall i :: 0 <= i <= n ==> CompleteOrFailed(archive, ([page] + rest)[i])
    ensures forall i :: 0 <= i < n ==> CompleteOrFailed(archive, rest[i])
  {
    forall i | 0 <= i < n ensures CompleteOrFailed(archive, rest[i]) {
      assert ([page] + rest)[i + 1] == rest[i];
    }
  }

  lemma EventsOfFirst(page: Page, rest: seq<Page>, n: nat)
    requires n <= |rest|
    ensures Events(([page] + rest)[..n + 1]) == page.events + Events(rest[..n])
  {
    assert ([page] + rest)[..n + 1] == [page] + rest[..n];
    assert ([page] + rest[..n])[1..] == rest[..n];
  }

  // No failed call: on exit everything from the old cursor to the tip was
  // dispatched at least once.
  lemma PollCovers(server: Server, archive: set<Event>, current: int, tip: int, e: Event)
    requires WellBehaved(server) && current <= tip
    requires forall i :: 0 <= i < |Pages(server, current, tip)| ==>
      !Pages(server, current, tip)[i].failed && CompleteLedgers(archive, Pages(server, current, tip)[i])
    requires e in archive && current <= e.ledger <= tip
    ensures e in Events(Pages(server, current, tip))
  {
    var pages := Pages(server, current, tip);
    CursorIncreases(server, current, tip);
    EverySavedCursorIsCovered(server, archive, current, tip, |pages| - 1, e);
    assert pages[..|pages|] == pages;
  }

  lemma {:induction false} LaterPagesAreLater(server: Server, current: int, tip: int, e: Event)
    requires WellBehaved(server) && e in Events(Pages(server, current, tip))
    ensures current <= e.ledger
    decreases tip - current + 1
  {
    var page := FetchEvents(server, current, PageEnd(current, tip));
    FetchProgresses(server, current, tip);
    assert Pages(server, current, tip)[1..] == Pages(server, page.to + 1, tip);
    if e !in page.events {
      LaterPagesAreLater(server, page.to + 1, tip, e);
    }
  }

  // Once the cursor has passed an event's ledger only the pages up to then
  // count: an event they left out (a failed call, or an answer cut inside a
  // ledger) is dispatched by no later page of the poll.
  lemma {:induction false} SkippedIsLost(server: Server, current: int, tip: int, n: nat, e: Event)
    requires WellBehaved(server) && n < |Pages(server, current, tip)|
    requires e.ledger <= Pages(server, current, tip)[n].to
    ensures var pages := Pages(server, current, tip);
      e in Events(pages) <==> e in Events(pages[..n + 1])
    decreases n
  {
    var pages := Pages(server, current, tip);
    var page := FetchEvents(server, current, PageEnd(current, tip));
    var rest := Pages(server, page.to + 1, tip);
    FetchProgresses(server, current, tip);
    assert pages[1..] == rest && pages[..n + 1][0] == page;
    assert pages[..n + 1][1..] == rest[..n];
    if n == 0 {
      assert Events(rest[..0]) == [];
      if e in Events(rest) {
        LaterPagesAreLater(server, page.to + 1, tip, e);
      }
    } else {
      SkippedIsLost(server, page.to + 1, tip, n - 1, e);
    }
  }

  // ── Exactly when a poll covers the archive ───────────────────────────────

  ghost predicate Covers(server: Server, archive: set<Event>, current: int, tip: int)
    requires WellBehaved(server)
  {
    forall e :: e in archive && current <= e.ledger <= tip ==> e in Events(Pages(server, current, tip))
  }

  // When the cursor moves past a page, its events are in that answer or in an
  // earlier one.
  ghost predicate PageIsServed(archive: set<Event>, pages: seq<Page>, i: int)
    requires 0 <= i < |pages|
  {
    forall e :: e in archive && pages[i].from <= e.ledger <= pages[i].to ==> e in Events(pages[..i + 1])
  }

  lemma {:induction false} PageOf(server: Server, current: int, tip: int, ledger: int) returns (i: nat)
    requires WellBehaved(server) && current <= ledger <= tip
    ensures var pages := Pages(server, current, tip); i < |pages| && pages[i].from <= ledger <= pages[i].to
    decreases tip - current
  {
    var page := FetchEvents(server, current, PageEnd(current, tip));
    PagesUnfold(server, current, tip);
    if ledger <= page.to {
      i := 0;
    } else {
      var k := PageOf(server, page.to + 1, tip, ledger);
      i := k + 1;
      assert Pages(server, current, tip)[i] == Pages(server, page.to + 1, tip)[k];
    }
  }

  ghost predicate AllServed(archive: set<Event>, pages: seq<Page>) {
    forall i :: 0 <= i < |pages| ==> PageIsServed(archive, pages, i)
  }

  lemma CoveredPageIsServed(server: Server, archive: set<Event>, current: int, tip: int, i: nat)
    requires WellBehaved(server) && current <= tip && Covers(server, archive, current, tip) &&
      i < |Pages(server, current, tip)|
    ensures PageIsServed(archive, Pages(server, current, tip), i)
  {
    var pages := Pages(server, current, tip);
    PagesStayInRange(server, current, tip, i);
    forall e | e in archive && pages[i].from <= e.ledger <= pages[i].to ensures e in Events(pages[..i + 1]) {
      SkippedIsLost(server, current, tip, i, e);
    }
  }

  lemma ServedIsCovered(server: Server, archive: set<Event>, current: int, tip: int, e: Event)
    requires WellBehaved(server) && AllServed(archive, Pages(server, current, tip))
    requires e in archive && current <= e.ledger <= tip
    ensures e in Events(Pages(server, current, tip))
  {
    var i := PageOf(server, current, tip, e.ledger);
    assert PageIsServed(archive, Pages(server, current, tip), i);
    SkippedIsLost(server, current, tip, i, e);
  }

  // A poll dispatches everything archived in its range iff every page is served
  // by the time the cursor moves past it.
  lemma CoversIff(server: Server, archive: set<Event>, current: int, tip: int)
    requires WellBehaved(server) && current <= tip
    ensures Covers(server, archive, current, tip) <==> AllServed(archive, Pages(server, current, tip))
  {
    if Covers(server, archive, current, tip) {
      forall i | 0 <= i < |Pages(server, current, tip)| ensures PageIsServed(archive, Pages(server, current, tip), i) {
        CoveredPageIsServed(server, archive, current, tip, i);
      }
    }
    if AllServed(archive, Pages(server, current, tip)) {
      forall e | e in archive && current <= e.ledger <= tip ensures e in Events(Pages(server, current, tip)) {
        ServedIsCovered(server, archive, current, tip, e);
      }
    }
  }

  lemma {:induction false} PagesStayInRange(server: Server, current: int, tip: int, i: nat)
    requires WellBehaved(server) && current <= tip && i < |Pages(server, current, tip)|
    ensures current <= Pages(server, current, tip)[i].from && Pages(server, current, tip)[i].to <= tip
    decreases i
  {
    var page := FetchEvents(server, current, PageEnd(current, tip));
    PagesUnfold(server, current, tip);
    if i > 0 {
      assert Pages(server, current, tip)[i] == Pages(server, page.to + 1, tip)[i - 1];
      PagesStayInRange(server, page.to + 1, tip, i - 1);
    }
  }

  // ── Several polls ────────────────────────────────────────────────────────

  // tip: None when the node cannot be asked. saves: how many cursor saves
  // succeed before one throws.
  datatype Poll = Poll(server: Server, tip: Option<int>, saves: nat)

  // The pages whose events are dispatched: the one whose cursor save throws is
  // the last.
  ghost function Served(poll: Poll, cursor: int): seq<Page>
    requires WellBehaved(poll.server)
  {
    if poll.tip.None? then []
    else
      var pages := Pages(poll.server, cursor + 1, poll.tip.value);
      if |pages| <= poll.saves then pages else pages[..poll.saves + 1]
  }

  ghost function CursorAfter(poll: Poll, cursor: int): int
    requires WellBehaved(poll.server)
  {
    if poll.tip.None? then cursor
    else
      var pages := Pages(poll.server, cursor + 1, poll.tip.value);
      CursorAt(pages, Min(|pages|, poll.saves), cursor)
  }

  // The saved cursor after n pages.
  function CursorAt(pages: seq<Page>, n: nat, cursor: int): int
    requires n <= |pages|
  {
    if n == 0 then cursor else pages[n - 1].to
  }

  ghost predicate AllWellBehaved(polls: seq<Poll>) {
    forall i :: 0 <= i < |polls| ==> WellBehaved(polls[i].server)
  }

  // Everything the polls fetch, one after the other.
  ghost function Fetched(polls: seq<Poll>, cursor: int): seq<Event>
    requires AllWellBehaved(polls)
    decreases |polls|
  {
    if polls == [] then []
    else Events(Served(polls[0], cursor)) + Fetched(polls[1..], CursorAfter(polls[0], cursor))
  }

  lemma {:induction false} TakeKeeps(pages: seq<Page>, n: nat, e: Event)
    requires n <= |pages| && e in Events(pages[..n])
    ensures e in Events(pages)
    decreases n
  {
    if n > 0 {
      assert pages[..n][0] == pages[0] && pages[..n][1..] == pages[1..][..n - 1];
      if e !in pages[0].events {
        TakeKeeps(pages[1..], n - 1, e);
      }
    }
  }

  lemma CursorAdvances(poll: Poll, cursor: int)
    requires WellBehaved(poll.server)
    ensures cursor <= CursorAfter(poll, cursor)
    ensures forall e :: e in Events(Served(poll, cursor)) ==> cursor < e.ledger
  {
    if poll.tip.Some? {
      var pages := Pages(poll.server, cursor + 1, poll.tip.value);
      var saved := Min(|pages|, poll.saves);
      if saved > 0 {
        PagesStayInRange(poll.server, cursor + 1, poll.tip.value, saved - 1);
        CursorIncreases(poll.server, cursor + 1, poll.tip.value);
      }
      forall e | e in Events(Served(poll, cursor)) ensures cursor < e.ledger {
        if |pages| > poll.saves {
          TakeKeeps(pages, poll.saves + 1, e);
        }
        LaterPagesAreLater(poll.server, cursor + 1, poll.tip.value, e);
      }
    }
  }

  // No poll fetches an event at or below the cursor it starts from.
  lemma {:induction false} PassedIsNeverFetched(polls: seq<Poll>, cursor: int, e: Event)
    requires AllWellBehaved(polls) && e.ledger <= cursor
    ensures e !in Fetched(polls, cursor)
    decreases |polls|
  {
    if polls != [] {
      CursorAdvances(polls[0], cursor);
      PassedIsNeverFetched(polls[1..], CursorAfter(polls[0], cursor), e);
    }
  }

  // An event the saved cursor has passed is fetched by that poll or by no later
  // one, however many follow.
  lemma MissedIsLost(polls: seq<Poll>, cursor: int, e: Event)
    requires polls != [] && AllWellBehaved(polls) && e.ledger <= CursorAfter(polls[0], cursor)
    ensures e in Fetched(polls, cursor) <==> e in Events(Served(polls[0], cursor))
  {
    PassedIsNeverFetched(polls[1..], CursorAfter(polls[0], cursor), e);
  }

  // ── An answer cut inside a ledger ────────────────────────────────────────

  const FIRST := Event(1, 10, true)
  const SECOND := Event(1, 11, true)

  // The node answers with the first of two events of ledger 1: the poll does
  // not cover it, and no later poll fetches the second.
  lemma CutAnswerLosesAnEvent(later: seq<Poll>)
    requires AllWellBehaved(later)
    ensures var server: Server := map[1 := [FIRST]];
      && WellBehaved(server) && !Covers(server, {FIRST, SECOND}, 1, 1)
      && SECOND !in Fetched([Poll(server, Some(1), 1)] + later, 0)
  {
    var server: Server := map[1 := [FIRST]];
    var page := FetchEvents(server, 1, PageEnd(1, 1));
    MaxLedgerBounds([FIRST]);
    assert MaxLedger([FIRST][..0]) == 0;
    assert page == Page(1, 1, false, [FIRST], 1);
    PagesUnfold(server, 1, 1);
    var pages := Pages(server, 1, 1);
    assert Pages(server, 2, 1) == [] && pages == [page];
    assert Events(pages[1..]) == [] && Events(pages) == [FIRST];
    assert SECOND in {FIRST, SECOND} && SECOND !in Events(pages);
    var poll := Poll(server, Some(1), 1);
    assert Served(poll, 0) == pages && CursorAfter(poll, 0) == 1;
    var polls := [poll] + later;
    assert polls[1..] == later;
    PassedIsNeverFetched(later, 1, SECOND);
  }

  // Caught up, or no contract configured.
  predicate Idle(lastIndexedLedger: Option<int>, chainTipLedger: int, contractIds: seq<int>) {
    lastIndexedLedger.Some? && (lastIndexedLedger.value >= chainTipLedger || contractIds == [])
  }

  // An archived event of the range, in an archive that every page serves.
  ghost predicate Archived(archive: set<Event>, e: Event, poll: Poll, from: int)
    requires WellBehaved(poll.server) && poll.tip.Some?
  {
    AllServed(archive, Pages(poll.server, from, poll.tip.value)) && e in archive && from <= e.ledger <= poll.tip.value
  }

  // What processEvents dispatches; handler errors are swallowed.
  function Recognised(events: seq<Event>): seq<Event> {
    if events == [] then []
    else Recognised(events[..|events| - 1]) + if events[|events| - 1].recognised then [events[|events| - 1]] else []
  }

  // `kept` is the recognised events, each time they occur and in their order:
  // its i-th element is at positions[i] of `events`.
  predicate PickedAt(events: seq<Event>, kept: seq<Event>, positions: seq<int>) {
    && |positions| == |kept|
    && (forall i, k :: 0 <= i < k < |positions| ==> positions[i] < positions[k])
    && (forall i :: 0 <= i < |positions| ==> 0 <= positions[i] < |events| && events[positions[i]] == kept[i])
    && (forall k :: 0 <= k < |events| ==> (k in positions <==> events[k].recognised))
  }

  lemma {:induction false} RecognisedPicks(events: seq<Event>) returns (positions: seq<int>)
    ensures PickedAt(events, Recognised(events), positions)
  {
    if events == [] {
      positions := [];
    } else {
      var n := |events| - 1;
      var before := RecognisedPicks(events[..n]);
      positions := if events[n].recognised then before + [n] else before;
      OneMorePicked(events[..n], Recognised(events[..n]), before, events[n]);
      assert events == events[..n] + [events[n]];
    }
  }

  lemma OneMorePicked(events: seq<Event>, kept: seq<Event>, positions: seq<int>, e: Event)
    requires PickedAt(events, kept, positions)
    ensures if e.recognised then PickedAt(events + [e], kept + [e], positions + [|events|])
      else PickedAt(events + [e], kept, positions)
  {
    var more := if e.recognised then positions + [|events|] else positions;
    forall k | 0 <= k < |events + [e]| ensures k in more <==> (events + [e])[k].recognised {
      if k < |events| {
        assert (events + [e])[k] == events[k] && (k in more <==> k in positions);
      } else {
        assert |events| !in positions;
      }
    }
  }

  lemma {:induction false} RecognisedCounts(events: seq<Event>, e: Event)
    ensures multiset(Recognised(events))[e] == if e.recognised then multiset(events)[e] else 0
  {
    if events != [] {
      var n := |events| - 1;
      RecognisedCounts(events[..n], e);
      assert events == events[..n] + [events[n]];
    }
  }

  lemma RecognisedHas(events: seq<Event>, e: Event)
    ensures e in Recognised(events) <==> e in events && e.recognised
  {
    RecognisedCounts(events, e);
    assert e in Recognised(events) <==> e in multiset(Recognised(events));
    assert e in events <==> e in multiset(events);
  }

  // When every page is served, every recognised event of the range is among
  // those that are dispatched.
  lemma ServedIsRecognised(server: Server, archive: set<Event>, current: int, tip: int, e: Event)
    requires WellBehaved(server) && AllServed(archive, Pages(server, current, tip))
    requires e in archive && e.recognised && current <= e.ledger <= tip
    ensures e in Recognised(Events(Pages(server, current, tip)))
  {
    ServedIsCovered(server, archive, current, tip, e);
    RecognisedHas(Events(Pages(server, current, tip)), e);
  }

  lemma {:induction false} RecognisedOfSum(a: seq<Event>, b: seq<Event>)
    ensures Recognised(a + b) == Recognised(a) + Recognised(b)
    decreases |b|
  {
    if b == [] {
      assert a + b == a;
    } else {
      assert (a + b)[..|a + b| - 1] == a + b[..|b| - 1];
      RecognisedOfSum(a, b[..|b| - 1]);
    }
  }

  // ── The service ──────────────────────────────────────────────────────────

  class IndexerService {
    var lastIndexedLedger: Option<int>
    var polling: bool
    var dispatched: seq<Event>

    constructor (lastIndexedLedger: Option<int>)
      ensures this.lastIndexedLedger == lastIndexedLedger && !polling && dispatched == []
    {
      this.lastIndexedLedger, polling, dispatched := lastIndexedLedger, false, [];
    }

    method ProcessEvents(events: seq<Event>)
      modifies `dispatched
      ensures dispatched == old(dispatched) + Recognised(events)
      ensures exists positions :: PickedAt(events, dispatched[|old(dispatched)|..], positions)
    {
      for i := 0 to |events|
        invariant dispatched == old(dispatched) + Recognised(events[..i])
      {
        assert events[..i + 1][..i] == events[..i];
        if events[i].recognised {
          dispatched := dispatched + [events[i]];
        }
      }
      assert events[..|events|] == events;
      ghost var positions := RecognisedPicks(events);
      assert dispatched[|old(dispatched)|..] == Recognised(events);
    }

    // Pages from the cursor to the tip, saving the cursor after every page; true
    // when a save throws. The page whose save throws is dispatched, but the
    // cursor stays before it.
    method PollRange(poll: Poll, fromLedger: int) returns (threw: bool)
      requires WellBehaved(poll.server) && poll.tip.Some? && fromLedger <= poll.tip.value
      requires lastIndexedLedger == Some(fromLedger - 1)
      modifies `lastIndexedLedger, `dispatched
      ensures threw <==> poll.saves < |Pages(poll.server, fromLedger, poll.tip.value)|
      ensures lastIndexedLedger == Some(CursorAfter(poll, fromLedger - 1))
      ensures dispatched == old(dispatched) + Recognised(Events(Served(poll, fromLedger - 1)))
      ensures var pages := Pages(poll.server, fromLedger, poll.tip.value);
        var served := if threw then pages[..poll.saves + 1] else pages;
        && dispatched == old(dispatched) + Recognised(Events(served))
        && lastIndexedLedger ==
           Some(if !threw then poll.tip.value else if poll.saves == 0 then fromLedger - 1 else pages[poll.saves - 1].to)
      ensures forall e :: e in dispatched <==>
        e in old(dispatched) || (e.recognised && e in Events(Served(poll, fromLedger - 1)))
      ensures !threw ==> forall archive, e :: Archived(archive, e, poll, fromLedger) && e.recognised ==> e in dispatched
    {
      threw := PageThrough(poll, fromLedger);
      CursorIncreases(poll.server, fromLedger, poll.tip.value);
      forall e ensures e in Recognised(Events(Served(poll, fromLedger - 1))) <==>
        e.recognised && e in Events(Served(poll, fromLedger - 1))
      {
        RecognisedHas(Events(Served(poll, fromLedger - 1)), e);
      }
      forall archive, e | !threw && Archived(archive, e, poll, fromLedger) && e.recognised ensures e in dispatched {
        ServedIsRecognised(poll.server, archive, fromLedger, poll.tip.value, e);
      }
    }

    method PageThrough(poll: Poll, fromLedger: int) returns (threw: bool)
      requires WellBehaved(poll.server) && poll.tip.Some? && fromLedger <= poll.tip.value
      requires lastIndexedLedger == Some(fromLedger - 1)
      modifies `lastIndexedLedger, `dispatched
      ensures threw <==> poll.saves < |Pages(poll.server, fromLedger, poll.tip.value)|
      ensures lastIndexedLedger == Some(CursorAfter(poll, fromLedger - 1))
      ensures dispatched == old(dispatched) + Recognised(Events(Served(poll, fromLedger - 1)))
    {
      ghost var pages := Pages(poll.server, fromLedger, poll.tip.value);
      ghost var before := dispatched;
      var currentLedger, n := fromLedger, 0;
      threw := false;
      assert pages[..0] == [];
      while currentLedger <= poll.tip.value && !threw
        invariant fromLedger <= currentLedger <= poll.tip.value + 1 && 0 <= n <= |pages|
        invariant if threw then n == poll.saves + 1
          else n <= poll.saves && pages[n..] == Pages(poll.server, currentLedger, poll.tip.value)
        invariant Progress(before, pages, n, if threw then n - 1 else n, fromLedger - 1)
        decreases poll.tip.value - currentLedger + 1, !threw
      {
        currentLedger, threw := ServePage(poll, currentLedger, n, before, pages, fromLedger - 1);
        n := n + 1;
      }
      assert !threw ==> pages[n..] == [] && pages[..n] == pages;
    }

    // n pages dispatched, the cursor of the first `saved` of them saved.
    ghost predicate Progress(before: seq<Event>, pages: seq<Page>, n: int, saved: int, cursor: int)
      requires 0 <= n <= |pages|
      reads this
    {
      && dispatched == before + Recognised(Events(pages[..n]))
      && 0 <= saved <= |pages| && lastIndexedLedger == Some(CursorAt(pages, saved, cursor))
    }

    // One iteration: fetch, dispatch, save the cursor.
    method ServePage(poll: Poll, currentLedger: int, n: nat, ghost before: seq<Event>, ghost pages: seq<Page>,
        ghost cursor: int)
      returns (next: int, threw: bool)
      requires WellBehaved(poll.server) && poll.tip.Some? && currentLedger <= poll.tip.value
      requires n <= |pages| && n <= poll.saves && pages[n..] == Pages(poll.server, currentLedger, poll.tip.value)
      requires Progress(before, pages, n, n, cursor)
      modifies `lastIndexedLedger, `dispatched
      ensures n < |pages| && Progress(before, pages, n + 1, if threw then n else n + 1, cursor)
      ensures threw == (n == poll.saves)
      ensures if threw then next == currentLedger
        else currentLedger < next <= poll.tip.value + 1 && pages[n + 1..] == Pages(poll.server, next, poll.tip.value)
    {
      NextPage(poll.server, currentLedger, poll.tip.value, pages, n);
      var page := FetchEvents(poll.server, currentLedger, PageEnd(currentLedger, poll.tip.value));
      ProcessEvents(page.events);
      OnePageMore(before, pages, n);
      next, threw := currentLedger, n == poll.saves;
      if !threw {
        lastIndexedLedger := Some(page.to);
        next := page.to + 1;
      }
    }

    // One poll; true when it throws.
    method DoPoll(poll: Poll, contractIds: seq<int>) returns (threw: bool)
      requires WellBehaved(poll.server)
      modifies `lastIndexedLedger, `dispatched
      ensures poll.tip.None? ==> threw && lastIndexedLedger == old(lastIndexedLedger) && dispatched == old(dispatched)
      ensures poll.tip.Some? && old(lastIndexedLedger).None? ==>
        dispatched == old(dispatched) && (threw <==> poll.saves == 0) &&
        lastIndexedLedger == if threw then None else Some(Max(poll.tip.value - 1, 0))
      ensures poll.tip.Some? && old(lastIndexedLedger).Some? && contractIds == [] ==>
        !threw && lastIndexedLedger == old(lastIndexedLedger) && dispatched == old(dispatched)
      ensures poll.tip.Some? && Idle(old(lastIndexedLedger), poll.tip.value, contractIds) ==>
        !threw && lastIndexedLedger == old(lastIndexedLedger) && dispatched == old(dispatched)
      ensures poll.tip.Some? && old(lastIndexedLedger).Some? &&
              !Idle(old(lastIndexedLedger), poll.tip.value, contractIds) ==>
        lastIndexedLedger == Some(CursorAfter(poll, old(lastIndexedLedger).value)) &&
        dispatched == old(dispatched) + Recognised(Events(Served(poll, old(lastIndexedLedger).value)))
    {
      threw := false;
      if poll.tip.None? {
        return true;
      }
      if lastIndexedLedger == None {
        if poll.saves == 0 {
          return true;
        }
        lastIndexedLedger := Some(Max(poll.tip.value - 1, 0));
        return;
      }
      var fromLedger := lastIndexedLedger.value + 1;
      if fromLedger > poll.tip.value || contractIds == [] {
        return;
      }
      threw := PollRange(poll, fromLedger);
    }

    // A tick that finds a cycle still running does nothing; an error is logged
    // and the flag goes down in any case.
    method RunPollCycle(poll: Poll, contractIds: seq<int>)
      requires WellBehaved(poll.server)
      modifies this
      ensures polling == old(polling)
      ensures old(polling) || poll.tip.None? ==>
        lastIndexedLedger == old(lastIndexedLedger) && dispatched == old(dispatched)
      ensures !old(polling) && poll.tip.Some? && old(lastIndexedLedger).None? ==>
        dispatched == old(dispatched) &&
        lastIndexedLedger == if poll.saves == 0 then None else Some(Max(poll.tip.value - 1, 0))
      ensures poll.tip.Some? && Idle(old(lastIndexedLedger), poll.tip.value, contractIds) ==>
        lastIndexedLedger == old(lastIndexedLedger) && dispatched == old(dispatched)
      ensures !old(polling) && poll.tip.Some? && old(lastIndexedLedger).Some? &&
              !Idle(old(lastIndexedLedger), poll.tip.value, contractIds) ==>
        lastIndexedLedger == Some(CursorAfter(poll, old(lastIndexedLedger).value)) &&
        dispatched == old(dispatched) + Recognised(Events(Served(poll, old(lastIndexedLedger).value)))
    {
      if polling {
        return;
      }
      polling := true;
      var _ := DoPoll(poll, contractIds);
      polling := false;
    }
  }

  lemma NextPage(server: Server, current: int, tip: int, pages: seq<Page>, n: nat)
    requires WellBehaved(server) && current <= tip && n <= |pages| && pages[n..] == Pages(server, current, tip)
    ensures var page := FetchEvents(server, current, PageEnd(current, tip));
      n < |pages| && pages[n] == page && current <= page.to <= tip && pages[n + 1..] == Pages(server, page.to + 1, tip)
  {
    PagesUnfold(server, current, tip);
    assert pages[n..][0] == pages[n] && pages[n + 1..] == pages[n..][1..];
  }

  lemma {:induction false} EventsOfSum(a: seq<Page>, b: seq<Page>)
    ensures Events(a + b) == Events(a) + Events(b)
    decreases |a|
  {
    if a == [] {
      assert a + b == b;
    } else {
      assert (a + b)[1..] == a[1..] + b;
      EventsOfSum(a[1..], b);
      Associates(a[0].events, Events(a[1..]), Events(b));
    }
  }

  lemma OnePageMore(before: seq<Event>, pages: seq<Page>, n: nat)
    requires n < |pages|
    ensures before + Recognised(Events(pages[..n])) + Recognised(pages[n].events) ==
      before + Recognised(Events(pages[..n + 1]))
  {
    assert pages[..n + 1] == pages[..n] + [pages[n]];
    EventsOfSum(pages[..n], [pages[n]]);
    assert [pages[n]][1..] == [] && Events([pages[n]]) == pages[n].events + [];
    assert pages[n].events + [] == pages[n].events;
    RecognisedOfSum(Events(pages[..n]), pages[n].events);
    Associates(before, Recognised(Events(pages[..n])), Recognised(pages[n].events));
  }
}
