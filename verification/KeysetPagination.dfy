// Keyset (seek) pagination over a table that other requests keep changing, and
// the legacy offset mode. A row is its immutable (sort, id) key; a cursor is
// the key of the last row returned.
module KeysetPagination {
  import opened Basics

  datatype Direction = ASC | DESC
  datatype Key = Key(sort: int, id: int)

  // Unified list result; offset mode fills total, cursor mode the last two.
  datatype Page = Page(data: seq<Key>, total: Option<int>, nextCursor: Option<Key>, hasMore: Option<bool>)

  // The order of ORDER BY sort dir, id dir; also the cursor predicate
  // (sort cmp :v OR (sort = :v AND id cmp :id)).
  predicate Before(dir: Direction, a: Key, b: Key) {
    match dir
    case ASC => a.sort < b.sort || (a.sort == b.sort && a.id < b.id)
    case DESC => b.sort < a.sort || (a.sort == b.sort && b.id < a.id)
  }

  // Rows as a list shows them: sorts never go against the direction, and rows
  // of equal sort have ids that go with it.
  predicate InOrder(dir: Direction, s: seq<Key>) {
    forall i, k :: 0 <= i < k < |s| ==>
      if dir == ASC then s[i].sort <= s[k].sort && (s[i].sort == s[k].sort ==> s[i].id < s[k].id)
      else s[k].sort <= s[i].sort && (s[i].sort == s[k].sort ==> s[k].id < s[i].id)
  }

  lemma AscendingIsInOrder(dir: Direction, s: seq<Key>)
    ensures Ascending(dir, s) <==> InOrder(dir, s)
  {
    if InOrder(dir, s) {
      forall i, k | 0 <= i < k < |s| ensures Before(dir, s[i], s[k]) {
        assert if dir == ASC then s[i].sort <= s[k].sort else s[k].sort <= s[i].sort;
      }
    }
  }

  // `k` comes after the cursor.
  predicate IsPast(dir: Direction, cursor: Option<Key>, k: Key) {
    cursor.Some? ==> InOrder(dir, [cursor.value, k])
  }

  lemma PastIsPast(dir: Direction, cursor: Option<Key>, k: Key)
    ensures Past(dir, cursor, k) <==> IsPast(dir, cursor, k)
  {
    if cursor.Some? {
      var s := [cursor.value, k];
      AscendingIsInOrder(dir, s);
      assert Ascending(dir, s) <==> Before(dir, s[0], s[1]);
    }
  }

  predicate Past(dir: Direction, cursor: Option<Key>, k: Key) {
    cursor.None? || Before(dir, cursor.value, k)
  }

  ghost predicate Ascending(dir: Direction, s: seq<Key>) {
    forall i, k :: 0 <= i < k < |s| ==> Before(dir, s[i], s[k])
  }

  ghost predicate IsFirst(t: set<Key>, dir: Direction, k: Key) {
    k in t && forall x :: x in t ==> x == k || Before(dir, k, x)
  }

  ghost predicate Sorts(t: set<Key>, dir: Direction, s: seq<Key>) {
    Ascending(dir, s) && forall k :: k in s <==> k in t
  }

  lemma HasMember(s: seq<Key>)
    ensures s == [] || exists k :: k in s
  {
    if s != [] {
      assert s[0] in s;
    }
  }

  // A set of keys is sorted in exactly one way.
  lemma {:induction false} SortedUniquely(t: set<Key>, dir: Direction, s: seq<Key>, r: seq<Key>)
    requires Sorts(t, dir, s) && Sorts(t, dir, r)
    ensures s == r
    decreases |s|
  {
    HasMember(s);
    HasMember(r);
    if s != [] {
      assert s[0] in t && s[0] in r;
      assert r[0] in t && r[0] in s;
      var i :| 0 <= i < |s| && s[i] == r[0];
      var k :| 0 <= k < |r| && r[k] == s[0];
      assert s[0] == r[0];
      TailSorts(t, dir, s);
      TailSorts(t, dir, r);
      SortedUniquely(t - {s[0]}, dir, s[1..], r[1..]);
      assert s == [s[0]] + s[1..] && r == [r[0]] + r[1..];
    }
  }

  lemma TailSorts(t: set<Key>, dir: Direction, s: seq<Key>)
    requires s != [] && Sorts(t, dir, s)
    ensures Sorts(t - {s[0]}, dir, s[1..])
  {
    forall k ensures k in s[1..] <==> k in t - {s[0]} {
      if k in t && k != s[0] {
        var i :| 0 <= i < |s| && s[i] == k;
        assert s[1..][i - 1] == k;
      }
    }
  }

  lemma {:induction false} FirstExists(t: set<Key>, dir: Direction)
    requires t != {}
    ensures exists first :: IsFirst(t, dir, first)
    decreases t
  {
    var some := Member(t);
    assert forall x :: x in t ==> x == some || x in t - {some};
    if t - {some} == {} {
      assert IsFirst(t, dir, some);
    } else {
      FirstExists(t - {some}, dir);
      var other :| IsFirst(t - {some}, dir, other);
      assert IsFirst(t, dir, if Before(dir, other, some) then other else some);
    }
  }

  // The whole table in the order of the list.
  ghost function Ordered(t: set<Key>, dir: Direction): seq<Key> {
    if t == {} then [] else
      var first := First(t, dir);
      [first] + Ordered(t - {first}, dir)
  }

  lemma {:induction false} OrderedSorts(t: set<Key>, dir: Direction)
    ensures Sorts(t, dir, Ordered(t, dir))
    decreases t
  {
    if t != {} {
      var first := First(t, dir);
      var rest := Ordered(t - {first}, dir);
      OrderedSorts(t - {first}, dir);
      forall k ensures k in [first] + rest <==> k in t {
        assert k in [first] + rest <==> k == first || k in rest;
      }
      assert forall i :: 0 <= i < |rest| ==> rest[i] in rest;
    }
  }

  ghost function First(t: set<Key>, dir: Direction): (k: Key)
    requires t != {}
    ensures IsFirst(t, dir, k)
  {
    FirstExists(t, dir);
    var k :| IsFirst(t, dir, k);
    k
  }

  // ── Pages ────────────────────────────────────────────────────────────────

  function Remaining(t: set<Key>, dir: Direction, cursor: Option<Key>): set<Key> {
    set k | k in t && Past(dir, cursor, k)
  }

  function Slice(s: seq<Key>, from: nat, count: nat): seq<Key> {
    if |s| <= from then [] else if |s| - from <= count then s[from..] else s[from..from + count]
  }

  // LIMIT limit + 1 rows past the cursor, cut down to a page.
  ghost function KeysetPage(t: set<Key>, dir: Direction, cursor: Option<Key>, limit: nat): Page {
    Cut(Slice(Ordered(Remaining(t, dir, cursor), dir), 0, limit + 1), limit)
  }

  function Cut(rows: seq<Key>, limit: nat): Page {
    var hasMore := |rows| > limit;
    var data := if hasMore then rows[..limit] else rows;
    var next := if hasMore && |data| > 0 then Some(data[|data| - 1]) else None;
    Page(data, None, next, Some(hasMore))
  }

  ghost function OffsetPage(t: set<Key>, dir: Direction, page: int, limit: nat): Page
    requires page >= 1
  {
    Page(Slice(Ordered(t, dir), (page - 1) * limit, limit), Some(|t|), None, None)
  }

  // The data of a keyset page is the next `limit` rows past the cursor, and
  // without a next cursor nothing of the table is left (for limit >= 1).
  lemma PageIsPrefix(t: set<Key>, dir: Direction, cursor: Option<Key>, limit: nat)
    requires limit >= 1
    ensures var p, s := KeysetPage(t, dir, cursor, limit), Ordered(Remaining(t, dir, cursor), dir);
      && p.data <= s
      && |p.data| == (if |s| <= limit then |s| else limit)
      && (p.nextCursor.None? <==> |s| <= limit)
      && (p.nextCursor.Some? ==> p.data != [] && p.nextCursor.value == p.data[|p.data| - 1])
  {
  }

  // ── Walking a changing table ─────────────────────────────────────────────

  // Fetch i sees the table ts[i]; the walk stops when there is no next cursor.
  ghost function Walk(ts: seq<set<Key>>, dir: Direction, cursor: Option<Key>, limit: nat): seq<Page> {
    if ts == [] then [] else
      var p := KeysetPage(ts[0], dir, cursor, limit);
      [p] + if p.nextCursor.None? then [] else Walk(ts[1..], dir, p.nextCursor, limit)
  }

  function Rows(pages: seq<Page>): seq<Key> {
    if pages == [] then [] else pages[0].data + Rows(pages[1..])
  }

  predicate Completed(pages: seq<Page>) {
    pages != [] && pages[|pages| - 1].nextCursor.None?
  }

  lemma WalkUnfolds(ts: seq<set<Key>>, dir: Direction, cursor: Option<Key>, limit: nat)
    requires ts != []
    ensures var p := KeysetPage(ts[0], dir, cursor, limit);
      Rows(Walk(ts, dir, cursor, limit)) ==
        if p.nextCursor.None? then p.data else p.data + Rows(Walk(ts[1..], dir, p.nextCursor, limit))
  {
    var p := KeysetPage(ts[0], dir, cursor, limit);
    var pages := Walk(ts, dir, cursor, limit);
    if p.nextCursor.None? {
      assert pages[1..] == [];
    } else {
      assert pages[1..] == Walk(ts[1..], dir, p.nextCursor, limit);
    }
  }

  lemma PageAscends(t: set<Key>, dir: Direction, cursor: Option<Key>, limit: nat)
    requires limit >= 1
    ensures var data := KeysetPage(t, dir, cursor, limit).data;
      Ascending(dir, data) && forall k :: k in data ==> k in t && Past(dir, cursor, k)
  {
    var data, s := KeysetPage(t, dir, cursor, limit).data, Ordered(Remaining(t, dir, cursor), dir);
    PageIsPrefix(t, dir, cursor, limit);
    OrderedSorts(Remaining(t, dir, cursor), dir);
    forall k | k in data ensures k in s {
      var i :| 0 <= i < |data| && data[i] == k;
      assert s[i] == k;
    }
  }

  // A page in terms of its columns: rows past the cursor, in order, at most
  // `limit`; every row left out comes after all of them, and if there is one
  // the page is full and leads on from its last row.
  ghost predicate IsPage(t: set<Key>, dir: Direction, cursor: Option<Key>, limit: nat, p: Page) {
    && InOrder(dir, p.data) && |p.data| <= limit && p.total == None
    && (forall k :: k in p.data ==> k in t && IsPast(dir, cursor, k))
    && (forall k :: k in t && IsPast(dir, cursor, k) && k !in p.data ==>
         |p.data| == limit && InOrder(dir, p.data + [k]))
    && p.hasMore == Some(exists k :: k in t && IsPast(dir, cursor, k) && k !in p.data)
    && p.nextCursor == if p.hasMore.value && limit > 0 then Some(p.data[limit - 1]) else None
  }

  // `data` is the first part of a sorted list `s`.
  lemma PrefixLeavesLater(dir: Direction, s: seq<Key>, n: nat, k: Key)
    requires Ascending(dir, s) && n <= |s| && k in s && k !in s[..n]
    ensures n < |s| && InOrder(dir, s[..n] + [k])
  {
    assert s == s[..n] + s[n..];
    assert k in s[n..];
    var i :| 0 <= i < |s[n..]| && s[n..][i] == k;
    assert s[n + i] == k;
    AscendingIsInOrder(dir, s[..n] + [k]);
  }

  lemma PrefixIsPage(t: set<Key>, dir: Direction, cursor: Option<Key>, s: seq<Key>, n: nat)
    requires Sorts(Remaining(t, dir, cursor), dir, s) && n <= |s|
    ensures InOrder(dir, s[..n])
    ensures forall k :: k in s[..n] ==> k in t && IsPast(dir, cursor, k)
    ensures forall k :: k in t && IsPast(dir, cursor, k) && k !in s[..n] ==> n < |s| && InOrder(dir, s[..n] + [k])
    ensures n < |s| ==> s[n] in t && IsPast(dir, cursor, s[n]) && s[n] !in s[..n]
  {
    AscendingIsInOrder(dir, s[..n]);
    forall k ensures k in s <==> k in t && IsPast(dir, cursor, k) {
      PastIsPast(dir, cursor, k);
    }
    forall k | k in s[..n] ensures k in s {
      var i :| 0 <= i < n && s[..n][i] == k;
      assert s[i] == k;
    }
    forall k | k in s && k !in s[..n] ensures n < |s| && InOrder(dir, s[..n] + [k]) {
      PrefixLeavesLater(dir, s, n, k);
    }
    if n < |s| {
      assert s[n] in s;
      forall i | 0 <= i < n ensures s[..n][i] != s[n] {
        assert Before(dir, s[i], s[n]);
      }
    }
  }

  lemma KeysetPageIsPage(t: set<Key>, dir: Direction, cursor: Option<Key>, limit: nat)
    ensures IsPage(t, dir, cursor, limit, KeysetPage(t, dir, cursor, limit))
  {
    var p, s := KeysetPage(t, dir, cursor, limit), Ordered(Remaining(t, dir, cursor), dir);
    OrderedSorts(Remaining(t, dir, cursor), dir);
    var n := if |s| <= limit then |s| else limit;
    assert p.data == s[..n] && p.hasMore == Some(n < |s|);
    PrefixIsPage(t, dir, cursor, s, n);
  }

  // An offset page: `before` is what it skips, the whole table if there is not
  // more, and every row on neither comes after both.
  ghost predicate Skips(t: set<Key>, dir: Direction, before: seq<Key>, skip: nat, limit: nat, data: seq<Key>) {
    && InOrder(dir, before + data) && |before| <= skip && |data| <= limit
    && (|before| < skip ==> data == [])
    && (forall k :: k in before + data ==> k in t)
    && (forall k :: k in t && k !in before + data ==>
         |before| == skip && |data| == limit && InOrder(dir, before + data + [k]))
  }

  ghost predicate IsSlice(t: set<Key>, dir: Direction, skip: nat, limit: nat, data: seq<Key>) {
    exists before :: Skips(t, dir, before, skip, limit, data)
  }

  lemma SliceSkips(t: set<Key>, dir: Direction, skip: nat, limit: nat) returns (before: seq<Key>)
    ensures Skips(t, dir, before, skip, limit, Slice(Ordered(t, dir), skip, limit))
  {
    var s := Ordered(t, dir);
    var end := if |s| <= skip + limit then |s| else skip + limit;
    before := if |s| <= skip then s else s[..skip];
    assert before + Slice(s, skip, limit) == s[..end];
    OrderedSorts(t, dir);
    assert Remaining(t, dir, None) == t;
    PrefixIsPage(t, dir, None, s, end);
  }

  ghost predicate IsOffsetPage(t: set<Key>, dir: Direction, page: int, limit: nat, p: Page)
    requires page >= 1
  {
    && p.total == Some(|t|) && p.nextCursor == None && p.hasMore == None
    && IsSlice(t, dir, (page - 1) * limit, limit, p.data)
  }

  lemma OffsetPageIsOffsetPage(t: set<Key>, dir: Direction, page: int, limit: nat)
    requires page >= 1
    ensures IsOffsetPage(t, dir, page, limit, OffsetPage(t, dir, page, limit))
  {
    var before := SliceSkips(t, dir, (page - 1) * limit, limit);
  }

  // Whatever is inserted or deleted between the fetches, the rows come strictly
  // ordered: nothing repeats, nothing comes from before the start.
  lemma {:induction false} WalkAscends(ts: seq<set<Key>>, dir: Direction, cursor: Option<Key>, limit: nat)
    requires limit >= 1
    ensures Ascending(dir, Rows(Walk(ts, dir, cursor, limit)))
    ensures forall k :: k in Rows(Walk(ts, dir, cursor, limit)) ==> Past(dir, cursor, k)
    decreases |ts|
  {
    if ts != [] {
      var p := KeysetPage(ts[0], dir, cursor, limit);
      PageAscends(ts[0], dir, cursor, limit);
      PageIsPrefix(ts[0], dir, cursor, limit);
      WalkUnfolds(ts, dir, cursor, limit);
      if p.nextCursor.Some? {
        WalkAscends(ts[1..], dir, p.nextCursor, limit);
        AppendAscends(dir, cursor, p.data, Rows(Walk(ts[1..], dir, p.nextCursor, limit)));
      }
    }
  }

  // In terms of the columns: rising sorts for ASC, falling ones for DESC, ties
  // by id, and all of it past the cursor.
  lemma WalkIsInOrder(ts: seq<set<Key>>, dir: Direction, cursor: Option<Key>, limit: nat)
    requires limit >= 1
    ensures InOrder(dir, Rows(Walk(ts, dir, cursor, limit)))
    ensures forall k :: k in Rows(Walk(ts, dir, cursor, limit)) ==> IsPast(dir, cursor, k)
  {
    WalkAscends(ts, dir, cursor, limit);
    AscendingIsInOrder(dir, Rows(Walk(ts, dir, cursor, limit)));
    forall k | k in Rows(Walk(ts, dir, cursor, limit)) ensures IsPast(dir, cursor, k) {
      PastIsPast(dir, cursor, k);
    }
  }

  lemma AppendAscends(dir: Direction, cursor: Option<Key>, a: seq<Key>, b: seq<Key>)
    requires a != [] && Ascending(dir, a) && Ascending(dir, b)
    requires forall k :: k in a ==> Past(dir, cursor, k)
    requires forall k :: k in b ==> Before(dir, a[|a| - 1], k)
    ensures Ascending(dir, a + b) && forall k :: k in a + b ==> Past(dir, cursor, k)
  {
    JoinAscends(dir, a, b);
    assert a[|a| - 1] in a;
    forall k | k in a + b ensures Past(dir, cursor, k) {
      assert k in a || k in b;
    }
  }

  lemma JoinAscends(dir: Direction, a: seq<Key>, b: seq<Key>)
    requires Ascending(dir, a) && Ascending(dir, b) && a != []
    requires forall k :: k in b ==> Before(dir, a[|a| - 1], k)
    ensures Ascending(dir, a + b)
  {
    forall i, k | 0 <= i < k < |a + b| ensures Before(dir, (a + b)[i], (a + b)[k]) {
      if i < |a| <= k {
        assert b[k - |a|] in b;
      }
    }
  }

  // A row past the cursor is on the page or past the next cursor.
  lemma PageCovers(t: set<Key>, dir: Direction, cursor: Option<Key>, limit: nat, k: Key)
    requires limit >= 1 && k in t && Past(dir, cursor, k)
    ensures var p := KeysetPage(t, dir, cursor, limit);
      k in p.data || (p.nextCursor.Some? && Past(dir, p.nextCursor, k))
  {
    var p, s := KeysetPage(t, dir, cursor, limit), Ordered(Remaining(t, dir, cursor), dir);
    PageIsPrefix(t, dir, cursor, limit);
    OrderedSorts(Remaining(t, dir, cursor), dir);
    assert k in s;
    var i :| 0 <= i < |s| && s[i] == k;
    if i < |p.data| {
      assert p.data[i] == k;
    }
  }

  lemma RestIsCompleted(ts: seq<set<Key>>, dir: Direction, cursor: Option<Key>, limit: nat)
    requires ts != [] && KeysetPage(ts[0], dir, cursor, limit).nextCursor.Some?
    requires Completed(Walk(ts, dir, cursor, limit))
    ensures var rest := Walk(ts[1..], dir, KeysetPage(ts[0], dir, cursor, limit).nextCursor, limit);
      Completed(rest) && |Walk(ts, dir, cursor, limit)| == |rest| + 1
  {
    var p := KeysetPage(ts[0], dir, cursor, limit);
    var rest := Walk(ts[1..], dir, p.nextCursor, limit);
    var pages := Walk(ts, dir, cursor, limit);
    assert pages == [p] + rest;
    assert rest != [] ==> pages[|pages| - 1] == rest[|rest| - 1];
  }

  // Every row past the start that is in the table at every fetch of a completed
  // walk is returned.
  lemma {:induction false} WalkCovers(ts: seq<set<Key>>, dir: Direction, cursor: Option<Key>, limit: nat, k: Key)
    requires limit >= 1 && Past(dir, cursor, k)
    requires var pages := Walk(ts, dir, cursor, limit);
      Completed(pages) && |pages| <= |ts| && forall i :: 0 <= i < |pages| ==> k in ts[i]
    ensures k in Rows(Walk(ts, dir, cursor, limit))
    decreases |ts|
  {
    var p := KeysetPage(ts[0], dir, cursor, limit);
    PageCovers(ts[0], dir, cursor, limit, k);
    WalkUnfolds(ts, dir, cursor, limit);
    if k !in p.data {
      RestIsCompleted(ts, dir, cursor, limit);
      WalkCovers(ts[1..], dir, p.nextCursor, limit, k);
    }
  }

  // Every returned row was in the table when its page was fetched, and no more
  // pages are fetched than tables seen.
  lemma {:induction false} WalkIsSound(ts: seq<set<Key>>, dir: Direction, cursor: Option<Key>, limit: nat)
    requires limit >= 1
    ensures var pages := Walk(ts, dir, cursor, limit);
      |pages| <= |ts| && forall i, k :: 0 <= i < |pages| && k in pages[i].data ==> k in ts[i]
    decreases |ts|
  {
    if ts != [] {
      var pages := Walk(ts, dir, cursor, limit);
      var p := KeysetPage(ts[0], dir, cursor, limit);
      PageIsPrefix(ts[0], dir, cursor, limit);
      OrderedSorts(Remaining(ts[0], dir, cursor), dir);
      assert forall k :: k in p.data ==> k in Ordered(Remaining(ts[0], dir, cursor), dir);
      WalkIsSound(ts[1..], dir, p.nextCursor, limit);
      forall i, k | 0 <= i < |pages| && k in pages[i].data ensures k in ts[i] {
        if i > 0 {
          assert pages[i] == Walk(ts[1..], dir, p.nextCursor, limit)[i - 1] && ts[i] == ts[1..][i - 1];
        }
      }
    }
  }

  // ── A table that does not change ─────────────────────────────────────────

  // The cursor left by reading the first n rows of the list.
  ghost function CursorAt(t: set<Key>, dir: Direction, n: nat): Option<Key>
    requires n <= |Ordered(t, dir)|
  {
    if n == 0 then None else Some(Ordered(t, dir)[n - 1])
  }

  lemma RemainingAt(t: set<Key>, dir: Direction, n: nat, k: Key)
    requires n <= |Ordered(t, dir)|
    ensures k in Ordered(t, dir)[n..] <==> k in Remaining(t, dir, CursorAt(t, dir, n))
  {
    OrderedSorts(t, dir);
    var s := Ordered(t, dir);
    if k in Remaining(t, dir, CursorAt(t, dir, n)) {
      var i :| 0 <= i < |s| && s[i] == k;
      assert i >= n;
      assert s[n..][i - n] == k;
    }
    if k in s[n..] {
      var i :| 0 <= i < |s[n..]| && s[n..][i] == k;
      assert s[n + i] == k && k in s;
    }
  }

  lemma RemainingIsSuffix(t: set<Key>, dir: Direction, n: nat)
    requires n <= |Ordered(t, dir)|
    ensures Ordered(Remaining(t, dir, CursorAt(t, dir, n)), dir) == Ordered(t, dir)[n..]
  {
    OrderedSorts(t, dir);
    var s := Ordered(t, dir);
    var rest := Remaining(t, dir, CursorAt(t, dir, n));
    forall k ensures k in s[n..] <==> k in rest {
      RemainingAt(t, dir, n, k);
    }
    OrderedSorts(rest, dir);
    SortedUniquely(rest, dir, Ordered(rest, dir), s[n..]);
  }

  lemma StaticPage(t: set<Key>, dir: Direction, limit: nat, n: nat)
    requires limit >= 1 && n <= |Ordered(t, dir)|
    ensures var p, s := KeysetPage(t, dir, CursorAt(t, dir, n), limit), Ordered(t, dir);
      if n + limit < |s| then p.data == s[n..][..limit] && p.nextCursor == CursorAt(t, dir, n + limit)
      else p.data == s[n..] && p.nextCursor.None?
  {
    RemainingIsSuffix(t, dir, n);
    PageIsPrefix(t, dir, CursorAt(t, dir, n), limit);
  }

  lemma SliceOf(s: seq<Key>, n: nat, limit: nat)
    requires n <= |s|
    ensures Slice(s, n, limit) == if n + limit < |s| then s[n..][..limit] else s[n..]
  {
  }

  // The page that starts at row n = (page - 1) * limit of the list is that page
  // of offset mode; its cursor leads to row n + limit, where the next one starts.
  lemma KeysetPageIsOffsetPage(t: set<Key>, dir: Direction, limit: nat, page: int, n: nat)
    requires limit >= 1 && page >= 1 && n == (page - 1) * limit && n <= |Ordered(t, dir)|
    ensures var p := KeysetPage(t, dir, CursorAt(t, dir, n), limit);
      && p.data == OffsetPage(t, dir, page, limit).data
      && (p.nextCursor.Some? <==> n + limit < |Ordered(t, dir)|)
      && (p.nextCursor.Some? ==> p.nextCursor == CursorAt(t, dir, n + limit))
  {
    StaticPage(t, dir, limit, n);
    SliceOf(Ordered(t, dir), n, limit);
  }

  function Repeat(t: set<Key>, n: nat): seq<set<Key>> {
    if n == 0 then [] else [t] + Repeat(t, n - 1)
  }

  // On a static table the pages concatenate to the rest of the list.
  lemma {:induction false} StaticWalkIsTheList(t: set<Key>, dir: Direction, limit: nat, n: nat, fetches: nat)
    requires limit >= 1 && n <= |Ordered(t, dir)|
    requires |Ordered(t, dir)| - n < fetches * limit
    ensures var pages := Walk(Repeat(t, fetches), dir, CursorAt(t, dir, n), limit);
      Completed(pages) && Rows(pages) == Ordered(t, dir)[n..]
    decreases fetches
  {
    Unfold(fetches, limit);
    if n + limit < |Ordered(t, dir)| {
      StaticWalkIsTheList(t, dir, limit, n + limit, fetches - 1);
      StaticWalkGoesOn(t, dir, limit, n, fetches);
    } else {
      StaticWalkEnds(t, dir, limit, n, fetches);
    }
  }

  lemma StaticWalkEnds(t: set<Key>, dir: Direction, limit: nat, n: nat, fetches: nat)
    requires limit >= 1 && n <= |Ordered(t, dir)| <= n + limit && fetches > 0
    ensures var pages := Walk(Repeat(t, fetches), dir, CursorAt(t, dir, n), limit);
      Completed(pages) && Rows(pages) == Ordered(t, dir)[n..]
  {
    StaticPage(t, dir, limit, n);
    WalkUnfolds(Repeat(t, fetches), dir, CursorAt(t, dir, n), limit);
  }

  lemma StaticWalkGoesOn(t: set<Key>, dir: Direction, limit: nat, n: nat, fetches: nat)
    requires limit >= 1 && n + limit < |Ordered(t, dir)| && fetches > 0
    requires var rest := Walk(Repeat(t, fetches - 1), dir, CursorAt(t, dir, n + limit), limit);
      Completed(rest) && Rows(rest) == Ordered(t, dir)[n + limit..]
    ensures var pages := Walk(Repeat(t, fetches), dir, CursorAt(t, dir, n), limit);
      Completed(pages) && Rows(pages) == Ordered(t, dir)[n..]
  {
    var ts := Repeat(t, fetches);
    assert ts[0] == t && ts[1..] == Repeat(t, fetches - 1);
    StaticPage(t, dir, limit, n);
    WalkUnfolds(ts, dir, CursorAt(t, dir, n), limit);
    CompletesLater(ts, dir, CursorAt(t, dir, n), limit);
    SplitAt(Ordered(t, dir), n, limit);
  }

  lemma Unfold(a: nat, b: nat)
    requires b >= 1
    ensures a * b == if a == 0 then 0 else (a - 1) * b + b
  {
  }

  lemma CompletesLater(ts: seq<set<Key>>, dir: Direction, cursor: Option<Key>, limit: nat)
    requires ts != [] && KeysetPage(ts[0], dir, cursor, limit).nextCursor.Some?
    requires Completed(Walk(ts[1..], dir, KeysetPage(ts[0], dir, cursor, limit).nextCursor, limit))
    ensures Completed(Walk(ts, dir, cursor, limit))
  {
    var p := KeysetPage(ts[0], dir, cursor, limit);
    var rest := Walk(ts[1..], dir, p.nextCursor, limit);
    assert Walk(ts, dir, cursor, limit) == [p] + rest;
    assert ([p] + rest)[|rest|] == rest[|rest| - 1];
  }

  lemma SplitAt(s: seq<Key>, n: nat, count: nat)
    requires n + count <= |s|
    ensures s[n..] == s[n..][..count] + s[n + count..]
  {
  }

  lemma WalkOnStatic(t: set<Key>, dir: Direction, limit: nat, n: nat, fetches: nat)
    requires limit >= 1 && n <= |Ordered(t, dir)| && fetches > 0
    ensures var walk := Walk(Repeat(t, fetches), dir, CursorAt(t, dir, n), limit);
      var p := KeysetPage(t, dir, CursorAt(t, dir, n), limit);
      && p.data == Slice(Ordered(t, dir), n, limit)
      && walk == [p] +
         if n + limit < |Ordered(t, dir)| then Walk(Repeat(t, fetches - 1), dir, CursorAt(t, dir, n + limit), limit)
         else []
  {
    var ts := Repeat(t, fetches);
    assert ts[0] == t && ts[1..] == Repeat(t, fetches - 1);
    StaticPage(t, dir, limit, n);
    SliceOf(Ordered(t, dir), n, limit);
  }

  // The walk over a static table from row n of the list.
  ghost function StaticWalk(t: set<Key>, dir: Direction, limit: nat, n: nat, fetches: nat): seq<Page>
    requires n <= |Ordered(t, dir)|
  {
    Walk(Repeat(t, fetches), dir, CursorAt(t, dir, n), limit)
  }

  lemma FirstPageAt(t: set<Key>, dir: Direction, limit: nat, n: nat, fetches: nat)
    requires limit >= 1 && n <= |Ordered(t, dir)| && StaticWalk(t, dir, limit, n, fetches) != []
    ensures StaticWalk(t, dir, limit, n, fetches)[0].data == Slice(Ordered(t, dir), n, limit)
  {
    WalkOnStatic(t, dir, limit, n, fetches);
  }

  lemma LaterPages(t: set<Key>, dir: Direction, limit: nat, n: nat, fetches: nat)
    requires limit >= 1 && n <= |Ordered(t, dir)| && 1 < |StaticWalk(t, dir, limit, n, fetches)|
    ensures n + limit <= |Ordered(t, dir)| && fetches > 0
    ensures StaticWalk(t, dir, limit, n, fetches)[1..] == StaticWalk(t, dir, limit, n + limit, fetches - 1)
  {
    WalkOnStatic(t, dir, limit, n, fetches);
  }

  // Page k (from 0) of a walk from row n starts the walk from k * limit rows
  // further on.
  lemma {:induction false} WalkFromPage(t: set<Key>, dir: Direction, limit: nat, n: nat, fetches: nat,
      k: nat, from: nat)
    requires limit >= 1 && n <= |Ordered(t, dir)| && k < |StaticWalk(t, dir, limit, n, fetches)|
    requires from == n + k * limit
    ensures from <= |Ordered(t, dir)| && k <= fetches
    ensures StaticWalk(t, dir, limit, n, fetches)[k..] == StaticWalk(t, dir, limit, from, fetches - k)
    decreases k
  {
    var walk := StaticWalk(t, dir, limit, n, fetches);
    if k == 0 {
      assert walk[0..] == walk;
    } else {
      Unfold(k, limit);
      LaterPages(t, dir, limit, n, fetches);
      WalkFromPage(t, dir, limit, n + limit, fetches - 1, k - 1, from);
      assert walk[1..][k - 1..] == walk[k..];
    }
  }

  lemma WalkPageIs(t: set<Key>, dir: Direction, limit: nat, fetches: nat, k: nat, from: nat)
    requires limit >= 1 && k < |StaticWalk(t, dir, limit, 0, fetches)| && from == k * limit
    ensures StaticWalk(t, dir, limit, 0, fetches)[k].data == Slice(Ordered(t, dir), from, limit)
  {
    var walk := StaticWalk(t, dir, limit, 0, fetches);
    WalkFromPage(t, dir, limit, 0, fetches, k, from);
    var rest := StaticWalk(t, dir, limit, from, fetches - k);
    assert walk[k..] == rest && rest[0] == walk[k];
    FirstPageAt(t, dir, limit, from, fetches - k);
  }

  // On a static table page k of the walk is page k of offset mode.
  lemma WalkPagesAreOffsetPages(t: set<Key>, dir: Direction, limit: nat, fetches: nat, k: nat)
    requires limit >= 1 && 1 <= k <= |Walk(Repeat(t, fetches), dir, None, limit)|
    ensures Walk(Repeat(t, fetches), dir, None, limit)[k - 1].data == OffsetPage(t, dir, k, limit).data
  {
    assert StaticWalk(t, dir, limit, 0, fetches) == Walk(Repeat(t, fetches), dir, None, limit);
    WalkPageIs(t, dir, limit, fetches, k - 1, (k - 1) * limit);
  }

  // Offset mode repeats a row as soon as one is inserted in front.
  lemma OffsetRepeatsAfterInsert(t: set<Key>, dir: Direction, newest: Key, limit: nat)
    requires 1 <= limit <= |Ordered(t, dir)|
    requires forall k :: k in t ==> Before(dir, newest, k)
    ensures OffsetPage(t + {newest}, dir, 2, limit).data != []
    ensures OffsetPage(t + {newest}, dir, 2, limit).data[0] in OffsetPage(t, dir, 1, limit).data
  {
    PrependSorts(t, dir, newest);
    assert (2 - 1) * limit == limit && (1 - 1) * limit == 0;
    ShiftRepeats(Ordered(t, dir), newest, limit);
  }

  lemma ShiftRepeats(s: seq<Key>, newest: Key, limit: nat)
    requires 1 <= limit <= |s|
    ensures var second := Slice([newest] + s, limit, limit); second != [] && second[0] in Slice(s, 0, limit)
  {
    assert Slice([newest] + s, limit, limit)[0] == ([newest] + s)[limit] == s[limit - 1];
    assert Slice(s, 0, limit) == s[..limit] && s[..limit][limit - 1] == s[limit - 1];
  }

  lemma PrependSorts(t: set<Key>, dir: Direction, newest: Key)
    requires forall k :: k in t ==> Before(dir, newest, k)
    ensures Ordered(t + {newest}, dir) == [newest] + Ordered(t, dir)
  {
    var s := Ordered(t, dir);
    OrderedSorts(t, dir);
    OrderedSorts(t + {newest}, dir);
    assert forall i :: 0 <= i < |s| ==> s[i] in t;
    assert Sorts(t + {newest}, dir, [newest] + s);
    SortedUniquely(t + {newest}, dir, [newest] + s, Ordered(t + {newest}, dir));
  }

  // ── The query builder and the paginators ─────────────────────────────────

  // A prepared SELECT; `rows` are the keys of the rows it matches so far.
  class QueryBuilder {
    var rows: set<Key>
    var order: Direction
    var skipped: nat
    var taken: Option<nat>

    constructor (rows: set<Key>)
      ensures this.rows == rows && skipped == 0 && taken == None
    {
      this.rows, order, skipped, taken := rows, ASC, 0, None;
    }

    ghost function Result(): seq<Key>
      reads this
    {
      var all := Ordered(rows, order);
      Slice(all, skipped, if taken.Some? then taken.value else |all|)
    }

    // The expanded row-value comparison with the decoded cursor.
    method AndWherePast(direction: Direction, cursor: Key)
      modifies `rows
      ensures rows == Remaining(old(rows), direction, Some(cursor))
    {
      rows := set k | k in rows && Before(direction, cursor, k);
    }

    method Least(among: set<Key>) returns (first: Key)
      requires among != {}
      ensures IsFirst(among, order, first)
    {
      ghost var _ := Member(among);
      first :| first in among;
      var left := among - {first};
      while left != {}
        invariant left <= among && first in among
        invariant forall k :: k in among ==> k in left || k == first || Before(order, first, k)
        decreases left
      {
        ghost var _ := Member(left);
        var k :| k in left;
        if Before(order, k, first) {
          first := k;
        }
        left := left - {k};
      }
    }

    method GetMany() returns (found: seq<Key>)
      ensures found == Result() && InOrder(order, found)
    {
      found := [];
      var left := rows;
      while left != {}
        invariant left <= rows && Sorts(rows - left, order, found)
        invariant forall i, k :: 0 <= i < |found| && k in left ==> Before(order, found[i], k)
        decreases left
      {
        var first := Least(left);
        assert forall k :: k in found + [first] <==> k in found || k == first;
        found := found + [first];
        left := left - {first};
      }
      assert rows - left == rows;
      OrderedSorts(rows, order);
      SortedUniquely(rows, order, found, Ordered(rows, order));
      AscendingIsInOrder(order, found);
      found := Slice(found, skipped, if taken.Some? then taken.value else |found|);
    }
  }

  // Newest first unless the list says otherwise.
  function Chosen(columns: Option<Direction>): Direction { if columns.Some? then columns.value else DESC }

  method ApplyOrdering(qb: QueryBuilder, columns: Option<Direction>)
    modifies qb`order
    ensures qb.order == Chosen(columns)
  {
    qb.order := Chosen(columns);
  }

  method PaginateKeyset(qb: QueryBuilder, columns: Option<Direction>, cursor: Option<Key>, limit: nat)
    returns (page: Page)
    requires qb.skipped == 0
    modifies qb
    ensures page == KeysetPage(old(qb.rows), Chosen(columns), cursor, limit)
    ensures IsPage(old(qb.rows), if columns.Some? then columns.value else DESC, cursor, limit, page)
  {
    KeysetPageIsPage(qb.rows, Chosen(columns), cursor, limit);
    var direction := Chosen(columns);
    if cursor.Some? {
      qb.AndWherePast(direction, cursor.value);
    }
    assert qb.rows == Remaining(old(qb.rows), direction, cursor);
    ApplyOrdering(qb, columns);
    qb.taken := Some(limit + 1);
    var rows := qb.GetMany();
    var hasMore := |rows| > limit;
    var data := if hasMore then rows[..limit] else rows;
    var nextCursor: Option<Key> := None;
    if hasMore && |data| > 0 {
      nextCursor := Some(data[|data| - 1]);
    }
    page := Page(data, None, nextCursor, Some(hasMore));
  }

  method PaginateOffset(qb: QueryBuilder, columns: Option<Direction>, page: int, limit: nat) returns (result: Page)
    requires page >= 1
    modifies qb
    ensures result == OffsetPage(old(qb.rows), Chosen(columns), page, limit)
    ensures IsOffsetPage(old(qb.rows), if columns.Some? then columns.value else DESC, page, limit, result)
  {
    OffsetPageIsOffsetPage(qb.rows, Chosen(columns), page, limit);
    ApplyOrdering(qb, columns);
    qb.skipped, qb.taken := (page - 1) * limit, Some(limit);
    var data := qb.GetMany();
    result := Page(data, Some(|qb.rows|), None, None);
  }

  // A cursor selects keyset mode; without one page and limit default to 1, 20.
  method Paginate(qb: QueryBuilder, columns: Option<Direction>, cursor: Option<Key>, page: Option<int>,
      limit: Option<nat>)
    returns (result: Page)
    requires qb.skipped == 0 && (page.Some? ==> page.value >= 1)
    modifies qb
    ensures var n, direction := if limit.Some? then limit.value else 20, if columns.Some? then columns.value else DESC;
      if cursor.Some? then IsPage(old(qb.rows), direction, cursor, n, result)
      else IsOffsetPage(old(qb.rows), direction, if page.Some? then page.value else 1, n, result)
  {
    var n := if limit.Some? then limit.value else 20;
    if cursor.Some? {
      result := PaginateKeyset(qb, columns, cursor, n);
    } else {
      result := PaginateOffset(qb, columns, if page.Some? then page.value else 1, n);
    }
  }
}
