/** Keyset pagination of a merchant's entries under a high-water position. */
module Pagination {
  import opened Domain
  import opened Ledger
  import opened LedgerRuns

  /* ---- The listing order: date, confirmation time and id, all descending ---- */

  datatype SortKey = SortKey(date: Date, confirmedAt: int, id: Id)

  function KeyOf(e: Entry): SortKey {
    SortKey(e.date, e.confirmedAt, e.id)
  }

  predicate Less(a: SortKey, b: SortKey) {
    || a.date < b.date
    || (a.date == b.date && a.confirmedAt < b.confirmedAt)
    || (a.date == b.date && a.confirmedAt == b.confirmedAt && a.id < b.id)
  }

  /** Entry a is listed before entry b. */
  predicate Before(a: Entry, b: Entry) {
    Less(KeyOf(b), KeyOf(a))
  }

  ghost predicate Distinct(s: set<Entry>) {
    forall a, b | a in s && b in s && a.id == b.id :: a == b
  }

  ghost predicate IsFirst(s: set<Entry>, x: Entry) {
    x in s && forall y | y in s :: y == x || Before(x, y)
  }

  lemma {:induction false} FirstExists(s: set<Entry>) returns (x: Entry)
    requires s != {} && Distinct(s)
    ensures IsFirst(s, x)
    decreases s
  {
    var w :| w in s;
    var rest := s - {w};
    x := w;
    if rest != {} {
      var y := FirstExists(rest);
      assert w.id != y.id;
      x := if Before(y, w) then y else w;
      forall z | z in s
        ensures z == x || Before(x, z)
      {
        assert z == w || z == y || (z in rest && Before(y, z));
      }
    } else {
      assert forall z | z in s :: z == w || z in rest;
    }
  }

  /** The entries of s in listing order. */
  ghost function Sorted(s: set<Entry>): seq<Entry>
    requires Distinct(s)
    decreases s
  {
    if s == {} then []
    else
      var x := First(s);
      [x] + Sorted(s - {x})
  }

  ghost function First(s: set<Entry>): (x: Entry)
    requires s != {} && Distinct(s)
    ensures IsFirst(s, x)
  {
    var w :| w in s;
    assert exists x :: IsFirst(s, x) by {
      var x := FirstExists(s);
    }
    var x :| IsFirst(s, x);
    x
  }

  predicate Descending(xs: seq<Entry>) {
    forall i, j | 0 <= i < j < |xs| :: Before(xs[i], xs[j])
  }

  function Elements(xs: seq<Entry>): set<Entry> {
    set x | x in xs
  }

  lemma {:induction false} DescendingCons(x: Entry, xs: seq<Entry>)
    requires Descending(xs) && forall y | y in Elements(xs) :: Before(x, y)
    ensures Descending([x] + xs) && Elements([x] + xs) == {x} + Elements(xs)
  {
    forall i, j | 0 <= i < j < |[x] + xs|
      ensures Before(([x] + xs)[i], ([x] + xs)[j])
    {
      if i == 0 {
        assert xs[j - 1] in Elements(xs);
      } else {
        assert Before(xs[i - 1], xs[j - 1]);
      }
    }
  }

  lemma {:induction false} SortedIsDescending(s: set<Entry>)
    requires Distinct(s)
    ensures Descending(Sorted(s)) && Elements(Sorted(s)) == s && |Sorted(s)| == |s|
    decreases s
  {
    if s != {} {
      var x := First(s);
      SortedIsDescending(s - {x});
      DescendingCons(x, Sorted(s - {x}));
    }
  }

  /** A descending sequence is the listing of its elements. */
  lemma {:induction false} DescendingIsSorted(xs: seq<Entry>)
    requires Descending(xs) && Distinct(Elements(xs))
    ensures Sorted(Elements(xs)) == xs
  {
    if xs != [] {
      assert xs[0] in Elements(xs);
      var s, x, rest := Elements(xs), First(Elements(xs)), xs[1..];
      var i :| 0 <= i < |xs| && xs[i] == x;
      assert i == 0;
      assert Elements(rest) == s - {x} by {
        forall y | y in s - {x}
          ensures y in Elements(rest)
        {
          var k :| 0 <= k < |xs| && xs[k] == y;
          assert rest[k - 1] == y;
        }
      }
      DescendingIsSorted(rest);
      assert xs == [x] + rest;
    }
  }

  /** The elements after place k are those below the key at k - 1. */
  lemma {:induction false} BelowIsSuffix(xs: seq<Entry>, k: nat)
    requires Descending(xs) && 0 < k <= |xs|
    ensures Elements(xs[k..]) == set x | x in xs && Less(KeyOf(x), KeyOf(xs[k - 1]))
  {
    forall x | x in xs && Less(KeyOf(x), KeyOf(xs[k - 1]))
      ensures x in Elements(xs[k..])
    {
      var i :| 0 <= i < |xs| && xs[i] == x;
      assert i >= k;
      assert xs[k..][i - k] == x;
    }
  }

  /* ---- One page ---- */

  datatype Query = Query(merchant: Id, from: Option<Date>, to: Option<Date>, limit: nat)

  predicate InRange(q: Query, d: Date) {
    (q.from.Some? ==> q.from.value <= d) && (q.to.Some? ==> d <= q.to.value)
  }

  /** A signed cursor: the query it belongs to, the high water and the last key. */
  datatype Cursor = Cursor(query: Query, highWater: nat, last: SortKey)

  /** An entry as listed, with the reversal visible at the high water. */
  datatype Stored = Stored(entry: Entry, reversal: Option<Id>)

  datatype Page = Page(entries: seq<Stored>, next: Option<Cursor>)

  datatype ListError = InvalidPage | InvalidCursor | CursorScopeMismatch

  datatype Listing = Listed(page: Page) | Refused(error: ListError)

  ghost predicate IsReversal(t: Tables, id: Id, highWater: nat, k: Id) {
    k in t.entries && t.entries[k].original == Some(id) && t.entries[k].position <= highWater
  }

  ghost function ReversalAt(t: Tables, id: Id, highWater: nat): Option<Id> {
    if exists k :: IsReversal(t, id, highWater, k)
    then var k :| IsReversal(t, id, highWater, k); Some(k)
    else None
  }

  function Matching(t: Tables, q: Query, highWater: nat): set<Entry> {
    set id | id in t.entries && t.entries[id].merchant == q.merchant && InRange(q, t.entries[id].date)
             && t.entries[id].position <= highWater :: t.entries[id]
  }

  function After(s: set<Entry>, last: Option<SortKey>): set<Entry> {
    set e | e in s && (last.Some? ==> Less(KeyOf(e), last.value))
  }

  ghost function Rendered(t: Tables, highWater: nat, xs: seq<Entry>): seq<Stored> {
    seq(|xs|, i requires 0 <= i < |xs| => Stored(xs[i], ReversalAt(t, xs[i].id, highWater)))
  }

  /** ListEntries over the rows read: limit + 1 rows decide whether more follow. */
  ghost function PageOf(t: Tables, q: Query, highWater: nat, rows: seq<Entry>): Page {
    if |rows| > q.limit && q.limit > 0
    then Page(Rendered(t, highWater, rows[..q.limit]),
              Some(Cursor(q, highWater, KeyOf(rows[q.limit - 1]))))
    else Page(Rendered(t, highWater, rows), None)
  }

  ghost function List(t: Tables, q: Query, cursor: Option<Cursor>): Listing
    requires Keyed(t)
  {
    if q.limit < 1 || q.limit > 100 then Refused(InvalidPage)
    else if cursor.Some? && cursor.value.query != q then Refused(CursorScopeMismatch)
    else if cursor.Some? && cursor.value.highWater == 0 then Refused(InvalidCursor)
    else
      var highWater := if cursor.Some? then cursor.value.highWater else Last(t, q.merchant);
      if highWater == 0 then Listed(Page([], None))
      else
        var last := if cursor.Some? then Some(cursor.value.last) else None;
        Listed(PageOf(t, q, highWater, Sorted(After(Matching(t, q, highWater), last))))
  }

  /** A listing is refused for a limit outside 1..100, for a cursor made for
      another merchant, range or limit, and for one without a high water, in that
      order, and for nothing else. */
  lemma {:induction false} RefusalIs(t: Tables, q: Query, cursor: Option<Cursor>)
    requires Keyed(t)
    ensures
      var r := List(t, q, cursor);
      var foreign := cursor.Some? && var c := cursor.value.query;
                     !(c.merchant == q.merchant && c.from == q.from && c.to == q.to && c.limit == q.limit);
      && (q.limit < 1 || q.limit > 100 <==> r == Refused(InvalidPage))
      && (1 <= q.limit <= 100 && foreign <==> r == Refused(CursorScopeMismatch))
      && (1 <= q.limit <= 100 && !foreign && cursor.Some? && cursor.value.highWater == 0 <==> r == Refused(InvalidCursor))
      && (1 <= q.limit <= 100 && !foreign && (cursor.Some? ==> cursor.value.highWater > 0) <==> r.Listed?)
  {
  }

  /* ---- The frozen snapshot ---- */

  /** Later tables show the same merchant rows up to the high water. */
  ghost predicate Frozen(t: Tables, u: Tables, m: Id, highWater: nat) {
    && (forall id | id in t.entries && t.entries[id].merchant == m && t.entries[id].position <= highWater ::
          id in u.entries && u.entries[id] == t.entries[id])
    && (forall id | id in u.entries && u.entries[id].merchant == m && u.entries[id].position <= highWater ::
          id in t.entries && t.entries[id] == u.entries[id])
  }

  /** A committed row within both logs' common prefix is committed in both. */
  lemma {:induction false} SharedRow(t: Tables, u: Tables, logs: Logs, logs': Logs, m: Id, id: Id)
    requires Dense(t, logs) && Dense(u, logs') && id in t.entries && t.entries[id].merchant == m
    requires LogOf(logs, m) <= LogOf(logs', m)
          || (LogOf(logs', m) <= LogOf(logs, m) && t.entries[id].position <= |LogOf(logs', m)|)
    ensures id in u.entries && u.entries[id] == t.entries[id]
  {
    var e := t.entries[id];
    assert Logged(logs, id, e);
    assert Placed(u, m, e.position - 1, LogOf(logs', m)[e.position - 1]);
  }

  lemma {:induction false} PrefixFreezes(t: Tables, u: Tables, logs: Logs, logs': Logs, m: Id)
    requires Dense(t, logs) && Dense(u, logs') && LogOf(logs, m) <= LogOf(logs', m)
    ensures Frozen(t, u, m, Last(t, m))
  {
    assert Last(t, m) == |LogOf(logs, m)|;
    forall id | id in t.entries && t.entries[id].merchant == m
      ensures id in u.entries && u.entries[id] == t.entries[id]
    {
      SharedRow(t, u, logs, logs', m, id);
    }
    forall id | id in u.entries && u.entries[id].merchant == m && u.entries[id].position <= Last(t, m)
      ensures id in t.entries && t.entries[id] == u.entries[id]
    {
      SharedRow(u, t, logs', logs, m, id);
    }
  }

  lemma {:induction false} FrozenMatching(t: Tables, u: Tables, q: Query, highWater: nat)
    requires Frozen(t, u, q.merchant, highWater)
    ensures Matching(t, q, highWater) == Matching(u, q, highWater)
  {
    forall e | e in Matching(t, q, highWater)
      ensures e in Matching(u, q, highWater)
    {
      var id :| id in t.entries && t.entries[id] == e && t.entries[id].merchant == q.merchant
                && InRange(q, e.date) && e.position <= highWater;
      assert u.entries[id] == e;
    }
    forall e | e in Matching(u, q, highWater)
      ensures e in Matching(t, q, highWater)
    {
      var id :| id in u.entries && u.entries[id] == e && u.entries[id].merchant == q.merchant
                && InRange(q, e.date) && e.position <= highWater;
      assert t.entries[id] == e;
    }
  }

  /** The reversal shown for a merchant's entry is frozen with the rows. */
  lemma {:induction false} FrozenReversal(t: Tables, u: Tables, m: Id, highWater: nat, id: Id)
    requires Frozen(t, u, m, highWater) && ReversalInv(t) && ReversalInv(u)
    requires id in t.entries && id in u.entries && t.entries[id].merchant == m && u.entries[id].merchant == m
    ensures ReversalAt(t, id, highWater) == ReversalAt(u, id, highWater)
  {
    forall k
      ensures IsReversal(t, id, highWater, k) <==> IsReversal(u, id, highWater, k)
    {
    }
    forall j, k | IsReversal(t, id, highWater, j) && IsReversal(t, id, highWater, k)
      ensures j == k
    {
    }
  }

  lemma {:induction false} FrozenRendered(t: Tables, u: Tables, m: Id, highWater: nat, xs: seq<Entry>)
    requires Frozen(t, u, m, highWater) && ReversalInv(t) && ReversalInv(u)
    requires forall x | x in xs :: x.merchant == m && x.position <= highWater && x.id in t.entries && t.entries[x.id] == x
    ensures Rendered(t, highWater, xs) == Rendered(u, highWater, xs)
  {
    forall i | 0 <= i < |xs|
      ensures ReversalAt(t, xs[i].id, highWater) == ReversalAt(u, xs[i].id, highWater)
    {
      assert xs[i] in xs;
      FrozenReversal(t, u, m, highWater, xs[i].id);
    }
  }

  /* ---- Following the cursors ---- */

  /** The listing the pages must add up to. */
  ghost function Snapshot(t: Tables, q: Query): seq<Entry>
    requires Keyed(t)
  {
    Sorted(Matching(t, q, Last(t, q.merchant)))
  }

  /** The page starting at row k of the snapshot. */
  ghost function Slice(t: Tables, q: Query, k: nat): Page
    requires Keyed(t) && k <= |Snapshot(t, q)|
  {
    PageOf(t, q, Last(t, q.merchant), Snapshot(t, q)[k..])
  }

  /** It holds rows k up to k + limit, and a cursor exactly when rows remain. */
  lemma {:induction false} SliceContents(t: Tables, q: Query, k: nat)
    requires Keyed(t) && k <= |Snapshot(t, q)| && q.limit >= 1
    ensures
      var all, hw := Snapshot(t, q), Last(t, q.merchant);
      var hi := Min(k + q.limit, |all|);
      && Slice(t, q, k).entries == Rendered(t, hw, all[k..hi])
      && Slice(t, q, k).next == if hi < |all| then Some(Cursor(q, hw, KeyOf(all[hi - 1]))) else None
  {
    var all := Snapshot(t, q);
    var hi := Min(k + q.limit, |all|);
    if hi < |all| {
      assert all[k..][..q.limit] == all[k..hi];
    } else {
      assert all[k..] == all[k..hi];
    }
  }

  lemma {:induction false} SnapshotElements(t: Tables, q: Query)
    requires Keyed(t)
    ensures Descending(Snapshot(t, q)) && Elements(Snapshot(t, q)) == Matching(t, q, Last(t, q.merchant))
    ensures forall x | x in Snapshot(t, q) :: x.merchant == q.merchant && x.position <= Last(t, q.merchant)
                                              && x.id in t.entries && t.entries[x.id] == x
  {
    SortedIsDescending(Matching(t, q, Last(t, q.merchant)));
    forall x | x in Snapshot(t, q)
      ensures x in Matching(t, q, Last(t, q.merchant))
    {
      assert x in Elements(Snapshot(t, q));
    }
  }

  /** The snapshot, column by column: the merchant's entries up to its last
      position, from the first date asked for to the last, each once, the latest
      date first, then the latest confirmation, then the largest id. */
  lemma {:induction false} SnapshotIs(t: Tables, q: Query)
    requires Keyed(t)
    ensures forall id :: (exists i | 0 <= i < |Snapshot(t, q)| :: Snapshot(t, q)[i].id == id) <==>
              && id in t.entries && t.entries[id].merchant == q.merchant && t.entries[id].position <= Last(t, q.merchant)
              && (q.from.Some? ==> q.from.value <= t.entries[id].date) && (q.to.Some? ==> t.entries[id].date <= q.to.value)
    ensures forall i | 0 <= i < |Snapshot(t, q)| :: Snapshot(t, q)[i].id in t.entries && Snapshot(t, q)[i] == t.entries[Snapshot(t, q)[i].id]
    ensures forall i, j | 0 <= i < j < |Snapshot(t, q)| ::
              var a, b := Snapshot(t, q)[i], Snapshot(t, q)[j];
              || a.date > b.date || (a.date == b.date && a.confirmedAt > b.confirmedAt)
              || (a.date == b.date && a.confirmedAt == b.confirmedAt && a.id > b.id)
  {
    SnapshotElements(t, q);
    var all := Snapshot(t, q);
    forall i, j | 0 <= i < j < |all|
      ensures Less(KeyOf(all[j]), KeyOf(all[i]))
    {
      assert Before(all[i], all[j]);
    }
    forall id | id in t.entries && t.entries[id] in Matching(t, q, Last(t, q.merchant))
      ensures exists i | 0 <= i < |all| :: all[i].id == id
    {
      assert t.entries[id] in Elements(all);
      var i :| 0 <= i < |all| && all[i] == t.entries[id];
      assert all[i].id == id;
    }
    forall i | 0 <= i < |all|
      ensures all[i] in Matching(t, q, Last(t, q.merchant)) && all[i].id in t.entries && all[i] == t.entries[all[i].id]
    {
      assert all[i] in Elements(all);
    }
  }

  /** A listed entry shows the reversal committed up to the high water, if there
      is one; there is never more than one. */
  lemma {:induction false} ReversalShown(t: Tables, highWater: nat, xs: seq<Entry>, i: nat, k: Id)
    requires ReversalInv(t) && i < |xs|
    ensures |Rendered(t, highWater, xs)| == |xs| && Rendered(t, highWater, xs)[i].entry == xs[i]
    ensures Rendered(t, highWater, xs)[i].reversal == Some(k) <==>
              k in t.entries && t.entries[k].original == Some(xs[i].id) && t.entries[k].position <= highWater
  {
    if k in t.entries && t.entries[k].original == Some(xs[i].id) && t.entries[k].position <= highWater {
      assert IsReversal(t, xs[i].id, highWater, k);
    }
  }

  /** Reading past place k of the snapshot, from any later tables. */
  lemma {:induction false} RowsPast(t: Tables, u: Tables, q: Query, k: nat)
    requires Keyed(t) && Keyed(u) && Frozen(t, u, q.merchant, Last(t, q.merchant))
    requires k <= |Snapshot(t, q)|
    ensures
      var all := Snapshot(t, q);
      Sorted(After(Matching(u, q, Last(t, q.merchant)), if k == 0 then None else Some(KeyOf(all[k - 1])))) == all[k..]
  {
    var all, hw := Snapshot(t, q), Last(t, q.merchant);
    SnapshotElements(t, q);
    FrozenMatching(t, u, q, hw);
    var rows := After(Matching(u, q, hw), if k == 0 then None else Some(KeyOf(all[k - 1])));
    assert rows == Elements(all[k..]) by {
      if k == 0 {
        assert all[0..] == all;
      } else {
        BelowIsSuffix(all, k);
      }
    }
    DescendingIsSorted(all[k..]);
  }

  lemma {:induction false} FrozenPage(t: Tables, u: Tables, q: Query, highWater: nat, rows: seq<Entry>)
    requires Frozen(t, u, q.merchant, highWater) && ReversalInv(t) && ReversalInv(u)
    requires forall x | x in rows :: x.merchant == q.merchant && x.position <= highWater
                                     && x.id in t.entries && t.entries[x.id] == x
    ensures PageOf(t, q, highWater, rows) == PageOf(u, q, highWater, rows)
  {
    FrozenRendered(t, u, q.merchant, highWater, rows);
    if |rows| > q.limit {
      assert forall x | x in rows[..q.limit] :: x in rows;
      FrozenRendered(t, u, q.merchant, highWater, rows[..q.limit]);
    }
  }

  lemma {:induction false} EmptySnapshot(t: Tables, logs: Logs, q: Query)
    requires Dense(t, logs) && Keyed(t) && Last(t, q.merchant) == 0
    ensures Snapshot(t, q) == []
  {
    forall id | id in t.entries && t.entries[id].merchant == q.merchant
      ensures t.entries[id].position > 0
    {
      assert Logged(logs, id, t.entries[id]);
    }
    assert Matching(t, q, 0) == {};
  }

  lemma {:induction false} FirstPage(t: Tables, logs: Logs, q: Query)
    requires Keyed(t) && Dense(t, logs) && 1 <= q.limit <= 100
    ensures List(t, q, None) == Listed(Slice(t, q, 0))
  {
    if Last(t, q.merchant) == 0 {
      EmptySnapshot(t, logs, q);
    } else {
      RowsPast(t, t, q, 0);
    }
  }

  lemma {:induction false} NextPage(t: Tables, u: Tables, q: Query, k: nat)
    requires Keyed(t) && Keyed(u) && Frozen(t, u, q.merchant, Last(t, q.merchant))
    requires ReversalInv(t) && ReversalInv(u) && 1 <= q.limit <= 100
    requires 0 < k < |Snapshot(t, q)| && Last(t, q.merchant) > 0
    ensures List(u, q, Some(Cursor(q, Last(t, q.merchant), KeyOf(Snapshot(t, q)[k - 1])))) == Listed(Slice(t, q, k))
  {
    RowsPast(t, u, q, k);
    FrozenSlice(t, u, q, k);
  }

  lemma {:induction false} FrozenSlice(t: Tables, u: Tables, q: Query, k: nat)
    requires Keyed(t) && Frozen(t, u, q.merchant, Last(t, q.merchant)) && ReversalInv(t) && ReversalInv(u)
    requires k <= |Snapshot(t, q)|
    ensures PageOf(u, q, Last(t, q.merchant), Snapshot(t, q)[k..]) == Slice(t, q, k)
  {
    var rows := Snapshot(t, q)[k..];
    SnapshotElements(t, q);
    assert forall x | x in rows :: x in Snapshot(t, q);
    FrozenPage(t, u, q, Last(t, q.merchant), rows);
  }

  /** The page after a given one, read from tables u. */
  ghost function Advance(u: Tables, q: Query, previous: Option<Page>): Option<Page>
    requires Keyed(u)
  {
    if previous.None? || previous.value.next.None? then None
    else
      var listing := List(u, q, previous.value.next);
      if listing.Listed? then Some(listing.page) else None
  }

  /** The page at row k, if there is one; the first page always exists. */
  ghost function PageAt(t: Tables, q: Query, k: nat): Option<Page>
    requires Keyed(t)
  {
    if k == 0 || k < |Snapshot(t, q)| then Some(Slice(t, q, k)) else None
  }

  /** Tables u still show what tables t showed of the query's merchant. */
  ghost predicate Shows(t: Tables, u: Tables, q: Query) {
    && Keyed(t) && Keyed(u) && Frozen(t, u, q.merchant, Last(t, q.merchant))
    && ReversalInv(t) && ReversalInv(u)
    && (Last(t, q.merchant) == 0 ==> Snapshot(t, q) == [])
  }

  lemma {:induction false} AdvanceMoves(t: Tables, u: Tables, q: Query, k: nat)
    requires Shows(t, u, q) && 1 <= q.limit <= 100
    ensures Advance(u, q, PageAt(t, q, k)) == PageAt(t, q, k + q.limit)
  {
    var all := Snapshot(t, q);
    if k == 0 || k < |all| {
      SliceContents(t, q, k);
      if k + q.limit < |all| {
        NextPage(t, u, q, k + q.limit);
      }
    }
  }

  /** Page i, read from tables db(i) with the cursor of the page before it. */
  ghost function Follow(db: nat -> Tables, q: Query, i: nat): Option<Page>
    requires forall k :: Keyed(db(k))
  {
    if i == 0 then
      var first := List(db(0), q, None);
      if first.Listed? then Some(first.page) else None
    else Advance(db(i), q, Follow(db, q, i - 1))
  }

  /** Following a step that moves by limit rows visits every limit-th row. */
  lemma {:induction false} VisitsEvery<P>(visit: nat -> P, advance: (nat, P) -> P, at: nat -> P, limit: nat, i: nat)
    requires visit(0) == at(0)
    requires forall k: nat :: visit(k + 1) == advance(k + 1, visit(k))
    requires forall k: nat, o: nat :: advance(k, at(o)) == at(o + limit)
    ensures visit(i) == at(i * limit)
  {
    if i > 0 {
      VisitsEvery(visit, advance, at, limit, i - 1);
      assert visit((i - 1) + 1) == advance((i - 1) + 1, at((i - 1) * limit));
      assert (i - 1) * limit + limit == i * limit;
    }
  }

  lemma {:induction false} FollowsSlices(db: nat -> Tables, q: Query, i: nat)
    requires forall k :: Keyed(db(k))
    requires Follow(db, q, 0) == PageAt(db(0), q, 0)
    requires forall k, o: nat :: Advance(db(k), q, PageAt(db(0), q, o)) == PageAt(db(0), q, o + q.limit)
    ensures Follow(db, q, i) == PageAt(db(0), q, i * q.limit)
  {
    ghost var visit := k => Follow(db, q, k);
    ghost var advance := (k, p) => Advance(db(k), q, p);
    ghost var at := o => PageAt(db(0), q, o);
    VisitsEvery(visit, advance, at, q.limit, i);
  }

  /** The ledger after its first n calls. */
  function TablesAfter(calls: seq<Call>, n: nat): Tables {
    Run(calls[..Min(n, |calls|)])
  }

  lemma {:induction false} RunShows(calls: seq<Call>, m: nat, n: nat, q: Query)
    requires m <= n <= |calls|
    ensures Shows(Run(calls[..m]), Run(calls[..n]), q)
  {
    EveryRunKeepsInv(calls[..m]);
    EveryRunKeepsInv(calls[..n]);
    RunKeyed(calls[..m]);
    RunKeyed(calls[..n]);
    assert calls[..n] == calls[..m] + calls[m..n];
    HistoryGrows(calls[..m], calls[m..n], q.merchant);
    PrefixFreezes(Run(calls[..m]), Run(calls[..n]), History(calls[..m]), History(calls[..n]), q.merchant);
    if Last(Run(calls[..m]), q.merchant) == 0 {
      EmptySnapshot(Run(calls[..m]), History(calls[..m]), q);
    }
  }

  /** All rows of the first n pages, in the order they were read. */
  ghost function Collected(db: nat -> Tables, q: Query, n: nat): seq<Stored>
    requires forall k :: Keyed(db(k))
  {
    if n == 0 then []
    else Collected(db, q, n - 1) + Entries(Follow(db, q, n - 1))
  }

  function Entries(page: Option<Page>): seq<Stored> {
    if page.Some? then page.value.entries else []
  }

  /** The snapshot as the first page's reader would have seen it in one piece. */
  ghost function Whole(t: Tables, q: Query): seq<Stored>
    requires Keyed(t)
  {
    Rendered(t, Last(t, q.merchant), Snapshot(t, q))
  }

  lemma {:induction false} RenderedSlice(t: Tables, highWater: nat, xs: seq<Entry>, lo: nat, hi: nat)
    requires lo <= hi <= |xs|
    ensures |Rendered(t, highWater, xs)| == |xs|
    ensures Rendered(t, highWater, xs[lo..hi]) == Rendered(t, highWater, xs)[lo..hi]
  {
  }

  lemma {:induction false} PageAtRows(t: Tables, q: Query, k: nat)
    requires Keyed(t) && q.limit >= 1
    ensures |Whole(t, q)| == |Snapshot(t, q)|
    ensures Entries(PageAt(t, q, k)) == Whole(t, q)[Min(k, |Whole(t, q)|)..Min(k + q.limit, |Whole(t, q)|)]
  {
    var all := Snapshot(t, q);
    var lo, hi := Min(k, |all|), Min(k + q.limit, |all|);
    RenderedSlice(t, Last(t, q.merchant), all, lo, hi);
    if k <= |all| {
      SliceContents(t, q, k);
    }
  }

  lemma {:induction false} Concatenated<T>(collected: nat -> seq<T>, page: nat -> seq<T>, whole: seq<T>, limit: nat, n: nat)
    requires collected(0) == []
    requires forall k: nat :: collected(k + 1) == collected(k) + page(k)
    requires forall k: nat :: page(k) == whole[Min(k * limit, |whole|)..Min(k * limit + limit, |whole|)]
    ensures collected(n) == whole[..Min(n * limit, |whole|)]
  {
    if n > 0 {
      Concatenated(collected, page, whole, limit, n - 1);
      assert collected((n - 1) + 1) == collected(n - 1) + page(n - 1);
      assert (n - 1) * limit + limit == n * limit;
    }
  }

  lemma {:induction false} CollectsPrefix(db: nat -> Tables, q: Query, n: nat)
    requires forall k :: Keyed(db(k))
    requires forall k: nat :: Entries(Follow(db, q, k)) == Whole(db(0), q)[Min(k * q.limit, |Whole(db(0), q)|)..Min(k * q.limit + q.limit, |Whole(db(0), q)|)]
    ensures Collected(db, q, n) == Whole(db(0), q)[..Min(n * q.limit, |Whole(db(0), q)|)]
  {
    ghost var collected := k => Collected(db, q, k);
    ghost var page := k => Entries(Follow(db, q, k));
    Concatenated(collected, page, Whole(db(0), q), q.limit, n);
  }

  /** Page by page, following the cursors reads the slices of the first snapshot. */
  ghost predicate Sliced(db: nat -> Tables, q: Query) {
    && (forall k :: Keyed(db(k)))
    && (forall i: nat :: Follow(db, q, i) == PageAt(db(0), q, i * q.limit))
  }

  lemma {:induction false} SlicedCollects(db: nat -> Tables, q: Query, n: nat)
    requires Sliced(db, q) && q.limit >= 1
    ensures Collected(db, q, n) == Whole(db(0), q)[..Min(n * q.limit, |Whole(db(0), q)|)]
  {
    forall k: nat
      ensures Entries(Follow(db, q, k)) == Whole(db(0), q)[Min(k * q.limit, |Whole(db(0), q)|)..Min(k * q.limit + q.limit, |Whole(db(0), q)|)]
    {
      PageAtRows(db(0), q, k * q.limit);
    }
    CollectsPrefix(db, q, n);
  }

  /** The first n pages hold the first n * limit rows of the whole snapshot, so
      ceil(rows / limit) pages hold all of it, and there is a page n past the
      first exactly when the pages before it do not exhaust the snapshot. */
  lemma {:induction false} PagesAreTheSnapshot(db: nat -> Tables, q: Query, n: nat)
    requires Sliced(db, q) && q.limit >= 1
    ensures Collected(db, q, n) == Whole(db(0), q)[..Min(n * q.limit, |Whole(db(0), q)|)]
    ensures n * q.limit >= |Whole(db(0), q)| ==> Collected(db, q, n) == Whole(db(0), q)
    ensures Follow(db, q, n).Some? <==> n == 0 || n * q.limit < |Whole(db(0), q)|
  {
    SlicedCollects(db, q, n);
    assert Follow(db, q, n) == PageAt(db(0), q, n * q.limit);
    assert n > 0 ==> n * q.limit > 0;
  }

  lemma {:induction false} MovesSliced(db: nat -> Tables, q: Query)
    requires forall k :: Keyed(db(k))
    requires Follow(db, q, 0) == PageAt(db(0), q, 0)
    requires forall k, o: nat :: Advance(db(k), q, PageAt(db(0), q, o)) == PageAt(db(0), q, o + q.limit)
    ensures Sliced(db, q)
  {
    forall i: nat
      ensures Follow(db, q, i) == PageAt(db(0), q, i * q.limit)
    {
      FollowsSlices(db, q, i);
    }
  }

  /** Following the cursors from the first page yields exactly the matching
      entries up to the first page's high water, in order, each once, with the
      reversals visible then, limit rows a page, whatever is committed
      meanwhile; there is no page past the last row.  Page i is read after the
      first cuts(i) calls of a ledger run. */
  lemma {:induction false} PagesOverRuns(calls: seq<Call>, cuts: nat -> nat, q: Query)
    requires forall k :: cuts(0) <= cuts(k) <= |calls|
    requires 1 <= q.limit <= 100
    ensures Sliced((k: nat) => TablesAfter(calls, cuts(k)), q)
  {
    ghost var db := (k: nat) => TablesAfter(calls, cuts(k));
    forall k: nat
      ensures Shows(db(0), db(k), q)
    {
      RunShows(calls, cuts(0), cuts(k), q);
    }
    FirstOfRun(calls, cuts(0), q);
    ShowsSliced(db, q);
  }

  lemma {:induction false} FirstOfRun(calls: seq<Call>, n: nat, q: Query)
    requires n <= |calls| && 1 <= q.limit <= 100
    ensures Keyed(TablesAfter(calls, n)) && List(TablesAfter(calls, n), q, None) == Listed(Slice(TablesAfter(calls, n), q, 0))
  {
    RunKeyed(calls[..n]);
    EveryRunKeepsInv(calls[..n]);
    FirstPage(TablesAfter(calls, n), History(calls[..n]), q);
  }

  lemma {:induction false} ShowsSliced(db: nat -> Tables, q: Query)
    requires 1 <= q.limit <= 100 && forall k :: Shows(db(0), db(k), q)
    requires Keyed(db(0)) && List(db(0), q, None) == Listed(Slice(db(0), q, 0))
    ensures Sliced(db, q)
  {
    forall k: nat
      ensures Keyed(db(k))
    {
      assert Shows(db(0), db(k), q);
    }
    forall k: nat, o: nat
      ensures Advance(db(k), q, PageAt(db(0), q, o)) == PageAt(db(0), q, o + q.limit)
    {
      AdvanceMoves(db(0), db(k), q, o);
    }
    MovesSliced(db, q);
  }

  /** Repository.ListEntries and the cursor of Service.ListEntries over the
      limit + 1 rows the query returns, first to last. */
  method ReadPage(q: Query, highWater: nat, rows: seq<Stored>, ghost t: Tables, ghost all: seq<Entry>) returns (page: Page)
    requires q.limit >= 1
    requires rows == Rendered(t, highWater, all[..Min(q.limit + 1, |all|)])
    ensures page == PageOf(t, q, highWater, all)
  {
    var entries: seq<Stored> := [];
    for i := 0 to |rows|
      invariant entries == rows[..i]
    {
      entries := entries + [rows[i]];
    }
    var hasMore := |entries| > q.limit;
    if hasMore {
      entries := entries[..q.limit];
    }
    if hasMore && |entries| > 0 {
      page := Page(entries, Some(Cursor(q, highWater, KeyOf(entries[|entries| - 1].entry))));
    } else {
      page := Page(entries, None);
    }
  }
}
