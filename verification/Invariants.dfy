/** What every transaction of the projection keeps, whatever the order,
    duplication or failure of deliveries. */
module Invariants {
  import opened Domain
  import opened Projection
  import opened Closing

  type Received = map<int, Event>

  /* ---- The simple fold: the accepted events of one merchant by position ---- */

  datatype Totals = Totals(credits: int, debits: int, count: int)

  function Add(t: Totals, e: Event): Totals {
    Totals(t.credits + e.Credits(), t.debits + e.Debits(), t.count + 1)
  }

  /** The totals of day d over the events at positions 1..n. */
  function Fold(r: Received, n: nat, d: Date): Totals {
    if n == 0 then Totals(0, 0, 0)
    else if n in r && r[n].date == d then Add(Fold(r, n - 1, d), r[n])
    else Fold(r, n - 1, d)
  }

  /** The net of the events at positions 1..n dated before d. */
  function NetBefore(r: Received, n: nat, d: Date): int {
    if n == 0 then 0
    else NetBefore(r, n - 1, d) + (if n in r && r[n].date < d then r[n].Net() else 0)
  }

  lemma {:induction false} FoldInsert(r: Received, p: int, e: Event, n: nat, d: Date)
    requires p >= 1 && p !in r
    ensures Fold(r[p := e], n, d) == if p <= n && e.date == d then Add(Fold(r, n, d), e) else Fold(r, n, d)
  {
    if n > 0 {
      FoldInsert(r, p, e, n - 1, d);
    }
  }

  lemma {:induction false} FoldBeyond(r: Received, n: nat, m: nat, d: Date)
    requires n <= m && forall p | p in r :: p <= n
    ensures Fold(r, m, d) == Fold(r, n, d) && NetBefore(r, m, d) == NetBefore(r, n, d)
    decreases m
  {
    if n < m {
      FoldBeyond(r, n, m - 1, d);
    }
  }

  /** Summing by date and then by position is summing by position. */
  lemma {:induction false} NetBeforeByDay(r: Received, n: nat, d: Date)
    ensures NetBefore(r, n, d + 1) == NetBefore(r, n, d) + Fold(r, n, d).credits - Fold(r, n, d).debits
    ensures NetBefore(r, n, 0) == 0
  {
    if n > 0 {
      NetBeforeByDay(r, n - 1, d);
    }
  }

  /* ---- The invariants of a book ---- */

  function DayTotals(days: Days, d: Date): Totals {
    if d in days then Totals(days[d].credits, days[d].debits, days[d].count) else Totals(0, 0, 0)
  }

  /** The daily rows hold the fold of the accepted events. */
  ghost predicate TotalsInv(b: Book, r: Received) {
    && (forall d: Date :: DayTotals(b.days, d) == Fold(r, b.progress.source, d))
    && (forall d | d in b.days :: b.days[d].net == b.days[d].credits - b.days[d].debits)
  }

  /** applied is the largest n with 1..n all received, source the largest
      position received, and gap the first missing position below it. */
  ghost predicate ProgressInv(p: Progress, received: set<int>) {
    && (forall x | x in received :: 1 <= x <= p.source)
    && (p.source > 0 ==> p.source in received)
    && p.applied <= p.source
    && (forall x | 1 <= x <= p.applied :: x in received)
    && p.applied + 1 !in received
    && p.gap == (if p.applied < p.source then Some(p.applied + 1) else None)
  }

  ghost predicate JobsWellFormed(b: Book) {
    forall i | 0 <= i < |b.jobs| && Pending(b.jobs[i]) ::
      b.jobs[i].from <= b.jobs[i].next.value <= b.jobs[i].through
  }

  ghost predicate BookInv(b: Book, r: Received) {
    && r.Keys == b.receipts.Keys
    && TotalsInv(b, r) && ProgressInv(b.progress, r.Keys) && JobsWellFormed(b)
  }

  /** Progress is determined by the set of received positions. */
  lemma {:induction false} ProgressUnique(p: Progress, q: Progress, received: set<int>)
    requires ProgressInv(p, received) && ProgressInv(q, received)
    ensures p == q
  {
  }

  lemma {:induction false} ContiguousIsMaximal(received: set<int>, applied: nat, source: nat)
    requires applied <= source && source + 1 !in received
    requires forall x | 1 <= x <= applied :: x in received
    ensures
      var n := Contiguous(received, applied, source);
      applied <= n <= source && n + 1 !in received && forall x | 1 <= x <= n :: x in received
    decreases source - applied
  {
    if applied < source && applied + 1 in received {
      ContiguousIsMaximal(received, applied + 1, source);
    }
  }

  /** Extending from the previous applied position loses nothing. */
  lemma {:induction false} AdvanceProgressKeeps(p: Progress, received: set<int>, position: nat)
    requires ProgressInv(p, received) && position >= 1 && position !in received
    ensures ProgressInv(AdvanceProgress(p, received + {position}, position), received + {position})
  {
    var source := if position > p.source then position else p.source;
    ContiguousIsMaximal(received + {position}, p.applied, source);
  }

  lemma {:induction false} PostKeepsTotals(b: Book, r: Received, e: Event)
    requires BookInv(b, r) && e.position >= 1 && e.position !in r && Post(b, e).Some?
    ensures TotalsInv(Post(b, e).value, r[e.position := e])
  {
    var b' := Post(b, e).value;
    forall d: Date
      ensures DayTotals(b'.days, d) == Fold(r[e.position := e], b'.progress.source, d)
    {
      FoldInsert(r, e.position, e, b'.progress.source, d);
      FoldBeyond(r, b.progress.source, b'.progress.source, d);
      assert DayTotals(b.days, d) == Fold(r, b.progress.source, d);
    }
  }

  lemma {:induction false} PostKeepsBook(b: Book, r: Received, e: Event)
    requires BookInv(b, r) && e.position >= 1 && e.position !in r && Post(b, e).Some?
    ensures BookInv(Post(b, e).value, r[e.position := e])
  {
    var b' := Post(b, e).value;
    PostKeepsTotals(b, r, e);
    AdvanceProgressKeeps(b.progress, r.Keys, e.position);
    assert b'.receipts.Keys == r.Keys + {e.position};
    assert r[e.position := e].Keys == r.Keys + {e.position};
  }

  lemma {:induction false} ResumeKeepsBook(b: Book, r: Received)
    requires BookInv(b, r) && Resume(b).Some?
    ensures BookInv(Resume(b).value, r)
  {
    match NextJob(b.jobs)
    case None =>
    case Some(i) =>
      var b' := Resume(b).value;
      forall d: Date
        ensures DayTotals(b'.days, d) == DayTotals(b.days, d)
      {
      }
  }

  /** The running sum of the rows is the running net of the accepted events. */
  lemma {:induction false} PrefixIsNetBefore(b: Book, r: Received, d: Date)
    requires TotalsInv(b, r)
    ensures Prefix(b.days, d) == NetBefore(r, b.progress.source, d)
  {
    if d == 0 {
      NetBeforeByDay(r, b.progress.source, 0);
    } else {
      PrefixIsNetBefore(b, r, d - 1);
      NetBeforeByDay(r, b.progress.source, d - 1);
      assert DayTotals(b.days, d - 1) == Fold(r, b.progress.source, d - 1);
    }
  }

  /* ---- The invariants of the whole state ---- */

  /** An inbox row stands in its merchant's position index. */
  ghost predicate Indexed(s: State, k: string, e: Event) {
    && e.id == k && 1 <= e.position
    && e.position in BookOf(s, e.merchant).receipts
    && BookOf(s, e.merchant).receipts[e.position] == k
  }

  /** A position index entry leads to the inbox row of that merchant and position. */
  ghost predicate Filed(s: State, m: string, p: int, k: string) {
    k in s.inbox && s.inbox[k].merchant == m && s.inbox[k].position == p
  }

  /** The two unique indexes of the inbox agree. */
  ghost predicate Mirror(s: State) {
    && (forall k | k in s.inbox :: Indexed(s, k, s.inbox[k]))
    && (forall m, p | p in BookOf(s, m).receipts :: Filed(s, m, p, BookOf(s, m).receipts[p]))
  }

  /** The accepted events of a merchant by position. */
  function ReceivedBy(s: State, m: string): (r: Received)
    ensures Mirror(s) ==> r.Keys == BookOf(s, m).receipts.Keys
  {
    var receipts := BookOf(s, m).receipts;
    assert Mirror(s) ==> forall p | p in receipts :: Filed(s, m, p, receipts[p]);
    map p | p in receipts && receipts[p] in s.inbox :: s.inbox[receipts[p]]
  }

  ghost predicate Inv(s: State) {
    && Mirror(s)
    && forall m :: BookInv(BookOf(s, m), ReceivedBy(s, m))
  }

  /** The state after filing a new event whose merchant's book becomes b. */
  function File(s: State, e: Event, b: Book): State {
    State(s.inbox[e.id := e], s.books[e.merchant := b])
  }

  ghost predicate Fresh(s: State, e: Event) {
    1 <= e.position && Clash(s, e).None?
  }

  /** The row an event clashes with has its merchant, position and fingerprint. */
  ghost predicate Matches(fp: Event -> string, s: State, e: Event) {
    match Clash(s, e)
    case None => false
    case Some(row) => row.merchant == e.merchant && row.position == e.position && fp(row) == fp(e)
  }

  /** A delivery files a fresh event or leaves the state alone; only an event
      with the fingerprint of an inbox row at its position is a duplicate. */
  lemma {:induction false} ApplyCases(fp: Event -> string, s: State, event: Event)
    ensures
      var (s', o) := Apply(fp, s, event);
      var e := event.Canonical();
      if o.Applied?
      then Fresh(s, e) && Post(BookOf(s, e.merchant), e).Some?
           && s' == File(s, e, Post(BookOf(s, e.merchant), e).value)
      else
        && s' == s
        && (o.Duplicate? ==> Matches(fp, s, e))
  {
    if event.Valid() {
      CanonicalStable(event);
    }
  }

  lemma {:induction false} FreshPosition(s: State, e: Event)
    requires Mirror(s) && Fresh(s, e)
    ensures e.id !in s.inbox && e.position !in BookOf(s, e.merchant).receipts
    ensures forall m, p | p in BookOf(s, m).receipts :: BookOf(s, m).receipts[p] != e.id
  {
    forall m, p | p in BookOf(s, m).receipts
      ensures BookOf(s, m).receipts[p] != e.id && !(m == e.merchant && p == e.position)
    {
      assert Filed(s, m, p, BookOf(s, m).receipts[p]);
    }
  }

  lemma {:induction false} FileKeepsMirror(s: State, e: Event, b: Book)
    requires Mirror(s) && Fresh(s, e)
    requires b.receipts == BookOf(s, e.merchant).receipts[e.position := e.id]
    ensures Mirror(File(s, e, b))
  {
    var s' := File(s, e, b);
    FreshPosition(s, e);
    forall k | k in s'.inbox
      ensures Indexed(s', k, s'.inbox[k])
    {
      assert k != e.id ==> Indexed(s, k, s.inbox[k]);
    }
    forall m, p | p in BookOf(s', m).receipts
      ensures Filed(s', m, p, BookOf(s', m).receipts[p])
    {
      if m != e.merchant || p != e.position {
        assert Filed(s, m, p, BookOf(s, m).receipts[p]);
      }
    }
  }

  /** Filing an event adds it to its merchant's accepted events and no others. */
  lemma {:induction false} FileReceives(s: State, e: Event, b: Book, m: string)
    requires Mirror(s) && Fresh(s, e)
    requires b.receipts == BookOf(s, e.merchant).receipts[e.position := e.id]
    ensures e.position !in ReceivedBy(s, e.merchant)
    ensures ReceivedBy(File(s, e, b), m)
         == if m == e.merchant then ReceivedBy(s, m)[e.position := e] else ReceivedBy(s, m)
  {
    FreshPosition(s, e);
    assert BookOf(File(s, e, b), m) == if m == e.merchant then b else BookOf(s, m);
  }

  lemma {:induction false} FileKeepsInv(s: State, e: Event, b: Book)
    requires Inv(s) && Fresh(s, e)
    requires b.receipts == BookOf(s, e.merchant).receipts[e.position := e.id]
    requires BookInv(b, ReceivedBy(s, e.merchant)[e.position := e])
    ensures Inv(File(s, e, b))
  {
    FileKeepsMirror(s, e, b);
    forall m
      ensures BookInv(BookOf(File(s, e, b), m), ReceivedBy(File(s, e, b), m))
    {
      FileReceives(s, e, b, m);
      assert BookOf(File(s, e, b), m) == if m == e.merchant then b else BookOf(s, m);
    }
  }

  lemma {:induction false} ApplyKeepsInv(fp: Event -> string, s: State, event: Event)
    requires Inv(s)
    ensures Inv(Apply(fp, s, event).0)
  {
    ApplyCases(fp, s, event);
    if Apply(fp, s, event).1.Applied? {
      var e := event.Canonical();
      FreshPosition(s, e);
      PostKeepsBook(BookOf(s, e.merchant), ReceivedBy(s, e.merchant), e);
      FileKeepsInv(s, e, Post(BookOf(s, e.merchant), e).value);
    }
  }

  lemma {:induction false} EmptyInv()
    ensures Inv(EMPTY)
  {
    assert forall m :: BookOf(EMPTY, m) == EMPTY_BOOK;
    assert forall m :: ReceivedBy(EMPTY, m) == map[];
  }

  /** The state with merchant m's book replaced. */
  function Replace(s: State, m: string, b: Book): State {
    s.(books := s.books[m := b])
  }

  lemma {:induction false} ReplaceReceives(s: State, m: string, b: Book, x: string)
    requires b.receipts == BookOf(s, m).receipts
    ensures ReceivedBy(Replace(s, m, b), x) == ReceivedBy(s, x)
  {
    assert BookOf(Replace(s, m, b), x).receipts == BookOf(s, x).receipts;
  }

  lemma {:induction false} ReplaceKeepsMirror(s: State, m: string, b: Book)
    requires Mirror(s) && b.receipts == BookOf(s, m).receipts
    ensures Mirror(Replace(s, m, b))
  {
    var s' := Replace(s, m, b);
    assert forall x :: BookOf(s', x).receipts == BookOf(s, x).receipts;
    forall k | k in s'.inbox
      ensures Indexed(s', k, s'.inbox[k])
    {
      assert Indexed(s, k, s.inbox[k]);
    }
    forall x, p | p in BookOf(s', x).receipts
      ensures Filed(s', x, p, BookOf(s', x).receipts[p])
    {
      assert Filed(s, x, p, BookOf(s, x).receipts[p]);
    }
  }

  lemma {:induction false} ReplaceKeepsInv(s: State, m: string, b: Book)
    requires Inv(s) && b.receipts == BookOf(s, m).receipts && BookInv(b, ReceivedBy(s, m))
    ensures Inv(Replace(s, m, b))
  {
    ReplaceKeepsMirror(s, m, b);
    forall x
      ensures BookInv(BookOf(Replace(s, m, b), x), ReceivedBy(Replace(s, m, b), x))
    {
      ReplaceReceives(s, m, b, x);
      assert BookInv(BookOf(s, x), ReceivedBy(s, x));
    }
  }

  /** A resume leaves the state alone or replaces one book, receipts kept. */
  lemma {:induction false} ResumeCases(s: State, merchant: string)
    ensures
      var m := ToLower(merchant);
      var r := Resume(BookOf(s, m));
      if m in s.books && r.Some?
      then ResumeNext(s, merchant) == Replace(s, m, r.value) && r.value.receipts == BookOf(s, m).receipts
      else ResumeNext(s, merchant) == s
  {
  }

  lemma {:induction false} ResumeKeepsInv(s: State, merchant: string)
    requires Inv(s)
    ensures Inv(ResumeNext(s, merchant))
  {
    var m := ToLower(merchant);
    ResumeCases(s, merchant);
    if m in s.books && Resume(BookOf(s, m)).Some? {
      ResumeKeepsBook(BookOf(s, m), ReceivedBy(s, m));
      ReplaceKeepsInv(s, m, Resume(BookOf(s, m)).value);
    }
  }
}
