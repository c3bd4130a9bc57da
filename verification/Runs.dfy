/** Whole runs of the projection: any deliveries, in any order and any number
    of times, with any recoveries between them. */
module Runs {
  import opened Domain
  import opened Projection
  import opened Closing
  import opened Invariants
  import opened Draining
  import opened Identity

  datatype Step = Deliver(event: Event) | Recover(merchant: string)

  function Do(fp: Event -> string, s: State, step: Step): State {
    match step
    case Deliver(e) => Apply(fp, s, e).0
    case Recover(m) => ResumeNext(s, m)
  }

  /** The state a run reaches from the empty tables. */
  function Run(fp: Event -> string, steps: seq<Step>): State {
    if steps == [] then EMPTY
    else Do(fp, Run(fp, steps[..|steps| - 1]), steps[|steps| - 1])
  }

  /** In every reachable state the two inbox indexes agree, the daily rows hold
      the fold of the accepted events, applied, source and gap describe the
      received positions exactly, and pending jobs have days left. */
  lemma {:induction false} EveryRunKeepsInv(fp: Event -> string, steps: seq<Step>)
    ensures Inv(Run(fp, steps))
  {
    if steps == [] {
      EmptyInv();
    } else {
      var s := Run(fp, steps[..|steps| - 1]);
      EveryRunKeepsInv(fp, steps[..|steps| - 1]);
      match steps[|steps| - 1]
      case Deliver(e) => ApplyKeepsInv(fp, s, e);
      case Recover(m) => ResumeKeepsInv(s, m);
    }
  }

  /* ---- Closings over runs ---- */

  ghost predicate StepInOrder(s: State, step: Step) {
    step.Deliver? ==>
      var e := step.event.Canonical();
      Fresh(s, e) ==> InOrder(BookOf(s, e.merchant), e)
  }

  /** No event dated past its merchant's latest row is accepted while one of
      the merchant's jobs is pending. */
  ghost predicate RunInOrder(fp: Event -> string, steps: seq<Step>) {
    forall i | 0 <= i < |steps| :: StepInOrder(Run(fp, steps[..i]), steps[i])
  }

  ghost predicate ClosingsInv(s: State) {
    forall m :: ClosingInv(BookOf(s, m)) && JobsInv(BookOf(s, m))
  }

  lemma {:induction false} DoKeepsClosings(fp: Event -> string, s: State, step: Step)
    requires ClosingsInv(s) && StepInOrder(s, step)
    ensures ClosingsInv(Do(fp, s, step))
  {
    match step
    case Deliver(event) =>
      ApplyCases(fp, s, event);
      if Apply(fp, s, event).1.Applied? {
        var e := event.Canonical();
        PostInOrder(BookOf(s, e.merchant), e);
        var s' := Apply(fp, s, event).0;
        var b := Post(BookOf(s, e.merchant), e).value;
        assert forall x :: BookOf(s', x) == if x == e.merchant then b else BookOf(s, x);
      }
    case Recover(merchant) =>
      var m := ToLower(merchant);
      ResumeCases(s, merchant);
      if m in s.books && Resume(BookOf(s, m)).Some? {
        ResumeKeepsClosing(BookOf(s, m));
        ResumeKeepsJobs(BookOf(s, m));
        var s' := ResumeNext(s, merchant);
        assert forall x :: BookOf(s', x) == if x == m then Resume(BookOf(s, m)).value else BookOf(s, x);
      }
  }

  lemma {:induction false} InOrderRunKeepsClosings(fp: Event -> string, steps: seq<Step>)
    requires RunInOrder(fp, steps)
    ensures ClosingsInv(Run(fp, steps))
  {
    if steps == [] {
      assert forall m :: BookOf(EMPTY, m) == EMPTY_BOOK;
    } else {
      var n := |steps| - 1;
      forall i | 0 <= i < n
        ensures StepInOrder(Run(fp, steps[..n][..i]), steps[..n][i])
      {
        assert steps[..n][..i] == steps[..i];
        assert StepInOrder(Run(fp, steps[..i]), steps[i]);
      }
      InOrderRunKeepsClosings(fp, steps[..n]);
      assert StepInOrder(Run(fp, steps[..n]), steps[n]);
      DoKeepsClosings(fp, Run(fp, steps[..n]), steps[n]);
    }
  }

  /** Draining any merchant after an in-order run leaves every closing equal to
      the running net of the accepted events, counted from scratch. */
  lemma {:induction false} InOrderRunDrains(fp: Event -> string, steps: seq<Step>, m: string)
    requires RunInOrder(fp, steps)
    requires
      var s := Run(fp, steps);
      NetsFit(BookOf(s, m), ReceivedBy(s, m))
    ensures JobsWellFormed(BookOf(Run(fp, steps), m))
    ensures
      var s := Run(fp, steps);
      var r, drained := ReceivedBy(s, m), Drain(BookOf(s, m));
      && drained.Some? && !AnyPending(drained.value.jobs)
      && forall d | d in drained.value.days ::
           && DayTotals(drained.value.days, d) == Fold(r, drained.value.progress.source, d)
           && drained.value.days[d].closing == NetBefore(r, drained.value.progress.source, d + 1)
  {
    var s := Run(fp, steps);
    EveryRunKeepsInv(fp, steps);
    InOrderRunKeepsClosings(fp, steps);
    assert BookInv(BookOf(s, m), ReceivedBy(s, m));
    DrainRefinesFold(BookOf(s, m), ReceivedBy(s, m));
  }

  /* ---- A closing no pending job repairs ---- */

  lemma {:induction false} DeliverFresh(fp: Event -> string, s: State, e: Event)
    requires Sound(e) && Clash(s, e).None? && e.position >= 1 && Post(BookOf(s, e.merchant), e).Some?
    ensures Do(fp, s, Deliver(e)) == File(s, e, Post(BookOf(s, e.merchant), e).value)
  {
  }

  /** Row d of merchant m stands as it does in b, outside every pending job. */
  ghost predicate Stuck(s: State, m: string, d: Date, closing: int, sum: int) {
    var b := BookOf(s, m);
    d in b.days && !Covered(b.jobs, d) && b.days[d].closing == closing && Prefix(b.days, d + 1) == sum
  }

  lemma {:induction false} RecoverLeavesStuck(fp: Event -> string, s: State, m: string, d: Date, closing: int, sum: int)
    requires Stuck(s, m, d, closing, sum) && ToLower(m) == m
    ensures Stuck(Do(fp, s, Recover(m)), m, d, closing, sum)
  {
    ResumeCases(s, m);
    if m in s.books && Resume(BookOf(s, m)).Some? {
      ResumeLeavesUncovered(BookOf(s, m), d);
    }
  }

  /** The deliveries of three events and then n recoveries. */
  function LateRun(first: Event, late: Event, next: Event, n: nat): seq<Step> {
    [Deliver(first), Deliver(late), Deliver(next)] + seq(n, _ => Recover(first.merchant))
  }

  /** The book of m after deliveries of events with the given ids and positions. */
  ghost predicate Booked(s: State, m: string, b: Book, ids: set<string>, positions: set<int>) {
    BookOf(s, m) == b && s.inbox.Keys == ids && b.receipts.Keys == positions
  }

  lemma {:induction false} DeliverBooks(fp: Event -> string, s: State, b: Book, e: Event, ids: set<string>, positions: set<int>)
    requires Booked(s, e.merchant, b, ids, positions) && e.id !in ids && e.position !in positions
    requires Sound(e) && e.position >= 1 && Post(b, e).Some?
    ensures Booked(Do(fp, s, Deliver(e)), e.merchant, Post(b, e).value, ids + {e.id}, positions + {e.position})
  {
    DeliverFresh(fp, s, e);
    FileBooks(s, e, b);
  }

  lemma {:induction false} FileBooks(s: State, e: Event, b: Book)
    requires b == BookOf(s, e.merchant) && e.position >= 1 && Post(b, e).Some?
    ensures var s' := File(s, e, Post(b, e).value);
            && BookOf(s', e.merchant) == Post(b, e).value && s'.inbox.Keys == s.inbox.Keys + {e.id}
            && Post(b, e).value.receipts.Keys == b.receipts.Keys + {e.position}
  {
  }

  ghost predicate Distinct(a: Event, b: Event) {
    a.id != b.id && a.position != b.position && a.merchant == b.merchant
  }

  /** Three events that are accepted one after the other. */
  ghost predicate Accepted(a: Event, b: Event, c: Event) {
    && Modest(a) && Modest(b) && Modest(c) && Distinct(a, b) && Distinct(a, c) && Distinct(b, c)
    && Post(EMPTY_BOOK, a).Some? && Post(Post(EMPTY_BOOK, a).value, b).Some?
    && Post(Post(Post(EMPTY_BOOK, a).value, b).value, c).Some?
  }

  lemma {:induction false} FirstTwo(fp: Event -> string, a: Event, b: Event, c: Event)
    requires Accepted(a, b, c) && Sound(a) && Sound(b)
    ensures Booked(Do(fp, Do(fp, EMPTY, Deliver(a)), Deliver(b)), a.merchant,
                   Post(Post(EMPTY_BOOK, a).value, b).value, {a.id, b.id}, {a.position, b.position})
  {
    assert Booked(EMPTY, a.merchant, EMPTY_BOOK, {}, {});
    DeliverBooks(fp, EMPTY, EMPTY_BOOK, a, {}, {});
    assert {} + {a.id} == {a.id} && {} + {a.position} == {a.position};
    DeliverBooks(fp, Do(fp, EMPTY, Deliver(a)), Post(EMPTY_BOOK, a).value, b, {a.id}, {a.position});
    assert {a.id} + {b.id} == {a.id, b.id} && {a.position} + {b.position} == {a.position, b.position};
  }

  lemma {:induction false} ThirdDelivery(fp: Event -> string, s: State, a: Event, b: Event, c: Event)
    requires Accepted(a, b, c) && Sound(c)
    requires Booked(s, a.merchant, Post(Post(EMPTY_BOOK, a).value, b).value, {a.id, b.id}, {a.position, b.position})
    ensures BookOf(Do(fp, s, Deliver(c)), a.merchant) == Post(Post(Post(EMPTY_BOOK, a).value, b).value, c).value
  {
    DeliverBooks(fp, s, Post(Post(EMPTY_BOOK, a).value, b).value, c, {a.id, b.id}, {a.position, b.position});
  }

  lemma {:induction false} ThreeDeliveries(fp: Event -> string, a: Event, b: Event, c: Event)
    requires Accepted(a, b, c) && Sound(a) && Sound(b) && Sound(c)
    ensures BookOf(Do(fp, Do(fp, Do(fp, EMPTY, Deliver(a)), Deliver(b)), Deliver(c)), a.merchant)
         == Post(Post(Post(EMPTY_BOOK, a).value, b).value, c).value
  {
    FirstTwo(fp, a, b, c);
    ThirdDelivery(fp, Do(fp, Do(fp, EMPTY, Deliver(a)), Deliver(b)), a, b, c);
  }

  lemma {:induction false} RunOfThree(fp: Event -> string, a: Step, b: Step, c: Step)
    ensures Run(fp, [a, b, c]) == Do(fp, Do(fp, Do(fp, EMPTY, a), b), c)
  {
    assert [a, b, c][..2] == [a, b] && [a, b][..1] == [a] && [a][..0] == [];
    assert Run(fp, [a]) == Do(fp, EMPTY, a);
    assert Run(fp, [a, b]) == Do(fp, Do(fp, EMPTY, a), b);
  }

  /** A late event a block or more before the first one's date, then one after it. */
  ghost predicate LateThenNext(first: Event, late: Event, next: Event) {
    && Modest(first) && Modest(late) && Modest(next)
    && Distinct(first, late) && Distinct(first, next) && Distinct(late, next)
    && late.date + RECOMPUTE_SPAN_DAYS <= first.date < next.date
  }

  lemma {:induction false} LateBook(first: Event, late: Event, next: Event)
    requires LateThenNext(first, late, next)
    ensures Accepted(first, late, next)
    ensures
      var b := Post(Post(Post(EMPTY_BOOK, first).value, late).value, next).value;
      && next.date in b.days && !Covered(b.jobs, next.date)
      && b.days[next.date].closing == first.Net() + next.Net()
      && Prefix(b.days, next.date + 1) == first.Net() + late.Net() + next.Net()
  {
    LateMaximumHappens(first, late, next);
    var b := Post(EMPTY_BOOK, first).value;
    LatePost(b, first, late);
    PostPastMaximum(Post(b, late).value, first.date, next);
  }

  /** Over runs: a late event, then one dated past the latest row while the late
      event's job is pending.  The closing of that last row misses the late event
      after any number of recoveries. */
  lemma {:induction false} LateRunStaysWrong(fp: Event -> string, first: Event, late: Event, next: Event, n: nat)
    requires LateThenNext(first, late, next) && Sound(first) && Sound(late) && Sound(next)
    ensures Stuck(Run(fp, LateRun(first, late, next, n)), first.merchant, next.date,
                  first.Net() + next.Net(), first.Net() + late.Net() + next.Net())
    decreases n
  {
    if n == 0 {
      LateBook(first, late, next);
      ThreeDeliveries(fp, first, late, next);
      RunOfThree(fp, Deliver(first), Deliver(late), Deliver(next));
      assert LateRun(first, late, next, 0) == [Deliver(first), Deliver(late), Deliver(next)];
    } else {
      LateRunStaysWrong(fp, first, late, next, n - 1);
      LateRunStep(fp, first, late, next, n);
      SoundMerchant(first);
      RecoverLeavesStuck(fp, Run(fp, LateRun(first, late, next, n - 1)), first.merchant, next.date,
                         first.Net() + next.Net(), first.Net() + late.Net() + next.Net());
    }
  }

  lemma {:induction false} SoundMerchant(e: Event)
    requires Sound(e)
    ensures ToLower(e.merchant) == e.merchant
  {
  }

  lemma {:induction false} LateRunStep(fp: Event -> string, first: Event, late: Event, next: Event, n: nat)
    requires n > 0
    ensures Run(fp, LateRun(first, late, next, n)) == Do(fp, Run(fp, LateRun(first, late, next, n - 1)), Recover(first.merchant))
  {
    var steps := LateRun(first, late, next, n);
    assert steps[..|steps| - 1] == LateRun(first, late, next, n - 1) && steps[|steps| - 1] == Recover(first.merchant);
  }

  /* ---- Order independence ---- */

  function Delivered(steps: seq<Step>): set<Event> {
    set i | 0 <= i < |steps| && steps[i].Deliver? :: steps[i].event.Canonical()
  }

  /** No two distinct events share an event id or a merchant position. */
  ghost predicate NonConflicting(es: set<Event>) {
    forall a, b | a in es && b in es ::
      a.id == b.id || (a.merchant == b.merchant && a.position == b.position) ==> a == b
  }

  /** No delivery was rejected: neither malformed nor an overflow. */
  ghost predicate AllTaken(fp: Event -> string, steps: seq<Step>) {
    forall i | 0 <= i < |steps| && steps[i].Deliver? ::
      Apply(fp, Run(fp, steps[..i]), steps[i].event).1.Ok()
  }

  /** The inbox holds exactly the given events. */
  ghost predicate InboxIs(s: State, es: set<Event>) {
    && (forall k | k in s.inbox :: s.inbox[k] in es && s.inbox[k].id == k)
    && (forall e | e in es :: e.id in s.inbox && s.inbox[e.id] == e)
  }

  lemma {:induction false} ClashIsKnown(fp: Event -> string, s: State, e: Event, es: set<Event>)
    requires InboxIs(s, es) && NonConflicting(es + {e}) && Matches(fp, s, e)
    ensures e in es
  {
    assert Clash(s, e).value in es + {e} && e in es + {e};
  }

  lemma {:induction false} FileExtendsInbox(s: State, e: Event, b: Book, es: set<Event>)
    requires Mirror(s) && InboxIs(s, es) && Fresh(s, e)
    ensures InboxIs(File(s, e, b), es + {e})
  {
    FreshPosition(s, e);
  }

  lemma {:induction false} DeliverExtendsInbox(fp: Event -> string, s: State, event: Event, es: set<Event>)
    requires Mirror(s) && InboxIs(s, es) && Apply(fp, s, event).1.Ok()
    requires NonConflicting(es + {event.Canonical()})
    ensures InboxIs(Apply(fp, s, event).0, es + {event.Canonical()})
  {
    var e := event.Canonical();
    ApplyCases(fp, s, event);
    if Apply(fp, s, event).1.Applied? {
      FileExtendsInbox(s, e, Post(BookOf(s, e.merchant), e).value, es);
    } else {
      ClashIsKnown(fp, s, e, es);
      assert es + {e} == es;
    }
  }

  function DeliveredBy(step: Step): set<Event> {
    if step.Deliver? then {step.event.Canonical()} else {}
  }

  lemma {:induction false} DeliveredSnoc(steps: seq<Step>, step: Step)
    ensures Delivered(steps + [step]) == Delivered(steps) + DeliveredBy(step)
  {
    var all := steps + [step];
    assert forall i | 0 <= i < |steps| :: all[i] == steps[i];
    assert all[|steps|] == step;
    forall e | e in Delivered(steps) + DeliveredBy(step)
      ensures e in Delivered(all)
    {
      if e in Delivered(steps) {
        var i :| 0 <= i < |steps| && steps[i].Deliver? && e == steps[i].event.Canonical();
        assert all[i].event.Canonical() == e;
      } else {
        assert all[|steps|].event.Canonical() == e;
      }
    }
  }

  lemma {:induction false} TakenPrefix(fp: Event -> string, steps: seq<Step>, step: Step)
    requires AllTaken(fp, steps + [step])
    ensures AllTaken(fp, steps)
    ensures step.Deliver? ==> Apply(fp, Run(fp, steps), step.event).1.Ok()
  {
    var all := steps + [step];
    assert all[|steps|] == step && all[..|steps|] == steps;
    forall i | 0 <= i < |steps| && steps[i].Deliver?
      ensures Apply(fp, Run(fp, steps[..i]), steps[i].event).1.Ok()
    {
      assert all[i] == steps[i] && all[..i] == steps[..i];
    }
  }

  lemma {:induction false} InboxIsDelivered(fp: Event -> string, steps: seq<Step>)
    requires NonConflicting(Delivered(steps)) && AllTaken(fp, steps)
    ensures InboxIs(Run(fp, steps), Delivered(steps))
  {
    if steps != [] {
      var n := |steps| - 1;
      var front, last := steps[..n], steps[n];
      assert steps == front + [last];
      DeliveredSnoc(front, last);
      TakenPrefix(fp, front, last);
      InboxIsDelivered(fp, front);
      EveryRunKeepsInv(fp, front);
      match last
      case Recover(m) => ResumeCases(Run(fp, front), m);
      case Deliver(event) => DeliverExtendsInbox(fp, Run(fp, front), event, Delivered(front));
    }
  }

  ghost predicate Submap<K, V>(a: map<K, V>, b: map<K, V>) {
    a.Keys <= b.Keys && forall k | k in a :: b[k] == a[k]
  }

  lemma {:induction false} ReceiptsIncluded(s: State, t: State, m: string)
    requires Mirror(s) && Mirror(t) && s.inbox == t.inbox
    ensures Submap(BookOf(s, m).receipts, BookOf(t, m).receipts)
  {
    forall p | p in BookOf(s, m).receipts
      ensures p in BookOf(t, m).receipts && BookOf(t, m).receipts[p] == BookOf(s, m).receipts[p]
    {
      var k := BookOf(s, m).receipts[p];
      assert Filed(s, m, p, k) && Indexed(t, k, t.inbox[k]);
    }
  }

  /** The inbox determines the position index. */
  lemma {:induction false} SameInboxSameReceipts(s: State, t: State, m: string)
    requires Mirror(s) && Mirror(t) && s.inbox == t.inbox
    ensures BookOf(s, m).receipts == BookOf(t, m).receipts && ReceivedBy(s, m) == ReceivedBy(t, m)
  {
    ReceiptsIncluded(s, t, m);
    ReceiptsIncluded(t, s, m);
    SubmapsAreEqual(BookOf(s, m).receipts, BookOf(t, m).receipts);
  }

  lemma {:induction false} SubmapsAreEqual<K, V>(a: map<K, V>, b: map<K, V>)
    requires Submap(a, b) && Submap(b, a)
    ensures a == b
  {
    assert a.Keys == b.Keys;
  }

  lemma {:induction false} SameInboxSameBook(s: State, t: State, m: string)
    requires Inv(s) && Inv(t) && s.inbox == t.inbox
    ensures BookOf(s, m).receipts == BookOf(t, m).receipts && ReceivedBy(s, m) == ReceivedBy(t, m)
    ensures BookOf(s, m).progress == BookOf(t, m).progress
    ensures forall d: Date :: DayTotals(BookOf(s, m).days, d) == DayTotals(BookOf(t, m).days, d)
  {
    SameInboxSameReceipts(s, t, m);
    assert BookInv(BookOf(s, m), ReceivedBy(s, m)) && BookInv(BookOf(t, m), ReceivedBy(t, m));
    ProgressUnique(BookOf(s, m).progress, BookOf(t, m).progress, ReceivedBy(s, m).Keys);
  }

  lemma {:induction false} SameEventsSameInbox(s: State, t: State, es: set<Event>)
    requires InboxIs(s, es) && InboxIs(t, es)
    ensures s.inbox == t.inbox
  {
    assert forall k | k in s.inbox :: k in t.inbox && t.inbox[k] == s.inbox[k];
    assert forall k | k in t.inbox :: k in s.inbox;
  }

  /** Two runs that deliver the same non-conflicting events, in any order, any
      number of times, with any recoveries between them, end with the same
      inbox, receipts, progress and daily totals. */
  lemma {:induction false} OrderIndependence(fp: Event -> string, xs: seq<Step>, ys: seq<Step>, m: string)
    requires Delivered(xs) == Delivered(ys) && NonConflicting(Delivered(xs))
    requires AllTaken(fp, xs) && AllTaken(fp, ys)
    ensures
      var s, t := Run(fp, xs), Run(fp, ys);
      && s.inbox == t.inbox
      && BookOf(s, m).receipts == BookOf(t, m).receipts
      && BookOf(s, m).progress == BookOf(t, m).progress
      && forall d: Date :: DayTotals(BookOf(s, m).days, d) == DayTotals(BookOf(t, m).days, d)
  {
    EveryRunKeepsInv(fp, xs);
    EveryRunKeepsInv(fp, ys);
    InboxIsDelivered(fp, xs);
    InboxIsDelivered(fp, ys);
    SameEventsSameInbox(Run(fp, xs), Run(fp, ys), Delivered(xs));
    SameInboxSameBook(Run(fp, xs), Run(fp, ys), m);
  }

  /** ... and, for in-order runs with no job left pending, with the same
      closing on every date both of them materialised. */
  lemma {:induction false} OrderIndependentClosings(fp: Event -> string, xs: seq<Step>, ys: seq<Step>, m: string, d: Date)
    requires Delivered(xs) == Delivered(ys) && NonConflicting(Delivered(xs))
    requires AllTaken(fp, xs) && AllTaken(fp, ys) && RunInOrder(fp, xs) && RunInOrder(fp, ys)
    requires !AnyPending(BookOf(Run(fp, xs), m).jobs) && !AnyPending(BookOf(Run(fp, ys), m).jobs)
    requires d in BookOf(Run(fp, xs), m).days && d in BookOf(Run(fp, ys), m).days
    ensures BookOf(Run(fp, xs), m).days[d] == BookOf(Run(fp, ys), m).days[d]
  {
    var s, t := Run(fp, xs), Run(fp, ys);
    OrderIndependence(fp, xs, ys, m);
    EveryRunKeepsInv(fp, xs);
    EveryRunKeepsInv(fp, ys);
    InOrderRunKeepsClosings(fp, xs);
    InOrderRunKeepsClosings(fp, ys);
    SameInboxSameBook(s, t, m);
    assert BookInv(BookOf(s, m), ReceivedBy(s, m)) && BookInv(BookOf(t, m), ReceivedBy(t, m));
    DrainedIsExact(BookOf(s, m), ReceivedBy(s, m));
    DrainedIsExact(BookOf(t, m), ReceivedBy(t, m));
    assert DayTotals(BookOf(s, m).days, d) == DayTotals(BookOf(t, m).days, d);
  }

  /* ---- The ledger's thirty-day window ---- */

  /** A delivery together with the ledger's "today" when its entry was dated. */
  datatype Dated = Dated(event: Event, today: Date)

  function Steps(ds: seq<Dated>): seq<Step> {
    seq(|ds|, i requires 0 <= i < |ds| => Deliver(ds[i].event))
  }

  function Merchant(x: Dated): string {
    ToLower(x.event.merchant)
  }

  /** Each date passed the calendar rule, and no merchant's today decreases. */
  ghost predicate Windowed(ds: seq<Dated>) {
    && (forall i | 0 <= i < |ds| :: Resolve(ds[i].today, Some(ds[i].event.date)) == Some(ds[i].event.date))
    && (forall i, j | 0 <= i < j < |ds| && Merchant(ds[i]) == Merchant(ds[j]) :: ds[i].today <= ds[j].today)
  }

  /** Some delivery of merchant m saw a today on or after d. */
  ghost predicate SeenBy(ds: seq<Dated>, m: string, d: Date) {
    exists i | 0 <= i < |ds| :: Merchant(ds[i]) == m && d <= ds[i].today
  }

  /** No job is pending and no row is dated past the todays seen. */
  ghost predicate Settled(s: State, ds: seq<Dated>) {
    forall m :: !AnyPending(BookOf(s, m).jobs) && forall d | d in BookOf(s, m).days :: SeenBy(ds, m, d)
  }

  lemma {:induction false} SeenMonotone(ds: seq<Dated>, x: Dated, m: string, d: Date)
    requires SeenBy(ds, m, d)
    ensures SeenBy(ds + [x], m, d)
  {
    var i :| 0 <= i < |ds| && Merchant(ds[i]) == m && d <= ds[i].today;
    assert (ds + [x])[i] == ds[i];
  }

  lemma {:induction false} FileSettles(s: State, e: Event, b: Book, ds: seq<Dated>, x: Dated)
    requires Settled(s, ds) && e.merchant == Merchant(x)
    requires !AnyPending(b.jobs) && forall d | d in b.days :: d <= x.today
    ensures Settled(File(s, e, b), ds + [x])
  {
    var s' := File(s, e, b);
    forall m, d | d in BookOf(s', m).days
      ensures SeenBy(ds + [x], m, d)
    {
      if m == e.merchant {
        assert (ds + [x])[|ds|] == x;
      } else {
        assert BookOf(s', m) == BookOf(s, m);
        SeenMonotone(ds, x, m, d);
      }
    }
    assert forall m :: BookOf(s', m) == if m == e.merchant then b else BookOf(s, m);
  }

  lemma {:induction false} StaySettled(s: State, ds: seq<Dated>, x: Dated)
    requires Settled(s, ds)
    ensures Settled(s, ds + [x])
  {
    forall m, d | d in BookOf(s, m).days
      ensures SeenBy(ds + [x], m, d)
    {
      SeenMonotone(ds, x, m, d);
    }
  }

  lemma {:induction false} DeliverSettles(fp: Event -> string, s: State, ds: seq<Dated>, x: Dated)
    requires Settled(s, ds) && Windowed(ds + [x])
    ensures Settled(Apply(fp, s, x.event).0, ds + [x])
  {
    ApplyCases(fp, s, x.event);
    if Apply(fp, s, x.event).1.Applied? {
      var e := x.event.Canonical();
      assert (ds + [x])[|ds|] == x;
      forall d | d in BookOf(s, e.merchant).days
        ensures d <= x.today
      {
        assert SeenBy(ds, e.merchant, d);
        var i :| 0 <= i < |ds| && Merchant(ds[i]) == e.merchant && d <= ds[i].today;
        assert (ds + [x])[i] == ds[i];
      }
      PostWithinWindow(BookOf(s, e.merchant), e, x.today);
      FileSettles(s, e, Post(BookOf(s, e.merchant), e).value, ds, x);
    } else {
      StaySettled(s, ds, x);
    }
  }

  /** Deliveries in ledger order never leave a job pending: the thirty-day
      back-date bound fits the thirty-one-day block. */
  lemma {:induction false} WindowedRunNeverPends(fp: Event -> string, ds: seq<Dated>)
    requires Windowed(ds)
    ensures Settled(Run(fp, Steps(ds)), ds)
  {
    if ds == [] {
      assert forall m :: BookOf(EMPTY, m) == EMPTY_BOOK;
    } else {
      var n := |ds| - 1;
      assert Steps(ds)[..n] == Steps(ds[..n]);
      assert ds == ds[..n] + [ds[n]];
      WindowedRunNeverPends(fp, ds[..n]);
      DeliverSettles(fp, Run(fp, Steps(ds[..n])), ds[..n], ds[n]);
    }
  }

  lemma {:induction false} WindowedRunInOrder(fp: Event -> string, ds: seq<Dated>)
    requires Windowed(ds)
    ensures RunInOrder(fp, Steps(ds))
  {
    forall i | 0 <= i < |ds|
      ensures StepInOrder(Run(fp, Steps(ds)[..i]), Steps(ds)[i])
    {
      assert Steps(ds)[..i] == Steps(ds[..i]);
      WindowedRunNeverPends(fp, ds[..i]);
    }
  }

  /** ... so after every such delivery each closing is already exact. */
  lemma {:induction false} WindowedRunIsExact(fp: Event -> string, ds: seq<Dated>, m: string, d: Date)
    requires Windowed(ds) && d in BookOf(Run(fp, Steps(ds)), m).days
    ensures
      var s := Run(fp, Steps(ds));
      BookOf(s, m).days[d].closing == NetBefore(ReceivedBy(s, m), BookOf(s, m).progress.source, d + 1)
  {
    var s := Run(fp, Steps(ds));
    WindowedRunNeverPends(fp, ds);
    WindowedRunInOrder(fp, ds);
    EveryRunKeepsInv(fp, Steps(ds));
    InOrderRunKeepsClosings(fp, Steps(ds));
    assert BookInv(BookOf(s, m), ReceivedBy(s, m));
    DrainedIsExact(BookOf(s, m), ReceivedBy(s, m));
  }
}
