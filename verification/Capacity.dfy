/** When nothing overflows: every closing is at most the volume of the accepted
    events behind it, so amounts that sum within int64 are always taken. */
module Capacity {
  import opened Domain
  import opened Projection
  import opened Closing
  import opened Invariants
  import opened Draining
  import opened Identity
  import opened Runs

  /** The amounts accepted at positions 1..n and dated before d. */
  function Gross(r: Received, n: nat, d: Date): int {
    if n == 0 then 0
    else Gross(r, n - 1, d) + (if n in r && r[n].date < d then r[n].amount else 0)
  }

  /** All amounts accepted at positions 1..n. */
  function Volume(r: Received, n: nat): int {
    if n == 0 then 0 else Volume(r, n - 1) + (if n in r then r[n].amount else 0)
  }

  ghost predicate Positive(r: Received) {
    forall p | p in r :: r[p].amount >= 1
  }

  lemma {:induction false} GrossMonotone(r: Received, n: nat, lo: Date, hi: Date)
    requires Positive(r) && lo <= hi
    ensures 0 <= Gross(r, n, lo) <= Gross(r, n, hi) <= Volume(r, n)
    decreases n
  {
    if n > 0 {
      GrossMonotone(r, n - 1, lo, hi);
    }
  }

  /** The net of a range of dates is at most its volume, either way. */
  lemma {:induction false} NetWithinGross(r: Received, n: nat, lo: Date, hi: Date)
    requires Positive(r) && lo <= hi
    ensures var net := NetBefore(r, n, hi) - NetBefore(r, n, lo);
            -(Gross(r, n, hi) - Gross(r, n, lo)) <= net <= Gross(r, n, hi) - Gross(r, n, lo)
    decreases n
  {
    if n > 0 {
      NetWithinGross(r, n - 1, lo, hi);
    }
  }

  lemma {:induction false} FoldWithinVolume(r: Received, n: nat, d: Date)
    requires Positive(r)
    ensures var t := Fold(r, n, d);
            0 <= t.credits && 0 <= t.debits && 0 <= t.count && t.credits + t.debits <= Volume(r, n) && t.count <= Volume(r, n)
    decreases n
  {
    if n > 0 {
      FoldWithinVolume(r, n - 1, d);
    }
  }

  lemma {:induction false} GrossInsert(r: Received, p: int, e: Event, n: nat, d: Date)
    requires p >= 1 && p !in r
    ensures Gross(r[p := e], n, d) == Gross(r, n, d) + (if p <= n && e.date < d then e.amount else 0)
    ensures Volume(r[p := e], n) == Volume(r, n) + (if p <= n then e.amount else 0)
    decreases n
  {
    if n > 0 {
      GrossInsert(r, p, e, n - 1, d);
    }
  }

  lemma {:induction false} GrossBeyond(r: Received, n: nat, m: nat, d: Date)
    requires n <= m && forall p | p in r :: p <= n
    ensures Gross(r, m, d) == Gross(r, n, d) && Volume(r, m) == Volume(r, n)
    decreases m
  {
    if n < m {
      GrossBeyond(r, n, m - 1, d);
    }
  }

  /* ---- Every closing is bounded by the volume before it ---- */

  /** x lies within the volume of the events dated before d. */
  predicate Within(x: int, r: Received, n: nat, d: Date) {
    -Gross(r, n, d) <= x <= Gross(r, n, d)
  }

  ghost predicate Bounded(days: Days, r: Received, n: nat) {
    forall d | d in days :: Within(days[d].closing, r, n, d + 1)
  }

  lemma {:induction false} BaselineBounded(days: Days, r: Received, n: nat, d: Date)
    requires Bounded(days, r, n) && Positive(r)
    ensures Within(Baseline(days, d), r, n, d)
    decreases d
  {
    if d > 0 && d - 1 !in days {
      BaselineBounded(days, r, n, d - 1);
      GrossMonotone(r, n, d - 1, d);
    } else {
      GrossMonotone(r, n, d, d);
    }
  }

  /** A recomputed block stays bounded if its baseline and its nets are. */
  lemma {:induction false} RecomputeBounded(days: Days, r: Received, n: nat, lo: Date, hi: Date)
    requires Positive(r) && Within(Baseline(days, lo), r, n, lo)
    requires forall d: Date :: Prefix(days, d) == NetBefore(r, n, d)
    requires forall d | d in days && !(lo <= d <= hi) :: Within(days[d].closing, r, n, d + 1)
    ensures Bounded(Recompute(days, lo, hi), r, n)
  {
    var rows := Recompute(days, lo, hi);
    forall d | d in rows
      ensures Within(rows[d].closing, r, n, d + 1)
    {
      if lo <= d <= hi {
        NetWithinGross(r, n, lo, d + 1);
        assert rows[d].closing == Baseline(days, lo) + Prefix(days, d + 1) - Prefix(days, lo);
      }
    }
  }

  lemma {:induction false} ResumeKeepsBounded(b: Book, r: Received)
    requires BookInv(b, r) && Positive(r) && Bounded(b.days, r, b.progress.source) && Resume(b).Some?
    ensures Bounded(Resume(b).value.days, r, Resume(b).value.progress.source)
  {
    match NextJob(b.jobs)
    case None =>
    case Some(i) =>
      var lo := b.jobs[i].next.value;
      BaselineBounded(b.days, r, b.progress.source, lo);
      forall d: Date
        ensures Prefix(b.days, d) == NetBefore(r, b.progress.source, d)
      {
        PrefixIsNetBefore(b, r, d);
      }
      RecomputeBounded(b.days, r, b.progress.source, lo, BlockEnd(lo, b.jobs[i].through));
  }

  /* ---- Accepting an event ---- */

  function SourceAfter(b: Book, e: Event): nat
    requires e.position >= 1
  {
    if e.position > b.progress.source then e.position else b.progress.source
  }

  ghost predicate Incoming(b: Book, r: Received, e: Event) {
    BookInv(b, r) && e.position >= 1 && e.amount >= 1 && e.position !in r
  }

  /** The rows with the event's effect, seen as rows of all accepted events. */
  lemma {:induction false} EffectPrefix(b: Book, r: Received, e: Event, d: Date)
    requires Incoming(b, r, e)
    ensures Prefix(AddEffect(b.days, e), d) == NetBefore(r[e.position := e], SourceAfter(b, e), d)
  {
    AddEffectPrefix(b.days, e, d);
    PrefixIsNetBefore(b, r, d);
    NetInsert(r, e.position, e, SourceAfter(b, e), d);
    FoldBeyond(r, b.progress.source, SourceAfter(b, e), d);
  }

  lemma {:induction false} NetInsert(r: Received, p: int, e: Event, n: nat, d: Date)
    requires p >= 1 && p !in r
    ensures NetBefore(r[p := e], n, d) == NetBefore(r, n, d) + (if p <= n && e.date < d then e.Net() else 0)
    decreases n
  {
    if n > 0 {
      NetInsert(r, p, e, n - 1, d);
    }
  }

  /** Accepting more only widens the bounds. */
  lemma {:induction false} WithinGrows(b: Book, r: Received, e: Event, x: int, d: Date)
    requires Incoming(b, r, e) && Within(x, r, b.progress.source, d)
    ensures Within(x, r[e.position := e], SourceAfter(b, e), d)
    ensures Volume(r[e.position := e], SourceAfter(b, e)) == Volume(r, b.progress.source) + e.amount
  {
    GrossInsert(r, e.position, e, SourceAfter(b, e), d);
    GrossBeyond(r, b.progress.source, SourceAfter(b, e), d);
  }

  lemma {:induction false} EffectBaseline(b: Book, r: Received, e: Event)
    requires Incoming(b, r, e) && Positive(r) && Bounded(b.days, r, b.progress.source)
    ensures Within(Baseline(AddEffect(b.days, e), e.date), r[e.position := e], SourceAfter(b, e), e.date)
  {
    BaselineCongruent(AddEffect(b.days, e), b.days, e.date);
    BaselineBounded(b.days, r, b.progress.source, e.date);
    WithinGrows(b, r, e, Baseline(b.days, e.date), e.date);
  }

  lemma {:induction false} PostKeepsBounded(b: Book, r: Received, e: Event)
    requires Incoming(b, r, e) && Positive(r) && Bounded(b.days, r, b.progress.source) && Post(b, e).Some?
    ensures Bounded(Post(b, e).value.days, r[e.position := e], Post(b, e).value.progress.source)
  {
    var days, r', n := AddEffect(b.days, e), r[e.position := e], SourceAfter(b, e);
    EffectBaseline(b, r, e);
    forall d: Date
      ensures Prefix(days, d) == NetBefore(r', n, d)
    {
      EffectPrefix(b, r, e, d);
    }
    var hi := BlockEnd(e.date, MaxDate(days));
    forall d | d in days && !(e.date <= d <= hi)
      ensures Within(days[d].closing, r', n, d + 1)
    {
      WithinGrows(b, r, e, b.days[d].closing, d + 1);
    }
    RecomputeBounded(days, r', n, e.date, hi);
  }

  lemma {:induction false} EffectTotals(b: Book, r: Received, e: Event)
    requires Incoming(b, r, e) && Positive(r) && Volume(r, b.progress.source) + e.amount <= MAX_INT64
    ensures TotalsFit(AddEffect(b.days, e)[e.date])
  {
    FoldWithinVolume(r, b.progress.source, e.date);
    assert DayTotals(b.days, e.date) == Fold(r, b.progress.source, e.date);
  }

  /** An event whose amount fits beside the volume accepted so far is taken. */
  lemma {:induction false} PostTakes(b: Book, r: Received, e: Event)
    requires Incoming(b, r, e) && Positive(r) && Bounded(b.days, r, b.progress.source)
    requires Volume(r, b.progress.source) + e.amount <= MAX_INT64
    ensures Post(b, e).Some?
  {
    var days, r', n := AddEffect(b.days, e), r[e.position := e], SourceAfter(b, e);
    EffectTotals(b, r, e);
    EffectBaseline(b, r, e);
    GrossMonotone(r, b.progress.source, e.date, e.date);
    WithinGrows(b, r, e, 0, e.date);
    assert Positive(r');
    forall d: Date | e.date <= d <= BlockEnd(e.date, MaxDate(days))
      ensures FitsInt64(Baseline(days, e.date) + NetOver(days, e.date, d))
    {
      EffectPrefix(b, r, e, d + 1);
      EffectPrefix(b, r, e, e.date);
      NetWithinGross(r', n, e.date, d + 1);
      GrossMonotone(r', n, d + 1, d + 1);
    }
    PostFits(b, e);
  }

  /* ---- Every state a run reaches ---- */

  ghost predicate BookBounded(b: Book, r: Received) {
    Positive(r) && Bounded(b.days, r, b.progress.source)
  }

  ghost predicate StateBounded(s: State) {
    forall m :: BookBounded(BookOf(s, m), ReceivedBy(s, m))
  }

  lemma {:induction false} ValidAmounts(e: Event)
    requires e.Valid()
    ensures e.Canonical().amount >= 1 && e.Canonical().position >= 1
  {
  }

  lemma {:induction false} PostKeepsBookBounded(b: Book, r: Received, e: Event)
    requires Incoming(b, r, e) && BookBounded(b, r) && Post(b, e).Some?
    ensures BookBounded(Post(b, e).value, r[e.position := e])
  {
    PostKeepsBounded(b, r, e);
  }

  lemma {:induction false} FileKeepsStateBounded(s: State, e: Event)
    requires Inv(s) && StateBounded(s) && Fresh(s, e) && e.amount >= 1 && Post(BookOf(s, e.merchant), e).Some?
    ensures StateBounded(File(s, e, Post(BookOf(s, e.merchant), e).value))
  {
    var b := Post(BookOf(s, e.merchant), e).value;
    var s' := File(s, e, b);
    forall m
      ensures BookBounded(BookOf(s', m), ReceivedBy(s', m))
    {
      FileReceives(s, e, b, m);
      assert BookOf(s', m) == if m == e.merchant then b else BookOf(s, m);
      assert BookBounded(BookOf(s, m), ReceivedBy(s, m));
      if m == e.merchant {
        assert BookInv(BookOf(s, m), ReceivedBy(s, m));
        PostKeepsBookBounded(BookOf(s, m), ReceivedBy(s, m), e);
      }
    }
  }

  lemma {:induction false} ApplyKeepsStateBounded(fp: Event -> string, s: State, event: Event)
    requires Inv(s) && StateBounded(s)
    ensures StateBounded(Apply(fp, s, event).0)
  {
    ApplyCases(fp, s, event);
    if Apply(fp, s, event).1.Applied? {
      OkIsValid(fp, s, event);
      ValidAmounts(event);
      FileKeepsStateBounded(s, event.Canonical());
    }
  }

  lemma {:induction false} ReplaceKeepsStateBounded(s: State, m: string, b: Book)
    requires StateBounded(s) && b.receipts == BookOf(s, m).receipts && BookBounded(b, ReceivedBy(s, m))
    ensures StateBounded(Replace(s, m, b))
  {
    forall x
      ensures BookBounded(BookOf(Replace(s, m, b), x), ReceivedBy(Replace(s, m, b), x))
    {
      ReplaceReceives(s, m, b, x);
      assert BookOf(Replace(s, m, b), x) == if x == m then b else BookOf(s, x);
      assert BookBounded(BookOf(s, x), ReceivedBy(s, x));
    }
  }

  lemma {:induction false} ResumeKeepsStateBounded(s: State, merchant: string)
    requires Inv(s) && StateBounded(s)
    ensures StateBounded(ResumeNext(s, merchant))
  {
    var m := ToLower(merchant);
    ResumeCases(s, merchant);
    if m in s.books && Resume(BookOf(s, m)).Some? {
      assert BookInv(BookOf(s, m), ReceivedBy(s, m)) && BookBounded(BookOf(s, m), ReceivedBy(s, m));
      ResumeKeepsBounded(BookOf(s, m), ReceivedBy(s, m));
      ReplaceKeepsStateBounded(s, m, Resume(BookOf(s, m)).value);
    }
  }

  lemma {:induction false} EmptyBounded()
    ensures StateBounded(EMPTY)
  {
    assert forall m :: BookOf(EMPTY, m) == EMPTY_BOOK && ReceivedBy(EMPTY, m) == map[];
  }

  /** In every reachable state each closing is at most the volume of the events
      accepted up to its date. */
  lemma {:induction false} EveryRunIsBounded(fp: Event -> string, steps: seq<Step>)
    ensures StateBounded(Run(fp, steps))
  {
    if steps == [] {
      EmptyBounded();
    } else {
      var front := steps[..|steps| - 1];
      EveryRunIsBounded(fp, front);
      EveryRunKeepsInv(fp, front);
      match steps[|steps| - 1]
      case Deliver(e) => ApplyKeepsStateBounded(fp, Run(fp, front), e);
      case Recover(m) => ResumeKeepsStateBounded(Run(fp, front), m);
    }
  }

  /* ---- Amounts that sum within int64 ---- */

  /** The sum of the amounts of a set of events. */
  ghost function SumOf(es: set<Event>): int
    decreases es
  {
    if es == {} then 0
    else
      var e :| e in es;
      e.amount + SumOf(es - {e})
  }

  lemma {:induction false} SumWithout(es: set<Event>, e: Event)
    requires e in es
    ensures SumOf(es) == e.amount + SumOf(es - {e})
    decreases es
  {
    var x :| x in es && SumOf(es) == x.amount + SumOf(es - {x});
    if x != e {
      SumWithout(es - {x}, e);
      SumWithout(es - {e}, x);
      assert es - {x} - {e} == es - {e} - {x};
    }
  }

  lemma {:induction false} SumNotNegative(es: set<Event>)
    requires forall e | e in es :: e.amount >= 1
    ensures SumOf(es) >= 0
    decreases es
  {
    if e :| e in es {
      SumWithout(es, e);
      SumNotNegative(es - {e});
    }
  }

  /** Distinct positions have distinct events, so a volume is part of the sum. */
  lemma {:induction false} VolumeWithinSum(r: Received, n: nat, es: set<Event>)
    requires forall e | e in es :: e.amount >= 1
    requires forall p | p in r && 1 <= p <= n :: r[p] in es && r[p].position == p
    ensures Volume(r, n) <= SumOf(es)
    decreases n
  {
    if n == 0 {
      SumNotNegative(es);
    } else if n in r {
      SumWithout(es, r[n]);
      VolumeWithinSum(r, n - 1, es - {r[n]});
    } else {
      VolumeWithinSum(r, n - 1, es);
    }
  }

  function OfMerchant(es: set<Event>, m: string): set<Event> {
    set e | e in es && e.merchant == m
  }

  /** Each merchant's amounts sum within int64. */
  ghost predicate AmountsFit(es: set<Event>) {
    forall m :: SumOf(OfMerchant(es, m)) <= MAX_INT64
  }

  ghost predicate AllSound(es: set<Event>) {
    forall e | e in es :: Sound(e)
  }

  /** Everything in the inbox is one of the events. */
  ghost predicate InboxAmong(s: State, es: set<Event>) {
    forall k | k in s.inbox :: s.inbox[k] in es
  }

  lemma {:induction false} ReceivedAmong(s: State, es: set<Event>, e: Event, p: int)
    requires Mirror(s) && InboxAmong(s, es) && Fresh(s, e) && p in ReceivedBy(s, e.merchant)
    ensures var x := ReceivedBy(s, e.merchant)[p];
            x in OfMerchant(es, e.merchant) && x.position == p && x.id != e.id
  {
    FreshPosition(s, e);
    assert Filed(s, e.merchant, p, BookOf(s, e.merchant).receipts[p]);
    assert Indexed(s, BookOf(s, e.merchant).receipts[p], ReceivedBy(s, e.merchant)[p]);
  }

  lemma {:induction false} VolumeBeside(r: Received, n: nat, mine: set<Event>, e: Event)
    requires e in mine && (forall x | x in mine :: x.amount >= 1) && SumOf(mine) <= MAX_INT64
    requires forall p | p in r :: r[p] in mine && r[p].position == p && r[p].id != e.id
    ensures Volume(r, n) + e.amount <= MAX_INT64
  {
    VolumeWithinSum(r, n, mine - {e});
    SumWithout(mine, e);
  }

  lemma {:induction false} VolumeFits(s: State, es: set<Event>, e: Event)
    requires Mirror(s) && InboxAmong(s, es) && Fresh(s, e) && e in es
    requires (forall x | x in es :: x.amount >= 1) && SumOf(OfMerchant(es, e.merchant)) <= MAX_INT64
    ensures Volume(ReceivedBy(s, e.merchant), BookOf(s, e.merchant).progress.source) + e.amount <= MAX_INT64
  {
    var r := ReceivedBy(s, e.merchant);
    forall p | p in r
      ensures r[p] in OfMerchant(es, e.merchant) && r[p].position == p && r[p].id != e.id
    {
      ReceivedAmong(s, es, e, p);
    }
    VolumeBeside(r, BookOf(s, e.merchant).progress.source, OfMerchant(es, e.merchant), e);
  }

  /** Valid, non-conflicting events whose amounts fit are taken, whatever of
      them has been accepted before. */
  lemma {:induction false} ApplyTakes(fp: Event -> string, s: State, es: set<Event>, e: Event)
    requires Inv(s) && StateBounded(s) && InboxAmong(s, es) && e in es && Sound(e)
    requires (forall x | x in es :: x.amount >= 1) && NonConflicting(es) && SumOf(OfMerchant(es, e.merchant)) <= MAX_INT64
    ensures Apply(fp, s, e).1.Ok()
  {
    ClashAmong(s, es, e);
    if Clash(s, e).None? {
      ValidAmounts(e);
      VolumeFits(s, es, e);
      FreshPosition(s, e);
      assert BookInv(BookOf(s, e.merchant), ReceivedBy(s, e.merchant));
      assert BookBounded(BookOf(s, e.merchant), ReceivedBy(s, e.merchant));
      PostTakes(BookOf(s, e.merchant), ReceivedBy(s, e.merchant), e);
    }
    UnclashedApplies(fp, s, e);
  }

  lemma {:induction false} ClashAmong(s: State, es: set<Event>, e: Event)
    requires Mirror(s) && InboxAmong(s, es) && NonConflicting(es) && e in es
    ensures Clash(s, e).Some? ==> Clash(s, e).value == e
  {
    if Clash(s, e).Some? {
      var row, receipts := Clash(s, e).value, BookOf(s, e.merchant).receipts;
      if e.id in s.inbox {
        assert Indexed(s, e.id, s.inbox[e.id]);
      } else {
        assert Filed(s, e.merchant, e.position, receipts[e.position]);
      }
      assert row in es;
    }
  }

  /* ---- Runs of such events are taken whole ---- */

  ghost predicate AllValid(steps: seq<Step>) {
    forall i | 0 <= i < |steps| && steps[i].Deliver? :: steps[i].event.Valid()
  }

  /** Deliver applies an event in canonical form just as it does the event. */
  lemma {:induction false} CanonicalApplies(fp: Event -> string, s: State, event: Event)
    requires event.Valid()
    ensures Sound(event.Canonical()) && Apply(fp, s, event.Canonical()) == Apply(fp, s, event)
  {
    CanonicalStable(event);
  }

  lemma {:induction false} SoundAmounts(es: set<Event>)
    requires AllSound(es)
    ensures forall e | e in es :: e.amount >= 1
  {
    forall e | e in es
      ensures e.amount >= 1
    {
      ValidAmounts(e);
    }
  }

  lemma {:induction false} DeliveredSound(steps: seq<Step>)
    requires AllValid(steps)
    ensures AllSound(Delivered(steps))
  {
    forall e | e in Delivered(steps)
      ensures Sound(e)
    {
      var i :| 0 <= i < |steps| && steps[i].Deliver? && e == steps[i].event.Canonical();
      CanonicalSound(steps[i].event);
    }
  }

  lemma {:induction false} InboxAmongDelivered(fp: Event -> string, steps: seq<Step>)
    ensures InboxAmong(Run(fp, steps), Delivered(steps))
  {
    if steps != [] {
      var n := |steps| - 1;
      InboxAmongDelivered(fp, steps[..n]);
      DeliveredSnoc(steps[..n], steps[n]);
      assert steps == steps[..n] + [steps[n]];
      match steps[n]
      case Deliver(e) => ApplyCases(fp, Run(fp, steps[..n]), e);
      case Recover(m) => ResumeCases(Run(fp, steps[..n]), m);
    }
  }

  lemma {:induction false} AmongMore(s: State, es: set<Event>, more: set<Event>)
    requires InboxAmong(s, es) && es <= more
    ensures InboxAmong(s, more)
  {
  }

  lemma {:induction false} DeliveredPrefix(steps: seq<Step>, i: nat)
    requires i < |steps|
    ensures Delivered(steps[..i]) <= Delivered(steps)
    ensures steps[i].Deliver? ==> steps[i].event.Canonical() in Delivered(steps)
  {
    forall e | e in Delivered(steps[..i])
      ensures e in Delivered(steps)
    {
      var k :| 0 <= k < i && steps[..i][k].Deliver? && e == steps[..i][k].event.Canonical();
      assert steps[k].event.Canonical() == e;
    }
  }

  /** The condition a sender can check: valid events, none conflicting with
      another, each merchant's amounts summing within int64.  Every delivery of
      such a run is taken, in any order, with any repetition and recoveries. */
  lemma {:induction false} FittingRunIsTaken(fp: Event -> string, steps: seq<Step>)
    requires AllValid(steps) && NonConflicting(Delivered(steps)) && AmountsFit(Delivered(steps))
    ensures AllTaken(fp, steps)
  {
    var es := Delivered(steps);
    DeliveredSound(steps);
    SoundAmounts(es);
    forall i | 0 <= i < |steps| && steps[i].Deliver?
      ensures Apply(fp, Run(fp, steps[..i]), steps[i].event).1.Ok()
    {
      TakenAt(fp, steps[..i], es, steps[i].event) by {
        DeliveredPrefix(steps, i);
      }
    }
  }

  lemma {:induction false} TakenAt(fp: Event -> string, before: seq<Step>, es: set<Event>, event: Event)
    requires Delivered(before) <= es && event.Valid() && event.Canonical() in es
    requires (forall x | x in es :: x.amount >= 1) && NonConflicting(es) && AmountsFit(es)
    ensures Apply(fp, Run(fp, before), event).1.Ok()
  {
    var s, e := Run(fp, before), event.Canonical();
    EveryRunKeepsInv(fp, before);
    EveryRunIsBounded(fp, before);
    InboxAmongDelivered(fp, before);
    AmongMore(s, Delivered(before), es);
    CanonicalApplies(fp, s, event);
    assert SumOf(OfMerchant(es, e.merchant)) <= MAX_INT64;
    ApplyTakes(fp, s, es, e);
  }

  /** Order independence, from conditions on the events alone. */
  lemma {:induction false} FittingRunsAgree(fp: Event -> string, xs: seq<Step>, ys: seq<Step>, m: string)
    requires AllValid(xs) && AllValid(ys) && Delivered(xs) == Delivered(ys)
    requires NonConflicting(Delivered(xs)) && AmountsFit(Delivered(xs))
    ensures
      var s, t := Run(fp, xs), Run(fp, ys);
      && InboxIs(s, Delivered(xs)) && s.inbox == t.inbox
      && BookOf(s, m).receipts == BookOf(t, m).receipts
      && BookOf(s, m).progress == BookOf(t, m).progress
      && forall d: Date :: DayTotals(BookOf(s, m).days, d) == DayTotals(BookOf(t, m).days, d)
  {
    FittingRunIsTaken(fp, xs);
    FittingRunIsTaken(fp, ys);
    InboxIsDelivered(fp, xs);
    OrderIndependence(fp, xs, ys, m);
  }
}
