/** Repeating ResumeNext until no job is pending. */
module Draining {
  import opened Domain
  import opened Projection
  import opened Closing
  import opened Invariants

  function DaysLeft(job: Job): nat {
    if Pending(job) && job.next.value <= job.through then job.through - job.next.value + 1 else 0
  }

  function Remaining(jobs: seq<Job>): nat {
    if jobs == [] then 0 else Remaining(jobs[..|jobs| - 1]) + DaysLeft(jobs[|jobs| - 1])
  }

  lemma {:induction false} RemainingUpdate(jobs: seq<Job>, i: nat, job: Job)
    requires i < |jobs|
    ensures Remaining(jobs[i := job]) + DaysLeft(jobs[i]) == Remaining(jobs) + DaysLeft(job)
    decreases |jobs|
  {
    var n := |jobs| - 1;
    if i == n {
      assert jobs[i := job][..n] == jobs[..n];
    } else {
      RemainingUpdate(jobs[..n], i, job);
      assert jobs[i := job][..n] == jobs[..n][i := job];
    }
  }

  /** A resumed block strictly decreases the days left in pending jobs. */
  lemma {:induction false} ResumeDecreases(b: Book)
    requires JobsWellFormed(b) && NextJob(b.jobs).Some? && Resume(b).Some?
    ensures JobsWellFormed(Resume(b).value)
    ensures Remaining(Resume(b).value.jobs) < Remaining(b.jobs)
  {
    var i := NextJob(b.jobs).value;
    var job := b.jobs[i];
    RemainingUpdate(b.jobs, i, Advance(job, BlockEnd(job.next.value, job.through)));
  }

  /** Draining, or None when a closing overflows on the way. */
  function Drain(b: Book): Option<Book>
    requires JobsWellFormed(b)
    decreases Remaining(b.jobs)
  {
    if NextJob(b.jobs).None? then Some(b)
    else
      match Resume(b)
      case None => None
      case Some(b') => ResumeDecreases(b); Drain(b')
  }

  /** Every running net of the accepted events is a bigint. */
  ghost predicate NetsFit(b: Book, r: Received) {
    forall d: Date :: FitsInt64(NetBefore(r, b.progress.source, d))
  }

  lemma {:induction false} ResumeFits(b: Book, r: Received)
    requires BookInv(b, r) && ClosingInv(b) && NetsFit(b, r)
    ensures Resume(b).Some?
  {
    match NextJob(b.jobs)
    case None =>
    case Some(i) =>
      var lo, hi := b.jobs[i].next.value, BlockEnd(b.jobs[i].next.value, b.jobs[i].through);
      var rows := Recompute(b.days, lo, hi);
      BaselineExactOrStale(b.days, lo);
      assert forall x: Date | x < lo :: !Covered(b.jobs, x);
      forall d: Date | lo <= d <= hi && d in rows
        ensures FitsInt64(rows[d].closing)
      {
        RecomputeExact(b.days, lo, hi, d);
        RecomputeKeepsNet(b.days, lo, hi, d + 1);
        PrefixIsNetBefore(b, r, d + 1);
      }
  }

  /** Draining ends, with no job pending, the same events counted, and every
      closing equal to the from-scratch running net of those events. */
  lemma {:induction false} DrainRefinesFold(b: Book, r: Received)
    requires BookInv(b, r) && ClosingInv(b) && NetsFit(b, r)
    ensures Drain(b).Some?
    ensures
      var b' := Drain(b).value;
      && BookInv(b', r) && !AnyPending(b'.jobs)
      && b'.receipts == b.receipts && b'.progress == b.progress
      && b.days.Keys <= b'.days.Keys
      && forall d | d in b'.days :: b'.days[d].closing == NetBefore(r, b.progress.source, d + 1)
    decreases Remaining(b.jobs)
  {
    if NextJob(b.jobs).None? {
      DrainedIsExact(b, r);
    } else {
      ResumeFits(b, r);
      ResumeKeepsBook(b, r);
      ResumeKeepsClosing(b);
      ResumeDecreases(b);
      var b' := Resume(b).value;
      assert b'.progress == b.progress && b.days.Keys <= b'.days.Keys;
      DrainRefinesFold(b', r);
    }
  }

  /** Without pending jobs every closing is the running net of the accepted events. */
  lemma {:induction false} DrainedIsExact(b: Book, r: Received)
    requires TotalsInv(b, r) && ClosingInv(b) && !AnyPending(b.jobs)
    ensures forall d | d in b.days :: b.days[d].closing == NetBefore(r, b.progress.source, d + 1)
  {
    forall d | d in b.days
      ensures b.days[d].closing == NetBefore(r, b.progress.source, d + 1)
    {
      assert Exact(b.days, d) || Covered(b.jobs, d);
      PrefixIsNetBefore(b, r, d + 1);
    }
  }

  /* ---- The order the code does not survive ---- */

  /** n resumes, or None when one of them overflows. */
  function Resumes(b: Book, n: nat): Option<Book>
    decreases n
  {
    if n == 0 then Some(b)
    else
      match Resume(b)
      case None => None
      case Some(b') => Resumes(b', n - 1)
  }

  lemma {:induction false} ResumesLeaveUncovered(b: Book, d: Date, n: nat)
    requires d in b.days && !Covered(b.jobs, d) && Resumes(b, n).Some?
    ensures
      var b' := Resumes(b, n).value;
      && d in b'.days && b'.days[d] == b.days[d] && Prefix(b'.days, d + 1) == Prefix(b.days, d + 1)
    decreases n
  {
    if n > 0 {
      ResumeLeavesUncovered(b, d);
      ResumesLeaveUncovered(Resume(b).value, d, n - 1);
    }
  }

  lemma {:induction false} PrefixEmpty(d: Date)
    ensures Prefix(map[], d) == 0
  {
    if d > 0 {
      PrefixEmpty(d - 1);
    }
  }

  lemma {:induction false} BaselineSkips(days: Days, lo: Date, hi: Date)
    requires lo < hi && lo in days && forall d: Date | lo < d < hi :: d !in days
    ensures Baseline(days, hi) == days[lo].closing
  {
    if lo + 1 < hi {
      BaselineSkips(days, lo, hi - 1);
    }
  }

  /** The book after one event is that event's day alone. */
  lemma {:induction false} FirstPost(e: Event)
    requires e.position >= 1 && Post(EMPTY_BOOK, e).Some?
    ensures
      var b := Post(EMPTY_BOOK, e).value;
      && b.days.Keys == {e.date} && b.days[e.date].closing == e.Net()
      && forall d: Date :: Prefix(b.days, d) == if e.date < d then e.Net() else 0
  {
    var days := AddEffect(map[], e);
    var b := Post(EMPTY_BOOK, e).value;
    assert MaxDate(days) == e.date;
    assert b.days == Recompute(days, e.date, e.date);
    assert b.days.Keys == {e.date};
    forall d: Date
      ensures Prefix(b.days, d) == if e.date < d then e.Net() else 0
    {
      PrefixEmpty(d);
      AddEffectPrefix(map[], e, d);
      RecomputeKeepsNet(days, e.date, e.date, d);
    }
    PrefixEmpty(e.date);
    BaselineExactOrStale(days, e.date);
    BaselineCongruent(days, map[], e.date);
    EmptyBaseline(e.date);
    RecomputeExact(days, e.date, e.date, e.date);
  }

  lemma {:induction false} EmptyBaseline(d: Date)
    ensures Baseline(map[], d) == 0
  {
    if d > 0 {
      EmptyBaseline(d - 1);
    }
  }

  /** A late event leaves a job pending that ends at the latest row, and that
      row keeps its stale closing meanwhile. */
  lemma {:induction false} LatePost(b: Book, first: Event, late: Event)
    requires first.position >= 1 && late.position >= 1 && late.date + RECOMPUTE_SPAN_DAYS <= first.date
    requires Post(EMPTY_BOOK, first) == Some(b) && Post(b, late).Some?
    ensures
      var c := Post(b, late).value;
      && IsMax(c.days, first.date) && c.days[first.date].closing == first.Net()
      && (forall d: Date | d > first.date :: !Covered(c.jobs, d))
      && forall d: Date | d > first.date :: Prefix(c.days, d) == first.Net() + late.Net()
  {
    FirstPost(first);
    var days, c := AddEffect(b.days, late), Post(b, late).value;
    assert days.Keys == {first.date, late.date};
    assert IsMax(days, first.date) && MaxDate(days) == first.date;
    forall d: Date | d > first.date
      ensures Prefix(c.days, d) == first.Net() + late.Net()
    {
      AddEffectPrefix(b.days, late, d);
      RecomputeKeepsNet(days, late.date, BlockEnd(late.date, first.date), d);
    }
  }

  /** An event dated past the latest row takes that row's closing as baseline. */
  lemma {:induction false} PostPastMaximum(b: Book, top: Date, e: Event)
    requires IsMax(b.days, top) && e.date > top && e.position >= 1 && Post(b, e).Some?
    ensures
      var f := Post(b, e).value;
      && e.date in f.days
      && f.days[e.date].closing == b.days[top].closing + e.Net()
      && Prefix(f.days, e.date + 1) == Prefix(b.days, e.date) + e.Net()
      && (Covered(f.jobs, e.date) ==> Covered(b.jobs, e.date))
  {
    var days, f := AddEffect(b.days, e), Post(b, e).value;
    assert IsMax(days, e.date) && MaxDate(days) == e.date;
    BaselineSkips(b.days, top, e.date);
    BaselineCongruent(days, b.days, e.date);
    AddEffectPrefix(b.days, e, e.date);
    AddEffectPrefix(b.days, e, e.date + 1);
    assert Prefix(b.days, e.date + 1) == Prefix(b.days, e.date);
    RecomputeKeepsNet(days, e.date, e.date, e.date + 1);
    RecomputeKeepsNet(days, e.date, e.date, e.date);
    assert f.days == Recompute(days, e.date, e.date);
    if Covered(f.jobs, e.date) {
      var k :| 0 <= k < |f.jobs| && Covers(f.jobs[k], e.date);
      assert k < |b.jobs| && Covers(b.jobs[k], e.date);
    }
  }

  /** When an event dated past the latest row is accepted while a late event's
      job is pending, its closing misses the late event and no number of
      resumes repairs it. */
  lemma {:induction false} LateMaximumNeverRepaired(b: Book, c: Book, f: Book, first: Event, late: Event, next: Event, n: nat)
    requires first.position >= 1 && late.position >= 1 && next.position >= 1
    requires late.date + RECOMPUTE_SPAN_DAYS <= first.date < next.date
    requires Post(EMPTY_BOOK, first) == Some(b) && Post(b, late) == Some(c) && Post(c, next) == Some(f)
    requires Resumes(f, n).Some?
    ensures
      var g := Resumes(f, n).value;
      && next.date in g.days
      && g.days[next.date].closing == first.Net() + next.Net()
      && Prefix(g.days, next.date + 1) == first.Net() + late.Net() + next.Net()
  {
    LatePost(b, first, late);
    PostPastMaximum(c, first.date, next);
    ResumesLeaveUncovered(f, next.date, n);
  }

  /** The net of the days from lo to d. */
  function NetOver(days: Days, lo: Date, d: Date): int {
    Prefix(days, d + 1) - Prefix(days, lo)
  }

  /** An event is accepted when the totals of its day and the running sums of
      its block stay in range. */
  lemma {:induction false} PostFits(b: Book, e: Event)
    requires e.position >= 1
    requires
      var days := AddEffect(b.days, e);
      && TotalsFit(days[e.date])
      && forall d: Date | e.date <= d <= BlockEnd(e.date, MaxDate(days)) ::
           FitsInt64(Baseline(days, e.date) + NetOver(days, e.date, d))
    ensures Post(b, e).Some?
  {
    var days := AddEffect(b.days, e);
    var end := BlockEnd(e.date, MaxDate(days));
    var rows := Recompute(days, e.date, end);
    forall d: Date | e.date <= d <= end && d in rows
      ensures FitsInt64(rows[d].closing)
    {
      assert rows[d].closing == Baseline(days, e.date) + NetOver(days, e.date, d);
    }
  }

  predicate Modest(e: Event) {
    e.position >= 1 && 1 <= e.amount <= 1_000_000_000_000
  }

  lemma {:induction false} FirstFits(e: Event)
    requires Modest(e)
    ensures Post(EMPTY_BOOK, e).Some?
  {
    var days := AddEffect(map[], e);
    assert MaxDate(days) == e.date;
    BaselineCongruent(days, map[], e.date);
    EmptyBaseline(e.date);
    forall d: Date | e.date <= d <= e.date
      ensures NetOver(days, e.date, d) == e.Net()
    {
      AddEffectPrefix(map[], e, d + 1);
      AddEffectPrefix(map[], e, e.date);
      PrefixEmpty(d + 1);
      PrefixEmpty(e.date);
    }
    PostFits(EMPTY_BOOK, e);
  }

  lemma {:induction false} LateFits(b: Book, first: Event, late: Event)
    requires Modest(first) && Modest(late) && late.date + RECOMPUTE_SPAN_DAYS <= first.date
    requires Post(EMPTY_BOOK, first) == Some(b)
    ensures Post(b, late).Some?
  {
    FirstPost(first);
    var days := AddEffect(b.days, late);
    assert days.Keys == {first.date, late.date};
    assert IsMax(days, first.date) && MaxDate(days) == first.date;
    BaselineCongruent(days, map[], late.date);
    EmptyBaseline(late.date);
    forall d: Date | late.date <= d <= BlockEnd(late.date, first.date)
      ensures NetOver(days, late.date, d) == late.Net()
    {
      AddEffectPrefix(b.days, late, d + 1);
      AddEffectPrefix(b.days, late, late.date);
    }
    PostFits(b, late);
  }

  lemma {:induction false} PastMaximumFits(b: Book, top: Date, e: Event)
    requires IsMax(b.days, top) && e.date > top && Modest(e)
    requires -1_000_000_000_000 <= b.days[top].closing <= 1_000_000_000_000
    ensures Post(b, e).Some?
  {
    var days := AddEffect(b.days, e);
    assert IsMax(days, e.date) && MaxDate(days) == e.date;
    BaselineSkips(b.days, top, e.date);
    BaselineCongruent(days, b.days, e.date);
    AddEffectPrefix(b.days, e, e.date);
    AddEffectPrefix(b.days, e, e.date + 1);
    assert Prefix(b.days, e.date + 1) == Prefix(b.days, e.date);
    PostFits(b, e);
  }

  /** The situation arises for any three events of ordinary amounts so dated. */
  lemma {:induction false} LateMaximumHappens(first: Event, late: Event, next: Event)
    requires Modest(first) && Modest(late) && Modest(next)
    requires late.date + RECOMPUTE_SPAN_DAYS <= first.date < next.date
    ensures Post(EMPTY_BOOK, first).Some?
    ensures Post(Post(EMPTY_BOOK, first).value, late).Some?
    ensures Post(Post(Post(EMPTY_BOOK, first).value, late).value, next).Some?
  {
    FirstFits(first);
    var b := Post(EMPTY_BOOK, first).value;
    LateFits(b, first, late);
    LatePost(b, first, late);
    PastMaximumFits(Post(b, late).value, first.date, next);
  }
}
