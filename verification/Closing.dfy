/** When a closing balance is exact.

    A row is exact when its closing is the sum of net over all rows up to its
    date.  A row may be stale only while a pending job still has to rewrite it. */
module Closing {
  import opened Domain
  import opened Projection

  predicate Exact(days: Days, d: Date)
    requires d in days
  {
    days[d].closing == Prefix(days, d + 1)
  }

  predicate Covers(job: Job, d: Date) {
    Pending(job) && job.next.value <= d <= job.through
  }

  predicate Covered(jobs: seq<Job>, d: Date) {
    exists i | 0 <= i < |jobs| :: Covers(jobs[i], d)
  }

  /** Every row outside the pending jobs' remaining ranges is exact. */
  ghost predicate ClosingInv(b: Book) {
    forall d | d in b.days :: Exact(b.days, d) || Covered(b.jobs, d)
  }

  /** Pending jobs have days left and all of them end at the latest row. */
  ghost predicate JobsInv(b: Book) {
    forall i | 0 <= i < |b.jobs| && Pending(b.jobs[i]) ::
      && b.jobs[i].from <= b.jobs[i].next.value <= b.jobs[i].through
      && IsMax(b.days, b.jobs[i].through)
  }

  /* ---- Prefix sums and baselines ---- */

  /** Prefix sums depend only on net, so they survive materialisation and rewriting. */
  lemma {:induction false} PrefixCongruent(a: Days, b: Days, d: Date)
    requires forall x: Date | x < d :: NetOn(a, x) == NetOn(b, x)
    ensures Prefix(a, d) == Prefix(b, d)
  {
    if d > 0 {
      PrefixCongruent(a, b, d - 1);
    }
  }

  lemma {:induction false} RecomputeKeepsNet(days: Days, lo: Date, hi: Date, d: Date)
    ensures NetOn(Recompute(days, lo, hi), d) == NetOn(days, d)
    ensures Prefix(Recompute(days, lo, hi), d) == Prefix(days, d)
  {
    PrefixCongruent(Recompute(days, lo, hi), days, d);
  }

  /** Posting an effect moves the prefix sums after its date by its net. */
  lemma {:induction false} AddEffectPrefix(days: Days, e: Event, d: Date)
    ensures Prefix(AddEffect(days, e), d) == Prefix(days, d) + (if e.date < d then e.Net() else 0)
  {
    if d > 0 {
      AddEffectPrefix(days, e, d - 1);
    }
  }

  lemma {:induction false} BaselineCongruent(a: Days, b: Days, d: Date)
    requires forall x: Date | x < d :: (x in a <==> x in b) && (x in a ==> a[x] == b[x])
    ensures Baseline(a, d) == Baseline(b, d)
  {
    if d > 0 && d - 1 !in a {
      BaselineCongruent(a, b, d - 1);
    }
  }

  /** Either the baseline is exact, or it comes from a stale row. */
  lemma {:induction false} BaselineExactOrStale(days: Days, d: Date)
    ensures Baseline(days, d) == Prefix(days, d)
         || exists x: Date :: x < d && x in days && !Exact(days, x)
  {
    if d > 0 {
      if d - 1 in days {
        if Baseline(days, d) != Prefix(days, d) {
          assert !Exact(days, d - 1);
        }
      } else {
        BaselineExactOrStale(days, d - 1);
      }
    }
  }

  /** The rows after a block are exact inside it exactly when its baseline was. */
  lemma {:induction false} RecomputeExact(days: Days, lo: Date, hi: Date, d: Date)
    requires d in Recompute(days, lo, hi)
    ensures lo <= d <= hi ==>
              (Exact(Recompute(days, lo, hi), d) <==> Baseline(days, lo) == Prefix(days, lo))
    ensures !(lo <= d <= hi) ==>
              d in days && (Exact(Recompute(days, lo, hi), d) <==> Exact(days, d))
  {
    RecomputeKeepsNet(days, lo, hi, d + 1);
  }

  /* ---- ResumeNext ---- */

  /** ResumeNext keeps every uncovered row exact: it picks the smallest
      next_date, so no pending job covers its baseline. */
  lemma {:induction false} ResumeKeepsClosing(b: Book)
    requires ClosingInv(b) && Resume(b).Some?
    ensures ClosingInv(Resume(b).value)
  {
    match NextJob(b.jobs)
    case None =>
    case Some(i) =>
      var job, b' := b.jobs[i], Resume(b).value;
      var lo, hi := job.next.value, BlockEnd(job.next.value, job.through);
      BaselineExactOrStale(b.days, lo);
      assert forall x: Date | x < lo :: !Covered(b.jobs, x);
      forall d | d in b'.days
        ensures Exact(b'.days, d) || Covered(b'.jobs, d)
      {
        RecomputeExact(b.days, lo, hi, d);
        if !(lo <= d <= hi) && !Exact(b.days, d) {
          var k :| 0 <= k < |b.jobs| && Covers(b.jobs[k], d);
          assert Covers(b'.jobs[k], d);
        }
      }
  }

  lemma {:induction false} ResumeKeepsJobs(b: Book)
    requires JobsInv(b) && Resume(b).Some?
    ensures JobsInv(Resume(b).value)
  {
    match NextJob(b.jobs)
    case None =>
    case Some(i) =>
      var b' := Resume(b).value;
      forall d | IsMax(b.days, d)
        ensures IsMax(b'.days, d)
      {
      }
  }

  /* ---- Apply ---- */

  /** The exact condition under which accepting an event keeps every uncovered
      row exact: its baseline row is exact, or the whole block it rewrites is
      still going to be rewritten by jobs pending before it. */
  lemma {:induction false} PostKeepsClosingIff(b: Book, e: Event)
    requires ClosingInv(b) && e.position >= 1 && Post(b, e).Some?
    ensures
      var end := BlockEnd(e.date, MaxDate(AddEffect(b.days, e)));
      ClosingInv(Post(b, e).value) <==>
      || Baseline(b.days, e.date) == Prefix(b.days, e.date)
      || forall d: Date | e.date <= d <= end :: Covered(b.jobs, d)
  {
    var days, b' := AddEffect(b.days, e), Post(b, e).value;
    var through := MaxDate(days);
    var end := BlockEnd(e.date, through);
    var exact := Baseline(b.days, e.date) == Prefix(b.days, e.date);
    AddEffectPrefix(b.days, e, e.date);
    BaselineCongruent(days, b.days, e.date);
    forall d | d in b'.days
      ensures e.date <= d <= end ==> (Exact(b'.days, d) <==> exact)
      ensures e.date <= d <= end ==> (Covered(b'.jobs, d) <==> Covered(b.jobs, d))
      ensures !(e.date <= d <= end) ==> Exact(b'.days, d) || Covered(b'.jobs, d)
    {
      RecomputeExact(days, e.date, end, d);
      AddEffectPrefix(b.days, e, d + 1);
      var last := b'.jobs[|b.jobs|];
      if d > end {
        assert d in days;
        assert Covers(last, d);
      } else if d < e.date && !Exact(b.days, d) {
        var k :| 0 <= k < |b.jobs| && Covers(b.jobs[k], d);
        assert Covers(b'.jobs[k], d);
      } else if d >= e.date {
        assert !Covers(last, d);
        if Covered(b.jobs, d) {
          var k :| 0 <= k < |b.jobs| && Covers(b.jobs[k], d);
          assert Covers(b'.jobs[k], d);
        }
      }
    }
    if ClosingInv(b') && !exact {
      forall d: Date | e.date <= d <= end
        ensures Covered(b.jobs, d)
      {
        assert d in b'.days;
      }
    }
  }

  /** No event dated past the latest row is accepted while a job is pending. */
  predicate InOrder(b: Book, e: Event) {
    AnyPending(b.jobs) ==> exists d | d in b.days :: e.date <= d
  }

  /** A sufficient condition on the order of events alone. */
  lemma {:induction false} PostInOrder(b: Book, e: Event)
    requires ClosingInv(b) && JobsInv(b) && e.position >= 1 && InOrder(b, e) && Post(b, e).Some?
    ensures ClosingInv(Post(b, e).value) && JobsInv(Post(b, e).value)
  {
    var days, b' := AddEffect(b.days, e), Post(b, e).value;
    var through := MaxDate(days);
    var end := BlockEnd(e.date, through);
    assert IsMax(b'.days, through);
    forall k | 0 <= k < |b.jobs| && Pending(b.jobs[k])
      ensures b.jobs[k].through == through
    {
      assert IsMax(b.days, b.jobs[k].through) && IsMax(days, through);
      assert AnyPending(b.jobs);
      assert b.jobs[k].through in days;
      assert through in b.days || through == e.date;
    }
    BaselineExactOrStale(b.days, e.date);
    if Baseline(b.days, e.date) != Prefix(b.days, e.date) {
      var x: Date :| x < e.date && x in b.days && !Exact(b.days, x);
      var k :| 0 <= k < |b.jobs| && Covers(b.jobs[k], x);
      assert forall d: Date | e.date <= d <= end :: Covers(b.jobs[k], d);
    }
    PostKeepsClosingIff(b, e);
  }

  /** Rows no pending job covers are out of reach of every later ResumeNext. */
  lemma {:induction false} ResumeLeavesUncovered(b: Book, d: Date)
    requires d in b.days && !Covered(b.jobs, d) && Resume(b).Some?
    ensures
      var b' := Resume(b).value;
      && d in b'.days && b'.days[d] == b.days[d] && !Covered(b'.jobs, d)
      && Prefix(b'.days, d + 1) == Prefix(b.days, d + 1)
  {
    match NextJob(b.jobs)
    case None =>
    case Some(i) =>
      var job, b' := b.jobs[i], Resume(b).value;
      var hi := BlockEnd(job.next.value, job.through);
      RecomputeKeepsNet(b.days, job.next.value, hi, d + 1);
      forall k | 0 <= k < |b'.jobs|
        ensures !Covers(b'.jobs[k], d)
      {
        assert !Covers(b.jobs[k], d);
      }
  }

  /* ---- The thirty-day and thirty-one-day bounds ---- */

  /** An event the ledger dated within its thirty-day window, in a book whose
      rows do not pass today, is recomputed in one block. */
  lemma {:induction false} PostWithinWindow(b: Book, e: Event, today: Date)
    requires e.position >= 1 && Post(b, e).Some?
    requires Resolve(today, Some(e.date)) == Some(e.date)
    requires !AnyPending(b.jobs) && forall d | d in b.days :: d <= today
    ensures !AnyPending(Post(b, e).value.jobs) && forall d | d in Post(b, e).value.days :: d <= today
  {
    var through := MaxDate(AddEffect(b.days, e));
    assert through <= today;
    assert BlockEnd(e.date, through) == through;
  }
}
