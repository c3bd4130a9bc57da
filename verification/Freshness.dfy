/** When a balance reported as definitive really agrees with the ledger. */
module Freshness {
  import opened Domain
  import opened Projection
  import opened Closing
  import opened Invariants
  import L = Ledger
  import LR = LedgerRuns
  import opened Draining
  import R = Runs

  datatype Mode = Updated | Processing | Delayed

  /** One day of the answer; data is None for a day without a row. */
  datatype Line = Line(date: Date, source: nat, applied: nat, mode: Mode, unverifiable: bool, definitive: bool, data: Option<Day>)

  const NO_PROGRESS := Progress(0, 0, None)

  function RowOf(days: Days, d: Date): Option<Day> {
    if d in days then Some(days[d]) else None
  }

  /** What the answer calls definitive, from the separate reads. */
  predicate Definitive(p: Progress, pending: bool, watermark: Option<nat>) {
    watermark.Some? && !pending && p.gap.None? && watermark.value <= p.applied == p.source
  }

  /** The rows a balance query returns. */
  function Selected(days: Days, from: Date, through: Date): Days {
    map d | d in days && from <= d <= through :: days[d]
  }

  /** GetDailyBalances over its four reads, each of which may fail: the daily
      rows, the progress row, the pending jobs and the ledger's watermark;
      stale says the watermark's time lies more than 30 seconds back. */
  method GetDailyBalances(from: Date, through: Date, days: Option<Days>, progress: Option<Progress>,
                          pending: Option<bool>, watermark: Option<nat>, stale: bool)
      returns (answer: Option<seq<Line>>)
    ensures answer.None? <==> || from > through || days.None? || pending.None?
                              || (watermark.None? && progress.None? && forall d | from <= d <= through :: d !in days.value)
    ensures answer.Some? ==>
              var p := if progress.Some? then progress.value else Progress(0, 0, None);
              && |answer.value| == through - from + 1
              && forall i | 0 <= i < |answer.value| ::
                   var line := answer.value[i];
                   && line.date == from + i && line.data == (if from + i in days.value then Some(days.value[from + i]) else None)
                   && line.applied == p.applied
                   && line.source == (if watermark.Some? && watermark.value > p.source then watermark.value else p.source)
                   && (line.definitive <==> Definitive(p, pending.value, watermark))
                   && (line.definitive <==> watermark.Some? && !pending.value && p.gap == None && p.applied == p.source
                                            && watermark.value <= p.source)
                   && (line.definitive <==> line.mode == Updated)
                   && (line.definitive ==> line.source == line.applied)
                   && (line.unverifiable <==> watermark.None?)
                   && (!line.definitive ==> (line.mode == Delayed <==> watermark.None? || stale))
  {
    if from > through || days.None? {
      return None;
    }
    var balances := Selected(days.value, from, through);
    assert forall d | from <= d <= through :: d in balances <==> d in days.value;
    var p := NO_PROGRESS;
    if progress.Some? {
      p := progress.value;
    }
    if pending.None? {
      return None;
    }
    var source, definitive, mode := p.source, false, Delayed;
    if watermark.None? {
      if balances == map[] && progress.None? {
        return None;
      }
    } else {
      if watermark.value > source {
        source := watermark.value;
      }
      var isPending := pending.value || p.gap.Some? || p.applied != p.source || source > p.applied;
      if !isPending {
        mode, definitive := Updated, true;
      } else {
        mode := if stale then Delayed else Processing;
      }
    }
    var lines: seq<Line> := [];
    var d := from;
    while d <= through
      invariant from <= d <= through + 1 && |lines| == d - from
      invariant forall i | 0 <= i < |lines| ::
                  lines[i] == Line(from + i, source, p.applied, mode, watermark.None?, definitive, RowOf(balances, from + i))
    {
      lines := lines + [Line(d, source, p.applied, mode, watermark.None?, definitive, RowOf(balances, d))];
      d := d + 1;
    }
    return Some(lines);
  }

  /* ---- The ledger's own sums ---- */

  /** The totals of the ledger entries dated d. */
  function LedgerTotals(log: seq<L.Entry>, d: Date): Totals {
    if log == [] then Totals(0, 0, 0)
    else
      var t, e := LedgerTotals(log[..|log| - 1], d), log[|log| - 1];
      if e.date != d then t
      else if e.kind == L.Credit then Totals(t.credits + e.amount, t.debits, t.count + 1)
      else Totals(t.credits, t.debits + e.amount, t.count + 1)
  }

  /** The net of the ledger entries dated up to d. */
  function LedgerNet(log: seq<L.Entry>, d: Date): int {
    if log == [] then 0
    else LedgerNet(log[..|log| - 1], d) + (if log[|log| - 1].date <= d then log[|log| - 1].Signed() else 0)
  }

  predicate Tells(e: Event, entry: L.Entry) {
    e.date == entry.date && e.amount == entry.amount && (e.entryType == CREDIT <==> entry.kind == L.Credit)
  }

  /** Every accepted event is the ledger entry at its position. */
  ghost predicate Faithful(r: Received, log: seq<L.Entry>) {
    forall p | p in r :: 1 <= p <= |log| && Tells(r[p], log[p - 1])
  }

  lemma {:induction false} CompleteFoldIsLedger(r: Received, log: seq<L.Entry>, n: nat, d: Date)
    requires Faithful(r, log) && n <= |log| && forall p | 1 <= p <= n :: p in r
    ensures Fold(r, n, d) == LedgerTotals(log[..n], d)
    ensures NetBefore(r, n, d + 1) == LedgerNet(log[..n], d)
  {
    if n > 0 {
      CompleteFoldIsLedger(r, log, n - 1, d);
      assert log[..n][..n - 1] == log[..n - 1];
      assert n in r && Tells(r[n], log[n - 1]);
    }
  }

  /** A definitive progress means every ledger entry has been received. */
  lemma {:induction false} DefinitiveIsComplete(p: Progress, r: Received, log: seq<L.Entry>)
    requires ProgressInv(p, r.Keys) && Faithful(r, log) && Definitive(p, false, Some(|log|))
    ensures p.applied == p.source == |log| && forall n | 1 <= n <= |log| :: n in r
  {
  }

  /** Read from one state, a definitive answer has applied, source and
      watermark equal, and each day's totals are the ledger's, also when the
      day has no row; under the closing invariant its closing balance is the
      ledger's running net. */
  lemma {:induction false} DefinitiveIsSound(b: Book, r: Received, log: seq<L.Entry>, d: Date)
    requires BookInv(b, r) && Faithful(r, log)
    requires Definitive(b.progress, AnyPending(b.jobs), Some(|log|))
    ensures b.progress.applied == b.progress.source == |log|
    ensures DayTotals(b.days, d) == LedgerTotals(log, d)
    ensures d in b.days ==> b.days[d].net == LedgerTotals(log, d).credits - LedgerTotals(log, d).debits
    ensures ClosingInv(b) && d in b.days ==> b.days[d].closing == LedgerNet(log, d)
  {
    DefinitiveIsComplete(b.progress, r, log);
    CompleteFoldIsLedger(r, log, |log|, d);
    assert log[..|log|] == log;
    PrefixIsNetBefore(b, r, d + 1);
    assert d in b.days && ClosingInv(b) ==> Exact(b.days, d);
  }

  /** The same over whole runs of the projection and of the ledger. */
  lemma {:induction false} DefinitiveOverRuns(fp: Event -> string, steps: seq<R.Step>, calls: seq<LR.Call>, m: string, id: L.Id, d: Date)
    requires
      var s, log := R.Run(fp, steps), LR.LogOf(LR.History(calls), id);
      && Faithful(ReceivedBy(s, m), log)
      && Definitive(BookOf(s, m).progress, AnyPending(BookOf(s, m).jobs), Some(L.Last(LR.Run(calls), id)))
    ensures
      var b, log := BookOf(R.Run(fp, steps), m), LR.LogOf(LR.History(calls), id);
      && b.progress.applied == b.progress.source == L.Last(LR.Run(calls), id)
      && DayTotals(b.days, d) == LedgerTotals(log, d)
      && (R.RunInOrder(fp, steps) && d in b.days ==> b.days[d].closing == LedgerNet(log, d))
  {
    R.EveryRunKeepsInv(fp, steps);
    LR.EveryRunKeepsInv(calls);
    var s, log := R.Run(fp, steps), LR.LogOf(LR.History(calls), id);
    if R.RunInOrder(fp, steps) {
      R.InOrderRunKeepsClosings(fp, steps);
    }
    DefinitiveIsSound(BookOf(s, m), ReceivedBy(s, m), log, d);
  }

  /* ---- Separate reads ---- */

  ghost predicate Within(r: Received, r': Received) {
    forall p | p in r :: p in r' && r'[p] == r[p]
  }

  /** Some event dated d was accepted between the two reads. */
  ghost predicate Arrived(r: Received, r': Received, d: Date) {
    exists p :: p in r' && p !in r && r'[p].date == d
  }

  /** Receiving more never lowers a day's count, and keeps it only if nothing
      of that day arrived. */
  lemma {:induction false} FoldGrows(r: Received, r': Received, n: nat, d: Date)
    requires Within(r, r')
    ensures Fold(r, n, d).count <= Fold(r', n, d).count
    ensures (forall p | 1 <= p <= n && p in r' && p !in r :: r'[p].date != d) ==> Fold(r, n, d) == Fold(r', n, d)
    ensures (exists p | 1 <= p <= n :: p in r' && p !in r && r'[p].date == d) ==> Fold(r, n, d).count < Fold(r', n, d).count
  {
    if n > 0 {
      FoldGrows(r, r', n - 1, d);
      assert n in r ==> n in r' && r'[n] == r[n];
    }
  }

  /** Balances read before the progress row: a definitive day agrees with the
      ledger exactly when no event of that day was accepted in between. */
  lemma {:induction false} DefinitiveAcrossReadsIff(b: Book, r: Received, b': Book, r': Received, pending: bool, log: seq<L.Entry>, d: Date)
    requires BookInv(b, r) && BookInv(b', r') && Within(r, r') && Faithful(r', log)
    requires Definitive(b'.progress, pending, Some(|log|))
    ensures DayTotals(b.days, d) == LedgerTotals(log, d) <==> !Arrived(r, r', d)
  {
    var n := |log|;
    DefinitiveIsComplete(b'.progress, r', log);
    CompleteFoldIsLedger(r', log, n, d);
    assert log[..n] == log;
    FoldGrows(r, r', n, d);
    assert forall p | p in r :: p in r';
    FoldBeyond(r, b.progress.source, n, d);
    assert DayTotals(b.days, d) == Fold(r, b.progress.source, d);
    assert Arrived(r, r', d) <==> exists p | 1 <= p <= n :: p in r' && p !in r && r'[p].date == d;
  }

  /** The net of the events dated up to d that arrived between the two reads. */
  function ArrivedNet(r: Received, r': Received, n: nat, d: Date): int {
    if n == 0 then 0
    else ArrivedNet(r, r', n - 1, d) + (if n in r' && n !in r && r'[n].date <= d then r'[n].Net() else 0)
  }

  lemma {:induction false} NetBeforeSplits(r: Received, r': Received, n: nat, d: Date)
    requires Within(r, r')
    ensures NetBefore(r', n, d + 1) == NetBefore(r, n, d + 1) + ArrivedNet(r, r', n, d)
  {
    if n > 0 {
      NetBeforeSplits(r, r', n - 1, d);
      assert n in r ==> n in r' && r'[n] == r[n];
    }
  }

  lemma {:induction false} NothingArrived(r: Received, r': Received, n: nat, d: Date)
    requires forall p | p in r' :: p in r
    ensures ArrivedNet(r, r', n, d) == 0
  {
    if n > 0 {
      NothingArrived(r, r', n - 1, d);
    }
  }

  /** The closing of a definitive day, read before the progress row, is the
      ledger's running net exactly when its own error is the net of the events
      dated up to that day that arrived in between.  So an exact row agrees if
      and only if they net to zero, whatever their dates; and when nothing
      arrived, a row agrees if and only if it was exact when it was read, which
      a job finished only later leaves it short of. */
  lemma {:induction false} ClosingAcrossReadsIff(b: Book, r: Received, b': Book, r': Received, pending: bool, log: seq<L.Entry>, d: Date)
    requires BookInv(b, r) && BookInv(b', r') && Within(r, r') && Faithful(r', log)
    requires Definitive(b'.progress, pending, Some(|log|)) && d in b.days
    ensures b.days[d].closing == LedgerNet(log, d) <==> b.days[d].closing - Prefix(b.days, d + 1) == ArrivedNet(r, r', |log|, d)
    ensures Exact(b.days, d) ==> (b.days[d].closing == LedgerNet(log, d) <==> ArrivedNet(r, r', |log|, d) == 0)
    ensures (forall p | p in r' :: p in r) ==> (b.days[d].closing == LedgerNet(log, d) <==> Exact(b.days, d))
  {
    var n := |log|;
    DefinitiveIsComplete(b'.progress, r', log);
    CompleteFoldIsLedger(r', log, n, d);
    assert log[..n] == log;
    NetBeforeSplits(r, r', n, d);
    NetBeyond(b, r, r', n, d);
    PrefixIsNetBefore(b, r, d + 1);
    if forall p | p in r' :: p in r {
      NothingArrived(r, r', n, d);
    }
  }

  lemma {:induction false} NetBeyond(b: Book, r: Received, r': Received, n: nat, d: Date)
    requires BookInv(b, r) && Within(r, r') && forall p | p in r' :: p <= n
    ensures NetBefore(r, n, d + 1) == NetBefore(r, b.progress.source, d + 1)
  {
    FoldBeyond(r, b.progress.source, n, d + 1);
  }

  lemma {:induction false} TwoPosts(b: Book, first: Event, second: Event)
    requires first.position == 1 && second.position == 2
    requires Post(EMPTY_BOOK, first) == Some(b) && Post(b, second).Some?
    ensures Post(b, second).value.progress == Progress(2, 2, None)
  {
    assert Contiguous({1}, 0, 1) == 1 by {
      assert Contiguous({1}, 1, 1) == 1;
    }
    assert b.progress == Progress(1, 1, None);
    assert b.receipts.Keys == {1};
    assert b.receipts[2 := second.id].Keys == {1, 2};
    assert Contiguous({1, 2}, 1, 2) == 2 by {
      assert Contiguous({1, 2}, 2, 2) == 2;
    }
  }

  lemma {:induction false} TwoEntries(x: L.Entry, y: L.Entry, d: Date)
    requires x.date <= d && y.date <= d
    ensures LedgerNet([x, y], d) == x.Signed() + y.Signed()
  {
    assert [x, y][..1] == [x] && [x][..0] == [];
    assert LedgerNet([x], d) == x.Signed();
  }

  /** A day's closing goes stale by an event of another day: here one dated up
      to thirty days before the only row arrives between the reads. */
  lemma {:induction false} ClosingCanBeStale(b: Book, first: Event, late: Event, x: L.Entry, y: L.Entry)
    requires first.position == 1 && late.position == 2 && late.date < first.date < late.date + RECOMPUTE_SPAN_DAYS
    requires Tells(first, x) && Tells(late, y) && Post(EMPTY_BOOK, first) == Some(b) && Post(b, late).Some?
    ensures
      var b', d := Post(b, late).value, first.date;
      && Definitive(b'.progress, AnyPending(b'.jobs), Some(2))
      && d in b.days && Exact(b.days, d) && !Arrived(map[1 := first], map[1 := first, 2 := late], d)
      && b.days[d].closing == first.Net() && LedgerNet([x, y], d) == first.Net() + late.Net()
  {
    FirstPost(first);
    TwoPosts(b, first, late);
    TwoEntries(x, y, first.date);
    var b' := Post(b, late).value;
    assert IsMax(AddEffect(b.days, late), first.date);
    assert BlockEnd(late.date, first.date) == first.date;
    NoJobLeft(b, first, late);
  }

  lemma {:induction false} NoJobLeft(b: Book, first: Event, late: Event)
    requires first.position >= 1 && late.position >= 1 && late.date < first.date < late.date + RECOMPUTE_SPAN_DAYS
    requires Post(EMPTY_BOOK, first) == Some(b) && Post(b, late).Some?
    ensures !AnyPending(Post(b, late).value.jobs)
  {
    FirstPost(first);
    assert MaxDate(AddEffect(map[], first)) == first.date;
    assert b.jobs == [Job(first.date, first.date, None)];
    var days := AddEffect(b.days, late);
    assert days.Keys == {first.date, late.date};
    assert MaxDate(days) == first.date;
    assert Post(b, late).value.jobs == b.jobs + [Job(late.date, first.date, None)];
  }

  /** And with nothing arriving at all: the job a late event left is finished
      after the balances were read and before the pending jobs are. */
  lemma {:induction false} ClosingCanLagItsJob(b: Book, c: Book, first: Event, late: Event, x: L.Entry, y: L.Entry, n: nat)
    requires first.position == 1 && late.position == 2 && late.date + RECOMPUTE_SPAN_DAYS <= first.date
    requires Tells(first, x) && Tells(late, y) && Post(EMPTY_BOOK, first) == Some(b) && Post(b, late) == Some(c)
    requires Resumes(c, n).Some? && !AnyPending(Resumes(c, n).value.jobs)
    ensures
      && Definitive(Resumes(c, n).value.progress, AnyPending(Resumes(c, n).value.jobs), Some(2))
      && first.date in c.days && c.days[first.date].closing == first.Net()
      && LedgerNet([x, y], first.date) == first.Net() + late.Net()
  {
    LatePost(b, first, late);
    TwoPosts(b, first, late);
    TwoEntries(x, y, first.date);
    ResumesKeepProgress(c, n);
  }

  /** That situation arises: one resume finishes the job when the late event is
      dated exactly one block before the first. */
  lemma {:induction false} ClosingLagHappens(first: Event, late: Event)
    requires Modest(first) && Modest(late) && first.position == 1 && late.position == 2
    requires late.date + RECOMPUTE_SPAN_DAYS == first.date
    ensures Post(EMPTY_BOOK, first).Some? && Post(Post(EMPTY_BOOK, first).value, late).Some?
    ensures
      var c := Post(Post(EMPTY_BOOK, first).value, late).value;
      AnyPending(c.jobs) && Resumes(c, 1).Some? && !AnyPending(Resumes(c, 1).value.jobs)
  {
    FirstFits(first);
    var b := Post(EMPTY_BOOK, first).value;
    LateFits(b, first, late);
    FirstNet(first);
    LateJobs(b, first, late);
    LateRows(b, first, late);
    var c := Post(b, late).value;
    LastDayResumes(c, late.date, first.date);
    assert Pending(c.jobs[1]);
    assert Resumes(Resume(c).value, 0) == Some(Resume(c).value);
  }

  lemma {:induction false} LateRange(b: Book, first: Event, late: Event)
    requires first.position >= 1 && late.date + RECOMPUTE_SPAN_DAYS == first.date && Post(EMPTY_BOOK, first) == Some(b)
    ensures MaxDate(AddEffect(b.days, late)) == first.date && BlockEnd(late.date, first.date) == first.date - 1
    ensures AddEffect(b.days, late).Keys == {first.date, late.date} && b.days.Keys == {first.date}
  {
    FirstPost(first);
    var days := AddEffect(b.days, late);
    assert days.Keys == {first.date, late.date};
    assert IsMax(days, first.date);
  }

  lemma {:induction false} LateJobs(b: Book, first: Event, late: Event)
    requires first.position >= 1 && late.position >= 1 && late.date + RECOMPUTE_SPAN_DAYS == first.date
    requires Post(EMPTY_BOOK, first) == Some(b) && Post(b, late).Some?
    ensures Post(b, late).value.jobs == [Job(first.date, first.date, None), Job(late.date, first.date, Some(first.date))]
  {
    LateRange(b, first, late);
    assert MaxDate(AddEffect(map[], first)) == first.date;
    assert b.jobs == [Job(first.date, first.date, None)];
  }

  lemma {:induction false} BlockEdge(days: Days, lo: Date, hi: Date, net: int)
    requires lo <= hi && Baseline(days, lo) == 0 && Prefix(days, hi + 1) - Prefix(days, lo) == net && hi + 1 in days
    ensures var rows := Recompute(days, lo, hi); hi in rows && rows[hi].closing == net && hi + 1 in rows && rows[hi + 1] == days[hi + 1]
  {
    var rows := Recompute(days, lo, hi);
    assert hi in Materialize(days, lo, hi) && hi + 1 in Materialize(days, lo, hi);
    assert rows[hi] == Rewritten(days, lo, hi, hi) && rows[hi + 1] == Rewritten(days, lo, hi, hi + 1);
  }

  lemma {:induction false} LateEffect(b: Book, first: Event, late: Event)
    requires first.position >= 1 && late.date + RECOMPUTE_SPAN_DAYS == first.date && Post(EMPTY_BOOK, first) == Some(b)
    ensures var days := AddEffect(b.days, late);
            && Baseline(days, late.date) == 0 && Prefix(days, first.date) - Prefix(days, late.date) == late.Net()
            && first.date in days && first.date in b.days && days[first.date] == b.days[first.date]
  {
    FirstPost(first);
    BaselineCongruent(AddEffect(b.days, late), map[], late.date);
    EmptyBaseline(late.date);
    AddEffectPrefix(b.days, late, first.date);
    AddEffectPrefix(b.days, late, late.date);
  }

  lemma {:induction false} PostDays(b: Book, e: Event)
    requires e.position >= 1 && Post(b, e).Some?
    ensures Post(b, e).value.days == Recompute(AddEffect(b.days, e), e.date, BlockEnd(e.date, MaxDate(AddEffect(b.days, e))))
  {
  }

  /** The rows around the last day of the late event's block. */
  lemma {:induction false} LateRows(b: Book, first: Event, late: Event)
    requires first.position >= 1 && late.position >= 1 && late.date + RECOMPUTE_SPAN_DAYS == first.date
    requires Post(EMPTY_BOOK, first) == Some(b) && Post(b, late).Some?
    ensures
      var c, hi := Post(b, late).value, first.date - 1;
      && hi in c.days && c.days[hi].closing == late.Net()
      && first.date in c.days && first.date in b.days && c.days[first.date] == b.days[first.date]
  {
    LateRange(b, first, late);
    LateEffect(b, first, late);
    BlockEdge(AddEffect(b.days, late), late.date, first.date - 1, late.Net());
    PostDays(b, late);
  }

  lemma {:induction false} FirstNet(first: Event)
    requires first.position >= 1 && Post(EMPTY_BOOK, first).Some?
    ensures var b := Post(EMPTY_BOOK, first).value; first.date in b.days && b.days[first.date].net == first.Net()
  {
    FirstPost(first);
  }

  /** A job with one day left, between modest sums, finishes. */
  lemma {:induction false} LastDayResumes(c: Book, lo: Date, d: Date)
    requires d >= 1 && c.jobs == [Job(d, d, None), Job(lo, d, Some(d))] && d - 1 in c.days && d in c.days
    requires -1_000_000_000_000 <= c.days[d - 1].closing <= 1_000_000_000_000
    requires -1_000_000_000_000 <= c.days[d].net <= 1_000_000_000_000
    ensures Resume(c).Some? && !AnyPending(Resume(c).value.jobs)
  {
    OneJob(c.jobs);
    var rows := Recompute(c.days, d, d);
    assert Baseline(c.days, d) == c.days[d - 1].closing;
    assert Prefix(c.days, d + 1) == Prefix(c.days, d) + c.days[d].net;
    assert rows[d] == Rewritten(c.days, d, d, d);
  }

  lemma {:induction false} OneJob(jobs: seq<Job>)
    requires |jobs| == 2 && !Pending(jobs[0]) && Pending(jobs[1])
    ensures NextJob(jobs) == Some(1)
  {
    assert jobs != [];
    var r := NextJob(jobs);
    assert r.Some? ==> IsNextJob(jobs, r.value);
  }

  lemma {:induction false} ResumesKeepProgress(b: Book, n: nat)
    requires Resumes(b, n).Some?
    ensures Resumes(b, n).value.progress == b.progress
    decreases n
  {
    if n > 0 {
      ResumesKeepProgress(Resume(b).value, n - 1);
    }
  }

  /** Such an answer exists: the first event of a merchant, accepted between
      the two reads, leaves its day empty in a definitive answer. */
  lemma {:induction false} DefinitiveCanBeStale(e: Event, entry: L.Entry)
    requires e.position == 1 && Tells(e, entry) && Post(EMPTY_BOOK, e).Some?
    ensures
      var b := Post(EMPTY_BOOK, e).value;
      && Definitive(b.progress, AnyPending(b.jobs), Some(1))
      && RowOf(EMPTY_BOOK.days, e.date) == None
      && LedgerTotals([entry], e.date).count == 1
  {
    var b := Post(EMPTY_BOOK, e).value;
    assert MaxDate(AddEffect(map[], e)) == e.date;
    assert b.jobs == [Job(e.date, e.date, None)];
    assert Contiguous({1}, 0, 1) == 1;
    assert [entry][..0] == [];
  }
}
