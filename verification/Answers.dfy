/** What the projection answers to a delivery, told by the inbox and the stored
    rows alone. */
module Answers {
  import opened Domain
  import opened Projection
  import opened Invariants
  import opened Fingerprint
  import opened Identity
  import R = Runs

  /** An event of merchant m at position p is in the inbox. */
  ghost predicate Has(s: State, m: string, p: int) {
    exists k :: k in s.inbox && s.inbox[k].merchant == m && s.inbox[k].position == p
  }

  /** source is the largest position received from the merchant, applied the
      largest n with 1..n received, gap the position after it when something
      beyond was received, and pending says whether one of its jobs is left. */
  ghost predicate Truthful(s: State, m: string, p: Progress, pending: bool) {
    && (forall n | Has(s, m, n) :: 1 <= n <= p.source)
    && (p.source > 0 ==> Has(s, m, p.source))
    && p.applied <= p.source
    && (forall n | 1 <= n <= p.applied :: Has(s, m, n))
    && !Has(s, m, p.applied + 1)
    && p.gap == (if p.applied < p.source then Some(p.applied + 1) else None)
    && (pending <==> exists i :: 0 <= i < |BookOf(s, m).jobs| && BookOf(s, m).jobs[i].next.Some?)
  }

  lemma {:induction false} HasIff(s: State, m: string, p: int)
    requires Mirror(s)
    ensures Has(s, m, p) <==> p in ReceivedBy(s, m).Keys
  {
    if Has(s, m, p) {
      var k :| k in s.inbox && s.inbox[k].merchant == m && s.inbox[k].position == p;
      assert Indexed(s, k, s.inbox[k]);
    }
    if p in ReceivedBy(s, m).Keys {
      assert Filed(s, m, p, BookOf(s, m).receipts[p]);
    }
  }

  lemma {:induction false} ProgressTells(s: State, m: string, p: Progress, jobs: seq<Job>, received: set<int>)
    requires ProgressInv(p, received) && jobs == BookOf(s, m).jobs && forall n :: Has(s, m, n) <==> n in received
    ensures Truthful(s, m, p, AnyPending(jobs))
  {
    assert forall i | 0 <= i < |jobs| :: Pending(jobs[i]) <==> jobs[i].next.Some?;
  }

  lemma {:induction false} BookKept(s: State, m: string)
    requires Inv(s)
    ensures ProgressInv(BookOf(s, m).progress, ReceivedBy(s, m).Keys) && Mirror(s)
  {
    assert BookInv(BookOf(s, m), ReceivedBy(s, m));
  }

  lemma {:induction false} ProgressIsTruthful(s: State, m: string)
    requires Inv(s)
    ensures Truthful(s, m, BookOf(s, m).progress, AnyPending(BookOf(s, m).jobs))
  {
    BookKept(s, m);
    var received := ReceivedBy(s, m).Keys;
    forall p
      ensures Has(s, m, p) <==> p in received
    {
      HasIff(s, m, p);
    }
    ProgressTells(s, m, BookOf(s, m).progress, BookOf(s, m).jobs, received);
  }

  /** The answer to an accepted or redelivered event. */
  lemma {:induction false} AnswerShows(fp: Event -> string, s: State, event: Event)
    ensures
      var (s', o) := Apply(fp, s, event);
      var b := BookOf(s', ToLower(event.merchant));
      o.Ok() ==> o.progress == b.progress && o.pending == AnyPending(b.jobs)
  {
  }

  lemma {:induction false} AnswerIsTruthful(fp: Event -> string, s: State, event: Event)
    requires Inv(s)
    ensures var (s', o) := Apply(fp, s, event); o.Ok() ==> Truthful(s', ToLower(event.merchant), o.progress, o.pending)
  {
    ApplyKeepsInv(fp, s, event);
    AnswerShows(fp, s, event);
    ProgressIsTruthful(Apply(fp, s, event).0, ToLower(event.merchant));
  }

  /** Over every run: the answer to an accepted event and to a redelivered one
      tells the positions received so far and whether a recompute is left. */
  lemma {:induction false} EveryAnswerIsTruthful(fp: Event -> string, steps: seq<R.Step>, event: Event)
    ensures
      var (s', o) := Apply(fp, R.Run(fp, steps), event);
      o.Ok() ==> Truthful(s', ToLower(event.merchant), o.progress, o.pending)
  {
    R.EveryRunKeepsInv(fp, steps);
    AnswerIsTruthful(fp, R.Run(fp, steps), event);
  }

  /* ---- Which answer it is ---- */

  lemma {:induction false} ClashIff(s: State, e: Event)
    requires Inv(s)
    ensures Clash(s, e).Some? <==> e.id in s.inbox || Has(s, e.merchant, e.position)
    ensures e.id in s.inbox ==> Clash(s, e) == Some(s.inbox[e.id])
  {
    HasIff(s, e.merchant, e.position);
    var receipts := BookOf(s, e.merchant).receipts;
    if e.position in receipts {
      assert Filed(s, e.merchant, e.position, receipts[e.position]);
      assert Indexed(s, receipts[e.position], s.inbox[receipts[e.position]]);
    }
  }

  lemma {:induction false} CanonicalVerdict(fp: Event -> string, s: State, event: Event)
    ensures
      var e, o := event.Canonical(), Apply(fp, s, event).1;
      && (o == Invalid <==> !event.Valid())
      && (event.Valid() ==>
            && (o.Duplicate? <==> Matches(fp, s, e))
            && (o.Applied? <==> Clash(s, e).None? && 1 <= e.position && Post(BookOf(s, e.merchant), e).Some?))
  {
    if event.Valid() {
      CanonicalStable(event);
    }
  }

  lemma {:induction false} MatchIsHeld(fp: Event -> string, s: State, e: Event)
    requires CollisionFree(fp) && InboxSound(s) && Sound(e) && (e.id in s.inbox ==> Clash(s, e) == Some(s.inbox[e.id]))
    ensures Matches(fp, s, e) <==> Holds(s, e)
  {
    ClashSound(s, e);
    if Matches(fp, s, e) {
      SameFingerprint(fp, Clash(s, e).value, e);
    }
  }

  lemma {:induction false} RunIsSound(fp: Event -> string, steps: seq<R.Step>)
    requires CollisionFree(fp)
    ensures InboxSound(R.Run(fp, steps))
  {
    if steps != [] {
      var n := |steps| - 1;
      RunIsSound(fp, steps[..n]);
      match steps[n]
      case Deliver(e) => ApplyHolds(fp, R.Run(fp, steps[..n]), e);
      case Recover(m) => ResumeCases(R.Run(fp, steps[..n]), m);
    }
  }

  /** Over every run, with a fingerprint that tells events apart: an event is
      invalid by its own content alone, a duplicate exactly when it is in the
      inbox, and accepted exactly when neither its id nor its position is taken
      and no column would overflow; everything else is a conflict. */
  lemma {:induction false} VerdictIs(fp: Event -> string, steps: seq<R.Step>, event: Event)
    requires CollisionFree(fp)
    ensures
      var s, e := R.Run(fp, steps), event.Canonical();
      var o := Apply(fp, s, event).1;
      var taken := e.id in s.inbox || Has(s, e.merchant, e.position);
      && (o == Invalid <==> !event.Valid())
      && (o.Duplicate? <==> event.Valid() && Holds(s, e))
      && (o.Applied? <==> event.Valid() && !taken && 1 <= e.position && Post(BookOf(s, e.merchant), e).Some?)
      && (o == Conflict <==> !o.Duplicate? && !o.Applied? && event.Valid())
  {
    var s, e := R.Run(fp, steps), event.Canonical();
    R.EveryRunKeepsInv(fp, steps);
    RunIsSound(fp, steps);
    CanonicalVerdict(fp, s, event);
    ClashIff(s, e);
    if event.Valid() {
      CanonicalSound(event);
      MatchIsHeld(fp, s, e);
    }
  }

  /* ---- What is stored ---- */

  /** Every inbox row of every run is of the one type, currency and kinds there
      are, with a positive int64 amount and position, and lower-case ids. */
  lemma {:induction false} EveryRowIsWellFormed(fp: Event -> string, steps: seq<R.Step>, k: string)
    requires CollisionFree(fp) && k in R.Run(fp, steps).inbox
    ensures
      var e := R.Run(fp, steps).inbox[k];
      && e.eventType == "ledger.entry.confirmed.v1" && e.currency == "BRL" && (e.entryType == "credit" || e.entryType == "debit")
      && 1 <= e.amount <= 0x7fff_ffff_ffff_ffff && 1 <= e.position <= 0x7fff_ffff_ffff_ffff
      && e.id == k && IsLowerUuid(e.id) && IsLowerUuid(e.merchant) && IsLowerUuid(e.entryId)
      && (e.original.Some? ==> IsLowerUuid(e.original.value))
      && |e.traceparent| == 55 && e.traceparent[2] == '-' && e.traceparent[35] == '-' && e.traceparent[52] == '-'
      && e.occurredAt != 0 && e.confirmedAt != 0 && e.date != 366
  {
    RunIsSound(fp, steps);
    var e := R.Run(fp, steps).inbox[k];
    assert Sound(e);
    UuidIff(e.id);
    UuidIff(e.merchant);
    UuidIff(e.entryId);
    if e.original.Some? {
      UuidIff(e.original.value);
    }
  }

  /** Lower-case hexadecimal digits in groups of 8, 4, 4, 4 and 12, with a version
      from 1 to 8 and the variant of RFC 9562. */
  predicate IsLowerUuid(s: string) {
    && |s| == 36 && s[8] == '-' && s[13] == '-' && s[18] == '-' && s[23] == '-'
    && (forall i | 0 <= i < 36 && i != 8 && i != 13 && i != 18 && i != 23 :: '0' <= s[i] <= '9' || 'a' <= s[i] <= 'f')
    && '1' <= s[14] <= '8' && (s[19] == '8' || s[19] == '9' || s[19] == 'a' || s[19] == 'b')
  }

  lemma {:induction false} UuidIff(s: string)
    ensures IsUuid(s) <==> IsLowerUuid(ToLower(s))
  {
    if |s| == 36 {
      forall i | 0 <= i < 36
        ensures s[i] == '-' <==> ToLower(s)[i] == '-'
        ensures IsHex(s[i]) <==> '0' <= ToLower(s)[i] <= '9' || 'a' <= ToLower(s)[i] <= 'f'
      {
        assert ToLower(s)[i] == LowerChar(s[i]);
      }
      assert ToLower(s)[14] == LowerChar(s[14]) && ToLower(s)[19] == LowerChar(s[19]);
    }
  }

  /** Every column of every daily row is a bigint. */
  ghost predicate ColumnsFit(b: Book) {
    forall d | d in b.days :: RowFits(b.days[d])
  }

  predicate RowFits(row: Day) {
    && -0x8000_0000_0000_0000 <= row.credits <= 0x7fff_ffff_ffff_ffff
    && -0x8000_0000_0000_0000 <= row.debits <= 0x7fff_ffff_ffff_ffff
    && -0x8000_0000_0000_0000 <= row.net <= 0x7fff_ffff_ffff_ffff
    && -0x8000_0000_0000_0000 <= row.count <= 0x7fff_ffff_ffff_ffff
    && -0x8000_0000_0000_0000 <= row.closing <= 0x7fff_ffff_ffff_ffff
  }

  lemma {:induction false} RecomputeFits(days: Days, lo: Date, hi: Date)
    requires ClosingsFit(Recompute(days, lo, hi), lo, hi)
    requires forall d | d in days :: RowFits(days[d].(closing := 0)) && (!(lo <= d <= hi) ==> RowFits(days[d]))
    ensures forall d | d in Recompute(days, lo, hi) :: RowFits(Recompute(days, lo, hi)[d])
  {
    forall d | d in Recompute(days, lo, hi)
      ensures RowFits(Recompute(days, lo, hi)[d])
    {
      assert Recompute(days, lo, hi)[d] == Rewritten(days, lo, hi, d);
      if d in days {
        assert RowFits(days[d].(closing := 0));
      }
    }
  }

  lemma {:induction false} PostKeepsColumns(b: Book, e: Event)
    requires ColumnsFit(b) && e.position >= 1 && Post(b, e).Some?
    ensures ColumnsFit(Post(b, e).value)
  {
    var days := AddEffect(b.days, e);
    var end := BlockEnd(e.date, MaxDate(days));
    forall d | d in days
      ensures RowFits(days[d].(closing := 0)) && (!(e.date <= d <= end) ==> RowFits(days[d]))
    {
      assert d != e.date ==> d in b.days && days[d] == b.days[d];
    }
    RecomputeFits(days, e.date, end);
  }

  lemma {:induction false} ResumeKeepsColumns(b: Book)
    requires ColumnsFit(b) && Resume(b).Some?
    ensures ColumnsFit(Resume(b).value)
  {
    match NextJob(b.jobs)
    case None =>
    case Some(i) =>
      var job := b.jobs[i];
      RecomputeFits(b.days, job.next.value, BlockEnd(job.next.value, job.through));
  }

  /** A value that would leave the bigint range is never stored: every column of
      every daily row of every run fits. */
  lemma {:induction false} EveryRunFits(fp: Event -> string, steps: seq<R.Step>, m: string)
    ensures ColumnsFit(BookOf(R.Run(fp, steps), m))
  {
    if steps != [] {
      var n := |steps| - 1;
      var s := R.Run(fp, steps[..n]);
      EveryRunFits(fp, steps[..n], m);
      match steps[n]
      case Deliver(event) =>
        ApplyCases(fp, s, event);
        var e := event.Canonical();
        if Apply(fp, s, event).1.Applied? && e.merchant == m {
          PostKeepsColumns(BookOf(s, m), e);
        }
      case Recover(merchant) =>
        ResumeCases(s, merchant);
        if m in s.books && ToLower(merchant) == m && Resume(BookOf(s, m)).Some? {
          ResumeKeepsColumns(BookOf(s, m));
        }
    }
  }

  /* ---- What was recalculated ---- */

  /** The range an accepted event reports: from its own date, at most thirty days
      on, and up to the merchant's latest row if that is nearer; every day of it
      has a row.  What lies beyond is left to one new job. */
  ghost predicate Recalculated(b: Book, b': Book, date: Date, from: Date, through: Date) {
    && from == date <= through <= date + 30
    && (forall d | from <= d <= through :: d in b'.days)
    && (through < date + 30 ==> forall d | d in b'.days :: d <= through)
    && |b'.jobs| == |b.jobs| + 1 && b'.jobs[..|b.jobs|] == b.jobs
    && var job := b'.jobs[|b.jobs|];
       && job.from == date && job.through in b'.days && (forall d | d in b'.days :: d <= job.through)
       && job.next == if through < job.through then Some(through + 1) else None
  }

  lemma {:induction false} PostRecalculates(b: Book, e: Event)
    requires e.position >= 1 && Post(b, e).Some?
    ensures Recalculated(b, Post(b, e).value, e.date, e.date, BlockEnd(e.date, MaxDate(AddEffect(b.days, e))))
  {
    var days := AddEffect(b.days, e);
    var through := MaxDate(days);
    var end := BlockEnd(e.date, through);
    var rows := Recompute(days, e.date, end);
    assert e.date in days && e.date <= through;
    assert rows.Keys == Materialize(days, e.date, end).Keys;
    forall d | d in rows
      ensures d <= through
    {
    }
  }

  lemma {:induction false} EveryRangeIsRecalculated(fp: Event -> string, steps: seq<R.Step>, event: Event)
    requires Apply(fp, R.Run(fp, steps), event).1.Applied?
    ensures
      var (s', o) := Apply(fp, R.Run(fp, steps), event);
      var m := ToLower(event.merchant);
      Recalculated(BookOf(R.Run(fp, steps), m), BookOf(s', m), event.date, o.from, o.through)
  {
    var s, e := R.Run(fp, steps), event.Canonical();
    ApplyCases(fp, s, event);
    AppliedRange(fp, s, event);
    PostRecalculates(BookOf(s, e.merchant), e);
  }

  lemma {:induction false} AppliedRange(fp: Event -> string, s: State, event: Event)
    requires Apply(fp, s, event).1.Applied?
    ensures
      var o, e := Apply(fp, s, event).1, event.Canonical();
      o.from == e.date == event.date && o.through == BlockEnd(e.date, MaxDate(AddEffect(BookOf(s, e.merchant).days, e)))
  {
  }
}
