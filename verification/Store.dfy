/** The projection store: the tables updated in place, statement by statement,
    each transaction proved against its effect in module Projection. */
module Store {
  import opened Domain
  import opened Projection
  import opened Invariants
  import opened Fingerprint
  import opened Identity
  import opened Answers

  /* ---- The statements of a transaction ---- */

  /** Walks the received positions upward from the applied one. */
  method ContiguousFrom(received: set<int>, applied: nat, source: nat) returns (n: nat)
    ensures n == Contiguous(received, applied, source)
  {
    n := applied;
    while n < source && n + 1 in received
      invariant Contiguous(received, n, source) == Contiguous(received, applied, source)
    {
      n := n + 1;
    }
  }

  /** The closing of the latest row before d, scanning downward. */
  method ReadBaseline(days: Days, d: Date) returns (amount: int)
    ensures amount == Baseline(days, d)
  {
    var x := d;
    while x > 0 && x - 1 !in days
      invariant 0 <= x <= d && Baseline(days, x) == Baseline(days, d)
    {
      x := x - 1;
    }
    amount := if x == 0 then 0 else days[x - 1].closing;
  }

  /** Inserts the missing rows of [lo, hi]. */
  method InsertCalendar(days: Days, lo: Date, hi: Date) returns (rows: Days)
    requires lo <= hi
    ensures rows == Materialize(days, lo, hi)
  {
    rows := days;
    var d := lo;
    while d <= hi
      invariant lo <= d <= hi + 1
      invariant rows == if d == lo then days else Materialize(days, lo, d - 1)
    {
      if d !in rows {
        rows := rows[d := EMPTY_DAY];
      }
      d := d + 1;
    }
  }

  /** Materialises a block and rewrites its closings from a running sum. */
  method RecomputeBlock(days: Days, lo: Date, hi: Date) returns (rows: Days)
    requires lo <= hi
    ensures rows == Recompute(days, lo, hi)
  {
    var running := ReadBaseline(days, lo);
    rows := InsertCalendar(days, lo, hi);
    ghost var materialized := rows;
    var d := lo;
    while d <= hi
      invariant lo <= d <= hi + 1
      invariant running == Baseline(days, lo) + Prefix(days, d) - Prefix(days, lo)
      invariant rows.Keys == materialized.Keys
      invariant forall x: Date | x in rows ::
        rows[x] == if lo <= x < d then Rewritten(days, lo, hi, x) else materialized[x]
    {
      running := running + rows[d].net;
      rows := rows[d := rows[d].(closing := running)];
      d := d + 1;
    }
    assert rows.Keys == Recompute(days, lo, hi).Keys;
  }

  /** The latest date with a row. */
  method LatestDate(days: Days) returns (d: Date)
    requires days != map[]
    ensures d == MaxDate(days)
  {
    d :| d in days;
    var rest := days.Keys - {d};
    while rest != {}
      invariant d in days && rest <= days.Keys
      invariant forall x | x in days && x !in rest :: x <= d
      decreases rest
    {
      var x :| x in rest;
      if x > d {
        d := x;
      }
      rest := rest - {x};
    }
  }

  /** The pending job with the smallest next date, the oldest among equals. */
  method SelectJob(jobs: seq<Job>) returns (r: Option<nat>)
    ensures r == NextJob(jobs)
  {
    r := None;
    for k := 0 to |jobs|
      invariant r == NextJob(jobs[..k])
    {
      assert jobs[..k + 1][..k] == jobs[..k];
      if Pending(jobs[k]) && (r.None? || jobs[k].next.value < jobs[r.value].next.value) {
        r := Some(k);
      }
    }
    assert jobs[..|jobs|] == jobs;
  }

  method ClosingsInRange(days: Days, lo: Date, hi: Date) returns (ok: bool)
    ensures ok == ClosingsFit(days, lo, hi)
  {
    ok := true;
    var d := lo;
    while d <= hi
      invariant d <= hi ==> lo <= d
      invariant ok == forall x: Date | lo <= x < d && x <= hi && x in days :: FitsInt64(days[x].closing)
      decreases hi + 1 - d
    {
      if d in days && !FitsInt64(days[d].closing) {
        ok := false;
      }
      d := d + 1;
    }
  }

  lemma {:induction false} FingerprintDecides(fp: Event -> string, s: State, row: Event, event: Event)
    requires CollisionFree(fp) && InboxSound(s) && event.Valid() && Clash(s, event.Canonical()) == Some(row)
    ensures fp(row) == fp(event.Canonical()) <==> row == event.Canonical()
  {
    ClashSound(s, event.Canonical());
    CanonicalSound(event);
    if fp(row) == fp(event.Canonical()) {
      SameFingerprint(fp, row, event.Canonical());
    }
  }

  /* ---- The store ---- */

  class Store {
    const fingerprint: Event -> string
    var inbox: map<string, Event>
    var books: map<string, Book>

    function Tables(): State
      reads this
    {
      State(inbox, books)
    }

    /** The unique and check constraints of the schema, and the agreement of
        rows, progress and jobs with the accepted events. */
    ghost predicate Valid()
      reads this
    {
      Inv(Tables())
    }

    constructor (fingerprint: Event -> string)
      ensures Valid() && Tables() == EMPTY && this.fingerprint == fingerprint
    {
      this.fingerprint := fingerprint;
      inbox, books := map[], map[];
      new;
      EmptyInv();
    }

    /** Accepts, recognises or rejects one event; a rejected event leaves
        every table as it was. */
    method Apply(event: Event) returns (outcome: Outcome)
      requires Valid()
      modifies this
      ensures Valid()
      ensures (Tables(), outcome) == Projection.Apply(fingerprint, old(Tables()), event)
      ensures outcome.Ok() ==> Truthful(Tables(), ToLower(event.merchant), outcome.progress, outcome.pending)
    {
      ApplyKeepsInv(fingerprint, Tables(), event);
      AnswerIsTruthful(fingerprint, Tables(), event);
      if !event.Valid() {
        return Invalid;
      }
      var e := event.Canonical();
      var clash := Clash(Tables(), e);
      if clash.Some? {
        outcome := ResolveDuplicate(clash.value, event);
      } else {
        outcome := Project(e);
      }
    }

    /** Settles a delivery whose event clashes with an inbox row: it is a
        duplicate exactly when that row is the event itself, when the
        fingerprint tells events apart; the answer tells how far its merchant
        has come. */
    method ResolveDuplicate(row: Event, event: Event) returns (outcome: Outcome)
      requires event.Valid() && Clash(Tables(), event.Canonical()) == Some(row)
      ensures (Tables(), outcome) == Projection.Apply(fingerprint, Tables(), event)
      ensures CollisionFree(fingerprint) && InboxSound(Tables()) ==>
                (outcome.Duplicate? <==> row == event.Canonical()) && (outcome == Conflict <==> row != event.Canonical())
      ensures Inv(Tables()) && outcome.Duplicate? ==>
                Truthful(Tables(), ToLower(event.merchant), outcome.progress, outcome.pending)
    {
      var e := event.Canonical();
      if Inv(Tables()) {
        AnswerIsTruthful(fingerprint, Tables(), event);
      }
      if CollisionFree(fingerprint) && InboxSound(Tables()) {
        FingerprintDecides(fingerprint, Tables(), row, event);
      }
      if row.merchant != e.merchant || row.position != e.position || fingerprint(row) != fingerprint(e) {
        return Conflict;
      }
      var b := BookOf(Tables(), e.merchant);
      return Duplicate(b.progress, AnyPending(b.jobs));
    }

    /** Files a fresh event: inbox, receipt, totals, closings, job, progress;
        an overflow rolls all of them back. */
    method Project(e: Event) returns (outcome: Outcome)
      requires e.position >= 1
      modifies this
      ensures
        match Post(BookOf(old(Tables()), e.merchant), e)
        case None => Tables() == old(Tables()) && outcome == Conflict
        case Some(b) =>
          && Tables() == File(old(Tables()), e, b)
          && outcome == Applied(b.progress, e.date,
                                BlockEnd(e.date, MaxDate(AddEffect(BookOf(old(Tables()), e.merchant).days, e))),
                                AnyPending(b.jobs))
    {
      var savedInbox, savedBooks := inbox, books;
      var b := BookOf(Tables(), e.merchant);

      inbox := inbox[e.id := e];
      b := b.(receipts := b.receipts[e.position := e.id], days := AddEffect(b.days, e));
      var fits := TotalsFit(b.days[e.date]);

      var through := LatestDate(b.days);
      var end := BlockEnd(e.date, through);
      var rows := RecomputeBlock(b.days, e.date, end);
      var closings := ClosingsInRange(rows, e.date, end);
      var job := Advance(Job(e.date, through, Some(e.date)), end);
      b := b.(days := rows, jobs := b.jobs + [job]);

      var source := if e.position > b.progress.source then e.position else b.progress.source;
      var applied := ContiguousFrom(b.receipts.Keys, b.progress.applied, source);
      b := b.(progress := Progress(source, applied, if applied < source then Some(applied + 1) else None));

      books := books[e.merchant := b];
      outcome := Applied(b.progress, e.date, end, AnyPending(b.jobs));
      if !fits || !closings {
        inbox, books := savedInbox, savedBooks;
        outcome := Conflict;
      }
    }

    /** Processes at most one block of the merchant's pending jobs. */
    method ResumeNext(merchant: string) returns (processed: bool)
      requires Valid()
      modifies this
      ensures Valid()
      ensures Tables() == Projection.ResumeNext(old(Tables()), merchant)
      ensures processed <==> Tables() != old(Tables())
    {
      ghost var before := Tables();
      ResumeKeepsInv(before, merchant);
      var m := ToLower(merchant);
      if m !in books {
        return false;
      }
      var b := books[m];
      var selected := SelectJob(b.jobs);
      if selected.None? {
        assert before.books[m := b] == before.books;
        return false;
      }
      var job := b.jobs[selected.value];
      assert JobsWellFormed(BookOf(before, m));
      var end := BlockEnd(job.next.value, job.through);
      var rows := RecomputeBlock(b.days, job.next.value, end);
      var closings := ClosingsInRange(rows, job.next.value, end);
      if !closings {
        return false;
      }
      b := b.(days := rows, jobs := b.jobs[selected.value := Advance(job, end)]);
      books := books[m := b];
      return true;
    }
  }
}
