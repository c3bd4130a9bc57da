/** The projection tables of the consolidation service and the effect of each
    of its transactions on them. */
module Projection {
  import opened Domain

  const RECOMPUTE_SPAN_DAYS: nat := 31

  /** A daily_balance row. */
  datatype Day = Day(credits: int, debits: int, net: int, count: int, closing: int)

  const EMPTY_DAY := Day(0, 0, 0, 0, 0)

  type Days = map<Date, Day>

  /** A recompute_job row; next is None once the job is completed. */
  datatype Job = Job(from: Date, through: Date, next: Option<Date>)

  /** A merchant_progress row. */
  datatype Progress = Progress(source: nat, applied: nat, gap: Option<nat>)

  /** The rows of one merchant.  receipts is the unique index (merchant,
      position) -> event id that inbox_event and position_receipt share; jobs
      is ordered by the generated job id. */
  datatype Book = Book(receipts: map<int, string>, days: Days, jobs: seq<Job>, progress: Progress)

  const EMPTY_BOOK := Book(map[], map[], [], Progress(0, 0, None))

  /** inbox is keyed by its primary key, the event id. */
  datatype State = State(inbox: map<string, Event>, books: map<string, Book>)

  const EMPTY := State(map[], map[])

  function BookOf(s: State, merchant: string): Book {
    if merchant in s.books then s.books[merchant] else EMPTY_BOOK
  }

  /* ---- Closing balances, one block at a time ---- */

  function NetOn(days: Days, d: Date): int {
    if d in days then days[d].net else 0
  }

  /** The sum of net over every row dated before d. */
  function Prefix(days: Days, d: Date): int {
    if d == 0 then 0 else Prefix(days, d - 1) + NetOn(days, d - 1)
  }

  /** The closing balance of the latest row dated before d, or zero. */
  function Baseline(days: Days, d: Date): int {
    if d == 0 then 0
    else if d - 1 in days then days[d - 1].closing
    else Baseline(days, d - 1)
  }

  /** The row the calendar insert writes for a day without one. */
  function BlankRow(d: Date): Day { EMPTY_DAY }

  function Materialize(days: Days, lo: Date, hi: Date): Days {
    (map d: Date | lo <= d <= hi :: BlankRow(d)) + days
  }

  function BlockEnd(next: Date, through: Date): Date {
    if next + RECOMPUTE_SPAN_DAYS - 1 > through then through else next + RECOMPUTE_SPAN_DAYS - 1
  }

  /** The row of day d after the block [lo, hi]: inside the block its closing
      is the baseline plus the running sum of net from lo. */
  function Rewritten(days: Days, lo: Date, hi: Date, d: Date): Day {
    var row := if d in days then days[d] else BlankRow(d);
    if lo <= d <= hi
    then row.(closing := Baseline(days, lo) + Prefix(days, d + 1) - Prefix(days, lo))
    else row
  }

  /** The daily rows after one block; every day of the block is materialised. */
  function Recompute(days: Days, lo: Date, hi: Date): Days {
    map d: Date | d in Materialize(days, lo, hi) :: Rewritten(days, lo, hi, d)
  }

  /** No closing of the block leaves the bigint range. */
  predicate ClosingsFit(days: Days, lo: Date, hi: Date) {
    forall d: Date | lo <= d <= hi && d in days :: FitsInt64(days[d].closing)
  }

  /** The job after its block ending at hi. */
  function Advance(job: Job, hi: Date): Job {
    job.(next := if hi < job.through then Some(hi + 1) else None)
  }

  /* ---- Progress ---- */

  /** The end of the run of received positions that starts after applied. */
  function Contiguous(received: set<int>, applied: nat, source: nat): nat
    decreases source - applied
  {
    if applied < source && applied + 1 in received
    then Contiguous(received, applied + 1, source)
    else applied
  }

  function AdvanceProgress(p: Progress, received: set<int>, position: nat): Progress {
    var source := if position > p.source then position else p.source;
    var applied := Contiguous(received, p.applied, source);
    Progress(source, applied, if applied < source then Some(applied + 1) else None)
  }

  /* ---- Accepting an event ---- */

  predicate IsMax(days: Days, d: Date) {
    d in days && forall x | x in days :: x <= d
  }

  lemma {:induction false} MaxExists(days: Days)
    requires days != map[]
    ensures exists d :: IsMax(days, d)
    decreases |days|
  {
    var x :| x in days;
    var rest := days - {x};
    assert days.Keys == rest.Keys + {x};
    if rest == map[] {
      assert IsMax(days, x);
    } else {
      assert |rest.Keys| < |days.Keys|;
      MaxExists(rest);
      var y :| IsMax(rest, y);
      assert IsMax(days, if x > y then x else y);
    }
  }

  function MaxDate(days: Days): (d: Date)
    requires days != map[]
    ensures IsMax(days, d)
  {
    MaxExists(days);
    var d :| d in days && IsMax(days, d);
    d
  }

  function AddEffect(days: Days, e: Event): Days {
    var row := if e.date in days then days[e.date] else EMPTY_DAY.(closing := e.Net());
    days[e.date := Day(row.credits + e.Credits(), row.debits + e.Debits(), row.net + e.Net(),
                       row.count + 1, row.closing)]
  }

  predicate TotalsFit(row: Day) {
    FitsInt64(row.credits) && FitsInt64(row.debits) && FitsInt64(row.net) && FitsInt64(row.count)
  }

  /** The book after accepting a new event, or None when a column would
      overflow, which rolls the whole transaction back. */
  function Post(b: Book, e: Event): Option<Book>
    requires e.position >= 1
  {
    var days := AddEffect(b.days, e);
    var through := MaxDate(days);
    var end := BlockEnd(e.date, through);
    var rows := Recompute(days, e.date, end);
    if !TotalsFit(days[e.date]) || !ClosingsFit(rows, e.date, end) then None
    else
      var receipts := b.receipts[e.position := e.id];
      Some(Book(receipts, rows, b.jobs + [Advance(Job(e.date, through, Some(e.date)), end)],
                AdvanceProgress(b.progress, receipts.Keys, e.position)))
  }

  /* ---- Resuming the durable jobs ---- */

  predicate Pending(job: Job) { job.next.Some? }

  /** Job i is the one ORDER BY next_date, id selects. */
  predicate IsNextJob(jobs: seq<Job>, i: nat) {
    && i < |jobs| && Pending(jobs[i])
    && (forall k | 0 <= k < |jobs| && Pending(jobs[k]) :: jobs[i].next.value <= jobs[k].next.value)
    && (forall k | 0 <= k < i && Pending(jobs[k]) :: jobs[i].next.value < jobs[k].next.value)
  }

  function NextJob(jobs: seq<Job>): (r: Option<nat>)
    ensures r.None? ==> forall k | 0 <= k < |jobs| :: !Pending(jobs[k])
    ensures r.Some? ==> IsNextJob(jobs, r.value)
  {
    if jobs == [] then None
    else
      var n := |jobs| - 1;
      var r := NextJob(jobs[..n]);
      if !Pending(jobs[n]) then r
      else if r.None? || jobs[n].next.value < jobs[r.value].next.value then Some(n)
      else r
  }

  predicate AnyPending(jobs: seq<Job>) {
    exists i | 0 <= i < |jobs| :: Pending(jobs[i])
  }

  /** One ResumeNext on a book: unchanged without a pending job, None when a
      closing would overflow. */
  function Resume(b: Book): Option<Book> {
    match NextJob(b.jobs)
    case None => Some(b)
    case Some(i) =>
      var job := b.jobs[i];
      var end := BlockEnd(job.next.value, job.through);
      var rows := Recompute(b.days, job.next.value, end);
      if !ClosingsFit(rows, job.next.value, end) then None
      else Some(b.(days := rows, jobs := b.jobs[i := Advance(job, end)]))
  }

  /* ---- The transactions ---- */

  datatype Outcome =
    | Applied(progress: Progress, from: Date, through: Date, pending: bool)
    | Duplicate(progress: Progress, pending: bool)
    | Invalid
    | Conflict
  {
    predicate Ok() { Applied? || Duplicate? }
  }

  /** The inbox row a uniqueness conflict is resolved against: the one with
      the same event id, else the one at the same merchant position. */
  function Clash(s: State, e: Event): Option<Event> {
    if e.id in s.inbox then Some(s.inbox[e.id])
    else
      var receipts := BookOf(s, e.merchant).receipts;
      if e.position in receipts && receipts[e.position] in s.inbox
      then Some(s.inbox[receipts[e.position]])
      else None
  }

  /** Apply, as one transaction.  fp is the payload fingerprint. */
  function Apply(fp: Event -> string, s: State, event: Event): (State, Outcome) {
    if !event.Valid() then (s, Invalid)
    else
      var e := event.Canonical();
      var b := BookOf(s, e.merchant);
      match Clash(s, e)
      case Some(row) =>
        if row.merchant != e.merchant || row.position != e.position || fp(row) != fp(e)
        then (s, Conflict)
        else (s, Duplicate(b.progress, AnyPending(b.jobs)))
      case None =>
        match Post(b, e)
        case None => (s, Conflict)
        case Some(b') =>
          (State(s.inbox[e.id := e], s.books[e.merchant := b']),
           Applied(b'.progress, e.date, BlockEnd(e.date, MaxDate(AddEffect(b.days, e))), AnyPending(b'.jobs)))
  }

  /** ResumeNext, as one transaction; an overflow leaves the state unchanged. */
  function ResumeNext(s: State, merchant: string): State {
    var m := ToLower(merchant);
    if m !in s.books then s
    else
      match Resume(s.books[m])
      case None => s
      case Some(b) => s.(books := s.books[m := b])
  }
}
