/** Reprocessing what was isolated: one clean pass over dead letters that parse
    settles them all, and a pipeline that is otherwise idle is then quiet. */
module Recovery {
  import opened Domain
  import opened Projection
  import opened Invariants
  import opened Identity
  import opened Consumer
  import opened Reprocessing
  import opened Capacity
  import R = Runs
  import opened Pipeline
  import opened Isolation

  /** The committed events in canonical form. */
  function Roots(s: System): set<Event> {
    set id | id in s.events :: s.events[id].Canonical()
  }

  /** What the ledger commits for: valid events, none conflicting with another,
      each merchant's amounts summing within int64. */
  ghost predicate WellFed(es: set<Event>) {
    AllSound(es) && R.NonConflicting(es) && AmountsFit(es)
  }

  lemma {:induction false} MovedKeepsBounded(fp: Event -> string, p: State, p': State)
    requires Inv(p) && StateBounded(p) && Moved(fp, p, p')
    ensures StateBounded(p')
  {
    if e :| p' == Apply(fp, p, e).0 {
      ApplyKeepsStateBounded(fp, p, e);
    } else if m :| p' == ResumeNext(p, m) {
      ResumeKeepsStateBounded(p, m);
    }
  }

  lemma {:induction false} StepKeepsStateBounded(x: Setup, s: System, step: Step)
    requires Inv(s.tables.projection) && StateBounded(s.tables.projection)
    ensures StateBounded(Do(x, s, step).tables.projection)
  {
    ProjectionMoves(x, s, step);
    MovedKeepsBounded(x.fp, s.tables.projection, Do(x, s, step).tables.projection);
  }

  /** What a clean pass relies on. */
  ghost predicate Ready(x: Setup, s: System) {
    && PipelineInv(x, s) && Inv(s.tables.projection) && StateBounded(s.tables.projection) && WellFed(Roots(s))
  }

  lemma {:induction false} PipelineIsBounded(x: Setup, steps: seq<Step>)
    requires x.Faithful()
    ensures StateBounded(Run(x, steps).tables.projection)
  {
    if steps == [] {
      EmptyBounded();
    } else {
      var n := |steps| - 1;
      PipelineIsBounded(x, steps[..n]);
      EveryRunKeepsPipeline(x, steps[..n]);
      StepKeepsStateBounded(x, Run(x, steps[..n]), steps[n]);
    }
  }

  /** A dead letter's payload is taken, at any time. */
  lemma {:induction false} LetterApplies(fp: Event -> string, s: System, row: DeadRow)
    requires RowsGenuine(s) && Inv(s.tables.projection) && StateBounded(s.tables.projection) && WellFed(Roots(s))
    requires Lettered(s, row) && row.parsed.Some?
    ensures Acceptable(fp, s.tables.projection, row)
  {
    var es, e := Roots(s), row.parsed.value;
    assert Attributed(s, row);
    RootsAreRooted(s);
    SoundAmounts(es);
    assert SumOf(OfMerchant(es, e.merchant)) <= MAX_INT64;
    ApplyTakes(fp, s.tables.projection, es, e);
  }

  lemma {:induction false} RootsAreRooted(s: System)
    ensures forall e | Rooted(s, e) :: e in Roots(s)
    ensures RowsGenuine(s) ==> InboxAmong(s.tables.projection, Roots(s))
    ensures RowsGenuine(s) ==> forall row | Lettered(s, row) && row.parsed.Some? :: row.parsed.value in Roots(s)
  {
    forall e | Rooted(s, e)
      ensures e in Roots(s)
    {
      var id :| id in s.events && s.events[id].Canonical() == e;
    }
    if RowsGenuine(s) {
      forall row | Lettered(s, row) && row.parsed.Some?
        ensures row.parsed.value in Roots(s)
      {
        assert Attributed(s, row);
      }
    }
  }

  /* ---- One item ---- */

  /** Only the consumer's tables and the passes differ. */
  ghost predicate Beside(s: System, s': System) {
    s' == s.(tables := s'.tables, sweeps := s'.sweeps) && Grows(s.tables.projection, s'.tables.projection)
  }

  function Swept1(x: Setup, s: System, tag: Tag): System {
    Do(x, s, Continue(tag, false))
  }

  function Swept3(x: Setup, s: System, tag: Tag): System {
    Swept1(x, Swept1(x, Swept1(x, s, tag), tag), tag)
  }

  lemma {:induction false} ContinueBeside(x: Setup, s: System, tag: Tag)
    requires x.Faithful() && Ready(x, s)
    ensures Beside(s, Swept1(x, s, tag)) && Ready(x, Swept1(x, s, tag))
  {
    var step := Continue(tag, false);
    StepKeepsPipeline(x, s, step);
    StepKeepsInv(x, s, step);
    StepKeepsStateBounded(x, s, step);
    ProjectionGrows(x, s, step);
  }

  lemma {:induction false} ItemApplies(x: Setup, s: System, tag: Tag)
    requires Ready(x, s) && Sweeping(s, tag) && s.sweeps[tag].items[0].parsed.Some?
    ensures Acceptable(x.fp, s.tables.projection, s.sweeps[tag].items[0])
  {
    SweptItem(s, tag);
    LetterApplies(x.fp, s, s.sweeps[tag].items[0]);
  }

  lemma {:induction false} ApplyingStep(x: Setup, s: System, tag: Tag)
    requires Sweeping(s, tag) && s.sweeps[tag].stage == Applying && Acceptable(x.fp, s.tables.projection, s.sweeps[tag].items[0])
    ensures Swept1(x, s, tag).sweeps[tag] == Sweep(s.sweeps[tag].items, Unpending)
  {
  }

  lemma {:induction false} LaterSteps(x: Setup, s: System, tag: Tag)
    requires Sweeping(s, tag)
    ensures s.sweeps[tag].stage == Unpending ==> Swept1(x, s, tag).sweeps[tag] == Sweep(s.sweeps[tag].items, Deleting)
    ensures s.sweeps[tag].stage == Deleting ==> Swept1(x, s, tag).sweeps[tag] == Sweep(s.sweeps[tag].items[1..], Applying)
  {
  }

  /** The dead letters of a pass have been read with their ids, and parse. */
  ghost predicate Parses(items: seq<DeadRow>) {
    forall i | 0 <= i < |items| :: items[i].eventId.Some? && items[i].parsed.Some?
  }

  /** A pass about to begin the first of the items. */
  ghost predicate Underway(x: Setup, s: System, tag: Tag, items: seq<DeadRow>) {
    tag in s.sweeps && s.sweeps[tag] == Sweep(items, Applying) && Parses(items)
  }

  lemma {:induction false} ThreeBeside(x: Setup, s: System, tag: Tag)
    requires x.Faithful() && Ready(x, s)
    ensures Ready(x, Swept3(x, s, tag)) && Beside(s, Swept3(x, s, tag))
    ensures Beside(Swept1(x, s, tag), Swept3(x, s, tag))
  {
    ContinueBeside(x, s, tag);
    ContinueBeside(x, Swept1(x, s, tag), tag);
    ContinueBeside(x, Swept1(x, Swept1(x, s, tag), tag), tag);
  }

  lemma {:induction false} FirstApplied(x: Setup, s: System, tag: Tag, items: seq<DeadRow>)
    requires x.Faithful() && Ready(x, s) && Underway(x, s, tag, items) && items != []
    ensures var s1 := Swept1(x, s, tag);
            tag in s1.sweeps && s1.sweeps[tag] == Sweep(items, Unpending) && Holds(s1.tables.projection, items[0].parsed.value)
  {
    ItemApplies(x, s, tag);
    ApplyingStep(x, s, tag);
    StepKeepsSweeps(x, s, Continue(tag, false));
  }

  lemma {:induction false} RestOfItem(x: Setup, s: System, tag: Tag, items: seq<DeadRow>)
    requires tag in s.sweeps && s.sweeps[tag] == Sweep(items, Unpending) && items != [] && items[0].eventId.Some?
    ensures var s' := Swept1(x, Swept1(x, s, tag), tag); tag in s'.sweeps && s'.sweeps[tag] == Sweep(items[1..], Applying)
  {
    LaterSteps(x, s, tag);
    LaterSteps(x, Swept1(x, s, tag), tag);
  }

  lemma {:induction false} HeldBeside(s: System, s': System, e: Event)
    requires Holds(s.tables.projection, e) && Beside(s, s')
    ensures Holds(s'.tables.projection, e)
  {
  }

  lemma {:induction false} LaterBeside(x: Setup, s: System, tag: Tag)
    requires x.Faithful() && Ready(x, s)
    ensures Beside(Swept1(x, s, tag), Swept3(x, s, tag))
  {
    ThreeBeside(x, s, tag);
  }

  lemma {:induction false} FirstHeld(x: Setup, s: System, tag: Tag, items: seq<DeadRow>)
    requires x.Faithful() && Ready(x, s) && Underway(x, s, tag, items) && items != []
    ensures items[0].parsed.Some? && Holds(Swept3(x, s, tag).tables.projection, items[0].parsed.value)
  {
    FirstApplied(x, s, tag, items);
    LaterBeside(x, s, tag);
    HeldBeside(Swept1(x, s, tag), Swept3(x, s, tag), items[0].parsed.value);
  }

  lemma {:induction false} NextUnderway(x: Setup, s: System, tag: Tag, items: seq<DeadRow>)
    requires x.Faithful() && Ready(x, s) && Underway(x, s, tag, items) && items != []
    ensures Underway(x, Swept3(x, s, tag), tag, items[1..])
  {
    FirstApplied(x, s, tag, items);
    RestOfItem(x, Swept1(x, s, tag), tag, items);
  }

  /* ---- A whole pass ---- */

  /** n transactions of a pass, none failing. */
  function Sweeps(x: Setup, s: System, tag: Tag, n: nat): System
    decreases n
  {
    if n == 0 then s else Sweeps(x, Swept1(x, s, tag), tag, n - 1)
  }

  ghost predicate AllHeld(p: State, items: seq<DeadRow>) {
    forall i | 0 <= i < |items| && items[i].parsed.Some? :: Holds(p, items[i].parsed.value)
  }

  lemma {:induction false} ThreeSweeps(x: Setup, s: System, tag: Tag, n: nat)
    requires n >= 1
    ensures Sweeps(x, s, tag, 3 * n) == Sweeps(x, Swept3(x, s, tag), tag, 3 * (n - 1))
  {
    var s1 := Swept1(x, s, tag);
    var s2 := Swept1(x, s1, tag);
    assert Sweeps(x, s1, tag, 3 * n - 1) == Sweeps(x, s2, tag, 3 * n - 2);
    assert Sweeps(x, s2, tag, 3 * n - 2) == Sweeps(x, Swept1(x, s2, tag), tag, 3 * n - 3);
  }

  function Iterate<S>(next: S -> S, s: S, n: nat): S
    decreases n
  {
    if n == 0 then s else Iterate(next, next(s), n - 1)
  }

  /** A step that settles the first item settles them all, one after another. */
  lemma {:induction false} IterateSettles<S(!new)>(next: S -> S, under: (S, seq<DeadRow>) -> bool, beside: (S, S) -> bool,
                                                    held: (S, DeadRow) -> bool, s: S, items: seq<DeadRow>)
    requires forall t, rows {:trigger next(t), under(t, rows)} | under(t, rows) && rows != [] ::
               under(next(t), rows[1..]) && beside(t, next(t)) && held(next(t), rows[0])
    requires forall t :: beside(t, t)
    requires forall t, u, v | beside(t, u) && beside(u, v) :: beside(t, v)
    requires forall t, u, row | beside(t, u) && held(t, row) :: held(u, row)
    requires under(s, items)
    ensures beside(s, Iterate(next, s, |items|))
    ensures forall i | 0 <= i < |items| :: held(Iterate(next, s, |items|), items[i])
    decreases |items|
  {
    if items != [] {
      var t := next(s);
      assert under(t, items[1..]) && beside(s, t) && held(t, items[0]);
      IterateSettles(next, under, beside, held, t, items[1..]);
      var u := Iterate(next, t, |items| - 1);
      assert beside(t, u);
      forall i | 0 <= i < |items|
        ensures held(u, items[i])
      {
        assert i > 0 ==> items[i] == items[1..][i - 1];
      }
    }
  }

  lemma {:induction false} SweepsIterate(x: Setup, s: System, tag: Tag, n: nat)
    ensures Sweeps(x, s, tag, 3 * n) == Iterate(t => Swept3(x, t, tag), s, n)
    decreases n
  {
    if n > 0 {
      ThreeSweeps(x, s, tag, n);
      SweepsIterate(x, Swept3(x, s, tag), tag, n - 1);
    }
  }

  lemma {:induction false} PassSettles(x: Setup, s: System, tag: Tag, items: seq<DeadRow>)
    requires x.Faithful() && Ready(x, s) && Underway(x, s, tag, items)
    ensures Beside(s, Sweeps(x, s, tag, 3 * |items|)) && AllHeld(Sweeps(x, s, tag, 3 * |items|).tables.projection, items)
  {
    ghost var next := (t: System) => Swept3(x, t, tag);
    ghost var under := (t: System, rows: seq<DeadRow>) => Ready(x, t) && Underway(x, t, tag, rows);
    ghost var beside := (t: System, u: System) => Beside(t, u);
    ghost var held := (t: System, row: DeadRow) => row.parsed.Some? && Holds(t.tables.projection, row.parsed.value);
    forall t, rows | under(t, rows) && rows != []
      ensures under(next(t), rows[1..]) && beside(t, next(t)) && held(next(t), rows[0])
    {
      ThreeBeside(x, t, tag);
      FirstHeld(x, t, tag, rows);
      NextUnderway(x, t, tag, rows);
    }
    IterateSettles(next, under, beside, held, s, items);
    SweepsIterate(x, s, tag, |items|);
  }

  /** The steps of a clean pass: read the parked rows, then three transactions
      an item. */
  function CleanPass(tag: Tag, items: seq<DeadRow>): seq<Step> {
    [Begin(tag, items)] + seq(3 * |items|, _ => Continue(tag, false))
  }

  lemma {:induction false} RunSweeps(x: Setup, steps: seq<Step>, tag: Tag, n: nat)
    ensures Run(x, steps + seq(n, _ => Continue(tag, false))) == Sweeps(x, Run(x, steps), tag, n)
    decreases n
  {
    if n == 0 {
      assert steps + seq(n, _ => Continue(tag, false)) == steps;
    } else {
      var step := Continue(tag, false);
      assert (steps + [step])[..|steps|] == steps;
      RunSweeps(x, steps + [step], tag, n - 1);
      assert steps + [step] + seq(n - 1, _ => Continue(tag, false)) == steps + seq(n, _ => Continue(tag, false));
    }
  }

  lemma {:induction false} RunCleanPass(x: Setup, steps: seq<Step>, tag: Tag, items: seq<DeadRow>)
    ensures Run(x, steps + CleanPass(tag, items)) == Sweeps(x, Do(x, Run(x, steps), Begin(tag, items)), tag, 3 * |items|)
  {
    var step := Begin(tag, items);
    assert (steps + [step])[..|steps|] == steps;
    RunSweeps(x, steps + [step], tag, 3 * |items|);
    assert steps + CleanPass(tag, items) == steps + [step] + seq(3 * |items|, _ => Continue(tag, false));
  }

  lemma {:induction false} BeginReady(x: Setup, s: System, tag: Tag, items: seq<DeadRow>)
    requires x.Faithful() && Ready(x, s) && tag !in s.sweeps && IsResultSet(s.tables, items)
    ensures var s' := Do(x, s, Begin(tag, items));
            Ready(x, s') && s' == s.(sweeps := s.sweeps[tag := Sweep(items, Applying)])
  {
    StepKeepsPipeline(x, s, Begin(tag, items));
  }

  /** After any run over well-fed events, a pass that meets no failure and whose
      payloads parse puts every parked event in the inbox, and changes nothing
      but the consumer's tables. */
  lemma {:induction false} CleanPassSettles(x: Setup, steps: seq<Step>, tag: Tag, items: seq<DeadRow>)
    requires x.Faithful() && WellFed(Roots(Run(x, steps)))
    requires tag !in Run(x, steps).sweeps && IsResultSet(Run(x, steps).tables, items) && Parses(items)
    ensures var s' := Run(x, steps + CleanPass(tag, items));
            Beside(Run(x, steps), s') && AllHeld(s'.tables.projection, items)
  {
    var s := Run(x, steps);
    EveryRunKeepsPipeline(x, steps);
    PipelineIsBounded(x, steps);
    BeginReady(x, s, tag, items);
    PassSettles(x, Do(x, s, Begin(tag, items)), tag, items);
    RunCleanPass(x, steps, tag, items);
  }

  /** Everything is published and nothing is queued or held. */
  ghost predicate Consumed(s: System) {
    && (forall id | id in s.outbox.rows :: s.outbox.rows[id].published)
    && s.queue == multiset{} && s.unacked == map[]
  }

  /** Everything but reprocessing is done: what is isolated is accounted for or
      parked with its payload. */
  ghost predicate Parkable(s: System, items: seq<DeadRow>) {
    && Consumed(s)
    && (forall e | e in s.isolated :: Holds(s.tables.projection, e.Canonical()) || Came(items, e.Canonical()))
  }

  /** One clean pass then makes the pipeline quiet. */
  lemma {:induction false} CleanPassQuiets(x: Setup, steps: seq<Step>, tag: Tag, items: seq<DeadRow>)
    requires x.Faithful() && WellFed(Roots(Run(x, steps))) && Parkable(Run(x, steps), items)
    requires tag !in Run(x, steps).sweeps && IsResultSet(Run(x, steps).tables, items) && Parses(items)
    ensures Quiet(Run(x, steps + CleanPass(tag, items)))
  {
    CleanPassSettles(x, steps, tag, items);
    QuietBeside(Run(x, steps), Run(x, steps + CleanPass(tag, items)), items);
  }

  lemma {:induction false} QuietBeside(s: System, s': System, items: seq<DeadRow>)
    requires Parkable(s, items) && Beside(s, s') && AllHeld(s'.tables.projection, items)
    ensures Quiet(s')
  {
    forall e | e in s'.isolated
      ensures Holds(s'.tables.projection, e.Canonical())
    {
      if !Holds(s.tables.projection, e.Canonical()) {
        var i :| 0 <= i < |items| && items[i].parsed == Some(e.Canonical());
      }
    }
  }

  /* ---- Parked, because its dead letter could be stored ---- */

  lemma {:induction false} ResultSetParses(x: Setup, steps: seq<Step>, items: seq<DeadRow>)
    requires x.Faithful() && Legible(x) && EventsValid(Run(x, steps)) && IsResultSet(Run(x, steps).tables, items)
    ensures Parses(items)
  {
    RunLettersParse(x, steps);
  }

  /** After a run that could store its dead letters, once everything is published
      and consumed, what is isolated is accounted for or parked, and parses. */
  lemma {:induction false} RunIsParkable(x: Setup, steps: seq<Step>, items: seq<DeadRow>)
    requires x.Faithful() && Legible(x) && RunRecords(x, steps) && EventsValid(Run(x, steps))
    requires Consumed(Run(x, steps)) && IsResultSet(Run(x, steps).tables, items)
    ensures Parkable(Run(x, steps), items) && Parses(items)
  {
    ResultSetParses(x, steps, items);
    forall e | e in Run(x, steps).isolated
      ensures Holds(Run(x, steps).tables.projection, e.Canonical()) || Came(items, e.Canonical())
    {
      IsolatedIsParked(x, steps, items, e);
    }
  }
}
