/** What is isolated is parked: when the writes of dead letters succeed, every
    isolated event that is not accounted for waits in the dead-letter table for
    the next reprocessing pass, or is still on its way. */
module Isolation {
  import opened Domain
  import opened Identity
  import opened Consumer
  import opened Reprocessing
  import O = Outbox
  import opened Pipeline

  /** The dead letter an event leaves when its payload parses. */
  function RowFor(e: Event): DeadRow {
    DeadRow(Some(e.Canonical().id), Some(e.Canonical()))
  }

  /** Every valid payload parses and carries its id. */
  ghost predicate Legible(x: Setup) {
    forall e: Event | e.Valid() :: LegibleAt(x.wire(e), e)
  }

  ghost predicate EventsValid(s: System) {
    forall id | id in s.events :: s.events[id].Valid()
  }

  ghost predicate LegibleAt(d: Delivery, e: Event) {
    !d.empty && d.parsed == Some(e.Canonical()) && Letter(d) == RowFor(e)
  }

  /** A dead letter and its pendency are stored when their turn comes. */
  predicate Records(s: System, step: Step) {
    step.Handle? && step.tag in s.unacked && (s.unacked[step.tag].phase == Recording || s.unacked[step.tag].phase == Filing) ==>
      !step.fault
  }

  ghost predicate RunRecords(x: Setup, steps: seq<Step>) {
    forall i | 0 <= i < |steps| :: Records(Run(x, steps[..i]), steps[i])
  }

  /* ---- What an isolated event keeps ---- */

  ghost predicate Recorded(s: System, e: Event) {
    Holds(s.tables.projection, e.Canonical()) || RowFor(e) in s.tables.dead
  }

  predicate DlqPending(pending: Pendency, key: string) {
    key in pending && pending[key].dlq
  }

  ghost predicate LiveAt(s: System, e: Event, tag: Tag) {
    tag in s.unacked && s.unacked[tag].message == e && s.unacked[tag].phase != Decided(DeadLetter)
  }

  /** A copy that has not been given up is queued or with a consumer. */
  ghost predicate LiveCopy(s: System, e: Event) {
    e in s.queue || exists tag :: LiveAt(s, e, tag)
  }

  ghost predicate Pendent(s: System, e: Event) {
    || Holds(s.tables.projection, e.Canonical()) || DlqPending(s.tables.pending, e.Canonical().id)
    || LiveCopy(s, e)
  }

  /** Given up on: isolated, or about to be. */
  ghost predicate GivenUp(s: System, e: Event) {
    e in s.isolated || exists tag :: tag in s.unacked && s.unacked[tag].message == e && s.unacked[tag].phase == Decided(DeadLetter)
  }

  ghost predicate IsolationInv(s: System) {
    && (forall e | GivenUp(s, e) :: Recorded(s, e) && Pendent(s, e))
    && (forall tag | tag in s.unacked && s.unacked[tag].phase == Filing :: Recorded(s, s.unacked[tag].message))
  }

  /** What the arguments below need of a state: it is one of a run. */
  ghost predicate Regular(s: System) {
    && AcksHeld(s) && SweepsHeld(s) && RowsGenuine(s) && MessagesGenuine(s) && IdsUnique(s) && EventsValid(s)
  }

  /** What a consumer holds is legible. */
  lemma {:induction false} MessageLegible(x: Setup, s: System, tag: Tag)
    requires Legible(x) && EventsValid(s) && MessagesGenuine(s) && tag in s.unacked
    ensures LegibleAt(x.wire(s.unacked[tag].message), s.unacked[tag].message)
  {
    var id :| id in s.events && s.events[id] == s.unacked[tag].message;
  }

  lemma {:induction false} SameIdSameMessage(s: System, a: Event, b: Event)
    requires IdsUnique(s) && Committed(s, a) && Committed(s, b) && a.Canonical().id == b.Canonical().id
    ensures a == b
  {
    var j :| j in s.events && s.events[j] == a;
    var k :| k in s.events && s.events[k] == b;
    assert s.events[j].Canonical().id == s.events[k].Canonical().id;
  }

  /* ---- One transaction of a delivery ---- */

  lemma {:induction false} DeliveryPending(fp: Event -> string, max: nat, t: Tables, d: Delivery, phase: Phase, fault: bool)
    requires d.parsed.Some? && Letter(d).eventId == Some(d.parsed.value.id) && !d.empty
    ensures
      var (t', phase') := DeliveryStep(fp, max, t, d, phase, fault);
      && (forall k | k != d.parsed.value.id :: DlqPending(t'.pending, k) == DlqPending(t.pending, k))
      && (phase' == Decided(DeadLetter) ==> phase == Filing || (phase == phase' && t' == t))
      && (phase == Filing && !fault ==> DlqPending(t'.pending, d.parsed.value.id))
      && (phase' == Filing ==> phase == Recording)
      && (phase == Recording && !fault ==> t'.dead == t.dead + [Letter(d)])
  {
  }

  /** What handling an event does to the other deliveries and to pendency. */
  ghost predicate Handling(s: System, s': System, tag: Tag, m: Event) {
    && s'.queue == s.queue && s'.unacked.Keys == s.unacked.Keys && tag in s.unacked
    && s'.unacked[tag].message == s.unacked[tag].message == m
    && (forall t | t in s.unacked && t != tag :: s'.unacked[t] == s.unacked[t])
    && (forall k | k != m.Canonical().id :: DlqPending(s'.tables.pending, k) == DlqPending(s.tables.pending, k))
    && (s'.unacked[tag].phase == Decided(DeadLetter) ==>
          DlqPending(s'.tables.pending, m.Canonical().id)
          || (s.unacked[tag].phase == Decided(DeadLetter) && s'.tables == s.tables))
  }

  lemma {:induction false} HandlesSo(x: Setup, s: System, tag: Tag, fault: bool)
    requires tag in s.unacked && LegibleAt(x.wire(s.unacked[tag].message), s.unacked[tag].message)
    requires Records(s, Handle(tag, fault))
    ensures Handling(s, Do(x, s, Handle(tag, fault)), tag, s.unacked[tag].message)
  {
    DeliveryPending(x.fp, x.max, s.tables, x.wire(s.unacked[tag].message), s.unacked[tag].phase, fault);
  }

  lemma {:induction false} HandlingPendent(s: System, s': System, tag: Tag, m: Event, e: Event)
    requires Handling(s, s', tag, m) && (m.Canonical().id == e.Canonical().id ==> m == e)
    requires Grows(s.tables.projection, s'.tables.projection) && Pendent(s, e)
    ensures Pendent(s', e)
  {
    if m == e && s'.unacked[tag].phase != Decided(DeadLetter) {
      assert LiveAt(s', e, tag);
    } else {
      OthersLive(s, s', tag, e);
    }
  }

  lemma {:induction false} HandlePendent(x: Setup, s: System, tag: Tag, fault: bool, e: Event)
    requires Legible(x) && Regular(s) && tag in s.unacked && Records(s, Handle(tag, fault)) && Committed(s, e)
    requires Grows(s.tables.projection, Do(x, s, Handle(tag, fault)).tables.projection)
    requires Pendent(s, e)
    ensures Pendent(Do(x, s, Handle(tag, fault)), e)
  {
    var m := s.unacked[tag].message;
    MessageLegible(x, s, tag);
    HandlesSo(x, s, tag, fault);
    if m.Canonical().id == e.Canonical().id {
      SameIdSameMessage(s, m, e);
    }
    HandlingPendent(s, Do(x, s, Handle(tag, fault)), tag, m, e);
  }

  /** The other copies of an event stay live. */
  lemma {:induction false} OthersLive(s: System, s': System, tag: Tag, e: Event)
    requires s'.queue == s.queue && s'.unacked.Keys == s.unacked.Keys
    requires forall t | t in s.unacked && t != tag :: s'.unacked[t] == s.unacked[t]
    requires LiveAt(s, e, tag) ==> LiveAt(s', e, tag) || DlqPending(s'.tables.pending, e.Canonical().id)
    ensures LiveCopy(s, e) ==> LiveCopy(s', e) || DlqPending(s'.tables.pending, e.Canonical().id)
  {
    if e !in s.queue && LiveCopy(s, e) {
      var t :| LiveAt(s, e, t);
      assert t != tag ==> LiveAt(s', e, t);
    }
  }

  /* ---- One transaction of a pass ---- */

  lemma {:induction false} ItemPending(fp: Event -> string, t: Tables, row: DeadRow, stage: Stage, fault: bool)
    requires row.eventId.Some?
    ensures
      var t' := ItemStep(fp, t, row, stage, fault).0;
      && (forall k | k != row.eventId.value :: DlqPending(t'.pending, k) == DlqPending(t.pending, k))
      && (stage != Unpending ==> t'.pending == t.pending)
  {
  }

  /** An item past its first transaction has the event of its id in the inbox. */
  lemma {:induction false} SweptIsHeld(s: System, tag: Tag, e: Event)
    requires Regular(s) && Sweeping(s, tag) && s.sweeps[tag].stage != Applying && Committed(s, e)
    requires s.sweeps[tag].items[0].eventId == Some(e.Canonical().id)
    ensures Holds(s.tables.projection, e.Canonical())
  {
    var item := s.sweeps[tag].items[0];
    SweptItem(s, tag);
    assert Attributed(s, item);
    var a :| Rooted(s, a) && Names(item, a);
    CommittedRoots(s, e);
    SameIdSameEvent(s, a, e.Canonical());
  }

  lemma {:induction false} ContinuePendent(x: Setup, s: System, tag: Tag, fault: bool, e: Event)
    requires Regular(s) && Sweeping(s, tag) && Committed(s, e) && Pendent(s, e)
    requires Grows(s.tables.projection, Do(x, s, Continue(tag, fault)).tables.projection)
    ensures Pendent(Do(x, s, Continue(tag, fault)), e)
  {
    var item := s.sweeps[tag].items[0];
    if item.eventId == Some(e.Canonical().id) && s.sweeps[tag].stage == Unpending {
      SweptIsHeld(s, tag, e);
    } else {
      ContinuePending(x, s, tag, fault, e.Canonical().id);
      SameCopies(s, Do(x, s, Continue(tag, fault)), e);
    }
  }

  lemma {:induction false} ContinuePending(x: Setup, s: System, tag: Tag, fault: bool, key: string)
    requires Sweeping(s, tag) && (s.sweeps[tag].items[0].eventId == Some(key) ==> s.sweeps[tag].stage != Unpending)
    ensures
      var s' := Do(x, s, Continue(tag, fault));
      s'.queue == s.queue && s'.unacked == s.unacked && DlqPending(s'.tables.pending, key) == DlqPending(s.tables.pending, key)
  {
    ItemPending(x.fp, s.tables, s.sweeps[tag].items[0], s.sweeps[tag].stage, fault);
  }

  lemma {:induction false} SameCopies(s: System, s': System, e: Event)
    requires s'.queue == s.queue && s'.unacked == s.unacked
    ensures LiveCopy(s, e) ==> LiveCopy(s', e)
  {
    if e !in s.queue && LiveCopy(s, e) {
      var t :| LiveAt(s, e, t);
      assert LiveAt(s', e, t);
    }
  }

  /* ---- Between the broker and the consumers ---- */

  /** A live copy stays live, or is acknowledged with its event in the inbox. */
  lemma {:induction false} BrokerPendent(c: O.Config, s: System, step: Step, e: Event)
    requires AcksHeld(s) && Pendent(s, e) && !OnTables(step)
    ensures Pendent(BrokerStep(c, s, step), e)
  {
    BrokerTables(c, s, step);
    if LiveCopy(s, e) && !Holds(s.tables.projection, e.Canonical()) {
      BrokerLive(c, s, step, e);
    }
  }

  lemma {:induction false} BrokerTables(c: O.Config, s: System, step: Step)
    requires !OnTables(step)
    ensures BrokerStep(c, s, step).tables == s.tables
  {
  }

  lemma {:induction false} BrokerLive(c: O.Config, s: System, step: Step, e: Event)
    requires AcksHeld(s) && LiveCopy(s, e) && !Holds(s.tables.projection, e.Canonical())
    ensures LiveCopy(BrokerStep(c, s, step), e)
  {
    var s' := BrokerStep(c, s, step);
    if e in s.queue {
      BrokerQueue(c, s, step, e);
    } else {
      var t :| LiveAt(s, e, t);
      BrokerHeld(c, s, step, e, t);
    }
  }

  lemma {:induction false} BrokerQueue(c: O.Config, s: System, step: Step, e: Event)
    requires e in s.queue
    ensures LiveCopy(BrokerStep(c, s, step), e)
  {
    var s' := BrokerStep(c, s, step);
    if step.Deliver? && step.tag !in s.unacked && step.message == e {
      assert LiveAt(s', e, step.tag);
    }
  }

  lemma {:induction false} BrokerHeld(c: O.Config, s: System, step: Step, e: Event, t: Tag)
    requires AcksHeld(s) && LiveAt(s, e, t) && !Holds(s.tables.projection, e.Canonical())
    ensures LiveCopy(BrokerStep(c, s, step), e)
  {
    if step.Settle? && step.tag == t {
      SettledLives(s, e, t);
    } else if step.Drop? && step.tag == t {
      assert e in Dropped(s, t).queue;
    } else {
      assert LiveAt(BrokerStep(c, s, step), e, t);
    }
  }

  lemma {:induction false} SettledLives(s: System, e: Event, t: Tag)
    requires AcksHeld(s) && LiveAt(s, e, t) && !Holds(s.tables.projection, e.Canonical())
    ensures LiveCopy(Settled(s, t), e)
  {
    if s.unacked[t].phase.Decided? {
      assert e in Settled(s, t).queue;
    } else {
      assert LiveAt(Settled(s, t), e, t);
    }
  }

  /* ---- Every step ---- */

  lemma {:induction false} StepPendent(x: Setup, s: System, step: Step, e: Event)
    requires Legible(x) && Regular(s) && Records(s, step) && Committed(s, e) && Pendent(s, e)
    requires Grows(s.tables.projection, Do(x, s, step).tables.projection)
    ensures Pendent(Do(x, s, step), e)
  {
    if !OnTables(step) {
      BrokerPendent(x.config, s, step, e);
    } else if step.Handle? && step.tag in s.unacked {
      HandlePendent(x, s, step.tag, step.fault, e);
    } else if step.Continue? && Sweeping(s, step.tag) {
      ContinuePendent(x, s, step.tag, step.fault, e);
    } else {
      IdleTables(x, s, step);
      SameCopies(s, Do(x, s, step), e);
    }
  }

  lemma {:induction false} IdleTables(x: Setup, s: System, step: Step)
    requires OnTables(step) && (step.Handle? ==> step.tag !in s.unacked) && (step.Continue? ==> !Sweeping(s, step.tag))
    ensures var s' := Do(x, s, step); s'.queue == s.queue && s'.unacked == s.unacked && s'.tables.pending == s.tables.pending
  {
  }

  lemma {:induction false} StepRecorded(x: Setup, s: System, step: Step, e: Event)
    requires Regular(s) && Recorded(s, e)
    requires Grows(s.tables.projection, Do(x, s, step).tables.projection)
    ensures Recorded(Do(x, s, step), e)
  {
    var s', row := Do(x, s, step), RowFor(e);
    if row in s.tables.dead && row !in s'.tables.dead {
      OnlyDeletingRemoves(x, s, step, row);
      RemovedByItem(x, s, step.tag, step.fault, row);
    }
  }

  /** A delivery given up on, or about to be, has just been so by its own
      transaction, or was before. */
  lemma {:induction false} NewlyGivenUp(x: Setup, s: System, step: Step, e: Event)
    requires GivenUp(Do(x, s, step), e) && !GivenUp(s, e)
    ensures step.Handle? && step.tag in s.unacked && s.unacked[step.tag].message == e
            && Do(x, s, step).unacked[step.tag].phase == Decided(DeadLetter) && s.unacked[step.tag].phase != Decided(DeadLetter)
  {
    var s' := Do(x, s, step);
    if e in s'.isolated {
      IsolatedFrom(x, s, step, e);
    } else {
      var tag :| tag in s'.unacked && s'.unacked[tag].message == e && s'.unacked[tag].phase == Decided(DeadLetter);
      NewPhases(x, s, step);
    }
  }

  lemma {:induction false} IsolatedFrom(x: Setup, s: System, step: Step, e: Event)
    requires e in Do(x, s, step).isolated
    ensures GivenUp(s, e)
  {
    if e !in s.isolated {
      assert step.Settle? && s.unacked[step.tag].message == e;
    }
  }

  lemma {:induction false} GivenUpIsPendent(x: Setup, s: System, step: Step, e: Event)
    requires Legible(x) && Regular(s) && Records(s, step) && IsolationInv(s)
    requires Grows(s.tables.projection, Do(x, s, step).tables.projection)
    requires GivenUp(Do(x, s, step), e) && !GivenUp(s, e)
    ensures Recorded(Do(x, s, step), e) && Pendent(Do(x, s, step), e)
  {
    NewlyGivenUp(x, s, step, e);
    var tag := step.tag;
    MessageLegible(x, s, tag);
    DeliveryPending(x.fp, x.max, s.tables, x.wire(e), s.unacked[tag].phase, step.fault);
    StepRecorded(x, s, step, e);
  }

  lemma {:induction false} FilingIsRecorded(x: Setup, s: System, step: Step, tag: Tag)
    requires Legible(x) && Regular(s) && Records(s, step) && IsolationInv(s)
    requires Grows(s.tables.projection, Do(x, s, step).tables.projection)
    requires tag in Do(x, s, step).unacked && Do(x, s, step).unacked[tag].phase == Filing
    ensures Recorded(Do(x, s, step), Do(x, s, step).unacked[tag].message)
  {
    NewPhases(x, s, step);
    var e := Do(x, s, step).unacked[tag].message;
    if tag in s.unacked && s.unacked[tag] == Do(x, s, step).unacked[tag] {
      StepRecorded(x, s, step, e);
    } else {
      MessageLegible(x, s, tag);
      DeliveryPending(x.fp, x.max, s.tables, x.wire(e), s.unacked[tag].phase, step.fault);
    }
  }

  lemma {:induction false} GivenUpIsCommitted(s: System, e: Event)
    requires MessagesGenuine(s) && GivenUp(s, e)
    ensures Committed(s, e)
  {
  }

  lemma {:induction false} StepKeepsIsolation(x: Setup, s: System, step: Step)
    requires Legible(x) && Regular(s) && Records(s, step) && IsolationInv(s)
    requires Grows(s.tables.projection, Do(x, s, step).tables.projection)
    ensures IsolationInv(Do(x, s, step))
  {
    var s' := Do(x, s, step);
    forall e | GivenUp(s', e)
      ensures Recorded(s', e) && Pendent(s', e)
    {
      if GivenUp(s, e) {
        GivenUpIsCommitted(s, e);
        StepRecorded(x, s, step, e);
        StepPendent(x, s, step, e);
      } else {
        GivenUpIsPendent(x, s, step, e);
      }
    }
    forall tag | tag in s'.unacked && s'.unacked[tag].phase == Filing
      ensures Recorded(s', s'.unacked[tag].message)
    {
      FilingIsRecorded(x, s, step, tag);
    }
  }

  lemma {:induction false} RunIsRegular(x: Setup, steps: seq<Step>)
    requires x.Faithful() && EventsValid(Run(x, steps))
    ensures Regular(Run(x, steps)) && Sane(Run(x, steps))
  {
    EveryRunKeepsPipeline(x, steps);
    RunIdsUnique(x, steps);
  }

  /** Over every run whose dead letters could be stored: each event given up on
      is accounted for, or has its dead letter in the table and is parked or has
      a copy still on its way. */
  lemma {:induction false} EveryRunKeepsIsolation(x: Setup, steps: seq<Step>)
    requires x.Faithful() && Legible(x) && RunRecords(x, steps) && EventsValid(Run(x, steps))
    ensures IsolationInv(Run(x, steps))
  {
    if steps != [] {
      var n := |steps| - 1;
      StepExtends(x, Run(x, steps[..n]), steps[n]);
      forall i | 0 <= i < n
        ensures Records(Run(x, steps[..n][..i]), steps[..n][i])
      {
        assert steps[..n][..i] == steps[..i];
      }
      EveryRunKeepsIsolation(x, steps[..n]);
      RunIsRegular(x, steps[..n]);
      assert Records(Run(x, steps[..n]), steps[n]);
      ProjectionGrows(x, Run(x, steps[..n]), steps[n]);
      StepKeepsIsolation(x, Run(x, steps[..n]), steps[n]);
    }
  }

  lemma {:induction false} ParkedHas(pending: Pendency, dead: seq<DeadRow>, row: DeadRow)
    requires row in dead && IsParked(pending, row)
    ensures row in Parked(pending, dead)
  {
    var n := |dead| - 1;
    assert dead == dead[..n] + [dead[n]];
    if row != dead[n] {
      ParkedHas(pending, dead[..n], row);
    }
  }

  /** So once nothing is queued or held, each isolated event is in the inbox or
      among the rows the next pass reads. */
  lemma {:induction false} IsolatedIsParked(x: Setup, steps: seq<Step>, items: seq<DeadRow>, e: Event)
    requires x.Faithful() && Legible(x) && RunRecords(x, steps) && EventsValid(Run(x, steps))
    requires Run(x, steps).queue == multiset{} && Run(x, steps).unacked == map[]
    requires IsResultSet(Run(x, steps).tables, items) && e in Run(x, steps).isolated
    ensures Holds(Run(x, steps).tables.projection, e.Canonical()) || Came(items, e.Canonical())
  {
    var s := Run(x, steps);
    EveryRunKeepsIsolation(x, steps);
    assert GivenUp(s, e) && Recorded(s, e) && Pendent(s, e);
    if !Holds(s.tables.projection, e.Canonical()) {
      ParkedHas(s.tables.pending, s.tables.dead, RowFor(e));
      assert RowFor(e) in multiset(items);
      var i :| 0 <= i < |items| && items[i] == RowFor(e);
    }
  }

  /* ---- Every dead letter parses ---- */

  ghost predicate LettersParse(t: Tables) {
    forall row | row in t.dead :: row.parsed.Some?
  }

  lemma {:induction false} StepLettersParse(x: Setup, s: System, step: Step)
    requires Legible(x) && LettersParse(s.tables) && EventsValid(s) && MessagesGenuine(s)
    ensures LettersParse(Do(x, s, step).tables)
  {
    if Idle(s, step) {
      IdleSameRows(x, s, step);
    } else if step.Handle? {
      var m := s.unacked[step.tag].message;
      MessageLegible(x, s, step.tag);
      DeliveryCases(x.fp, x.max, s.tables, x.wire(m), s.unacked[step.tag].phase, step.fault);
    } else {
      var item := s.sweeps[step.tag].items[0];
      ItemCases(x.fp, s.tables, item, s.sweeps[step.tag].stage, step.fault);
      WithoutSubset(s.tables.dead, {item.eventId.value});
    }
  }

  lemma {:induction false} RunLettersParse(x: Setup, steps: seq<Step>)
    requires x.Faithful() && Legible(x) && EventsValid(Run(x, steps))
    ensures LettersParse(Run(x, steps).tables)
  {
    if steps != [] {
      var n := |steps| - 1;
      StepExtends(x, Run(x, steps[..n]), steps[n]);
      EveryRunKeepsPipeline(x, steps[..n]);
      RunLettersParse(x, steps[..n]);
      StepLettersParse(x, Run(x, steps[..n]), steps[n]);
    }
  }

  /** A faithful setup with legible payloads exists. */
  lemma {:induction false} LegibleSetup(config: O.Config, max: nat) returns (x: Setup)
    ensures x.Faithful() && Legible(x) && x.config == config && x.max == max
  {
    x := FaithfulSetup(config, max);
    forall e: Event | e.Valid()
      ensures LegibleAt(x.wire(e), e)
    {
      assert Intact(x.wire(e), e);
    }
  }
}
