/** Pendencies over whole runs: an acknowledged or reprocessed event leaves none
    behind, and a retry pendency always has a delivery at work on it. */
module Pendencies {
  import opened Domain
  import opened Identity
  import opened Consumer
  import opened Reprocessing
  import O = Outbox
  import opened Pipeline
  import opened Isolation

  /* ---- An acknowledgement clears ---- */

  /** A consumer about to clear a pendency has an event to clear it for. */
  ghost predicate ClearsKnown(x: Setup, s: System) {
    forall tag | tag in s.unacked && s.unacked[tag].phase == Clearing :: x.wire(s.unacked[tag].message).parsed.Some?
  }

  lemma {:induction false} EveryRunClearsKnown(x: Setup, steps: seq<Step>)
    ensures ClearsKnown(x, Run(x, steps))
  {
    if steps != [] {
      var n := |steps| - 1;
      var s, step := Run(x, steps[..n]), steps[n];
      EveryRunClearsKnown(x, steps[..n]);
      NewPhases(x, s, step);
      if step.Handle? && step.tag in s.unacked {
        DeliveryCases(x.fp, x.max, s.tables, x.wire(s.unacked[step.tag].message), s.unacked[step.tag].phase, step.fault);
      }
    }
  }

  lemma {:induction false} ClearingStep(x: Setup, s: System, tag: Tag, e: Event)
    requires tag in s.unacked && s.unacked[tag].phase == Clearing && x.wire(s.unacked[tag].message).parsed == Some(e)
    ensures
      var s' := Do(x, s, Handle(tag, false));
      && tag in s'.unacked && s'.unacked[tag] == Held(s.unacked[tag].message, Decided(Ack))
      && s'.tables.projection == s.tables.projection && e.id !in s'.tables.pending
      && SameBut(s.tables.pending, s'.tables.pending, e.id) && s'.tables.dead == s.tables.dead
  {
  }

  lemma {:induction false} ClearingIsHeld(x: Setup, steps: seq<Step>, tag: Tag)
    requires x.Faithful() && tag in Run(x, steps).unacked && Run(x, steps).unacked[tag].phase == Clearing
    ensures
      var s := Run(x, steps);
      var m := s.unacked[tag].message;
      x.wire(m).parsed == Some(m.Canonical()) && Holds(s.tables.projection, m.Canonical())
  {
    EveryRunKeepsPipeline(x, steps);
    EveryRunClearsKnown(x, steps);
    assert Intact(x.wire(Run(x, steps).unacked[tag].message), Run(x, steps).unacked[tag].message);
  }

  /** Over every run: a delivery that has been applied and clears without failing
      is then acknowledged, its event is in the inbox and has no pendency, and no
      other pendency and no dead letter has changed. */
  lemma {:induction false} AcknowledgedIsCleared(x: Setup, steps: seq<Step>, tag: Tag)
    requires x.Faithful() && tag in Run(x, steps).unacked && Run(x, steps).unacked[tag].phase == Clearing
    ensures
      var s, s' := Run(x, steps), Do(x, Run(x, steps), Handle(tag, false));
      var e := s.unacked[tag].message.Canonical();
      && tag in s'.unacked && s'.unacked[tag] == Held(s.unacked[tag].message, Decided(Ack))
      && Holds(s'.tables.projection, e) && e.id !in s'.tables.pending
      && SameBut(s.tables.pending, s'.tables.pending, e.id) && s'.tables.dead == s.tables.dead
  {
    ClearingIsHeld(x, steps, tag);
    ClearingStep(x, Run(x, steps), tag, Run(x, steps).unacked[tag].message.Canonical());
  }

  /** So does an item of a reprocessing pass: after its second transaction its
      event has no dlq pendency, after its third no dead letter. */
  lemma {:induction false} ReprocessedIsCleared(x: Setup, s: System, tag: Tag)
    requires Sweeping(s, tag) && s.sweeps[tag].stage != Applying
    ensures
      var s' := Do(x, s, Continue(tag, false));
      var key := s.sweeps[tag].items[0].eventId.value;
      && SameBut(s.tables.pending, s'.tables.pending, key)
      && (s.sweeps[tag].stage == Unpending ==>
            && !DlqPending(s'.tables.pending, key) && s'.tables.dead == s.tables.dead
            && s'.sweeps[tag] == Sweep(s.sweeps[tag].items, Deleting))
      && (s.sweeps[tag].stage == Deleting ==>
            && s'.tables.pending == s.tables.pending && s'.sweeps[tag] == Sweep(s.sweeps[tag].items[1..], Applying)
            && forall row :: row in s'.tables.dead <==> row in s.tables.dead && row.eventId != Some(key))
  {
    var key := s.sweeps[tag].items[0].eventId.value;
    forall row
      ensures row in Without(s.tables.dead, {key}) <==> row in s.tables.dead && row.eventId != Some(key)
    {
      WithoutKeeps(s.tables.dead, {key}, row);
    }
  }

  /* ---- A retry is never left behind ---- */

  /** A write of a dlq pendency, and a clear, succeeds when its turn comes. */
  predicate Writes(s: System, step: Step) {
    step.Handle? && step.tag in s.unacked && (s.unacked[step.tag].phase == Filing || s.unacked[step.tag].phase == Clearing) ==>
      !step.fault
  }

  ghost predicate RunWrites(x: Setup, steps: seq<Step>) {
    forall i | 0 <= i < |steps| :: Writes(Run(x, steps[..i]), steps[i])
  }

  predicate RetryPending(pending: Pendency, key: string) {
    key in pending && !pending[key].dlq
  }

  ghost predicate WorksAt(s: System, e: Event, tag: Tag) {
    && tag in s.unacked && s.unacked[tag].message == e
    && s.unacked[tag].phase != Decided(Ack) && s.unacked[tag].phase != Decided(DeadLetter)
  }

  /** A copy of the event is queued, or with a consumer that has neither
      acknowledged it nor given it up. */
  ghost predicate AtWork(s: System, e: Event) {
    e in s.queue || exists tag :: WorksAt(s, e, tag)
  }

  ghost predicate Pursued(s: System, key: string) {
    exists e :: Committed(s, e) && e.Canonical().id == key && AtWork(s, e)
  }

  ghost predicate RetriesInv(s: System) {
    forall key | RetryPending(s.tables.pending, key) :: Pursued(s, key)
  }

  /** A step that keeps the event's copies at work, but for one delivery. */
  lemma {:induction false} StaysAtWork(s: System, s': System, e: Event, tag: Tag)
    requires AtWork(s, e) && (e in s.queue ==> AtWork(s', e))
    requires forall t | t in s.unacked && t != tag :: t in s'.unacked && s'.unacked[t] == s.unacked[t]
    requires WorksAt(s, e, tag) ==> AtWork(s', e)
    ensures AtWork(s', e)
  {
    if e !in s.queue {
      var t :| WorksAt(s, e, t);
      if t != tag {
        assert WorksAt(s', e, t);
      }
    }
  }

  /** The next transaction of a delivery, told by its phase: it clears its
      event's pendency, counts or files it, and stays at work until it decides. */
  lemma {:induction false} DeliveryRetries(fp: Event -> string, max: nat, t: Tables, d: Delivery, phase: Phase, fault: bool)
    requires d.parsed.Some? && Letter(d).eventId == Some(d.parsed.value.id)
    ensures
      var (t', phase') := DeliveryStep(fp, max, t, d, phase, fault);
      var key := d.parsed.value.id;
      && SameBut(t.pending, t'.pending, key)
      && (phase' == Decided(Ack) ==> phase == phase' || (phase == Clearing && (!fault ==> key !in t'.pending)))
      && (phase' == Decided(DeadLetter) ==> phase == phase' || (phase == Filing && (!fault ==> !RetryPending(t'.pending, key))))
      && (phase == phase' ==> t' == t)
  {
  }

  lemma {:induction false} HandleRetries(x: Setup, s: System, tag: Tag, fault: bool)
    requires Legible(x) && Regular(s) && tag in s.unacked && Writes(s, Handle(tag, fault)) && RetriesInv(s)
    ensures RetriesInv(Do(x, s, Handle(tag, fault)))
  {
    var s' := Do(x, s, Handle(tag, fault));
    var m := s.unacked[tag].message;
    MessageLegible(x, s, tag);
    DeliveryRetries(x.fp, x.max, s.tables, x.wire(m), s.unacked[tag].phase, fault);
    HandleFrame(x, s, tag, fault);
    forall key | RetryPending(s'.tables.pending, key)
      ensures Pursued(s', key)
    {
      if key == m.Canonical().id && !Idles(s'.unacked[tag].phase) {
        assert WorksAt(s', m, tag);
        assert Committed(s', m);
      } else {
        HandlePursued(s, s', tag, key);
      }
    }
  }

  predicate Idles(phase: Phase) {
    phase == Decided(Ack) || phase == Decided(DeadLetter)
  }

  lemma {:induction false} HandleFrame(x: Setup, s: System, tag: Tag, fault: bool)
    requires tag in s.unacked
    ensures
      var s' := Do(x, s, Handle(tag, fault));
      && s'.queue == s.queue && s'.events == s.events && tag in s'.unacked && s'.unacked[tag].message == s.unacked[tag].message
      && forall t | t in s.unacked && t != tag :: t in s'.unacked && s'.unacked[t] == s.unacked[t]
  {
  }

  lemma {:induction false} HandlePursued(s: System, s': System, tag: Tag, key: string)
    requires tag in s.unacked && s'.queue == s.queue && s'.events == s.events
    requires forall t | t in s.unacked && t != tag :: t in s'.unacked && s'.unacked[t] == s.unacked[t]
    requires Pursued(s, key)
    requires tag in s'.unacked && s'.unacked[tag].message == s.unacked[tag].message
    requires s.unacked[tag].message.Canonical().id == key ==> Idles(s.unacked[tag].phase) || !Idles(s'.unacked[tag].phase)
    ensures Pursued(s', key)
  {
    var e :| Committed(s, e) && e.Canonical().id == key && AtWork(s, e);
    if WorksAt(s, e, tag) {
      assert WorksAt(s', e, tag);
    }
    StaysAtWork(s, s', e, tag);
    assert Committed(s', e);
  }

  /* ---- Between the broker and the consumers ---- */

  lemma {:induction false} BrokerAtWork(c: O.Config, s: System, step: Step, e: Event)
    requires !OnTables(step) && AtWork(s, e)
    ensures AtWork(BrokerStep(c, s, step), e)
  {
    if e in s.queue {
      QueuedAtWork(c, s, step, e);
    } else {
      var t :| WorksAt(s, e, t);
      HeldAtWork(c, s, step, e, t);
    }
  }

  lemma {:induction false} QueuedAtWork(c: O.Config, s: System, step: Step, e: Event)
    requires e in s.queue
    ensures AtWork(BrokerStep(c, s, step), e)
  {
    if step.Deliver? && step.tag !in s.unacked && step.message == e {
      assert WorksAt(BrokerStep(c, s, step), e, step.tag);
    }
  }

  lemma {:induction false} HeldAtWork(c: O.Config, s: System, step: Step, e: Event, t: Tag)
    requires WorksAt(s, e, t)
    ensures AtWork(BrokerStep(c, s, step), e)
  {
    if step.Settle? && step.tag == t {
      SettledAtWork(s, e, t);
    } else if step.Drop? && step.tag == t {
      assert e in Dropped(s, t).queue;
    } else {
      assert WorksAt(BrokerStep(c, s, step), e, t);
    }
  }

  lemma {:induction false} SettledAtWork(s: System, e: Event, t: Tag)
    requires WorksAt(s, e, t)
    ensures AtWork(Settled(s, t), e)
  {
    if s.unacked[t].phase.Decided? {
      assert e in Settled(s, t).queue;
    } else {
      assert WorksAt(Settled(s, t), e, t);
    }
  }

  /* ---- Every step ---- */

  /** Of the steps that are not a delivery's own, only a pass touches pendencies,
      and it takes away only those of class dlq. */
  lemma {:induction false} OthersRetry(x: Setup, s: System, step: Step)
    requires step.Handle? ==> step.tag !in s.unacked
    ensures forall key | RetryPending(Do(x, s, step).tables.pending, key) :: RetryPending(s.tables.pending, key)
  {
    if step.Continue? && Sweeping(s, step.tag) {
      ItemRetries(x.fp, s.tables, s.sweeps[step.tag].items[0], s.sweeps[step.tag].stage, step.fault);
    }
  }

  lemma {:induction false} ItemRetries(fp: Event -> string, t: Tables, row: DeadRow, stage: Stage, fault: bool)
    requires row.eventId.Some?
    ensures forall key | RetryPending(ItemStep(fp, t, row, stage, fault).0.pending, key) :: RetryPending(t.pending, key)
  {
  }

  lemma {:induction false} StepPursues(x: Setup, s: System, step: Step, key: string)
    requires (step.Handle? ==> step.tag !in s.unacked) && Pursued(s, key)
    ensures Pursued(Do(x, s, step), key)
  {
    var s' := Do(x, s, step);
    var e :| Committed(s, e) && e.Canonical().id == key && AtWork(s, e);
    if OnTables(step) {
      SameWork(x, s, step, e);
    } else {
      BrokerAtWork(x.config, s, step, e);
    }
    StepExtends(x, s, step);
    ExtendsCommitted(s, s');
    assert Committed(s', e);
  }

  lemma {:induction false} SameWork(x: Setup, s: System, step: Step, e: Event)
    requires OnTables(step) && (step.Handle? ==> step.tag !in s.unacked) && AtWork(s, e)
    ensures AtWork(Do(x, s, step), e)
  {
    var s' := Do(x, s, step);
    assert s'.queue == s.queue && s'.unacked == s.unacked;
    if t :| WorksAt(s, e, t) {
      assert WorksAt(s', e, t);
    }
  }

  lemma {:induction false} StepKeepsRetries(x: Setup, s: System, step: Step)
    requires Legible(x) && Regular(s) && Writes(s, step) && RetriesInv(s)
    ensures RetriesInv(Do(x, s, step))
  {
    if step.Handle? && step.tag in s.unacked {
      HandleRetries(x, s, step.tag, step.fault);
    } else {
      OthersRetry(x, s, step);
      forall key | RetryPending(Do(x, s, step).tables.pending, key)
        ensures Pursued(Do(x, s, step), key)
      {
        StepPursues(x, s, step, key);
      }
    }
  }

  /** Over every run in which no clear and no write of a dlq pendency failed: an
      event with a retry pendency has a copy queued or with a consumer. */
  lemma {:induction false} EveryRunPursuesRetries(x: Setup, steps: seq<Step>)
    requires x.Faithful() && Legible(x) && RunWrites(x, steps) && EventsValid(Run(x, steps))
    ensures RetriesInv(Run(x, steps))
  {
    if steps != [] {
      var n := |steps| - 1;
      StepExtends(x, Run(x, steps[..n]), steps[n]);
      forall i | 0 <= i < n
        ensures Writes(Run(x, steps[..n][..i]), steps[..n][i])
      {
        assert steps[..n][..i] == steps[..i];
      }
      EveryRunPursuesRetries(x, steps[..n]);
      RunIsRegular(x, steps[..n]);
      assert Writes(Run(x, steps[..n]), steps[n]);
      StepKeepsRetries(x, Run(x, steps[..n]), steps[n]);
    }
  }

  /** So once nothing is queued or held, what is still pending waits for a
      reprocessing pass. */
  lemma {:induction false} NoRetryLeftBehind(x: Setup, steps: seq<Step>, key: string)
    requires x.Faithful() && Legible(x) && RunWrites(x, steps) && EventsValid(Run(x, steps))
    requires Run(x, steps).queue == multiset{} && Run(x, steps).unacked == map[]
    requires key in Run(x, steps).tables.pending
    ensures Run(x, steps).tables.pending[key].dlq
  {
    EveryRunPursuesRetries(x, steps);
    assert !Pursued(Run(x, steps), key);
    assert !RetryPending(Run(x, steps).tables.pending, key);
  }
}
