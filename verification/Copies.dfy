/** Conservation of messages: every copy handed to the broker is in exactly one
    place, and it was isolated or acknowledged exactly as often as a consumer
    said so. */
module Copies {
  import opened Domain
  import O = Outbox
  import opened Consumer
  import opened Pipeline

  /** The deliveries of an event that consumers hold. */
  ghost function HeldOf(s: System, e: Event): set<Tag> {
    set tag | tag in s.unacked && s.unacked[tag].message == e
  }

  /** A step publishes a copy of the event, confirmed or not. */
  ghost predicate Sends(s: System, step: Step, e: Event) {
    && step.Publish? && (step.step.Accept? || step.step.Confirm?) && step.step.owner in s.outbox.flights
    && var id := s.outbox.flights[step.step.owner].event;
       id in s.events && s.events[id] == e
  }

  /** A step settles a delivery of the event with the given decision. */
  ghost predicate Settles(s: System, step: Step, e: Event, action: Action) {
    step.Settle? && step.tag in s.unacked && s.unacked[step.tag] == Held(e, Decided(action))
  }

  datatype Tally = Tally(sent: nat, acknowledged: nat, isolated: nat)

  ghost function Unit(b: bool): nat {
    if b then 1 else 0
  }

  /** How often the run sent the event, acknowledged it and isolated it. */
  ghost function TallyOf(x: Setup, steps: seq<Step>, e: Event): Tally {
    if steps == [] then Tally(0, 0, 0)
    else
      var n := |steps| - 1;
      var s, t := Run(x, steps[..n]), TallyOf(x, steps[..n], e);
      Tally(t.sent + Unit(Sends(s, steps[n], e)), t.acknowledged + Unit(Settles(s, steps[n], e, Ack)),
            t.isolated + Unit(Settles(s, steps[n], e, DeadLetter)))
  }

  /** The copies of the event that are queued, held or isolated. */
  ghost function Here(s: System, e: Event): nat {
    s.queue[e] + |HeldOf(s, e)| + s.isolated[e]
  }

  lemma {:induction false} HeldWithout(s: System, s': System, tag: Tag, e: Event)
    requires tag in s.unacked && s'.unacked == s.unacked - {tag}
    ensures |HeldOf(s', e)| == |HeldOf(s, e)| - Unit(s.unacked[tag].message == e)
  {
    assert HeldOf(s', e) == HeldOf(s, e) - {tag};
  }

  lemma {:induction false} HeldWith(s: System, s': System, tag: Tag, m: Event, e: Event)
    requires tag !in s.unacked && s'.unacked == s.unacked[tag := Held(m, Fresh)]
    ensures |HeldOf(s', e)| == |HeldOf(s, e)| + Unit(m == e)
  {
    assert HeldOf(s', e) == HeldOf(s, e) + (if m == e then {tag} else {});
  }

  lemma {:induction false} SameHeld(s: System, s': System, e: Event)
    requires s'.unacked.Keys == s.unacked.Keys && forall tag | tag in s.unacked :: s'.unacked[tag].message == s.unacked[tag].message
    ensures HeldOf(s', e) == HeldOf(s, e)
  {
  }

  /** What a step does to the copies of an event. */
  ghost predicate Balances(s: System, s': System, step: Step, e: Event) {
    && Here(s', e) == Here(s, e) + Unit(Sends(s, step, e)) - Unit(Settles(s, step, e, Ack))
    && s'.isolated[e] == s.isolated[e] + Unit(Settles(s, step, e, DeadLetter))
  }

  lemma {:induction false} TakenBalances(s: System, tag: Tag, m: Event, e: Event)
    ensures Balances(s, Taken(s, tag, m), Deliver(tag, m), e)
  {
    if tag !in s.unacked && m in s.queue {
      HeldWith(s, Taken(s, tag, m), tag, m, e);
    }
  }

  lemma {:induction false} SettledBalances(s: System, tag: Tag, e: Event)
    ensures Balances(s, Settled(s, tag), Settle(tag), e)
  {
    if tag in s.unacked && s.unacked[tag].phase.Decided? {
      HeldWithout(s, Settled(s, tag), tag, e);
    }
  }

  lemma {:induction false} DroppedBalances(s: System, tag: Tag, e: Event)
    ensures Balances(s, Dropped(s, tag), Drop(tag), e)
  {
    if tag in s.unacked {
      HeldWithout(s, Dropped(s, tag), tag, e);
    }
  }

  lemma {:induction false} BrokerBalances(c: O.Config, s: System, step: Step, e: Event)
    requires !OnTables(step)
    ensures Balances(s, BrokerStep(c, s, step), step, e)
  {
    match step
    case Deliver(tag, m) => TakenBalances(s, tag, m, e);
    case Settle(tag) => SettledBalances(s, tag, e);
    case Drop(tag) => DroppedBalances(s, tag, e);
    case _ => SameHeld(s, BrokerStep(c, s, step), e);
  }

  lemma {:induction false} StepBalances(x: Setup, s: System, step: Step, e: Event)
    ensures Balances(s, Do(x, s, step), step, e)
  {
    if OnTables(step) {
      SameHeld(s, TableStep(x, s, step), e);
    } else {
      BrokerBalances(x.config, s, step, e);
    }
  }

  /** Over every run, with crashes, redelivery and duplicates: each copy of an
      event the broker took is queued, held by a consumer, isolated or
      acknowledged, and in only one of these ways; the isolated ones are those a
      consumer rejected. */
  lemma {:induction false} EveryCopyIsOnce(x: Setup, steps: seq<Step>, e: Event)
    ensures
      var s, t := Run(x, steps), TallyOf(x, steps, e);
      && s.queue[e] + |set tag | tag in s.unacked && s.unacked[tag].message == e| + s.isolated[e] + t.acknowledged == t.sent
      && s.isolated[e] == t.isolated
  {
    var s, t := Run(x, steps), TallyOf(x, steps, e);
    CopiesAre(x, steps, e);
    assert HeldOf(s, e) == set tag | tag in s.unacked && s.unacked[tag].message == e;
  }

  lemma {:induction false} CopiesAre(x: Setup, steps: seq<Step>, e: Event)
    ensures Here(Run(x, steps), e) + TallyOf(x, steps, e).acknowledged == TallyOf(x, steps, e).sent
    ensures Run(x, steps).isolated[e] == TallyOf(x, steps, e).isolated
  {
    if steps == [] {
      assert HeldOf(INITIAL, e) == {};
    } else {
      var n := |steps| - 1;
      CopiesAre(x, steps[..n], e);
      StepBalances(x, Run(x, steps[..n]), steps[n], e);
    }
  }
}
