/** The whole pipeline: ledger commits, leased publication, the broker's queue,
    at-least-once consumption, dead letters and their reprocessing, with crashes
    and lost confirms anywhere.  The broker neither loses nor forges messages. */
module Pipeline {
  import opened Domain
  import opened Projection
  import opened Invariants
  import opened Fingerprint
  import opened Identity
  import O = Outbox
  import opened Consumer
  import opened Reprocessing

  type Tag = nat

  /** A delivery a consumer holds unacknowledged, and how far it has come. */
  datatype Held = Held(message: Event, phase: Phase)

  /** A reprocessing pass: the items it read and has not finished, and the next
      transaction of the first of them. */
  datatype Sweep = Sweep(items: seq<DeadRow>, stage: Stage)

  /** events gives the payload of each outbox row; isolated is the broker's
      dead-letter queue. */
  datatype System = System(outbox: O.World, events: map<O.Id, Event>, queue: multiset<Event>,
                           unacked: map<Tag, Held>, isolated: multiset<Event>, tables: Tables, sweeps: map<Tag, Sweep>)

  const INITIAL := System(O.START, map[], multiset{}, map[], multiset{}, NO_TABLES, map[])

  /** What is fixed during a run: the publishers' configuration, the
      fingerprint, the attempts limit and how a payload looks to the consumer. */
  datatype Setup = Setup(config: O.Config, fp: Event -> string, max: nat, wire: Event -> Delivery)
  {
    /** The codecs lose nothing: what the consumer parses is the payload's event. */
    ghost predicate Faithful() {
      CollisionFree(fp) && forall e :: Intact(wire(e), e)
    }
  }

  ghost predicate Intact(d: Delivery, e: Event) {
    && d.Parsed() && (d.parsed.Some? ==> d.parsed.value == e.Canonical())
    && (IdentityKey(d.messageId).Some? ==> IdentityKey(d.messageId).value == e.Canonical().id)
  }

  /** A setup as assumed exists, one that delivers every valid payload. */
  lemma {:induction false} FaithfulSetup(config: O.Config, max: nat) returns (x: Setup)
    ensures x.Faithful() && x.config == config && x.max == max
    ensures forall e: Event | e.Valid() :: Processable(x.wire(e))
  {
    var fp := CollisionFreeFingerprint();
    var wire := (e: Event) => Delivery(e.id, true, false, true, if e.Valid() then Some(e.Canonical()) else None, true);
    forall e: Event
      ensures Intact(wire(e), e)
    {
      if e.Valid() {
        CanonicalSound(e);
      }
    }
    x := Setup(config, fp, max, wire);
  }

  datatype Step =
    | Commit(id: O.Id, event: Event)
    | Publish(step: O.Step)
    | Deliver(tag: Tag, message: Event)
    | Handle(tag: Tag, fault: bool)
    | Settle(tag: Tag)
    | Drop(tag: Tag)
    | Begin(tag: Tag, items: seq<DeadRow>)
    | Continue(tag: Tag, fault: bool)
    | Abandon(tag: Tag)
    | Recover(merchant: string)

  /** The outbox's primary key is the event id: no two rows share one. */
  predicate Unused(s: System, id: O.Id, event: Event) {
    id !in s.outbox.rows && id !in s.events
    && forall k | k in s.events :: s.events[k].Canonical().id != event.Canonical().id
  }

  /** The message an outbox step hands to the broker. */
  function Sent(s: System, step: O.Step): multiset<Event> {
    if (step.Accept? || step.Confirm?) && step.owner in s.outbox.flights && s.outbox.flights[step.owner].event in s.events
    then multiset{s.events[s.outbox.flights[step.owner].event]}
    else multiset{}
  }

  function Taken(s: System, tag: Tag, m: Event): System {
    if tag in s.unacked || m !in s.queue then s
    else s.(queue := s.queue - multiset{m}, unacked := s.unacked[tag := Held(m, Fresh)])
  }

  function Handled(s: System, tag: Tag, next: (Tables, Phase)): System
    requires tag in s.unacked
  {
    s.(tables := next.0, unacked := s.unacked[tag := Held(s.unacked[tag].message, next.1)])
  }

  function Settled(s: System, tag: Tag): System {
    if tag !in s.unacked || !s.unacked[tag].phase.Decided? then s
    else
      var m := s.unacked[tag].message;
      var rest := s.(unacked := s.unacked - {tag});
      match s.unacked[tag].phase.action
      case Ack => rest
      case Requeue(_) => rest.(queue := rest.queue + multiset{m})
      case DeadLetter => rest.(isolated := rest.isolated + multiset{m})
  }

  function Dropped(s: System, tag: Tag): System {
    if tag !in s.unacked then s
    else s.(unacked := s.unacked - {tag}, queue := s.queue + multiset{s.unacked[tag].message})
  }

  /** The rows a pass reads, in some order. */
  predicate IsResultSet(t: Tables, items: seq<DeadRow>) {
    && multiset(items) == multiset(Parked(t.pending, t.dead))
    && forall i | 0 <= i < |items| :: items[i].eventId.Some? && items[i] in t.dead
  }

  /** A pass with a transaction left. */
  predicate Sweeping(s: System, tag: Tag) {
    tag in s.sweeps && s.sweeps[tag].items != [] && s.sweeps[tag].items[0].eventId.Some?
  }

  function Swept(s: System, tag: Tag, next: (Tables, Option<Stage>)): System
    requires Sweeping(s, tag)
  {
    var items := s.sweeps[tag].items;
    s.(tables := next.0,
       sweeps := s.sweeps[tag := if next.1.Some? then Sweep(items, next.1.value) else Sweep(items[1..], Applying)])
  }

  /** Committing, publishing and everything between the broker and a consumer or
      an operator. */
  function BrokerStep(c: O.Config, s: System, step: Step): System {
    match step
    case Commit(id, e) =>
      if !Unused(s, id, e) then s
      else s.(outbox := O.Do(c, s.outbox, O.Commit(id)), events := s.events[id := e])
    case Publish(st) =>
      if st.Commit? then s else s.(outbox := O.Do(c, s.outbox, st), queue := s.queue + Sent(s, st))
    case Deliver(tag, m) => Taken(s, tag, m)
    case Settle(tag) => Settled(s, tag)
    case Drop(tag) => Dropped(s, tag)
    case Begin(tag, items) =>
      if tag in s.sweeps || !IsResultSet(s.tables, items) then s
      else s.(sweeps := s.sweeps[tag := Sweep(items, Applying)])
    case Abandon(tag) => s.(sweeps := s.sweeps - {tag})
    case _ => s
  }

  predicate OnTables(step: Step) {
    step.Handle? || step.Continue? || step.Recover?
  }

  /** The next transaction of a delivery, of a pass, or of a recovery. */
  function TableStep(x: Setup, s: System, step: Step): System
    requires OnTables(step)
  {
    match step
    case Handle(tag, fault) =>
      if tag !in s.unacked then s
      else Handled(s, tag, DeliveryStep(x.fp, x.max, s.tables, x.wire(s.unacked[tag].message), s.unacked[tag].phase, fault))
    case Continue(tag, fault) =>
      if !Sweeping(s, tag) then s
      else Swept(s, tag, ItemStep(x.fp, s.tables, s.sweeps[tag].items[0], s.sweeps[tag].stage, fault))
    case Recover(m) => s.(tables := s.tables.(projection := ResumeNext(s.tables.projection, m)))
  }

  /** One step; a step that is not enabled changes nothing.  Handle and Continue
      may fail.  Settle is the acknowledgement, requeue or rejection reaching the
      broker; Drop is a crash or lost connection, after which the broker
      redelivers; Abandon is the end or crash of a pass. */
  function Do(x: Setup, s: System, step: Step): System {
    if OnTables(step) then TableStep(x, s, step) else BrokerStep(x.config, s, step)
  }

  function Run(x: Setup, steps: seq<Step>): System {
    if steps == [] then INITIAL
    else Do(x, Run(x, steps[..|steps| - 1]), steps[|steps| - 1])
  }

  /* ---- Where an event is ---- */

  ghost predicate Delivered(s: System, e: Event) {
    exists tag :: tag in s.unacked && s.unacked[tag].message == e
  }

  /** The event is queued, held by a consumer, isolated, or accounted for. */
  ghost predicate Located(s: System, e: Event) {
    e in s.queue || Delivered(s, e) || e in s.isolated || Holds(s.tables.projection, e.Canonical())
  }

  /** A consumer on its way to an acknowledgement has the event in the inbox. */
  ghost predicate AcksHeld(s: System) {
    forall tag | tag in s.unacked && (s.unacked[tag].phase == Clearing || s.unacked[tag].phase == Decided(Ack)) ::
      Holds(s.tables.projection, s.unacked[tag].message.Canonical())
  }

  /** A pass past the first transaction of an item has its event in the inbox. */
  ghost predicate SweepsHeld(s: System) {
    forall tag | tag in s.sweeps && s.sweeps[tag].items != [] && s.sweeps[tag].stage != Applying ::
      && s.sweeps[tag].items[0].parsed.Some?
      && Holds(s.tables.projection, s.sweeps[tag].items[0].parsed.value)
  }

  /** A dead letter still in the table or read by a pass. */
  ghost predicate Lettered(s: System, row: DeadRow) {
    row in s.tables.dead || exists tag :: tag in s.sweeps && row in s.sweeps[tag].items
  }

  /** Everything the broker took is still somewhere. */
  ghost predicate NothingLost(s: System) {
    && (forall id | id in s.outbox.rows :: id in s.events)
    && (forall id | id in s.outbox.accepted :: id in s.events && Located(s, s.events[id]))
  }

  /* ---- The transactions on the tables ---- */

  /** The parts of the state the location of events depends on. */
  ghost predicate Sane(s: System) {
    && InboxSound(s.tables.projection) && AcksHeld(s)
    && forall row | Lettered(s, row) && row.parsed.Some? :: Sound(row.parsed.value)
  }

  /** One transaction of a delivery of m: it applies m or leaves the projection
      alone, and leaves at most a dead letter of m. */
  lemma {:induction false} DeliveryTook(x: Setup, t: Tables, m: Event, phase: Phase, fault: bool)
    requires x.Faithful() && InboxSound(t.projection)
    ensures var (t', phase') := DeliveryStep(x.fp, x.max, t, x.wire(m), phase, fault);
            && InboxSound(t'.projection) && Took(t.projection, t'.projection, m.Canonical(), phase' == Clearing)
            && (phase' == Decided(Ack) ==> phase == Clearing || phase == Decided(Ack))
            && (forall row | row in t'.dead ::
                  row in t.dead || (Names(row, m.Canonical()) && (row.parsed.Some? ==> Sound(row.parsed.value))))
  {
    var d := x.wire(m);
    assert Intact(d, m);
    DeliveryCases(x.fp, x.max, t, d, phase, fault);
    if d.parsed.Some? {
      ApplySound(x.fp, t.projection, d.parsed.value);
    }
  }

  /** One transaction of an item: it applies the item's event or leaves the
      projection alone, and adds no dead letter. */
  lemma {:induction false} ItemTook(fp: Event -> string, t: Tables, row: DeadRow, stage: Stage, fault: bool)
    requires CollisionFree(fp) && InboxSound(t.projection) && row.eventId.Some?
    requires row.parsed.Some? ==> Sound(row.parsed.value)
    ensures var (t', next) := ItemStep(fp, t, row, stage, fault);
            && InboxSound(t'.projection)
            && (row.parsed.Some? ==> Took(t.projection, t'.projection, row.parsed.value, next == Some(Unpending)))
            && (row.parsed.None? ==> t'.projection == t.projection && next != Some(Unpending))
            && (next == Some(Deleting) ==> stage == Unpending)
            && (forall r | r in t'.dead :: r in t.dead)
            && (t'.dead != t.dead ==> stage == Deleting && t'.dead == Without(t.dead, {row.eventId.value}))
  {
    ItemCases(fp, t, row, stage, fault);
    if row.parsed.Some? {
      ApplySound(fp, t.projection, row.parsed.value);
    }
    forall r | r in t.dead
      ensures r in Without(t.dead, {row.eventId.value}) ==> r in t.dead
    {
      WithoutKeeps(t.dead, {row.eventId.value}, r);
    }
    WithoutSubset(t.dead, {row.eventId.value});
  }

  lemma {:induction false} WithoutSubset(dead: seq<DeadRow>, gone: set<string>)
    ensures forall r | r in Without(dead, gone) :: r in dead
  {
    forall r | r in Without(dead, gone)
      ensures r in dead
    {
      WithoutKeeps(dead, gone, r);
    }
  }

  lemma {:induction false} ItemCases(fp: Event -> string, t: Tables, row: DeadRow, stage: Stage, fault: bool)
    requires row.eventId.Some?
    ensures var (t', next) := ItemStep(fp, t, row, stage, fault);
            && (next == Some(Unpending) ==>
                  && stage == Applying && row.parsed.Some? && Apply(fp, t.projection, row.parsed.value).1.Ok()
                  && t'.projection == Apply(fp, t.projection, row.parsed.value).0)
            && (next != Some(Unpending) ==> t'.projection == t.projection)
            && (next == Some(Deleting) ==> stage == Unpending)
            && (t'.dead == t.dead || (stage == Deleting && t'.dead == Without(t.dead, {row.eventId.value})))
  {
  }

  /** Only deliveries and passes touch the inbox and the dead letters. */
  predicate Idle(s: System, step: Step) {
    match step
    case Handle(tag, _) => tag !in s.unacked
    case Continue(tag, _) => !Sweeping(s, tag)
    case _ => true
  }

  lemma {:induction false} IdleSameRows(x: Setup, s: System, step: Step)
    requires Idle(s, step)
    ensures var s' := Do(x, s, step);
            s'.tables.dead == s.tables.dead && s'.tables.projection.inbox == s.tables.projection.inbox
  {
  }

  lemma {:induction false} SameInbox(s: State, s': State)
    requires InboxSound(s) && s'.inbox == s.inbox
    ensures InboxSound(s') && Grows(s, s')
  {
  }

  lemma {:induction false} SweptItem(s: System, tag: Tag)
    requires Sweeping(s, tag)
    ensures Lettered(s, s.sweeps[tag].items[0])
  {
    assert s.sweeps[tag].items[0] in s.sweeps[tag].items;
  }

  lemma {:induction false} ProjectionGrows(x: Setup, s: System, step: Step)
    requires x.Faithful() && Sane(s)
    ensures var s' := Do(x, s, step);
            InboxSound(s'.tables.projection) && Grows(s.tables.projection, s'.tables.projection)
  {
    if Idle(s, step) {
      IdleSameRows(x, s, step);
      SameInbox(s.tables.projection, Do(x, s, step).tables.projection);
    } else if step.Handle? {
      DeliveryTook(x, s.tables, s.unacked[step.tag].message, s.unacked[step.tag].phase, step.fault);
    } else {
      SweptItem(s, step.tag);
      ItemTook(x.fp, s.tables, s.sweeps[step.tag].items[0], s.sweeps[step.tag].stage, step.fault);
    }
  }

  /** A consumer's phase changes only when it handles its delivery. */
  lemma {:induction false} NewPhases(x: Setup, s: System, step: Step)
    ensures var s' := Do(x, s, step);
            forall tag | tag in s'.unacked ::
              || (tag in s.unacked && s'.unacked[tag] == s.unacked[tag]) || s'.unacked[tag].phase == Fresh
              || (step.Handle? && step.tag == tag && tag in s.unacked
                  && s'.unacked[tag].message == s.unacked[tag].message)
  {
  }

  lemma {:induction false} HandleKeepsAck(x: Setup, s: System, tag: Tag, fault: bool)
    requires x.Faithful() && InboxSound(s.tables.projection) && AcksHeld(s) && tag in s.unacked
    ensures var s' := Do(x, s, Handle(tag, fault));
            s'.unacked[tag].phase == Clearing || s'.unacked[tag].phase == Decided(Ack) ==>
              Holds(s'.tables.projection, s.unacked[tag].message.Canonical())
  {
    DeliveryTook(x, s.tables, s.unacked[tag].message, s.unacked[tag].phase, fault);
  }

  lemma {:induction false} StepKeepsAcks(x: Setup, s: System, step: Step)
    requires x.Faithful() && Sane(s)
    ensures AcksHeld(Do(x, s, step))
  {
    ProjectionGrows(x, s, step);
    NewPhases(x, s, step);
    if step.Handle? && step.tag in s.unacked {
      HandleKeepsAck(x, s, step.tag, step.fault);
    }
    AcksCarried(s, Do(x, s, step));
  }

  lemma {:induction false} AcksCarried(s: System, s': System)
    requires AcksHeld(s) && Grows(s.tables.projection, s'.tables.projection)
    requires forall tag | tag in s'.unacked && (s'.unacked[tag].phase == Clearing || s'.unacked[tag].phase == Decided(Ack)) ::
               || (tag in s.unacked && s'.unacked[tag] == s.unacked[tag])
               || Holds(s'.tables.projection, s'.unacked[tag].message.Canonical())
    ensures AcksHeld(s')
  {
  }

  /* ---- No step loses an event ---- */

  /** Messages only move: from the queue to a consumer, and from a consumer
      back, aside, or away once acknowledged. */
  ghost predicate Moves(s: System, s': System) {
    && (forall e | e in s.queue :: e in s'.queue || Delivered(s', e))
    && (forall e | e in s.isolated :: e in s'.isolated)
    && (forall tag | tag in s.unacked ::
          || (tag in s'.unacked && s'.unacked[tag].message == s.unacked[tag].message)
          || s.unacked[tag].message in s'.queue || s.unacked[tag].message in s'.isolated
          || s.unacked[tag].phase == Decided(Ack))
  }

  lemma {:induction false} TakenMoves(s: System, tag: Tag, m: Event)
    ensures Moves(s, Taken(s, tag, m))
  {
    var s' := Taken(s, tag, m);
    if s' != s {
      assert s'.unacked[tag].message == m;
      assert Delivered(s', m);
      assert forall e | e in s.queue && e != m :: e in s'.queue;
    }
  }

  lemma {:induction false} HandledMoves(s: System, tag: Tag, next: (Tables, Phase))
    requires tag in s.unacked
    ensures Moves(s, Handled(s, tag, next))
  {
  }

  lemma {:induction false} ReleaseMoves(s: System, s': System, tag: Tag)
    requires tag in s.unacked && s'.unacked == s.unacked - {tag}
    requires s.queue <= s'.queue && s.isolated <= s'.isolated
    requires s.unacked[tag].message in s'.queue || s.unacked[tag].message in s'.isolated || s.unacked[tag].phase == Decided(Ack)
    ensures Moves(s, s')
  {
    forall t | t in s.unacked && t != tag
      ensures t in s'.unacked && s'.unacked[t] == s.unacked[t]
    {
    }
  }

  lemma {:induction false} SettledMoves(s: System, tag: Tag)
    ensures Moves(s, Settled(s, tag))
  {
    if tag in s.unacked && s.unacked[tag].phase.Decided? {
      ReleaseMoves(s, Settled(s, tag), tag);
    }
  }

  lemma {:induction false} DroppedMoves(s: System, tag: Tag)
    ensures Moves(s, Dropped(s, tag))
  {
    if tag in s.unacked {
      ReleaseMoves(s, Dropped(s, tag), tag);
    }
  }

  lemma {:induction false} BrokerMoves(c: O.Config, s: System, step: Step)
    ensures Moves(s, BrokerStep(c, s, step))
  {
    match step
    case Deliver(tag, m) => TakenMoves(s, tag, m);
    case Settle(tag) => SettledMoves(s, tag);
    case Drop(tag) => DroppedMoves(s, tag);
    case _ =>
  }

  lemma {:induction false} TableMoves(x: Setup, s: System, step: Step)
    requires OnTables(step)
    ensures Moves(s, TableStep(x, s, step))
  {
    match step
    case Handle(tag, fault) =>
      if tag in s.unacked {
        HandledMoves(s, tag, DeliveryStep(x.fp, x.max, s.tables, x.wire(s.unacked[tag].message), s.unacked[tag].phase, fault));
      }
    case _ =>
  }

  lemma {:induction false} StepMoves(x: Setup, s: System, step: Step)
    ensures Moves(s, Do(x, s, step))
  {
    if OnTables(step) {
      TableMoves(x, s, step);
    } else {
      BrokerMoves(x.config, s, step);
    }
  }

  lemma {:induction false} MovesLocate(s: System, s': System, e: Event)
    requires Moves(s, s') && Grows(s.tables.projection, s'.tables.projection) && AcksHeld(s) && Located(s, e)
    ensures Located(s', e)
  {
    if Delivered(s, e) {
      var tag :| tag in s.unacked && s.unacked[tag].message == e;
      assert tag in s'.unacked && s'.unacked[tag].message == e ==> Delivered(s', e);
    }
  }

  /** An event that is somewhere stays somewhere, whatever happens next. */
  lemma {:induction false} NoStepLoses(x: Setup, s: System, step: Step, e: Event)
    requires x.Faithful() && Sane(s) && Located(s, e)
    ensures Located(Do(x, s, step), e)
  {
    StepMoves(x, s, step);
    ProjectionGrows(x, s, step);
    MovesLocate(s, Do(x, s, step), e);
  }

  /* ---- Nothing is invented ---- */

  ghost predicate Committed(s: System, e: Event) {
    exists id :: id in s.events && s.events[id] == e
  }

  ghost predicate Rooted(s: System, e: Event) {
    exists id :: id in s.events && s.events[id].Canonical() == e
  }

  /** A dead letter of the event: its payload, if it parses, and its id, if known. */
  predicate Names(row: DeadRow, e: Event) {
    (row.parsed.Some? ==> row.parsed.value == e) && (row.eventId.Some? ==> row.eventId.value == e.id)
  }

  ghost predicate Attributed(s: System, row: DeadRow) {
    exists e :: Rooted(s, e) && Names(row, e)
  }

  ghost predicate MessagesGenuine(s: System) {
    && (forall e | e in s.queue :: Committed(s, e))
    && (forall e | e in s.isolated :: Committed(s, e))
    && (forall tag | tag in s.unacked :: Committed(s, s.unacked[tag].message))
  }

  ghost predicate RowsGenuine(s: System) {
    && (forall k | k in s.tables.projection.inbox :: Rooted(s, s.tables.projection.inbox[k]))
    && (forall row | Lettered(s, row) :: Attributed(s, row))
    && (forall row | Lettered(s, row) && row.parsed.Some? :: Sound(row.parsed.value))
  }

  /** Payloads are never changed, and no two share an event id. */
  ghost predicate Extends(s: System, s': System) {
    forall id | id in s.events :: id in s'.events && s'.events[id] == s.events[id]
  }

  lemma {:induction false} StepExtends(x: Setup, s: System, step: Step)
    ensures Extends(s, Do(x, s, step))
  {
  }

  lemma {:induction false} ExtendsCommitted(s: System, s': System)
    requires Extends(s, s')
    ensures forall e | Committed(s, e) :: Committed(s', e)
    ensures forall e | Rooted(s, e) :: Rooted(s', e)
    ensures forall row | Attributed(s, row) :: Attributed(s', row)
  {
    forall e | Committed(s, e)
      ensures Committed(s', e)
    {
      var id :| id in s.events && s.events[id] == e;
      assert id in s'.events && s'.events[id] == e;
    }
    forall e | Rooted(s, e)
      ensures Rooted(s', e)
    {
      var id :| id in s.events && s.events[id].Canonical() == e;
      assert id in s'.events && s'.events[id].Canonical() == e;
    }
    forall row | Attributed(s, row)
      ensures Attributed(s', row)
    {
      var e :| Rooted(s, e) && Names(row, e);
      assert Rooted(s', e) && Names(row, e);
    }
  }

  /** Every message of s' was a message of s or has just been published. */
  ghost predicate Carries(s: System, s': System) {
    && (forall e | e in s'.queue :: e in s.queue || Delivered(s, e) || Committed(s', e))
    && (forall e | e in s'.isolated :: e in s.isolated || Delivered(s, e))
    && (forall tag | tag in s'.unacked :: s'.unacked[tag].message in s.queue || Delivered(s, s'.unacked[tag].message))
  }

  lemma {:induction false} DeliveredNow(s: System, tag: Tag)
    requires tag in s.unacked
    ensures Delivered(s, s.unacked[tag].message)
  {
  }

  lemma {:induction false} UnackedCarries(s: System, s': System)
    requires s'.queue == s.queue && s'.isolated == s.isolated
    requires forall tag | tag in s'.unacked :: tag in s.unacked && s'.unacked[tag].message == s.unacked[tag].message
    ensures Carries(s, s')
  {
    forall tag | tag in s'.unacked
      ensures Delivered(s, s'.unacked[tag].message)
    {
      DeliveredNow(s, tag);
    }
  }

  lemma {:induction false} TakenCarries(s: System, tag: Tag, m: Event)
    ensures Carries(s, Taken(s, tag, m))
  {
    forall t | t in s.unacked
      ensures Delivered(s, s.unacked[t].message)
    {
      DeliveredNow(s, t);
    }
  }

  lemma {:induction false} ReleaseCarries(s: System, s': System, tag: Tag)
    requires tag in s.unacked && s'.unacked == s.unacked - {tag}
    requires s'.queue <= s.queue + multiset{s.unacked[tag].message} && s'.isolated <= s.isolated + multiset{s.unacked[tag].message}
    ensures Carries(s, s')
  {
    forall t | t in s.unacked
      ensures Delivered(s, s.unacked[t].message)
    {
      DeliveredNow(s, t);
    }
    var m := s.unacked[tag].message;
    forall e | e in s'.queue
      ensures e in s.queue || e == m
    {
      assert (s.queue + multiset{m})[e] > 0;
    }
    forall e | e in s'.isolated
      ensures e in s.isolated || e == m
    {
      assert (s.isolated + multiset{m})[e] > 0;
    }
  }

  lemma {:induction false} SettledCarries(s: System, tag: Tag)
    ensures Carries(s, Settled(s, tag))
  {
    if tag in s.unacked && s.unacked[tag].phase.Decided? {
      ReleaseCarries(s, Settled(s, tag), tag);
    } else {
      UnackedCarries(s, s);
    }
  }

  lemma {:induction false} DroppedCarries(s: System, tag: Tag)
    ensures Carries(s, Dropped(s, tag))
  {
    if tag in s.unacked {
      ReleaseCarries(s, Dropped(s, tag), tag);
    } else {
      UnackedCarries(s, s);
    }
  }

  lemma {:induction false} SentIsCommitted(s: System, step: O.Step)
    ensures forall e | e in Sent(s, step) :: Committed(s, e)
  {
  }

  lemma {:induction false} CarriesGenuine(s: System, s': System)
    requires Carries(s, s') && Extends(s, s') && MessagesGenuine(s)
    ensures MessagesGenuine(s')
  {
    ExtendsCommitted(s, s');
    forall e | Delivered(s, e)
      ensures Committed(s, e)
    {
      var tag :| tag in s.unacked && s.unacked[tag].message == e;
    }
  }

  lemma {:induction false} PublishCarries(c: O.Config, s: System, step: O.Step)
    ensures Carries(s, BrokerStep(c, s, Publish(step)))
  {
    var s' := BrokerStep(c, s, Publish(step));
    SentIsCommitted(s, step);
    forall t | t in s.unacked
      ensures Delivered(s, s.unacked[t].message)
    {
      DeliveredNow(s, t);
    }
    forall e | e in s'.queue
      ensures e in s.queue || Committed(s', e)
    {
      assert e in Sent(s, step) ==> Committed(s, e);
      if e !in s.queue {
        var id :| id in s.events && s.events[id] == e;
        assert id in s'.events && s'.events[id] == e;
      }
    }
  }

  lemma {:induction false} BrokerCarries(c: O.Config, s: System, step: Step)
    ensures Carries(s, BrokerStep(c, s, step))
  {
    match step
    case Deliver(tag, m) => TakenCarries(s, tag, m);
    case Publish(st) => PublishCarries(c, s, st);
    case Settle(tag) => SettledCarries(s, tag);
    case Drop(tag) => DroppedCarries(s, tag);
    case _ => UnackedCarries(s, BrokerStep(c, s, step));
  }

  lemma {:induction false} StepCarries(x: Setup, s: System, step: Step)
    ensures Carries(s, Do(x, s, step))
  {
    if OnTables(step) {
      UnackedCarries(s, TableStep(x, s, step));
    } else {
      BrokerCarries(x.config, s, step);
    }
  }

  lemma {:induction false} CommittedRoots(s: System, m: Event)
    requires Committed(s, m)
    ensures Rooted(s, m.Canonical())
  {
    var id :| id in s.events && s.events[id] == m;
    assert s.events[id].Canonical() == m.Canonical();
  }

  /** Rows stay genuine when only the event e, or a dead letter of it, is added. */
  lemma {:induction false} RowsKept(s: System, s': System, e: Event)
    requires RowsGenuine(s) && Rooted(s, e) && Extends(s, s')
    requires Took(s.tables.projection, s'.tables.projection, e, false)
    requires forall row | Lettered(s', row) ::
               Lettered(s, row) || (Names(row, e) && (row.parsed.Some? ==> Sound(row.parsed.value)))
    ensures RowsGenuine(s')
  {
    ExtendsCommitted(s, s');
    forall row | Lettered(s', row)
      ensures Attributed(s', row)
    {
      assert Lettered(s, row) ==> Attributed(s, row);
      assert Rooted(s', e);
    }
  }

  lemma {:induction false} SameRows(s: System, s': System)
    requires RowsGenuine(s) && Extends(s, s') && s'.tables.projection.inbox == s.tables.projection.inbox
    requires forall row | Lettered(s', row) :: Lettered(s, row)
    ensures RowsGenuine(s')
  {
    ExtendsCommitted(s, s');
  }

  lemma {:induction false} HandleLetters(s: System, s': System)
    requires s'.sweeps == s.sweeps
    ensures forall row | Lettered(s', row) :: Lettered(s, row) || row in s'.tables.dead
  {
  }

  lemma {:induction false} HandleKeepsRows(x: Setup, s: System, tag: Tag, fault: bool)
    requires x.Faithful() && InboxSound(s.tables.projection) && RowsGenuine(s) && MessagesGenuine(s) && tag in s.unacked
    ensures RowsGenuine(Do(x, s, Handle(tag, fault)))
  {
    var m := s.unacked[tag].message;
    var s' := Do(x, s, Handle(tag, fault));
    DeliveryTook(x, s.tables, m, s.unacked[tag].phase, fault);
    CommittedRoots(s, m);
    HandleLetters(s, s');
    RowsKept(s, s', m.Canonical());
  }

  lemma {:induction false} SweptLetters(s: System, tag: Tag, next: (Tables, Option<Stage>))
    requires Sweeping(s, tag) && forall r | r in next.0.dead :: r in s.tables.dead
    ensures forall row | Lettered(Swept(s, tag, next), row) :: Lettered(s, row)
  {
    var s' := Swept(s, tag, next);
    forall row | Lettered(s', row)
      ensures Lettered(s, row)
    {
      if row !in s'.tables.dead {
        var t :| t in s'.sweeps && row in s'.sweeps[t].items;
        assert t in s.sweeps && row in s.sweeps[t].items;
      }
    }
  }

  lemma {:induction false} ContinueKeepsRows(x: Setup, s: System, tag: Tag, fault: bool)
    requires x.Faithful() && InboxSound(s.tables.projection) && RowsGenuine(s) && Sweeping(s, tag)
    ensures RowsGenuine(Do(x, s, Continue(tag, fault)))
  {
    var row := s.sweeps[tag].items[0];
    var next := ItemStep(x.fp, s.tables, row, s.sweeps[tag].stage, fault);
    SweptItem(s, tag);
    ItemTook(x.fp, s.tables, row, s.sweeps[tag].stage, fault);
    SweptLetters(s, tag, next);
    var e :| Rooted(s, e) && Names(row, e);
    RowsKept(s, Swept(s, tag, next), e);
  }

  lemma {:induction false} IdleLetters(x: Setup, s: System, step: Step)
    requires Idle(s, step)
    ensures forall row | Lettered(Do(x, s, step), row) :: Lettered(s, row)
  {
    IdleSameRows(x, s, step);
    var s' := Do(x, s, step);
    forall row | Lettered(s', row)
      ensures Lettered(s, row)
    {
      if row !in s'.tables.dead {
        var t :| t in s'.sweeps && row in s'.sweeps[t].items;
        IdleSweeps(x, s, step, t, row);
      }
    }
  }

  lemma {:induction false} IdleSweeps(x: Setup, s: System, step: Step, t: Tag, row: DeadRow)
    requires Idle(s, step) && t in Do(x, s, step).sweeps && row in Do(x, s, step).sweeps[t].items
    ensures Lettered(s, row)
  {
    if step.Begin? && step.tag == t && t !in s.sweeps {
      var i :| 0 <= i < |step.items| && step.items[i] == row;
    } else {
      assert t in s.sweeps && row in s.sweeps[t].items;
    }
  }

  lemma {:induction false} StepKeepsRows(x: Setup, s: System, step: Step)
    requires x.Faithful() && InboxSound(s.tables.projection) && RowsGenuine(s) && MessagesGenuine(s)
    ensures RowsGenuine(Do(x, s, step))
  {
    if Idle(s, step) {
      IdleSameRows(x, s, step);
      IdleLetters(x, s, step);
      StepExtends(x, s, step);
      SameRows(s, Do(x, s, step));
    } else if step.Handle? {
      HandleKeepsRows(x, s, step.tag, step.fault);
    } else {
      ContinueKeepsRows(x, s, step.tag, step.fault);
    }
  }

  /* ---- What a pass may delete ---- */

  lemma {:induction false} StepKeepsSweeps(x: Setup, s: System, step: Step)
    requires x.Faithful() && Sane(s) && SweepsHeld(s)
    ensures SweepsHeld(Do(x, s, step))
  {
    ProjectionGrows(x, s, step);
    NewStages(x, s, step);
    if step.Continue? && Sweeping(s, step.tag) {
      ContinueKeepsSweep(x, s, step.tag, step.fault);
    }
    SweepsCarried(s, Do(x, s, step));
  }

  /** A pass moves on only when it continues. */
  lemma {:induction false} NewStages(x: Setup, s: System, step: Step)
    ensures var s' := Do(x, s, step);
            forall tag | tag in s'.sweeps ::
              || (tag in s.sweeps && s'.sweeps[tag] == s.sweeps[tag]) || s'.sweeps[tag].stage == Applying
              || (step.Continue? && step.tag == tag && Sweeping(s, tag))
  {
  }

  lemma {:induction false} ContinueKeepsSweep(x: Setup, s: System, tag: Tag, fault: bool)
    requires x.Faithful() && Sane(s) && SweepsHeld(s) && Sweeping(s, tag)
    ensures var s' := Do(x, s, Continue(tag, fault));
            s'.sweeps[tag].items != [] && s'.sweeps[tag].stage != Applying ==>
              && s'.sweeps[tag].items[0].parsed.Some?
              && Holds(s'.tables.projection, s'.sweeps[tag].items[0].parsed.value)
  {
    SweptItem(s, tag);
    ItemTook(x.fp, s.tables, s.sweeps[tag].items[0], s.sweeps[tag].stage, fault);
    ItemStages(x.fp, s.tables, s.sweeps[tag].items[0], s.sweeps[tag].stage, fault);
  }

  lemma {:induction false} ItemStages(fp: Event -> string, t: Tables, row: DeadRow, stage: Stage, fault: bool)
    requires row.eventId.Some?
    ensures var next := ItemStep(fp, t, row, stage, fault).1;
            next.None? || next == Some(Unpending) || next == Some(Deleting)
  {
  }

  lemma {:induction false} SweepsCarried(s: System, s': System)
    requires SweepsHeld(s) && Grows(s.tables.projection, s'.tables.projection)
    requires forall tag | tag in s'.sweeps && s'.sweeps[tag].items != [] && s'.sweeps[tag].stage != Applying ::
               || (tag in s.sweeps && s'.sweeps[tag] == s.sweeps[tag])
               || (s'.sweeps[tag].items[0].parsed.Some? && Holds(s'.tables.projection, s'.sweeps[tag].items[0].parsed.value))
    ensures SweepsHeld(s')
  {
  }

  /** The projection changes only by its own transactions. */
  ghost predicate Moved(fp: Event -> string, p: State, p': State) {
    p' == p || (exists e :: p' == Apply(fp, p, e).0) || exists m :: p' == ResumeNext(p, m)
  }

  lemma {:induction false} HandleMoves(x: Setup, s: System, tag: Tag, fault: bool)
    ensures Moved(x.fp, s.tables.projection, Do(x, s, Handle(tag, fault)).tables.projection)
  {
    if tag in s.unacked {
      DeliveryCases(x.fp, x.max, s.tables, x.wire(s.unacked[tag].message), s.unacked[tag].phase, fault);
    }
  }

  lemma {:induction false} ContinueMoves(x: Setup, s: System, tag: Tag, fault: bool)
    ensures Moved(x.fp, s.tables.projection, Do(x, s, Continue(tag, fault)).tables.projection)
  {
    if Sweeping(s, tag) {
      ItemCases(x.fp, s.tables, s.sweeps[tag].items[0], s.sweeps[tag].stage, fault);
    }
  }

  lemma {:induction false} ProjectionMoves(x: Setup, s: System, step: Step)
    ensures Moved(x.fp, s.tables.projection, Do(x, s, step).tables.projection)
  {
    match step
    case Handle(tag, fault) => HandleMoves(x, s, tag, fault);
    case Continue(tag, fault) => ContinueMoves(x, s, tag, fault);
    case Recover(m) =>
    case _ =>
  }

  lemma {:induction false} MovedKeepsInv(fp: Event -> string, p: State, p': State)
    requires Inv(p) && Moved(fp, p, p')
    ensures Inv(p')
  {
    if e :| p' == Apply(fp, p, e).0 {
      ApplyKeepsInv(fp, p, e);
    } else if m :| p' == ResumeNext(p, m) {
      ResumeKeepsInv(p, m);
    }
  }

  lemma {:induction false} StepKeepsInv(x: Setup, s: System, step: Step)
    requires Inv(s.tables.projection)
    ensures Inv(Do(x, s, step).tables.projection)
  {
    ProjectionMoves(x, s, step);
    MovedKeepsInv(x.fp, s.tables.projection, Do(x, s, step).tables.projection);
  }

  /* ---- The pipeline invariant ---- */

  ghost predicate PipelineInv(x: Setup, s: System) {
    && O.Inv(x.config, s.outbox) && NothingLost(s)
    && InboxSound(s.tables.projection) && AcksHeld(s) && MessagesGenuine(s) && RowsGenuine(s) && SweepsHeld(s)
  }

  /** Whatever the broker newly takes is then in its queue. */
  lemma {:induction false} AcceptedIsQueued(x: Setup, s: System, step: Step, id: O.Id)
    requires O.Inv(x.config, s.outbox) && NothingLost(s)
    requires id in Do(x, s, step).outbox.accepted && id !in s.outbox.accepted
    ensures id in s.events && s.events[id] in Do(x, s, step).queue
  {
    assert O.Guarded(x.config, s.outbox, step.step.owner);
  }

  /** Consuming, reprocessing and recovering concern only the consumer's side. */
  lemma {:induction false} OnlyTables(x: Setup, s: System, step: Step)
    requires OnTables(step)
    ensures Do(x, s, step).events == s.events && Do(x, s, step).outbox == s.outbox
  {
  }

  lemma {:induction false} StepKeepsRowsPaid(x: Setup, s: System, step: Step)
    requires NothingLost(s)
    ensures forall id | id in Do(x, s, step).outbox.rows :: id in Do(x, s, step).events
  {
    if OnTables(step) {
      OnlyTables(x, s, step);
    } else if step.Publish? && !step.step.Commit? {
      PublishRows(x.config, s.outbox, step.step);
    }
  }

  lemma {:induction false} PublishRows(c: O.Config, w: O.World, step: O.Step)
    requires !step.Commit?
    ensures O.Do(c, w, step).rows.Keys == w.rows.Keys
  {
  }

  lemma {:induction false} StepLosesNothing(x: Setup, s: System, step: Step)
    requires x.Faithful() && PipelineInv(x, s)
    ensures NothingLost(Do(x, s, step))
  {
    var s' := Do(x, s, step);
    StepExtends(x, s, step);
    StepKeepsRowsPaid(x, s, step);
    forall id | id in s'.outbox.accepted
      ensures id in s'.events && Located(s', s'.events[id])
    {
      if id in s.outbox.accepted {
        NoStepLoses(x, s, step, s.events[id]);
      } else {
        AcceptedIsQueued(x, s, step, id);
      }
    }
  }

  lemma {:induction false} StepKeepsOutbox(x: Setup, s: System, step: Step)
    requires O.Inv(x.config, s.outbox)
    ensures O.Inv(x.config, Do(x, s, step).outbox)
  {
    match step
    case Commit(id, e) => O.DoKeepsInv(x.config, s.outbox, O.Commit(id));
    case Publish(st) => O.DoKeepsInv(x.config, s.outbox, st);
    case _ =>
  }

  lemma {:induction false} StepKeepsPipeline(x: Setup, s: System, step: Step)
    requires x.Faithful() && PipelineInv(x, s)
    ensures PipelineInv(x, Do(x, s, step))
  {
    StepKeepsOutbox(x, s, step);
    StepLosesNothing(x, s, step);
    ProjectionGrows(x, s, step);
    StepKeepsAcks(x, s, step);
    StepExtends(x, s, step);
    StepCarries(x, s, step);
    CarriesGenuine(s, Do(x, s, step));
    StepKeepsRows(x, s, step);
    StepKeepsSweeps(x, s, step);
  }

  lemma {:induction false} EveryRunKeepsPipeline(x: Setup, steps: seq<Step>)
    requires x.Faithful()
    ensures PipelineInv(x, Run(x, steps)) && Inv(Run(x, steps).tables.projection)
  {
    if steps == [] {
      EmptyInv();
    } else {
      var n := |steps| - 1;
      EveryRunKeepsPipeline(x, steps[..n]);
      StepKeepsPipeline(x, Run(x, steps[..n]), steps[n]);
      StepKeepsInv(x, Run(x, steps[..n]), steps[n]);
    }
  }

  /** End to end, over every run: each committed entry's event is still
      unpublished in the outbox, or in the queue, or held by a consumer, or
      isolated, or accounted for; everything accounted for was committed, and
      the daily totals are the fold of exactly those events. */
  lemma {:induction false} EveryEventIsSomewhere(x: Setup, steps: seq<Step>)
    requires x.Faithful()
    ensures var s := Run(x, steps);
            && (forall id | id in s.outbox.rows ::
                  id in s.events && (!s.outbox.rows[id].published || Located(s, s.events[id])))
            && (forall k | k in s.tables.projection.inbox :: Rooted(s, s.tables.projection.inbox[k]))
            && Inv(s.tables.projection)
  {
    var s := Run(x, steps);
    EveryRunKeepsPipeline(x, steps);
    forall id | id in s.outbox.rows
      ensures id in s.events && (!s.outbox.rows[id].published || Located(s, s.events[id]))
    {
      assert O.Prompt(x.config, s.outbox, id);
    }
  }

  /** Everything is published and consumed, and what was isolated has since
      been accounted for. */
  ghost predicate Quiet(s: System) {
    && (forall id | id in s.outbox.rows :: s.outbox.rows[id].published)
    && s.queue == multiset{} && s.unacked == map[]
    && (forall e | e in s.isolated :: Holds(s.tables.projection, e.Canonical()))
  }

  /** Once everything is published and consumed, and what was isolated has been
      accounted for, the inbox holds exactly the committed events. */
  lemma {:induction false} QuietPipelineIsComplete(x: Setup, steps: seq<Step>)
    requires x.Faithful() && Quiet(Run(x, steps))
    ensures var s := Run(x, steps);
            && (forall id | id in s.outbox.rows :: id in s.events && Holds(s.tables.projection, s.events[id].Canonical()))
            && (forall k | k in s.tables.projection.inbox :: Rooted(s, s.tables.projection.inbox[k]))
  {
    EveryEventIsSomewhere(x, steps);
  }

  /* ---- Reprocessing drops only what is accounted for ---- */

  ghost predicate IdsUnique(s: System) {
    forall j, k | j in s.events && k in s.events && s.events[j].Canonical().id == s.events[k].Canonical().id :: j == k
  }

  lemma {:induction false} RunIdsUnique(x: Setup, steps: seq<Step>)
    ensures IdsUnique(Run(x, steps))
  {
    if steps != [] {
      var n := |steps| - 1;
      RunIdsUnique(x, steps[..n]);
      EventsOnlyCommitted(x, Run(x, steps[..n]), steps[n]);
    }
  }

  lemma {:induction false} BrokerEvents(c: O.Config, s: System, step: Step)
    ensures BrokerStep(c, s, step).events == s.events
         || (step.Commit? && Unused(s, step.id, step.event) && BrokerStep(c, s, step).events == s.events[step.id := step.event])
  {
  }

  lemma {:induction false} EventsOnlyCommitted(x: Setup, s: System, step: Step)
    ensures Do(x, s, step).events == s.events
         || (step.Commit? && Unused(s, step.id, step.event) && Do(x, s, step).events == s.events[step.id := step.event])
  {
    if OnTables(step) {
      OnlyTables(x, s, step);
    } else {
      BrokerEvents(x.config, s, step);
    }
  }

  lemma {:induction false} SameIdSameEvent(s: System, a: Event, b: Event)
    requires IdsUnique(s) && Rooted(s, a) && Rooted(s, b) && a.id == b.id
    ensures a == b
  {
    var j :| j in s.events && s.events[j].Canonical() == a;
    var k :| k in s.events && s.events[k].Canonical() == b;
    assert s.events[j].Canonical().id == s.events[k].Canonical().id;
  }

  /** Every payload belongs to an outbox row. */
  lemma {:induction false} RunEventsHaveRows(x: Setup, steps: seq<Step>)
    ensures Run(x, steps).events.Keys <= Run(x, steps).outbox.rows.Keys
  {
    if steps != [] {
      var n := |steps| - 1;
      RunEventsHaveRows(x, steps[..n]);
      StepKeepsEventRows(x, Run(x, steps[..n]), steps[n]);
    }
  }

  lemma {:induction false} StepKeepsEventRows(x: Setup, s: System, step: Step)
    requires s.events.Keys <= s.outbox.rows.Keys
    ensures Do(x, s, step).events.Keys <= Do(x, s, step).outbox.rows.Keys
  {
    if OnTables(step) {
      OnlyTables(x, s, step);
    } else if step.Publish? && !step.step.Commit? {
      PublishRows(x.config, s.outbox, step.step);
    }
  }

  /** Whatever else is going on, a dead letter disappears only when its committed
      event is in the inbox, even if that row's own payload fails to parse: in a
      pipeline without forged messages an event id determines its event. */
  lemma {:induction false} RemovedIsHeld(x: Setup, steps: seq<Step>, step: Step, row: DeadRow)
    requires x.Faithful()
    requires row in Run(x, steps).tables.dead && row !in Do(x, Run(x, steps), step).tables.dead
    ensures exists e :: Rooted(Run(x, steps), e) && Names(row, e)
                        && Holds(Do(x, Run(x, steps), step).tables.projection, e)
  {
    var s := Run(x, steps);
    EveryRunKeepsPipeline(x, steps);
    RunIdsUnique(x, steps);
    OnlyDeletingRemoves(x, s, step, row);
    RemovedByItem(x, s, step.tag, step.fault, row);
  }

  lemma {:induction false} OnlyDeletingRemoves(x: Setup, s: System, step: Step, row: DeadRow)
    requires row in s.tables.dead && row !in Do(x, s, step).tables.dead
    ensures step.Continue? && Sweeping(s, step.tag)
  {
    if Idle(s, step) {
      IdleSameRows(x, s, step);
    } else if step.Handle? {
      DeliveryCases(x.fp, x.max, s.tables, x.wire(s.unacked[step.tag].message), s.unacked[step.tag].phase, step.fault);
    }
  }

  lemma {:induction false} RemovedByItem(x: Setup, s: System, tag: Tag, fault: bool, row: DeadRow)
    requires RowsGenuine(s) && SweepsHeld(s) && IdsUnique(s) && Sweeping(s, tag)
    requires row in s.tables.dead && row !in Do(x, s, Continue(tag, fault)).tables.dead
    ensures exists e :: Rooted(s, e) && Names(row, e) && Holds(Do(x, s, Continue(tag, fault)).tables.projection, e)
  {
    var item := s.sweeps[tag].items[0];
    ItemCases(x.fp, s.tables, item, s.sweeps[tag].stage, fault);
    WithoutKeeps(s.tables.dead, {item.eventId.value}, row);
    SweptItem(s, tag);
    RemovedEvent(s, item, row, s.tables.projection);
  }

  lemma {:induction false} RemovedEvent(s: System, item: DeadRow, row: DeadRow, p: State)
    requires IdsUnique(s) && Attributed(s, item) && Attributed(s, row)
    requires item.eventId.Some? && item.eventId == row.eventId && item.parsed.Some? && Holds(p, item.parsed.value)
    ensures exists e :: Rooted(s, e) && Names(row, e) && Holds(p, e)
  {
    var a :| Rooted(s, a) && Names(item, a);
    var b :| Rooted(s, b) && Names(row, b);
    SameIdSameEvent(s, a, b);
  }
}
