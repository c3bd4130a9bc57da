/** One delivery, from the broker's queue to an acknowledgement, a retry or the
    dead-letter queue. */
module Consumer {
  import opened Domain
  import opened Projection
  import opened Invariants
  import opened Fingerprint
  import opened Identity
  import S = Store

  /** An event_pending row; its class is retry or dlq. */
  datatype PendingRow = PendingRow(dlq: bool, attempts: nat)

  /** A dead_letter_event row; parsed is what parsing its payload yields. */
  datatype DeadRow = DeadRow(eventId: Option<string>, parsed: Option<Event>)

  type Pendency = map<string, PendingRow>

  datatype Tables = Tables(projection: State, pending: Pendency, dead: seq<DeadRow>)

  const NO_TABLES := Tables(EMPTY, map[], [])

  /** A delivery as its checks see it: supported is its type, schema the schema
      of its body, parsed its event in canonical form, identity the agreement
      of its properties and headers with that event. */
  datatype Delivery = Delivery(messageId: string, supported: bool, empty: bool, schema: bool,
                               parsed: Option<Event>, identity: bool)
  {
    /** Parsing yields only validated events in canonical form. */
    ghost predicate Parsed() {
      (parsed.Some? ==> Sound(parsed.value)) && (empty ==> parsed.None? && !schema)
    }
  }

  /** The transient failures of one processing; clock and jitter play no part in the decision. */
  datatype Faults = Faults(apply: bool, dead: bool, pending: bool, clear: bool)

  datatype Action = Ack | Requeue(attempts: nat) | DeadLetter

  function Upserted(pending: Pendency, key: string, dlq: bool): Pendency {
    pending[key := PendingRow(dlq, if key in pending then pending[key].attempts + 1 else 1)]
  }

  /** The AMQP message id, when it is a UUID; uuid columns compare in lower case. */
  function IdentityKey(messageId: string): Option<string> {
    if IsUuid(messageId) then Some(ToLower(messageId)) else None
  }

  /** The dead-letter row and the pendency of a failure; either write may fail. */
  function Escalated(t: Tables, key: Option<string>, empty: bool, parsed: Option<Event>, f: Faults): Tables {
    t.(dead := if empty || f.dead then t.dead else t.dead + [DeadRow(key, parsed)],
       pending := if key.None? || f.pending then t.pending else Upserted(t.pending, key.value, true))
  }

  /** processDelivery: the tables afterwards and what the delivery deserves. */
  function Process(fp: Event -> string, max: nat, t: Tables, d: Delivery, f: Faults): (Tables, Action) {
    if !d.supported || !d.schema || d.parsed.None?
    then (Escalated(t, IdentityKey(d.messageId), d.empty, d.parsed, f), DeadLetter)
    else
      var e := d.parsed.value;
      if !d.identity then (Escalated(t, Some(e.id), d.empty, d.parsed, f), DeadLetter)
      else if f.apply then Retried(max, t, e, f)
      else
        var (projection, outcome) := Apply(fp, t.projection, e);
        if !outcome.Ok() then (Escalated(t, Some(e.id), false, Some(e), f), DeadLetter)
        else (t.(projection := projection, pending := if f.clear then t.pending else t.pending - {e.id}), Ack)
  }

  /** A transient failure counts one more attempt, and escalates at the
      maximum; a count that could not be stored reads as zero. */
  function Retried(max: nat, t: Tables, e: Event, f: Faults): (Tables, Action) {
    var pending := if f.pending then t.pending else Upserted(t.pending, e.id, false);
    var attempts := if f.pending then 0 else pending[e.id].attempts;
    if attempts >= max then (Escalated(t.(pending := pending), Some(e.id), false, Some(e), f), DeadLetter)
    else (t.(pending := pending), Requeue(attempts))
  }

  /* ---- What a delivery may do ---- */

  /** An acknowledgement means the delivery's own event is in the inbox; any
      other decision leaves the projection alone.  The inbox gains at most that
      event and never loses a row, and totals, progress and jobs keep agreeing
      with it. */
  lemma {:induction false} AckMeansHeld(fp: Event -> string, max: nat, t: Tables, d: Delivery, f: Faults)
    requires CollisionFree(fp) && InboxSound(t.projection) && d.Parsed()
    ensures var (t', action) := Process(fp, max, t, d, f);
            && InboxSound(t'.projection)
            && (d.parsed.Some? ==> Took(t.projection, t'.projection, d.parsed.value, action == Ack))
            && (action != Ack ==> t'.projection == t.projection)
            && (action == Ack ==> d.parsed.Some?)
            && (Inv(t.projection) ==> Inv(t'.projection))
  {
    ProcessCases(fp, max, t, d, f);
    if d.parsed.Some? {
      ApplySound(fp, t.projection, d.parsed.value);
    }
    if Inv(t.projection) {
      ProcessKeepsInv(fp, max, t, d, f);
    }
  }

  lemma {:induction false} ProcessCases(fp: Event -> string, max: nat, t: Tables, d: Delivery, f: Faults)
    ensures var (t', action) := Process(fp, max, t, d, f);
            if action == Ack
            then d.parsed.Some? && Apply(fp, t.projection, d.parsed.value).1.Ok()
                 && t'.projection == Apply(fp, t.projection, d.parsed.value).0
            else t'.projection == t.projection
  {
  }

  lemma {:induction false} ProcessKeepsInv(fp: Event -> string, max: nat, t: Tables, d: Delivery, f: Faults)
    requires Inv(t.projection)
    ensures Inv(Process(fp, max, t, d, f).0.projection)
  {
    ProcessCases(fp, max, t, d, f);
    if d.parsed.Some? {
      ApplyKeepsInv(fp, t.projection, d.parsed.value);
    }
  }

  /** A delivery adds at most one dead letter, with its payload and its id. */
  lemma {:induction false} ProcessDead(fp: Event -> string, max: nat, t: Tables, d: Delivery, f: Faults)
    ensures var t' := Process(fp, max, t, d, f).0;
            || t'.dead == t.dead
            || t'.dead == t.dead + [DeadRow(IdentityKey(d.messageId), d.parsed)]
            || (d.parsed.Some? && t'.dead == t.dead + [DeadRow(Some(d.parsed.value.id), d.parsed)])
  {
  }

  /** Every pendency but that of one event is as it was. */
  ghost predicate SameBut(pending: Pendency, pending': Pendency, key: string) {
    forall k | k != key :: (k in pending' <==> k in pending) && (k in pending ==> pending'[k] == pending[k])
  }

  /** The event whose pendency a delivery is about: that of its payload, or, when
      its type, schema or payload is refused, the one its message id names. */
  function Subject(d: Delivery): Option<string> {
    if d.supported && d.schema && d.parsed.Some? then Some(d.parsed.value.id)
    else if IsUuid(d.messageId) then Some(ToLower(d.messageId))
    else None
  }

  /** The decision on a delivery, and all it does besides the projection.  An
      acknowledgement clears the event's pendency; a transient failure counts an
      attempt and requeues below the maximum; everything else is isolated, with a
      dead letter of the payload and a pendency of class dlq.  No other event's
      pendency is touched, and a write that fails changes nothing. */
  lemma {:induction false} DeliveryIs(fp: Event -> string, max: nat, t: Tables, d: Delivery, f: Faults)
    requires max >= 1 && (d.empty ==> d.parsed.None?)
    ensures
      var (t', action) := Process(fp, max, t, d, f);
      var fit := d.supported && d.schema && d.parsed.Some? && d.identity;
      match action
      case Ack =>
        && fit && !f.apply && Apply(fp, t.projection, d.parsed.value).1.Ok() && t'.dead == t.dead
        && SameBut(t.pending, t'.pending, d.parsed.value.id)
        && (if f.clear then t'.pending == t.pending else d.parsed.value.id !in t'.pending)
      case Requeue(n) =>
        && fit && f.apply && t'.dead == t.dead && SameBut(t.pending, t'.pending, d.parsed.value.id)
        && (if f.pending then n == 0 && t'.pending == t.pending
            else n == Attempts(t, d.parsed.value.id) + 1 < max && d.parsed.value.id in t'.pending
                 && t'.pending[d.parsed.value.id] == PendingRow(false, n))
      case DeadLetter =>
        && (fit && f.apply ==> !f.pending && Attempts(t, d.parsed.value.id) + 1 >= max)
        && (fit && !f.apply ==> !Apply(fp, t.projection, d.parsed.value).1.Ok())
        && t'.dead == t.dead + (if f.dead || d.empty then [] else [DeadRow(Subject(d), d.parsed)])
        && (if Subject(d).None? || f.pending then t'.pending == t.pending
            else
              var key := Subject(d).value;
              && SameBut(t.pending, t'.pending, key) && key in t'.pending
              && t'.pending[key] == PendingRow(true, Attempts(t, key) + (if fit && f.apply then 2 else 1)))
  {
  }

  /* ---- Retries are bounded by the stored attempts ---- */

  /** The last of a series of deliveries of the same event, each failing
      transiently; each may or may not manage to store its attempt. */
  function Failing(fp: Event -> string, max: nat, t: Tables, d: Delivery, fs: seq<Faults>): (Tables, Action)
    requires fs != []
  {
    var n := |fs| - 1;
    var before := if n == 0 then t else Failing(fp, max, t, d, fs[..n]).0;
    Process(fp, max, before, d, fs[n].(apply := true))
  }

  function Attempts(t: Tables, key: string): nat {
    if key in t.pending then t.pending[key].attempts else 0
  }

  /** How many of the failures stored their attempt. */
  function StoredAttempts(fs: seq<Faults>): nat {
    if fs == [] then 0 else StoredAttempts(fs[..|fs| - 1]) + (if fs[|fs| - 1].pending then 0 else 1)
  }

  predicate Processable(d: Delivery) {
    d.supported && d.schema && d.parsed.Some? && d.identity
  }

  /** Whatever fails besides: the event is requeued while the stored attempts
      stay below the maximum and isolated by the failure whose stored attempt
      reaches it; a failure that cannot store its attempt always requeues. */
  lemma {:induction false} RetriesFollowTheCount(fp: Event -> string, max: nat, t: Tables, d: Delivery, fs: seq<Faults>)
    requires fs != [] && Processable(d) && max >= 1
    requires Attempts(t, d.parsed.value.id) + StoredAttempts(fs[..|fs| - 1]) < max
    ensures var (t', action) := Failing(fp, max, t, d, fs);
            var key, last := d.parsed.value.id, fs[|fs| - 1];
            var attempts := Attempts(t, key) + StoredAttempts(fs);
            && (action == if last.pending then Requeue(0) else if attempts < max then Requeue(attempts) else DeadLetter)
            && (action != DeadLetter ==> Attempts(t', key) == attempts && t'.dead == t.dead)
            && (action == DeadLetter ==>
                  && t'.dead == t.dead + (if last.dead then [] else [DeadRow(Some(key), d.parsed)])
                  && key in t'.pending && t'.pending[key].dlq)
            && t'.projection == t.projection
    decreases |fs|
  {
    if |fs| > 1 {
      RetriesFollowTheCount(fp, max, t, d, fs[..|fs| - 1]);
    }
  }

  /** So there is no bound on the retries of an outage that also keeps the
      attempts from being stored. */
  lemma {:induction false} OutageNeverIsolates(fp: Event -> string, max: nat, t: Tables, d: Delivery, fs: seq<Faults>)
    requires fs != [] && Processable(d) && max >= 1 && forall i | 0 <= i < |fs| :: fs[i].pending
    ensures Failing(fp, max, t, d, fs) == (t, Requeue(0))
    decreases |fs|
  {
    if |fs| > 1 {
      OutageNeverIsolates(fp, max, t, d, fs[..|fs| - 1]);
    }
  }

  /* ---- One transaction at a time ---- */

  /** Where processDelivery stands between its transactions. */
  datatype Phase = Fresh | Counting | Recording | Filing | Clearing | Decided(action: Action)

  /** The dead letter a delivery would leave. */
  function Letter(d: Delivery): DeadRow {
    if !d.supported || !d.schema || d.parsed.None?
    then DeadRow(IdentityKey(d.messageId), d.parsed)
    else DeadRow(Some(d.parsed.value.id), d.parsed)
  }

  /** The next transaction of a delivery, failing if fault is set. */
  function DeliveryStep(fp: Event -> string, max: nat, t: Tables, d: Delivery, phase: Phase, fault: bool): (Tables, Phase) {
    match phase
    case Fresh =>
      if !Processable(d) then (t, Recording)
      else if fault then (t, Counting)
      else
        var (projection, outcome) := Apply(fp, t.projection, d.parsed.value);
        if outcome.Ok() then (t.(projection := projection), Clearing) else (t, Recording)
    case Counting =>
      if d.parsed.None? then (t, phase)
      else
        var key := d.parsed.value.id;
        var pending := if fault then t.pending else Upserted(t.pending, key, false);
        var attempts := if fault then 0 else pending[key].attempts;
        (t.(pending := pending), if attempts >= max then Recording else Decided(Requeue(attempts)))
    case Recording =>
      (t.(dead := if fault || d.empty then t.dead else t.dead + [Letter(d)]),
       if Letter(d).eventId.Some? then Filing else Decided(DeadLetter))
    case Filing =>
      (if fault || Letter(d).eventId.None? then t else t.(pending := Upserted(t.pending, Letter(d).eventId.value, true)),
       Decided(DeadLetter))
    case Clearing =>
      (if fault || d.parsed.None? then t else t.(pending := t.pending - {d.parsed.value.id}), Decided(Ack))
    case Decided(_) => (t, phase)
  }

  function FaultAt(phase: Phase, f: Faults): bool {
    match phase
    case Fresh => f.apply
    case Counting => f.pending
    case Recording => f.dead
    case Filing => f.pending
    case Clearing => f.clear
    case Decided(_) => false
  }

  /** n transactions in a row. */
  function DeliverySteps(fp: Event -> string, max: nat, t: Tables, d: Delivery, phase: Phase, f: Faults, n: nat): (Tables, Phase)
    decreases n
  {
    if n == 0 then (t, phase)
    else
      var (t', phase') := DeliveryStep(fp, max, t, d, phase, FaultAt(phase, f));
      DeliverySteps(fp, max, t', d, phase', f, n - 1)
  }

  /** Undisturbed, the four transactions a delivery can take are processDelivery. */
  lemma {:induction false} ProcessIsDeliverySteps(fp: Event -> string, max: nat, t: Tables, d: Delivery, f: Faults)
    requires d.Parsed()
    ensures var (t', action) := Process(fp, max, t, d, f);
            DeliverySteps(fp, max, t, d, Fresh, f, 4) == (t', Decided(action))
  {
    var (t1, p1) := DeliveryStep(fp, max, t, d, Fresh, f.apply);
    var (t2, p2) := DeliveryStep(fp, max, t1, d, p1, FaultAt(p1, f));
    var (t3, p3) := DeliveryStep(fp, max, t2, d, p2, FaultAt(p2, f));
    var (t4, p4) := DeliveryStep(fp, max, t3, d, p3, FaultAt(p3, f));
    assert DeliverySteps(fp, max, t4, d, p4, f, 0) == (t4, p4);
    assert DeliverySteps(fp, max, t3, d, p3, f, 1) == (t4, p4);
    assert DeliverySteps(fp, max, t2, d, p2, f, 2) == (t4, p4);
    assert DeliverySteps(fp, max, t1, d, p1, f, 3) == (t4, p4);
    FourSteps(fp, max, t, d, f);
  }

  lemma {:induction false} FourSteps(fp: Event -> string, max: nat, t: Tables, d: Delivery, f: Faults)
    requires d.Parsed()
    ensures var (t1, p1) := DeliveryStep(fp, max, t, d, Fresh, f.apply);
            var (t2, p2) := DeliveryStep(fp, max, t1, d, p1, FaultAt(p1, f));
            var (t3, p3) := DeliveryStep(fp, max, t2, d, p2, FaultAt(p2, f));
            var (t4, p4) := DeliveryStep(fp, max, t3, d, p3, FaultAt(p3, f));
            (t4, p4) == (Process(fp, max, t, d, f).0, Decided(Process(fp, max, t, d, f).1))
  {
  }

  /** A transaction applies the delivery's own event and goes on to clear its
      pendency, or leaves the projection alone; only after clearing is the
      delivery acknowledged. */
  lemma {:induction false} DeliveryCases(fp: Event -> string, max: nat, t: Tables, d: Delivery, phase: Phase, fault: bool)
    ensures var (t', phase') := DeliveryStep(fp, max, t, d, phase, fault);
            && (phase' == Clearing ==>
                  && phase == Fresh && d.parsed.Some? && Apply(fp, t.projection, d.parsed.value).1.Ok()
                  && t'.projection == Apply(fp, t.projection, d.parsed.value).0)
            && (phase' != Clearing ==> t'.projection == t.projection)
            && (phase' == Decided(Ack) ==> phase == Clearing || phase == Decided(Ack))
            && (t'.dead == t.dead || t'.dead == t.dead + [Letter(d)])
  {
  }

  /* ---- The consumer ---- */

  class Handler {
    const maxAttempts: nat
    const store: S.Store
    var pending: Pendency
    var dead: seq<DeadRow>

    ghost function Contents(): Tables
      reads this, store
    {
      Tables(store.Tables(), pending, dead)
    }

    constructor (maxAttempts: nat, store: S.Store)
      requires maxAttempts >= 1
      ensures this.maxAttempts == maxAttempts && this.store == store
      ensures pending == map[] && dead == []
    {
      this.maxAttempts, this.store := maxAttempts, store;
      pending, dead := map[], [];
    }

    /** RecordPending; zero attempts when the row could not be written. */
    method RecordPending(key: string, dlq: bool, fails: bool) returns (attempts: nat)
      modifies this`pending
      ensures pending == if fails then old(pending) else Upserted(old(pending), key, dlq)
      ensures attempts == if fails then 0 else pending[key].attempts
    {
      if fails {
        return 0;
      }
      if key in pending {
        pending := pending[key := PendingRow(dlq, pending[key].attempts + 1)];
      } else {
        pending := pending[key := PendingRow(dlq, 1)];
      }
      return pending[key].attempts;
    }

    method Escalate(key: Option<string>, empty: bool, parsed: Option<Event>, f: Faults) returns (action: Action)
      modifies this`pending, this`dead
      ensures Contents() == Escalated(old(Contents()), key, empty, parsed, f) && action == DeadLetter
    {
      if !empty && !f.dead {
        dead := dead + [DeadRow(key, parsed)];
      }
      if key.Some? {
        var _ := RecordPending(key.value, true, f.pending);
      }
      return DeadLetter;
    }

    method ClassifyApplyFailure(e: Event, outcome: Option<Outcome>, f: Faults) returns (action: Action)
      modifies this`pending, this`dead
      ensures outcome.Some? ==> Contents() == Escalated(old(Contents()), Some(e.id), false, Some(e), f) && action == DeadLetter
      ensures outcome.None? ==> (Contents(), action) == Retried(maxAttempts, old(Contents()), e, f)
    {
      if outcome.Some? {
        action := Escalate(Some(e.id), false, Some(e), f);
        return;
      }
      var attempts := RecordPending(e.id, false, f.pending);
      if attempts >= maxAttempts {
        action := Escalate(Some(e.id), false, Some(e), f);
      } else {
        action := Requeue(attempts);
      }
    }

    /** processDelivery, check by check. */
    method ProcessDelivery(d: Delivery, f: Faults) returns (action: Action)
      requires store.Valid()
      modifies this`pending, this`dead, store
      ensures store.Valid()
      ensures (Contents(), action) == Process(store.fingerprint, maxAttempts, old(Contents()), d, f)
      ensures action == Ack ==>
                d.parsed.Some? && SameBut(old(pending), pending, d.parsed.value.id) && (!f.clear ==> d.parsed.value.id !in pending)
    {
      if !d.supported || !d.schema || d.parsed.None? {
        action := Escalate(IdentityKey(d.messageId), d.empty, d.parsed, f);
        return;
      }
      var e := d.parsed.value;
      if !d.identity {
        action := Escalate(Some(e.id), d.empty, d.parsed, f);
        return;
      }
      if f.apply {
        action := ClassifyApplyFailure(e, None, f);
        return;
      }
      var outcome := store.Apply(e);
      if !outcome.Ok() {
        ApplyCases(store.fingerprint, old(store.Tables()), e);
        action := ClassifyApplyFailure(e, Some(outcome), f);
        return;
      }
      if !f.clear {
        pending := pending - {e.id};
      }
      action := Ack;
    }
  }
}
