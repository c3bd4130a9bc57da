/** The outbox lease protocol: any number of publishers, crashes and lost
    confirms, over a clock that never goes back. */
module Outbox {
  import opened Domain

  type Id = nat
  type Owner = string

  const PERSISTENCE_BUDGET: nat := 2_000_000_000

  datatype Config = Config(batch: nat, lease: nat, poll: nat, backoffBase: nat, backoffMax: nat, publishBudget: nat)
  {
    predicate Valid() {
      && batch >= 1 && lease > 0 && poll > 0 && 0 < backoffBase <= backoffMax && publishBudget > 0
      && lease > publishBudget + PERSISTENCE_BUDGET
    }
  }

  datatype Lease = Lease(owner: Owner, until: nat)

  /** An outbox_event row: lease_owner and lease_until are set and cleared together. */
  datatype Row = Row(createdAt: nat, availableAt: nat, lease: Option<Lease>, attempts: nat, published: bool)

  type Rows = map<Id, Row>

  predicate Claimable(row: Row, now: nat) {
    && !row.published && row.availableAt <= now
    && (row.lease.Some? ==> row.lease.value.until <= now)
  }

  function Leased(row: Row, owner: Owner, until: nat): Row {
    row.(lease := Some(Lease(owner, until)), attempts := row.attempts + 1)
  }

  /** Both marks update a row only for the owner its lease names. */
  predicate HeldBy(rows: Rows, id: Id, owner: Owner) {
    id in rows && !rows[id].published && rows[id].lease.Some? && rows[id].lease.value.owner == owner
  }

  function Published(rows: Rows, id: Id, owner: Owner): Rows {
    if HeldBy(rows, id, owner) then rows[id := rows[id].(lease := None, published := true)] else rows
  }

  function Released(rows: Rows, id: Id, owner: Owner, availableAt: nat): Rows {
    if HeldBy(rows, id, owner) then rows[id := rows[id].(lease := None, availableAt := availableAt)] else rows
  }

  /* ---- The state machine ---- */

  /** What a publisher holds in memory between its claim and its mark. */
  datatype Flight = Flight(event: Id, claimedAt: nat, confirmed: bool)

  /** accepted is the set of events the broker has taken at least once. */
  datatype World = World(now: nat, rows: Rows, flights: map<Owner, Flight>, accepted: set<Id>)

  const START := World(0, map[], map[], {})

  datatype Step =
    | Wait(time: nat)
    | Commit(id: Id)
    | Claim(owner: Owner, id: Id)
    | Accept(owner: Owner)
    | Confirm(owner: Owner)
    | MarkPublished(owner: Owner)
    | MarkFailed(owner: Owner, delay: nat)
    | Crash(owner: Owner)

  /** One step; a step that is not enabled changes nothing.  Accept is a
      publication whose confirm is lost; Crash covers process death, an
      interrupted publication and a mark that could not be stored. */
  function Do(c: Config, w: World, step: Step): World {
    match step
    case Wait(time) => w.(now := w.now + time)
    case Commit(id) =>
      if id in w.rows then w else w.(rows := w.rows[id := Row(w.now, w.now, None, 0, false)])
    case Claim(o, id) =>
      if o in w.flights || id !in w.rows || !Claimable(w.rows[id], w.now) then w
      else w.(rows := w.rows[id := Leased(w.rows[id], o, w.now + c.lease)],
              flights := w.flights[o := Flight(id, w.now, false)])
    case Accept(o) =>
      if o !in w.flights then w else w.(accepted := w.accepted + {w.flights[o].event})
    case Confirm(o) =>
      if o !in w.flights then w
      else w.(flights := w.flights[o := w.flights[o].(confirmed := true)],
              accepted := w.accepted + {w.flights[o].event})
    case MarkPublished(o) =>
      if o !in w.flights || !w.flights[o].confirmed then w
      else w.(rows := Published(w.rows, w.flights[o].event, o), flights := w.flights - {o})
    case MarkFailed(o, delay) =>
      if o !in w.flights || w.flights[o].confirmed || delay > c.backoffMax then w
      else w.(rows := Released(w.rows, w.flights[o].event, o, w.now + delay), flights := w.flights - {o})
    case Crash(o) => w.(flights := w.flights - {o})
  }

  function Run(c: Config, w: World, steps: seq<Step>): World {
    if steps == [] then w
    else Do(c, Run(c, w, steps[..|steps| - 1]), steps[|steps| - 1])
  }

  lemma {:induction false} RunStep(c: Config, w: World, steps: seq<Step>, step: Step)
    ensures Run(c, w, steps + [step]) == Do(c, Run(c, w, steps), step)
  {
    assert (steps + [step])[..|steps|] == steps;
  }

  lemma {:induction false} RunAppend(c: Config, w: World, a: seq<Step>, b: seq<Step>)
    ensures Run(c, w, a + b) == Run(c, Run(c, w, a), b)
    decreases |b|
  {
    if b == [] {
      assert a + b == a;
    } else {
      var n := |b| - 1;
      RunAppend(c, w, a, b[..n]);
      assert (a + b)[..|a + b| - 1] == a + b[..n];
    }
  }

  /* ---- What every run keeps ---- */

  /** A publication still within its lease is the only one the row names. */
  ghost predicate Guarded(c: Config, w: World, o: Owner)
    requires o in w.flights
  {
    && w.flights[o].event in w.rows
    && w.flights[o].claimedAt <= w.now
    && (w.flights[o].confirmed ==> w.flights[o].event in w.accepted)
    && (w.now < w.flights[o].claimedAt + c.lease ==>
          && !w.rows[w.flights[o].event].published
          && w.rows[w.flights[o].event].lease == Some(Lease(o, w.flights[o].claimedAt + c.lease)))
  }

  /** No row waits longer than a lease or a full backoff from now. */
  ghost predicate Prompt(c: Config, w: World, id: Id)
    requires id in w.rows
  {
    var row := w.rows[id];
    && row.availableAt <= w.now + c.backoffMax
    && (row.lease.Some? ==> row.lease.value.until <= w.now + c.lease)
    && (row.published ==> id in w.accepted && row.lease.None?)
  }

  ghost predicate Inv(c: Config, w: World) {
    && (forall o | o in w.flights :: Guarded(c, w, o))
    && (forall id | id in w.rows :: Prompt(c, w, id))
  }

  lemma {:induction false} DoKeepsGuarded(c: Config, w: World, step: Step, o: Owner)
    requires Inv(c, w) && o in Do(c, w, step).flights
    ensures Guarded(c, Do(c, w, step), o)
  {
    assert o in w.flights ==> Guarded(c, w, o);
  }

  lemma {:induction false} DoKeepsPrompt(c: Config, w: World, step: Step, id: Id)
    requires Inv(c, w) && id in Do(c, w, step).rows
    ensures Prompt(c, Do(c, w, step), id)
  {
    assert id in w.rows ==> Prompt(c, w, id);
    if step.MarkPublished? && step.owner in w.flights {
      assert Guarded(c, w, step.owner);
    }
  }

  lemma {:induction false} DoKeepsInv(c: Config, w: World, step: Step)
    requires Inv(c, w)
    ensures Inv(c, Do(c, w, step))
  {
    forall o | o in Do(c, w, step).flights
      ensures Guarded(c, Do(c, w, step), o)
    {
      DoKeepsGuarded(c, w, step, o);
    }
    forall id | id in Do(c, w, step).rows
      ensures Prompt(c, Do(c, w, step), id)
    {
      DoKeepsPrompt(c, w, step, id);
    }
  }

  lemma {:induction false} EveryRunKeepsInv(c: Config, steps: seq<Step>)
    ensures Inv(c, Run(c, START, steps))
  {
    if steps != [] {
      var n := |steps| - 1;
      EveryRunKeepsInv(c, steps[..n]);
      DoKeepsInv(c, Run(c, START, steps[..n]), steps[n]);
    }
  }

  /** Two publishers work on the same event only when one of them has
      outlived its lease, and so, in a valid configuration, its publication
      and persistence budgets. */
  lemma {:induction false} NoTwoPublishersAtOnce(c: Config, steps: seq<Step>, a: Owner, b: Owner)
    requires var w := Run(c, START, steps);
             a != b && a in w.flights && b in w.flights && w.flights[a].event == w.flights[b].event
    ensures var w := Run(c, START, steps);
            w.now >= w.flights[a].claimedAt + c.lease || w.now >= w.flights[b].claimedAt + c.lease
    ensures var w := Run(c, START, steps);
            c.Valid() ==> || w.now > w.flights[a].claimedAt + c.publishBudget + 2_000_000_000
                          || w.now > w.flights[b].claimedAt + c.publishBudget + 2_000_000_000
  {
    EveryRunKeepsInv(c, steps);
    assert Guarded(c, Run(c, START, steps), a) && Guarded(c, Run(c, START, steps), b);
  }

  /** A publication within its lease is safe from everyone else: no step of
      another publisher, nor the clock, touches its row. */
  lemma {:induction false} LiveLeaseIsExclusive(c: Config, steps: seq<Step>, step: Step, o: Owner)
    requires var w := Run(c, START, steps);
             o in w.flights && w.now < w.flights[o].claimedAt + c.lease
    requires step.Wait? || step.Commit? || step.owner != o
    ensures var w := Run(c, START, steps);
            var id := w.flights[o].event;
            Do(c, w, step).flights[o] == w.flights[o]
            && id in w.rows && Do(c, w, step).rows[id] == w.rows[id]
  {
    EveryRunKeepsInv(c, steps);
    assert Guarded(c, Run(c, START, steps), o);
  }

  /** A row changes only when a claimable one is claimed, or when the owner
      its lease names marks it; a stale owner's marks change nothing. */
  lemma {:induction false} OnlyTheHolderChanges(c: Config, w: World, step: Step, id: Id)
    requires id in w.rows && Do(c, w, step).rows[id] != w.rows[id]
    ensures !w.rows[id].published
    ensures || (step.Claim? && step.id == id && Claimable(w.rows[id], w.now))
            || ((step.MarkPublished? || step.MarkFailed?) && HeldBy(w.rows, id, step.owner))
    ensures Do(c, w, step).rows[id].published ==> step.MarkPublished? && w.flights[step.owner] == Flight(id, w.flights[step.owner].claimedAt, true)
  {
  }

  /** A published row is never touched again. */
  lemma {:induction false} PublishedForever(c: Config, w: World, steps: seq<Step>, id: Id)
    requires id in w.rows && w.rows[id].published
    ensures var v := Run(c, w, steps); id in v.rows && v.rows[id] == w.rows[id]
  {
    if steps != [] {
      PublishedForever(c, w, steps[..|steps| - 1], id);
    }
  }

  /** Every published event was taken by the broker first. */
  lemma {:induction false} PublishedWasAccepted(c: Config, steps: seq<Step>, id: Id)
    requires var w := Run(c, START, steps); id in w.rows && w.rows[id].published
    ensures id in Run(c, START, steps).accepted
  {
    EveryRunKeepsInv(c, steps);
    assert Prompt(c, Run(c, START, steps), id);
  }

  function Max(a: nat, b: nat): nat {
    if a > b then a else b
  }

  predicate Touches(w: World, step: Step, id: Id) {
    match step
    case Claim(_, i) => i == id
    case MarkPublished(o) => o in w.flights && w.flights[o].event == id
    case MarkFailed(o, _) => o in w.flights && w.flights[o].event == id
    case _ => false
  }

  /** Nobody claims or marks the row during the steps. */
  predicate Untouched(c: Config, w: World, steps: seq<Step>, id: Id) {
    steps == [] ||
    (var n := |steps| - 1;
     Untouched(c, w, steps[..n], id) && !Touches(Run(c, w, steps[..n]), steps[n], id))
  }

  lemma {:induction false} UntouchedRow(c: Config, w: World, steps: seq<Step>, id: Id)
    requires id in w.rows && Untouched(c, w, steps, id)
    ensures id in Run(c, w, steps).rows && Run(c, w, steps).rows[id] == w.rows[id]
    ensures Run(c, w, steps).now >= w.now
  {
    if steps != [] {
      UntouchedRow(c, w, steps[..|steps| - 1], id);
    }
  }

  /** An unpublished row left alone is claimable once the longer of a lease
      and a full backoff has passed, however the run got there. */
  lemma {:induction false} ClaimableInTime(c: Config, steps: seq<Step>, later: seq<Step>, id: Id)
    requires var w := Run(c, START, steps);
             && id in w.rows && !w.rows[id].published && Untouched(c, w, later, id)
             && Run(c, w, later).now >= w.now + Max(c.lease, c.backoffMax)
    ensures var w := Run(c, START, steps + later); id in w.rows && Claimable(w.rows[id], w.now)
  {
    var w := Run(c, START, steps);
    EveryRunKeepsInv(c, steps);
    assert Prompt(c, w, id);
    UntouchedRow(c, w, later, id);
    RunAppend(c, START, steps, later);
  }

  /* ---- Backoff ---- */

  /** Owner o can release the row of its publication. */
  predicate Releases(c: Config, w: World, o: Owner, delay: nat, id: Id) {
    && o in w.flights && w.flights[o].event == id && !w.flights[o].confirmed && delay <= c.backoffMax
    && id in w.rows && !w.rows[id].published && w.rows[id].lease.Some? && w.rows[id].lease.value.owner == o
  }

  /** The row waits, unleased and unpublished, until the given time. */
  predicate Waits(w: World, id: Id, until: nat) {
    id in w.rows && !w.rows[id].published && w.rows[id].lease == None && w.rows[id].availableAt == until
  }

  lemma {:induction false} WaitsOn(c: Config, w: World, step: Step, id: Id, until: nat)
    requires Waits(w, id, until) && w.now < until
    ensures Waits(Do(c, w, step), id, until) && Do(c, w, step).rows[id] == w.rows[id]
  {
  }

  lemma {:induction false} WaitsThrough(c: Config, w: World, steps: seq<Step>, id: Id, until: nat)
    requires Waits(w, id, until)
    ensures Run(c, w, steps).now >= w.now
    ensures Run(c, w, steps).now < until ==> Waits(Run(c, w, steps), id, until)
  {
    if steps != [] {
      var n := |steps| - 1;
      WaitsThrough(c, w, steps[..n], id, until);
      if Run(c, w, steps[..n]).now < until {
        WaitsOn(c, Run(c, w, steps[..n]), steps[n], id, until);
      }
    }
  }

  /** A row released with a delay is out of everyone's reach for that long: before
      the marking time plus the delay, whatever happens, it is neither leased nor
      published and no step leases it; from then on, if it was left alone, the
      next claim of it takes it. */
  lemma {:induction false} BackoffIsKept(c: Config, w: World, o: Owner, delay: nat, id: Id, later: seq<Step>, step: Step, p: Owner)
    requires Releases(c, w, o, delay, id)
    ensures
      var freed := Do(c, w, MarkFailed(o, delay));
      var v := Run(c, freed, later);
      && (v.now < w.now + delay ==>
            && id in v.rows && !v.rows[id].published && v.rows[id].lease == None
            && id in Do(c, v, step).rows && Do(c, v, step).rows[id].lease == None && o !in freed.flights)
      && (v.now >= w.now + delay && Untouched(c, freed, later, id) && p !in v.flights ==>
            var u := Do(c, v, Claim(p, id));
            && id in u.rows && u.rows[id].lease == Some(Lease(p, v.now + c.lease))
            && p in u.flights && u.flights[p] == Flight(id, v.now, false))
  {
    var freed := Do(c, w, MarkFailed(o, delay));
    assert Waits(freed, id, w.now + delay);
    WaitsThrough(c, freed, later, id, w.now + delay);
    var v := Run(c, freed, later);
    if v.now < w.now + delay {
      WaitsOn(c, v, step, id, w.now + delay);
    }
    if Untouched(c, freed, later, id) {
      UntouchedRow(c, freed, later, id);
    }
  }

  /** A committed row can be claimed at once. */
  lemma {:induction false} NewRowIsClaimable(c: Config, w: World, id: Id, p: Owner)
    requires id !in w.rows && p !in w.flights
    ensures
      var v := Do(c, Do(c, w, Commit(id)), Claim(p, id));
      id in v.rows && v.rows[id] == Row(w.now, w.now, Some(Lease(p, w.now + c.lease)), 1, false)
  {
  }

  /** How many of the steps started a publication of the row. */
  ghost function Publications(c: Config, w: World, steps: seq<Step>, id: Id): nat {
    if steps == [] then 0
    else
      var n := |steps| - 1;
      var before, step := Run(c, w, steps[..n]), steps[n];
      var started := step.Claim? && step.id == id && step.owner !in before.flights && step.owner in Do(c, before, step).flights;
      Publications(c, w, steps[..n], id) + (if started then 1 else 0)
  }

  /** attempts counts the publications started, in every run. */
  lemma {:induction false} AttemptsCountPublications(c: Config, steps: seq<Step>, id: Id)
    requires id in Run(c, START, steps).rows
    ensures Run(c, START, steps).rows[id].attempts == Publications(c, START, steps, id)
  {
    var n := |steps| - 1;
    if id in Run(c, START, steps[..n]).rows {
      AttemptsCountPublications(c, steps[..n], id);
    } else {
      NoRowNoPublication(c, steps[..n], id);
    }
  }

  lemma {:induction false} NoRowNoPublication(c: Config, steps: seq<Step>, id: Id)
    requires id !in Run(c, START, steps).rows
    ensures Publications(c, START, steps, id) == 0
  {
    if steps != [] {
      NoRowNoPublication(c, steps[..|steps| - 1], id);
    }
  }
}
