/** The outbox table and one polling pass of a publisher over it. */
module Publisher {
  import opened Domain
  import opened Outbox
  import opened Backoff

  /** The claim order: available_at, created_at, event_id. */
  predicate Precedes(rows: Rows, a: Id, b: Id)
    requires a in rows && b in rows
  {
    || rows[a].availableAt < rows[b].availableAt
    || (rows[a].availableAt == rows[b].availableAt && rows[a].createdAt < rows[b].createdAt)
    || (rows[a].availableAt == rows[b].availableAt && rows[a].createdAt == rows[b].createdAt && a < b)
  }

  /** The rows a claim may take: claimable and not locked by another transaction. */
  function Open(rows: Rows, now: nat, locked: set<Id>): set<Id> {
    set id | id in rows && id !in locked && Claimable(rows[id], now)
  }

  /** White space as Unicode defines it. */
  predicate IsSpace(c: char) {
    || '\t' <= c <= '\r' || c == ' ' || c == '\U{85}' || c == '\U{A0}' || c == '\U{1680}' || '\U{2000}' <= c <= '\U{200A}'
    || c == '\U{2028}' || c == '\U{2029}' || c == '\U{202F}' || c == '\U{205F}' || c == '\U{3000}'
  }

  predicate Blank(owner: Owner) {
    forall i | 0 <= i < |owner| :: IsSpace(owner[i])
  }

  function TrimLeft(s: string): string {
    if s != [] && IsSpace(s[0]) then TrimLeft(s[1..]) else s
  }

  function TrimRight(s: string): string {
    if s != [] && IsSpace(s[|s| - 1]) then TrimRight(s[..|s| - 1]) else s
  }

  /** strings.TrimSpace. */
  function TrimSpace(s: string): string {
    TrimRight(TrimLeft(s))
  }

  lemma {:induction false} TrimLeftBlank(s: string)
    ensures TrimLeft(s) == [] <==> Blank(s)
    ensures Blank(TrimLeft(s)) <==> Blank(s)
  {
    if s != [] && IsSpace(s[0]) {
      TrimLeftBlank(s[1..]);
      assert s == [s[0]] + s[1..];
    }
  }

  lemma {:induction false} TrimRightBlank(s: string)
    ensures TrimRight(s) == [] <==> Blank(s)
  {
    if s != [] && IsSpace(s[|s| - 1]) {
      TrimRightBlank(s[..|s| - 1]);
      assert s == s[..|s| - 1] + [s[|s| - 1]];
    }
  }

  /** An owner is blank exactly when trimming leaves nothing of it; in ASCII, when
      it is made of spaces, tabs and line ends alone. */
  lemma {:induction false} BlankIff(owner: Owner)
    ensures Blank(owner) <==> TrimSpace(owner) == ""
    ensures (forall i | 0 <= i < |owner| :: owner[i] < '\U{80}') ==>
              (Blank(owner) <==> forall i | 0 <= i < |owner| :: owner[i] in "\t\n\U{B}\U{C}\r ")
  {
    TrimLeftBlank(owner);
    TrimRightBlank(TrimLeft(owner));
    var spaces := "\t\n\U{B}\U{C}\r ";
    assert spaces[0] == '\t' && spaces[1] == '\n' && spaces[2] == '\U{B}' && spaces[3] == '\U{C}' && spaces[4] == '\r' && spaces[5] == ' ';
  }

  function LeasedRows(rows: Rows, taken: set<Id>, owner: Owner, until: nat): Rows {
    map id | id in rows :: if id in taken then Leased(rows[id], owner, until) else rows[id]
  }

  /** A claim, column by column: it takes rows that are unpublished, available,
      unleased or past their lease, and not locked; at most limit of them, all if
      there are fewer, and none while an earlier one is left; each is leased to
      the owner and counts one more attempt, and every other row is as it was. */
  ghost predicate ClaimTook(rows: Rows, rows': Rows, taken: set<Id>, owner: Owner, limit: int, now: nat, lease: int, locked: set<Id>) {
    && rows'.Keys == rows.Keys && |taken| <= limit
    && (forall id | id in taken ::
          && id in rows && id !in locked && !rows[id].published && rows[id].availableAt <= now
          && (rows[id].lease.Some? ==> rows[id].lease.value.until <= now)
          && rows'[id].lease.Some? && rows'[id].lease.value.owner == owner && rows'[id].lease.value.until == now + lease
          && rows'[id].attempts == rows[id].attempts + 1
          && rows'[id].(lease := None, attempts := 0) == rows[id].(lease := None, attempts := 0))
    && (forall id | id in rows && id !in taken :: rows'[id] == rows[id])
    && (forall b | b in rows && b !in taken && b !in locked && !rows[b].published && rows[b].availableAt <= now
                   && (rows[b].lease.Some? ==> rows[b].lease.value.until <= now) ::
          && |taken| == limit
          && forall a | a in taken ::
               || rows[a].availableAt < rows[b].availableAt
               || (rows[a].availableAt == rows[b].availableAt && rows[a].createdAt < rows[b].createdAt)
               || (rows[a].availableAt == rows[b].availableAt && rows[a].createdAt == rows[b].createdAt && a < b))
  }

  lemma {:induction false} AllOpenTaken(open: set<Id>, taken: set<Id>, b: Id)
    requires taken <= open && b in open && b !in taken
    ensures |taken| < |open|
  {
    assert |open - taken| == |open| - |taken|;
    assert b in open - taken;
  }

  lemma {:induction false} ClaimIs(rows: Rows, taken: set<Id>, owner: Owner, limit: int, now: nat, lease: int, locked: set<Id>)
    requires limit >= 1 && lease > 0
    requires taken <= Open(rows, now, locked) && |taken| == Min(limit, |Open(rows, now, locked)|)
    requires forall a, b | a in taken && b in Open(rows, now, locked) - taken :: Precedes(rows, a, b)
    ensures ClaimTook(rows, LeasedRows(rows, taken, owner, now + lease), taken, owner, limit, now, lease, locked)
  {
    forall b | b in Open(rows, now, locked) && b !in taken
      ensures |taken| == limit && forall a | a in taken :: Precedes(rows, a, b)
    {
      AllOpenTaken(Open(rows, now, locked), taken, b);
      assert b in Open(rows, now, locked) - taken;
    }
  }

  class Store {
    var now: nat
    var rows: Rows

    method First(open: set<Id>) returns (first: Id)
      requires open != {} && open <= rows.Keys
      ensures first in open && forall id | id in open :: id == first || Precedes(rows, first, id)
    {
      first :| first in open;
      var rest := open - {first};
      while rest != {}
        invariant first in open && rest <= open
        invariant forall id | id in open :: id in rest || id == first || Precedes(rows, first, id)
        decreases rest
      {
        var id :| id in rest;
        rest := rest - {id};
        if Precedes(rows, id, first) {
          first := id;
        }
      }
    }

    /** The first limit of the open rows in claim order. */
    method Select(open: set<Id>, limit: nat) returns (taken: set<Id>)
      requires open <= rows.Keys
      ensures taken <= open && |taken| == Min(limit, |open|)
      ensures forall a, b | a in taken && b in open - taken :: Precedes(rows, a, b)
    {
      taken := {};
      var left := open;
      while |taken| < limit && left != {}
        invariant left !! taken && left + taken == open && |taken| + |left| == |open| && |taken| <= limit
        invariant forall a, b | a in taken && b in left :: Precedes(rows, a, b)
        decreases left
      {
        var id := First(left);
        left, taken := left - {id}, taken + {id};
      }
      assert left == open - taken;
    }

    /** Claim: the first limit open rows in claim order, each leased to the
        owner; refused, without effect, for a blank owner or a bad limit or lease. */
    method Claim(owner: Owner, limit: int, lease: int, locked: set<Id>) returns (claimed: Option<set<Id>>)
      modifies this`rows
      ensures claimed.None? <==> Blank(owner) || limit < 1 || lease <= 0
      ensures claimed.None? <==> TrimSpace(owner) == "" || limit < 1 || lease <= 0
      ensures claimed.None? ==> rows == old(rows)
      ensures claimed.Some? ==>
                var open := Open(old(rows), now, locked);
                && claimed.value <= open && |claimed.value| == Min(limit, |open|)
                && (forall a, b | a in claimed.value && b in open - claimed.value :: Precedes(old(rows), a, b))
                && rows == LeasedRows(old(rows), claimed.value, owner, now + lease)
      ensures claimed.Some? ==> ClaimTook(old(rows), rows, claimed.value, owner, limit, now, lease, locked)
    {
      BlankIff(owner);
      if TrimSpace(owner) == "" || limit < 1 || lease <= 0 {
        return None;
      }
      var taken := Select(Open(rows, now, locked), limit);
      ClaimIs(rows, taken, owner, limit, now, lease, locked);
      rows := LeasedRows(rows, taken, owner, now + lease);
      return Some(taken);
    }

    method MarkPublished(id: Id, owner: Owner) returns (ok: bool)
      modifies this`rows
      ensures ok <==> HeldBy(old(rows), id, owner)
      ensures rows == Published(old(rows), id, owner)
    {
      ok := id in rows && rows[id].lease.Some? && rows[id].lease.value.owner == owner && !rows[id].published;
      if ok {
        rows := rows[id := rows[id].(published := true, lease := None)];
      }
    }

    method MarkFailed(id: Id, owner: Owner, delay: int) returns (ok: bool)
      modifies this`rows
      ensures ok <==> delay >= 0 && HeldBy(old(rows), id, owner)
      ensures delay >= 0 ==> rows == Released(old(rows), id, owner, now + delay)
      ensures delay < 0 ==> rows == old(rows)
    {
      if delay < 0 {
        return false;
      }
      ok := id in rows && rows[id].lease.Some? && rows[id].lease.value.owner == owner && !rows[id].published;
      if ok {
        rows := rows[id := rows[id].(availableAt := now + delay, lease := None)];
      }
    }
  }

  datatype Reply = Confirmed | Failed(accepted: bool) | Interrupted(accepted: bool)

  /** What the outside world does during one turn of the polling loop. */
  datatype Turn = Turn(claimFails: bool, locked: set<Id>, reply: Reply, publishTime: nat, persistFails: bool, jitter: real)

  ghost predicate Plausible(turn: Turn) {
    0.5 <= turn.jitter < 1.5
  }

  /** What the mark of a publication leaves behind: nothing changes when it was
      interrupted, could not be stored or came too late; a confirmed row is
      published, a failed one is available after the jittered backoff of its
      attempts; both are unleased. */
  ghost predicate Marked(rows: Rows, rows': Rows, id: Id, owner: Owner, c: Config, now: nat, turn: Turn) {
    && rows'.Keys == rows.Keys && (forall k | k in rows && k != id :: rows'[k] == rows[k])
    && id in rows
    && if turn.reply.Interrupted? || turn.persistFails || !HeldBy(rows, id, owner) then rows'[id] == rows[id]
       else if turn.reply.Confirmed? then rows'[id] == rows[id].(lease := None, published := true)
       else
         && rows'[id].(availableAt := 0) == rows[id].(availableAt := 0, lease := None)
         && now + c.backoffBase / 2 <= rows'[id].availableAt <= now + c.backoffMax
         && var exact := (Capped(c.backoffBase, c.backoffMax, rows[id].attempts) as real * turn.jitter).Floor;
            rows'[id].availableAt == now + (if exact > c.backoffMax then c.backoffMax else exact)
  }

  /** A turn that does not end in a stored publication. */
  predicate Fails(turn: Turn) {
    !turn.reply.Confirmed? || turn.persistFails
  }

  function Failures(turns: seq<Turn>, n: nat): nat
    requires n <= |turns|
  {
    if n == 0 then 0 else Failures(turns, n - 1) + (if Fails(turns[n - 1]) then 1 else 0)
  }

  function Done(rows: Rows): set<Id> {
    set id | id in rows && rows[id].published
  }

  lemma {:induction false} Single(s: set<Id>, x: Id)
    requires x in s && |s| <= 1
    ensures s == {x}
  {
    assert |s - {x}| == 0;
  }

  datatype End = Drained | Full | Stopped

  class Worker {
    const owner: Owner
    const config: Config
    const store: Store

    constructor (owner: Owner, config: Config, store: Store)
      requires owner != "" && config.Valid() && config.backoffMax <= MAX_INT64
      ensures this.owner == owner && this.config == config && this.store == store
    {
      this.owner, this.config, this.store := owner, config, store;
    }

    /** What follows the broker's reply: the mark, or nothing if it cannot be
        stored.  It is one step of the protocol. */
    method Mark(id: Id, turn: Turn, ghost v: World) returns (ok: bool, ghost step: Step)
      requires config.Valid() && config.backoffMax <= MAX_INT64 && Plausible(turn) && Refines(v, store) && id in store.rows
      requires owner in v.flights && v.flights[owner].event == id && v.flights[owner].confirmed == turn.reply.Confirmed?
      modifies store`rows
      ensures ok <==> turn.reply.Confirmed? && !turn.persistFails && HeldBy(old(store.rows), id, owner)
      ensures Refines(Do(config, v, step), store) && owner !in Do(config, v, step).flights
      ensures Done(store.rows) == Done(old(store.rows)) + (if ok then {id} else {})
      ensures Marked(old(store.rows), store.rows, id, owner, config, store.now, turn)
    {
      if turn.reply.Interrupted? || turn.persistFails {
        return false, Crash(owner);
      }
      if turn.reply.Failed? {
        step := Release(id, turn, v);
        return false, step;
      }
      ok := store.MarkPublished(id, owner);
      step := Step.MarkPublished(owner);
    }

    /** A failed publication goes back with the backoff of its attempts. */
    method Release(id: Id, turn: Turn, ghost v: World) returns (ghost step: Step)
      requires config.Valid() && config.backoffMax <= MAX_INT64 && Plausible(turn) && Refines(v, store) && id in store.rows
      requires turn.reply.Failed? && !turn.persistFails
      requires owner in v.flights && v.flights[owner].event == id && !v.flights[owner].confirmed
      modifies store`rows
      ensures Refines(Do(config, v, step), store) && owner !in Do(config, v, step).flights
      ensures Done(store.rows) == Done(old(store.rows))
      ensures Marked(old(store.rows), store.rows, id, owner, config, store.now, turn)
    {
      var delay := RetryDelay(config.backoffBase, config.backoffMax, store.rows[id].attempts, turn.jitter);
      var released := store.MarkFailed(id, owner, delay);
      step := Step.MarkFailed(owner, delay);
    }

    /** publishOne: publish the claimed event, then mark it.  The steps it
        returns are steps of the protocol with the same effect. */
    method PublishOne(id: Id, turn: Turn, ghost w: World) returns (ok: bool, interrupted: bool, ghost steps: seq<Step>)
      requires config.Valid() && config.backoffMax <= MAX_INT64 && Plausible(turn)
      requires Refines(w, store) && id in store.rows
      requires owner in w.flights && w.flights[owner].event == id && !w.flights[owner].confirmed
      modifies store
      ensures interrupted == turn.reply.Interrupted?
      ensures ok <==> turn.reply.Confirmed? && !turn.persistFails && HeldBy(old(store.rows), id, owner)
      ensures Refines(Run(config, w, steps), store) && owner !in Run(config, w, steps).flights
      ensures Done(store.rows) == Done(old(store.rows)) + (if ok then {id} else {})
      ensures store.now == old(store.now) + turn.publishTime
      ensures Marked(old(store.rows), store.rows, id, owner, config, store.now, turn)
      ensures id in w.rows && (turn.reply.Confirmed? || turn.reply.accepted ==> id in Run(config, w, steps).accepted)
    {
      store.now := store.now + turn.publishTime;
      ghost var v;
      steps, v := Then(w, [], w, Wait(turn.publishTime));
      interrupted := turn.reply.Interrupted?;
      if turn.reply.Confirmed? || turn.reply.accepted {
        steps, v := Then(w, steps, v, if turn.reply.Confirmed? then Step.Confirm(owner) else Step.Accept(owner));
      }
      ghost var step;
      ok, step := Mark(id, turn, v);
      steps, v := Then(w, steps, v, step);
    }

    /** One claim of a single row is one claim step of the protocol; a blank
        owner, which the configuration check lets through, is refused. */
    method ClaimOne(locked: set<Id>, ghost w: World) returns (refused: bool, id: Option<Id>)
      requires config.Valid() && Refines(w, store) && owner !in w.flights
      modifies store`rows
      ensures refused <==> Blank(owner)
      ensures id.None? ==> store.rows == old(store.rows) && (refused || Open(store.rows, store.now, locked) == {})
      ensures id.Some? ==> !refused
      ensures id.Some? ==>
                var v := Do(config, w, Step.Claim(owner, id.value));
                && Refines(v, store) && id.value in v.rows && HeldBy(v.rows, id.value, owner)
                && v.flights == w.flights[owner := Flight(id.value, w.now, false)]
      ensures Done(store.rows) == Done(old(store.rows))
    {
      var claimed := store.Claim(owner, 1, config.lease, locked);
      if claimed.None? {
        return true, None;
      }
      if claimed.value == {} {
        return false, None;
      }
      var taken :| taken in claimed.value;
      Single(claimed.value, taken);
      return false, Some(taken);
    }

    /** ProcessOnce: claim and publish one event after another until the batch
        is full, nothing is left to claim, or a claim fails or a publication
        is interrupted.  It is a run of the protocol, and it publishes exactly
        as many rows as it processed without an error. */
    method ProcessOnce(turns: seq<Turn>, ghost w: World)
        returns (processed: nat, errors: nat, end: End, ghost steps: seq<Step>)
      requires config.Valid() && config.backoffMax <= MAX_INT64
      requires |turns| >= config.batch && forall i | 0 <= i < |turns| :: Plausible(turns[i])
      requires Refines(w, store) && owner !in w.flights
      modifies store
      ensures errors <= processed <= config.batch
      ensures Refines(Run(config, w, steps), store) && owner !in Run(config, w, steps).flights
      ensures |Done(store.rows)| == |Done(old(store.rows))| + processed - errors
      ensures end == Full ==> processed == config.batch
      ensures end == Drained ==> processed < config.batch && Open(store.rows, store.now, turns[processed].locked) == {}
      ensures end == Stopped <==>
                || (processed > 0 && turns[processed - 1].reply.Interrupted?)
                || (processed < config.batch && (turns[processed].claimFails || Blank(owner)))
      ensures errors == Failures(turns, processed)
      ensures forall i | 0 <= i < processed :: !turns[i].claimFails && (i < processed - 1 ==> !turns[i].reply.Interrupted?)
    {
      processed, errors, end, steps := 0, 0, Full, [];
      ghost var v := w;
      while processed < config.batch
        invariant errors <= processed <= config.batch && end == Full && errors == Failures(turns, processed)
        invariant forall i | 0 <= i < processed :: !turns[i].claimFails && !turns[i].reply.Interrupted?
        invariant v == Run(config, w, steps) && Refines(v, store) && owner !in v.flights
        invariant |Done(store.rows)| == |Done(old(store.rows))| + processed - errors
      {
        ghost var more;
        var taken, stopped, ok;
        taken, stopped, ok, more := TakeTurn(turns[processed], v);
        RunAppend(config, w, steps, more);
        steps, v := steps + more, Run(config, v, more);
        if !taken {
          end := if stopped then Stopped else Drained;
          return;
        }
        processed := processed + 1;
        if !ok {
          errors := errors + 1;
        }
        if stopped {
          end := Stopped;
          return;
        }
      }
    }

    /** One turn of the polling loop: claim a row, publish it, mark it. */
    method TakeTurn(turn: Turn, ghost w: World) returns (taken: bool, stopped: bool, ok: bool, ghost steps: seq<Step>)
      requires config.Valid() && config.backoffMax <= MAX_INT64 && Plausible(turn)
      requires Refines(w, store) && owner !in w.flights
      modifies store
      ensures Refines(Run(config, w, steps), store) && owner !in Run(config, w, steps).flights
      ensures |Done(store.rows)| == |Done(old(store.rows))| + (if ok then 1 else 0)
      ensures !taken ==> !ok && (stopped <==> turn.claimFails || Blank(owner))
      ensures !taken && !stopped ==> Open(store.rows, store.now, turn.locked) == {}
      ensures taken ==> !turn.claimFails && !Blank(owner) && (ok <==> !Fails(turn)) && (stopped <==> turn.reply.Interrupted?)
    {
      taken, stopped, ok, steps := false, turn.claimFails, false, [];
      if stopped {
        return;
      }
      var id;
      stopped, id := ClaimOne(turn.locked, w);
      if stopped || id.None? {
        return;
      }
      ghost var v, more;
      steps, v := Then(w, [], w, Step.Claim(owner, id.value));
      taken := true;
      ok, stopped, more := PublishOne(id.value, turn, v);
      RunAppend(config, w, steps, more);
      steps := steps + more;
    }

    lemma {:induction false} Then(w: World, steps: seq<Step>, v: World, step: Step) returns (steps': seq<Step>, v': World)
      requires v == Run(config, w, steps)
      ensures steps' == steps + [step] && v' == Run(config, w, steps') == Do(config, v, step)
    {
      RunStep(config, w, steps, step);
      steps', v' := steps + [step], Do(config, v, step);
    }
  }

  /** The store holds the tables and clock of the protocol's world. */
  ghost predicate Refines(w: World, store: Store)
    reads store
  {
    w.rows == store.rows && w.now == store.now
  }
}
