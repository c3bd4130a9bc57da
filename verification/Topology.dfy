/** Moving the backlog from one queue to another and cutting the exchange over,
    with an interruption possible at every point. */
module Topology {
  type Message = nat

  /** Publication of the copy: confirmed, or not, and then the broker may or may
      not have taken it. */
  datatype Copy = Confirmed | Unconfirmed(taken: bool)

  /** One turn of the drain loop: what the exchange routes before it, and which
      of its statements fail.  A failure stands for a crash at that point too:
      an unacknowledged delivery goes back to its queue. */
  datatype Turn = Turn(arrivals: seq<Message>, getFails: bool, copy: Copy, ackFails: bool, interrupted: bool)

  /** The cutover: what arrives before and after the destination is bound, and
      which statement fails. */
  datatype Cutover = Cutover(late: seq<Message>, bindFails: bool, between: seq<Message>, unbindFails: bool,
                             bindDeadFails: bool, unbindDeadFails: bool, markerFails: bool)

  class Migration {
    var source: seq<Message>
    var destination: seq<Message>
    var sourceBound: bool
    var destinationBound: bool
    var deadSourceBound: bool
    var deadDestinationBound: bool
    var marker: bool

    /** How often a message is in each of the queues. */
    ghost function InSource(m: Message): nat
      reads this`source
    {
      multiset(source)[m]
    }

    ghost function InDestination(m: Message): nat
      reads this`destination
    {
      multiset(destination)[m]
    }

    /** The copies of a message in the queues, less what was published of it to the
        bound ones in the first n turns. */
    ghost function Copies(turns: seq<Turn>, n: nat, m: Message): int
      requires n <= |turns|
      reads this
    {
      InSource(m) + InDestination(m) - When(sourceBound, Arrived(turns, n, m)) - When(destinationBound, Arrived(turns, n, m))
    }

    /** The length of the destination, less what was published to it meanwhile. */
    ghost function Length(turns: seq<Turn>, n: nat): int
      requires n <= |turns|
      reads this
    {
      |destination| - When(destinationBound, ArrivedInAll(turns, n))
    }

    constructor (source: seq<Message>, destination: seq<Message>, sourceBound: bool, destinationBound: bool, marker: bool)
      ensures this.source == source && this.destination == destination
      ensures this.sourceBound == sourceBound && this.destinationBound == destinationBound && this.marker == marker
    {
      this.source, this.destination := source, destination;
      this.sourceBound, this.destinationBound, this.marker := sourceBound, destinationBound, marker;
      deadSourceBound, deadDestinationBound := true, true;
    }

    /** The exchange gives each bound queue a copy of what is published. */
    method Route(messages: seq<Message>)
      modifies this`source, this`destination
      ensures source == old(source) + (if sourceBound then messages else [])
      ensures destination == old(destination) + (if destinationBound then messages else [])
    {
      if sourceBound {
        source := source + messages;
      }
      if destinationBound {
        destination := destination + messages;
      }
    }

    /** Route, counted. */
    method Arrive(messages: seq<Message>, ghost m: Message)
      modifies this`source, this`destination
      ensures InSource(m) == old(InSource(m)) + When(sourceBound, multiset(messages)[m])
      ensures InDestination(m) == old(InDestination(m)) + When(destinationBound, multiset(messages)[m])
      ensures |destination| == |old(destination)| + When(destinationBound, |messages|)
    {
      Route(messages);
    }

    /** One move: get, copy, confirm, acknowledge.  The message is never in
        neither queue, and in both only when it ends between the copy and the
        acknowledgement. */
    method Move(turn: Turn, ghost m: Message) returns (acked: bool)
      requires source != []
      modifies this`source, this`destination
      ensures acked <==> turn.copy == Confirmed && !turn.ackFails
      ensures InSource(m) == old(InSource(m)) - When(acked && old(source)[0] == m, 1)
      ensures InDestination(m) == old(InDestination(m)) + When(Taken(turn) && old(source)[0] == m, 1)
      ensures |destination| == |old(destination)| + When(Taken(turn), 1)
      ensures source == if acked then old(source)[1..] else old(source)
      ensures destination == if turn.copy == Unconfirmed(false) then old(destination) else old(destination) + [old(source)[0]]
    {
      var held := source[0];
      assert source == [held] + source[1..];
      source := source[1..];
      if Taken(turn) {
        destination := destination + [held];
      }
      if turn.copy.Unconfirmed? || turn.ackFails {
        source := [held] + source;
        return false;
      }
      return true;
    }

    /** One turn of the drain loop: what is published before it reaches the
        bound queues, then a message is moved if there is one. */
    method TakeTurn(turns: seq<Turn>, k: nat, ghost m: Message)
        returns (ran: bool, empty: bool, acked: bool, ghost twice: nat, ghost copied: nat)
      requires k < |turns|
      modifies this`source, this`destination
      ensures ran == !turns[k].getFails && (empty ==> ran && !acked && source == [])
      ensures acked ==> ran && copied == 0
      ensures Copies(turns, k + When(ran, 1), m) == old(Copies(turns, k, m)) + twice
      ensures Length(turns, k + When(ran, 1)) == old(Length(turns, k)) + When(acked, 1) + copied
      ensures twice <= copied <= 1 && (empty ==> copied == 0)
      ensures copied == 1 ==> Taken(turns[k]) && (turns[k].copy.Unconfirmed? || turns[k].ackFails)
      ensures !empty ==> (acked <==> Passes(turns[k]))
    {
      var turn := turns[k];
      ran, empty, acked, twice, copied := !turn.getFails, false, false, 0, 0;
      if !ran {
        return;
      }
      Arrive(turn.arrivals, m);
      if source == [] {
        empty := true;
        return;
      }
      ghost var held := source[0];
      acked := Move(turn, m);
      if !acked {
        copied, twice := When(Taken(turn), 1), When(Taken(turn) && held == m, 1);
      }
    }

    /** The drain loop.  It ends drained, or interrupted: a failed statement, a
        failed move, or the script running out, which is a crash.  Whichever it
        is, each message m is as often in the queues as before, plus what was
        published of it to the bound queues in the turns begun, plus one if it
        is the message whose move was interrupted between the copy and the
        acknowledgement; moved counts the acknowledged moves.  twice and copied
        count the duplicates of m and of all messages. */
    method DrainBacklog(turns: seq<Turn>, ghost m: Message)
        returns (moved: nat, drained: bool, ghost begun: nat, ghost twice: nat, ghost copied: nat)
      modifies this`source, this`destination
      ensures moved <= begun <= |turns| && begun <= moved + 1
      ensures InSource(m) + InDestination(m)
           == old(InSource(m) + InDestination(m)) + When(sourceBound, Arrived(turns, begun, m)) + When(destinationBound, Arrived(turns, begun, m)) + twice
      ensures |destination| == |old(destination)| + moved + When(destinationBound, ArrivedInAll(turns, begun)) + copied
      ensures twice <= copied <= 1 && (drained ==> copied == 0 && source == [])
      ensures copied == 1 ==> moved < |turns| && Taken(turns[moved]) && (turns[moved].copy.Unconfirmed? || turns[moved].ackFails)
      ensures Ran(turns, moved, drained)
    {
      moved, drained, begun, twice, copied := 0, false, 0, 0, 0;
      ghost var copies, length := Copies(turns, 0, m), Length(turns, 0);
      while moved < |turns|
        invariant !drained && twice == copied == 0 && begun == moved <= |turns|
        invariant forall i | 0 <= i < moved :: Passes(turns[i]) && !turns[i].interrupted
        invariant Copies(turns, begun, m) == copies && Length(turns, begun) == length + moved
      {
        var ran, empty, acked;
        ran, empty, acked, twice, copied := TakeTurn(turns, moved, m);
        begun := begun + When(ran, 1);
        drained := empty;
        if !acked {
          return;
        }
        moved := moved + 1;
        if turns[moved - 1].interrupted {
          return;
        }
      }
    }

    /** The cutover statements in order, stopping at the first failure.  A
        source queue that was bound leaves the exchange only once the
        destination is bound, so nothing published meanwhile is lost; what
        arrives after the last read stays in the source queue. */
    method Cut(upgrade: bool, c: Cutover) returns (done: bool)
      modifies this
      ensures done <==> !c.bindFails && !c.unbindFails && !c.bindDeadFails && !c.unbindDeadFails && !(upgrade && c.markerFails)
      ensures old(sourceBound) ==> sourceBound || destinationBound
      ensures done ==> destinationBound && !sourceBound && deadDestinationBound && !deadSourceBound
      ensures destinationBound <==> old(destinationBound) || !c.bindFails
      ensures sourceBound <==> old(sourceBound) && (c.bindFails || c.unbindFails)
      ensures deadDestinationBound <==> old(deadDestinationBound) || !(c.bindFails || c.unbindFails || c.bindDeadFails)
      ensures deadSourceBound <==>
                old(deadSourceBound) && (c.bindFails || c.unbindFails || c.bindDeadFails || c.unbindDeadFails)
      ensures marker == if done && upgrade then true else old(marker)
      ensures source == old(source) + (if old(sourceBound) then c.late + Between(c) else [])
      ensures destination == old(destination) + (if old(destinationBound) then c.late else []) + Between(c)
    {
      Route(c.late);
      if c.bindFails {
        return false;
      }
      destinationBound := true;
      Route(c.between);
      if c.unbindFails {
        return false;
      }
      sourceBound := false;
      if c.bindDeadFails {
        return false;
      }
      deadDestinationBound := true;
      if c.unbindDeadFails {
        return false;
      }
      deadSourceBound := false;
      if upgrade {
        if c.markerFails {
          return false;
        }
        marker := true;
      }
      return true;
    }

    /** migrateTopology after its preflight: drain, then cut over.  At every
        point where it can stop, no message is lost from the queues, nor
        anything published while a bound source queue is migrated; at most one
        message is duplicated by the drain; the exchange still has a main
        queue; and the marker stands only for an upgrade that finished or had
        finished before. */
    method Migrate(upgrade: bool, turns: seq<Turn>, c: Cutover, ghost m: Message)
        returns (moved: nat, done: bool, ghost begun: nat, ghost drained: bool, ghost twice: nat)
      modifies this
      ensures moved <= begun <= |turns| && begun <= moved + 1 && (done ==> drained)
      ensures var published := Arrived(turns, begun, m) + When(drained, multiset(c.late)[m] + multiset(Between(c))[m]);
              && old(InSource(m) + InDestination(m)) + When(old(sourceBound), published) + twice <= InSource(m) + InDestination(m)
              && InSource(m) + InDestination(m) <= old(InSource(m) + InDestination(m)) + 2 * published + twice
      ensures twice <= 1 && (drained ==> twice == 0)
      ensures old(sourceBound) ==> sourceBound || destinationBound
      ensures done ==> destinationBound && !sourceBound && source == if old(sourceBound) then c.late + c.between else []
      ensures marker <==> upgrade && (done || old(marker))
      ensures drained && !done ==>
                c.bindFails || c.unbindFails || c.bindDeadFails || c.unbindDeadFails || (upgrade && c.markerFails)
      ensures Ran(turns, moved, drained)
    {
      if !upgrade {
        marker := false;
      }
      ghost var copied;
      var emptied;
      moved, emptied, begun, twice, copied := DrainBacklog(turns, m);
      drained := emptied;
      if !emptied {
        done := false;
        return;
      }
      ghost var left, right := InSource(m), InDestination(m);
      done := Cut(upgrade, c);
      ghost var late, between := multiset(c.late)[m], multiset(Between(c))[m];
      assert InSource(m) == left + When(old(sourceBound), late + between);
      assert InDestination(m) == right + When(old(destinationBound), late) + between;
    }
  }

  /** How often m, and anything, is published during the first n turns. */
  function Arrived(turns: seq<Turn>, n: nat, m: Message): nat
    requires n <= |turns|
  {
    if n == 0 then 0 else Arrived(turns, n - 1, m) + multiset(turns[n - 1].arrivals)[m]
  }

  function ArrivedInAll(turns: seq<Turn>, n: nat): nat
    requires n <= |turns|
  {
    if n == 0 then 0 else ArrivedInAll(turns, n - 1) + |turns[n - 1].arrivals|
  }

  /** The broker took the copy. */
  predicate Taken(turn: Turn) {
    turn.copy != Unconfirmed(false)
  }

  /** None of the statements of a move fails. */
  predicate Passes(turn: Turn) {
    !turn.getFails && turn.copy == Confirmed && !turn.ackFails
  }

  /** The drain made moved moves, none of which failed, and went on unless it was
      interrupted after one; it ended drained, or where the next move failed. */
  ghost predicate Ran(turns: seq<Turn>, moved: nat, drained: bool) {
    && moved <= |turns| && (forall i | 0 <= i < moved :: Passes(turns[i]) && (i < moved - 1 ==> !turns[i].interrupted))
    && (!drained ==> moved == |turns| || (moved > 0 && turns[moved - 1].interrupted) || !Passes(turns[moved]))
  }

  /** What arrives while both queues are bound. */
  function Between(c: Cutover): seq<Message> {
    if c.bindFails then [] else c.between
  }

  function When(condition: bool, n: nat): nat {
    if condition then n else 0
  }
}
