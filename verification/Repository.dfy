/** The ledger repository and service: one transaction at a time, statement by
    statement, rolled back as a whole on any error. */
module Repository {
  import opened Domain
  import opened Ledger
  import opened LedgerRuns
  import opened Requests

  class Repository {
    var positions: map<Id, nat>
    var entries: map<Id, Entry>
    var records: map<Key, Record>
    var outbox: map<Id, Outgoing>
    ghost var history: Logs

    function Rows(): Tables
      reads this
    {
      Tables(positions, entries, records, outbox)
    }

    ghost predicate Valid()
      reads this
    {
      Inv(Rows(), history)
    }

    constructor ()
      ensures Valid() && Rows() == NO_TABLES
    {
      positions, entries, records, outbox, history := map[], map[], map[], map[], map[];
    }

    /** Inserts an open record, or reads the one already under the key. */
    method ClaimIdempotency(key: Key, request: Request) returns (existing: Option<Record>)
      modifies this`records
      ensures if key in old(records)
              then existing == Some(old(records)[key]) && records == old(records)
              else existing == None && records == old(records)[key := Record(request, None)]
    {
      if key in records {
        return Some(records[key]);
      }
      records := records[key := Record(request, None)];
      return None;
    }

    method CompleteIdempotency(key: Key, e: Entry)
      requires key in records
      modifies this`records
      ensures records == old(records)[key := Record(old(records)[key].request, Some(e))]
    {
      records := records[key := records[key].(response := Some(e))];
    }

    method NextPosition(merchant: Id) returns (position: nat)
      modifies this`positions
      ensures position == Last(old(Rows()), merchant) + 1
      ensures positions == old(positions)[merchant := position]
    {
      position := if merchant in positions then positions[merchant] + 1 else 1;
      positions := positions[merchant := position];
    }

    /** Writes the entry and its outbox event; false when a key is taken. */
    method InsertWithOutbox(e: Entry, eventId: Id, traceparent: string) returns (ok: bool)
      modifies this`entries, this`outbox
      ensures ok <==> e.id !in old(entries) && eventId !in old(outbox)
      ensures ok ==> entries == old(entries)[e.id := e] && outbox == old(outbox)[eventId := Outgoing(e, traceparent)]
    {
      if e.id in entries {
        return false;
      }
      entries := entries[e.id := e];
      if eventId in outbox {
        return false;
      }
      outbox := outbox[eventId := Outgoing(e, traceparent)];
      return true;
    }

    /** CreateEntry and ReverseEntry: an input that fails its checks never
        reaches the tables, any other becomes one command. */
    method Submit(input: Input, x: Context) returns (r: Result<Entry>)
      requires Valid()
      modifies this
      ensures Valid()
      ensures Validate(input).Err? ==> Rows() == old(Rows()) && history == old(history) && r == Err(Validate(input).error)
      ensures Validate(input).Ok? ==>
                && (Rows(), r) == Ledger.Execute(old(Rows()), Validate(input).value, x)
                && history == ExecuteLogs(old(Rows()), old(history), Validate(input).value, x)
    {
      var merchant := ParseId(input.merchant);
      if merchant.None? {
        return Err(InvalidMerchant);
      }
      if input.ReverseInput? && ParseId(input.original).None? {
        return Err(InvalidId);
      }
      if input.key == "" || !IsStrictTraceparent(input.traceparent) {
        return Err(InvalidArgument);
      }
      var request :=
        if input.ReverseInput? then Reversal(input.original, ParseId(input.original).value)
        else Creation(input.kind, input.amount, input.currency, input.date, input.description);
      r := Execute(Command(merchant.value, input.key, request, input.traceparent), x);
    }

    /** Runs a command, keeping what every run keeps. */
    method Execute(c: Command, x: Context) returns (r: Result<Entry>)
      requires Valid()
      modifies this
      ensures Valid()
      ensures (Rows(), r) == Ledger.Execute(old(Rows()), c, x)
      ensures history == ExecuteLogs(old(Rows()), old(history), c, x)
      ensures Rows() != old(Rows()) ==> r.Ok? && Fulfils(r.value, c, x)
    {
      assert Keyed(Rows()) by {
        assert forall id | id in entries :: Logged(history, id, entries[id]);
      }
      ExecuteKeepsInv(Rows(), history, c, x);
      history := ExecuteLogs(Rows(), history, c, x);
      r := Transact(c, x);
    }

    /** One transaction: claim, create, complete, or roll back. */
    method Transact(c: Command, x: Context) returns (r: Result<Entry>)
      modifies this`positions, this`entries, this`records, this`outbox
      ensures (Rows(), r) == Ledger.Execute(old(Rows()), c, x)
      ensures Keyed(old(Rows())) && Rows() != old(Rows()) ==> r.Ok? && Fulfils(r.value, c, x)
    {
      if x.storageFails {
        return Err(Storage);
      }
      var saved := Rows();
      var key := c.IdempotencyKey();
      var existing := ClaimIdempotency(key, c.request);
      if existing.Some? {
        if existing.value.request != c.request {
          return Err(IdempotencyConflict);
        }
        if existing.value.response.None? {
          return Err(Storage);
        }
        return Ok(existing.value.response.value);
      }
      r := Finish(c, x, saved);
      ExecuteFulfils(saved, c, x);
    }

    /** What follows a claim that was free: create and complete, or roll back. */
    method Finish(c: Command, x: Context, saved: Tables) returns (r: Result<Entry>)
      requires c.IdempotencyKey() !in saved.records && !x.storageFails
      requires Rows() == saved.(records := saved.records[c.IdempotencyKey() := Record(c.request, None)])
      modifies this`positions, this`entries, this`records, this`outbox
      ensures (Rows(), r) == Ledger.Execute(saved, c, x)
    {
      ghost var built := Build(saved, c, x);
      BuildIgnoresRecords(saved, Rows().records, c, x);
      FirstExecution(saved, c, x, built);
      r := Create(c, x);
      if r.Err? {
        positions, entries, records, outbox := saved.positions, saved.entries, saved.records, saved.outbox;
      } else {
        CompleteIdempotency(c.IdempotencyKey(), r.value);
        BuildPlaces(saved, c, x);
        assert Rows() == Commit(saved, c, x.eventId, r.value);
      }
    }

    /** The body of the transaction after the claim; an error leaves the rows
        to be rolled back. */
    method Create(c: Command, x: Context) returns (r: Result<Entry>)
      modifies this`positions, this`entries, this`outbox
      ensures
        var t := old(Rows());
        match Build(t, c, x)
        case Err(error) => r == Err(error)
        case Ok(e) =>
          if e.id in t.entries || x.eventId in t.outbox then r == Err(Storage)
          else
            && r == Ok(e)
            && positions == t.positions[c.merchant := Last(t, c.merchant) + 1]
            && entries == t.entries[e.id := e]
            && outbox == t.outbox[x.eventId := Outgoing(e, c.traceparent)]
      ensures Keyed(old(Rows())) && r.Ok? ==> Fulfils(r.value, c, x)
    {
      if Keyed(Rows()) && Build(Rows(), c, x).Ok? {
        BuildFulfils(Rows(), c, x);
      }
      var position := NextPosition(c.merchant);
      match c.request {
        case Creation(_, _, _, _, _) =>
          r := BuildCreation(c, x, position);
        case Reversal(_, id) =>
          if id !in entries || entries[id].merchant != c.merchant {
            return Err(EntryNotFound);
          }
          if exists k | k in entries :: entries[k].original == Some(id) {
            return Err(AlreadyReversed);
          }
          r := BuildReversal(x, entries[id], position);
      }
      if r.Err? {
        return;
      }
      var ok := InsertWithOutbox(r.value, x.eventId, c.traceparent);
      if !ok {
        r := Err(Storage);
      }
    }
  }
}
