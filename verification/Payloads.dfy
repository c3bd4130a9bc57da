/** Which of the ledger's payloads the consumer takes for valid. */
module Payloads {
  import opened Domain
  import opened Ledger
  import opened LedgerRuns

  /** A call as the service makes it: generated uuids, a clock and a calendar
      the layouts can write, an int64 amount, a checked traceparent. */
  ghost predicate ProperCall(text: Id -> string, call: Call) {
    && IsUuid(text(call.context.entryId)) && IsUuid(text(call.context.eventId))
    && IsInstant(call.context.now) && call.context.today <= MAX_DATE
    && IsStrictTraceparent(call.command.traceparent)
    && (call.command.request.Creation? ==> call.command.request.amount <= MAX_INT64)
  }

  ghost predicate ProperCalls(text: Id -> string, calls: seq<Call>) {
    forall i | 0 <= i < |calls| :: ProperCall(text, calls[i])
  }

  ghost predicate ProperEntry(text: Id -> string, e: Entry) {
    && IsUuid(text(e.id)) && 1 <= e.amount <= MAX_INT64
    && e.confirmedAt != 0 && IsInstant(e.confirmedAt) && e.date != ZERO_DATE && e.date <= MAX_DATE
    && (e.original.Some? ==> IsUuid(text(e.original.value)))
  }

  ghost predicate ProperRow(text: Id -> string, k: Id, o: Outgoing) {
    IsUuid(text(k)) && ProperEntry(text, o.entry) && IsTraceparent(o.traceparent)
  }

  ghost predicate ProperTables(text: Id -> string, t: Tables) {
    && (forall id | id in t.entries :: t.entries[id].id == id && ProperEntry(text, t.entries[id]))
    && (forall k | k in t.outbox :: ProperRow(text, k, t.outbox[k]))
  }

  lemma {:induction false} BuildIsProper(text: Id -> string, t: Tables, call: Call)
    requires ProperTables(text, t) && ProperCall(text, call) && Build(t, call.command, call.context).Ok?
    ensures ProperEntry(text, Build(t, call.command, call.context).value)
  {
    var c, x := call.command, call.context;
    if c.request.Creation? {
      CreationIsProper(c, x, Last(t, c.merchant) + 1);
    } else {
      var o := t.entries[c.request.original];
      assert ProperEntry(text, o);
    }
  }

  lemma {:induction false} CreationIsProper(c: Command, x: Context, position: nat)
    requires c.request.Creation? && BuildCreation(c, x, position).Ok?
    ensures
      var e := BuildCreation(c, x, position).value;
      && e.id == x.entryId && e.original.None? && 1 <= e.amount == c.request.amount
      && e.confirmedAt == x.now != 0 && e.date != ZERO_DATE && e.date <= x.today
  {
  }

  lemma {:induction false} CommitKeepsProper(text: Id -> string, t: Tables, c: Command, eventId: Id, e: Entry)
    requires ProperTables(text, t) && ProperEntry(text, e) && IsUuid(text(eventId)) && IsTraceparent(c.traceparent)
    ensures ProperTables(text, Commit(t, c, eventId, e))
  {
    assert ProperRow(text, eventId, Outgoing(e, c.traceparent));
  }

  lemma {:induction false} EveryRunIsProper(text: Id -> string, calls: seq<Call>)
    requires ProperCalls(text, calls)
    ensures ProperTables(text, Run(calls))
  {
    if calls != [] {
      var n := |calls| - 1;
      EveryRunIsProper(text, calls[..n]);
      var t, c, x := Run(calls[..n]), calls[n].command, calls[n].context;
      ExecuteCases(t, c, x);
      if Execute(t, c, x).0 != t {
        BuildIsProper(text, t, calls[n]);
        CommitKeepsProper(text, t, c, x.eventId, Build(t, c, x).value);
      }
    }
  }

  lemma {:induction false} LogLength(calls: seq<Call>, m: Id)
    ensures |LogOf(History(calls), m)| <= |calls|
  {
    if calls != [] {
      LogLength(calls[..|calls| - 1], m);
    }
  }

  lemma {:induction false} RowPosition(calls: seq<Call>, k: Id)
    requires k in Run(calls).outbox
    ensures 1 <= Run(calls).outbox[k].entry.position <= |calls|
  {
    EveryRunKeepsInv(calls);
    var e := Run(calls).outbox[k].entry;
    assert Announces(Run(calls), k, e);
    assert Logged(History(calls), e.id, Run(calls).entries[e.id]);
    LogLength(calls, e.merchant);
  }

  lemma {:induction false} RowValidIff(text: Id -> string, k: Id, o: Outgoing)
    requires ProperRow(text, k, o) && 1 <= o.entry.position <= MAX_INT64
    ensures o.Payload(text, k).Valid() <==> IsUuid(text(o.entry.merchant))
  {
  }

  /** Over every run of such calls, a payload is valid to the consumer if and
      only if its merchant's id has the consumer's pattern. */
  lemma {:induction false} PayloadValidIff(text: Id -> string, calls: seq<Call>, k: Id)
    requires ProperCalls(text, calls) && |calls| <= MAX_INT64 && k in Run(calls).outbox
    ensures var o := Run(calls).outbox[k]; o.Payload(text, k).Valid() <==> IsUuid(text(o.entry.merchant))
  {
    EveryRunIsProper(text, calls);
    RowPosition(calls, k);
    RowValidIff(text, k, Run(calls).outbox[k]);
  }
}
