/** What a ledger request becomes: the entry committed for it, the event
    announced for it, and when it is refused. */
module Requests {
  import opened Domain
  import opened Ledger
  import opened LedgerRuns

  /** Entry e is what the command asks for. */
  predicate Fulfils(e: Entry, c: Command, x: Context) {
    && e.id == x.entryId && e.merchant == c.merchant && e.confirmedAt == x.now
    && match c.request
       case Creation(kind, amount, currency, date, description) =>
         && (e.kind == Credit <==> ToLower(kind) == "credit") && (e.kind == Debit <==> ToLower(kind) == "debit")
         && e.amount == amount && amount > 0 && currency == "BRL"
         && e.description == description && |description| <= 500 && e.original == None
         && (match date
             case None => e.date == x.today
             case Some(d) => e.date == d && d <= x.today <= d + 30)
       case Reversal(_, original) => e.original == Some(original) && e.date == x.today && e.description == ""
  }

  /** Event p announces entry e, committed by the command under event id k. */
  ghost predicate Tells(p: Event, text: Id -> string, k: Id, e: Entry, c: Command) {
    && p.id == text(k) && p.eventType == "ledger.entry.confirmed.v1"
    && p.merchant == text(e.merchant) && p.position == e.position && p.entryId == text(e.id)
    && p.entryType == (if e.kind == Credit then "credit" else "debit")
    && p.amount == e.amount && p.currency == "BRL" && p.date == e.date
    && p.occurredAt == p.confirmedAt == e.confirmedAt && p.traceparent == c.traceparent
    && (match e.original case None => p.original == None case Some(o) => p.original == Some(text(o)))
  }

  lemma {:induction false} CreationFulfils(c: Command, x: Context, position: nat)
    requires c.request.Creation? && BuildCreation(c, x, position).Ok?
    ensures Fulfils(BuildCreation(c, x, position).value, c, x)
  {
  }

  lemma {:induction false} BuildFulfils(t: Tables, c: Command, x: Context)
    requires Build(t, c, x).Ok? && Keyed(t)
    ensures Fulfils(Build(t, c, x).value, c, x)
  {
    if c.request.Creation? {
      CreationFulfils(c, x, Last(t, c.merchant) + 1);
    }
  }

  /** Call i made entry id: it answered with the entry, which is what it asked
      for, recorded it under its key and announced it under its event id. */
  ghost predicate MadeBy(calls: seq<Call>, i: nat, id: Id) {
    && i < |calls| && id in Run(calls).entries
    && Rendered(Run(calls), calls[i], Run(calls).entries[id])
    && Execute(Run(calls[..i]), calls[i].command, calls[i].context).1 == Ok(Run(calls).entries[id])
  }

  ghost predicate Rendered(t: Tables, call: Call, e: Entry) {
    && Fulfils(e, call.command, call.context)
    && call.command.IdempotencyKey() in t.records
    && t.records[call.command.IdempotencyKey()] == Record(call.command.request, Some(e))
    && call.context.eventId in t.outbox
    && t.outbox[call.context.eventId] == Outgoing(e, call.command.traceparent)
  }

  lemma {:induction false} CommitRenders(t: Tables, call: Call)
    requires Execute(t, call.command, call.context).0 != t && Keyed(t)
    ensures
      var (t', r) := Execute(t, call.command, call.context);
      r.Ok? && t'.entries == t.entries[r.value.id := r.value] && Rendered(t', call, r.value)
  {
    ExecuteCases(t, call.command, call.context);
    BuildFulfils(t, call.command, call.context);
  }

  lemma {:induction false} ExecuteFulfils(t: Tables, c: Command, x: Context)
    ensures Keyed(t) && Execute(t, c, x).0 != t ==> Execute(t, c, x).1.Ok? && Fulfils(Execute(t, c, x).1.value, c, x)
  {
    if Keyed(t) && Execute(t, c, x).0 != t {
      CommitRenders(t, Call(c, x));
    }
  }

  lemma {:induction false} StillRendered(t: Tables, call: Call, e: Entry, next: Call)
    requires Rendered(t, call, e)
    ensures Rendered(Execute(t, next.command, next.context).0, call, e)
  {
    ExecuteCases(t, next.command, next.context);
  }

  /** Over every run of commands: each entry was made by one of its calls, with
      the kind, amount, date and description that call asked for. */
  lemma {:induction false} EveryEntryIsRequested(calls: seq<Call>, id: Id) returns (i: nat)
    requires id in Run(calls).entries
    ensures MadeBy(calls, i, id)
  {
    var n := |calls| - 1;
    var t := Run(calls[..n]);
    RunKeyed(calls[..n]);
    if Execute(t, calls[n].command, calls[n].context).0 != t {
      CommitRenders(t, calls[n]);
    }
    if id in t.entries {
      i := EveryEntryIsRequested(calls[..n], id);
      StillRendered(t, calls[i], t.entries[id], calls[n]);
      RunsTo(calls, id);
      assert calls[..n][..i] == calls[..i];
    } else {
      i := n;
    }
  }

  lemma {:induction false} RunsTo(calls: seq<Call>, id: Id)
    requires calls != [] && id in Run(calls[..|calls| - 1]).entries
    ensures id in Run(calls).entries && Run(calls).entries[id] == Run(calls[..|calls| - 1]).entries[id]
  {
    var n := |calls| - 1;
    ExecuteCases(Run(calls[..n]), calls[n].command, calls[n].context);
  }

  /** And each payload of the outbox announces such an entry. */
  lemma {:induction false} EveryPayloadTells(calls: seq<Call>, text: Id -> string, k: Id) returns (i: nat)
    requires k in Run(calls).outbox
    ensures
      var e := Run(calls).outbox[k].entry;
      && MadeBy(calls, i, e.id) && calls[i].context.eventId == k && Run(calls).entries[e.id] == e
      && Tells(Run(calls).outbox[k].Payload(text, k), text, k, e, calls[i].command)
  {
    EveryRunKeepsInv(calls);
    var e := Run(calls).outbox[k].entry;
    assert Announces(Run(calls), k, e);
    i := EveryEntryIsRequested(calls, e.id);
    assert Run(calls).outbox[calls[i].context.eventId].entry.id == e.id;
  }

  /* ---- Which commands share a record ---- */

  /** The same merchant, operation and key. */
  predicate Repeats(c: Command, d: Command) {
    c.merchant == d.merchant && c.key == d.key && c.request.Creation? == d.request.Creation?
  }

  /** Over every run: a command finds a record exactly when an earlier call of the
      same merchant, operation and key succeeded. */
  lemma {:induction false} RecordIff(calls: seq<Call>, c: Command)
    ensures c.IdempotencyKey() in Run(calls).records <==>
      exists i | 0 <= i < |calls| ::
        Repeats(calls[i].command, c) && Execute(Run(calls[..i]), calls[i].command, calls[i].context).1.Ok?
  {
    if calls != [] {
      var n := |calls| - 1;
      RecordIff(calls[..n], c);
      RecordStep(Run(calls[..n]), calls[n], c);
      forall i | 0 <= i < n
        ensures calls[..n][..i] == calls[..i] && calls[..n][i] == calls[i]
      {
      }
      assert Repeats(calls[n].command, c) && Execute(Run(calls[..n]), calls[n].command, calls[n].context).1.Ok? ==>
        c.IdempotencyKey() in Run(calls).records;
      if i :| 0 <= i < n && Repeats(calls[..n][i].command, c) && Execute(Run(calls[..n][..i]), calls[..n][i].command, calls[..n][i].context).1.Ok? {
        assert Repeats(calls[i].command, c);
      }
    }
  }

  lemma {:induction false} RecordStep(t: Tables, call: Call, c: Command)
    ensures
      var (t', r) := Execute(t, call.command, call.context);
      c.IdempotencyKey() in t'.records <==> c.IdempotencyKey() in t.records || (Repeats(call.command, c) && r.Ok?)
  {
    ExecuteCases(t, call.command, call.context);
    assert Repeats(call.command, c) <==> call.command.IdempotencyKey() == c.IdempotencyKey();
  }

  /* ---- When a creation is refused ---- */

  predicate KnownKind(kind: string) {
    ToLower(kind) == "credit" || ToLower(kind) == "debit"
  }

  /** More than thirty days back, or in the future; or 0001-01-01, the date that
      stands for none. */
  predicate Undated(date: Option<Date>, today: Date) {
    match date
    case None => today == 366
    case Some(d) => d + 30 < today || d > today || d == 366
  }

  /** Ids and clock as the service provides them: none is nil. */
  predicate Provided(c: Command, x: Context) {
    x.entryId != 0 && c.merchant != 0 && x.now != 0 && !x.storageFails
  }

  predicate Unused(t: Tables, x: Context) {
    x.entryId !in t.entries && x.eventId !in t.outbox
  }

  /** A first creation under its key is refused for its kind, its currency, its
      amount, its date or its description, each exactly when that is wrong and
      nothing before it is; otherwise it commits. */
  lemma {:induction false} CreationVerdict(t: Tables, c: Command, x: Context)
    requires c.request.Creation? && c.IdempotencyKey() !in t.records && Provided(c, x)
    ensures
      var q, r := c.request, Execute(t, c, x).1;
      && (!KnownKind(q.kind) <==> r == Err(InvalidEntryType))
      && (KnownKind(q.kind) && q.currency != "BRL" <==> r == Err(InvalidCurrency))
      && (KnownKind(q.kind) && q.currency == "BRL" && q.amount <= 0 <==> r == Err(InvalidAmount))
      && (KnownKind(q.kind) && q.currency == "BRL" && q.amount > 0 ==>
            && (Undated(q.date, x.today) <==> r == Err(InvalidBusinessDate))
            && (!Undated(q.date, x.today) && |q.description| > 500 <==> r == Err(DescriptionTooLong))
            && (!Undated(q.date, x.today) && |q.description| <= 500 && !Unused(t, x) <==> r == Err(Storage))
            && (!Undated(q.date, x.today) && |q.description| <= 500 && Unused(t, x) <==> r.Ok?))
  {
    CreationBuilt(c, x, Last(t, c.merchant) + 1);
    if Build(t, c, x).Ok? {
      BuildPlaces(t, c, x);
    }
  }

  lemma {:induction false} CreationBuilt(c: Command, x: Context, position: nat)
    requires c.request.Creation? && Provided(c, x)
    ensures
      var q, r := c.request, BuildCreation(c, x, position);
      && (!KnownKind(q.kind) ==> r == Err(InvalidEntryType))
      && (KnownKind(q.kind) && q.currency != "BRL" ==> r == Err(InvalidCurrency))
      && (KnownKind(q.kind) && q.currency == "BRL" && q.amount <= 0 ==> r == Err(InvalidAmount))
      && (KnownKind(q.kind) && q.currency == "BRL" && q.amount > 0 ==>
            && (Undated(q.date, x.today) ==> r == Err(InvalidBusinessDate))
            && (!Undated(q.date, x.today) && |q.description| > 500 ==> r == Err(DescriptionTooLong))
            && (!Undated(q.date, x.today) && |q.description| <= 500 ==> r.Ok?))
  {
  }

  /* ---- When a reversal is refused ---- */

  predicate Owns(t: Tables, merchant: Id, id: Id) {
    id in t.entries && t.entries[id].merchant == merchant
  }

  /** Amounts are positive in every run, so a reversal never fails for one. */
  lemma {:induction false} OriginalAmounts(calls: seq<Call>, id: Id)
    requires id in Run(calls).entries && Run(calls).entries[id].original.None?
    ensures Run(calls).entries[id].amount > 0
  {
    var i := EveryEntryIsRequested(calls, id);
    assert Fulfils(Run(calls).entries[id], calls[i].command, calls[i].context);
  }

  /** Over every run: a first reversal under its key is refused when the merchant
      has no such entry, when the entry has been reversed, and when it is itself
      a reversal, in that order; otherwise it commits. */
  lemma {:induction false} ReversalVerdict(calls: seq<Call>, c: Command, x: Context)
    requires c.request.Reversal? && c.IdempotencyKey() !in Run(calls).records && Provided(c, x)
    ensures
      var t, o, r := Run(calls), c.request.original, Execute(Run(calls), c, x).1;
      var reversed := exists k :: k in t.entries && t.entries[k].original == Some(o);
      && (!Owns(t, c.merchant, o) <==> r == Err(EntryNotFound))
      && (Owns(t, c.merchant, o) && reversed <==> r == Err(AlreadyReversed))
      && (Owns(t, c.merchant, o) && !reversed ==>
            && (t.entries[o].original.Some? <==> r == Err(ReversalNotAllowed))
            && (t.entries[o].original.None? && x.today == 366 <==> r == Err(InvalidBusinessDate))
            && (t.entries[o].original.None? && x.today != 366 && !Unused(t, x) <==> r == Err(Storage))
            && (t.entries[o].original.None? && x.today != 366 && Unused(t, x) <==> r.Ok?))
  {
    var t, o := Run(calls), c.request.original;
    if Owns(t, c.merchant, o) && t.entries[o].original.None? {
      OriginalAmounts(calls, o);
    }
  }

  /* ---- Identifiers ---- */

  /** Two uuid texts are the same ledger id exactly when they differ at most in
      letter case. */
  lemma {:induction false} SameIdIff(a: string, b: string)
    requires IsUuidShape(a) && IsUuidShape(b)
    ensures HexValue(a) == HexValue(b) <==> ToLower(a) == ToLower(b)
  {
    assert a[..36] == a && b[..36] == b;
    SameDigitsIff(a, b, 36);
  }

  /** The nil uuid: no digit but zero. */
  predicate Nil(s: string) {
    forall i | 0 <= i < |s| :: s[i] == '0' || s[i] == '-'
  }

  lemma {:induction false} NilIff(s: string)
    requires IsUuidShape(s)
    ensures HexValue(s) == 0 <==> Nil(s)
  {
    assert s[..36] == s;
    NilUpTo(s, 36);
  }

  lemma {:induction false} NilUpTo(s: string, n: nat)
    requires IsUuidShape(s) && n <= 36
    ensures HexValue(s[..n]) == 0 <==> Nil(s[..n])
  {
    if n > 0 {
      NilUpTo(s, n - 1);
      HexStep(s, n);
      assert s[..n] == s[..n - 1] + [s[n - 1]];
      if n - 1 !in {8, 13, 18, 23} {
        assert IsHex(s[n - 1]);
      }
    }
  }

  /** The parts of a W3C trace context header. */
  datatype TraceContext = TraceContext(version: string, trace: string, parent: string, flags: string)
  {
    function Header(): string { version + "-" + trace + "-" + parent + "-" + flags }

    /** Lower-case hexadecimal parts of 2, 32, 16 and 2 digits, not the reserved
        version, neither identifier all zero, and under version 00 no flag but
        the sampled one. */
    predicate Proper() {
      && |version| == 2 && |trace| == 32 && |parent| == 16 && |flags| == 2
      && LowerHex(version) && LowerHex(trace) && LowerHex(parent) && LowerHex(flags)
      && version != "ff" && (exists i | 0 <= i < 32 :: trace[i] != '0') && (exists i | 0 <= i < 16 :: parent[i] != '0')
      && (version == "00" ==> flags == "00" || flags == "01")
    }
  }

  predicate LowerHex(s: string) {
    forall i | 0 <= i < |s| :: '0' <= s[i] <= '9' || 'a' <= s[i] <= 'f'
  }

  /** A traceparent is accepted exactly when it is the header of proper parts. */
  lemma {:induction false} TraceparentIff(s: string)
    ensures IsStrictTraceparent(s) <==> exists x: TraceContext :: x.Proper() && x.Header() == s
  {
    if IsStrictTraceparent(s) {
      var x := TraceContext(s[..2], s[3..35], s[36..52], s[53..]);
      HeaderParts(s);
      assert x.Proper();
    }
    if x: TraceContext :| x.Proper() && x.Header() == s {
      PartsHeader(x);
    }
  }

  lemma {:induction false} HeaderParts(s: string)
    requires IsTraceparent(s)
    ensures s == s[..2] + "-" + s[3..35] + "-" + s[36..52] + "-" + s[53..]
    ensures LowerHex(s[..2]) && LowerHex(s[3..35]) && LowerHex(s[36..52]) && LowerHex(s[53..])
  {
    assert s[2] == '-' && s[35] == '-' && s[52] == '-';
  }

  lemma {:induction false} PartsHeader(x: TraceContext)
    requires x.Proper()
    ensures
      var s := x.Header();
      IsTraceparent(s) && s[..2] == x.version && s[3..35] == x.trace && s[36..52] == x.parent && s[53..] == x.flags
  {
    var s := x.Header();
    assert s[..2] == x.version && s[3..35] == x.trace && s[36..52] == x.parent && s[53..] == x.flags;
    assert s[2] == '-' && s[35] == '-' && s[52] == '-';
    forall i | 0 <= i < 55
      ensures if i in {2, 35, 52} then s[i] == '-' else IsHex(s[i]) && !('A' <= s[i] <= 'F')
    {
      if i < 2 {
        assert s[i] == x.version[i];
      } else if 2 < i < 35 {
        assert s[i] == x.trace[i - 3];
      } else if 35 < i < 52 {
        assert s[i] == x.parent[i - 36];
      } else if 52 < i {
        assert s[i] == x.flags[i - 53];
      }
    }
  }

  predicate Named(text: string) {
    IsUuidShape(text) && !Nil(text)
  }

  /** An input is refused for its merchant, for the id of its original, or for an
      empty key or a malformed traceparent, in that order; otherwise its command
      carries everything it said. */
  lemma {:induction false} ValidateIs(input: Input)
    ensures
      var r, original := Validate(input), if input.ReverseInput? then input.original else input.merchant;
      var argument := input.key != "" && IsStrictTraceparent(input.traceparent);
      && (!Named(input.merchant) <==> r == Err(InvalidMerchant))
      && (Named(input.merchant) && !Named(original) <==> r == Err(InvalidId))
      && (Named(input.merchant) && Named(original) && !argument <==> r == Err(InvalidArgument))
      && (Named(input.merchant) && Named(original) && argument <==> r.Ok?)
      && (r.Ok? ==>
            && r.value.merchant == HexValue(input.merchant) && r.value.key == input.key && r.value.traceparent == input.traceparent
            && match input
               case CreateInput(_, _, kind, amount, currency, date, description, _) =>
                 r.value.request == Creation(kind, amount, currency, date, description)
               case ReverseInput(_, text, _, _) => r.value.request == Reversal(text, HexValue(text)))
  {
    if IsUuidShape(input.merchant) {
      NilIff(input.merchant);
    }
    if input.ReverseInput? && IsUuidShape(input.original) {
      NilIff(input.original);
    }
  }

  lemma {:induction false} SameDigitsIff(a: string, b: string, n: nat)
    requires IsUuidShape(a) && IsUuidShape(b) && n <= 36
    ensures HexValue(a[..n]) == HexValue(b[..n]) <==> ToLower(a[..n]) == ToLower(b[..n])
  {
    if n > 0 {
      SameDigitsIff(a, b, n - 1);
      HexStep(a, n);
      HexStep(b, n);
      LowerStep(a, n);
      LowerStep(b, n);
      SnocIff(ToLower(a[..n - 1]), ToLower(b[..n - 1]), LowerChar(a[n - 1]), LowerChar(b[n - 1]));
      if n - 1 !in {8, 13, 18, 23} {
        DigitIff(a[n - 1], b[n - 1]);
      }
    }
  }

  lemma {:induction false} HexStep(s: string, n: nat)
    requires IsUuidShape(s) && 0 < n <= 36
    ensures HexValue(s[..n]) == if n - 1 in {8, 13, 18, 23} then HexValue(s[..n - 1]) else 16 * HexValue(s[..n - 1]) + HexDigit(s[n - 1])
    ensures n - 1 in {8, 13, 18, 23} ==> s[n - 1] == '-'
  {
    assert s[..n][..n - 1] == s[..n - 1];
    assert if n - 1 in {8, 13, 18, 23} then s[n - 1] == '-' else IsHex(s[n - 1]);
  }

  lemma {:induction false} LowerStep(s: string, n: nat)
    requires 0 < n <= |s|
    ensures ToLower(s[..n]) == ToLower(s[..n - 1]) + [LowerChar(s[n - 1])]
  {
  }

  lemma {:induction false} SnocIff(x: string, y: string, c: char, d: char)
    ensures x + [c] == y + [d] <==> x == y && c == d
  {
    if x + [c] == y + [d] {
      assert (x + [c])[..|x|] == x && (y + [d])[..|y|] == y;
      assert (x + [c])[|x|] == c && (y + [d])[|y|] == d;
    }
  }

  lemma {:induction false} DigitIff(c: char, d: char)
    requires IsHex(c) && IsHex(d)
    ensures HexDigit(c) < 16 && HexDigit(d) < 16 && (HexDigit(c) == HexDigit(d) <==> LowerChar(c) == LowerChar(d))
  {
  }
}
