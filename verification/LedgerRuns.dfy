/** What every run of ledger commands keeps. */
module LedgerRuns {
  import opened Domain
  import opened Ledger

  /** The append-only history of each merchant, in position order. */
  type Logs = map<Id, seq<Entry>>

  function LogOf(logs: Logs, m: Id): seq<Entry> {
    if m in logs then logs[m] else []
  }

  function Append(logs: Logs, e: Entry): Logs {
    logs[e.merchant := LogOf(logs, e.merchant) + [e]]
  }

  /** Entry e is a committed row at place i of merchant m's log. */
  ghost predicate Placed(t: Tables, m: Id, i: nat, e: Entry) {
    e.merchant == m && e.position == i + 1 && e.id in t.entries && t.entries[e.id] == e
  }

  /** Committed row e stands in its merchant's log at its position. */
  ghost predicate Logged(logs: Logs, id: Id, e: Entry) {
    var log := LogOf(logs, e.merchant);
    e.id == id && 1 <= e.position <= |log| && log[e.position - 1] == e
  }

  /** Entries are keyed by their id. */
  ghost predicate Keyed(t: Tables) {
    forall id | id in t.entries :: t.entries[id].id == id
  }

  /** Committed positions are exactly 1..last: the entries of a merchant are
      the sequence of its log. */
  ghost predicate Dense(t: Tables, logs: Logs) {
    && (forall m :: Last(t, m) == |LogOf(logs, m)|)
    && (forall m, i | 0 <= i < |LogOf(logs, m)| :: Placed(t, m, i, LogOf(logs, m)[i]))
    && (forall id | id in t.entries :: Logged(logs, id, t.entries[id]))
  }

  /** Outbox row k is made from committed entry e. */
  ghost predicate Announces(t: Tables, k: Id, e: Entry) {
    k in t.outbox && t.outbox[k].entry == e && e.id in t.entries && t.entries[e.id] == e
  }

  ghost predicate Announced(t: Tables, e: Entry) {
    exists k :: Announces(t, k, e)
  }

  /** Each entry has exactly one outbox event, made from it. */
  ghost predicate OutboxInv(t: Tables) {
    && (forall k | k in t.outbox :: Announces(t, k, t.outbox[k].entry))
    && (forall k, l | k in t.outbox && l in t.outbox && t.outbox[k].entry.id == t.outbox[l].entry.id :: k == l)
    && (forall id | id in t.entries :: Announced(t, t.entries[id]))
  }

  /** Record k is completed by committed entry e of its own merchant. */
  ghost predicate Completes(t: Tables, k: Key, e: Entry) {
    && k in t.records && t.records[k].response == Some(e)
    && e.id in t.entries && t.entries[e.id] == e && e.merchant == k.merchant
  }

  ghost predicate Completed(t: Tables, e: Entry) {
    exists k :: Completes(t, k, e)
  }

  /** Each idempotency record is completed, and each entry completes exactly
      one record. */
  ghost predicate RecordsInv(t: Tables) {
    && (forall k | k in t.records :: t.records[k].response.Some? && Completes(t, k, t.records[k].response.value))
    && (forall k, l | k in t.records && l in t.records && t.records[k].response == t.records[l].response :: k == l)
    && (forall id | id in t.entries :: Completed(t, t.entries[id]))
  }

  /** e reverses o: an earlier original of the same merchant, equal and opposite. */
  predicate Reverses(e: Entry, o: Entry) {
    && o.original.None? && o.merchant == e.merchant && o.position < e.position
    && o.amount == e.amount && o.kind == e.kind.Opposite()
  }

  ghost predicate ReversalInv(t: Tables) {
    && (forall id | id in t.entries && t.entries[id].original.Some? ::
          var o := t.entries[id].original.value;
          o in t.entries && Reverses(t.entries[id], t.entries[o]))
    && (forall id, jd | id in t.entries && jd in t.entries && t.entries[id].original.Some? &&
          t.entries[id].original == t.entries[jd].original :: id == jd)
  }

  ghost predicate Inv(t: Tables, logs: Logs) {
    Dense(t, logs) && OutboxInv(t) && RecordsInv(t) && ReversalInv(t)
  }

  /* ---- One transaction ---- */

  /** A new entry stands at the next position and, if it is a reversal,
      reverses an original nobody has reversed. */
  ghost predicate Follows(t: Tables, e: Entry) {
    && e.id !in t.entries && e.position == Last(t, e.merchant) + 1
    && (e.original.Some? ==>
          && e.original.value in t.entries && !Reversed(t, e.original.value)
          && var o := t.entries[e.original.value];
             o.original.None? && e.merchant == o.merchant && e.amount == o.amount && o.kind == e.kind.Opposite())
  }

  lemma {:induction false} CreationShape(c: Command, x: Context, position: nat)
    requires c.request.Creation? && BuildCreation(c, x, position).Ok?
    ensures
      var e := BuildCreation(c, x, position).value;
      e.id == x.entryId && e.merchant == c.merchant && e.position == position && e.original.None?
  {
  }

  lemma {:induction false} BuildFollows(t: Tables, c: Command, x: Context)
    requires Build(t, c, x).Ok? && x.entryId !in t.entries
    requires Keyed(t)
    ensures
      var e := Build(t, c, x).value;
      e.id == x.entryId && e.merchant == c.merchant && Follows(t, e)
  {
    if c.request.Creation? {
      CreationShape(c, x, Last(t, c.merchant) + 1);
    }
  }

  /** A command changes nothing, or commits one entry with its event and its
      record under keys that were free; a failed one changes nothing. */
  lemma {:induction false} ExecuteCases(t: Tables, c: Command, x: Context)
    ensures
      var (t', r) := Execute(t, c, x);
      t' != t ==>
        && r.Ok? && Build(t, c, x) == r && t' == Commit(t, c, x.eventId, r.value)
        && c.IdempotencyKey() !in t.records && x.eventId !in t.outbox && x.entryId !in t.entries
  {
    var (t', r) := Execute(t, c, x);
    if t' != t {
      BuildPlaces(t, c, x);
    }
  }

  lemma {:induction false} BuildPlaces(t: Tables, c: Command, x: Context)
    requires Build(t, c, x).Ok?
    ensures
      var e := Build(t, c, x).value;
      e.id == x.entryId && e.merchant == c.merchant && e.position == Last(t, c.merchant) + 1
  {
    if c.request.Creation? {
      CreationShape(c, x, Last(t, c.merchant) + 1);
    }
  }

  /** What a command builds does not depend on the idempotency records. */
  lemma {:induction false} BuildIgnoresRecords(t: Tables, records: map<Key, Record>, c: Command, x: Context)
    ensures Build(t.(records := records), c, x) == Build(t, c, x)
  {
    if c.request.Reversal? {
      assert Reversed(t.(records := records), c.request.original) == Reversed(t, c.request.original);
    }
  }

  /** A first command under its key, given what it builds. */
  lemma {:induction false} FirstExecution(t: Tables, c: Command, x: Context, b: Result<Entry>)
    requires c.IdempotencyKey() !in t.records && !x.storageFails && b == Build(t, c, x)
    ensures Execute(t, c, x) ==
      if b.Err? then (t, b)
      else if b.value.id in t.entries || x.eventId in t.outbox then (t, Err(Storage))
      else (Commit(t, c, x.eventId, b.value), b)
  {
  }

  lemma {:induction false} AppendLog(logs: Logs, e: Entry, m: Id)
    ensures LogOf(Append(logs, e), m) == if m == e.merchant then LogOf(logs, m) + [e] else LogOf(logs, m)
  {
  }

  lemma {:induction false} CommitKeepsDense(t: Tables, logs: Logs, c: Command, eventId: Id, e: Entry)
    requires Dense(t, logs) && Follows(t, e)
    ensures Dense(Commit(t, c, eventId, e), Append(logs, e))
  {
    var t', logs' := Commit(t, c, eventId, e), Append(logs, e);
    forall m
      ensures Last(t', m) == |LogOf(logs', m)|
    {
      AppendLog(logs, e, m);
      assert Last(t, m) == |LogOf(logs, m)|;
    }
    forall m, i | 0 <= i < |LogOf(logs', m)|
      ensures Placed(t', m, i, LogOf(logs', m)[i])
    {
      AppendLog(logs, e, m);
      if i < |LogOf(logs, m)| {
        assert Placed(t, m, i, LogOf(logs, m)[i]);
      } else {
        assert Last(t, m) == |LogOf(logs, m)|;
      }
    }
    forall id | id in t'.entries
      ensures Logged(logs', id, t'.entries[id])
    {
      AppendLog(logs, e, t'.entries[id].merchant);
      if id == e.id {
        assert Last(t, e.merchant) == |LogOf(logs, e.merchant)|;
      } else {
        assert Logged(logs, id, t.entries[id]);
      }
    }
  }

  lemma {:induction false} CommitAnnounces(t: Tables, c: Command, eventId: Id, e: Entry, k: Id, x: Entry)
    requires Announces(t, k, x) && e.id !in t.entries && eventId !in t.outbox
    ensures Announces(Commit(t, c, eventId, e), k, x) && x.id != e.id && k != eventId
  {
  }

  lemma {:induction false} CommitKeepsOutbox(t: Tables, c: Command, eventId: Id, e: Entry)
    requires OutboxInv(t) && e.id !in t.entries && eventId !in t.outbox
    ensures OutboxInv(Commit(t, c, eventId, e))
  {
    var t' := Commit(t, c, eventId, e);
    assert Announces(t', eventId, e);
    assert Announced(t', e);
    forall k | k in t.outbox
      ensures Announces(t', k, t.outbox[k].entry) && t.outbox[k].entry.id != e.id
    {
      CommitAnnounces(t, c, eventId, e, k, t.outbox[k].entry);
    }
    forall id | id in t.entries
      ensures Announced(t', t.entries[id])
    {
      assert Announced(t, t.entries[id]);
      var k :| Announces(t, k, t.entries[id]);
      CommitAnnounces(t, c, eventId, e, k, t.entries[id]);
    }
  }

  lemma {:induction false} CommitCompletes(t: Tables, c: Command, eventId: Id, e: Entry, k: Key, x: Entry)
    requires Completes(t, k, x) && e.id !in t.entries && c.IdempotencyKey() !in t.records
    ensures Completes(Commit(t, c, eventId, e), k, x) && x != e && k != c.IdempotencyKey()
  {
  }

  lemma {:induction false} CommitKeepsRecords(t: Tables, c: Command, eventId: Id, e: Entry)
    requires RecordsInv(t) && e.id !in t.entries && c.IdempotencyKey() !in t.records && e.merchant == c.merchant
    ensures RecordsInv(Commit(t, c, eventId, e))
  {
    var t' := Commit(t, c, eventId, e);
    assert Completes(t', c.IdempotencyKey(), e);
    assert Completed(t', e);
    forall k | k in t.records
      ensures Completes(t', k, t.records[k].response.value) && t.records[k].response != Some(e)
    {
      CommitCompletes(t, c, eventId, e, k, t.records[k].response.value);
    }
    forall id | id in t.entries
      ensures Completed(t', t.entries[id])
    {
      assert Completed(t, t.entries[id]);
      var k :| Completes(t, k, t.entries[id]);
      CommitCompletes(t, c, eventId, e, k, t.entries[id]);
    }
  }

  lemma {:induction false} CommitKeepsReversals(t: Tables, logs: Logs, c: Command, eventId: Id, e: Entry)
    requires Dense(t, logs) && ReversalInv(t) && Follows(t, e)
    ensures ReversalInv(Commit(t, c, eventId, e))
  {
    if e.original.Some? {
      var o := t.entries[e.original.value];
      assert o.position <= |LogOf(logs, o.merchant)| && Last(t, o.merchant) == |LogOf(logs, o.merchant)|;
    }
  }

  function ExecuteLogs(t: Tables, logs: Logs, c: Command, x: Context): Logs {
    var (t', r) := Execute(t, c, x);
    if r.Ok? && t' != t then Append(logs, r.value) else logs
  }

  lemma {:induction false} ExecuteKeepsInv(t: Tables, logs: Logs, c: Command, x: Context)
    requires Inv(t, logs)
    ensures Inv(Execute(t, c, x).0, ExecuteLogs(t, logs, c, x))
  {
    var (t', r) := Execute(t, c, x);
    ExecuteCases(t, c, x);
    if t' != t {
      assert forall id | id in t.entries :: Logged(logs, id, t.entries[id]);
      BuildFollows(t, c, x);
      CommitKeepsDense(t, logs, c, x.eventId, r.value);
      CommitKeepsOutbox(t, c, x.eventId, r.value);
      CommitKeepsRecords(t, c, x.eventId, r.value);
      CommitKeepsReversals(t, logs, c, x.eventId, r.value);
    }
  }

  /* ---- Runs ---- */

  datatype Call = Call(command: Command, context: Context)

  function Run(calls: seq<Call>): Tables {
    if calls == [] then NO_TABLES
    else
      var n := |calls| - 1;
      Execute(Run(calls[..n]), calls[n].command, calls[n].context).0
  }

  function History(calls: seq<Call>): Logs {
    if calls == [] then map[]
    else
      var n := |calls| - 1;
      ExecuteLogs(Run(calls[..n]), History(calls[..n]), calls[n].command, calls[n].context)
  }

  /** In every run, per merchant: positions are exactly 1..last, and every entry
      has one outbox event, one completed record and a sound reversal link. */
  lemma {:induction false} EveryRunKeepsInv(calls: seq<Call>)
    ensures Inv(Run(calls), History(calls))
  {
    if calls != [] {
      var n := |calls| - 1;
      EveryRunKeepsInv(calls[..n]);
      ExecuteKeepsInv(Run(calls[..n]), History(calls[..n]), calls[n].command, calls[n].context);
    }
  }

  lemma {:induction false} RunKeyed(calls: seq<Call>)
    ensures Keyed(Run(calls))
  {
    EveryRunKeepsInv(calls);
    assert forall id | id in Run(calls).entries :: Logged(History(calls), id, Run(calls).entries[id]);
  }

  /** History is append-only. */
  lemma {:induction false} HistoryGrows(calls: seq<Call>, more: seq<Call>, m: Id)
    ensures LogOf(History(calls), m) <= LogOf(History(calls + more), m)
    decreases |more|
  {
    if more == [] {
      assert calls + more == calls;
    } else {
      var n := |more| - 1;
      HistoryGrows(calls, more[..n], m);
      assert (calls + more)[..|calls + more| - 1] == calls + more[..n];
    }
  }

  lemma {:induction false} RecordsGrow(calls: seq<Call>, more: seq<Call>, key: Key)
    requires key in Run(calls).records
    ensures key in Run(calls + more).records && Run(calls + more).records[key] == Run(calls).records[key]
    decreases |more|
  {
    if more == [] {
      assert calls + more == calls;
    } else {
      var n := |more| - 1;
      RecordsGrow(calls, more[..n], key);
      assert (calls + more)[..|calls + more| - 1] == calls + more[..n];
    }
  }

  /** Once a command succeeded, repeating its key after any further calls
      creates nothing: it returns the stored response, or conflicts when the
      request differs. */
  lemma {:induction false} RepeatIsIdempotent(calls: seq<Call>, first: Call, more: seq<Call>, again: Call)
    requires Execute(Run(calls), first.command, first.context).1.Ok?
    requires again.command.IdempotencyKey() == first.command.IdempotencyKey()
    requires !again.context.storageFails
    ensures
      var stored := Execute(Run(calls), first.command, first.context).1;
      var t := Run(calls + [first] + more);
      Execute(t, again.command, again.context) ==
        (t, if again.command.request == first.command.request then stored else Err(IdempotencyConflict))
  {
    var key := first.command.IdempotencyKey();
    var calls' := calls + [first];
    assert calls'[..|calls'| - 1] == calls && calls'[|calls'| - 1] == first;
    RecordsGrow(calls', more, key);
  }

  /* ---- Reversal conservation ---- */

  function Net(log: seq<Entry>): int {
    if log == [] then 0 else Net(log[..|log| - 1]) + log[|log| - 1].Signed()
  }

  predicate ReversedIn(log: seq<Entry>, id: Id) {
    exists i | 0 <= i < |log| :: log[i].original == Some(id)
  }

  predicate Live(log: seq<Entry>, e: Entry) {
    e.original.None? && !ReversedIn(log, e.id)
  }

  /** The signed sum of the first n entries that are unreversed originals. */
  function LiveNet(log: seq<Entry>, n: nat): int
    requires n <= |log|
  {
    if n == 0 then 0
    else LiveNet(log, n - 1) + (if Live(log, log[n - 1]) then log[n - 1].Signed() else 0)
  }

  /** Every reversal in the log follows the one entry it reverses. */
  ghost predicate Paired(log: seq<Entry>) {
    && (forall i, j | 0 <= i < j < |log| :: log[i].id != log[j].id)
    && (forall i | 0 <= i < |log| && log[i].original.Some? ::
          exists j | 0 <= j < i :: log[j].id == log[i].original.value && Reverses(log[i], log[j]))
    && (forall i, j | 0 <= i < j < |log| && log[i].original.Some? :: log[i].original != log[j].original)
  }

  lemma {:induction false} LiveNetSnoc(log: seq<Entry>, e: Entry, n: nat, j: int)
    requires n <= |log| && -1 <= j < |log|
    requires forall i, k | 0 <= i < k < |log| :: log[i].id != log[k].id
    requires e.original == (if j < 0 then None else Some(log[j].id))
    requires j >= 0 ==> Live(log, log[j])
    ensures LiveNet(log + [e], n) == LiveNet(log, n) - (if 0 <= j < n then log[j].Signed() else 0)
  {
    if n > 0 {
      LiveNetSnoc(log, e, n - 1, j);
      var x := log[n - 1];
      assert (log + [e])[n - 1] == x;
      ReversedSnoc(log, e, x.id);
    }
  }

  lemma {:induction false} ReversedSnoc(log: seq<Entry>, e: Entry, id: Id)
    ensures ReversedIn(log + [e], id) <==> ReversedIn(log, id) || e.original == Some(id)
  {
    var all := log + [e];
    assert all[|log|] == e;
    if ReversedIn(log, id) {
      var i :| 0 <= i < |log| && log[i].original == Some(id);
      assert all[i].original == Some(id);
    }
  }

  /** Nothing in the log reverses its last entry. */
  lemma {:induction false} LastUnreversed(log: seq<Entry>)
    requires Paired(log) && log != []
    ensures !ReversedIn(log, log[|log| - 1].id)
  {
    forall i | 0 <= i < |log| && log[i].original.Some?
      ensures log[i].original.value != log[|log| - 1].id
    {
      var j :| 0 <= j < i && log[j].id == log[i].original.value && Reverses(log[i], log[j]);
      assert log[j].id != log[|log| - 1].id;
    }
  }

  /** The entry a last reversal points to was unreversed before it. */
  lemma {:induction false} ReversedWasLive(log: seq<Entry>) returns (j: nat)
    requires Paired(log) && log != [] && log[|log| - 1].original.Some?
    ensures
      var front, e := log[..|log| - 1], log[|log| - 1];
      j < |front| && e.original == Some(front[j].id) && Live(front, front[j]) && front[j].Signed() == -e.Signed()
  {
    var n := |log| - 1;
    j :| 0 <= j < n && log[j].id == log[n].original.value && Reverses(log[n], log[j]);
    assert forall i | 0 <= i < n :: log[..n][i] == log[i] && log[i].original != log[n].original;
  }

  lemma {:induction false} NetIsLiveNetStep(front: seq<Entry>, e: Entry)
    requires Paired(front + [e]) && Net(front) == LiveNet(front, |front|)
    ensures Net(front + [e]) == LiveNet(front + [e], |front| + 1)
  {
    var log, n := front + [e], |front|;
    assert log[..n] == front && log[n] == e;
    LastUnreversed(log);
    if e.original.None? {
      LiveNetSnoc(front, e, n, -1);
    } else {
      var j := ReversedWasLive(log);
      LiveNetSnoc(front, e, n, j);
    }
  }

  /** A merchant's net is the signed sum of its unreversed originals. */
  lemma {:induction false} NetIsLiveNet(log: seq<Entry>)
    requires Paired(log)
    ensures Net(log) == LiveNet(log, |log|)
  {
    if log != [] {
      var n := |log| - 1;
      var front, e := log[..n], log[n];
      assert log == front + [e];
      PairedFront(front, e);
      NetIsLiveNet(front);
      NetIsLiveNetStep(front, e);
    }
  }

  lemma {:induction false} PairedFront(front: seq<Entry>, e: Entry)
    requires Paired(front + [e])
    ensures Paired(front)
  {
    var log := front + [e];
    assert forall i | 0 <= i < |front| :: log[i] == front[i];
    forall i | 0 <= i < |front| && front[i].original.Some?
      ensures exists j | 0 <= j < i :: front[j].id == front[i].original.value && Reverses(front[i], front[j])
    {
      var j :| 0 <= j < i && log[j].id == log[i].original.value && Reverses(log[i], log[j]);
      assert front[j] == log[j];
    }
  }

  lemma {:induction false} InvPairs(t: Tables, logs: Logs, m: Id)
    requires Inv(t, logs)
    ensures Paired(LogOf(logs, m))
  {
    var log := LogOf(logs, m);
    forall i | 0 <= i < |log| && log[i].original.Some?
      ensures exists j | 0 <= j < i :: log[j].id == log[i].original.value && Reverses(log[i], log[j])
    {
      PairOf(t, logs, m, i);
    }
    forall i, j | 0 <= i < j < |log|
      ensures log[i].id != log[j].id && (log[i].original.Some? ==> log[i].original != log[j].original)
    {
      assert Placed(t, m, i, log[i]) && Placed(t, m, j, log[j]);
    }
  }

  lemma {:induction false} PairOf(t: Tables, logs: Logs, m: Id, i: nat)
    requires Dense(t, logs) && ReversalInv(t) && i < |LogOf(logs, m)| && LogOf(logs, m)[i].original.Some?
    ensures
      var log := LogOf(logs, m);
      exists j | 0 <= j < i :: log[j].id == log[i].original.value && Reverses(log[i], log[j])
  {
    var log := LogOf(logs, m);
    assert Placed(t, m, i, log[i]);
    var o := t.entries[log[i].original.value];
    assert Logged(logs, log[i].original.value, o);
    assert log[o.position - 1] == o;
  }

  /** In every run each original has at most one reversal, reversals are never
      reversed, and so a merchant's net is that of its unreversed originals. */
  lemma {:induction false} EveryRunConservesReversals(calls: seq<Call>, m: Id)
    ensures Paired(LogOf(History(calls), m))
    ensures Net(LogOf(History(calls), m)) == LiveNet(LogOf(History(calls), m), |LogOf(History(calls), m)|)
  {
    EveryRunKeepsInv(calls);
    InvPairs(Run(calls), History(calls), m);
    NetIsLiveNet(LogOf(History(calls), m));
  }
}
