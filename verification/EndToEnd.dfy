/** From the ledger's entries to the published balances, through every part. */
module EndToEnd {
  import opened Domain
  import opened Projection
  import opened Closing
  import opened Invariants
  import opened Identity
  import L = Ledger
  import LR = LedgerRuns
  import opened Freshness
  import P = Pipeline
  import Q = Payloads
  import C = Capacity
  import V = Recovery
  import K = Consumer
  import R = Runs
  import T = Traces
  import X = Reconciliation
  import I = Isolation

  /** A printer of uuids: distinct, in lower case. */
  ghost predicate Prints(text: L.Id -> string) {
    && (forall a, b | text(a) == text(b) :: a == b)
    && (forall a :: ToLower(text(a)) == text(a))
  }

  /** Event e is the canonical payload of an outbox row of the ledger. */
  ghost predicate Announces(t: L.Tables, text: L.Id -> string, k: L.Id, e: Event) {
    k in t.outbox && e == t.outbox[k].Payload(text, k).Canonical()
  }

  ghost predicate FromLedger(t: L.Tables, text: L.Id -> string, e: Event) {
    exists k :: Announces(t, text, k, e)
  }

  /** What a payload says of its entry. */
  lemma {:induction false} PayloadTells(o: L.Outgoing, text: L.Id -> string, k: L.Id)
    requires ToLower(text(o.entry.merchant)) == text(o.entry.merchant) && ToLower(text(o.entry.id)) == text(o.entry.id)
    ensures var e := o.Payload(text, k).Canonical();
            && e.merchant == text(o.entry.merchant) && e.position == o.entry.position
            && e.entryId == text(o.entry.id) && Tells(e, o.entry)
  {
  }

  /** Every outbox row is made from a committed entry. */
  ghost predicate Sourced(t: L.Tables) {
    forall k | k in t.outbox :: LR.Announces(t, k, t.outbox[k].entry)
  }

  /** Every committed entry stands in its merchant's log. */
  ghost predicate AllLogged(t: L.Tables, logs: LR.Logs) {
    forall id | id in t.entries :: LR.Logged(logs, id, t.entries[id])
  }

  lemma {:induction false} RunSourced(calls: seq<LR.Call>)
    ensures Sourced(LR.Run(calls)) && AllLogged(LR.Run(calls), LR.History(calls))
  {
    LR.EveryRunKeepsInv(calls);
  }

  lemma {:induction false} RunLast(calls: seq<LR.Call>, id: L.Id)
    ensures L.Last(LR.Run(calls), id) == |LR.LogOf(LR.History(calls), id)|
  {
    LR.EveryRunKeepsInv(calls);
  }

  /** Event e tells a committed entry of the merchant, at its position. */
  ghost predicate Entered(t: L.Tables, text: L.Id -> string, e: Event, id: L.Id) {
    exists x :: IsEntry(t, text, e, id, x)
  }

  ghost predicate IsEntry(t: L.Tables, text: L.Id -> string, e: Event, id: L.Id, x: L.Entry) {
    && x.id in t.entries && t.entries[x.id] == x && x.merchant == id && x.position == e.position
    && e.entryId == text(x.id) && Tells(e, x)
  }

  lemma {:induction false} AnnouncedIsEntered(t: L.Tables, text: L.Id -> string, e: Event, id: L.Id)
    requires Sourced(t) && Prints(text) && FromLedger(t, text, e) && e.merchant == text(id)
    ensures Entered(t, text, e, id)
  {
    var k :| Announces(t, text, k, e);
    var x := t.outbox[k].entry;
    assert ToLower(text(x.merchant)) == text(x.merchant) && ToLower(text(x.id)) == text(x.id);
    PayloadTells(t.outbox[k], text, k);
    assert LR.Announces(t, k, x);
    assert IsEntry(t, text, e, id, x);
  }

  /** Such an entry stands at its position of the merchant's log. */
  lemma {:induction false} EnteredIsLogged(t: L.Tables, logs: LR.Logs, text: L.Id -> string, e: Event, id: L.Id)
    requires AllLogged(t, logs) && Entered(t, text, e, id)
    ensures 1 <= e.position <= |LR.LogOf(logs, id)| && Tells(e, LR.LogOf(logs, id)[e.position - 1])
    ensures e.entryId == text(LR.LogOf(logs, id)[e.position - 1].id)
  {
    var x :| IsEntry(t, text, e, id, x);
    assert LR.Logged(logs, x.id, t.entries[x.id]);
  }

  /** Every inbox row of merchant m tells an entry of that merchant. */
  ghost predicate InboxEntered(s: State, t: L.Tables, text: L.Id -> string, m: string, id: L.Id) {
    forall k | k in s.inbox && s.inbox[k].merchant == m :: Entered(t, text, s.inbox[k], id)
  }

  lemma {:induction false} ReceivedIsEntered(s: State, t: L.Tables, text: L.Id -> string, m: string, id: L.Id, p: int)
    requires Mirror(s) && InboxEntered(s, t, text, m, id) && p in ReceivedBy(s, m)
    ensures Entered(t, text, ReceivedBy(s, m)[p], id) && ReceivedBy(s, m)[p].position == p
  {
    assert Filed(s, m, p, BookOf(s, m).receipts[p]);
  }

  /** Then what the merchant's book has accepted is the merchant's ledger,
      position by position. */
  lemma {:induction false} InboxIsFaithful(s: State, t: L.Tables, logs: LR.Logs, text: L.Id -> string, m: string, id: L.Id)
    requires Mirror(s) && InboxEntered(s, t, text, m, id) && AllLogged(t, logs)
    ensures Faithful(ReceivedBy(s, m), LR.LogOf(logs, id)) && Named(ReceivedBy(s, m), LR.LogOf(logs, id), text)
  {
    var r, log := ReceivedBy(s, m), LR.LogOf(logs, id);
    forall p | p in r
      ensures IsLogged(r[p], p, log, text)
    {
      ReceivedIsLogged(s, t, logs, text, m, id, p);
    }
  }

  ghost predicate IsLogged(e: Event, p: int, log: seq<L.Entry>, text: L.Id -> string) {
    1 <= p <= |log| && Tells(e, log[p - 1]) && e.entryId == text(log[p - 1].id)
  }

  lemma {:induction false} ReceivedIsLogged(s: State, t: L.Tables, logs: LR.Logs, text: L.Id -> string, m: string, id: L.Id, p: int)
    requires Mirror(s) && InboxEntered(s, t, text, m, id) && AllLogged(t, logs) && p in ReceivedBy(s, m)
    ensures IsLogged(ReceivedBy(s, m)[p], p, LR.LogOf(logs, id), text)
  {
    ReceivedIsEntered(s, t, text, m, id, p);
    EnteredIsLogged(t, logs, text, ReceivedBy(s, m)[p], id);
  }

  /** Each accepted event carries the id of the entry at its position. */
  ghost predicate Named(r: Received, log: seq<L.Entry>, text: L.Id -> string) {
    forall p | p in r && 1 <= p <= |log| :: r[p].entryId == text(log[p - 1].id)
  }

  /* ---- The pipeline over a ledger ---- */

  /** The pipeline's payloads are those the ledger committed. */
  ghost predicate Feeds(t: L.Tables, text: L.Id -> string, s: P.System) {
    forall k | k in s.events :: k in t.outbox && s.events[k] == t.outbox[k].Payload(text, k)
  }

  lemma {:induction false} RootedIsAnnounced(t: L.Tables, text: L.Id -> string, s: P.System, e: Event)
    requires Feeds(t, text, s) && P.Rooted(s, e)
    ensures FromLedger(t, text, e)
  {
    var k :| k in s.events && s.events[k].Canonical() == e;
    assert Announces(t, text, k, e);
  }

  lemma {:induction false} PipelineEntered(x: P.Setup, steps: seq<P.Step>, t: L.Tables, text: L.Id -> string, id: L.Id)
    requires x.Faithful() && Feeds(t, text, P.Run(x, steps)) && Sourced(t) && Prints(text)
    ensures InboxEntered(P.Run(x, steps).tables.projection, t, text, text(id), id)
  {
    P.EveryEventIsSomewhere(x, steps);
    var s := P.Run(x, steps);
    forall k | k in s.tables.projection.inbox && s.tables.projection.inbox[k].merchant == text(id)
      ensures Entered(t, text, s.tables.projection.inbox[k], id)
    {
      RootedIsAnnounced(t, text, s, s.tables.projection.inbox[k]);
      AnnouncedIsEntered(t, text, s.tables.projection.inbox[k], id);
    }
  }

  lemma {:induction false} BookAt(s: State, m: string)
    requires Inv(s)
    ensures Mirror(s) && BookInv(BookOf(s, m), ReceivedBy(s, m))
  {
  }

  lemma {:induction false} PipelineFaithful(x: P.Setup, steps: seq<P.Step>, calls: seq<LR.Call>, text: L.Id -> string, id: L.Id)
    requires x.Faithful() && Prints(text) && Feeds(LR.Run(calls), text, P.Run(x, steps))
    ensures var s := P.Run(x, steps).tables.projection;
            && BookInv(BookOf(s, text(id)), ReceivedBy(s, text(id)))
            && Faithful(ReceivedBy(s, text(id)), LR.LogOf(LR.History(calls), id))
            && Named(ReceivedBy(s, text(id)), LR.LogOf(LR.History(calls), id), text)
            && L.Last(LR.Run(calls), id) == |LR.LogOf(LR.History(calls), id)|
  {
    var s := P.Run(x, steps).tables.projection;
    RunSourced(calls);
    RunLast(calls, id);
    P.EveryRunKeepsPipeline(x, steps);
    BookAt(s, text(id));
    PipelineEntered(x, steps, LR.Run(calls), text, id);
    InboxIsFaithful(s, LR.Run(calls), LR.History(calls), text, text(id), id);
  }

  /** Every run, end to end: whenever the answer built from the projection and
      the ledger's watermark is definitive, each day's totals are the sums of
      the ledger's own entries, and under the closing invariant its closing is
      the ledger's running net, whatever crashes, redeliveries, duplicates or
      reprocessing came before. */
  lemma {:induction false} DefinitiveEndToEnd(x: P.Setup, steps: seq<P.Step>, calls: seq<LR.Call>, text: L.Id -> string, id: L.Id, d: Date)
    requires x.Faithful() && Prints(text) && Feeds(LR.Run(calls), text, P.Run(x, steps))
    requires
      var b := BookOf(P.Run(x, steps).tables.projection, text(id));
      Definitive(b.progress, AnyPending(b.jobs), Some(L.Last(LR.Run(calls), id)))
    ensures
      var b := BookOf(P.Run(x, steps).tables.projection, text(id));
      && b.progress.applied == b.progress.source == L.Last(LR.Run(calls), id)
      && DayTotals(b.days, d) == LedgerTotals(LR.LogOf(LR.History(calls), id), d)
      && (ClosingInv(b) && d in b.days ==> b.days[d].closing == LedgerNet(LR.LogOf(LR.History(calls), id), d))
  {
    var s := P.Run(x, steps).tables.projection;
    PipelineFaithful(x, steps, calls, text, id);
    DefinitiveIsSound(BookOf(s, text(id)), ReceivedBy(s, text(id)), LR.LogOf(LR.History(calls), id), d);
  }

  /** When the pipeline accepted its events in order, the closing of every
      definitive day is the ledger's running net. */
  lemma {:induction false} DefinitiveClosingsEndToEnd(x: P.Setup, steps: seq<P.Step>, calls: seq<LR.Call>, text: L.Id -> string, id: L.Id, d: Date)
    requires x.Faithful() && Prints(text) && Feeds(LR.Run(calls), text, P.Run(x, steps))
    requires R.RunInOrder(x.fp, T.Trace(x, steps))
    requires
      var b := BookOf(P.Run(x, steps).tables.projection, text(id));
      Definitive(b.progress, AnyPending(b.jobs), Some(L.Last(LR.Run(calls), id)))
    ensures
      var b := BookOf(P.Run(x, steps).tables.projection, text(id));
      d in b.days ==> b.days[d].closing == LedgerNet(LR.LogOf(LR.History(calls), id), d)
  {
    T.InOrderTraceKeepsClosings(x, steps, text(id));
    DefinitiveEndToEnd(x, steps, calls, text, id, d);
  }

  /** So it is when they were delivered in the order of a calendar that never
      goes back, each dated within its window. */
  lemma {:induction false} WindowedClosingsEndToEnd(x: P.Setup, steps: seq<P.Step>, calls: seq<LR.Call>, text: L.Id -> string,
                                                    ds: seq<R.Dated>, id: L.Id, d: Date)
    requires x.Faithful() && Prints(text) && Feeds(LR.Run(calls), text, P.Run(x, steps))
    requires T.Trace(x, steps) == R.Steps(ds) && R.Windowed(ds)
    requires
      var b := BookOf(P.Run(x, steps).tables.projection, text(id));
      Definitive(b.progress, AnyPending(b.jobs), Some(L.Last(LR.Run(calls), id)))
    ensures
      var b := BookOf(P.Run(x, steps).tables.projection, text(id));
      d in b.days ==> b.days[d].closing == LedgerNet(LR.LogOf(LR.History(calls), id), d)
  {
    R.WindowedRunInOrder(x.fp, ds);
    DefinitiveClosingsEndToEnd(x, steps, calls, text, id, d);
  }

  /* ---- Reconciling against the ledger ---- */

  function ItemOf(text: L.Id -> string, e: L.Entry): X.Item {
    X.Item(text(e.id), e.date, if e.kind == L.Credit then 1 else 2, e.amount)
  }

  /** The ledger's stream of a merchant's entries. */
  function Items(text: L.Id -> string, log: seq<L.Entry>): seq<X.Item> {
    seq(|log|, i requires 0 <= i < |log| => ItemOf(text, log[i]))
  }

  lemma {:induction false} ItemsAreFaithful(r: Received, log: seq<L.Entry>, text: L.Id -> string)
    requires Faithful(r, log) && Named(r, log, text)
    ensures X.Faithful(r, Items(text, log))
  {
    forall p | p in r
      ensures X.Tells(r[p], Items(text, log)[p - 1])
    {
      assert Tells(r[p], log[p - 1]);
    }
  }

  lemma {:induction false} LogIdsDistinct(t: L.Tables, logs: LR.Logs, id: L.Id, i: nat, j: nat)
    requires LR.Dense(t, logs) && i < j < |LR.LogOf(logs, id)|
    ensures LR.LogOf(logs, id)[i].id != LR.LogOf(logs, id)[j].id
  {
    assert LR.Placed(t, id, i, LR.LogOf(logs, id)[i]) && LR.Placed(t, id, j, LR.LogOf(logs, id)[j]);
  }

  lemma {:induction false} LogIdIsUuid(calls: seq<LR.Call>, text: L.Id -> string, id: L.Id, i: nat)
    requires Q.ProperCalls(text, calls) && i < |LR.LogOf(LR.History(calls), id)|
    ensures IsUuid(text(LR.LogOf(LR.History(calls), id)[i].id))
  {
    LR.EveryRunKeepsInv(calls);
    var e := LR.LogOf(LR.History(calls), id)[i];
    assert LR.Placed(LR.Run(calls), id, i, e);
    Q.EveryRunIsProper(text, calls);
    assert Q.ProperEntry(text, LR.Run(calls).entries[e.id]);
  }

  lemma {:induction false} RunIdsDistinct(calls: seq<LR.Call>, id: L.Id, i: nat, j: nat)
    requires i < j < |LR.LogOf(LR.History(calls), id)|
    ensures LR.LogOf(LR.History(calls), id)[i].id != LR.LogOf(LR.History(calls), id)[j].id
  {
    LR.EveryRunKeepsInv(calls);
    LogIdsDistinct(LR.Run(calls), LR.History(calls), id, i, j);
  }

  lemma {:induction false} ItemsAreProper(calls: seq<LR.Call>, text: L.Id -> string, id: L.Id)
    requires Prints(text) && Q.ProperCalls(text, calls)
    ensures X.ProperLog(Items(text, LR.LogOf(LR.History(calls), id)))
  {
    var log := LR.LogOf(LR.History(calls), id);
    forall i | 0 <= i < |log|
      ensures text(log[i].id) != ""
    {
      LogIdIsUuid(calls, text, id, i);
    }
    forall i, j | 0 <= i < j < |log|
      ensures text(log[i].id) != text(log[j].id)
    {
      RunIdsDistinct(calls, id, i, j);
    }
  }

  lemma {:induction false} BookReports(b: Book, r: Received, d: Date)
    requires BookInv(b, r)
    ensures X.Reported(DayTotals(b.days, d), r, b.progress.source, d)
  {
    assert forall p | p in r :: p in r.Keys;
  }

  /** Over every run of the ledger and of the pipeline behind it: a
      reconciliation at a cut, whose stream delivers the ledger up to it, finds
      nothing extra or duplicated; and with nothing missing, and no event of
      that day accepted beyond the cut, its difference is zero. */
  lemma {:induction false} ReconciledEndToEnd(x: P.Setup, steps: seq<P.Step>, calls: seq<LR.Call>, text: L.Id -> string,
                                              id: L.Id, cut: nat, d: Date, rows: seq<string>)
    requires x.Faithful() && Prints(text) && Feeds(LR.Run(calls), text, P.Run(x, steps)) && Q.ProperCalls(text, calls)
    requires cut <= |LR.LogOf(LR.History(calls), id)|
    requires multiset(rows) == X.Projected(ReceivedBy(P.Run(x, steps).tables.projection, text(id)), cut, d)
    ensures
      var s, items := P.Run(x, steps).tables.projection, Items(text, LR.LogOf(LR.History(calls), id));
      var r, saved := ReceivedBy(s, text(id)), X.Findings(cut, X.SourceOf(items[..cut], d), BookOf(s, text(id)).days, d, rows);
      var beyond := X.NetOf(r, BookOf(s, text(id)).progress.source, d) - X.NetOf(r, cut, d);
      && saved.missing == X.MissingCount(r, items, cut, d) && saved.extra == 0 && saved.duplicated == 0
      && X.IsSize(saved.difference, beyond - X.MissingNet(r, items, cut, d))
      && (saved.missing == 0 && (forall p | p in r && p > cut :: r[p].date != d) ==> saved.difference == 0)
  {
    var s, log := P.Run(x, steps).tables.projection, LR.LogOf(LR.History(calls), id);
    var b, r := BookOf(s, text(id)), ReceivedBy(s, text(id));
    PipelineFaithful(x, steps, calls, text, id);
    ItemsAreFaithful(r, log, text);
    ItemsAreProper(calls, text, id);
    BookReports(b, r, d);
    X.ReportIs(b.days, r, b.progress.source, Items(text, log), cut, d, rows);
  }

  /* ---- A quiet pipeline has caught up ---- */

  lemma {:induction false} HeldIsReceived(s: State, e: Event)
    requires Mirror(s) && Holds(s, e)
    ensures e.position in ReceivedBy(s, e.merchant)
  {
    assert Indexed(s, e.id, s.inbox[e.id]);
  }

  /** Each place of a merchant's log has its outbox row. */
  lemma {:induction false} PlaceIsAnnounced(calls: seq<LR.Call>, id: L.Id, i: nat) returns (k: L.Id)
    requires i < |LR.LogOf(LR.History(calls), id)|
    ensures var t := LR.Run(calls);
            k in t.outbox && t.outbox[k].entry.merchant == id && t.outbox[k].entry.position == i + 1
  {
    LR.EveryRunKeepsInv(calls);
    var t := LR.Run(calls);
    var e := LR.LogOf(LR.History(calls), id)[i];
    assert LR.Placed(t, id, i, e);
    assert LR.Announced(t, t.entries[e.id]);
    k :| LR.Announces(t, k, t.entries[e.id]);
  }

  /** Every payload of the ledger's outbox is in the inbox. */
  ghost predicate HoldsAll(p: State, t: L.Tables, text: L.Id -> string) {
    forall k | k in t.outbox :: Holds(p, t.outbox[k].Payload(text, k).Canonical())
  }

  lemma {:induction false} QuietHoldsAll(x: P.Setup, steps: seq<P.Step>, t: L.Tables, text: L.Id -> string)
    requires x.Faithful() && Feeds(t, text, P.Run(x, steps))
    requires t.outbox.Keys <= P.Run(x, steps).events.Keys && P.Quiet(P.Run(x, steps))
    ensures HoldsAll(P.Run(x, steps).tables.projection, t, text)
  {
    var s := P.Run(x, steps);
    P.RunEventsHaveRows(x, steps);
    P.QuietPipelineIsComplete(x, steps);
    forall k | k in t.outbox
      ensures Holds(s.tables.projection, t.outbox[k].Payload(text, k).Canonical())
    {
      assert k in t.outbox.Keys;
      assert k in s.events && k in s.events.Keys;
      assert s.events[k] == t.outbox[k].Payload(text, k);
    }
  }

  lemma {:induction false} RowIsReceived(p: State, o: L.Outgoing, text: L.Id -> string, k: L.Id)
    requires Mirror(p) && Prints(text) && Holds(p, o.Payload(text, k).Canonical())
    ensures o.entry.position in ReceivedBy(p, text(o.entry.merchant))
  {
    assert ToLower(text(o.entry.merchant)) == text(o.entry.merchant) && ToLower(text(o.entry.id)) == text(o.entry.id);
    PayloadTells(o, text, k);
    HeldIsReceived(p, o.Payload(text, k).Canonical());
  }

  lemma {:induction false} QuietReceives(p: State, calls: seq<LR.Call>, text: L.Id -> string, id: L.Id, i: nat)
    requires Mirror(p) && Prints(text) && HoldsAll(p, LR.Run(calls), text) && i < |LR.LogOf(LR.History(calls), id)|
    ensures i + 1 in ReceivedBy(p, text(id))
  {
    var k := PlaceIsAnnounced(calls, id, i);
    RowIsReceived(p, LR.Run(calls).outbox[k], text, k);
  }

  lemma {:induction false} CaughtUp(p: Progress, r: Received, n: nat)
    requires ProgressInv(p, r.Keys) && (forall i | 1 <= i <= n :: i in r) && (forall i | i in r :: i <= n)
    ensures p.applied == p.source == n
  {
  }

  /** Once everything the ledger committed is published and consumed, and what
      was isolated has been accounted for, every day of every merchant agrees
      with the ledger. */
  lemma {:induction false} QuietEndToEnd(x: P.Setup, steps: seq<P.Step>, calls: seq<LR.Call>, text: L.Id -> string, id: L.Id, d: Date)
    requires x.Faithful() && Prints(text) && Feeds(LR.Run(calls), text, P.Run(x, steps))
    requires LR.Run(calls).outbox.Keys <= P.Run(x, steps).events.Keys && P.Quiet(P.Run(x, steps))
    ensures
      var b := BookOf(P.Run(x, steps).tables.projection, text(id));
      && b.progress.applied == b.progress.source == L.Last(LR.Run(calls), id)
      && DayTotals(b.days, d) == LedgerTotals(LR.LogOf(LR.History(calls), id), d)
  {
    var s, log := P.Run(x, steps).tables.projection, LR.LogOf(LR.History(calls), id);
    PipelineFaithful(x, steps, calls, text, id);
    QuietHoldsAll(x, steps, LR.Run(calls), text);
    RunMirrors(x, steps);
    QuietReceivesAll(s, calls, text, id);
    QuietTotals(BookOf(s, text(id)), ReceivedBy(s, text(id)), log, d);
  }

  lemma {:induction false} QuietReceivesAll(p: State, calls: seq<LR.Call>, text: L.Id -> string, id: L.Id)
    requires Mirror(p) && Prints(text) && HoldsAll(p, LR.Run(calls), text)
    ensures forall i | 1 <= i <= |LR.LogOf(LR.History(calls), id)| :: i in ReceivedBy(p, text(id))
  {
    forall i | 1 <= i <= |LR.LogOf(LR.History(calls), id)|
      ensures i in ReceivedBy(p, text(id))
    {
      QuietReceives(p, calls, text, id, i - 1);
    }
  }

  lemma {:induction false} QuietTotals(b: Book, r: Received, log: seq<L.Entry>, d: Date)
    requires BookInv(b, r) && Faithful(r, log) && forall i | 1 <= i <= |log| :: i in r
    ensures b.progress.applied == b.progress.source == |log| && DayTotals(b.days, d) == LedgerTotals(log, d)
  {
    CaughtUp(b.progress, r, |log|);
    CompleteFoldIsLedger(r, log, |log|, d);
    assert log[..|log|] == log;
  }

  /* ---- What the ledger commits is well fed ---- */

  lemma {:induction false} RowLogged(t: L.Tables, logs: LR.Logs, k: L.Id)
    requires Sourced(t) && AllLogged(t, logs) && k in t.outbox
    ensures var e := t.outbox[k].entry;
            && 1 <= e.position <= |LR.LogOf(logs, e.merchant)| && LR.LogOf(logs, e.merchant)[e.position - 1] == e
  {
    var e := t.outbox[k].entry;
    assert LR.Announces(t, k, e);
    assert LR.Logged(logs, e.id, t.entries[e.id]);
  }

  /** No entry is announced twice. */
  ghost predicate RowsUnique(t: L.Tables) {
    forall j, k | j in t.outbox && k in t.outbox && t.outbox[j].entry.id == t.outbox[k].entry.id :: j == k
  }

  lemma {:induction false} RunRowsUnique(calls: seq<LR.Call>)
    ensures RowsUnique(LR.Run(calls))
  {
    LR.EveryRunKeepsInv(calls);
  }

  lemma {:induction false} SamePlaceSameRow(t: L.Tables, logs: LR.Logs, j: L.Id, k: L.Id)
    requires Sourced(t) && AllLogged(t, logs) && RowsUnique(t) && j in t.outbox && k in t.outbox
    requires t.outbox[j].entry.merchant == t.outbox[k].entry.merchant && t.outbox[j].entry.position == t.outbox[k].entry.position
    ensures j == k
  {
    RowLogged(t, logs, j);
    RowLogged(t, logs, k);
  }

  lemma {:induction false} PayloadIdentity(o: L.Outgoing, text: L.Id -> string, k: L.Id)
    requires ToLower(text(k)) == text(k) && ToLower(text(o.entry.merchant)) == text(o.entry.merchant)
    ensures var e := o.Payload(text, k).Canonical();
            e.id == text(k) && e.merchant == text(o.entry.merchant) && e.position == o.entry.position
  {
  }

  /** Every committed event is the canonical payload of its own outbox row. */
  lemma {:induction false} RootsAreAnnounced(t: L.Tables, text: L.Id -> string, s: P.System, e: Event)
    requires Feeds(t, text, s) && e in V.Roots(s)
    ensures FromLedger(t, text, e)
  {
    var k :| k in s.events && s.events[k].Canonical() == e;
    assert Announces(t, text, k, e);
  }

  lemma {:induction false} SameEvent(calls: seq<LR.Call>, text: L.Id -> string, a: Event, b: Event)
    requires Prints(text) && FromLedger(LR.Run(calls), text, a) && FromLedger(LR.Run(calls), text, b)
    requires a.id == b.id || (a.merchant == b.merchant && a.position == b.position)
    ensures a == b
  {
    var t := LR.Run(calls);
    var j :| Announces(t, text, j, a);
    var k :| Announces(t, text, k, b);
    assert ToLower(text(j)) == text(j) && ToLower(text(k)) == text(k);
    assert ToLower(text(t.outbox[j].entry.merchant)) == text(t.outbox[j].entry.merchant);
    assert ToLower(text(t.outbox[k].entry.merchant)) == text(t.outbox[k].entry.merchant);
    PayloadIdentity(t.outbox[j], text, j);
    PayloadIdentity(t.outbox[k], text, k);
    if a.id != b.id {
      RunSourced(calls);
      RunRowsUnique(calls);
      SamePlaceSameRow(t, LR.History(calls), j, k);
    }
  }

  /** The ids of all merchants have the consumer's pattern. */
  ghost predicate UuidMerchants(t: L.Tables, text: L.Id -> string) {
    forall k | k in t.outbox :: IsUuid(text(t.outbox[k].entry.merchant))
  }

  lemma {:induction false} AnnouncedIsSound(calls: seq<LR.Call>, text: L.Id -> string, e: Event)
    requires Q.ProperCalls(text, calls) && |calls| <= MAX_INT64 && UuidMerchants(LR.Run(calls), text)
    requires FromLedger(LR.Run(calls), text, e)
    ensures Sound(e)
  {
    var k :| Announces(LR.Run(calls), text, k, e);
    Q.PayloadValidIff(text, calls, k);
    CanonicalSound(LR.Run(calls).outbox[k].Payload(text, k));
  }

  /** Proper calls of such merchants, whose amounts sum within int64, commit
      well-fed events. */
  lemma {:induction false} LedgerFeedsWell(calls: seq<LR.Call>, text: L.Id -> string, s: P.System)
    requires Prints(text) && Q.ProperCalls(text, calls) && |calls| <= MAX_INT64
    requires UuidMerchants(LR.Run(calls), text) && Feeds(LR.Run(calls), text, s) && C.AmountsFit(V.Roots(s))
    ensures V.WellFed(V.Roots(s))
  {
    forall e | e in V.Roots(s)
      ensures Sound(e)
    {
      RootsAreAnnounced(LR.Run(calls), text, s, e);
      AnnouncedIsSound(calls, text, e);
    }
    forall a, b | a in V.Roots(s) && b in V.Roots(s) && (a.id == b.id || (a.merchant == b.merchant && a.position == b.position))
      ensures a == b
    {
      RootsAreAnnounced(LR.Run(calls), text, s, a);
      RootsAreAnnounced(LR.Run(calls), text, s, b);
      SameEvent(calls, text, a, b);
    }
  }

  lemma {:induction false} CleanPassKeepsEvents(x: P.Setup, steps: seq<P.Step>, tag: P.Tag, items: seq<K.DeadRow>)
    requires x.Faithful() && V.WellFed(V.Roots(P.Run(x, steps)))
    requires tag !in P.Run(x, steps).sweeps && P.IsResultSet(P.Run(x, steps).tables, items) && V.Parses(items)
    ensures P.Run(x, steps + V.CleanPass(tag, items)).events == P.Run(x, steps).events
  {
    V.CleanPassSettles(x, steps, tag, items);
  }

  lemma {:induction false} LedgerEventsValid(calls: seq<LR.Call>, text: L.Id -> string, s: P.System)
    requires Q.ProperCalls(text, calls) && |calls| <= MAX_INT64 && UuidMerchants(LR.Run(calls), text) && Feeds(LR.Run(calls), text, s)
    ensures I.EventsValid(s)
  {
    forall k | k in s.events
      ensures s.events[k].Valid()
    {
      Q.PayloadValidIff(text, calls, k);
    }
  }

  /** From isolation to agreement: once everything is published and consumed and
      what is isolated is parked with payloads that parse, one clean reprocessing
      pass makes every day of every merchant agree with the ledger. */
  lemma {:induction false} ParkedEndToEnd(x: P.Setup, steps: seq<P.Step>, calls: seq<LR.Call>, text: L.Id -> string,
                                          tag: P.Tag, items: seq<K.DeadRow>, id: L.Id, d: Date)
    requires x.Faithful() && Prints(text) && Feeds(LR.Run(calls), text, P.Run(x, steps))
    requires Q.ProperCalls(text, calls) && |calls| <= MAX_INT64 && UuidMerchants(LR.Run(calls), text)
    requires C.AmountsFit(V.Roots(P.Run(x, steps))) && LR.Run(calls).outbox.Keys <= P.Run(x, steps).events.Keys
    requires V.Parkable(P.Run(x, steps), items) && V.Parses(items)
    requires tag !in P.Run(x, steps).sweeps && P.IsResultSet(P.Run(x, steps).tables, items)
    ensures
      var b := BookOf(P.Run(x, steps + V.CleanPass(tag, items)).tables.projection, text(id));
      && b.progress.applied == b.progress.source == L.Last(LR.Run(calls), id)
      && DayTotals(b.days, d) == LedgerTotals(LR.LogOf(LR.History(calls), id), d)
  {
    LedgerFeedsWell(calls, text, P.Run(x, steps));
    V.CleanPassQuiets(x, steps, tag, items);
    CleanPassKeepsEvents(x, steps, tag, items);
    QuietEndToEnd(x, steps + V.CleanPass(tag, items), calls, text, id, d);
  }

  /** So it is after every run whose dead letters could be stored, once everything
      is published and consumed: what it isolated is then parked and parses. */
  lemma {:induction false} RecoveredEndToEnd(x: P.Setup, steps: seq<P.Step>, calls: seq<LR.Call>, text: L.Id -> string,
                                             tag: P.Tag, items: seq<K.DeadRow>, id: L.Id, d: Date)
    requires x.Faithful() && I.Legible(x) && Prints(text) && Feeds(LR.Run(calls), text, P.Run(x, steps))
    requires Q.ProperCalls(text, calls) && |calls| <= MAX_INT64 && UuidMerchants(LR.Run(calls), text)
    requires C.AmountsFit(V.Roots(P.Run(x, steps))) && LR.Run(calls).outbox.Keys <= P.Run(x, steps).events.Keys
    requires I.RunRecords(x, steps) && V.Consumed(P.Run(x, steps))
    requires tag !in P.Run(x, steps).sweeps && P.IsResultSet(P.Run(x, steps).tables, items)
    ensures
      var b := BookOf(P.Run(x, steps + V.CleanPass(tag, items)).tables.projection, text(id));
      && b.progress.applied == b.progress.source == L.Last(LR.Run(calls), id)
      && DayTotals(b.days, d) == LedgerTotals(LR.LogOf(LR.History(calls), id), d)
  {
    LedgerEventsValid(calls, text, P.Run(x, steps));
    V.RunIsParkable(x, steps, items);
    ParkedEndToEnd(x, steps, calls, text, tag, items, id, d);
  }

  /** A uuid whose last digit is a, and for larger numbers a longer text. */
  function Printed(a: L.Id): string {
    if a < 10 then "00000000-0000-4000-8000-00000000000" + ['0' + a as char] else seq(a + 36, _ => '0')
  }

  lemma {:induction false} PrintedUuid(a: L.Id)
    requires a < 10
    ensures |Printed(a)| == 36 && Printed(a)[35] == '0' + a as char && IsUuid(Printed(a)) && ToLower(Printed(a)) == Printed(a)
  {
    var s := Printed(a);
    forall i | 0 <= i < 36
      ensures (if i in {8, 13, 18, 23} then s[i] == '-' else IsHex(s[i])) && LowerChar(s[i]) == s[i]
    {
    }
  }

  /** A printer as assumed exists, one that prints uuids. */
  lemma {:induction false} PrinterExists() returns (text: L.Id -> string)
    ensures Prints(text) && forall a | a < 10 :: IsUuid(text(a))
  {
    text := (a: nat) => Printed(a);
    forall a: nat
      ensures ToLower(text(a)) == text(a) && (a < 10 ==> IsUuid(text(a)) && |text(a)| == 36 && text(a)[35] == '0' + a as char)
      ensures a >= 10 ==> |text(a)| == a + 36
    {
      if a < 10 {
        PrintedUuid(a);
      }
    }
  }

  /* ---- Identifiers the ledger takes and the consumer refuses ---- */

  lemma {:induction false} HexPositive(s: string, i: nat)
    requires (forall j | 0 <= j < |s| :: s[j] == '-' || IsHex(s[j])) && i < |s| && IsHex(s[i]) && s[i] != '0'
    ensures L.HexValue(s) > 0
    decreases |s|
  {
    if i < |s| - 1 {
      HexPositive(s[..|s| - 1], i);
    }
  }

  /** Every id the consumer takes is one the ledger takes. */
  lemma {:induction false} ConsumerIdIsLedgerId(s: string)
    requires IsUuid(s)
    ensures L.ParseId(s).Some?
  {
    assert IsHex(s[14]);
    HexPositive(s, 14);
  }

  /** Not the other way round. */
  lemma {:induction false} LedgerTakesMore()
    ensures exists s :: L.ParseId(s).Some? && !IsUuid(s)
  {
    var s := "00000000-0000-0000-0000-000000000001";
    assert s[14] == '0' && s[35] == '1';
    HexPositive(s, 35);
    assert L.ParseId(s).Some? && !IsUuid(s);
  }

  /** Only merchants whose id the consumer takes ever have anything accounted for. */
  lemma {:induction false} OnlyUuidMerchantsAreBooked(x: P.Setup, steps: seq<P.Step>, m: string, p: int)
    requires x.Faithful() && p in ReceivedBy(P.Run(x, steps).tables.projection, m)
    ensures IsUuid(m)
  {
    RunMirrors(x, steps);
    BookedIsUuid(P.Run(x, steps).tables.projection, m, p);
  }

  lemma {:induction false} RunMirrors(x: P.Setup, steps: seq<P.Step>)
    requires x.Faithful()
    ensures Mirror(P.Run(x, steps).tables.projection) && InboxSound(P.Run(x, steps).tables.projection)
  {
    P.EveryRunKeepsPipeline(x, steps);
  }

  lemma {:induction false} BookedIsUuid(s: State, m: string, p: int)
    requires Mirror(s) && InboxSound(s) && p in ReceivedBy(s, m)
    ensures IsUuid(m)
  {
    assert Filed(s, m, p, BookOf(s, m).receipts[p]);
  }
}
