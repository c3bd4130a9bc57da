/** The ledger's thirty-day window over its own history: announced in position
    order, a merchant's entries never leave the consolidation behind. */
module Window {
  import opened Domain
  import opened Projection
  import opened Invariants
  import L = Ledger
  import opened LedgerRuns
  import R = Runs

  /** The calendar days on which a merchant's entries were made, in position order. */
  function Todays(calls: seq<Call>, m: L.Id): seq<Date> {
    if calls == [] then []
    else
      var n := |calls| - 1;
      var days := Todays(calls[..n], m);
      if |LogOf(History(calls), m)| > |LogOf(History(calls[..n]), m)| then days + [calls[n].context.today] else days
  }

  /** A built entry's date passed the calendar rule of its own day. */
  lemma {:induction false} BuildIsDated(t: L.Tables, c: L.Command, x: L.Context)
    requires L.Build(t, c, x).Ok?
    ensures Resolve(x.today, Some(L.Build(t, c, x).value.date)) == Some(L.Build(t, c, x).value.date)
  {
    if c.request.Creation? {
      CreationIsDated(c, x, L.Last(t, c.merchant) + 1);
    }
  }

  lemma {:induction false} CreationIsDated(c: L.Command, x: L.Context, position: nat)
    requires c.request.Creation? && L.BuildCreation(c, x, position).Ok?
    ensures Some(L.BuildCreation(c, x, position).value.date) == Resolve(x.today, c.request.date)
  {
  }

  /** A call extends a merchant's log by at most the entry it built. */
  lemma {:induction false} LogStep(calls: seq<Call>, m: L.Id)
    requires calls != []
    ensures
      var n := |calls| - 1;
      var before, after, x := LogOf(History(calls[..n]), m), LogOf(History(calls), m), calls[n].context;
      || after == before
      || (after == before + [after[|before|]] && Resolve(x.today, Some(after[|before|].date)) == Some(after[|before|].date))
  {
    var n := |calls| - 1;
    var t, c, x := Run(calls[..n]), calls[n].command, calls[n].context;
    ExecuteCases(t, c, x);
    if L.Execute(t, c, x).0 != t {
      BuildIsDated(t, c, x);
      AppendLog(History(calls[..n]), L.Build(t, c, x).value, m);
    }
  }

  lemma {:induction false} TodaysDateTheLog(calls: seq<Call>, m: L.Id)
    ensures |Todays(calls, m)| == |LogOf(History(calls), m)|
    ensures forall i | 0 <= i < |Todays(calls, m)| ::
              Resolve(Todays(calls, m)[i], Some(LogOf(History(calls), m)[i].date)) == Some(LogOf(History(calls), m)[i].date)
  {
    if calls != [] {
      TodaysDateTheLog(calls[..|calls| - 1], m);
      LogStep(calls, m);
    }
  }

  /** The calendar never goes back from one call to the next. */
  ghost predicate Forward(calls: seq<Call>) {
    forall i, j | 0 <= i < j < |calls| :: calls[i].context.today <= calls[j].context.today
  }

  lemma {:induction false} TodaysAscend(calls: seq<Call>, m: L.Id)
    requires Forward(calls)
    ensures forall i, j | 0 <= i < j < |Todays(calls, m)| :: Todays(calls, m)[i] <= Todays(calls, m)[j]
    ensures forall i | 0 <= i < |Todays(calls, m)| :: calls != [] && Todays(calls, m)[i] <= calls[|calls| - 1].context.today
  {
    if calls != [] {
      var n := |calls| - 1;
      TodaysAscend(calls[..n], m);
      assert n > 0 ==> calls[n - 1].context.today <= calls[n].context.today;
    } else {
      assert |Todays(calls, m)| == 0;
    }
  }

  /** Events telling the first entries of a merchant's log, in position order. */
  predicate Announce(es: seq<Event>, log: seq<L.Entry>, name: string) {
    |es| <= |log| && forall i | 0 <= i < |es| :: es[i].date == log[i].date && ToLower(es[i].merchant) == name
  }

  function Dates(calls: seq<Call>, m: L.Id, es: seq<Event>): seq<R.Dated>
    requires |es| <= |Todays(calls, m)|
  {
    seq(|es|, i requires 0 <= i < |es| => R.Dated(es[i], Todays(calls, m)[i]))
  }

  lemma {:induction false} LedgerOrderIsWindowed(calls: seq<Call>, m: L.Id, name: string, es: seq<Event>)
    requires Forward(calls) && Announce(es, LogOf(History(calls), m), name)
    ensures |es| <= |Todays(calls, m)| && R.Windowed(Dates(calls, m, es))
  {
    TodaysDateTheLog(calls, m);
    TodaysAscend(calls, m);
  }

  /** Delivered in position order, the events of a merchant's ledger leave no job
      pending, and every closing is the running net of what was delivered, after
      each of them. */
  lemma {:induction false} LedgerOrderIsExact(fp: Event -> string, calls: seq<Call>, m: L.Id, name: string, es: seq<Event>, d: Date)
    requires Forward(calls) && Announce(es, LogOf(History(calls), m), name)
    ensures |es| <= |Todays(calls, m)|
    ensures
      var s := R.Run(fp, R.Steps(Dates(calls, m, es)));
      && !AnyPending(BookOf(s, name).jobs)
      && (d in BookOf(s, name).days ==>
            BookOf(s, name).days[d].closing == NetBefore(ReceivedBy(s, name), BookOf(s, name).progress.source, d + 1))
  {
    LedgerOrderIsWindowed(calls, m, name, es);
    var ds := Dates(calls, m, es);
    R.WindowedRunNeverPends(fp, ds);
    if d in BookOf(R.Run(fp, R.Steps(ds)), name).days {
      R.WindowedRunIsExact(fp, ds, name, d);
    }
  }
}
