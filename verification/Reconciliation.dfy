/** Comparing the ledger with the projection for one merchant, date and cut. */
module Reconciliation {
  import opened Domain
  import opened Projection
  import opened Invariants
  import R = Runs

  const MAX_STREAM_ATTEMPTS: nat := 3

  /** A streamed ledger entry; kind 1 is a credit, 2 a debit. */
  datatype Item = Item(id: string, date: Date, kind: int, amount: int)
  {
    function Signed(): int { if kind == 1 then amount else if kind == 2 then -amount else 0 }
  }

  /* ---- Reading the source ---- */

  /** What one attempt meets: no stream, or entries until it ends or breaks. */
  datatype Attempt = NoStream | Stream(items: seq<Item>, breaks: bool)

  /** An entry without an id ends the stream. */
  function Read(items: seq<Item>): seq<Item> {
    if items == [] || items[0].id == "" then [] else [items[0]] + Read(items[1..])
  }

  predicate Completes(a: Attempt) {
    a.Stream? && (!a.breaks || |Read(a.items)| < |a.items|)
  }

  function OnDate(items: seq<Item>, date: Date): seq<Item> {
    if items == [] then []
    else
      var rest := OnDate(items[..|items| - 1], date);
      if items[|items| - 1].date == date then rest + [items[|items| - 1]] else rest
  }

  function Total(items: seq<Item>, kind: int): int {
    if items == [] then 0
    else Total(items[..|items| - 1], kind) + (if items[|items| - 1].kind == kind then items[|items| - 1].amount else 0)
  }

  function Ids(items: seq<Item>): set<string> {
    set x | x in items :: x.id
  }

  datatype Source = Source(ids: set<string>, credits: int, debits: int)

  /** What a complete stream of items says about the date. */
  function SourceOf(items: seq<Item>, date: Date): Source {
    var day := OnDate(Read(items), date);
    Source(Ids(day), Total(day, 1), Total(day, 2))
  }

  lemma {:induction false} ReadIs(items: seq<Item>, n: nat)
    requires n <= |items| && (forall i | 0 <= i < n :: items[i].id != "") && (n < |items| ==> items[n].id == "")
    ensures Read(items) == items[..n]
  {
    if n > 0 {
      ReadIs(items[1..], n - 1);
      assert items[..n] == [items[0]] + items[1..][..n - 1];
    }
  }

  lemma {:induction false} OnDateStep(items: seq<Item>, n: nat, date: Date)
    requires n < |items|
    ensures OnDate(items[..n + 1], date) == if items[n].date == date then OnDate(items[..n], date) + [items[n]] else OnDate(items[..n], date)
  {
    assert items[..n + 1][..n] == items[..n];
  }

  lemma {:induction false} TotalStep(items: seq<Item>, x: Item, kind: int)
    ensures Total(items + [x], kind) == Total(items, kind) + (if x.kind == kind then x.amount else 0)
  {
    assert (items + [x])[..|items|] == items;
  }

  lemma {:induction false} DayStep(items: seq<Item>, n: nat, date: Date)
    requires n < |items|
    ensures
      var day, day', x := OnDate(items[..n], date), OnDate(items[..n + 1], date), items[n];
      if x.date != date then day' == day
      else
        && Ids(day') == Ids(day) + {x.id}
        && Total(day', 1) == Total(day, 1) + (if x.kind == 1 then x.amount else 0)
        && Total(day', 2) == Total(day, 2) + (if x.kind == 2 then x.amount else 0)
  {
    OnDateStep(items, n, date);
    DayAdds(OnDate(items[..n], date), items[n]);
  }

  lemma {:induction false} DayAdds(day: seq<Item>, x: Item)
    ensures Ids(day + [x]) == Ids(day) + {x.id}
    ensures Total(day + [x], 1) == Total(day, 1) + (if x.kind == 1 then x.amount else 0)
    ensures Total(day + [x], 2) == Total(day, 2) + (if x.kind == 2 then x.amount else 0)
  {
    TotalStep(day, x, 1);
    TotalStep(day, x, 2);
  }

  /** One attempt: nothing of a broken stream is returned. */
  method AttemptStream(a: Attempt, date: Date) returns (source: Option<Source>)
    ensures source.Some? <==> Completes(a)
    ensures source.Some? <==> a.Stream? && (!a.breaks || exists i | 0 <= i < |a.items| :: a.items[i].id == "")
    ensures source.Some? ==> source.value == SourceOf(a.items, date)
  {
    if a.NoStream? {
      return None;
    }
    var ids: set<string>, credits, debits := {}, 0, 0;
    var i := 0;
    while i < |a.items|
      invariant 0 <= i <= |a.items| && forall j | 0 <= j < i :: a.items[j].id != ""
      invariant var day := OnDate(a.items[..i], date);
                ids == Ids(day) && credits == Total(day, 1) && debits == Total(day, 2)
    {
      var entry := a.items[i];
      if entry.id == "" {
        ReadIs(a.items, i);
        return Some(Source(ids, credits, debits));
      }
      DayStep(a.items, i, date);
      i := i + 1;
      if entry.date != date {
        continue;
      }
      ids := ids + {entry.id};
      if entry.kind == 1 {
        credits := credits + entry.amount;
      } else if entry.kind == 2 {
        debits := debits + entry.amount;
      }
    }
    ReadIs(a.items, i);
    assert a.items[..i] == a.items;
    if a.breaks {
      return None;
    }
    return Some(Source(ids, credits, debits));
  }

  /** The first attempt that completes, unless the context was cancelled in an
      earlier one. */
  ghost predicate Decides(attempts: seq<Attempt>, cancelledAfter: nat, k: nat) {
    k < |attempts| && k <= cancelledAfter && Completes(attempts[k]) && forall j | 0 <= j < k :: !Completes(attempts[j])
  }

  /** What the retries read: all of one attempt or nothing. */
  function Chosen(attempts: seq<Attempt>, cancelledAfter: nat): Option<seq<Item>> {
    if attempts == [] then None
    else if Completes(attempts[0]) then Some(attempts[0].items)
    else if cancelledAfter == 0 then None
    else Chosen(attempts[1..], cancelledAfter - 1)
  }

  /** A broken attempt leaves no trace: the deciding attempt alone is read. */
  lemma {:induction false} DecidingAttemptAlone(attempts: seq<Attempt>, cancelledAfter: nat)
    ensures forall k: nat | Decides(attempts, cancelledAfter, k) :: Chosen(attempts, cancelledAfter) == Some(attempts[k].items)
    ensures Chosen(attempts, cancelledAfter).Some? ==> exists k: nat :: Decides(attempts, cancelledAfter, k)
  {
    if attempts != [] && Completes(attempts[0]) {
      assert Decides(attempts, cancelledAfter, 0);
    } else if attempts != [] && cancelledAfter > 0 {
      DecidingAttemptAlone(attempts[1..], cancelledAfter - 1);
      forall k: nat | Decides(attempts, cancelledAfter, k)
        ensures k > 0 && Decides(attempts[1..], cancelledAfter - 1, k - 1)
      {
        assert forall j | 0 <= j < k - 1 :: attempts[1..][j] == attempts[j + 1];
      }
      if Chosen(attempts, cancelledAfter).Some? {
        var k: nat :| Decides(attempts[1..], cancelledAfter - 1, k);
        assert forall j | 0 < j <= k + 1 :: attempts[j] == attempts[1..][j - 1];
        assert Decides(attempts, cancelledAfter, k + 1);
      }
    }
  }

  /** Up to three attempts, each from empty accumulators. */
  method StreamSourceEntries(attempts: seq<Attempt>, cancelledAfter: nat, date: Date) returns (source: Option<Source>)
    requires |attempts| == 3
    ensures source.Some? <==> Chosen(attempts, cancelledAfter).Some?
    ensures source.Some? ==> source.value == SourceOf(Chosen(attempts, cancelledAfter).value, date)
  {
    var k := 0;
    while k < MAX_STREAM_ATTEMPTS
      invariant 0 <= k <= MAX_STREAM_ATTEMPTS && k <= cancelledAfter
      invariant Chosen(attempts[k..], cancelledAfter - k) == Chosen(attempts, cancelledAfter)
    {
      assert attempts[k..][1..] == attempts[k + 1..];
      source := AttemptStream(attempts[k], date);
      if source.Some? {
        return;
      }
      if k >= cancelledAfter {
        return None;
      }
      k := k + 1;
    }
    return None;
  }

  /* ---- Comparing the sets ---- */

  function Support(m: multiset<string>): set<string> {
    set x | x in m
  }

  /** loadProjectedEntryCounts: how often each entry id was projected. */
  method CountEntries(rows: seq<string>) returns (counts: map<string, nat>)
    ensures counts.Keys == Support(multiset(rows)) && forall k | k in counts :: counts[k] == multiset(rows)[k]
  {
    counts := map[];
    for i := 0 to |rows|
      invariant counts.Keys == Support(multiset(rows[..i])) && forall k | k in counts :: counts[k] == multiset(rows[..i])[k]
    {
      assert rows[..i + 1] == rows[..i] + [rows[i]];
      counts := counts[rows[i] := if rows[i] in counts then counts[rows[i]] + 1 else 1];
    }
    assert rows[..|rows|] == rows;
  }

  /** compareEntrySets: entries not projected, projected entries the source
      does not have, and repetitions. */
  method CompareEntrySets(source: set<string>, counts: map<string, nat>, ghost m: multiset<string>)
      returns (missing: nat, extra: nat, duplicated: nat)
    requires counts.Keys == Support(m) && forall k | k in counts :: counts[k] == m[k]
    ensures missing == |source - Support(m)| && extra == |Support(m) - source| && duplicated == |m| - |Support(m)|
  {
    missing := CountMissing(source, counts);
    extra, duplicated := 0, 0;
    var left := counts.Keys;
    ghost var rest := m;
    while left != {}
      invariant left == Support(rest) && left <= Support(m)
      invariant forall k | k in left :: rest[k] == m[k]
      invariant extra + |left - source| == |Support(m) - source|
      invariant duplicated + |rest| - |left| == |m| - |Support(m)|
      decreases left
    {
      var k :| k in left;
      ghost var next := rest[k := 0];
      assert Support(next) == left - {k};
      assert left - {k} - source == (left - source) - {k};
      left, rest := left - {k}, next;
      if k !in source {
        extra := extra + 1;
      }
      if counts[k] > 1 {
        duplicated := duplicated + counts[k] - 1;
      }
    }
    EmptySupport(rest);
    assert left - source == {};
  }

  lemma {:induction false} EmptySupport(m: multiset<string>)
    requires Support(m) == {}
    ensures |m| == 0
  {
    assert forall x :: x in m <==> x in Support(m);
    assert m == multiset{};
  }

  method CountMissing(source: set<string>, counts: map<string, nat>) returns (missing: nat)
    requires forall k | k in counts :: counts[k] > 0
    ensures missing == |source - counts.Keys|
  {
    missing := 0;
    var left := source;
    while left != {}
      invariant left <= source && missing + |left - counts.Keys| == |source - counts.Keys|
      decreases left
    {
      var k :| k in left;
      assert left - {k} - counts.Keys == (left - counts.Keys) - {k};
      left := left - {k};
      if k !in counts {
        missing := missing + 1;
      }
    }
    assert left - counts.Keys == {};
  }

  /** Every projected row is accounted for by the three counts. */
  lemma {:induction false} CountsBalance(source: set<string>, m: multiset<string>)
    ensures |m| == |source| - |source - Support(m)| + |Support(m) - source| + (|m| - |Support(m)|)
    ensures |source - Support(m)| == 0 && |Support(m) - source| == 0 ==> Support(m) == source
  {
    var d := Support(m);
    assert source == (source - d) + (source * d) && (source - d) !! (source * d);
    assert d == (d - source) + (source * d) && (d - source) !! (source * d);
  }

  /* ---- The financial difference ---- */

  /** The net of the accepted events of day d at positions 1..n. */
  function NetOf(r: Received, n: nat, d: Date): int {
    var t := Fold(r, n, d);
    t.credits - t.debits
  }

  /** The entry ids of the accepted events of day d at positions 1..n. */
  function Projected(r: Received, n: nat, d: Date): multiset<string> {
    if n == 0 then multiset{}
    else if n in r && r[n].date == d then Projected(r, n - 1, d) + multiset{r[n].entryId}
    else Projected(r, n - 1, d)
  }

  /** An event that tells the ledger entry at its position. */
  predicate Tells(e: Event, x: Item) {
    e.entryId == x.id && e.date == x.date && e.amount == x.amount && (if e.entryType == CREDIT then x.kind == 1 else x.kind == 2)
  }

  ghost predicate Faithful(r: Received, log: seq<Item>) {
    forall p | p in r :: 1 <= p <= |log| && Tells(r[p], log[p - 1])
  }

  /** Entry ids are distinct and never empty. */
  ghost predicate ProperIds(log: seq<Item>) {
    && (forall i | 0 <= i < |log| :: log[i].id != "")
    && (forall i, j | 0 <= i < j < |log| :: log[i].id != log[j].id)
  }

  /** The net of the entries of day d at positions 1..n that were not accepted. */
  function MissingNet(r: Received, log: seq<Item>, n: nat, d: Date): int
    requires n <= |log|
  {
    if n == 0 then 0
    else MissingNet(r, log, n - 1, d) + (if log[n - 1].date == d && n !in r then log[n - 1].Signed() else 0)
  }

  /** Accepted net plus missing net is the ledger's net. */
  lemma {:induction false} NetSplits(r: Received, log: seq<Item>, n: nat, d: Date)
    requires Faithful(r, log) && n <= |log| && forall i | 0 <= i < |log| :: log[i].kind == 1 || log[i].kind == 2
    ensures NetOf(r, n, d) + MissingNet(r, log, n, d)
         == Total(OnDate(log[..n], d), 1) - Total(OnDate(log[..n], d), 2)
  {
    if n > 0 {
      NetSplits(r, log, n - 1, d);
      NetStep(log, n, d);
      assert n in r ==> Tells(r[n], log[n - 1]);
    }
  }

  lemma {:induction false} NetStep(log: seq<Item>, n: nat, d: Date)
    requires 0 < n <= |log|
    ensures Total(OnDate(log[..n], d), 1) - Total(OnDate(log[..n], d), 2)
         == Total(OnDate(log[..n - 1], d), 1) - Total(OnDate(log[..n - 1], d), 2) + (if log[n - 1].date == d then log[n - 1].Signed() else 0)
  {
    OnDateStep(log, n - 1, d);
    DayAdds(OnDate(log[..n - 1], d), log[n - 1]);
  }

  lemma {:induction false} OnDateHas(items: seq<Item>, d: Date, x: Item)
    ensures x in OnDate(items, d) <==> x in items && x.date == d
  {
    if items != [] {
      var n := |items| - 1;
      OnDateHas(items[..n], d, x);
      assert items == items[..n] + [items[n]];
    }
  }

  lemma {:induction false} ProjectedHas(r: Received, n: nat, d: Date, id: string)
    ensures id in Projected(r, n, d) <==> exists p :: 1 <= p <= n && p in r && r[p].date == d && r[p].entryId == id
  {
    if n > 0 {
      ProjectedHas(r, n - 1, d, id);
    }
  }

  /** With distinct ids, no missing id means no missing position. */
  lemma {:induction false} NoneMissing(r: Received, log: seq<Item>, n: nat, d: Date)
    requires Faithful(r, log) && ProperIds(log) && n <= |log|
    requires Ids(OnDate(log[..n], d)) <= Support(Projected(r, n, d))
    ensures MissingNet(r, log, n, d) == 0
  {
    forall p | 1 <= p <= n && log[p - 1].date == d
      ensures p in r
    {
      var x := log[p - 1];
      assert x == log[..n][p - 1];
      OnDateHas(log[..n], d, x);
      assert x.id in Ids(OnDate(log[..n], d));
      ProjectedHas(r, n, d, x.id);
      var q :| 1 <= q <= n && q in r && r[q].date == d && r[q].entryId == x.id;
      assert Tells(r[q], log[q - 1]);
    }
    MissingVanishes(r, log, n, d);
  }

  lemma {:induction false} MissingVanishes(r: Received, log: seq<Item>, n: nat, d: Date)
    requires n <= |log| && forall p | 1 <= p <= n && log[p - 1].date == d :: p in r
    ensures MissingNet(r, log, n, d) == 0
  {
    if n > 0 {
      MissingVanishes(r, log, n - 1, d);
    }
  }

  /** A ledger as a stream delivers it: proper ids, each entry a credit or a debit. */
  ghost predicate ProperLog(log: seq<Item>) {
    ProperIds(log) && forall i | 0 <= i < |log| :: log[i].kind == 1 || log[i].kind == 2
  }

  /** The source figures of a complete stream up to the cut. */
  lemma {:induction false} SourceAtCut(log: seq<Item>, cut: nat, d: Date)
    requires ProperIds(log) && cut <= |log|
    ensures var day := OnDate(log[..cut], d);
            SourceOf(log[..cut], d) == Source(Ids(day), Total(day, 1), Total(day, 2))
  {
    ReadIs(log[..cut], cut);
    assert log[..cut][..cut] == log[..cut];
  }

  function SourceNet(log: seq<Item>, cut: nat, d: Date): int
    requires cut <= |log|
  {
    SourceOf(log[..cut], d).credits - SourceOf(log[..cut], d).debits
  }

  /** For a stream that delivered the ledger up to the cut: the accepted net up
      to position n exceeds the source net by the net of the events accepted
      beyond the cut, less the net of the entries still missing. */
  lemma {:induction false} NetDifference(r: Received, log: seq<Item>, cut: nat, n: nat, d: Date)
    requires Faithful(r, log) && ProperLog(log) && cut <= |log|
    ensures NetOf(r, n, d) - SourceNet(log, cut, d)
         == NetOf(r, n, d) - NetOf(r, cut, d) - MissingNet(r, log, cut, d)
  {
    SourceAtCut(log, cut, d);
    NetSplits(r, log, cut, d);
  }

  /** In every reachable state a day's row is the fold of what was accepted. */
  lemma {:induction false} RunTotals(fp: Event -> string, steps: seq<R.Step>, m: string, d: Date)
    ensures var s := R.Run(fp, steps);
            Reported(DayTotals(BookOf(s, m).days, d), ReceivedBy(s, m), BookOf(s, m).progress.source, d)
  {
    R.EveryRunKeepsInv(fp, steps);
    var s := R.Run(fp, steps);
    assert BookInv(BookOf(s, m), ReceivedBy(s, m));
    assert forall p | p in ReceivedBy(s, m) :: p in ReceivedBy(s, m).Keys;
  }

  lemma {:induction false} NoIdMissing(r: Received, log: seq<Item>, cut: nat, d: Date)
    requires Faithful(r, log) && ProperIds(log) && cut <= |log|
    requires |SourceOf(log[..cut], d).ids - Support(Projected(r, cut, d))| == 0
    ensures MissingNet(r, log, cut, d) == 0
  {
    SourceAtCut(log, cut, d);
    EmptyDifference(SourceOf(log[..cut], d).ids, Support(Projected(r, cut, d)));
    NoneMissing(r, log, cut, d);
  }

  lemma {:induction false} EmptyDifference(a: set<string>, b: set<string>)
    requires |a - b| == 0
    ensures a <= b
  {
    assert a - b == {};
    assert forall x | x in a :: x !in a - b;
  }

  lemma {:induction false} ZeroNetIff(r: Received, n: nat, log: seq<Item>, cut: nat, d: Date)
    requires Faithful(r, log) && ProperLog(log) && cut <= |log| && forall p | p in r :: p <= n
    requires |SourceOf(log[..cut], d).ids - Support(Projected(r, cut, d))| == 0
    ensures NetOf(r, n, d) == SourceNet(log, cut, d) <==> NetOf(r, n, d) == NetOf(r, cut, d)
    ensures (forall p | p in r && p > cut :: r[p].date != d) ==> NetOf(r, n, d) == SourceNet(log, cut, d)
  {
    NetDifference(r, log, cut, n, d);
    NoIdMissing(r, log, cut, d);
    if forall p | p in r && p > cut :: r[p].date != d {
      FoldStops(r, cut, n, d);
    }
  }

  /** Reported is what every reachable state shows of a day, by RunTotals: the
      fold of the accepted events r, all at positions up to n. */
  ghost predicate Reported(t: Totals, r: Received, n: nat, d: Date) {
    t == Fold(r, n, d) && forall p | p in r :: p <= n
  }

  /** The financial difference before its sign is dropped is what was accepted
      beyond the cut minus what is missing; with nothing missing it is zero if
      and only if the events of that day accepted beyond the cut net to zero, in
      particular when there are none. */
  lemma {:induction false} DifferenceIs(t: Totals, r: Received, n: nat, log: seq<Item>, cut: nat, d: Date)
    requires Reported(t, r, n, d) && Faithful(r, log) && ProperLog(log) && cut <= |log|
    ensures
      var difference := t.credits - t.debits - SourceNet(log, cut, d);
      var beyond := NetOf(r, n, d) - NetOf(r, cut, d);
      && difference == beyond - MissingNet(r, log, cut, d)
      && (|SourceOf(log[..cut], d).ids - Support(Projected(r, cut, d))| == 0 ==>
            && (difference == 0 <==> beyond == 0)
            && ((forall p | p in r && p > cut :: r[p].date != d) ==> difference == 0))
  {
    NetDifference(r, log, cut, n, d);
    if |SourceOf(log[..cut], d).ids - Support(Projected(r, cut, d))| == 0 {
      ZeroNetIff(r, n, log, cut, d);
    }
  }

  lemma {:induction false} FoldStops(r: Received, cut: nat, n: nat, d: Date)
    requires forall p | p in r && p > cut :: r[p].date != d
    requires n < cut ==> forall p | p in r :: p <= n
    ensures Fold(r, n, d) == Fold(r, cut, d)
    decreases n
  {
    if n < cut {
      FoldBeyond(r, n, cut, d);
    } else if n > cut {
      FoldStops(r, cut, n - 1, d);
    }
  }

  /** Without that condition all counts can be zero while the difference is
      not: here the second entry of the day lies beyond the cut. */
  lemma {:induction false} ZeroCountsNonzeroDifference(e: Event, f: Event, x: Item, y: Item)
    requires Tells(e, x) && Tells(f, y) && x.id != "" && x.date == y.date
    ensures
      var r, d := map[1 := e, 2 := f], x.date;
      && SourceOf([x, y][..1], d).ids == Support(Projected(r, 1, d)) == {x.id}
      && |Projected(r, 1, d)| == 1
      && NetOf(r, 2, d) - SourceNet([x, y], 1, d) == f.Net()
  {
    var r, d := map[1 := e, 2 := f], x.date;
    assert [x, y][..1] == [x];
    OneItem(x);
    assert Projected(r, 0, d) == multiset{};
    assert Projected(r, 1, d) == multiset{e.entryId};
    TwoFolds(e, f, d);
  }

  lemma {:induction false} OneItem(x: Item)
    requires x.id != ""
    ensures SourceOf([x], x.date) == Source({x.id}, if x.kind == 1 then x.amount else 0, if x.kind == 2 then x.amount else 0)
  {
    ReadIs([x], 1);
    assert [x][..1] == [x] && [x][..0] == [];
    assert OnDate([x][..0], x.date) == [];
    var none: seq<Item> := [];
    DayAdds(none, x);
    assert none + [x] == [x] && Ids(none) == {};
  }

  lemma {:induction false} TwoFolds(e: Event, f: Event, d: Date)
    requires e.date == f.date == d
    ensures NetOf(map[1 := e, 2 := f], 2, d) == e.Net() + f.Net()
  {
    var r := map[1 := e, 2 := f];
    assert Fold(r, 0, d) == Totals(0, 0, 0);
    assert Fold(r, 1, d) == Add(Fold(r, 0, d), e);
    assert Fold(r, 2, d) == Add(Fold(r, 1, d), f);
  }

  /* ---- The persisted runs ---- */

  /** A reconciliation_run row. */
  datatype Saved = Saved(cut: nat, missing: int, extra: int, duplicated: int, difference: int)

  datatype RunKey = RunKey(merchant: string, date: Date)

  type SavedRuns = map<RunKey, Saved>

  datatype Report = Report(saved: Saved, skipped: bool)

  /** The row after a run at a cut: an equal or newer row stays, a run that
      could not read its source leaves no trace. */
  function Kept(runs: SavedRuns, key: RunKey, cut: nat, found: Option<Saved>): SavedRuns {
    if found.None? || (key in runs && runs[key].cut >= cut) then runs else runs[key := found.value.(cut := cut)]
  }

  datatype Try = Try(key: RunKey, cut: nat, found: Option<Saved>)

  function AfterAll(runs: SavedRuns, tries: seq<Try>): SavedRuns {
    if tries == [] then runs
    else
      var n := |tries| - 1;
      Kept(AfterAll(runs, tries[..n]), tries[n].key, tries[n].cut, tries[n].found)
  }

  /** Over any sequence of runs the persisted cut never decreases, a row
      changes only for a newer cut, and it ends at the newest cut that succeeded. */
  lemma {:induction false} CutsNeverDecrease(runs: SavedRuns, tries: seq<Try>, key: RunKey)
    ensures key in runs ==>
              && key in AfterAll(runs, tries) && AfterAll(runs, tries)[key].cut >= runs[key].cut
              && (AfterAll(runs, tries)[key].cut == runs[key].cut ==> AfterAll(runs, tries)[key] == runs[key])
    ensures forall i | 0 <= i < |tries| && tries[i].key == key && tries[i].found.Some? ::
              key in AfterAll(runs, tries) && AfterAll(runs, tries)[key].cut >= tries[i].cut
    ensures key in AfterAll(runs, tries) ==>
              || (key in runs && AfterAll(runs, tries)[key] == runs[key])
              || Wrote(tries, key, AfterAll(runs, tries)[key])
  {
    if tries != [] {
      var n := |tries| - 1;
      CutsNeverDecrease(runs, tries[..n], key);
      forall i | 0 <= i < n
        ensures tries[..n][i] == tries[i]
      {
      }
      var before, after := AfterAll(runs, tries[..n]), AfterAll(runs, tries);
      if key in before && Wrote(tries[..n], key, before[key]) {
        var i :| 0 <= i < n && tries[..n][i].key == key && tries[..n][i].found.Some?
                 && before[key] == tries[..n][i].found.value.(cut := tries[..n][i].cut);
        assert tries[i].key == key;
      }
      if key in after && (key !in before || after[key] != before[key]) {
        assert after[key] == tries[n].found.value.(cut := tries[n].cut);
      }
    }
  }

  ghost predicate Wrote(tries: seq<Try>, key: RunKey, row: Saved) {
    exists i :: 0 <= i < |tries| && tries[i].key == key && tries[i].found.Some? && row == tries[i].found.value.(cut := tries[i].cut)
  }

  /** size is x without its sign. */
  predicate IsSize(size: int, x: int) {
    size >= 0 && (size == x || size == -x)
  }

  function Abs(x: int): nat {
    if x < 0 then -x else x
  }

  /** What a run at a cut finds, given its source, the day's row and the
      projected entry ids. */
  function Findings(cut: nat, source: Source, days: Days, date: Date, rows: seq<string>): Saved {
    var d, t := Support(multiset(rows)), DayTotals(days, date);
    Saved(cut, |source.ids - d|, |d - source.ids|, |multiset(rows)| - |d|,
          Abs(t.credits - t.debits - (source.credits - source.debits)))
  }

  /* ---- What a report says of a reachable state ---- */

  lemma {:induction false} ProjectedOnce(r: Received, log: seq<Item>, n: nat, d: Date, id: string)
    requires Faithful(r, log) && ProperIds(log)
    ensures Projected(r, n, d)[id] <= 1
  {
    if n > 0 {
      ProjectedOnce(r, log, n - 1, d, id);
      ProjectedHas(r, n - 1, d, id);
      if n in r {
        forall p | 1 <= p <= n - 1 && p in r
          ensures r[p].entryId != r[n].entryId
        {
          assert Tells(r[p], log[p - 1]) && Tells(r[n], log[n - 1]);
        }
      }
    }
  }

  lemma {:induction false} NoRepetition(m: multiset<string>)
    requires forall id :: m[id] <= 1
    ensures |m| == |Support(m)|
  {
    assert forall id :: m[id] == multiset(Support(m))[id] by {
      assert forall id :: id in m <==> id in Support(m);
    }
    assert m == multiset(Support(m));
  }

  lemma {:induction false} ProjectedInSource(r: Received, log: seq<Item>, cut: nat, d: Date)
    requires Faithful(r, log) && ProperIds(log) && cut <= |log|
    ensures Support(Projected(r, cut, d)) <= SourceOf(log[..cut], d).ids
  {
    SourceAtCut(log, cut, d);
    forall id | id in Support(Projected(r, cut, d))
      ensures id in Ids(OnDate(log[..cut], d))
    {
      ProjectedHas(r, cut, d, id);
      var p :| 1 <= p <= cut && p in r && r[p].date == d && r[p].entryId == id;
      var x := log[p - 1];
      assert Tells(r[p], x) && x == log[..cut][p - 1];
      OnDateHas(log[..cut], d, x);
    }
  }

  /** How many entries of day d at positions 1..n were not accepted. */
  function MissingCount(r: Received, log: seq<Item>, n: nat, d: Date): nat
    requires n <= |log|
  {
    if n == 0 then 0
    else MissingCount(r, log, n - 1, d) + (if log[n - 1].date == d && n !in r then 1 else 0)
  }

  /** An id that is new to both sets is missing unless it joins the second. */
  lemma {:induction false} OneMore(a: set<string>, b: set<string>, id: string)
    requires id !in a && id !in b
    ensures |(a + {id}) - (b + {id})| == |a - b| && |(a + {id}) - b| == |a - b| + 1
  {
    assert (a + {id}) - (b + {id}) == a - b;
    assert (a + {id}) - b == (a - b) + {id};
  }

  /** How the ids of day d grow by the entry at position n. */
  lemma {:induction false} IdsStep(r: Received, log: seq<Item>, n: nat, d: Date)
    requires Faithful(r, log) && 0 < n <= |log|
    ensures Ids(OnDate(log[..n], d)) == if log[n - 1].date == d then Ids(OnDate(log[..n - 1], d)) + {log[n - 1].id} else Ids(OnDate(log[..n - 1], d))
    ensures Support(Projected(r, n, d)) ==
      if log[n - 1].date == d && n in r then Support(Projected(r, n - 1, d)) + {log[n - 1].id} else Support(Projected(r, n - 1, d))
  {
    OnDateStep(log, n - 1, d);
    DayAdds(OnDate(log[..n - 1], d), log[n - 1]);
    assert n in r ==> Tells(r[n], log[n - 1]);
  }

  lemma {:induction false} MissingStep(r: Received, log: seq<Item>, n: nat, d: Date)
    requires Faithful(r, log) && ProperIds(log) && 0 < n <= |log|
    ensures |Ids(OnDate(log[..n], d)) - Support(Projected(r, n, d))|
         == |Ids(OnDate(log[..n - 1], d)) - Support(Projected(r, n - 1, d))| + (if log[n - 1].date == d && n !in r then 1 else 0)
  {
    var a, b := Ids(OnDate(log[..n - 1], d)), Support(Projected(r, n - 1, d));
    IdsStep(r, log, n, d);
    NewId(r, log, n, d);
    OneMore(a, b, log[n - 1].id);
  }

  lemma {:induction false} MissingIds(r: Received, log: seq<Item>, n: nat, d: Date)
    requires Faithful(r, log) && ProperIds(log) && n <= |log|
    ensures |Ids(OnDate(log[..n], d)) - Support(Projected(r, n, d))| == MissingCount(r, log, n, d)
  {
    if n == 0 {
      assert Ids(OnDate(log[..0], d)) == {};
    } else {
      MissingIds(r, log, n - 1, d);
      MissingStep(r, log, n, d);
    }
  }

  /** The entry at position n brings an id no earlier one has. */
  lemma {:induction false} NewId(r: Received, log: seq<Item>, n: nat, d: Date)
    requires Faithful(r, log) && ProperIds(log) && 0 < n <= |log|
    ensures log[n - 1].id !in Ids(OnDate(log[..n - 1], d)) && log[n - 1].id !in Support(Projected(r, n - 1, d))
  {
    forall y | y in OnDate(log[..n - 1], d)
      ensures y.id != log[n - 1].id
    {
      OnDateHas(log[..n - 1], d, y);
      var i :| 0 <= i < n - 1 && log[..n - 1][i] == y;
    }
    forall p | 1 <= p <= n - 1 && p in r
      ensures r[p].entryId != log[n - 1].id
    {
      assert Tells(r[p], log[p - 1]);
    }
    ProjectedHas(r, n - 1, d, log[n - 1].id);
  }

  /** With faithful events nothing is extra or duplicated. */
  lemma {:induction false} FaithfulCounts(r: Received, log: seq<Item>, cut: nat, d: Date)
    requires Faithful(r, log) && ProperIds(log) && cut <= |log|
    ensures var m := Projected(r, cut, d);
            |Support(m) - SourceOf(log[..cut], d).ids| == 0 && |m| == |Support(m)|
  {
    var m := Projected(r, cut, d);
    ProjectedInSource(r, log, cut, d);
    assert Support(m) - SourceOf(log[..cut], d).ids == {};
    forall id
      ensures m[id] <= 1
    {
      ProjectedOnce(r, log, cut, d, id);
    }
    NoRepetition(m);
  }

  /** The report of a run whose stream delivered the ledger up to the cut, on a
      day that shows the fold of faithful events: missing is the number of that
      day's entries not accepted, nothing is extra or duplicated, and the saved
      difference is the size of what was accepted beyond the cut less what is
      missing.  With nothing missing it is zero if and only if the events of that
      day accepted beyond the cut net to zero, in particular when there are none. */
  lemma {:induction false} ReportIs(days: Days, r: Received, n: nat, log: seq<Item>, cut: nat, d: Date, rows: seq<string>)
    requires Reported(DayTotals(days, d), r, n, d) && Faithful(r, log) && ProperLog(log) && cut <= |log|
    requires multiset(rows) == Projected(r, cut, d)
    ensures
      var saved := Findings(cut, SourceOf(log[..cut], d), days, d, rows);
      var beyond := NetOf(r, n, d) - NetOf(r, cut, d);
      && saved.cut == cut && saved.missing == MissingCount(r, log, cut, d) && saved.extra == 0 && saved.duplicated == 0
      && IsSize(saved.difference, beyond - MissingNet(r, log, cut, d))
      && (saved.missing == 0 ==>
            && (saved.difference == 0 <==> beyond == 0)
            && ((forall p | p in r && p > cut :: r[p].date != d) ==> saved.difference == 0))
  {
    var t := DayTotals(days, d);
    DifferenceIs(t, r, n, log, cut, d);
    FaithfulCounts(r, log, cut, d);
    SourceAtCut(log, cut, d);
    MissingIds(r, log, cut, d);
  }

  /** Every reachable state has such days, so the report of a run over it is as
      ReportIs says, for the rows its inbox query returns. */
  lemma {:induction false} ReportOverRuns(fp: Event -> string, steps: seq<R.Step>, m: string, log: seq<Item>, cut: nat, d: Date, rows: seq<string>)
    requires var r := ReceivedBy(R.Run(fp, steps), m);
             Faithful(r, log) && ProperLog(log) && cut <= |log| && multiset(rows) == Projected(r, cut, d)
    ensures
      var b, r := BookOf(R.Run(fp, steps), m), ReceivedBy(R.Run(fp, steps), m);
      var saved := Findings(cut, SourceOf(log[..cut], d), b.days, d, rows);
      var beyond := NetOf(r, b.progress.source, d) - NetOf(r, cut, d);
      && saved.missing == MissingCount(r, log, cut, d) && saved.extra == 0 && saved.duplicated == 0
      && IsSize(saved.difference, beyond - MissingNet(r, log, cut, d))
      && (saved.missing == 0 && (forall p | p in r && p > cut :: r[p].date != d) ==> saved.difference == 0)
  {
    var b, r := BookOf(R.Run(fp, steps), m), ReceivedBy(R.Run(fp, steps), m);
    RunTotals(fp, steps, m, d);
    ReportIs(b.days, r, b.progress.source, log, cut, d, rows);
  }

  /** What a run reports, column by column, of the source it read, the day's row
      and the projected ids. */
  ghost predicate Reports(saved: Saved, cut: nat, source: Source, days: Days, date: Date, rows: seq<string>) {
    && saved.cut == cut
    && saved.missing == |set id | id in source.ids && id !in rows|
    && saved.extra == |set id | id in rows && id !in source.ids|
    && saved.duplicated == |rows| - |set id | id in rows|
    && (date in days ==> IsSize(saved.difference, days[date].credits - days[date].debits - source.credits + source.debits))
    && (date !in days ==> IsSize(saved.difference, source.debits - source.credits))
  }

  lemma {:induction false} FindingsReport(cut: nat, source: Source, days: Days, date: Date, rows: seq<string>)
    ensures Reports(Findings(cut, source, days, date, rows), cut, source, days, date, rows)
  {
    var d := Support(multiset(rows));
    assert forall id :: id in d <==> id in rows;
    assert d == set id | id in rows;
    assert source.ids - d == set id | id in source.ids && id !in rows;
    assert d - source.ids == set id | id in rows && id !in source.ids;
  }

  method Difference(source: Source, days: Days, date: Date) returns (diff: nat)
    ensures var t := DayTotals(days, date);
            && diff == Abs(t.credits - t.debits - (source.credits - source.debits))
            && IsSize(diff, t.credits - t.debits - (source.credits - source.debits))
  {
    var credits, debits := 0, 0;
    if date in days {
      credits, debits := days[date].credits, days[date].debits;
    }
    var d := (credits - debits) - (source.credits - source.debits);
    diff := if d < 0 then -d else d;
  }

  method Compare(cut: nat, source: Source, days: Days, date: Date, rows: seq<string>) returns (saved: Saved)
    ensures saved == Findings(cut, source, days, date, rows) && Reports(saved, cut, source, days, date, rows)
  {
    FindingsReport(cut, source, days, date, rows);
    var counts := CountEntries(rows);
    var missing, extra, duplicated := CompareEntrySets(source.ids, counts, multiset(rows));
    var diff := Difference(source, days, date);
    return Saved(cut, missing, extra, duplicated, diff);
  }

  class Reconciler {
    var runs: SavedRuns

    constructor ()
      ensures runs == map[]
    {
      runs := map[];
    }

    /** reconcile, in one transaction: days and rows are what its queries
        return, attempts what the ledger's stream does. */
    method Reconcile(key: RunKey, cut: nat, attempts: seq<Attempt>, cancelledAfter: nat, days: Days, rows: seq<string>)
        returns (report: Option<Report>)
      requires |attempts| == 3
      modifies this
      ensures key in old(runs) && old(runs)[key].cut >= cut ==> report == Some(Report(old(runs)[key], true))
      ensures !(key in old(runs) && old(runs)[key].cut >= cut) ==>
                && (report.Some? <==> Chosen(attempts, cancelledAfter).Some?)
                && (report.Some? ==>
                      var source := SourceOf(Chosen(attempts, cancelledAfter).value, key.date);
                      && report.value == Report(Findings(cut, source, days, key.date, rows), false)
                      && Reports(report.value.saved, cut, source, days, key.date, rows)
                      && key in runs && runs[key] == report.value.saved)
      ensures runs == Kept(old(runs), key, cut, if report.Some? then Some(report.value.saved) else None)
    {
      if key in runs && runs[key].cut >= cut {
        return Some(Report(runs[key], true));
      }
      var source := StreamSourceEntries(attempts, cancelledAfter, key.date);
      if source.None? {
        return None;
      }
      var saved := Compare(cut, source.value, days, key.date, rows);
      if key !in runs || runs[key].cut < cut {
        runs := runs[key := saved];
      }
      return Some(Report(saved, false));
    }
  }
}
