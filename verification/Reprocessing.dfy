/** Draining the dead-letter table through the normal projection path. */
module Reprocessing {
  import opened Domain
  import opened Projection
  import opened Invariants
  import opened Fingerprint
  import opened Identity
  import opened Consumer

  /** The statements of one item that fail. */
  datatype ItemFaults = ItemFaults(apply: bool, pending: bool, dead: bool)

  datatype Result = Result(reprocessed: nat, failed: nat)

  predicate IsParked(pending: Pendency, row: DeadRow) {
    row.eventId.Some? && row.eventId.value in pending && pending[row.eventId.value].dlq
  }

  /** The rows a pass reads: dead letters joined to a pendency of class dlq. */
  function Parked(pending: Pendency, dead: seq<DeadRow>): seq<DeadRow> {
    if dead == [] then []
    else
      var rest := Parked(pending, dead[..|dead| - 1]);
      if IsParked(pending, dead[|dead| - 1]) then rest + [dead[|dead| - 1]] else rest
  }

  /** The rows without those of the given event ids. */
  function Without(dead: seq<DeadRow>, gone: set<string>): seq<DeadRow> {
    if dead == [] then []
    else
      var rest := Without(dead[..|dead| - 1], gone);
      var row := dead[|dead| - 1];
      if row.eventId.Some? && row.eventId.value in gone then rest else rest + [row]
  }

  /** One item: apply its payload, then delete its pendency, then every dead
      letter of its event id; the flag says all three succeeded. */
  function One(fp: Event -> string, t: Tables, row: DeadRow, f: ItemFaults): (Tables, bool)
    requires row.eventId.Some?
  {
    var key := row.eventId.value;
    if row.parsed.None? || f.apply then (t, false)
    else
      var (projection, outcome) := Apply(fp, t.projection, row.parsed.value);
      if !outcome.Ok() then (t, false)
      else
        var t1 := t.(projection := projection);
        if f.pending then (t1, false)
        else
          var t2 := if key in t1.pending && t1.pending[key].dlq then t1.(pending := t1.pending - {key}) else t1;
          if f.dead then (t2, false)
          else (t2.(dead := Without(t2.dead, {key})), true)
  }

  /** A whole pass over the items, and which of them succeeded. */
  function Pass(fp: Event -> string, t: Tables, items: seq<DeadRow>, faults: seq<ItemFaults>): (Tables, seq<bool>)
    requires |faults| == |items| && forall i | 0 <= i < |items| :: items[i].eventId.Some?
  {
    if items == [] then (t, [])
    else
      var n := |items| - 1;
      var (before, oks) := Pass(fp, t, items[..n], faults[..n]);
      var (after, ok) := One(fp, before, items[n], faults[n]);
      (after, oks + [ok])
  }

  function Count(oks: seq<bool>, b: bool): nat {
    if oks == [] then 0 else Count(oks[..|oks| - 1], b) + (if oks[|oks| - 1] == b then 1 else 0)
  }

  /** The event ids of the items that succeeded. */
  function Succeeded(items: seq<DeadRow>, oks: seq<bool>): set<string>
    requires |oks| == |items| && forall i | 0 <= i < |items| :: items[i].eventId.Some?
  {
    set i | 0 <= i < |items| && oks[i] :: items[i].eventId.value
  }

  /* ---- What a pass leaves behind ---- */

  lemma {:induction false} WithoutTwice(dead: seq<DeadRow>, a: set<string>, b: set<string>)
    ensures Without(Without(dead, a), b) == Without(dead, a + b)
  {
    if dead != [] {
      var n := |dead| - 1;
      WithoutTwice(dead[..n], a, b);
      var kept := Without(dead[..n], a);
      assert (kept + [dead[n]])[..|kept|] == kept;
    }
  }

  lemma {:induction false} WithoutNone(dead: seq<DeadRow>)
    ensures Without(dead, {}) == dead
  {
    if dead != [] {
      WithoutNone(dead[..|dead| - 1]);
    }
  }

  lemma {:induction false} WithoutKeeps(dead: seq<DeadRow>, gone: set<string>, row: DeadRow)
    ensures row in Without(dead, gone) <==> row in dead && !(row.eventId.Some? && row.eventId.value in gone)
  {
    if dead != [] {
      var n := |dead| - 1;
      WithoutKeeps(dead[..n], gone, row);
      assert dead == dead[..n] + [dead[n]];
    }
  }

  lemma {:induction false} SucceededStep(items: seq<DeadRow>, oks: seq<bool>)
    requires |oks| == |items| > 0 && forall i | 0 <= i < |items| :: items[i].eventId.Some?
    ensures var n := |items| - 1;
            Succeeded(items, oks) == Succeeded(items[..n], oks[..n]) + (if oks[n] then {items[n].eventId.value} else {})
  {
    var n := |items| - 1;
    forall k | k in Succeeded(items, oks)
      ensures k in Succeeded(items[..n], oks[..n]) || (oks[n] && k == items[n].eventId.value)
    {
      var i :| 0 <= i < |items| && oks[i] && items[i].eventId.value == k;
      assert i < n ==> items[..n][i] == items[i] && oks[..n][i];
    }
    forall k | k in Succeeded(items[..n], oks[..n])
      ensures k in Succeeded(items, oks)
    {
      var i :| 0 <= i < n && oks[..n][i] && items[..n][i].eventId.value == k;
      assert items[i].eventId.value == k && oks[i];
    }
  }

  /** The dead letters left are exactly those of event ids with no success. */
  lemma {:induction false} PassLeaves(fp: Event -> string, t: Tables, items: seq<DeadRow>, faults: seq<ItemFaults>)
    requires |faults| == |items| && forall i | 0 <= i < |items| :: items[i].eventId.Some?
    ensures var (t', oks) := Pass(fp, t, items, faults);
            |oks| == |items| && t'.dead == Without(t.dead, Succeeded(items, oks))
  {
    if items == [] {
      WithoutNone(t.dead);
      assert Succeeded(items, []) == {};
    } else {
      var n := |items| - 1;
      PassLeaves(fp, t, items[..n], faults[..n]);
      var (t', oks) := Pass(fp, t, items, faults);
      assert oks[..n] == Pass(fp, t, items[..n], faults[..n]).1;
      SucceededStep(items, oks);
      var done := Succeeded(items[..n], oks[..n]);
      WithoutTwice(t.dead, done, {items[n].eventId.value});
      assert !oks[n] ==> Succeeded(items, oks) == done;
    }
  }

  /** A row stays exactly when no item of its event id succeeded, so a payload
      that still fails is kept if and only if that holds of its id. */
  lemma {:induction false} RowStaysIff(fp: Event -> string, t: Tables, items: seq<DeadRow>, faults: seq<ItemFaults>, row: DeadRow)
    requires |faults| == |items| && forall i | 0 <= i < |items| :: items[i].eventId.Some?
    requires row in t.dead
    ensures var (t', oks) := Pass(fp, t, items, faults);
            && |oks| == |items|
            && (row in t'.dead <==> !exists i :: 0 <= i < |items| && oks[i] && items[i].eventId == row.eventId)
  {
    var (t', oks) := Pass(fp, t, items, faults);
    PassLeaves(fp, t, items, faults);
    WithoutKeeps(t.dead, Succeeded(items, oks), row);
    if i :| 0 <= i < |items| && oks[i] && items[i].eventId == row.eventId {
      assert items[i].eventId.value in Succeeded(items, oks);
    }
  }

  /** What applying the items did to the inbox: every success put its own
      event there, nothing was lost, and only the items' events were gained. */
  ghost predicate Sowed(s: State, s': State, items: seq<DeadRow>, oks: seq<bool>) {
    && |oks| == |items| && Grows(s, s')
    && (forall k | k in s'.inbox :: k in s.inbox || Came(items, s'.inbox[k]))
    && (forall i | 0 <= i < |items| && oks[i] :: items[i].parsed.Some? && Holds(s', items[i].parsed.value))
  }

  lemma {:induction false} OneSows(fp: Event -> string, t: Tables, row: DeadRow, f: ItemFaults)
    requires row.eventId.Some? && (row.parsed.Some? ==> Sound(row.parsed.value))
    requires CollisionFree(fp) && InboxSound(t.projection)
    ensures Sowed(t.projection, One(fp, t, row, f).0.projection, [row], [One(fp, t, row, f).1])
    ensures InboxSound(One(fp, t, row, f).0.projection)
  {
    OneCases(fp, t, row, f);
    assert [row][0] == row;
    if row.parsed.Some? {
      ApplySound(fp, t.projection, row.parsed.value);
      assert Came([row], row.parsed.value);
    }
  }

  /** An item either leaves the projection alone and fails, or applies its event. */
  lemma {:induction false} OneCases(fp: Event -> string, t: Tables, row: DeadRow, f: ItemFaults)
    requires row.eventId.Some?
    ensures var (t', ok) := One(fp, t, row, f);
            || (!ok && t' == t)
            || (row.parsed.Some? && Apply(fp, t.projection, row.parsed.value).1.Ok()
                && t'.projection == Apply(fp, t.projection, row.parsed.value).0)
  {
  }

  /** What an item does to the pendencies and the dead letters: once it succeeded
      no dlq pendency and no dead letter of its event id is left; no other event's
      are touched, and a failed item keeps its dead letters. */
  lemma {:induction false} OneClears(fp: Event -> string, t: Tables, row: DeadRow, f: ItemFaults)
    requires row.eventId.Some?
    ensures
      var (t', ok) := One(fp, t, row, f);
      var key := row.eventId.value;
      && SameBut(t.pending, t'.pending, key)
      && (ok ==> && (key in t'.pending ==> !t'.pending[key].dlq)
                 && (key in t.pending && !t.pending[key].dlq ==> key in t'.pending && t'.pending[key] == t.pending[key])
                 && forall r | r in t'.dead :: r.eventId != Some(key))
      && (!ok ==> t'.dead == t.dead)
      && (forall r | r in t.dead && r.eventId != Some(key) :: r in t'.dead)
  {
    var key := row.eventId.value;
    forall r
      ensures r in Without(t.dead, {key}) <==> r in t.dead && r.eventId != Some(key)
    {
      WithoutKeeps(t.dead, {key}, r);
    }
  }

  /** A pass reads each dead letter of a parked event as often as it is there,
      and no other. */
  lemma {:induction false} ParkedIs(pending: Pendency, dead: seq<DeadRow>, row: DeadRow)
    ensures multiset(Parked(pending, dead))[row] ==
      if row.eventId.Some? && row.eventId.value in pending && pending[row.eventId.value].dlq then multiset(dead)[row] else 0
  {
    if dead != [] {
      var n := |dead| - 1;
      ParkedIs(pending, dead[..n], row);
      assert dead == dead[..n] + [dead[n]];
    }
  }

  lemma {:induction false} SowedTogether(s: State, s1: State, s2: State, items: seq<DeadRow>, oks: seq<bool>, row: DeadRow, ok: bool)
    requires Sowed(s, s1, items, oks) && Sowed(s1, s2, [row], [ok])
    ensures Sowed(s, s2, items + [row], oks + [ok])
  {
    forall k | k in s2.inbox
      ensures k in s.inbox || Came(items + [row], s2.inbox[k])
    {
      if k !in s.inbox {
        if k in s1.inbox {
          var i :| 0 <= i < |items| && items[i].parsed == Some(s1.inbox[k]);
          assert (items + [row])[i].parsed == Some(s2.inbox[k]);
        } else {
          assert (items + [row])[|items|] == row;
        }
      }
    }
    assert [row][0] == row && [ok][0] == ok;
  }

  /** A whole pass sows its items. */
  lemma {:induction false} PassHolds(fp: Event -> string, t: Tables, items: seq<DeadRow>, faults: seq<ItemFaults>)
    requires |faults| == |items| && forall i | 0 <= i < |items| :: items[i].eventId.Some?
    requires CollisionFree(fp) && InboxSound(t.projection)
    requires forall i | 0 <= i < |items| && items[i].parsed.Some? :: Sound(items[i].parsed.value)
    ensures Sowed(t.projection, Pass(fp, t, items, faults).0.projection, items, Pass(fp, t, items, faults).1)
    ensures InboxSound(Pass(fp, t, items, faults).0.projection)
  {
    if items != [] {
      var n := |items| - 1;
      var (before, oks) := Pass(fp, t, items[..n], faults[..n]);
      PassHolds(fp, t, items[..n], faults[..n]);
      OneSows(fp, before, items[n], faults[n]);
      var (after, ok) := One(fp, before, items[n], faults[n]);
      SowedTogether(t.projection, before.projection, after.projection, items[..n], oks, items[n], ok);
      assert items == items[..n] + [items[n]];
    }
  }

  lemma {:induction false} PassKeepsInv(fp: Event -> string, t: Tables, items: seq<DeadRow>, faults: seq<ItemFaults>)
    requires |faults| == |items| && forall i | 0 <= i < |items| :: items[i].eventId.Some?
    requires Inv(t.projection)
    ensures Inv(Pass(fp, t, items, faults).0.projection)
  {
    if items != [] {
      var n := |items| - 1;
      PassKeepsInv(fp, t, items[..n], faults[..n]);
      var before := Pass(fp, t, items[..n], faults[..n]).0;
      OneCases(fp, before, items[n], faults[n]);
      if items[n].parsed.Some? {
        ApplyKeepsInv(fp, before.projection, items[n].parsed.value);
      }
    }
  }

  ghost predicate Came(items: seq<DeadRow>, e: Event) {
    exists i :: 0 <= i < |items| && items[i].parsed == Some(e)
  }

  lemma {:induction false} CountAll(oks: seq<bool>)
    ensures Count(oks, true) + Count(oks, false) == |oks|
  {
    if oks != [] {
      CountAll(oks[..|oks| - 1]);
    }
  }

  /** A payload that still fails can be dropped: a second dead letter of the
      same event id that does not parse goes with the first one's success. */
  lemma {:induction false} FailingRowDropped(fp: Event -> string, t: Tables, e: Event)
    requires Apply(fp, t.projection, e).1.Ok()
    ensures var good, bad := DeadRow(Some(e.id), Some(e)), DeadRow(Some(e.id), None);
            var u := t.(pending := map[e.id := PendingRow(true, 1)], dead := [good, bad]);
            var no := ItemFaults(false, false, false);
            var (t', oks) := Pass(fp, u, [good, bad], [no, no]);
            && Parked(u.pending, u.dead) == [good, bad]
            && oks == [true, false] && t'.dead == []
  {
    var good, bad := DeadRow(Some(e.id), Some(e)), DeadRow(Some(e.id), None);
    var u := t.(pending := map[e.id := PendingRow(true, 1)], dead := [good, bad]);
    var no := ItemFaults(false, false, false);
    ParkedPair(u.pending, good, bad);
    PassPair(fp, u, good, bad, no);
    WithoutPair(good, bad, e.id);
    assert Without([], {e.id}) == [];
  }

  lemma {:induction false} ParkedPair(pending: Pendency, a: DeadRow, b: DeadRow)
    requires IsParked(pending, a) && IsParked(pending, b)
    ensures Parked(pending, [a, b]) == [a, b]
  {
    assert [a, b][..1] == [a] && [a][..0] == [];
    assert Parked(pending, [a]) == [a];
  }

  lemma {:induction false} WithoutPair(a: DeadRow, b: DeadRow, key: string)
    requires a.eventId == b.eventId == Some(key)
    ensures Without([a, b], {key}) == []
  {
    assert [a, b][..1] == [a] && [a][..0] == [];
    assert Without([a], {key}) == [];
  }

  lemma {:induction false} PassPair(fp: Event -> string, t: Tables, a: DeadRow, b: DeadRow, f: ItemFaults)
    requires a.eventId.Some? && b.eventId.Some?
    ensures var (t1, ok1) := One(fp, t, a, f);
            var (t2, ok2) := One(fp, t1, b, f);
            Pass(fp, t, [a, b], [f, f]) == (t2, [ok1, ok2])
  {
    var items: seq<DeadRow>, faults: seq<ItemFaults>, oks: seq<bool> := [], [], [];
    var (t1, ok1) := One(fp, t, a, f);
    PassStep(fp, t, items, faults, a, f);
    PassStep(fp, t, [a], [f], b, f);
    assert items + [a] == [a] && faults + [f] == [f] && oks + [ok1] == [ok1];
    assert Pass(fp, t, [a], [f]) == (t1, [ok1]);
    assert [ok1] + [One(fp, t1, b, f).1] == [ok1, One(fp, t1, b, f).1];
    assert [a] + [b] == [a, b] && [f] + [f] == [f, f];
  }

  lemma {:induction false} PassStep(fp: Event -> string, t: Tables, items: seq<DeadRow>, faults: seq<ItemFaults>, row: DeadRow, f: ItemFaults)
    requires |faults| == |items| && row.eventId.Some? && forall i | 0 <= i < |items| :: items[i].eventId.Some?
    ensures var (before, oks) := Pass(fp, t, items, faults);
            Pass(fp, t, items + [row], faults + [f]) == (One(fp, before, row, f).0, oks + [One(fp, before, row, f).1])
  {
    assert (items + [row])[..|items|] == items && (faults + [f])[..|items|] == faults;
  }

  /* ---- Exactly when a failing row can be dropped ---- */

  /** Applied to the projection as it stands, the row's payload is accepted. */
  predicate Acceptable(fp: Event -> string, s: State, row: DeadRow) {
    row.parsed.Some? && Apply(fp, s, row.parsed.value).1.Ok()
  }

  /** No payload alone overflows a column of the projection as it stands. */
  predicate Headroom(s: State, items: seq<DeadRow>) {
    forall i | 0 <= i < |items| && items[i].parsed.Some? :: Fits(s, items[i].parsed.value)
  }

  /** Two rows of one event id, one of them acceptable. */
  predicate Rivals(fp: Event -> string, s: State, items: seq<DeadRow>, i: nat, j: nat) {
    i < |items| && j < |items| && i != j && items[i].eventId == items[j].eventId && Acceptable(fp, s, items[j])
  }

  /** Some faults make the row of item i fail and yet disappear. */
  ghost predicate Droppable(fp: Event -> string, t: Tables, items: seq<DeadRow>, i: nat, faults: seq<ItemFaults>)
    requires forall k | 0 <= k < |items| :: items[k].eventId.Some?
  {
    && i < |items| && |faults| == |items|
    && (var (t', oks) := Pass(fp, t, items, faults);
        |oks| == |items| && !oks[i] && items[i] !in t'.dead)
  }

  /** What a later inbox holds never clashed with an earlier one. */
  lemma {:induction false} HeldNeverClashed(s: State, s': State, e: Event)
    requires Mirror(s) && Mirror(s') && Grows(s, s') && Holds(s', e)
    ensures Clash(s, e).Some? ==> Clash(s, e).value == e
  {
    var receipts := BookOf(s, e.merchant).receipts;
    assert Indexed(s', e.id, s'.inbox[e.id]);
    if e.position in receipts {
      var k := receipts[e.position];
      assert Filed(s, e.merchant, e.position, k);
      assert Indexed(s', k, s'.inbox[k]);
      assert k == e.id;
    }
  }

  /** A row that succeeds in some pass is acceptable before it. */
  lemma {:induction false} SuccessIsAcceptable(fp: Event -> string, t: Tables, items: seq<DeadRow>, faults: seq<ItemFaults>, j: nat)
    requires |faults| == |items| && forall i | 0 <= i < |items| :: items[i].eventId.Some?
    requires CollisionFree(fp) && InboxSound(t.projection) && Inv(t.projection) && Headroom(t.projection, items)
    requires forall i | 0 <= i < |items| && items[i].parsed.Some? :: Sound(items[i].parsed.value)
    requires j < |items| && j < |Pass(fp, t, items, faults).1| && Pass(fp, t, items, faults).1[j]
    ensures Acceptable(fp, t.projection, items[j])
  {
    PassHolds(fp, t, items, faults);
    var s' := Pass(fp, t, items, faults).0.projection;
    PassMirrors(fp, t, items, faults);
    HeldNeverClashed(t.projection, s', items[j].parsed.value);
    UnclashedApplies(fp, t.projection, items[j].parsed.value);
  }

  lemma {:induction false} PassMirrors(fp: Event -> string, t: Tables, items: seq<DeadRow>, faults: seq<ItemFaults>)
    requires |faults| == |items| && forall i | 0 <= i < |items| :: items[i].eventId.Some?
    requires Inv(t.projection)
    ensures Mirror(t.projection) && Mirror(Pass(fp, t, items, faults).0.projection)
  {
    PassKeepsInv(fp, t, items, faults);
  }

  /** Every statement of every item but one fails. */
  function AllBut(n: nat, j: nat): seq<ItemFaults> {
    seq(n, i => if i == j then ItemFaults(false, false, false) else ItemFaults(true, true, true))
  }

  lemma {:induction false} OneFaulty(fp: Event -> string, t: Tables, row: DeadRow, f: ItemFaults)
    requires row.eventId.Some?
    ensures f.apply ==> One(fp, t, row, f) == (t, false)
    ensures f == ItemFaults(false, false, false) && Acceptable(fp, t.projection, row) ==> One(fp, t, row, f).1
  {
  }

  lemma {:induction false} PassOfOneMore(fp: Event -> string, t: Tables, items: seq<DeadRow>, fs: seq<ItemFaults>, n: nat)
    requires n < |items| == |fs| && forall i | 0 <= i < |items| :: items[i].eventId.Some?
    ensures var (before, oks) := Pass(fp, t, items[..n], fs[..n]);
            Pass(fp, t, items[..n + 1], fs[..n + 1]) == (One(fp, before, items[n], fs[n]).0, oks + [One(fp, before, items[n], fs[n]).1])
  {
    PassStep(fp, t, items[..n], fs[..n], items[n], fs[n]);
    assert items[..n + 1] == items[..n] + [items[n]] && fs[..n + 1] == fs[..n] + [fs[n]];
  }

  /** The flags of a pass in which only item j can succeed. */
  predicate OnlyFlag(oks: seq<bool>, n: nat, j: nat) {
    |oks| == n && forall i | 0 <= i < n :: oks[i] == (i == j)
  }

  /** Running steps of which only step j changes or achieves anything. */
  lemma {:induction false} OnlyStep<T(!new)>(run: nat -> (T, seq<bool>), step: (nat, T) -> (T, bool), t: T, j: nat, n: nat, total: nat)
    requires n <= total && run(0) == (t, []) && step(j, t).1
    requires forall k: nat | k < total :: run(k + 1) == (step(k, run(k).0).0, run(k).1 + [step(k, run(k).0).1])
    requires forall k: nat, u | k != j :: step(k, u) == (u, false)
    ensures OnlyFlag(run(n).1, n, j) && (n <= j ==> run(n).0 == t)
  {
    if n > 0 {
      OnlyStep(run, step, t, j, n - 1, total);
      assert run((n - 1) + 1) == (step(n - 1, run(n - 1).0).0, run(n - 1).1 + [step(n - 1, run(n - 1).0).1]);
    }
  }

  function OneAt(fp: Event -> string, items: seq<DeadRow>, fs: seq<ItemFaults>, k: nat, t: Tables): (Tables, bool) {
    if k < |items| && k < |fs| && items[k].eventId.Some? then One(fp, t, items[k], fs[k]) else (t, false)
  }

  function PassTo(fp: Event -> string, t: Tables, items: seq<DeadRow>, fs: seq<ItemFaults>, n: nat): (Tables, seq<bool>)
    requires |items| == |fs| && forall i | 0 <= i < |items| :: items[i].eventId.Some?
  {
    Pass(fp, t, items[..Min(n, |items|)], fs[..Min(n, |items|)])
  }

  lemma {:induction false} OnlyOneSucceeds(fp: Event -> string, t: Tables, items: seq<DeadRow>, j: nat)
    requires j < |items| && forall i | 0 <= i < |items| :: items[i].eventId.Some?
    requires Acceptable(fp, t.projection, items[j])
    ensures OnlyFlag(Pass(fp, t, items, AllBut(|items|, j)).1, |items|, j)
  {
    var fs := AllBut(|items|, j);
    ghost var run := (n: nat) => PassTo(fp, t, items, fs, n);
    ghost var step := (k: nat, u: Tables) => OneAt(fp, items, fs, k, u);
    forall k: nat | k < |items|
      ensures run(k + 1) == (step(k, run(k).0).0, run(k).1 + [step(k, run(k).0).1])
    {
      PassOfOneMore(fp, t, items, fs, k);
    }
    forall k: nat, u: Tables | k != j
      ensures step(k, u) == (u, false)
    {
      if k < |items| {
        OneFaulty(fp, u, items[k], fs[k]);
      }
    }
    OneFaulty(fp, t, items[j], fs[j]);
    OnlyStep(run, step, t, j, |items|, |items|);
    assert items[..|items|] == items && fs[..|items|] == fs;
  }

  /** A pass can drop a row that fails if and only if another row of its event
      id is acceptable beforehand.  In particular, when no two parked rows share
      an event id, every row that fails stays, whatever the faults. */
  lemma {:induction false} FailingRowDroppedIff(fp: Event -> string, t: Tables, items: seq<DeadRow>, i: nat)
    requires i < |items| && forall k | 0 <= k < |items| :: items[k].eventId.Some? && items[k] in t.dead
    requires CollisionFree(fp) && InboxSound(t.projection) && Inv(t.projection) && Headroom(t.projection, items)
    requires forall k | 0 <= k < |items| && items[k].parsed.Some? :: Sound(items[k].parsed.value)
    ensures (exists faults :: Droppable(fp, t, items, i, faults)) <==> exists j: nat :: Rivals(fp, t.projection, items, i, j)
  {
    if faults :| Droppable(fp, t, items, i, faults) {
      var oks := Pass(fp, t, items, faults).1;
      RowStaysIff(fp, t, items, faults, items[i]);
      var j :| 0 <= j < |items| && oks[j] && items[j].eventId == items[i].eventId;
      SuccessIsAcceptable(fp, t, items, faults, j);
      assert Rivals(fp, t.projection, items, i, j);
    }
    if j: nat :| Rivals(fp, t.projection, items, i, j) {
      RivalDrops(fp, t, items, i, j);
    }
  }

  lemma {:induction false} RivalDrops(fp: Event -> string, t: Tables, items: seq<DeadRow>, i: nat, j: nat)
    requires forall k | 0 <= k < |items| :: items[k].eventId.Some? && items[k] in t.dead
    requires Rivals(fp, t.projection, items, i, j)
    ensures Droppable(fp, t, items, i, AllBut(|items|, j))
  {
    var faults := AllBut(|items|, j);
    OnlyOneSucceeds(fp, t, items, j);
    RowStaysIff(fp, t, items, faults, items[i]);
  }

  /* ---- One transaction at a time ---- */

  /** Which transaction of an item comes next. */
  datatype Stage = Applying | Unpending | Deleting

  /** The next transaction of an item, failing if fault is set; None ends it. */
  function ItemStep(fp: Event -> string, t: Tables, row: DeadRow, stage: Stage, fault: bool): (Tables, Option<Stage>)
    requires row.eventId.Some?
  {
    var key := row.eventId.value;
    if fault then (t, None)
    else
      match stage
      case Applying =>
        if !Acceptable(fp, t.projection, row) then (t, None)
        else (t.(projection := Apply(fp, t.projection, row.parsed.value).0), Some(Unpending))
      case Unpending =>
        (if key in t.pending && t.pending[key].dlq then t.(pending := t.pending - {key}) else t, Some(Deleting))
      case Deleting => (t.(dead := Without(t.dead, {key})), None)
  }

  /** Undisturbed, the three transactions are the item. */
  lemma {:induction false} OneIsItemSteps(fp: Event -> string, t: Tables, row: DeadRow, f: ItemFaults)
    requires row.eventId.Some?
    ensures var (t1, s1) := ItemStep(fp, t, row, Applying, f.apply);
            var (t2, s2) := if s1.Some? then ItemStep(fp, t1, row, s1.value, f.pending) else (t1, None);
            var (t3, s3) := if s2.Some? then ItemStep(fp, t2, row, s2.value, f.dead) else (t2, None);
            s3.None? && One(fp, t, row, f) == (t3, s2.Some? && !f.dead)
  {
  }

  /* ---- The reprocessor ---- */

  class Reprocessor {
    const tables: Handler

    constructor (tables: Handler)
      ensures this.tables == tables
    {
      this.tables := tables;
    }

    method Delete(key: string)
      modifies tables`dead
      ensures tables.dead == Without(old(tables.dead), {key})
    {
      var kept: seq<DeadRow> := [];
      for i := 0 to |tables.dead|
        invariant tables.dead == old(tables.dead)
        invariant kept == Without(tables.dead[..i], {key})
      {
        assert tables.dead[..i + 1][..i] == tables.dead[..i];
        if tables.dead[i].eventId != Some(key) {
          kept := kept + [tables.dead[i]];
        }
      }
      assert tables.dead[..|tables.dead|] == tables.dead;
      tables.dead := kept;
    }

    method ApplyPayload(e: Event) returns (ok: bool)
      requires tables.store.Valid()
      modifies tables.store
      ensures tables.store.Valid()
      ensures var (s, outcome) := Apply(tables.store.fingerprint, old(tables.store.Tables()), e);
              tables.store.Tables() == s && ok == outcome.Ok()
    {
      var outcome := tables.store.Apply(e);
      return outcome.Ok();
    }

    /** One item of the loop; any failure counts it as failed. */
    method ReprocessOne(row: DeadRow, f: ItemFaults) returns (ok: bool)
      requires tables.store.Valid() && row.eventId.Some?
      modifies tables`pending, tables`dead, tables.store
      ensures tables.store.Valid()
      ensures (tables.Contents(), ok) == One(tables.store.fingerprint, old(tables.Contents()), row, f)
    {
      if row.parsed.None? || f.apply {
        return false;
      }
      ApplyCases(tables.store.fingerprint, tables.store.Tables(), row.parsed.value);
      var applied := ApplyPayload(row.parsed.value);
      if !applied || f.pending {
        return false;
      }
      var key := row.eventId.value;
      if key in tables.pending && tables.pending[key].dlq {
        tables.pending := tables.pending - {key};
      }
      if f.dead {
        return false;
      }
      Delete(key);
      return true;
    }

    /** Reprocess over the rows read; every item is counted exactly once. */
    method Reprocess(items: seq<DeadRow>, faults: seq<ItemFaults>) returns (result: Result)
      requires tables.store.Valid()
      requires multiset(items) == multiset(Parked(tables.pending, tables.dead))
      requires |faults| == |items| && forall i | 0 <= i < |items| :: items[i].eventId.Some?
      modifies tables`pending, tables`dead, tables.store
      ensures tables.store.Valid()
      ensures var (t, oks) := Pass(tables.store.fingerprint, old(tables.Contents()), items, faults);
              && tables.Contents() == t
              && result == Result(Count(oks, true), Count(oks, false))
              && result.reprocessed + result.failed == |items|
    {
      var reprocessed, failed := 0, 0;
      ghost var oks: seq<bool> := [];
      for i := 0 to |items|
        invariant tables.store.Valid()
        invariant (tables.Contents(), oks) == Pass(tables.store.fingerprint, old(tables.Contents()), items[..i], faults[..i])
        invariant reprocessed == Count(oks, true) && failed == Count(oks, false) && |oks| == i
      {
        assert items[..i + 1][..i] == items[..i] && faults[..i + 1][..i] == faults[..i];
        var ok := ReprocessOne(items[i], faults[i]);
        if ok {
          reprocessed := reprocessed + 1;
        } else {
          failed := failed + 1;
        }
        assert (oks + [ok])[..i] == oks;
        oks := oks + [ok];
      }
      assert items[..|items|] == items && faults[..|faults|] == faults;
      CountAll(oks);
      return Result(reprocessed, failed);
    }
  }
}
