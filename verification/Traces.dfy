/** The projection of a pipeline run is a run of the projection: the sequence of
    its own transactions, as deliveries, passes and recoveries made them. */
module Traces {
  import opened Domain
  import opened Projection
  import opened Invariants
  import opened Closing
  import opened Consumer
  import opened Reprocessing
  import R = Runs
  import opened Pipeline

  /** The projection transaction of a step, if it makes one. */
  function Transaction(x: Setup, s: System, step: Step): Option<R.Step> {
    match step
    case Handle(tag, fault) =>
      if tag in s.unacked && s.unacked[tag].phase == Fresh && !fault && Processable(x.wire(s.unacked[tag].message))
      then Some(R.Deliver(x.wire(s.unacked[tag].message).parsed.value)) else None
    case Continue(tag, fault) =>
      if Sweeping(s, tag) && s.sweeps[tag].stage == Applying && !fault && s.sweeps[tag].items[0].parsed.Some?
      then Some(R.Deliver(s.sweeps[tag].items[0].parsed.value)) else None
    case Recover(m) => Some(R.Recover(m))
    case _ => None
  }

  function Trace(x: Setup, steps: seq<Step>): seq<R.Step> {
    if steps == [] then []
    else
      var n := |steps| - 1;
      var step := Transaction(x, Run(x, steps[..n]), steps[n]);
      Then(Trace(x, steps[..n]), step)
  }

  function Then(steps: seq<R.Step>, step: Option<R.Step>): seq<R.Step> {
    if step.Some? then steps + [step.value] else steps
  }

  /** What a transaction leaves of the projection. */
  function After(fp: Event -> string, p: State, step: Option<R.Step>): State {
    if step.Some? then R.Do(fp, p, step.value) else p
  }

  lemma {:induction false} DeliveryTransaction(fp: Event -> string, max: nat, t: Tables, d: Delivery, phase: Phase, fault: bool)
    ensures DeliveryStep(fp, max, t, d, phase, fault).0.projection
         == if phase == Fresh && !fault && Processable(d) then Apply(fp, t.projection, d.parsed.value).0 else t.projection
  {
    if d.parsed.Some? {
      ApplyCases(fp, t.projection, d.parsed.value);
    }
  }

  lemma {:induction false} ItemTransaction(fp: Event -> string, t: Tables, row: DeadRow, stage: Stage, fault: bool)
    requires row.eventId.Some?
    ensures ItemStep(fp, t, row, stage, fault).0.projection
         == if stage == Applying && !fault && row.parsed.Some? then Apply(fp, t.projection, row.parsed.value).0 else t.projection
  {
    if row.parsed.Some? {
      ApplyCases(fp, t.projection, row.parsed.value);
    }
  }

  lemma {:induction false} StepTransaction(x: Setup, s: System, step: Step)
    ensures Do(x, s, step).tables.projection == After(x.fp, s.tables.projection, Transaction(x, s, step))
  {
    match step
    case Handle(tag, fault) =>
      if tag in s.unacked {
        DeliveryTransaction(x.fp, x.max, s.tables, x.wire(s.unacked[tag].message), s.unacked[tag].phase, fault);
      }
    case Continue(tag, fault) =>
      if Sweeping(s, tag) {
        ItemTransaction(x.fp, s.tables, s.sweeps[tag].items[0], s.sweeps[tag].stage, fault);
      }
    case _ =>
  }

  /** The projection any pipeline run reaches is the one its trace reaches. */
  lemma {:induction false} TraceIsRun(x: Setup, steps: seq<Step>)
    ensures Run(x, steps).tables.projection == R.Run(x.fp, Trace(x, steps))
  {
    if steps != [] {
      var n := |steps| - 1;
      TraceIsRun(x, steps[..n]);
      StepTransaction(x, Run(x, steps[..n]), steps[n]);
      RunThen(x.fp, Trace(x, steps[..n]), Transaction(x, Run(x, steps[..n]), steps[n]));
    }
  }

  lemma {:induction false} RunThen(fp: Event -> string, steps: seq<R.Step>, step: Option<R.Step>)
    ensures R.Run(fp, Then(steps, step)) == After(fp, R.Run(fp, steps), step)
  {
    if step.Some? {
      assert (steps + [step.value])[..|steps|] == steps;
    }
  }

  /** Accepted in order, a pipeline run keeps every uncovered closing exact. */
  lemma {:induction false} InOrderTraceKeepsClosings(x: Setup, steps: seq<Step>, m: string)
    requires R.RunInOrder(x.fp, Trace(x, steps))
    ensures ClosingInv(BookOf(Run(x, steps).tables.projection, m))
  {
    TraceIsRun(x, steps);
    R.InOrderRunKeepsClosings(x.fp, Trace(x, steps));
  }
}
