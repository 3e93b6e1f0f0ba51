/** What holds of every run of the system: it refines the run, accounts for every record, never gets stuck and ends. */
module SystemResults {
  import opened WholeRun
  import R = RunAccounting
  import RR = RunResults

  /**
   Whatever the system does from its start, some run of the run's model ends in the same state, with the records that
   have been enqueued and not sent in its list.
   */
  lemma SystemRefinesRun(c: R.Config, zero: R.Record, run: seq<Action>)
    returns (list: seq<R.Record>, steps: seq<R.Action>)
    requires Legal(c, Init(c, zero), run)
    ensures R.Legal(c, R.Init(c), steps)
    ensures R.Exec(c, R.Init(c), steps) == With(Exec(c, Init(c, zero), run).s, list)
    ensures Rel(c, Exec(c, Init(c, zero), run), list)
  {
    InitRel(c, zero);
    list, steps := RunRefinesFrom(c, Init(c, zero), [], run);
  }

  /**
   So the accounting holds of the system: at its end everything has been written once and counted, no call on the queue
   ever fails, and it does not get stuck on the way.
   */
  lemma SystemAccounted(c: R.Config, zero: R.Record, run: seq<Action>)
    requires Legal(c, Init(c, zero), run)
    ensures var y := Exec(c, Init(c, zero), run);
      && y.s.closes <= 1
      && (y.s.closes == 1 ==> y.s.main.AwaitWritten? || y.s.main.Ended? || |y.s.written| == 0x7FFF_FFFF_FFFF_FFFF)
      && (y.s.main.Ended? && y.s.log != [] ==>
            && y.s.closes == 1 && multiset(y.s.written) == multiset(y.s.log)
            && |y.s.written| == y.s.totalIssued == y.s.totalSuccess + y.s.totalFailed)
      && (forall pc :: pc in (if y.drain.Some? then y.drain.value.q else y.q).threads ==>
            !pc.DeqFatal? && !pc.NilDereference?)
      && (y.s.main.Ended? || (exists act :: Enabled(c, y, act)) || |y.s.written| == 0x7FFF_FFFF_FFFF_FFFF)
  {
    var y := Exec(c, Init(c, zero), run);
    var list, steps := SystemRefinesRun(c, zero, run);
    RR.RunAccounted(c, steps);
    QueueSafe(c, y, list);
    if !y.s.main.Ended? && |y.s.written| != R.MAX_INT64 {
      SystemProgress(c, y, list);
    }
  }

  /** Every step comes closer in an order without infinite descent, so every run of the system ends. */
  lemma SystemCloser(c: R.Config, y: System, list: seq<R.Record>, act: Action) returns (list': seq<R.Record>)
    requires Rel(c, y, list) && Enabled(c, y, act)
    ensures Rel(c, Apply(c, y, act), list') && |Apply(c, y, act).s.ds| == |y.s.ds| == |c.drivers|
    ensures Closer(c, Apply(c, y, act), list', y, list)
    ensures Unbegun(y) >= 0 && Busywork(y) >= 0
  {
    var steps;
    list', steps := StepRefines(c, y, list, act);
    MeasureBounded(c, y, list);
    if steps == [] {
      HiddenCloser(c, y, list, act);
    }
    MatchedCloser(c, y, list, Apply(c, y, act), list', steps);
  }
}
