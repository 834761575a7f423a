/** What Close does for good: no handler that begins later gets its message in, and the released pool takes no task. */
module ConsumerClosing {
  import opened ActivityStates
  import opened ConsumerSystem
  import opened ConsumerTheorems

  lemma {:induction false} StaysClosed(c: Config, s: System, run: seq<Step>)
    requires GoodConfig(c) && IsRun(c, s, run)
    ensures s.closed ==> After(c, s, run).closed
    ensures s.poolClosed ==> After(c, s, run).poolClosed
    decreases |run|
  {
    if run == [] {
    } else {
      StaysClosed(c, Apply(c, s, run[0]), run[1..]);
    }
  }

  /** The handler of `t` has returned and owes no counter update. */
  predicate Gone(s: System, t: Task, ok: bool) {
    Handler(t) in s.threads && s.threads[Handler(t)] == Thread(Return(ok), [])
  }

  lemma StepGone(c: Config, s: System, step: Step, t: Task, ok: bool)
    requires GoodConfig(c) && Enabled(c, s, step) && Gone(s, t, ok)
    ensures Gone(Apply(c, s, step), t, ok)
  {
    if !step.Close? && !step.ReleasePool? {
      assert Mover(step) != Handler(t);
    }
  }

  lemma {:induction false} StaysGone(c: Config, s: System, run: seq<Step>, t: Task, ok: bool)
    requires GoodConfig(c) && IsRun(c, s, run) && Gone(s, t, ok)
    ensures Gone(After(c, s, run), t, ok)
    decreases |run|
  {
    if run == [] {
    } else {
      StepGone(c, s, run[0], t, ok);
      StaysGone(c, Apply(c, s, run[0]), run[1..], t, ok);
    }
  }

  /** However the run goes on after a Close, a HandleMessage that begins then ends with an error at once. */
  lemma RefusedAfterClose(c: Config, s: System, between: seq<Step>, t: Task, now: int, more: seq<Step>)
    requires GoodConfig(c) && IsRun(c, Apply(c, s, Close), between)
    requires var s' := After(c, Apply(c, s, Close), between);
             Enabled(c, s', StartHandle(t, now)) && IsRun(c, Apply(c, s', StartHandle(t, now)), more)
    ensures var s' := After(c, Apply(c, s, Close), between);
            Returned(After(c, Apply(c, s', StartHandle(t, now)), more), t, false)
  {
    StaysClosed(c, Apply(c, s, Close), between);
    var s' := After(c, Apply(c, s, Close), between);
    StaysGone(c, Apply(c, s', StartHandle(t, now)), more, t, false);
  }

  predicate Accepts(step: Step) {
    (step.SubmitDirect? || step.SubmitNext?) && step.accept
  }

  lemma {:induction false} NothingAccepted(c: Config, s: System, run: seq<Step>)
    requires GoodConfig(c) && IsRun(c, s, run) && s.poolClosed
    ensures forall i :: 0 <= i < |run| ==> !Accepts(run[i])
    decreases |run|
  {
    if run == [] {
    } else {
      NothingAccepted(c, Apply(c, s, run[0]), run[1..]);
      assert run == [run[0]] + run[1..];
    }
  }

  /** Once Close has released the pool, no submission is accepted any more. */
  lemma NoneAfterRelease(c: Config, s: System, run: seq<Step>)
    requires GoodConfig(c) && Enabled(c, s, ReleasePool) && IsRun(c, Apply(c, s, ReleasePool), run)
    ensures forall i :: 0 <= i < |run| ==> !Accepts(run[i])
  {
    NothingAccepted(c, Apply(c, s, ReleasePool), run);
  }
}
