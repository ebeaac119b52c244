/** A persisted terminal phase ends the life of a build. */
module BuildTerminal {
  import opened Options
  import opened Protocols
  import opened BuildTypes
  import opened BuildProtocol
  import opened BuildInvariant

  predicate Finished(w: World) {
    0 < |w.hist| && IsTerminal(Last(w).status.phase)
  }

  predicate SameOutcome(w: World, w': World)
    requires 0 < |w.hist|
  {
    && 0 < |w'.hist|
    && Last(w').status.buildID == Last(w).status.buildID
    && Last(w').status.phase == Last(w).status.phase
  }

  lemma {:induction false} StepAbsorbs(w: World, e: Event)
    requires Inv(w) && Finished(w)
    ensures SameOutcome(w, Apply(w, e))
  {
    StepKeeps(w, e);
    assert Faithful(Last(w).status, w.atc);
  }

  /**
   Once a terminal phase is persisted, no later event changes the persisted BuildID or
   phase, with snapshots of any age; the ATC never lets a build leave a terminal phase.
   */
  lemma {:induction false} TerminalIsAbsorbing(r: Run, r': Run)
    requires FromInit(r) && Continues(r, r') && Finished(State(r))
    ensures SameOutcome(State(r), State(r'))
  {
    if r' != r {
      TerminalIsAbsorbing(r, r'.prev);
      HistoryGrows(r, r'.prev);
      RunKeeps(r'.prev);
      StepAbsorbs(State(r'.prev), r'.e);
    }
  }

  /** Nothing but a status write can be under way. */
  predicate Quiet(w: World) {
    w.op.Idle? || w.op.pc.Writing?
  }

  lemma {:induction false} StepQuiet(w: World, e: Event)
    requires Inv(w) && Finished(w) && Quiet(w) && Fresh(w, e)
    ensures Finished(Apply(w, e)) && Quiet(Apply(w, e)) && Apply(w, e).calls == w.calls
  {
    StepAbsorbs(w, e);
  }

  /**
   With fresh reads, no reconcile after a persisted terminal phase creates, reruns,
   aborts or comments: no mutating ATC call is made any more.
   */
  lemma {:induction false} TerminalIsQuiet(r: Run, r': Run)
    requires FromInit(r) && Finished(State(r)) && State(r).op.Idle?
    requires ContinuesFresh(r, r')
    ensures State(r').calls == State(r).calls
    ensures FromInit(r') && Finished(State(r')) && Quiet(State(r'))
  {
    if r' != r {
      TerminalIsQuiet(r, r'.prev);
      RunKeeps(r'.prev);
      StepQuiet(State(r'.prev), r'.e);
    }
  }

  /** A fresh, undisturbed reconcile up to the comment call; the abort is sent only if canceled. */
  function UpToComment(r: Run, info: AtcBuild, rest: int): Run {
    var newest := if State(r).hist == [] then 0 else |State(r).hist| - 1;
    var chained := Then(Then(Then(r, Begin(Seen(newest))), Answer(Job(JobFound(false)))), Answer(Chain(true)));
    Then(Then(chained, Answer(Abort(true))), Answer(Observe(true, info, rest)))
  }

  /**
   A missing comment is not always retried by the next reconcile: an undisturbed
   reconcile of a tracked build reaches the comment call exactly if the persisted
   phase is not terminal. A comment that failed together with the terminal write is
   never sent.
   */
  lemma {:induction false} CommentRetriedIffNotTerminal(r: Run, info: AtcBuild, rest: int)
    requires State(r).op.Idle? && 0 < |State(r).hist|
    requires var w := State(r);
             var o := Last(w);
             && o.spec.hasJobRef && !o.spec.suspend && !o.deleting
             && o.status.buildID.Some? && o.status.buildID.value in w.atc.builds
             && NeedsComment(CopyOf(w, |w.hist| - 1))
    ensures var w' := State(UpToComment(r, info, rest));
            (w'.op.Running? && w'.op.pc.Commenting?) <==> !IsTerminal(Last(State(r)).status.phase)
  {
    var w := State(r);
    var r1 := Then(r, Begin(Seen(|w.hist| - 1)));
    var r2 := Then(r1, Answer(Job(JobFound(false))));
    var r3 := Then(r2, Answer(Chain(true)));
    var r4 := Then(r3, Answer(Abort(true)));
    var r5 := Then(r4, Answer(Observe(true, info, rest)));
    hide Apply;
    assert UpToComment(r, info, rest) == r5;
    assert State(r1) == Apply(w, Begin(Seen(|w.hist| - 1)));
    assert State(r2) == Apply(State(r1), Answer(Job(JobFound(false))));
    assert State(r3) == Apply(State(r2), Answer(Chain(true)));
    assert State(r4) == Apply(State(r3), Answer(Abort(true)));
    assert State(r5) == Apply(State(r4), Answer(Observe(true, info, rest)));
    hide State;
    ReachesComment(w, info, rest);
  }

  lemma {:induction false} ReachesComment(w: World, info: AtcBuild, rest: int)
    requires w.op.Idle? && 0 < |w.hist|
    requires var o := Last(w);
             && o.spec.hasJobRef && !o.spec.suspend && !o.deleting
             && o.status.buildID.Some? && o.status.buildID.value in w.atc.builds
             && NeedsComment(CopyOf(w, |w.hist| - 1))
    ensures var w3 := Apply(Apply(Apply(w, Begin(Seen(|w.hist| - 1))), Answer(Job(JobFound(false)))),
            Answer(Chain(true)));
            var w' := Apply(Apply(w3, Answer(Abort(true))), Answer(Observe(true, info, rest)));
            (w'.op.Running? && w'.op.pc.Commenting?) <==> !IsTerminal(Last(w).status.phase)
  {
    var b := CopyOf(w, |w.hist| - 1);
    var w1 := Apply(w, Begin(Seen(|w.hist| - 1)));
    if IsTerminal(Last(w).status.phase) {
      assert w1.op == Idle(Done);
    } else {
      assert w1.op == Running(b, GettingJob);
      var w3 := Apply(Apply(w1, Answer(Job(JobFound(false)))), Answer(Chain(true)));
      assert w3.op == AfterTracked(b) && w3.hist == w.hist && w3.atc == w.atc;
      var w4 := Apply(w3, Answer(Abort(true)));
      assert w4.op == Running(b, Observing) && w4.atc == w.atc;
    }
  }

  // ---------------------------------------------------------------- a comment that is lost

  /** A new Build whose reconcile creates a build and records it. */
  function Recorded(w: World, info: AtcBuild): Run {
    var r1 := Then(Then(Then(Start(w), Begin(Seen(0))), Answer(Job(JobFound(false)))), Answer(Chain(true)));
    Then(Then(Then(r1, Answer(Trigger(info))), Answer(Latest(Seen(0)))), Answer(Record(Delivered)))
  }

  /** The same reconcile goes on: the build has succeeded by now, its comment fails, the status is written. */
  function CommentFails(w: World, info: AtcBuild, rest: int): Run {
    var r1 := Then(Then(Recorded(w, info), Answer(Abort(true))), Outside(Progress(w.atc.next, Succeeded)));
    Then(Then(Then(r1, Answer(Observe(true, info, rest))), Answer(Comment(false))), Answer(Write(Delivered)))
  }

  lemma {:induction false} RecordedState(w: World, info: AtcBuild)
    requires Init(w) && Commentable(w.hist[0])
    ensures var w' := State(Recorded(w, info));
            var id := w.atc.next;
            && w'.hist == w.hist + [w.hist[0].(status := Triggered(CopyOf(w, 0), id, info).status)]
            && w'.op == AfterTracked(CopyOf(w', 1)) && w'.alive
            && w'.calls == [TriggerCall] && id in w'.atc.builds && w'.atc.builds[id] == Pending
    ensures FromInit(Recorded(w, info))
  {
    var id, b := w.atc.next, CopyOf(w, 0);
    var r1 := Then(Start(w), Begin(Seen(0)));
    var r2 := Then(r1, Answer(Job(JobFound(false))));
    var r3 := Then(r2, Answer(Chain(true)));
    var r4 := Then(r3, Answer(Trigger(info)));
    var r5 := Then(r4, Answer(Latest(Seen(0))));
    var r6 := Then(r5, Answer(Record(Delivered)));
    assert FromInit(r1) && FromInit(r2);
    assert FromInit(r3) && FromInit(r4);
    assert FromInit(r5) && FromInit(r6);
    assert State(Start(w)) == w;
    assert State(r1) == Apply(w, Begin(Seen(0)));
    assert State(r2) == Apply(State(r1), Answer(Job(JobFound(false))));
    assert State(r3) == Apply(State(r2), Answer(Chain(true)));
    assert State(r4) == Apply(State(r3), Answer(Trigger(info)));
    assert State(r5) == Apply(State(r4), Answer(Latest(Seen(0))));
    assert State(r6) == Apply(State(r5), Answer(Record(Delivered)));
    assert Recorded(w, info) == r6;
    hide State;
    assert State(r3) == w.(op := Running(b, Triggering), rounds := 1);
    var mine := Triggered(b, id, info);
    assert State(r4).op == Running(mine, Reading(w.retries)) && State(r4).hist == w.hist
        && State(r4).calls == [TriggerCall];
    assert State(r5) == State(r4).(op := Running(mine, Recording(w.retries, b)));
    assert Retrack(b.status, mine.status) == mine.status;
  }

  /** A Build to be created whose comment is wanted. */
  predicate Commentable(o: Object) {
    o.spec.hasJobRef && !o.spec.suspend && !o.deleting && o.spec.buildID.None? && o.spec.comment != ""
  }

  /** A canceled build is aborted first; either way it is observed next, and has succeeded meanwhile. */
  lemma {:induction false} SucceedsMeanwhile(w: World, id: Id)
    requires 0 < |w.hist| && w.op == AfterTracked(CopyOf(w, |w.hist| - 1)) && Last(w).status.buildID == Some(id)
    requires id in w.atc.builds && w.atc.builds[id] == Pending
    ensures var w' := Apply(Apply(w, Answer(Abort(true))), Outside(Progress(id, Succeeded)));
            && w'.op == Running(CopyOf(w, |w.hist| - 1), Observing)
            && id in w'.atc.builds && w'.atc.builds[id] == Succeeded && w'.hist == w.hist && w'.alive == w.alive
  {
  }

  /** The comment of a succeeded build fails and the terminal phase is written. */
  lemma {:induction false} CommentLost(w: World, id: Id, info: AtcBuild, rest: int)
    requires 0 < |w.hist| && w.alive && w.op == Running(CopyOf(w, |w.hist| - 1), Observing)
    requires Last(w).status.buildID == Some(id) && NeedsComment(CopyOf(w, |w.hist| - 1))
    requires id in w.atc.builds && w.atc.builds[id] == Succeeded
    ensures var w' := Apply(Apply(Apply(w, Answer(Observe(true, info, rest))), Answer(Comment(false))),
            Answer(Write(Delivered)));
            && w'.op.Idle? && |w'.hist| == |w.hist| + 1 && Finished(w') && NeedsComment(CopyOf(w', |w.hist|))
            && w'.calls == w.calls + [CommentCall(id, Last(w).spec.comment)]
  {
    var b := CopyOf(w, |w.hist| - 1);
    var w1 := Apply(w, Answer(Observe(true, info, rest)));
    var b1 := b.(status := Observed(b.status, Succeeded, info).(rest := rest));
    assert w1 == w.(op := Running(b1, Commenting));
    var w2 := Apply(w1, Answer(Comment(false)));
    assert w2 == CommentStep(w1, b1, false);
    var b2 := WithReady(b1, CommentFailed);
    assert w2.op == Finish(b2, true) && w2.hist == w.hist && w2.alive;
    var w3 := Apply(w2, Answer(Write(Delivered)));
    assert w3.hist == w.hist + [Last(w).(status := b2.status)];
  }

  lemma {:induction false} CommentFailsState(w: World, info: AtcBuild, rest: int)
    requires Init(w) && Commentable(w.hist[0])
    ensures var w' := State(CommentFails(w, info, rest));
            && w'.op.Idle? && |w'.hist| == 3 && Finished(w') && NeedsComment(CopyOf(w', 2))
            && w'.calls != [] && w'.calls[|w'.calls| - 1] == CommentCall(w.atc.next, w.hist[0].spec.comment)
    ensures FromInit(CommentFails(w, info, rest))
  {
    RecordedState(w, info);
    var id := w.atc.next;
    var r0 := Recorded(w, info);
    var r1 := Then(r0, Answer(Abort(true)));
    var r2 := Then(r1, Outside(Progress(id, Succeeded)));
    var r3 := Then(r2, Answer(Observe(true, info, rest)));
    var r4 := Then(r3, Answer(Comment(false)));
    var r5 := Then(r4, Answer(Write(Delivered)));
    assert FromInit(r1) && FromInit(r2);
    assert FromInit(r3) && FromInit(r4) && FromInit(r5);
    hide Apply;
    hide Recorded;
    assert State(r1) == Apply(State(r0), Answer(Abort(true)));
    assert State(r2) == Apply(State(r1), Outside(Progress(id, Succeeded)));
    assert State(r3) == Apply(State(r2), Answer(Observe(true, info, rest)));
    assert State(r4) == Apply(State(r3), Answer(Comment(false)));
    assert State(r5) == Apply(State(r4), Answer(Write(Delivered)));
    assert CommentFails(w, info, rest) == r5;
    hide State;
    SucceedsMeanwhile(State(r0), id);
    CommentLost(State(r2), id, info, rest);
  }

  /**
   The failing case happens: a new Build whose comment call fails in the reconcile that
   sees its build succeed is never sent its comment again, whatever comes later, if reads
   are fresh.
   */
  lemma {:induction false} FailedCommentIsNeverRetried(w: World, info: AtcBuild, rest: int, r': Run)
    requires Init(w) && Commentable(w.hist[0])
    requires ContinuesFresh(CommentFails(w, info, rest), r')
    ensures var r := CommentFails(w, info, rest);
            && FromInit(r) && |State(r).hist| == 3 && NeedsComment(CopyOf(State(r), 2))
            && State(r').calls == State(r).calls && Finished(State(r'))
  {
    CommentFailsState(w, info, rest);
    TerminalIsQuiet(CommentFails(w, info, rest), r');
  }
}
