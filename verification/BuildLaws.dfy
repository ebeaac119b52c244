/**
 What a Build asks for is what the ATC is asked: theorems about calls, created builds and
 persisted objects alone.
 */
module BuildLaws {
  import opened Options
  import opened Protocols
  import opened BuildTypes
  import opened BuildProtocol
  import opened BuildInvariant
  import opened BuildTerminal

  // ---------------------------------------------------------------- every call was asked for

  /** This version asks for the call. */
  predicate Asks(o: Object, c: Call) {
    Active(o) && match c
                 case TriggerCall => o.spec.buildID.None? && o.status.buildID.None?
                 case AbortCall(_) => o.spec.canceled
                 case CommentCall(_, text) => text == o.spec.comment && text != ""
  }

  /** The build was created for the object, or some version names it for adoption. */
  predicate Known(w: World, id: Id) {
    id in w.created || exists i :: 0 <= i < |w.hist| && w.hist[i].spec.buildID == Some(id)
  }

  predicate About(w: World, c: Call) {
    match c
    case TriggerCall => true
    case AbortCall(id) => Known(w, id)
    case CommentCall(id, _) => Known(w, id)
  }

  predicate AskedFor(w: World, c: Call) {
    About(w, c) && exists i :: 0 <= i < |w.hist| && Asks(w.hist[i], c)
  }

  /** Some version to act on had this spec. */
  predicate ReadAs(w: World, spec: Spec) {
    exists i :: 0 <= i < |w.hist| && Active(w.hist[i]) && w.hist[i].spec == spec
  }

  predicate KnownIn(w: World, s: Status) {
    s.buildID.Some? ==> Known(w, s.buildID.value)
  }

  predicate LawOp(w: World, b: Local, pc: Pc) {
    && KnownIn(w, b.status)
    && (!pc.Writing? ==> ReadAs(w, b.spec) && b.spec.hasJobRef)
    && (pc.Triggering? ==> b.spec.buildID.None?)
    && (pc.Commenting? ==> b.spec.comment != "")
    && (pc.Aborting? ==> b.spec.canceled)
  }

  predicate Lawful(w: World) {
    && (forall i :: 0 <= i < |w.hist| ==> KnownIn(w, w.hist[i].status))
    && (forall c :: c in w.calls ==> AskedFor(w, c))
    && (w.created != {} ==> TriggerCall in w.calls)
    && (w.op.Running? ==> LawOp(w, w.op.build, w.op.pc))
  }

  /** More versions and more builds leave everything known and asked for. */
  lemma {:induction false} LawGrows(w: World, w': World)
    requires w.hist <= w'.hist && w.created <= w'.created
    ensures forall id :: Known(w, id) ==> Known(w', id)
    ensures forall s :: KnownIn(w, s) ==> KnownIn(w', s)
    ensures forall c :: AskedFor(w, c) ==> AskedFor(w', c)
    ensures forall spec :: ReadAs(w, spec) ==> ReadAs(w', spec)
  {
    forall id | Known(w, id) ensures Known(w', id) {
      if id !in w.created {
        var i :| 0 <= i < |w.hist| && w.hist[i].spec.buildID == Some(id);
        assert w'.hist[i] == w.hist[i];
      }
    }
    forall c | AskedFor(w, c) ensures AskedFor(w', c) {
      var i :| 0 <= i < |w.hist| && Asks(w.hist[i], c);
      assert w'.hist[i] == w.hist[i];
    }
    forall spec | ReadAs(w, spec) ensures ReadAs(w', spec) {
      var i :| 0 <= i < |w.hist| && Active(w.hist[i]) && w.hist[i].spec == spec;
      assert w'.hist[i] == w.hist[i];
    }
  }

  /** A step that makes no call and creates no build. */
  lemma {:induction false} SilentKeepsLaw(w: World, w': World)
    requires Lawful(w) && 0 < |w.hist| && Extends(w, w') && w'.calls == w.calls && w'.created == w.created
    requires |w'.hist| > |w.hist| ==> KnownIn(w, w'.hist[|w.hist|].status)
    requires w'.op.Running? ==> LawOp(w, w'.op.build, w'.op.pc) || LawOp(w', w'.op.build, w'.op.pc)
    ensures Lawful(w')
  {
    LawGrows(w, w');
  }

  lemma {:induction false} ReadKeepsLaw(w: World, e: Event)
    requires Inv(w) && Lawful(w) && (e.Begin? || e.Crash?)
    ensures Lawful(Apply(w, e))
  {
    StepKeeps(w, e);
    assert 0 < |w.hist|;
    hide Inv;
    var w' := Apply(w, e);
    if w'.op.Running? && w'.op != w.op {
      var i := e.seen.version;
      assert KnownIn(w, w.hist[i].status);
      assert !w'.op.pc.Writing? ==> Active(w.hist[i]);
    }
    SilentKeepsLaw(w, w');
  }

  lemma {:induction false} OutsideKeepsLaw(w: World, o: Outsider)
    requires Inv(w) && Lawful(w)
    ensures Lawful(Apply(w, Outside(o)))
  {
    StepKeeps(w, Outside(o));
    assert 0 < |w.hist|;
    hide Inv;
    assert KnownIn(w, Last(w).status);
    SilentKeepsLaw(w, Apply(w, Outside(o)));
  }

  lemma {:induction false} OwnerKeepsLaw(w: World, b: Local, r: Reply)
    requires Inv(w) && Lawful(w) && w.op == Running(b, SettingOwner)
    ensures Lawful(Apply(w, Answer(r)))
  {
    StepKeeps(w, Answer(r));
    assert OpInv(w, b, SettingOwner) && 0 < |w.hist|;
    hide Inv;
    hide LegalChange;
    hide Known;
    hide ReadAs;
    hide AskedFor;
    assert KnownIn(w, Last(w).status);
    SilentKeepsLaw(w, Apply(w, Answer(r)));
  }

  lemma {:induction false} ChainKeepsLaw(w: World, b: Local, pc: Pc, r: Reply)
    requires Inv(w) && Lawful(w) && w.op == Running(b, pc) && (pc.GettingJob? || pc.ResolvingChain?)
    ensures Lawful(Apply(w, Answer(r)))
  {
    StepKeeps(w, Answer(r));
    assert 0 < |w.hist|;
    hide Inv;
    hide LegalChange;
    hide AskedFor;
    if pc.ResolvingChain? && b.spec.buildID.Some? {
      var i :| 0 <= i < |w.hist| && Active(w.hist[i]) && w.hist[i].spec == b.spec;
      assert Known(w, b.spec.buildID.value);
    }
    hide Known;
    hide ReadAs;
    SilentKeepsLaw(w, Apply(w, Answer(r)));
  }

  lemma {:induction false} TriggerKeepsLaw(w: World, b: Local, r: Reply)
    requires Inv(w) && Lawful(w) && w.op == Running(b, Triggering)
    ensures Lawful(Apply(w, Answer(r)))
  {
    StepKeeps(w, Answer(r));
    var w' := Apply(w, Answer(r));
    LawGrows(w, w');
    assert OpInv(w, b, Triggering);
    assert Asks(w.hist[b.version], TriggerCall);
  }

  lemma {:induction false} LatestKeepsLaw(w: World, b: Local, pc: Pc, r: Reply)
    requires Inv(w) && Lawful(w) && w.op == Running(b, pc) && pc.Reading?
    ensures Lawful(Apply(w, Answer(r)))
  {
    StepKeeps(w, Answer(r));
    assert 0 < |w.hist|;
    hide Inv;
    hide OpInv;
    hide LegalChange;
    hide ReadAs;
    hide Known;
    hide AskedFor;
    SilentKeepsLaw(w, Apply(w, Answer(r)));
  }

  lemma {:induction false} RecordKeepsLaw(w: World, b: Local, pc: Pc, r: Reply)
    requires Inv(w) && Lawful(w) && w.op == Running(b, pc) && pc.Recording?
    ensures Lawful(Apply(w, Answer(r)))
  {
    StepKeeps(w, Answer(r));
    assert 0 < |w.hist|;
    hide Inv;
    hide OpInv;
    hide LegalChange;
    hide ReadAs;
    hide Known;
    hide AskedFor;
    SilentKeepsLaw(w, Apply(w, Answer(r)));
  }

  lemma {:induction false} AbortKeepsLaw(w: World, b: Local, r: Reply)
    requires Inv(w) && Lawful(w) && w.op == Running(b, Aborting)
    ensures Lawful(Apply(w, Answer(r)))
  {
    StepKeeps(w, Answer(r));
    assert b.status.buildID.Some? && 0 < |w.hist|;
    hide Inv;
    hide OpInv;
    hide LegalChange;
    LawGrows(w, Apply(w, Answer(r)));
    var i :| 0 <= i < |w.hist| && Active(w.hist[i]) && w.hist[i].spec == b.spec;
    assert Asks(w.hist[i], AbortCall(b.status.buildID.value));
  }

  lemma {:induction false} CommentKeepsLaw(w: World, b: Local, r: Reply)
    requires Inv(w) && Lawful(w) && w.op == Running(b, Commenting)
    ensures Lawful(Apply(w, Answer(r)))
  {
    StepKeeps(w, Answer(r));
    assert b.status.buildID.Some? && 0 < |w.hist|;
    hide Inv;
    hide OpInv;
    hide LegalChange;
    LawGrows(w, Apply(w, Answer(r)));
    var i :| 0 <= i < |w.hist| && Active(w.hist[i]) && w.hist[i].spec == b.spec;
    assert Asks(w.hist[i], CommentCall(b.status.buildID.value, b.spec.comment));
  }

  lemma {:induction false} LookKeepsLaw(w: World, b: Local, pc: Pc, r: Reply)
    requires Inv(w) && Lawful(w) && w.op == Running(b, pc) && pc.Observing?
    ensures Lawful(Apply(w, Answer(r)))
  {
    StepKeeps(w, Answer(r));
    assert 0 < |w.hist|;
    hide Inv;
    hide OpInv;
    hide LegalChange;
    hide ReadAs;
    hide Known;
    hide AskedFor;
    SilentKeepsLaw(w, Apply(w, Answer(r)));
  }

  lemma {:induction false} WriteKeepsLaw(w: World, b: Local, pc: Pc, r: Reply)
    requires Inv(w) && Lawful(w) && w.op == Running(b, pc) && pc.Writing?
    ensures Lawful(Apply(w, Answer(r)))
  {
    StepKeeps(w, Answer(r));
    assert 0 < |w.hist|;
    hide Inv;
    hide OpInv;
    hide LegalChange;
    hide ReadAs;
    hide Known;
    hide AskedFor;
    SilentKeepsLaw(w, Apply(w, Answer(r)));
  }

  lemma {:induction false} StepKeepsLaw(w: World, e: Event)
    requires Inv(w) && Lawful(w)
    ensures Lawful(Apply(w, e))
  {
    hide Lawful;
    hide Inv;
    if e.Outside? {
      OutsideKeepsLaw(w, e.o);
    } else if !e.Answer? {
      ReadKeepsLaw(w, e);
    } else if w.op.Running? {
      var b, pc := w.op.build, w.op.pc;
      match pc
      case GettingJob => ChainKeepsLaw(w, b, pc, e.reply);
      case SettingOwner => OwnerKeepsLaw(w, b, e.reply);
      case ResolvingChain => ChainKeepsLaw(w, b, pc, e.reply);
      case Triggering => TriggerKeepsLaw(w, b, e.reply);
      case Reading(_) => LatestKeepsLaw(w, b, pc, e.reply);
      case Recording(_, _) => RecordKeepsLaw(w, b, pc, e.reply);
      case Aborting => AbortKeepsLaw(w, b, e.reply);
      case Commenting => CommentKeepsLaw(w, b, e.reply);
      case Observing => LookKeepsLaw(w, b, pc, e.reply);
      case Writing(_, _) => WriteKeepsLaw(w, b, pc, e.reply);
    }
  }

  lemma {:induction false} RunKeepsLaw(r: Run)
    requires FromInit(r)
    ensures Inv(State(r)) && Lawful(State(r))
  {
    RunKeeps(r);
    if r.Then? {
      RunKeepsLaw(r.prev);
      StepKeepsLaw(State(r.prev), r.e);
    }
  }

  /**
   In every run, stale reads included, each call was asked for by a version that has a job
   and is neither suspended, deleting nor finished: a trigger by one that names and tracks no
   build, an abort by a canceled one, a comment by one with that text; and the call is about
   a build that was created for the object or named for adoption.
   */
  lemma {:induction false} CallsAreAskedFor(r: Run, c: Call)
    requires FromInit(r) && c in State(r).calls
    ensures exists i :: 0 <= i < |State(r).hist|
                        && var o := State(r).hist[i];
                        && o.spec.hasJobRef && !o.spec.suspend && !o.deleting
                        && !(o.status.phase.Succeeded? || o.status.phase.Failed?
                             || o.status.phase.Errored? || o.status.phase.Aborted?)
                        && match c
                           case TriggerCall => o.spec.buildID.None? && o.status.buildID.None?
                           case AbortCall(_) => o.spec.canceled
                           case CommentCall(_, text) => o.spec.comment == text && text != ""
    ensures !c.TriggerCall? ==>
              || c.id in State(r).created
              || exists i :: 0 <= i < |State(r).hist| && State(r).hist[i].spec.buildID == Some(c.id)
  {
    RunKeepsLaw(r);
    var w := State(r);
    assert AskedFor(w, c);
    var i :| 0 <= i < |w.hist| && Asks(w.hist[i], c);
    assert w.hist[i].spec.hasJobRef;
  }

  /**
   A Build that names build k for adoption in every version never has one created for it,
   and never records another: in no run, however stale its reads.
   */
  lemma {:induction false} AdoptionCreatesNothing(r: Run, k: Id)
    requires FromInit(r)
    requires forall i :: 0 <= i < |State(r).hist| ==> State(r).hist[i].spec.buildID == Some(k)
    ensures TriggerCall !in State(r).calls && State(r).created == {}
    ensures forall i :: 0 <= i < |State(r).hist| ==>
                          var id := State(r).hist[i].status.buildID; id.None? || id == Some(k)
    ensures forall c :: c in State(r).calls ==> c.id == k
  {
    RunKeepsLaw(r);
    var w := State(r);
    assert TriggerCall in w.calls ==> AskedFor(w, TriggerCall);
    forall i | 0 <= i < |w.hist| ensures w.hist[i].status.buildID.None? || w.hist[i].status.buildID == Some(k) {
      assert KnownIn(w, w.hist[i].status);
    }
    forall c | c in w.calls ensures c.id == k {
      assert AskedFor(w, c);
    }
  }

  // ---------------------------------------------------------------- an undisturbed reconcile

  /** Read of the newest version; the job is found with the owner reference in place, and the chain is ready. */
  function Started(r: Run): Run {
    var newest := if State(r).hist == [] then 0 else |State(r).hist| - 1;
    Then(Then(Then(r, Begin(Seen(newest))), Answer(Job(JobFound(false)))), Answer(Chain(true)))
  }

  /**
   The calls up to the look at the build: a trigger that succeeds and is recorded at once,
   and an abort. A call that the reconcile does not make has no effect.
   */
  function UpToLook(r: Run, t: AtcBuild): Run {
    var newest := if State(r).hist == [] then 0 else |State(r).hist| - 1;
    var recorded := Then(Then(Then(Started(r), Answer(Trigger(t))), Answer(Latest(Seen(newest)))),
                         Answer(Record(Delivered)));
    Then(recorded, Answer(Abort(true)))
  }

  /** A whole reconcile in which nobody else acts, every call succeeds and every write lands. */
  function Undisturbed(r: Run, t: AtcBuild, s: AtcBuild, rest: int): Run {
    Then(Then(Then(UpToLook(r, t), Answer(Observe(true, s, rest))), Answer(Comment(true))), Answer(Write(Delivered)))
  }

  /** Between two reconciles of an object that exists. */
  predicate Resting(w: World) {
    w.op.Idle? && w.alive && 0 < |w.hist|
  }

  /** The build the object is about: the tracked one, else the one to adopt, else the next one created. */
  function Subject(o: Object, next: Id): Id {
    match o.status.buildID
    case Some(id) => id
    case None => match o.spec.buildID
                 case Some(id) => id
                 case None => next
  }

  lemma {:induction false} StartedState(r: Run)
    requires Resting(State(r))
    ensures var w, o := State(r), Last(State(r));
            var b := CopyOf(w, |w.hist| - 1);
            State(Started(r)) == w.(rounds := w.rounds + 1, op :=
              if o.spec.suspend then Running(WithReady(b, Suspended), Writing(Done, Error))
              else if o.deleting || IsTerminal(o.status.phase) then Idle(Done)
              else if !o.spec.hasJobRef then Running(WithReady(b, NoJobRef), Writing(Done, Done))
              else AfterChain(b, true))
  {
    var w := State(r);
    var r1 := Then(r, Begin(Seen(|w.hist| - 1)));
    var r2 := Then(r1, Answer(Job(JobFound(false))));
    var r3 := Then(r2, Answer(Chain(true)));
    assert Started(r) == r3;
    assert State(r1) == Apply(w, Begin(Seen(|w.hist| - 1)));
    assert State(r2) == Apply(State(r1), Answer(Job(JobFound(false))));
    assert State(r3) == Apply(State(r2), Answer(Chain(true)));
  }

  /** A build that is already tracked or to be adopted goes straight on. */
  lemma {:induction false} GoesOn(w: World, b: Local, t: AtcBuild, n: nat)
    requires 0 < |w.hist| && w.op == AfterTracked(b) && b.status.buildID.Some?
    ensures var w3 := Apply(Apply(Apply(w, Answer(Trigger(t))), Answer(Latest(Seen(n)))), Answer(Record(Delivered)));
            var w4 := Apply(w3, Answer(Abort(true)));
            w4 == w.(op := Running(b, Observing),
            calls := w.calls + if b.spec.canceled then [AbortCall(b.status.buildID.value)] else [])
  {
    assert w.calls + [] == w.calls;
  }

  /** A new build is created and recorded before it is looked at. */
  lemma {:induction false} IsRecorded(w: World, b: Local, t: AtcBuild)
    requires 0 < |w.hist| && w.alive && 0 < w.retries
    requires b == CopyOf(w, |w.hist| - 1) && b.status.buildID.None? && w.op == Running(b, Triggering)
    ensures var n := |w.hist| - 1;
            var w3 := Apply(Apply(Apply(w, Answer(Trigger(t))), Answer(Latest(Seen(n)))), Answer(Record(Delivered)));
            var mine := Triggered(b, w.atc.next, t).status;
            w3 == CreateBuild(w).(hist := w.hist + [Last(w).(status := mine)], calls := w.calls + [TriggerCall],
            op := AfterTracked(b.(version := |w.hist|, status := mine)))
  {
    var n := |w.hist| - 1;
    var mine := Triggered(b, w.atc.next, t);
    var w1 := Apply(w, Answer(Trigger(t)));
    assert w1 == CreateBuild(w).(calls := w.calls + [TriggerCall], op := Running(mine, Reading(w.retries)));
    var w2 := Apply(w1, Answer(Latest(Seen(n))));
    assert w2 == w1.(op := Running(mine, Recording(w.retries, b)));
    assert Retrack(b.status, mine.status) == mine.status;
    var w3 := Apply(w2, Answer(Record(Delivered)));
    assert w3 == RecordStep(w2, mine, w.retries, b, Delivered);
    hide AfterTracked;
  }

  /** The copy that is looked at: a new build's tracking fields are persisted by then. */
  function Looked(w: World, t: AtcBuild): (Local, World)
    requires 0 < |w.hist|
  {
    var o := Last(w);
    var id := Subject(o, w.atc.next);
    if IsNew(o) then
      var s := Triggered(CopyOf(w, |w.hist| - 1), id, t).status;
      (Local(|w.hist|, o.spec, o.deleting, s),
       CreateBuild(w).(hist := w.hist + [o.(status := s)], calls := w.calls + [TriggerCall]))
    else (CopyOf(w, |w.hist| - 1).(status := o.status.(buildID := Some(id))), w)
  }

  lemma {:induction false} UpToLookWorld(w: World, t: AtcBuild)
    requires Resting(w.(op := Idle(Done))) && 0 < w.retries
    requires w.op == AfterChain(CopyOf(w, |w.hist| - 1), true)
    ensures var n := |w.hist| - 1;
            var w3 := Apply(Apply(Apply(w, Answer(Trigger(t))), Answer(Latest(Seen(n)))), Answer(Record(Delivered)));
            var (b, v) := Looked(w, t);
            Apply(w3, Answer(Abort(true))) == v.(op := Running(b, Observing), calls := v.calls +
            if Last(w).spec.canceled then [AbortCall(Subject(Last(w), w.atc.next))] else [])
  {
    var n, o := |w.hist| - 1, Last(w);
    var c := CopyOf(w, n);
    var (b, v) := Looked(w, t);
    if IsNew(o) {
      IsRecorded(w, c, t);
      assert v.calls + [] == v.calls;
    } else {
      GoesOn(w, b, t, n);
    }
  }

  lemma {:induction false} UpToLookState(r: Run, t: AtcBuild)
    requires Resting(State(r)) && 0 < State(r).retries && Active(Last(State(r)))
    ensures var w, w' := State(r), State(UpToLook(r, t));
            var (b, v) := Looked(w, t);
            w' == v.(rounds := w.rounds + 1, op := Running(b, Observing), calls := v.calls +
            if Last(w).spec.canceled then [AbortCall(Subject(Last(w), w.atc.next))] else [])
  {
    StartedState(r);
    var w, w0 := State(r), State(Started(r));
    hide Apply;
    var r1 := Then(Started(r), Answer(Trigger(t)));
    var r2 := Then(r1, Answer(Latest(Seen(|w.hist| - 1))));
    var r3 := Then(r2, Answer(Record(Delivered)));
    assert State(r1) == Apply(w0, Answer(Trigger(t)));
    assert State(r2) == Apply(State(r1), Answer(Latest(Seen(|w.hist| - 1))));
    assert State(r3) == Apply(State(r2), Answer(Record(Delivered)));
    assert State(UpToLook(r, t)) == Apply(State(r3), Answer(Abort(true)));
    hide State;
    UpToLookWorld(w0, t);
  }

  /** The rest of a reconcile that looks at copy b of the newest version. */
  lemma {:induction false} LookedAt(w: World, b: Local, s: AtcBuild, rest: int)
    requires 0 < |w.hist| && w.alive && w.op == Running(b, Observing) && b.status.buildID.Some?
    requires b.version == |w.hist| - 1 && b.spec == Last(w).spec && !IsTerminal(b.status.phase)
    ensures var w' := Apply(Apply(Apply(w, Answer(Observe(true, s, rest))), Answer(Comment(true))),
            Answer(Write(Delivered)));
            var id := b.status.buildID.value;
            if id in w.atc.builds
            then var phase := w.atc.builds[id];
                 w' == w.(hist := w.hist + [Last(w).(status := Reported(b, phase, s, rest))],
                 calls := w.calls + (if NeedsComment(b) then [CommentCall(id, b.spec.comment)] else []),
                 op := Idle(if IsTerminal(phase) then Done else Watch(id)))
            else w' == w.(hist := w.hist + [Last(w).(status := Vanished(b.status))], op := Idle(Requeue(5)))
  {
    var id := b.status.buildID.value;
    var w1 := Apply(w, Answer(Observe(true, s, rest)));
    var w2 := Apply(w1, Answer(Comment(true)));
    if id in w.atc.builds {
      var b1 := b.(status := Observed(b.status, w.atc.builds[id], s).(rest := rest));
      assert w1 == w.(op := AfterObserved(b1));
      if NeedsComment(b) {
        var b2 := b1.(status := b1.status.(comment := b.spec.comment));
        assert w2 == w.(calls := w.calls + [CommentCall(id, b.spec.comment)], op := Finish(b2, false));
      } else {
        assert w2 == w.(op := Finish(b1, false));
        assert w.calls + [] == w.calls;
      }
    }
  }

  /** What the look at a build that exists leaves in the status, its comment sent if one was wanted. */
  function Reported(b: Local, phase: Phase, s: AtcBuild, rest: int): Status {
    Observed(b.status, phase, s).(rest := rest, ready := Tracked,
    comment := if b.spec.comment != "" then b.spec.comment else b.status.comment)
  }

  lemma {:induction false} UndisturbedState(r: Run, t: AtcBuild, s: AtcBuild, rest: int)
    requires Resting(State(r)) && 0 < State(r).retries && Active(Last(State(r)))
    ensures var w := State(UpToLook(r, t));
            State(Undisturbed(r, t, s, rest)) ==
            Apply(Apply(Apply(w, Answer(Observe(true, s, rest))), Answer(Comment(true))), Answer(Write(Delivered)))
  {
    hide Apply;
    hide UpToLook;
    var r1 := Then(UpToLook(r, t), Answer(Observe(true, s, rest)));
    var r2 := Then(r1, Answer(Comment(true)));
    assert State(r1) == Apply(State(UpToLook(r, t)), Answer(Observe(true, s, rest)));
    assert State(r2) == Apply(State(r1), Answer(Comment(true)));
    assert State(Undisturbed(r, t, s, rest)) == Apply(State(r2), Answer(Write(Delivered)));
  }

  lemma {:induction false} UndisturbedOutcome(r: Run, t: AtcBuild, s: AtcBuild, rest: int)
    requires FromInit(r) && Resting(State(r)) && Active(Last(State(r)))
    ensures var w := State(r);
            var (b, v) := Looked(w, t);
            var id := Subject(Last(w), w.atc.next);
            var calls := v.calls + if b.spec.canceled then [AbortCall(id)] else [];
            State(Undisturbed(r, t, s, rest)) ==
            if id in v.atc.builds
            then v.(hist := v.hist + [Last(v).(status := Reported(b, v.atc.builds[id], s, rest))],
                 calls := calls + (if NeedsComment(b) then [CommentCall(id, b.spec.comment)] else []),
                 op := Idle(if IsTerminal(v.atc.builds[id]) then Done else Watch(id)), rounds := w.rounds + 1)
            else v.(hist := v.hist + [Last(v).(status := Vanished(b.status))], calls := calls,
                 op := Idle(Requeue(5)), rounds := w.rounds + 1)
  {
    RunKeeps(r);
    UpToLookState(r, t);
    UndisturbedState(r, t, s, rest);
    var w1 := State(UpToLook(r, t));
    var (b, v) := Looked(State(r), t);
    hide State;
    hide UpToLook;
    hide Undisturbed;
    hide Apply;
    LookedAt(w1, b, s, rest);
  }

  /**
   What an undisturbed reconcile of an active Build asks of the ATC, whatever happened
   before. A build is triggered exactly if none is tracked or named for adoption; an abort is
   sent exactly if the Build is canceled; a comment exactly if one is wanted, not recorded
   and the build still exists. It ends by asking to be called again soon if the build has
   vanished, for good if it has ended, and else when a watcher sees it end.
   */
  lemma {:induction false} UndisturbedCalls(r: Run, t: AtcBuild, s: AtcBuild, rest: int)
    requires FromInit(r) && Resting(State(r)) && Active(Last(State(r)))
    ensures var w, w', o := State(r), State(Undisturbed(r, t, s, rest)), Last(State(r));
            var unnamed := o.status.buildID.None? && o.spec.buildID.None?;
            var id := if unnamed then w.atc.next
                      else if o.status.buildID.Some? then o.status.buildID.value else o.spec.buildID.value;
            var there := unnamed || id in w.atc.builds;
            var comment := there && o.spec.comment != "" && o.spec.comment != o.status.comment;
            var phase := if unnamed then Pending else if there then w.atc.builds[id] else Unknown;
            && w'.calls == w.calls
                           + (if unnamed then [TriggerCall] else [])
                           + (if o.spec.canceled then [AbortCall(id)] else [])
                           + (if comment then [CommentCall(id, o.spec.comment)] else [])
            && w'.created == (if unnamed then w.created + {id} else w.created)
            && w'.atc.builds == (if unnamed then w.atc.builds[id := Pending] else w.atc.builds)
            && w'.op == Idle(if !there then Requeue(5)
                             else if phase.Succeeded? || phase.Failed? || phase.Errored? || phase.Aborted? then Done
                             else Watch(id))
  {
    UndisturbedOutcome(r, t, s, rest);
    var w := State(r);
    hide State;
    hide Undisturbed;
    hide Reported;
    hide FromInit;
    assert w.calls + [] == w.calls;
  }

  /**
   What the same reconcile persists: the tracking fields of a build just created at once;
   then either the reset of a build that has vanished, or the ATC's view of the build with
   the comment. Nothing else of the object changes.
   */
  lemma {:induction false} UndisturbedWrites(r: Run, t: AtcBuild, s: AtcBuild, rest: int)
    requires FromInit(r) && Resting(State(r)) && Active(Last(State(r)))
    ensures var w, w', o := State(r), State(Undisturbed(r, t, s, rest)), Last(State(r));
            var unnamed := o.status.buildID.None? && o.spec.buildID.None?;
            var id := Subject(o, w.atc.next);
            var there := unnamed || id in w.atc.builds;
            var mid := if unnamed then o.status.(
                         buildID := Some(id), buildName := t.name, apiURL := t.apiURL,
                         startTime := if t.startTime > 0 then Some(t.startTime) else o.status.startTime,
                         rerunOf := if o.spec.rerunOf != "" then o.spec.rerunOf else o.status.rerunOf)
                       else o.status.(buildID := Some(id));
            var last := if there then mid.(
                          phase := if unnamed then Pending else w.atc.builds[id], rest := rest, ready := Tracked,
                          buildName := if s.name != "" then s.name else mid.buildName,
                          apiURL := if s.apiURL != "" then s.apiURL else mid.apiURL,
                          startTime := if s.startTime > 0 then Some(s.startTime) else mid.startTime,
                          comment := if o.spec.comment != "" then o.spec.comment else o.status.comment)
                        else mid.(buildID := None, buildName := "", phase := Unknown);
            && w'.hist == w.hist + (if unnamed then [o.(status := mid)] else []) + [o.(status := last)]
            && Resting(w')
  {
    UndisturbedOutcome(r, t, s, rest);
    var w := State(r);
    hide State;
    hide Undisturbed;
    hide FromInit;
    assert w.hist + [] == w.hist;
  }

  /** An answer to a call that nobody waits for. */
  lemma {:induction false} Unasked(w: World, r: Reply)
    requires w.op.Idle? || w.op.pc.Writing?
    ensures !r.Write? || w.op.Idle? ==> Apply(w, Answer(r)) == w
  {
  }

  lemma {:induction false} UndisturbedStill(r: Run, t: AtcBuild, s: AtcBuild, rest: int)
    requires Resting(State(r)) && (State(Started(r)).op.Idle? || State(Started(r)).op.pc.Writing?)
    ensures State(Undisturbed(r, t, s, rest)) == Apply(State(Started(r)), Answer(Write(Delivered)))
  {
    var w0, n := State(Started(r)), |State(r).hist| - 1;
    hide Apply;
    hide Started;
    var r1 := Then(Started(r), Answer(Trigger(t)));
    var r2 := Then(r1, Answer(Latest(Seen(n))));
    var r3 := Then(r2, Answer(Record(Delivered)));
    var r5 := Then(UpToLook(r, t), Answer(Observe(true, s, rest)));
    var r6 := Then(r5, Answer(Comment(true)));
    Unasked(w0, Trigger(t));
    assert State(r1) == w0;
    Unasked(w0, Latest(Seen(n)));
    assert State(r2) == w0;
    Unasked(w0, Record(Delivered));
    assert State(r3) == w0;
    Unasked(w0, Abort(true));
    assert State(UpToLook(r, t)) == w0;
    Unasked(w0, Observe(true, s, rest));
    assert State(r5) == w0;
    Unasked(w0, Comment(true));
    assert State(r6) == w0;
  }

  /** The only write of a reconcile that goes no further. */
  lemma {:induction false} RefusalWritten(w: World, b: Local, onErr: Verdict)
    requires 0 < |w.hist| && w.alive && w.op == Running(b, Writing(Done, onErr)) && b.version == |w.hist| - 1
    ensures Apply(w, Answer(Write(Delivered))) ==
            w.(hist := w.hist + [Last(w).(status := b.status)], op := Idle(Done))
  {
  }

  /** An undisturbed reconcile of any other Build asks the ATC for nothing. */
  lemma {:induction false} UndisturbedInactive(r: Run, t: AtcBuild, s: AtcBuild, rest: int)
    requires Resting(State(r)) && !Active(Last(State(r)))
    ensures var w, w', o := State(r), State(Undisturbed(r, t, s, rest)), Last(State(r));
            && w'.calls == w.calls && w'.created == w.created && w'.op == Idle(Done)
            && w'.hist == w.hist + (if o.spec.suspend then [o.(status := o.status.(ready := Suspended))]
                                    else if o.deleting || IsTerminal(o.status.phase) then []
                                    else [o.(status := o.status.(ready := NoJobRef))])
  {
    hide State;
    hide Apply;
    hide Started;
    hide Undisturbed;
    hide AfterChain;
    StartedState(r);
    UndisturbedStill(r, t, s, rest);
    var w, w0, o := State(r), State(Started(r)), Last(State(r));
    var b := CopyOf(w, |w.hist| - 1);
    if o.spec.suspend {
      RefusalWritten(w0, WithReady(b, Suspended), Error);
    } else if o.deleting || IsTerminal(o.status.phase) {
      Unasked(w0, Write(Delivered));
      assert w.hist + [] == w.hist;
    } else {
      RefusalWritten(w0, WithReady(b, NoJobRef), Done);
    }
  }

  // ---------------------------------------------------------------- abort, adoption, comment, end

  /**
   The abort comes before the look at the build: by then an undisturbed reconcile of a
   tracked, unfinished Build has sent exactly one if the Build is canceled, of the build
   recorded, and none otherwise.
   */
  lemma {:induction false} CanceledIsAborted(r: Run, t: AtcBuild, id: Id)
    requires FromInit(r) && Resting(State(r)) && Last(State(r)).status.buildID == Some(id)
    requires var o := Last(State(r));
             && o.spec.hasJobRef && !o.spec.suspend && !o.deleting
             && (o.status.phase.Unknown? || o.status.phase.Pending? || o.status.phase.Started?)
    ensures var w, w' := State(r), State(UpToLook(r, t));
            && w'.calls == w.calls + (if Last(w).spec.canceled then [AbortCall(id)] else [])
            && w'.op.Running? && w'.op.pc.Observing? && w'.op.build.status == Last(w).status && w'.hist == w.hist
  {
    RunKeeps(r);
    UpToLookState(r, t);
  }

  /** An undisturbed reconcile of a Build that names build k, if the ATC has it, records k and creates nothing. */
  lemma {:induction false} AdoptionIsRecorded(r: Run, t: AtcBuild, s: AtcBuild, rest: int, k: Id)
    requires FromInit(r) && Resting(State(r)) && Active(Last(State(r)))
    requires Last(State(r)).status.buildID.None? && Last(State(r)).spec.buildID == Some(k)
    ensures var w, w' := State(r), State(Undisturbed(r, t, s, rest));
            && |w'.hist| == |w.hist| + 1 && w'.created == w.created
            && Last(w').status.buildID == (if k in w.atc.builds then Some(k) else None)
            && w.calls <= w'.calls && TriggerCall !in w'.calls[|w.calls|..]
  {
    UndisturbedCalls(r, t, s, rest);
    UndisturbedWrites(r, t, s, rest);
    hide State;
    hide Undisturbed;
    hide FromInit;
  }

  lemma {:induction false} UndisturbedFromInit(r: Run, t: AtcBuild, s: AtcBuild, rest: int)
    requires FromInit(r)
    ensures FromInit(Undisturbed(r, t, s, rest))
  {
    hide Apply;
    var u := Undisturbed(r, t, s, rest);
    var looked, started := u.prev.prev.prev, u.prev.prev.prev.prev.prev.prev.prev;
    assert looked == UpToLook(r, t) && started == Started(r) && started.prev.prev.prev == r;
    assert FromInit(started.prev.prev) && FromInit(started.prev) && FromInit(started);
    assert FromInit(looked.prev.prev.prev) && FromInit(looked.prev.prev);
    assert FromInit(looked.prev) && FromInit(looked);
    assert FromInit(u.prev.prev) && FromInit(u.prev) && FromInit(u);
  }

  /** A comment that was sent is not sent again: the next undisturbed reconcile makes no comment call. */
  lemma {:induction false} CommentIsSentOnce(r: Run, t: AtcBuild, s: AtcBuild, rest: int,
                                             t2: AtcBuild, s2: AtcBuild, rest2: int)
    requires FromInit(r) && Resting(State(r)) && Active(Last(State(r)))
    requires var o := Last(State(r)); IsNew(o) || Subject(o, State(r).atc.next) in State(r).atc.builds
    ensures var r1 := Undisturbed(r, t, s, rest);
            var r2 := Undisturbed(r1, t2, s2, rest2);
            && State(r1).calls <= State(r2).calls
            && forall c :: c in State(r2).calls[|State(r1).calls|..] ==> !c.CommentCall?
  {
    var r1 := Undisturbed(r, t, s, rest);
    UndisturbedFromInit(r, t, s, rest);
    UndisturbedWrites(r, t, s, rest);
    if Active(Last(State(r1))) {
      UndisturbedCalls(r1, t2, s2, rest2);
    } else {
      UndisturbedInactive(r1, t2, s2, rest2);
    }
    hide State;
    hide Undisturbed;
    hide FromInit;
  }

  /**
   The phases that end a Build are succeeded, failed, errored and aborted. Each of them, once
   persisted, stays in every continuation, and an undisturbed reconcile of such a Build asks
   for nothing; one of an unsuspended Build with a job in any other phase looks at its build.
   */
  lemma {:induction false} FourPhasesEnd(r: Run, r': Run, t: AtcBuild, s: AtcBuild, rest: int)
    requires FromInit(r) && 0 < |State(r).hist|
    ensures var phase := Last(State(r)).status.phase;
            phase.Succeeded? || phase.Failed? || phase.Errored? || phase.Aborted? ==>
              && (Continues(r, r') ==> 0 < |State(r').hist| && Last(State(r')).status.phase == phase)
              && (Resting(State(r)) ==> State(Undisturbed(r, t, s, rest)).calls == State(r).calls)
    ensures var o := Last(State(r));
            && Resting(State(r)) && o.spec.hasJobRef && !o.spec.suspend && !o.deleting
            && (o.status.phase.Unknown? || o.status.phase.Pending? || o.status.phase.Started?) ==>
              var op := State(UpToLook(r, t)).op; op.Running? && op.pc.Observing?
  {
    RunKeeps(r);
    if IsTerminal(Last(State(r)).status.phase) {
      if Continues(r, r') {
        TerminalIsAbsorbing(r, r');
      }
      if Resting(State(r)) {
        UndisturbedInactive(r, t, s, rest);
      }
    } else if Resting(State(r)) && Active(Last(State(r))) {
      UpToLookState(r, t);
    }
  }
}
