/**
 What every event of the build protocol keeps, whatever is stale, lost or
 interleaved: which status changes can ever be persisted.
 */
module BuildInvariant {
  import opened Options
  import opened Protocols
  import opened BuildTypes
  import opened BuildProtocol

  /** A terminal phase in a status is the phase the ATC still reports, if it still has the build. */
  predicate Faithful(s: Status, atc: Atc) {
    IsTerminal(s.phase) ==>
      && s.buildID.Some? && s.buildID.value < atc.next
      && (s.buildID.value in atc.builds ==> atc.builds[s.buildID.value] == s.phase)
  }

  predicate Kept(before: Status, after: Status) {
    after.buildID == before.buildID && (IsTerminal(before.phase) ==> after.phase == before.phase)
  }

  predicate FirstSet(before: Status, after: Status) {
    before.buildID.None? && after.buildID.Some?
  }

  predicate Reset(before: Status, after: Status) {
    before.buildID.Some? && !IsTerminal(before.phase) && after == Vanished(before)
  }

  /** The only changes of buildID and of a terminal phase that can be persisted. */
  predicate LegalChange(before: Status, after: Status) {
    Kept(before, after) || FirstSet(before, after) || Reset(before, after)
  }

  predicate Early(pc: Pc) {
    pc.GettingJob? || pc.SettingOwner? || pc.ResolvingChain? || pc.Triggering?
  }

  /** How the in-memory copy relates to the persisted object it was read from. */
  predicate OpInv(w: World, b: Local, pc: Pc) {
    && b.version < |w.hist|
    && Faithful(b.status, w.atc)
    && var base := w.hist[b.version];
    && (Early(pc) ==> b.spec == base.spec && b.deleting == base.deleting && b.status == base.status
                      && !IsTerminal(b.status.phase) && !b.deleting && !b.spec.suspend)
    && (pc.Triggering? ==> b.status.buildID.None?)
    && (pc.Reading? || pc.Recording? ==> b.status.buildID.Some? && b.status.buildID.value in w.created)
    && (pc.Reading? ==> 1 <= pc.tries)
    && (pc.Recording? ==> 1 <= pc.tries && pc.latest.version < |w.hist|
                          && pc.latest == CopyOf(w, pc.latest.version) && pc.latest.status.buildID.None?)
    && (pc.Aborting? || pc.Observing? || pc.Commenting? ==>
          b.status.buildID.Some? && (Kept(base.status, b.status) || FirstSet(base.status, b.status)))
    && (pc.Aborting? || pc.Observing? ==> b.status == base.status.(buildID := b.status.buildID))
    && (pc.Writing? ==> LegalChange(base.status, b.status))
  }

  ghost predicate Inv(w: World) {
    && 0 < |w.hist| && 0 < w.retries
    && (forall id :: id in w.created ==> id < w.atc.next)
    && (forall id :: id in w.atc.builds ==> id < w.atc.next)
    && (forall i :: 0 <= i < |w.hist| ==> Faithful(w.hist[i].status, w.atc))
    && (forall i :: 0 <= i < |w.hist| - 1 ==> LegalChange(w.hist[i].status, w.hist[i + 1].status))
    && (w.op.Running? ==> OpInv(w, w.op.build, w.op.pc))
  }

  /** One event persists at most one object, and only as a legal change. */
  predicate Extends(w: World, w': World)
    requires 0 < |w.hist|
  {
    || w'.hist == w.hist
    || (|w'.hist| == |w.hist| + 1 && w'.hist[..|w.hist|] == w.hist
        && LegalChange(Last(w).status, w'.hist[|w.hist|].status))
  }

  lemma {:induction false} PutKeeps(w: World, version: nat, o: Object, fault: Fault)
    requires Inv(w) && version < |w.hist|
    requires Fits(w, version) ==> Faithful(o.status, w.atc) && LegalChange(Last(w).status, o.status)
    ensures var (w', r) := Put(w, version, o, fault);
            Inv(w'.(op := Idle(Done))) && Extends(w, w')
  {
  }

  lemma {:induction false} BeginKeeps(w: World, seen: Snapshot)
    requires Inv(w)
    ensures Inv(BeginStep(w, seen)) && Extends(w, BeginStep(w, seen))
  {
  }

  lemma {:induction false} OwnerKeeps(w: World, b: Local, fault: Fault)
    requires Inv(w) && w.op == Running(b, SettingOwner)
    ensures Inv(OwnerStep(w, b, fault)) && Extends(w, OwnerStep(w, b, fault))
  {
    PutKeeps(w, b.version, Last(w), fault);
  }

  lemma {:induction false} TriggerKeeps(w: World, b: Local, info: AtcBuild, created: bool)
    requires Inv(w) && w.op == Running(b, Triggering)
    ensures Inv(TriggerStep(w, b, info)) && Extends(w, TriggerStep(w, b, info))
    ensures Inv(TriggerFailStep(w, b, created)) && Extends(w, TriggerFailStep(w, b, created))
  {
  }

  lemma {:induction false} OpKeeps(w: World, b: Local, pc: Pc)
    requires Inv(w) && OpInv(w, b, pc)
    ensures Inv(w.(op := Running(b, pc))) && Extends(w, w.(op := Running(b, pc)))
  {
  }

  lemma {:induction false} LatestKeepsOp(w: World, b: Local, tries: nat, seen: Snapshot)
    requires OpInv(w, b, Reading(tries))
    requires forall i :: 0 <= i < |w.hist| ==> Faithful(w.hist[i].status, w.atc)
    ensures var w' := LatestStep(w, b, tries, seen);
            w' == w.(op := w'.op) && (w'.op.Running? ==> OpInv(w, w'.op.build, w'.op.pc))
  {
  }

  lemma {:induction false} LatestKeeps(w: World, b: Local, tries: nat, seen: Snapshot)
    requires Inv(w) && w.op == Running(b, Reading(tries))
    ensures Inv(LatestStep(w, b, tries, seen)) && Extends(w, LatestStep(w, b, tries, seen))
  {
    LatestKeepsOp(w, b, tries, seen);
    hide OpInv;
    hide LegalChange;
    var w' := LatestStep(w, b, tries, seen);
    if w'.op.Running? {
      OpKeeps(w, w'.op.build, w'.op.pc);
    }
  }

  lemma {:induction false} RecordKeeps(w: World, b: Local, tries: nat, latest: Local, fault: Fault)
    requires Inv(w) && w.op == Running(b, Recording(tries, latest))
    ensures Inv(RecordStep(w, b, tries, latest, fault)) && Extends(w, RecordStep(w, b, tries, latest, fault))
  {
    var tracked := Retrack(latest.status, b.status);
    var o := Last(w).(status := tracked);
    assert FirstSet(w.hist[latest.version].status, tracked);
    PutKeeps(w, latest.version, o, fault);
    var (w', r) := Put(w, latest.version, o, fault);
    if r.Ok? {
      assert w'.hist[|w.hist|].status == tracked;
    }
  }

  lemma {:induction false} CallKeepsOp(w: World, b: Local, r: Reply)
    ensures OpInv(w, b, Aborting) ==> OpInv(w, b, Observing) && b.status.buildID.Some?
    ensures r.Comment? && OpInv(w, b, Commenting) ==>
              var op := CommentStep(w, b, r.ok).op; op.Running? && OpInv(w, op.build, op.pc)
  {
  }

  lemma {:induction false} CallsAreFree(w: World, calls: seq<Call>)
    requires Inv(w)
    ensures Inv(w.(calls := calls)) && Extends(w, w.(calls := calls))
  {
  }

  lemma {:induction false} CallKeeps(w: World, b: Local, r: Reply)
    requires Inv(w)
    ensures w.op == Running(b, Aborting) ==> Inv(AbortStep(w, b)) && Extends(w, AbortStep(w, b))
    ensures r.Comment? && w.op == Running(b, Commenting) ==>
              Inv(CommentStep(w, b, r.ok)) && Extends(w, CommentStep(w, b, r.ok))
  {
    CallKeepsOp(w, b, r);
    hide OpInv;
    if w.op == Running(b, Aborting) {
      OpKeeps(w, b, Observing);
      CallsAreFree(w.(op := Running(b, Observing)), AbortStep(w, b).calls);
    } else if r.Comment? && w.op == Running(b, Commenting) {
      var w' := CommentStep(w, b, r.ok);
      OpKeeps(w, w'.op.build, w'.op.pc);
      CallsAreFree(w.(op := w'.op), w'.calls);
    }
  }

  lemma {:induction false} ObserveKeepsOp(w: World, b: Local, r: Reply)
    requires OpInv(w, b, Observing) && r.Observe? && Faithful(w.hist[b.version].status, w.atc)
    requires forall id :: id in w.atc.builds ==> id < w.atc.next
    ensures var w' := ObserveStep(w, b, r);
            w'.op.Running? && w' == w.(op := w'.op) && OpInv(w, w'.op.build, w'.op.pc)
  {
  }

  lemma {:induction false} ObserveKeeps(w: World, b: Local, r: Reply)
    requires Inv(w) && r.Observe? && w.op == Running(b, Observing)
    ensures Inv(ObserveStep(w, b, r)) && Extends(w, ObserveStep(w, b, r))
  {
    assert OpInv(w, b, Observing);
    assert Faithful(w.hist[b.version].status, w.atc);
    ObserveKeepsOp(w, b, r);
    hide Inv;
    hide OpInv;
    var w' := ObserveStep(w, b, r);
    OpKeeps(w, w'.op.build, w'.op.pc);
  }

  lemma {:induction false} WriteKeeps(w: World, b: Local, onOk: Verdict, onErr: Verdict, fault: Fault)
    requires Inv(w) && w.op == Running(b, Writing(onOk, onErr))
    ensures Inv(WriteStep(w, b, onOk, onErr, fault)) && Extends(w, WriteStep(w, b, onOk, onErr, fault))
  {
    PutKeeps(w, b.version, Last(w).(status := b.status), fault);
  }

  lemma {:induction false} EditKeeps(w: World, o: Outsider)
    requires Inv(w) && o.Edit?
    ensures Inv(OutsideStep(w, o)) && Extends(w, OutsideStep(w, o))
  {
    assert Faithful(Last(w).status, w.atc);
  }

  lemma {:induction false} OutsideKeeps(w: World, o: Outsider)
    requires Inv(w)
    ensures Inv(OutsideStep(w, o)) && Extends(w, OutsideStep(w, o))
  {
    if o.Edit? {
      EditKeeps(w, o);
    }
  }

  lemma {:induction false} EarlyKeeps(w: World, b: Local, pc: Pc, r: Reply)
    requires Inv(w) && w.op == Running(b, pc) && (pc.GettingJob? || pc.ResolvingChain?)
    ensures Inv(Answered(w, b, pc, r)) && Extends(w, Answered(w, b, pc, r))
  {
  }

  lemma {:induction false} SameKeeps(w: World)
    requires Inv(w)
    ensures 0 < |w.hist| && Extends(w, w) && Inv(w.(op := Idle(Error))) && Extends(w, w.(op := Idle(Error)))
  {
  }

  lemma {:induction false} AnswerKeeps(w: World, b: Local, pc: Pc, r: Reply)
    requires Inv(w) && 0 < |w.hist| && w.op == Running(b, pc)
    ensures Inv(Answered(w, b, pc, r)) && Extends(w, Answered(w, b, pc, r))
  {
    hide Inv;
    hide Extends;
    SameKeeps(w);
    match pc
    case GettingJob => EarlyKeeps(w, b, pc, r);
    case ResolvingChain => EarlyKeeps(w, b, pc, r);
    case SettingOwner => if r.Owner? { OwnerKeeps(w, b, r.fault); }
    case Triggering =>
      if r.Trigger? { TriggerKeeps(w, b, r.info, false); }
      if r.TriggerFailure? { TriggerKeeps(w, b, AtcBuild("", "", 0), r.created); }
    case Reading(tries) => if r.Latest? { LatestKeeps(w, b, tries, r.seen); }
    case Recording(tries, latest) => if r.Record? { RecordKeeps(w, b, tries, latest, r.fault); }
    case Aborting => CallKeeps(w, b, r);
    case Observing => if r.Observe? { ObserveKeeps(w, b, r); }
    case Commenting => CallKeeps(w, b, r);
    case Writing(onOk, onErr) => if r.Write? { WriteKeeps(w, b, onOk, onErr, r.fault); }
  }

  /** Main step: every event keeps the invariant and persists only legal changes. */
  lemma {:induction false} StepKeeps(w: World, e: Event)
    requires Inv(w)
    ensures Inv(Apply(w, e)) && Extends(w, Apply(w, e))
  {
    SameKeeps(w);
    hide Inv;
    hide Extends;
    match e
    case Begin(seen) => BeginKeeps(w, seen);
    case Outside(o) => OutsideKeeps(w, o);
    case Crash =>
    case Answer(r) =>
      if w.op.Running? {
        AnswerKeeps(w, w.op.build, w.op.pc, r);
      }
  }

  lemma {:induction false} RunKeeps(r: Run)
    requires FromInit(r)
    ensures Inv(State(r))
  {
    if r.Then? {
      RunKeeps(r.prev);
      StepKeeps(State(r.prev), r.e);
    }
  }

  /**
   BuildID is write-once: between consecutive persisted objects it is kept, set from
   nil, or cleared by the vanish path from a non-terminal status; never replaced.
   Snapshots may be arbitrarily stale.
   */
  lemma {:induction false} BuildIDWriteOnce(r: Run, i: nat)
    requires FromInit(r) && i + 1 < |State(r).hist|
    ensures var before, after := State(r).hist[i].status, State(r).hist[i + 1].status;
            && (before.buildID.Some? && after.buildID.Some? ==> before.buildID == after.buildID)
            && (before.buildID.Some? && after.buildID.None? ==>
                  !IsTerminal(before.phase) && after == before.(buildID := None, buildName := "", phase := Unknown))
            && (IsTerminal(before.phase) ==> after.buildID == before.buildID && after.phase == before.phase)
  {
    RunKeeps(r);
    assert LegalChange(State(r).hist[i].status, State(r).hist[i + 1].status);
    assert Faithful(State(r).hist[i].status, State(r).atc);
  }

  /** What is persisted stays in the history. */
  lemma {:induction false} HistoryGrows(r: Run, r': Run)
    requires FromInit(r) && Continues(r, r')
    ensures FromInit(r')
    ensures |State(r).hist| <= |State(r').hist| && State(r').hist[..|State(r).hist|] == State(r).hist
  {
    if r' != r {
      HistoryGrows(r, r'.prev);
      RunKeeps(r'.prev);
      StepKeeps(State(r'.prev), r'.e);
    }
  }

  /**
   A tracking write that lands changes the five tracking fields and nothing else:
   spec and every other status field are the ones other writers left last.
   */
  lemma {:induction false} TrackingWriteIsNarrow(r: Run, fault: Fault)
    requires FromInit(r) && State(r).op.Running? && State(r).op.pc.Recording?
    ensures NarrowWrite(State(r), Apply(State(r), Answer(Record(fault))), State(r).op.build.status)
  {
    RunKeeps(r);
    RecordIsNarrow(State(r), fault);
  }

  ghost predicate NarrowWrite(s: World, s': World, mine: Status) {
    s'.hist != s.hist ==>
      && 0 < |s.hist| && |s'.hist| == |s.hist| + 1
      && Last(s).status.buildID.None?
      && Last(s') == Last(s).(status := Last(s).status.(
                     buildID := mine.buildID, buildName := mine.buildName, apiURL := mine.apiURL,
                     startTime := mine.startTime, rerunOf := mine.rerunOf))
  }

  lemma {:induction false} RecordIsNarrow(s: World, fault: Fault)
    requires Inv(s) && s.op.Running? && s.op.pc.Recording?
    ensures NarrowWrite(s, Apply(s, Answer(Record(fault))), s.op.build.status)
  {
    assert Apply(s, Answer(Record(fault))) == RecordStep(s, s.op.build, s.op.pc.tries, s.op.pc.latest, fault);
  }
}
