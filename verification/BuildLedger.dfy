/**
 The creation ledger: where every ATC build created for an object went. The
 theorems hold for objects that never get a spec.buildID to adopt.
 */
module BuildLedger {
  import opened Options
  import opened Protocols
  import opened BuildTypes
  import opened BuildProtocol
  import opened BuildInvariant

  // ---------------------------------------------------------------- accounts

  /** The build ID in every object ever persisted. */
  function Ids(hist: seq<Object>): seq<Option<Id>> {
    seq(|hist|, i requires 0 <= i < |hist| => hist[i].status.buildID)
  }

  /** Every build ID ever persisted. */
  function Recorded(ids: seq<Option<Id>>): set<Id> {
    if ids == [] then {}
    else Recorded(ids[..|ids| - 1]) + match ids[|ids| - 1] case Some(id) => {id} case None => {}
  }

  /** 1 if the last persisted object tracks a build. */
  function Current(ids: seq<Option<Id>>): nat {
    if ids != [] && ids[|ids| - 1].Some? then 1 else 0
  }

  /** Persisted vanish resets. */
  function Resets(ids: seq<Option<Id>>): nat {
    if |ids| < 2 then 0
    else Resets(ids[..|ids| - 1])
         + if ids[|ids| - 2].Some? && ids[|ids| - 1].None? then 1 else 0
  }

  /** An ID is set only on top of nil, and only if it was never persisted before. */
  predicate Once(ids: seq<Option<Id>>) {
    ids == [] || (
      var pre := ids[..|ids| - 1];
      Once(pre) && (ids[|ids| - 1].Some? && (pre == [] || pre[|pre| - 1] != ids[|ids| - 1]) ==>
                      Current(pre) == 0 && ids[|ids| - 1].value !in Recorded(pre)))
  }

  /** 1 while a created build waits to be recorded. */
  function InFlight(w: World): nat {
    if w.op.Running? && (w.op.pc.Reading? || w.op.pc.Recording?) then 1 else 0
  }

  /** The event after which a created build can never be recorded. */
  predicate Losing(w: World, e: Event) {
    || (e.Crash? && InFlight(w) == 1)
    || (e.Answer? && w.op.Running? && 0 < |w.hist| && LosingAnswer(w, w.op.pc, e.reply))
  }

  predicate LosingAnswer(w: World, pc: Pc, r: Reply)
    requires 0 < |w.hist|
  {
    match pc
    case Triggering => r.TriggerFailure? && r.created
    case Reading(_) =>
      r.Latest? && (r.seen.Seen? && r.seen.version < |w.hist| ==> w.hist[r.seen.version].status.buildID.Some?)
    case Recording(tries, latest) =>
      r.Record? && (match r.fault
                    case Delivered => !Fits(w, latest.version) && (!w.alive || tries <= 1)
                    case Lost(applied) => !(applied && Fits(w, latest.version)))
    case _ => false
  }

  function Losses(r: Run): nat {
    match r
    case Start(_) => 0
    case Then(prev, e) => Losses(prev) + if Losing(State(prev), e) then 1 else 0
  }

  // ---------------------------------------------------------------- sequences of IDs

  lemma {:induction false} IdsAppend(hist: seq<Object>, o: Object)
    ensures Ids(hist + [o]) == Ids(hist) + [o.status.buildID]
  {
  }

  /** Keeping or clearing the ID records no build. */
  lemma {:induction false} KeepsRecorded(ids: seq<Option<Id>>, x: Option<Id>)
    requires ids != [] && Once(ids) && (x.None? || x == ids[|ids| - 1])
    ensures Recorded(ids + [x]) == Recorded(ids) && Once(ids + [x])
  {
    assert (ids + [x])[..|ids|] == ids;
  }

  lemma {:induction false} SetsRecorded(ids: seq<Option<Id>>, id: Id)
    requires Once(ids) && Current(ids) == 0 && id !in Recorded(ids)
    ensures Recorded(ids + [Some(id)]) == Recorded(ids) + {id} && Once(ids + [Some(id)])
  {
    assert (ids + [Some(id)])[..|ids|] == ids;
  }

  lemma {:induction false} RecordedHas(ids: seq<Option<Id>>, i: nat)
    requires i < |ids| && ids[i].Some?
    ensures ids[i].value in Recorded(ids)
  {
    if i < |ids| - 1 {
      RecordedHas(ids[..|ids| - 1], i);
    }
  }

  /** Each recorded build is the current one or was reset once. */
  lemma {:induction false} RecordedCount(ids: seq<Option<Id>>)
    requires Once(ids)
    ensures |Recorded(ids)| == Resets(ids) + Current(ids)
  {
    if ids != [] {
      var pre := ids[..|ids| - 1];
      RecordedCount(pre);
      if ids[|ids| - 1].Some? && pre != [] && pre[|pre| - 1] == ids[|ids| - 1] {
        RecordedHas(pre, |pre| - 1);
      }
    }
  }

  lemma {:induction false} OnceIsOneStretch(ids: seq<Option<Id>>, i: nat, j: nat, k: nat)
    requires Once(ids) && i <= j <= k < |ids| && ids[i].Some? && ids[k] == ids[i]
    ensures ids[j] == ids[i]
  {
    var pre := ids[..|ids| - 1];
    if k < |pre| {
      OnceIsOneStretch(pre, i, j, k);
    } else if i < k {
      RecordedHas(pre, i);
      if j < k {
        OnceIsOneStretch(pre, i, j, k - 1);
      }
    }
  }

  // ---------------------------------------------------------------- no adoption

  /** The object starts without a spec.buildID and no writer gives it one. */
  predicate NoAdoption(r: Run) {
    match r
    case Start(w) => Init(w) && w.hist[0].spec.buildID.None?
    case Then(prev, e) => NoAdoption(prev) && NeverAdopts(e)
  }

  predicate NeverAdopts(e: Event) {
    e.Outside? && e.o.Edit? ==> e.o.obj.spec.buildID.None?
  }

  /** Nothing to adopt, and a build in flight has never been recorded. */
  ghost predicate LedgerInv(w: World) {
    && Inv(w)
    && (forall i :: 0 <= i < |w.hist| ==> w.hist[i].spec.buildID.None?)
    && Once(Ids(w.hist)) && Recorded(Ids(w.hist)) <= w.created
    && (w.op.Running? ==> LedgerOp(w, w.op.build, w.op.pc))
  }

  ghost predicate LedgerOp(w: World, b: Local, pc: Pc)
    requires b.version < |w.hist|
  {
    && b.spec.buildID.None?
    && if pc.Reading? || pc.Recording? then b.status.buildID.Some? && b.status.buildID.value !in Recorded(Ids(w.hist))
       else b.status.buildID.Some? ==> b.status.buildID == w.hist[b.version].status.buildID
  }

  /** How many builds are created but neither recorded nor in flight. */
  function Unaccounted(w: World): int {
    |w.created| - |Recorded(Ids(w.hist))| - InFlight(w)
  }

  ghost predicate Balanced(w: World, e: Event, w': World) {
    LedgerInv(w') && Unaccounted(w') == Unaccounted(w) + if Losing(w, e) then 1 else 0
  }

  /** A write that keeps or clears the ID, or does not land, moves nothing between the accounts. */
  lemma {:induction false} WriteAccount(w: World, o: Object, w': World)
    requires LedgerInv(w) && Inv(w') && w'.created == w.created
    requires w'.hist == w.hist || w'.hist == w.hist + [o]
    requires o.spec.buildID.None? && (o.status.buildID.None? || o.status.buildID == Last(w).status.buildID)
    requires InFlight(w') == InFlight(w)
    requires w'.op.Running? ==>
               || (w'.op == w.op)
               || (InFlight(w) == 0 && LedgerOp(w', w'.op.build, w'.op.pc))
    ensures LedgerInv(w') && Unaccounted(w') == Unaccounted(w)
  {
    IdsAppend(w.hist, o);
    KeepsRecorded(Ids(w.hist), o.status.buildID);
  }

  lemma {:induction false} WriteBalances(w: World, b: Local, onOk: Verdict, onErr: Verdict, fault: Fault)
    requires LedgerInv(w) && w.op == Running(b, Writing(onOk, onErr))
    ensures Balanced(w, Answer(Write(fault)), WriteStep(w, b, onOk, onErr, fault))
  {
    WriteKeeps(w, b, onOk, onErr, fault);
    var o := Last(w).(status := b.status);
    assert LegalChange(w.hist[b.version].status, b.status);
    var o' := if Fits(w, b.version) then o else Last(w);
    hide Inv;
    WriteAccount(w, o', WriteStep(w, b, onOk, onErr, fault));
  }

  lemma {:induction false} OwnerBalances(w: World, b: Local, fault: Fault)
    requires LedgerInv(w) && w.op == Running(b, SettingOwner)
    ensures Balanced(w, Answer(Owner(fault)), OwnerStep(w, b, fault))
  {
    OwnerKeeps(w, b, fault);
    assert 0 < |w.hist| && Last(w).spec.buildID.None?;
    hide Inv;
    WriteAccount(w, Last(w), OwnerStep(w, b, fault));
  }

  lemma {:induction false} TriggerBalances(w: World, b: Local, info: AtcBuild, created: bool)
    requires LedgerInv(w) && w.op == Running(b, Triggering)
    ensures Balanced(w, Answer(Trigger(info)), TriggerStep(w, b, info))
    ensures Balanced(w, Answer(TriggerFailure(created)), TriggerFailStep(w, b, created))
  {
    TriggerKeeps(w, b, info, created);
    assert w.atc.next !in w.created;
    assert OpInv(w, b, Triggering);
    hide Inv;
  }

  lemma {:induction false} RecordLandsBalances(w: World, b: Local, tries: nat, latest: Local, fault: Fault)
    requires LedgerInv(w) && w.op == Running(b, Recording(tries, latest))
    requires Fits(w, latest.version) && (fault.Lost? ==> fault.applied)
    ensures Balanced(w, Answer(Record(fault)), RecordStep(w, b, tries, latest, fault))
  {
    hide Once;
    hide Recorded;
    hide LegalChange;
    RecordKeeps(w, b, tries, latest, fault);
    RecordLands(w, b, tries, latest, fault);
    assert OpInv(w, b, Recording(tries, latest));
    hide Inv;
  }

  lemma {:induction false} RecordLands(w: World, b: Local, tries: nat, latest: Local, fault: Fault)
    requires LedgerInv(w) && w.op == Running(b, Recording(tries, latest))
    requires Fits(w, latest.version) && (fault.Lost? ==> fault.applied)
    ensures var w' := RecordStep(w, b, tries, latest, fault);
            && |w'.hist| == |w.hist| + 1 && w'.hist[..|w.hist|] == w.hist && w'.created == w.created
            && Last(w').spec.buildID.None?
            && Once(Ids(w'.hist)) && Recorded(Ids(w'.hist)) == Recorded(Ids(w.hist)) + {b.status.buildID.value}
            && |Recorded(Ids(w'.hist))| == |Recorded(Ids(w.hist))| + 1
            && InFlight(w') == 0
            && (w'.op.Running? ==> w'.op.build.spec == b.spec && w'.op.build.version == |w.hist|
                                   && w'.op.build.status.buildID == Last(w').status.buildID)
  {
    var o := Last(w).(status := Retrack(latest.status, b.status));
    IdsAppend(w.hist, o);
    SetsRecorded(Ids(w.hist), b.status.buildID.value);
  }

  lemma {:induction false} RecordMissesBalances(w: World, b: Local, tries: nat, latest: Local, fault: Fault)
    requires LedgerInv(w) && w.op == Running(b, Recording(tries, latest))
    requires !(Fits(w, latest.version) && (fault.Lost? ==> fault.applied))
    ensures Balanced(w, Answer(Record(fault)), RecordStep(w, b, tries, latest, fault))
  {
    RecordKeeps(w, b, tries, latest, fault);
    assert RecordStep(w, b, tries, latest, fault).hist == w.hist;
  }

  /** Changing only the operation touches only the account of builds in flight. */
  lemma {:induction false} OpBalances(w: World, op: Op)
    requires LedgerInv(w) && Inv(w.(op := op))
    requires op.Running? ==> op.build.version < |w.hist| && LedgerOp(w, op.build, op.pc)
    ensures LedgerInv(w.(op := op))
    ensures Unaccounted(w.(op := op)) == Unaccounted(w) + InFlight(w) - InFlight(w.(op := op))
  {
    hide Inv;
    assert Ids(w.(op := op).hist) == Ids(w.hist);
  }

  lemma {:induction false} LatestBalances(w: World, b: Local, tries: nat, seen: Snapshot)
    requires LedgerInv(w) && w.op == Running(b, Reading(tries))
    ensures Balanced(w, Answer(Latest(seen)), LatestStep(w, b, tries, seen))
  {
    LatestKeeps(w, b, tries, seen);
    var w' := LatestStep(w, b, tries, seen);
    assert OpInv(w, b, Reading(tries)) && 0 < |w.hist|;
    hide Inv;
    assert w' == w.(op := w'.op);
    assert w'.op.Running? ==> w'.op.build.version < |w.hist| && LedgerOp(w, w'.op.build, w'.op.pc);
    assert Losing(w, Answer(Latest(seen))) <==> InFlight(w') == 0;
    OpBalances(w, w'.op);
  }

  lemma {:induction false} ObserveBalances(w: World, b: Local, r: Reply)
    requires LedgerInv(w) && r.Observe? && w.op == Running(b, Observing)
    ensures Balanced(w, Answer(r), ObserveStep(w, b, r))
  {
    ObserveKeeps(w, b, r);
    assert OpInv(w, b, Observing);
    assert 0 < |w.hist|;
    hide Inv;
    var w' := ObserveStep(w, b, r);
    assert w' == w.(op := w'.op);
    OpBalances(w, w'.op);
  }

  /** The log of calls plays no part in the accounts. */
  lemma {:induction false} CallsBalance(w: World, calls: seq<Call>)
    requires LedgerInv(w)
    ensures LedgerInv(w.(calls := calls)) && Unaccounted(w.(calls := calls)) == Unaccounted(w)
  {
    CallsAreFree(w, calls);
    hide Inv;
  }

  lemma {:induction false} AbortBalances(w: World, b: Local)
    requires LedgerInv(w) && w.op == Running(b, Aborting)
    ensures LedgerInv(AbortStep(w, b)) && Unaccounted(AbortStep(w, b)) == Unaccounted(w)
  {
    CallKeepsOp(w, b, Abort(true));
    assert OpInv(w, b, Observing);
    OpKeeps(w, b, Observing);
    assert LedgerOp(w, b, Observing);
    hide Inv;
    hide OpInv;
    OpBalances(w, Running(b, Observing));
    CallsBalance(w.(op := Running(b, Observing)), AbortStep(w, b).calls);
  }

  lemma {:induction false} CommentBalances(w: World, b: Local, ok: bool)
    requires LedgerInv(w) && w.op == Running(b, Commenting)
    ensures LedgerInv(CommentStep(w, b, ok)) && Unaccounted(CommentStep(w, b, ok)) == Unaccounted(w)
  {
    CallKeepsOp(w, b, Comment(ok));
    assert OpInv(w, b, Commenting);
    var w' := CommentStep(w, b, ok);
    OpKeeps(w, w'.op.build, w'.op.pc);
    assert LedgerOp(w, w'.op.build, w'.op.pc) && InFlight(w') == 0;
    hide Inv;
    hide OpInv;
    OpBalances(w, w'.op);
    CallsBalance(w.(op := w'.op), w'.calls);
  }

  lemma {:induction false} CallBalances(w: World, b: Local, r: Reply)
    requires LedgerInv(w)
    ensures r.Abort? && w.op == Running(b, Aborting) ==> Balanced(w, Answer(r), AbortStep(w, b))
    ensures r.Comment? && w.op == Running(b, Commenting) ==> Balanced(w, Answer(r), CommentStep(w, b, r.ok))
  {
    hide LedgerInv;
    hide Unaccounted;
    if r.Abort? && w.op == Running(b, Aborting) {
      AbortBalances(w, b);
    }
    if r.Comment? && w.op == Running(b, Commenting) {
      CommentBalances(w, b, r.ok);
    }
  }

  lemma {:induction false} OutsideBalances(w: World, o: Outsider)
    requires LedgerInv(w) && NeverAdopts(Outside(o))
    ensures Balanced(w, Outside(o), OutsideStep(w, o))
  {
    OutsideKeeps(w, o);
    assert 0 < |w.hist| && Last(w).spec.buildID.None?;
    hide Inv;
    var obj := if o.Edit? && o.obj.status.buildID == Last(w).status.buildID then o.obj else Last(w);
    WriteAccount(w, obj, OutsideStep(w, o));
  }

  lemma {:induction false} BeginBalances(w: World, seen: Snapshot)
    requires LedgerInv(w)
    ensures Balanced(w, Begin(seen), BeginStep(w, seen))
  {
    BeginKeeps(w, seen);
  }

  lemma {:induction false} ChainBalances(w: World, b: Local, r: Reply)
    requires LedgerInv(w)
    ensures r.Job? && w.op == Running(b, GettingJob) ==> Balanced(w, Answer(r), w.(op := AfterJob(b, r.lookup)))
    ensures r.Chain? && w.op == Running(b, ResolvingChain) ==> Balanced(w, Answer(r), w.(op := AfterChain(b, r.ready)))
  {
    if w.op.Running? && w.op.build == b {
      if r.Job? && w.op.pc.GettingJob? {
        EarlyKeeps(w, b, w.op.pc, r);
        OpBalances(w, AfterJob(b, r.lookup));
      }
      if r.Chain? && w.op.pc.ResolvingChain? {
        EarlyKeeps(w, b, w.op.pc, r);
        OpBalances(w, AfterChain(b, r.ready));
      }
    }
  }

  lemma {:induction false} AnswerBalances(w: World, r: Reply)
    requires LedgerInv(w) && w.op.Running?
    ensures Balanced(w, Answer(r), Answered(w, w.op.build, w.op.pc, r))
  {
    var b := w.op.build;
    match w.op.pc
    case GettingJob => ChainBalances(w, b, r);
    case ResolvingChain => ChainBalances(w, b, r);
    case SettingOwner => if r.Owner? { OwnerBalances(w, b, r.fault); }
    case Triggering =>
      if r.Trigger? { TriggerBalances(w, b, r.info, false); }
      if r.TriggerFailure? { TriggerBalances(w, b, AtcBuild("", "", 0), r.created); }
    case Reading(tries) => if r.Latest? { LatestBalances(w, b, tries, r.seen); }
    case Recording(tries, latest) =>
      if r.Record? {
        if Fits(w, latest.version) && (r.fault.Lost? ==> r.fault.applied) {
          RecordLandsBalances(w, b, tries, latest, r.fault);
        } else {
          RecordMissesBalances(w, b, tries, latest, r.fault);
        }
      }
    case Aborting => CallBalances(w, b, r);
    case Observing => if r.Observe? { ObserveBalances(w, b, r); }
    case Commenting => CallBalances(w, b, r);
    case Writing(onOk, onErr) => if r.Write? { WriteBalances(w, b, onOk, onErr, r.fault); }
  }

  lemma {:induction false} StepBalances(w: World, e: Event)
    requires LedgerInv(w) && NeverAdopts(e)
    ensures Balanced(w, e, Apply(w, e))
  {
    match e
    case Begin(seen) => BeginBalances(w, seen);
    case Outside(o) => OutsideBalances(w, o);
    case Crash =>
    case Answer(r) => if w.op.Running? { AnswerBalances(w, r); }
  }

  lemma {:induction false} RunBalances(r: Run)
    requires NoAdoption(r)
    ensures FromInit(r) && LedgerInv(State(r)) && Unaccounted(State(r)) == Losses(r)
  {
    match r
    case Start(w) =>
      RunKeeps(r);
      assert Ids(w.hist) == [None];
      assert Recorded([None]) == {};
    case Then(prev, e) =>
      RunBalances(prev);
      StepBalances(State(prev), e);
  }

  // ---------------------------------------------------------------- theorems

  /**
   Creation ledger, in every interleaving and with snapshots of any age:
   builds created = build recorded now + persisted resets + builds lost before being
   recorded + build in flight.
   */
  lemma {:induction false} CreationLedger(r: Run)
    requires NoAdoption(r)
    ensures var s := State(r);
            |s.created| == Current(Ids(s.hist)) + Resets(Ids(s.hist)) + Losses(r) + InFlight(s)
  {
    RunBalances(r);
    RecordedCount(Ids(State(r).hist));
  }

  /** The builds lost are those created, never persisted and not in flight; exactly the losing events lose one each. */
  lemma {:induction false} LostBuildsAreTheLosingEvents(r: Run)
    requires NoAdoption(r)
    ensures |LostBuilds(State(r))| == Losses(r)
  {
    RunBalances(r);
    var s := State(r);
    assert Recorded(Ids(s.hist)) + Pending(s) <= s.created;
    assert |Recorded(Ids(s.hist)) + Pending(s)| == |Recorded(Ids(s.hist))| + |Pending(s)|;
    assert |s.created| == |LostBuilds(s)| + |Recorded(Ids(s.hist)) + Pending(s)|;
  }

  ghost function Pending(w: World): set<Id> {
    if InFlight(w) == 1 && w.op.build.status.buildID.Some? then {w.op.build.status.buildID.value} else {}
  }

  ghost function LostBuilds(w: World): set<Id> {
    w.created - (Recorded(Ids(w.hist)) + Pending(w))
  }

  /** Every recorded build was created here, and once it is no longer recorded it never is again. */
  lemma {:induction false} RecordedBuildsNeverReturn(r: Run, i: nat, j: nat, k: nat)
    requires NoAdoption(r) && i <= j <= k < |State(r).hist|
    requires State(r).hist[i].status.buildID.Some?
    requires State(r).hist[k].status.buildID == State(r).hist[i].status.buildID
    ensures State(r).hist[i].status.buildID.value in State(r).created
    ensures State(r).hist[j].status.buildID == State(r).hist[i].status.buildID
  {
    RunBalances(r);
    var ids := Ids(State(r).hist);
    RecordedHas(ids, i);
    OnceIsOneStretch(ids, i, j, k);
  }

  // ---------------------------------------------------------------- at most one create

  /** Whoever is about to create or record finds nothing recorded. */
  ghost predicate NothingRecorded(w: World) {
    w.op.Running? && ((Early(w.op.pc) && w.op.build.status.buildID.None?) || InFlight(w) == 1) ==>
      0 < |w.hist| && Last(w).status.buildID.None?
  }

  ghost predicate FreshInv(w: World) {
    LedgerInv(w) && NothingRecorded(w)
  }

  lemma {:induction false} FreshWrites(w: World, b: Local, r: Reply)
    requires Inv(w) && NothingRecorded(w) && w.op.Running? && w.op.build == b
    ensures w.op.pc.SettingOwner? && r.Owner? ==> NothingRecorded(OwnerStep(w, b, r.fault))
    ensures w.op.pc.Recording? && r.Record? ==>
              NothingRecorded(RecordStep(w, b, w.op.pc.tries, w.op.pc.latest, r.fault))
  {
  }

  lemma {:induction false} FreshLatest(w: World, b: Local, tries: nat, seen: Snapshot)
    requires Inv(w) && NothingRecorded(w) && w.op == Running(b, Reading(tries))
    ensures NothingRecorded(LatestStep(w, b, tries, seen))
  {
  }

  lemma {:induction false} FreshLater(w: World, b: Local, r: Reply)
    requires Inv(w) && w.op.Running? && w.op.build == b
    ensures r.Observe? ==> w.op.pc.Observing? ==> NothingRecorded(ObserveStep(w, b, r))
    ensures r.Comment? ==> w.op.pc.Commenting? ==> NothingRecorded(CommentStep(w, b, r.ok))
    ensures w.op.pc.Aborting? ==> NothingRecorded(AbortStep(w, b))
  {
  }

  lemma {:induction false} FreshAnswer(w: World, r: Reply)
    requires Inv(w) && NothingRecorded(w) && w.op.Running?
    ensures NothingRecorded(Answered(w, w.op.build, w.op.pc, r))
  {
    var b := w.op.build;
    match w.op.pc
    case Reading(tries) => if r.Latest? { FreshLatest(w, b, tries, r.seen); }
    case SettingOwner => FreshWrites(w, b, r);
    case Recording(_, _) => FreshWrites(w, b, r);
    case Aborting => FreshLater(w, b, r);
    case Observing => FreshLater(w, b, r);
    case Commenting => FreshLater(w, b, r);
    case Writing(_, _) =>
    case GettingJob =>
    case ResolvingChain =>
    case Triggering =>
  }

  lemma {:induction false} FreshBegin(w: World, seen: Snapshot)
    requires 0 < |w.hist| && NothingRecorded(w) && Fresh(w, Begin(seen))
    ensures NothingRecorded(BeginStep(w, seen))
  {
  }

  lemma {:induction false} FreshOutside(w: World, o: Outsider)
    requires 0 < |w.hist| && NothingRecorded(w)
    ensures NothingRecorded(OutsideStep(w, o))
  {
  }

  lemma {:induction false} StepFresh(w: World, e: Event)
    requires FreshInv(w) && NeverAdopts(e) && Fresh(w, e)
    ensures FreshInv(Apply(w, e))
  {
    StepBalances(w, e);
    assert NothingRecorded(Apply(w, e)) by {
      assert Inv(w) && 0 < |w.hist|;
      match e
      case Begin(seen) => FreshBegin(w, seen);
      case Outside(o) => FreshOutside(w, o);
      case Crash =>
      case Answer(r) => if w.op.Running? { FreshAnswer(w, r); }
    }
    hide Apply;
    hide NothingRecorded;
    hide LedgerInv;
    hide Unaccounted;
    hide Losing;
  }

  lemma {:induction false} RunFresh(r: Run)
    requires NoAdoption(r) && FreshReads(r)
    ensures FreshInv(State(r))
  {
    RunBalances(r);
    if r.Then? {
      RunFresh(r.prev);
      StepFresh(State(r.prev), r.e);
    }
  }

  /** With fresh reads a build is created only to replace one that was lost or reset. */
  lemma {:induction false} CreatesAreReplacements(r: Run)
    requires NoAdoption(r) && FreshReads(r)
    ensures |State(r).created| <= 1 + Resets(Ids(State(r).hist)) + Losses(r)
  {
    RunFresh(r);
    CreationLedger(r);
  }

  predicate Vanishing(w: World, r: Reply) {
    && w.op.Running? && w.op.pc.Observing? && r.Observe? && r.reached
    && w.op.build.status.buildID.Some? && w.op.build.status.buildID.value !in w.atc.builds
  }

  /**
   No crash between create and persist, no create whose answer is lost, a persist that
   neither errors nor meets as many conflicts as it has attempts, no vanished build.
   */
  predicate Lucky(w: World, e: Event) {
    && Fresh(w, e)
    && match e
       case Crash => InFlight(w) == 0
       case Answer(TriggerFailure(created)) => !created
       case Answer(Latest(seen)) => seen.Seen?
       case Answer(Record(fault)) =>
         fault.Delivered? && w.alive && (w.op.Running? && w.op.pc.Recording? && w.op.pc.tries <= 1 ==>
                                           Fits(w, w.op.pc.latest.version))
       case Answer(r) => !Vanishing(w, r)
       case _ => true
  }

  predicate LuckyRun(r: Run) {
    r.Then? ==> LuckyRun(r.prev) && Lucky(State(r.prev), r.e)
  }

  predicate WritesKeepID(w: World) {
    w.op.Running? && w.op.pc.Writing? ==>
      && w.op.build.version < |w.hist|
      && (w.hist[w.op.build.version].status.buildID.Some? ==> w.op.build.status.buildID.Some?)
  }

  ghost predicate LuckyInv(w: World) {
    FreshInv(w) && Resets(Ids(w.hist)) == 0 && WritesKeepID(w)
  }

  lemma {:induction false} NoResetWritten(w: World, r: Reply)
    requires Inv(w) && w.op.Running? && Lucky(w, Answer(r)) && WritesKeepID(w)
    ensures WritesKeepID(Answered(w, w.op.build, w.op.pc, r))
  {
    var b := w.op.build;
    match w.op.pc
    case Recording(tries, latest) => if r.Record? { RecordKeeps(w, b, tries, latest, r.fault); }
    case Reading(tries) => if r.Latest? { LatestKeeps(w, b, tries, r.seen); }
    case Observing => if r.Observe? { ObserveWithoutReset(w, b, r); }
    case Commenting =>
    case Aborting =>
    case Writing(_, _) =>
    case SettingOwner =>
    case GettingJob =>
    case ResolvingChain =>
    case Triggering =>
  }

  lemma {:induction false} ObserveWithoutReset(w: World, b: Local, r: Reply)
    requires Inv(w) && r.Observe? && w.op == Running(b, Observing) && !Vanishing(w, r)
    ensures WritesKeepID(ObserveStep(w, b, r))
  {
  }

  lemma {:induction false} LastKeepsID(w: World, e: Event)
    requires Inv(w) && Lucky(w, e) && WritesKeepID(w)
    ensures Last(w).status.buildID.Some? ==> 0 < |Apply(w, e).hist| && Last(Apply(w, e)).status.buildID.Some?
  {
  }

  lemma {:induction false} LuckyNeverLoses(w: World, e: Event)
    requires FreshInv(w) && Lucky(w, e)
    ensures !Losing(w, e)
  {
  }

  lemma {:induction false} LuckyNeverResets(w: World, e: Event)
    requires Inv(w) && Lucky(w, e) && WritesKeepID(w) && Resets(Ids(w.hist)) == 0
    ensures Resets(Ids(Apply(w, e).hist)) == 0
  {
    StepKeeps(w, e);
    LastKeepsID(w, e);
    var hist' := Apply(w, e).hist;
    if hist' != w.hist {
      var o := hist'[|w.hist|];
      assert hist' == w.hist + [o];
      IdsAppend(w.hist, o);
      assert (Ids(w.hist) + [o.status.buildID])[..|w.hist|] == Ids(w.hist);
    }
  }

  lemma {:induction false} StepLucky(w: World, e: Event)
    requires LuckyInv(w) && NeverAdopts(e) && Lucky(w, e)
    ensures LuckyInv(Apply(w, e)) && !Losing(w, e)
  {
    StepFresh(w, e);
    LuckyNeverLoses(w, e);
    LuckyNeverResets(w, e);
    LuckyKeepsID(w, e);
    hide Apply;
    hide Losing;
    hide Lucky;
    hide Inv;
  }

  lemma {:induction false} LuckyKeepsID(w: World, e: Event)
    requires Inv(w) && Lucky(w, e) && WritesKeepID(w)
    ensures WritesKeepID(Apply(w, e))
  {
    match e
    case Begin(seen) =>
    case Outside(o) => OutsideKeeps(w, o);
    case Crash =>
    case Answer(r) => if w.op.Running? { NoResetWritten(w, r); }
  }

  lemma {:induction false} RunLucky(r: Run)
    requires NoAdoption(r) && LuckyRun(r)
    ensures LuckyInv(State(r)) && Losses(r) == 0 && FreshReads(r)
  {
    if r.Then? {
      RunLucky(r.prev);
      StepLucky(State(r.prev), r.e);
    } else {
      RunFresh(r);
    }
  }

  /** At most one create or rerun ever succeeds, however many other status writes conflict. */
  lemma {:induction false} AtMostOneCreate(r: Run)
    requires NoAdoption(r) && LuckyRun(r)
    ensures |State(r).created| <= 1
  {
    RunLucky(r);
    CreatesAreReplacements(r);
  }

  /** One reconcile up to and including the create. */
  function UpToCreate(r: Run, info: AtcBuild): Run {
    Then(Then(Then(Then(r, Begin(Seen(0))), Answer(Job(JobFound(false)))), Answer(Chain(true))), Answer(Trigger(info)))
  }

  /**
   The promise that a created build is always recorded before the next reconcile is
   too strong: a crash between the create and the write makes the next reconcile,
   reading fresh, create a second build.
   */
  lemma {:induction false} DuplicateAfterCrash(w: World, info: AtcBuild)
    requires NoAdoption(Start(w)) && w.hist[0].spec.hasJobRef && !w.hist[0].spec.suspend && !w.hist[0].deleting
    ensures var r := UpToCreate(Then(UpToCreate(Start(w), info), Crash), info);
            NoAdoption(r) && FreshReads(r) && |State(r).created| == 2
  {
    var once := UpToCreate(Start(w), info);
    CreatesOnce(Start(w), info);
    CreatesOnce(Then(once, Crash), info);
  }

  lemma {:induction false} CreatesOnce(r: Run, info: AtcBuild)
    requires State(r).op.Idle? && |State(r).hist| == 1 && FreshReads(r) && NoAdoption(r)
    requires var o := State(r).hist[0];
             && o.status.buildID.None? && !IsTerminal(o.status.phase) && o.spec.buildID.None?
             && o.spec.hasJobRef && !o.spec.suspend && !o.deleting
    ensures var r' := UpToCreate(r, info);
            && State(r').created == State(r).created + {State(r).atc.next}
            && State(r').atc.next == State(r).atc.next + 1 && State(r').hist == State(r).hist
            && FreshReads(r') && NoAdoption(r')
  {
    var w1 := Apply(State(r), Begin(Seen(0)));
    var w2 := Apply(w1, Answer(Job(JobFound(false))));
    var w3 := Apply(w2, Answer(Chain(true)));
    var r1 := Then(r, Begin(Seen(0)));
    var r2 := Then(r1, Answer(Job(JobFound(false))));
    var r3 := Then(r2, Answer(Chain(true)));
    assert State(r1) == w1 && State(r2) == w2 && State(r3) == w3;
    assert FreshReads(r1) && FreshReads(r2) && FreshReads(r3);
    assert NoAdoption(r1) && NoAdoption(r2) && NoAdoption(r3);
    assert w3.op == Running(CopyOf(State(r), 0), Triggering);
  }
}
