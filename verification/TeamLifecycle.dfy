/**
 The finalizer lifecycle of a Team as a state machine over two stores.

 The API server keeps one Team object; its resource version is the position in `hist`.
 It disappears once it is marked for deletion and holds no finalizer. `mine` are the ATC
 teams the operator may have brought about and has not destroyed since. One reconcile at
 a time works on the object; edits, deletion, failures and crashes come in between.
 */
module TeamLifecycle {
  import opened Options
  import opened Protocols

  datatype Spec = Spec(teamName: string, orphan: bool, allowDestroy: bool, suspend: bool)

  /** `others` says whether finalizers besides the operator's are present. */
  datatype Object = Object(spec: Spec, finalizer: bool, others: bool, deleting: bool)

  datatype Local = Local(version: nat, obj: Object)

  /** Why the operator let go of the object. */
  datatype Release = Orphaned | DestroyedAs(name: string)

  /** The call a running reconcile waits for. */
  datatype Pc =
    | AddingFinalizer
    | Owning
    | Resolving
    | Creating
    | ResolvingDestroy
    | Destroying
    | Removing(why: Release)
    | Status

  datatype Op = Idle | Running(t: Local, pc: Pc)

  datatype DestroyCall = DestroyCall(name: string, version: nat)

  /** `floor` is the newest version any reconcile has read. */
  datatype World = World(name: string, hist: seq<Object>, alive: bool, mine: set<string>, calls: seq<DestroyCall>,
                         released: Option<Release>, floor: nat, op: Op)

  datatype Event =
    | Begin(version: nat)
    | Update(fault: Fault)
    | Owner(needed: bool, fault: Fault)
    | Resolve(ok: bool)
    | Create(ok: bool, applied: bool)
    | Destroy(ok: bool)
    | WriteStatus(fault: Fault)
    | Edit(spec: Spec, others: bool)
    | Delete
    | Crash

  const MAIN_TEAM := "main"

  function ResolvedName(name: string, s: Spec): string {
    if s.teamName != "" then s.teamName else name
  }

  function Last(w: World): Object
    requires w.hist != []
  {
    w.hist[|w.hist| - 1]
  }

  function Newest(w: World): nat {
    if w.hist == [] then 0 else |w.hist| - 1
  }

  /** Persists an object; the API server drops it if nothing holds it any more. */
  function Store(w: World, o: Object): World {
    w.(hist := w.hist + [o], alive := !o.deleting || o.finalizer || o.others)
  }

  predicate Lands(w: World, version: nat, fault: Fault) {
    w.alive && version + 1 == |w.hist| && (fault.Delivered? || fault.applied)
  }

  // ------------------------------------------- control flow between two calls

  function AfterRead(name: string, t: Local): Op {
    if t.obj.spec.suspend then Running(t, Status)
    else if t.obj.deleting then (if t.obj.finalizer then DeleteTeam(name, t) else Idle)
    else Running(t, if t.obj.finalizer then Owning else AddingFinalizer)
  }

  function DeleteTeam(name: string, t: Local): Op {
    var s := t.obj.spec;
    Running(t, if s.orphan then Removing(Orphaned)
    else if ResolvedName(name, s) == MAIN_TEAM && !s.allowDestroy then Status
    else ResolvingDestroy)
  }

  // ---------------------------------------------------------------- steps

  function BeginStep(w: World, i: nat): World {
    if w.op.Running? then w
    else if i < |w.hist| then
      w.(op := AfterRead(w.name, Local(i, w.hist[i])), floor := if i > w.floor then i else w.floor)
    else w
  }

  /** r.Update: adds or removes the finalizer; its answer refreshes the in-memory object. */
  function UpdateStep(w: World, t: Local, pc: Pc, fault: Fault): World {
    var o := t.obj.(finalizer := pc.AddingFinalizer?);
    var w' := if Lands(w, t.version, fault) then Store(w, o) else w;
    if pc.Removing? then
      w'.(op := Idle, released := if Lands(w, t.version, fault) then Some(pc.why) else w.released)
    else
      w'.(op := if Lands(w, t.version, fault) && fault.Delivered? then Running(Local(|w.hist|, o), Owning) else Idle)
  }

  function OwnerStep(w: World, t: Local, needed: bool, fault: Fault): World {
    if !needed then w.(op := Running(t, Resolving))
    else
      var w' := if Lands(w, t.version, fault) then Store(w, t.obj) else w;
      w'.(op := if Lands(w, t.version, fault) && fault.Delivered?
      then Running(Local(|w.hist|, t.obj), Resolving) else Idle)
  }

  function CreateStep(w: World, t: Local, ok: bool, applied: bool): World {
    w.(mine := if ok || applied then w.mine + {ResolvedName(w.name, t.obj.spec)} else w.mine, op := Running(t, Status))
  }

  function DestroyStep(w: World, t: Local, ok: bool): World {
    var n := ResolvedName(w.name, t.obj.spec);
    w.(calls := w.calls + [DestroyCall(n, t.version)], mine := if ok then w.mine - {n} else w.mine,
    op := Running(t, if ok then Removing(DestroyedAs(n)) else Status))
  }

  function StatusStep(w: World, t: Local, fault: Fault): World {
    (if Lands(w, t.version, fault) then Store(w, t.obj) else w).(op := Idle)
  }

  /** teamName may be set once and never changed after; nobody else touches the operator's finalizer. */
  function EditStep(w: World, s: Spec, others: bool): World
    requires w.hist != []
  {
    var o := Last(w);
    if w.alive && (o.spec.teamName == "" || s.teamName == o.spec.teamName)
    then Store(w, o.(spec := s, others := others)) else w
  }

  function Answered(w: World, t: Local, pc: Pc, e: Event): World {
    match e
    case Update(fault) => if pc.AddingFinalizer? || pc.Removing? then UpdateStep(w, t, pc, fault) else w
    case Owner(needed, fault) => if pc.Owning? then OwnerStep(w, t, needed, fault) else w
    case Resolve(ok) =>
      if pc.Resolving? then w.(op := Running(t, if ok then Creating else Status))
      else if pc.ResolvingDestroy? then w.(op := Running(t, if ok then Destroying else Status))
      else w
    case Create(ok, applied) => if pc.Creating? then CreateStep(w, t, ok, applied) else w
    case Destroy(ok) => if pc.Destroying? then DestroyStep(w, t, ok) else w
    case WriteStatus(fault) => if pc.Status? then StatusStep(w, t, fault) else w
    case _ => w
  }

  function Apply(w: World, e: Event): World {
    if w.hist == [] then w
    else match e
         case Begin(i) => BeginStep(w, i)
         case Edit(s, others) => EditStep(w, s, others)
         case Delete => if w.alive then Store(w, Last(w).(deleting := true)) else w
         case Crash => w.(op := Idle)
         case _ => if w.op.Running? then Answered(w, w.op.t, w.op.pc, e) else w
  }

  // ---------------------------------------------------------------- runs

  type Run = Trace<World, Event>

  function State(r: Run): World {
    match r
    case Start(w) => w
    case Then(prev, e) => Apply(State(prev), e)
  }

  /** A Team just created. */
  predicate Init(w: World) {
    && |w.hist| == 1 && w.alive && !w.hist[0].finalizer && !w.hist[0].deleting
    && w.mine == {} && w.calls == [] && w.released.None? && w.floor == 0 && w.op.Idle?
  }

  predicate FromInit(r: Run) {
    match r
    case Start(w) => Init(w)
    case Then(prev, _) => FromInit(prev)
  }

  /** No reconcile reads a version older than one read before. */
  predicate MonotoneReads(r: Run) {
    r.Then? ==> MonotoneReads(r.prev) && (r.e.Begin? ==> State(r.prev).floor <= r.e.version)
  }

  // ---------------------------------------------------------------- invariant of all runs

  predicate OpInv(w: World, t: Local, pc: Pc) {
    && t.version < |w.hist| && t.obj == w.hist[t.version]
    && (pc.AddingFinalizer? ==> !t.obj.deleting && !t.obj.finalizer)
    && (pc.Owning? || pc.Resolving? || pc.Creating? ==> !t.obj.deleting && t.obj.finalizer)
    && (pc.ResolvingDestroy? || pc.Destroying? || pc.Removing? ==> t.obj.deleting && t.obj.finalizer)
    && (pc.ResolvingDestroy? || pc.Destroying? ==>
          ResolvedName(w.name, t.obj.spec) == MAIN_TEAM ==> t.obj.spec.allowDestroy)
    && (pc.Removing? ==> match pc.why
                         case Orphaned => t.obj.spec.orphan
                         case DestroyedAs(n) => n == ResolvedName(w.name, t.obj.spec) && n !in w.mine)
  }

  predicate CallAllowed(w: World, c: DestroyCall) {
    && c.version < |w.hist| && w.hist[c.version].deleting
    && c.name == ResolvedName(w.name, w.hist[c.version].spec)
    && (c.name == MAIN_TEAM ==> w.hist[c.version].spec.allowDestroy)
  }

  predicate Inv(w: World) {
    && w.hist != [] && w.floor < |w.hist|
    && (forall i, j :: 0 <= i <= j < |w.hist| && w.hist[i].deleting ==> w.hist[j].deleting)
    && (w.released.None? ==> forall i, j :: 0 <= i <= j < |w.hist| && w.hist[i].finalizer ==> w.hist[j].finalizer)
    && (w.released.Some? ==> Last(w).deleting && !Last(w).finalizer)
    && w.alive == (!Last(w).deleting || Last(w).finalizer || Last(w).others)
    && (forall c :: c in w.calls ==> CallAllowed(w, c))
    && (w.op.Running? ==> OpInv(w, w.op.t, w.op.pc))
  }

  lemma {:induction false} StoreKeeps(w: World, o: Object, released: Option<Release>)
    requires Inv(w) && w.op.Idle?
    requires Last(w).deleting ==> o.deleting
    requires if released.Some? then o.deleting && !o.finalizer
             else w.released.None? && (Last(w).finalizer ==> o.finalizer)
    ensures Inv(Store(w, o).(released := released))
  {
    var w' := Store(w, o);
    assert forall c :: c in w'.calls ==> CallAllowed(w, c) && CallAllowed(w', c);
  }

  /** Storing keeps whatever the running reconcile knows. */
  lemma {:induction false} StoreKeepsOp(w: World, o: Object)
    requires w.op.Running? && OpInv(w, w.op.t, w.op.pc)
    ensures OpInv(Store(w, o), w.op.t, w.op.pc)
  {
  }

  lemma {:induction false} UpdateKeeps(w: World, t: Local, pc: Pc, fault: Fault)
    requires Inv(w) && w.op == Running(t, pc) && (pc.AddingFinalizer? || pc.Removing?)
    ensures Inv(UpdateStep(w, t, pc, fault))
  {
    var o := t.obj.(finalizer := pc.AddingFinalizer?);
    if Lands(w, t.version, fault) {
      assert t.obj == Last(w);
      StoreKeeps(w.(op := Idle), o, if pc.Removing? then Some(pc.why) else w.released);
    }
  }

  lemma {:induction false} OwnerKeeps(w: World, t: Local, needed: bool, fault: Fault)
    requires Inv(w) && w.op == Running(t, Owning)
    ensures Inv(OwnerStep(w, t, needed, fault))
  {
    if Lands(w, t.version, fault) {
      StoreKeeps(w.(op := Idle), t.obj, w.released);
    }
  }

  lemma {:induction false} StatusKeeps(w: World, t: Local, fault: Fault)
    requires Inv(w) && w.op == Running(t, Status)
    ensures Inv(StatusStep(w, t, fault))
  {
    if Lands(w, t.version, fault) {
      StoreKeeps(w.(op := Idle), t.obj, w.released);
    }
  }

  lemma {:induction false} DestroyKeeps(w: World, t: Local, ok: bool)
    requires Inv(w) && w.op == Running(t, Destroying)
    ensures Inv(DestroyStep(w, t, ok))
  {
    var w' := DestroyStep(w, t, ok);
    forall c | c in w'.calls ensures CallAllowed(w', c) {
      assert c in w.calls ==> CallAllowed(w, c);
    }
  }

  lemma {:induction false} EnvironmentKeeps(w: World, o: Object)
    requires Inv(w)
    requires Last(w).deleting ==> o.deleting
    requires Last(w).finalizer == o.finalizer
    ensures Inv(Store(w, o))
  {
    StoreKeeps(w.(op := Idle), o, w.released);
    if w.op.Running? {
      StoreKeepsOp(w, o);
    }
  }

  lemma {:induction false} StepKeeps(w: World, e: Event)
    requires Inv(w)
    ensures Inv(Apply(w, e))
  {
    match e {
      case Edit(s, others) => EnvironmentKeeps(w, Last(w).(spec := s, others := others));
      case Delete => EnvironmentKeeps(w, Last(w).(deleting := true));
      case Begin(i) =>
      case Crash =>
      case _ =>
        if w.op.Running? {
          AnswerKeeps(w, e);
        }
    }
  }

  lemma {:induction false} AnswerKeeps(w: World, e: Event)
    requires Inv(w) && w.op.Running?
    ensures Inv(Answered(w, w.op.t, w.op.pc, e))
  {
    var t, pc := w.op.t, w.op.pc;
    match e {
      case Update(fault) =>
        if pc.AddingFinalizer? || pc.Removing? {
          UpdateKeeps(w, t, pc, fault);
        }
      case Owner(needed, fault) =>
        if pc.Owning? {
          OwnerKeeps(w, t, needed, fault);
        }
      case Destroy(ok) =>
        if pc.Destroying? {
          DestroyKeeps(w, t, ok);
        }
      case WriteStatus(fault) =>
        if pc.Status? {
          StatusKeeps(w, t, fault);
        }
      case _ =>
    }
  }

  lemma {:induction false} RunKeeps(r: Run)
    requires FromInit(r)
    ensures Inv(State(r))
  {
    if r.Then? {
      RunKeeps(r.prev);
      StepKeeps(State(r.prev), r.e);
    }
  }

  /**
   In every run, stale reads included, DestroyTeam is called only for the resolved name of
   an object marked for deletion, and for "main" only if the object read allowed it.
   */
  lemma {:induction false} MainIsProtected(r: Run, c: DestroyCall)
    requires FromInit(r) && c in State(r).calls
    ensures var w := State(r);
            && c.version < |w.hist| && w.hist[c.version].deleting
            && c.name == ResolvedName(w.name, w.hist[c.version].spec)
            && (c.name == MAIN_TEAM ==> w.hist[c.version].spec.allowDestroy)
  {
    RunKeeps(r);
  }

  // ---------------------------------------------------------------- no leak

  /** What holds as long as reads never go back. */
  predicate Guarded(w: World) {
    && w.hist != [] && w.floor < |w.hist|
    && (w.op.Running? ==> w.floor <= w.op.t.version && (w.op.t.obj.deleting ==> w.op.t.version == w.floor))
    && (w.released.Some? || w.calls != [] ==> w.hist[w.floor].deleting)
    && (w.released.None? && w.mine != {} ==> w.alive && Last(w).finalizer)
    && match w.released
       case Some(DestroyedAs(n)) => n !in w.mine
       case _ => true
  }

  lemma {:induction false} StepGuards(w: World, e: Event)
    requires Inv(w) && Guarded(w) && (e.Begin? ==> w.floor <= e.version)
    ensures Guarded(Apply(w, e))
  {
    match e {
      case Create(ok, applied) => CreateGuards(w, ok, applied);
      case Update(fault) => UpdateGuards(w, fault);
      case Owner(needed, fault) => RefreshGuards(w, e);
      case WriteStatus(fault) => RefreshGuards(w, e);
      case Edit(s, others) => OutsideGuards(w, e);
      case Delete => OutsideGuards(w, e);
      case _ =>
    }
  }

  lemma {:induction false} RefreshGuards(w: World, e: Event)
    requires Inv(w) && Guarded(w) && (e.Owner? || e.WriteStatus?)
    ensures Guarded(Apply(w, e))
  {
  }

  lemma {:induction false} OutsideGuards(w: World, e: Event)
    requires Inv(w) && Guarded(w) && (e.Edit? || e.Delete?)
    ensures Guarded(Apply(w, e))
  {
  }

  lemma {:induction false} CreateGuards(w: World, ok: bool, applied: bool)
    requires Inv(w) && Guarded(w)
    ensures Guarded(Apply(w, Create(ok, applied)))
  {
    if w.op.Running? && w.op.pc.Creating? {
      assert !w.hist[w.op.t.version].deleting;
      assert !w.hist[w.floor].deleting;
    }
  }

  lemma {:induction false} UpdateGuards(w: World, fault: Fault)
    requires Inv(w) && Guarded(w)
    ensures Guarded(Apply(w, Update(fault)))
  {
  }

  lemma {:induction false} RunGuards(r: Run)
    requires FromInit(r) && MonotoneReads(r)
    ensures Guarded(State(r))
  {
    if r.Then? {
      RunKeeps(r.prev);
      RunGuards(r.prev);
      StepGuards(State(r.prev), r.e);
    }
  }

  /**
   No leak: as long as an ATC team of the operator's may exist, the Team object exists with
   its finalizer persisted, unless the operator let go of it, either under the Orphan policy
   or after destroying the team under the name it then had.
   */
  lemma {:induction false} TeamIsNotLeaked(r: Run, n: string)
    requires FromInit(r) && MonotoneReads(r)
    ensures var w := State(r);
            n in w.mine ==>
              || (w.alive && w.hist != [] && Last(w).finalizer)
              || w.released == Some(Orphaned)
              || (w.released.Some? && w.released.value.DestroyedAs? && w.released.value.name != n)
  {
    RunGuards(r);
  }

  /** teamName is never edited. */
  predicate NeverRenamed(r: Run) {
    r.Then? ==>
      NeverRenamed(r.prev)
      && (r.e.Edit? && State(r.prev).hist != [] ==> r.e.spec.teamName == Last(State(r.prev)).spec.teamName)
  }

  predicate OneName(w: World, n: string) {
    && (forall i :: 0 <= i < |w.hist| ==> ResolvedName(w.name, w.hist[i].spec) == n)
    && (w.op.Running? ==> ResolvedName(w.name, w.op.t.obj.spec) == n)
    && w.mine <= {n}
    && (w.op.Running? && w.op.pc.Removing? && w.op.pc.why.DestroyedAs? ==> w.op.pc.why.name == n)
    && (w.released.Some? && w.released.value.DestroyedAs? ==> w.released.value.name == n)
  }

  lemma {:induction false} StepKeepsName(w: World, e: Event, n: string)
    requires Inv(w) && OneName(w, n)
    requires e.Edit? ==> e.spec.teamName == Last(w).spec.teamName
    ensures OneName(Apply(w, e), n)
  {
    match e {
      case Update(fault) => AnswerKeepsName(w, e, n);
      case Owner(needed, fault) => AnswerKeepsName(w, e, n);
      case WriteStatus(fault) => AnswerKeepsName(w, e, n);
      case Edit(s, others) => StoreKeepsName(w, Last(w).(spec := s, others := others), n);
      case Delete => StoreKeepsName(w, Last(w).(deleting := true), n);
      case _ =>
    }
  }

  lemma {:induction false} StoreKeepsName(w: World, o: Object, n: string)
    requires OneName(w, n) && ResolvedName(w.name, o.spec) == n
    ensures OneName(Store(w, o), n)
  {
  }

  lemma {:induction false} AnswerKeepsName(w: World, e: Event, n: string)
    requires Inv(w) && OneName(w, n) && (e.Update? || e.Owner? || e.WriteStatus?)
    ensures OneName(Apply(w, e), n)
  {
    if w.op.Running? {
      var o := w.op.t.obj;
      StoreKeepsName(w, o, n);
      StoreKeepsName(w, o.(finalizer := true), n);
      StoreKeepsName(w, o.(finalizer := false), n);
    }
  }

  lemma {:induction false} RunKeepsName(r: Run)
    requires FromInit(r) && NeverRenamed(r)
    ensures exists n :: OneName(State(r), n)
  {
    if r.Then? {
      RunKeeps(r.prev);
      RunKeepsName(r.prev);
      var n :| OneName(State(r.prev), n);
      StepKeepsName(State(r.prev), r.e, n);
      assert OneName(State(r), n);
    } else {
      assert OneName(State(r), ResolvedName(r.w.name, r.w.hist[0].spec));
    }
  }

  /**
   Without a rename, once the object is gone no ATC team of the operator's is left,
   unless the policy was Orphan when the operator let go of it.
   */
  lemma {:induction false} GoneMeansDestroyedOrOrphaned(r: Run)
    requires FromInit(r) && MonotoneReads(r) && NeverRenamed(r) && !State(r).alive
    ensures State(r).mine == {} || State(r).released == Some(Orphaned)
  {
    RunGuards(r);
    RunKeepsName(r);
    var w := State(r);
    var n :| OneName(w, n);
    assert w.mine == {} || w.mine == {n};
  }

  // ---------------------------------------------------------------- exactly when a team is left

  /** Names under which CreateOrUpdate may have taken effect. */
  function Created(r: Run): set<string> {
    match r
    case Start(_) => {}
    case Then(prev, e) =>
      var w := State(prev);
      if w.hist != [] && w.op.Running? && w.op.pc.Creating? && e.Create? && (e.ok || e.applied)
      then Created(prev) + {ResolvedName(w.name, w.op.t.obj.spec)} else Created(prev)
  }

  /** Names under which DestroyTeam succeeded. */
  function Destroyed(r: Run): set<string> {
    match r
    case Start(_) => {}
    case Then(prev, e) =>
      var w := State(prev);
      if w.hist != [] && w.op.Running? && w.op.pc.Destroying? && e == Destroy(true)
      then Destroyed(prev) + {ResolvedName(w.name, w.op.t.obj.spec)} else Destroyed(prev)
  }

  lemma {:induction false} DestroyedWasCalled(r: Run)
    requires FromInit(r) && Destroyed(r) != {}
    ensures State(r).calls != []
  {
    if r.Then? {
      var w := State(r.prev);
      if Destroyed(r.prev) != {} {
        DestroyedWasCalled(r.prev);
      }
      CallsGrow(w, r.e);
      if w.hist != [] && w.op.Running? && w.op.pc.Destroying? && r.e == Destroy(true) {
        assert State(r) == DestroyStep(w, w.op.t, true);
      }
    }
  }

  lemma {:induction false} CallsGrow(w: World, e: Event)
    ensures w.calls <= Apply(w, e).calls
  {
  }

  /** Nothing is created once a destroy call was made. */
  lemma {:induction false} NoCreateAfterDestroy(w: World)
    requires Inv(w) && Guarded(w) && w.op.Running? && w.op.pc.Creating?
    ensures w.calls == []
  {
    assert !w.hist[w.op.t.version].deleting;
    assert !w.hist[w.floor].deleting;
  }

  lemma {:induction false} MineIsCreatedMinusDestroyed(r: Run)
    requires FromInit(r) && MonotoneReads(r)
    ensures State(r).mine == Created(r) - Destroyed(r)
  {
    if r.Then? {
      var w := State(r.prev);
      MineIsCreatedMinusDestroyed(r.prev);
      RunKeeps(r.prev);
      RunGuards(r.prev);
      if w.op.Running? && w.op.pc.Creating? {
        NoCreateAfterDestroy(w);
        if Destroyed(r.prev) != {} {
          DestroyedWasCalled(r.prev);
        }
      }
      MineChanges(w, r.e);
    }
  }

  lemma {:induction false} MineChanges(w: World, e: Event)
    requires Inv(w)
    ensures var n := if w.op.Running? then ResolvedName(w.name, w.op.t.obj.spec) else "";
            Apply(w, e).mine ==
            if w.op.Running? && w.op.pc.Creating? && e.Create? && (e.ok || e.applied) then w.mine + {n}
            else if w.op.Running? && w.op.pc.Destroying? && e == Destroy(true) then w.mine - {n}
            else w.mine
  {
  }

  // ---------------------------------------------------------------- where names come from

  /** A version that is marked for deletion and whose resolved name is n. */
  predicate WasDeletedAs(w: World, n: string) {
    exists i :: 0 <= i < |w.hist| && w.hist[i].deleting && ResolvedName(w.name, w.hist[i].spec) == n
  }

  /** A version that is marked for deletion under the Orphan policy. */
  predicate WasOrphaned(w: World) {
    exists i :: 0 <= i < |w.hist| && w.hist[i].deleting && w.hist[i].spec.orphan
  }

  /** A version that is not marked for deletion, holds the finalizer and has the resolved name n. */
  predicate WasHeldAs(w: World, n: string) {
    exists i :: 0 <= i < |w.hist| && !w.hist[i].deleting && w.hist[i].finalizer
                && ResolvedName(w.name, w.hist[i].spec) == n
  }

  predicate Justified(w: World, why: Release, destroyed: set<string>) {
    match why
    case Orphaned => WasOrphaned(w)
    case DestroyedAs(n) => n in destroyed && WasDeletedAs(w, n)
  }

  /** Creates, destroys and releases all go back to versions of the object that asked for them. */
  ghost predicate Provenance(w: World, created: set<string>, destroyed: set<string>) {
    && (forall n :: n in created ==> WasHeldAs(w, n))
    && (w.op.Running? && w.op.pc.Removing? ==> Justified(w, w.op.pc.why, destroyed))
    && (w.released.Some? ==> Justified(w, w.released.value, destroyed))
    && (forall i, j :: 0 <= i <= j < |w.hist| && w.hist[i].spec.teamName != "" ==>
                         w.hist[j].spec.teamName == w.hist[i].spec.teamName)
  }

  lemma {:induction false} GrowthKeeps(w: World, w': World, n: string)
    requires w.hist <= w'.hist && w'.name == w.name
    ensures WasHeldAs(w, n) ==> WasHeldAs(w', n)
    ensures WasDeletedAs(w, n) ==> WasDeletedAs(w', n)
    ensures WasOrphaned(w) ==> WasOrphaned(w')
  {
  }

  /** One event persists at most one object, which keeps a teamName once set. */
  lemma {:induction false} StepGrows(w: World, e: Event)
    requires Inv(w)
    ensures var w' := Apply(w, e);
            && w.hist <= w'.hist && |w'.hist| <= |w.hist| + 1 && w'.name == w.name
            && (Last(w).spec.teamName != "" ==> Last(w').spec.teamName == Last(w).spec.teamName)
  {
  }

  lemma {:induction false} NamesKept(w: World, w': World)
    requires w.hist != [] && w.hist <= w'.hist && |w'.hist| <= |w.hist| + 1
    requires Last(w).spec.teamName != "" ==> Last(w').spec.teamName == Last(w).spec.teamName
    requires forall i, j :: 0 <= i <= j < |w.hist| && w.hist[i].spec.teamName != "" ==>
                              w.hist[j].spec.teamName == w.hist[i].spec.teamName
    ensures forall i, j :: 0 <= i <= j < |w'.hist| && w'.hist[i].spec.teamName != "" ==>
                             w'.hist[j].spec.teamName == w'.hist[i].spec.teamName
  {
    forall i, j | 0 <= i <= j < |w'.hist| && w'.hist[i].spec.teamName != ""
      ensures w'.hist[j].spec.teamName == w'.hist[i].spec.teamName
    {
      if i < |w.hist| {
        assert w'.hist[i] == w.hist[i] && w'.hist[|w.hist| - 1] == Last(w);
        assert j < |w.hist| ==> w'.hist[j] == w.hist[j];
        assert w.hist[|w.hist| - 1].spec.teamName == w.hist[i].spec.teamName;
      }
    }
  }

  /** What is pending or done about releasing the object was asked for by a version of it. */
  lemma {:induction false} ReleaseJustified(w: World, e: Event, destroyed: set<string>, destroyed': set<string>)
    requires Inv(w) && destroyed <= destroyed'
    requires w.op.Running? && w.op.pc.Removing? ==> Justified(w, w.op.pc.why, destroyed)
    requires w.released.Some? ==> Justified(w, w.released.value, destroyed)
    requires w.op.Running? && w.op.pc.Destroying? && e == Destroy(true) ==>
               ResolvedName(w.name, w.op.t.obj.spec) in destroyed'
    ensures var w' := Apply(w, e);
            && (w'.op.Running? && w'.op.pc.Removing? ==> Justified(w', w'.op.pc.why, destroyed'))
            && (w'.released.Some? ==> Justified(w', w'.released.value, destroyed'))
  {
    var w' := Apply(w, e);
    StepGrows(w, e);
    forall n ensures WasDeletedAs(w, n) ==> WasDeletedAs(w', n) {
      GrowthKeeps(w, w', n);
    }
    GrowthKeeps(w, w', "");
    StepKeeps(w, e);
    var removing := w'.op.Running? && w'.op.pc.Removing?;
    if removing {
      assert w'.hist[w'.op.t.version] == w'.op.t.obj;
    }
    ReleaseSource(w, e);
  }

  /** Where a pending removal and a release come from. */
  lemma {:induction false} ReleaseSource(w: World, e: Event)
    requires Inv(w)
    ensures var w' := Apply(w, e);
            && (w'.op.Running? && w'.op.pc.Removing? ==>
                  w'.op == w.op || w'.op.pc.why == Orphaned
                  || (w.op.Running? && w.op.pc.Destroying? && e == Destroy(true)
                      && w'.op.pc.why == DestroyedAs(ResolvedName(w.name, w.op.t.obj.spec))))
            && (w'.released != w.released ==>
                  w.op.Running? && w.op.pc.Removing? && w'.released == Some(w.op.pc.why))
  {
  }

  lemma {:induction false} RunProvenance(r: Run)
    requires FromInit(r)
    ensures Provenance(State(r), Created(r), Destroyed(r))
  {
    if r.Then? {
      var w, w' := State(r.prev), State(r);
      RunKeeps(r.prev);
      RunProvenance(r.prev);
      StepGrows(w, r.e);
      NamesKept(w, w');
      ReleaseJustified(w, r.e, Destroyed(r.prev), Destroyed(r));
      forall n | n in Created(r) ensures WasHeldAs(w', n) {
        if n !in Created(r.prev) {
          assert w.hist[w.op.t.version] == w.op.t.obj;
          assert WasHeldAs(w, n);
        }
        GrowthKeeps(w, w', n);
      }
    }
  }

  /**
   In every run, with reads of any age: once CreateOrUpdate has been called, the object can
   disappear only after the operator let go of it, because DestroyTeam had succeeded under
   the name of a version marked for deletion, or because such a version asked for Orphan.
   */
  lemma {:induction false} GoneWasReleased(r: Run)
    requires FromInit(r) && Created(r) != {} && !State(r).alive
    ensures State(r).released.Some?
    ensures match State(r).released.value
            case DestroyedAs(n) => n in Destroyed(r) && WasDeletedAs(State(r), n)
            case Orphaned => WasOrphaned(State(r))
  {
    RunKeeps(r);
    RunProvenance(r);
    var w := State(r);
    var n :| n in Created(r);
    assert WasHeldAs(w, n);
    var i :| 0 <= i < |w.hist| && w.hist[i].finalizer;
    assert !Last(w).finalizer;
  }

  /** A name held before the deletion and different from the one deleted is metadata.name. */
  lemma {:induction false} OtherNameIsTheDefault(w: World, created: set<string>, destroyed: set<string>, m: string,
      n: string)
    requires Inv(w) && Provenance(w, created, destroyed)
    requires m in created && m != n && WasDeletedAs(w, n)
    ensures m == w.name && Last(w).spec.teamName == n
    ensures exists i :: 0 <= i < |w.hist| && w.hist[i].spec.teamName == ""
  {
    assert WasHeldAs(w, m);
    var i :| 0 <= i < |w.hist| && !w.hist[i].deleting && ResolvedName(w.name, w.hist[i].spec) == m;
    var j :| 0 <= j < |w.hist| && w.hist[j].deleting && ResolvedName(w.name, w.hist[j].spec) == n;
    assert i < j;
    var k := |w.hist| - 1;
    assert w.hist[i].spec.teamName != "" ==> w.hist[j].spec.teamName == w.hist[i].spec.teamName;
    assert w.hist[j].spec.teamName != "" ==> w.hist[k].spec.teamName == w.hist[j].spec.teamName;
  }

  /**
   With reads that never go back, the only team that can be left after a release as
   DestroyedAs(n) is the one named after the object: teamName was set after the team had
   been created under metadata.name, and nothing destroyed that one before.
   */
  lemma {:induction false} GoneLeavesNothingIff(r: Run, n: string)
    requires FromInit(r) && MonotoneReads(r) && State(r).released == Some(DestroyedAs(n))
    ensures var w := State(r);
            && w.mine <= {w.name}
            && (w.mine != {} <==> n != w.name && w.name in Created(r) && w.name !in Destroyed(r))
            && (w.mine != {} ==> w.hist != [] && Last(w).spec.teamName == n
                                 && exists i :: 0 <= i < |w.hist| && w.hist[i].spec.teamName == "")
  {
    var w := State(r);
    RunKeeps(r);
    RunProvenance(r);
    MineIsCreatedMinusDestroyed(r);
    assert WasDeletedAs(w, n) && n in Destroyed(r);
    var created, destroyed := Created(r), Destroyed(r);
    assert w.mine == created - destroyed;
    hide State;
    hide Created;
    hide Destroyed;
    forall m | m in w.mine
      ensures m == w.name && Last(w).spec.teamName == n
      ensures exists i :: 0 <= i < |w.hist| && w.hist[i].spec.teamName == ""
    {
      OtherNameIsTheDefault(w, created, destroyed, m, n);
    }
    assert w.mine != {} ==> w.name in w.mine;
    assert w.name in w.mine ==> n != w.name && w.name in created && w.name !in destroyed;
    assert w.name in created && w.name !in destroyed ==> w.name in w.mine;
    assert w.name in w.mine ==> w.mine != {};
  }

  // ---------------------------------------------------------------- runs that leave a team

  /** A first reconcile that finds no owner to set and whose status write lands. */
  function FirstReconcile(w: World): World {
    var w1 := Apply(Apply(Apply(w, Begin(0)), Update(Delivered)), Owner(false, Delivered));
    Apply(Apply(Apply(w1, Resolve(true)), Create(true, true)), WriteStatus(Delivered))
  }

  /** A reconcile of version i that destroys the team and removes the finalizer. */
  function LastReconcile(w: World, i: nat): World {
    Apply(Apply(Apply(Apply(w, Begin(i)), Resolve(true)), Destroy(true)), Update(Delivered))
  }

  lemma {:induction false} FirstReconcileCreates(w: World)
    requires Init(w) && !w.hist[0].spec.suspend
    ensures var o := w.hist[0].(finalizer := true);
            var n := ResolvedName(w.name, o.spec);
            FirstReconcile(w) == World(w.name, [w.hist[0], o, o], true, {n}, [], None, 0, Idle)
  {
    var o := w.hist[0].(finalizer := true);
    var n := ResolvedName(w.name, o.spec);
    var w2 := Apply(Apply(w, Begin(0)), Update(Delivered));
    assert w2 == World(w.name, w.hist + [o], true, {}, [], None, 0, Running(Local(1, o), Owning));
    var w5 := Apply(Apply(Apply(w2, Owner(false, Delivered)), Resolve(true)), Create(true, true));
    assert w5.mine == {n};
    assert w.hist + [o] + [o] == [w.hist[0], o, o];
  }

  /**
   A rename leaks: teamName is set after the team was created under metadata.name, the
   object is deleted, and the team of the old name stays although the policy is Delete.
   */
  lemma {:induction false} RenameLeaves(w: World, s: Spec)
    requires Init(w) && w.hist[0].spec == Spec("", false, false, false) && !w.hist[0].others
    requires s == Spec("renamed", false, false, false) && w.name != "renamed"
    ensures var w' := LastReconcile(Apply(Apply(FirstReconcile(w), Edit(s, false)), Delete), 4);
            !w'.alive && w'.released == Some(DestroyedAs("renamed")) && w.name in w'.mine
  {
    FirstReconcileCreates(w);
    var o := Object(s, true, false, true);
    var w2 := Apply(Apply(FirstReconcile(w), Edit(s, false)), Delete);
    assert |w2.hist| == 5 && w2.hist[4] == o && w2.alive && w2.op == Idle && w2.mine == {w.name} && w2.floor == 0;
    var w3 := Apply(w2, Begin(4));
    assert w3.op == Running(Local(4, o), ResolvingDestroy);
    var w5 := Apply(Apply(w3, Resolve(true)), Destroy(true));
    assert w5.op == Running(Local(4, o), Removing(DestroyedAs("renamed"))) && w.name in w5.mine;
  }

  /**
   A stale read leaks: after the object is gone, a reconcile that still reads it as it was
   before its deletion creates the team again. Reads that never go back rule this out.
   */
  lemma {:induction false} StaleReadLeaves(w: World)
    requires Init(w) && w.hist[0].spec == Spec("", false, false, false) && !w.hist[0].others && w.name != MAIN_TEAM
    ensures var gone := LastReconcile(Apply(FirstReconcile(w), Delete), 3);
            var w' := Apply(Apply(Apply(Apply(gone, Begin(2)), Owner(false, Delivered)), Resolve(true)),
                Create(true, true));
            !gone.alive && gone.mine == {} && gone.floor == 3 && !w'.alive && w.name in w'.mine
  {
    FirstReconcileCreates(w);
    var o := w.hist[0].(finalizer := true);
    var d := o.(deleting := true);
    var w2 := Apply(FirstReconcile(w), Delete);
    assert w2.hist == [w.hist[0], o, o, d] && w2.alive && w2.op == Idle && w2.mine == {w.name} && w2.floor == 0;
    var w3 := Apply(w2, Begin(3));
    assert w3.op == Running(Local(3, d), ResolvingDestroy);
    var w5 := Apply(Apply(w3, Resolve(true)), Destroy(true));
    assert w5.op == Running(Local(3, d), Removing(DestroyedAs(w.name))) && w5.mine == {} && w5.hist == w2.hist;
    var gone := Apply(w5, Update(Delivered));
    assert !gone.alive && gone.hist == w2.hist + [d.(finalizer := false)] && gone.op == Idle;
    var w6 := Apply(gone, Begin(2));
    assert w6.op == Running(Local(2, o), Owning);
    var w8 := Apply(Apply(w6, Owner(false, Delivered)), Resolve(true));
    assert w8.op == Running(Local(2, o), Creating);
  }
}
