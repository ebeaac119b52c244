/**
 The build trigger-and-track protocol as a state machine over two stores.

 The API server keeps one Build object. Its resource version is the position in
 `hist`, the sequence of everything ever persisted, so a stale read is a read of
 an earlier position and a write lands only on top of the last one. The ATC keeps
 the builds that exist with their phases. One reconcile at a time works on the
 object: `op` holds its in-memory copy and the single call it waits for. Every
 event is atomic; other writers, the ATC, failures and crashes come in between.
 An event that cannot happen in a state leaves it unchanged, so a run is any
 sequence of events.
 */
module BuildProtocol {
  import opened Options
  import opened Protocols
  import opened BuildTypes

  // ---------------------------------------------------------------- state

  /** What a reconcile returns. Watch means requeue after 30s with a watcher running. */
  datatype Verdict = Done | Requeue(seconds: nat) | Watch(id: Id) | Error

  /** The call a running reconcile waits for. */
  datatype Pc =
    | GettingJob
    | SettingOwner
    | ResolvingChain
    | Triggering
    | Reading(tries: nat)                   // persistBuildTracking: about to re-read
    | Recording(tries: nat, latest: Local)  // persistBuildTracking: about to write
    | Aborting
    | Observing
    | Commenting
    | Writing(onOk: Verdict, onErr: Verdict)

  datatype Op = Idle(verdict: Verdict) | Running(build: Local, pc: Pc)

  datatype Atc = Atc(next: Id, builds: map<Id, Phase>)

  /** Mutating calls sent to the ATC, whether or not they succeed. */
  datatype Call = TriggerCall | AbortCall(id: Id) | CommentCall(id: Id, text: string)

  /**
   `created` are the builds the ATC created for this object, `calls` the mutating
   ATC calls made, `retries` the attempt bound of the conflict-retry loop.
   */
  datatype World = World(hist: seq<Object>, alive: bool, atc: Atc, created: set<Id>, calls: seq<Call>,
                         op: Op, retries: nat, rounds: nat)

  // ---------------------------------------------------------------- events

  datatype Snapshot = Seen(version: nat) | Missing | Unreachable
  datatype JobLookup = JobFound(needsOwner: bool) | JobMissing | JobError

  datatype Reply =
    | Job(lookup: JobLookup)
    | Owner(fault: Fault)
    | Chain(ready: bool)
    | Trigger(info: AtcBuild)
    | TriggerFailure(created: bool)
    | Latest(seen: Snapshot)
    | Record(fault: Fault)
    | Abort(ok: bool)
    | Observe(reached: bool, info: AtcBuild, rest: int)
    | Comment(ok: bool)
    | Write(fault: Fault)

  datatype Outsider =
    | Edit(obj: Object)          // another writer, leaving buildID and phase alone
    | Remove                        // the object disappears
    | Progress(id: Id, phase: Phase)
    | Drop(id: Id)                  // the ATC forgets a build: its pipeline was recreated
    | Foreign                       // somebody else's build is created

  datatype Event = Begin(seen: Snapshot) | Answer(reply: Reply) | Outside(o: Outsider) | Crash

  // ---------------------------------------------------------------- API server

  datatype WriteResult = Ok | Conflict | Failure

  function Last(w: World): Object
    requires |w.hist| > 0
  {
    w.hist[|w.hist| - 1]
  }

  predicate Fits(w: World, version: nat) {
    w.alive && version + 1 == |w.hist|
  }

  function Append(w: World, o: Object): World {
    w.(hist := w.hist + [o])
  }

  /** A write based on `version`: optimistic locking plus a possibly lost answer. */
  function Put(w: World, version: nat, o: Object, fault: Fault): (r: (World, WriteResult)) {
    match fault
    case Delivered =>
      if Fits(w, version) then (Append(w, o), Ok) else (w, if w.alive then Conflict else Failure)
    case Lost(applied) =>
      (if applied && Fits(w, version) then Append(w, o) else w, Failure)
  }

  function CopyOf(w: World, version: nat): Local
    requires version < |w.hist|
  {
    var o := w.hist[version];
    Local(version, o.spec, o.deleting, o.status)
  }

  // ------------------------------------------- control flow between two calls

  /** Suspend, deletion and terminal short-circuits, then the jobRef guard. */
  function AfterRead(b: Local): Op {
    if b.spec.suspend then Running(WithReady(b, Suspended), Writing(Done, Error))
    else if b.deleting || IsTerminal(b.status.phase) then Idle(Done)
    else if !b.spec.hasJobRef then Running(WithReady(b, NoJobRef), Writing(Done, Done))
    else Running(b, GettingJob)
  }

  function AfterJob(b: Local, lookup: JobLookup): Op {
    match lookup
    case JobMissing => Idle(Done)
    case JobError => Idle(Error)
    case JobFound(needsOwner) => Running(b, if needsOwner then SettingOwner else ResolvingChain)
  }

  /** Adopt spec.buildID, or trigger, or go on with the tracked build. */
  function AfterChain(b: Local, ready: bool): Op {
    if !ready then Running(WithReady(b, ChainNotReady), Writing(Requeue(30), Requeue(30)))
    else if b.status.buildID.Some? then AfterTracked(b)
    else if b.spec.buildID.Some? then AfterTracked(b.(status := b.status.(buildID := b.spec.buildID)))
    else Running(b, Triggering)
  }

  function AfterTracked(b: Local): Op {
    if b.status.buildID.None? then Finish(b, false)
    else Running(b, if b.spec.canceled then Aborting else Observing)
  }

  function AfterObserved(b: Local): Op {
    if NeedsComment(b) then Running(b, Commenting) else Finish(b, false)
  }

  /** The final status write. */
  function Finish(b: Local, commentFailed: bool): Op {
    var b' := if commentFailed then b else WithReady(b, Tracked);
    Running(b', Writing(FinalVerdict(b', commentFailed), Error))
  }

  function FinalVerdict(b: Local, commentFailed: bool): Verdict {
    if commentFailed then Requeue(30)
    else if IsTerminal(b.status.phase) then Done
    else match b.status.buildID
         case Some(id) => Watch(id)
         case None => Requeue(30)
  }

  // ---------------------------------------------------------------- steps

  function Answered(w: World, b: Local, pc: Pc, r: Reply): World
    requires |w.hist| > 0
  {
    match pc
    case GettingJob => if r.Job? then w.(op := AfterJob(b, r.lookup)) else w
    case SettingOwner => if r.Owner? then OwnerStep(w, b, r.fault) else w
    case ResolvingChain => if r.Chain? then w.(op := AfterChain(b, r.ready)) else w
    case Triggering =>
      if r.Trigger? then TriggerStep(w, b, r.info)
      else if r.TriggerFailure? then TriggerFailStep(w, b, r.created)
      else w
    case Reading(tries) => if r.Latest? then LatestStep(w, b, tries, r.seen) else w
    case Recording(tries, latest) => if r.Record? then RecordStep(w, b, tries, latest, r.fault) else w
    case Aborting => if r.Abort? then AbortStep(w, b) else w
    case Observing => if r.Observe? then ObserveStep(w, b, r) else w
    case Commenting => if r.Comment? then CommentStep(w, b, r.ok) else w
    case Writing(onOk, onErr) => if r.Write? then WriteStep(w, b, onOk, onErr, r.fault) else w
  }

  function OwnerStep(w: World, b: Local, fault: Fault): World
    requires |w.hist| > 0
  {
    var (w', result) := Put(w, b.version, Last(w), fault);
    if result.Ok? then w'.(op := Running(CopyOf(w', |w'.hist| - 1), ResolvingChain))
    else w'.(op := Idle(Error))
  }

  /** The ATC creates a build under a fresh ID for this object. */
  function CreateBuild(w: World): World {
    w.(atc := Atc(w.atc.next + 1, w.atc.builds[w.atc.next := Pending]), created := w.created + {w.atc.next})
  }

  function TriggerStep(w: World, b: Local, info: AtcBuild): World {
    CreateBuild(w).(calls := w.calls + [TriggerCall],
    op := Running(Triggered(b, w.atc.next, info), Reading(w.retries)))
  }

  function TriggerFailStep(w: World, b: Local, created: bool): World {
    (if created then CreateBuild(w) else w).(calls := w.calls + [TriggerCall],
    op := Running(WithReady(b, TriggerFailed), Writing(Requeue(30), Requeue(30))))
  }

  function LatestStep(w: World, b: Local, tries: nat, seen: Snapshot): World {
    if seen.Seen? && seen.version < |w.hist| then
      var latest := CopyOf(w, seen.version);
      if latest.status.buildID.Some?
      then w.(op := AfterTracked(b.(version := latest.version, status := latest.status)))
      else w.(op := Running(b, Recording(tries, latest)))
    else w.(op := Idle(Requeue(2)))
  }

  function RecordStep(w: World, b: Local, tries: nat, latest: Local, fault: Fault): World
    requires |w.hist| > 0
  {
    var tracked := Retrack(latest.status, b.status);
    var (w', result) := Put(w, latest.version, Last(w).(status := tracked), fault);
    match result
    case Ok => w'.(op := AfterTracked(b.(version := |w.hist|, status := tracked)))
    case Conflict => w'.(op := if tries <= 1 then Idle(Requeue(2)) else Running(b, Reading(tries - 1)))
    case Failure => w'.(op := Idle(Requeue(2)))
  }

  function AbortStep(w: World, b: Local): World {
    match b.status.buildID
    case Some(id) => w.(calls := w.calls + [AbortCall(id)], op := Running(b, Observing))
    case None => w
  }

  function ObserveStep(w: World, b: Local, r: Reply): World
    requires r.Observe?
  {
    match b.status.buildID
    case None => w
    case Some(id) =>
      if r.reached && id !in w.atc.builds && !IsTerminal(b.status.phase) then
        w.(op := Running(b.(status := Vanished(b.status)), Writing(Requeue(5), Requeue(5))))
      else
        var seen := if r.reached && id in w.atc.builds then Observed(b.status, w.atc.builds[id], r.info) else b.status;
        w.(op := AfterObserved(b.(status := seen.(rest := r.rest))))
  }

  function CommentStep(w: World, b: Local, ok: bool): World {
    match b.status.buildID
    case None => w
    case Some(id) =>
      w.(calls := w.calls + [CommentCall(id, b.spec.comment)],
      op := if ok then Finish(b.(status := b.status.(comment := b.spec.comment)), false)
      else Finish(WithReady(b, CommentFailed), true))
  }

  function WriteStep(w: World, b: Local, onOk: Verdict, onErr: Verdict, fault: Fault): World
    requires |w.hist| > 0
  {
    var (w', result) := Put(w, b.version, Last(w).(status := b.status), fault);
    w'.(op := Idle(if result.Ok? then onOk else onErr))
  }

  function OutsideStep(w: World, o: Outsider): World
    requires |w.hist| > 0
  {
    match o
    case Edit(obj) =>
      if w.alive && obj.status.buildID == Last(w).status.buildID && obj.status.phase == Last(w).status.phase
      then Append(w, obj) else w
    case Remove => w.(alive := false)
    case Progress(id, phase) =>
      if id in w.atc.builds && !IsTerminal(w.atc.builds[id])
      then w.(atc := w.atc.(builds := w.atc.builds[id := phase])) else w
    case Drop(id) => w.(atc := w.atc.(builds := w.atc.builds - {id}))
    case Foreign => w.(atc := Atc(w.atc.next + 1, w.atc.builds[w.atc.next := Pending]))
  }

  function BeginStep(w: World, seen: Snapshot): World {
    if w.op.Running? then w
    else
      var op := match seen
                case Missing => Idle(Done)
                case Unreachable => Idle(Error)
                case Seen(i) => if i < |w.hist| then AfterRead(CopyOf(w, i)) else Idle(Done);
      w.(op := op, rounds := w.rounds + 1)
  }

  function Apply(w: World, e: Event): World {
    if |w.hist| == 0 then w
    else match e
         case Begin(seen) => BeginStep(w, seen)
         case Answer(r) => if w.op.Running? then Answered(w, w.op.build, w.op.pc, r) else w
         case Outside(o) => OutsideStep(w, o)
         case Crash => w.(op := Idle(Error))
  }

  // ---------------------------------------------------------------- runs

  type Run = Trace<World, Event>

  function State(r: Run): World {
    match r
    case Start(w) => w
    case Then(prev, e) => Apply(State(prev), e)
  }

  /** A Build just created, before any reconcile. */
  predicate Init(w: World) {
    && |w.hist| == 1 && w.alive
    && w.hist[0].status == Status(None, "", "", None, "", Unknown, "", Unset, w.hist[0].status.rest)
    && w.created == {} && w.calls == [] && w.op.Idle? && 0 < w.retries && w.rounds == 0
    && (forall id :: id in w.atc.builds ==> id < w.atc.next)
  }

  predicate FromInit(r: Run) {
    match r
    case Start(w) => Init(w)
    case Then(prev, _) => FromInit(prev)
  }

  /** r' is r followed by any number of events. */
  predicate Continues(r: Run, r': Run) {
    r' == r || (r'.Then? && Continues(r, r'.prev))
  }

  /** The read returns the last persisted object. */
  predicate Fresh(w: World, e: Event) {
    match e
    case Begin(Seen(i)) => i + 1 == |w.hist|
    case Answer(Latest(Seen(i))) => i + 1 == |w.hist|
    case _ => true
  }

  predicate FreshReads(r: Run) {
    r.Then? ==> FreshReads(r.prev) && Fresh(State(r.prev), r.e)
  }

  /** r' continues r with fresh reads only. */
  predicate ContinuesFresh(r: Run, r': Run) {
    r' == r || (r'.Then? && ContinuesFresh(r, r'.prev) && Fresh(State(r'.prev), r'.e))
  }
}
