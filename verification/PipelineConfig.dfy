/**
 Applying a pipeline config by compare-and-set, as a state machine over two stores.

 The ATC keeps one config with a version token that is never reused; 0 stands for
 "no pipeline". The API server keeps the Pipeline's status; its resource version is the
 position in `hist`. A reconcile fetches the token, saves with it, retries once, and
 records the hash of what it saved. Others write both stores between any two steps.
 `hash` is the digest of the config bytes, left uninterpreted.
 */
module PipelineConfig {
  import opened Options
  import opened Protocols

  type Bytes = string
  type Digest = Bytes -> string

  datatype Config = Config(version: nat, bytes: Bytes)

  const NO_CONFIG := Config(0, "")

  /** `rest` stands for the fields the config protocol never reads. */
  datatype Status = Status(configHash: string, pipelineID: Option<int>, rest: int)

  datatype Local = Local(version: nat, status: Status)

  datatype Failure = Comparison | Other

  /** `seen` is what the last fetch returned, None if it failed; `raced` says if others changed the config since. */
  datatype Pc =
    | Fetching(tries: nat)
    | Saving(tries: nat, seen: Option<Config>, raced: bool)
    | Observing
    | Writing(failed: Option<Failure>)

  /** `saved`: this reconcile knows that its config was accepted. */
  datatype Op = Idle | Running(p: Local, bytes: Bytes, saved: bool, pc: Pc)

  datatype Accepted = Accepted(bytes: Bytes, seen: Option<Config>, replaced: Config)
  datatype Refused = Refused(fetched: bool, raced: bool)

  /**
   `accepted` are the operator's saves the ATC took, `refused` and `saves` the comparison
   errors and save calls of the current reconcile, `recorded` the config whose hash was
   last written to the status.
   */
  datatype World = World(hist: seq<Status>, cfg: Config, next: nat, op: Op, accepted: seq<Accepted>,
                         refused: seq<Refused>, saves: nat, recorded: Option<Bytes>)

  /** Begin without bytes is a reconcile that stops before the config with a status write. */
  datatype Event =
    | Begin(version: nat, bytes: Option<Bytes>)
    | Fetch(ok: bool)
    | Save(fault: Fault)
    | Observe(id: Option<int>, rest: int)
    | Record(fault: Fault)
    | OtherConfig(config: Bytes)
    | OtherDelete
    | OtherEdit(rest: int)
    | Crash

  function Last(w: World): Status {
    if w.hist == [] then Status("", None, 0) else w.hist[|w.hist| - 1]
  }

  function Newest(w: World): nat {
    if w.hist == [] then 0 else |w.hist| - 1
  }

  predicate UpToDate(hash: Digest, s: Status, bytes: Bytes) {
    s.configHash == hash(bytes) && s.pipelineID.Some?
  }

  /** The token sent with a save: empty if the fetch failed or found nothing. */
  function Token(seen: Option<Config>): nat {
    if seen.Some? then seen.value.version else 0
  }

  function BeginStep(hash: Digest, w: World, i: nat, bytes: Option<Bytes>): World {
    if w.op.Running? || i >= |w.hist| then w
    else
      var p := Local(i, w.hist[i]);
      var op := match bytes
                case None => Running(p, "", false, Writing(None))
                case Some(b) => Running(p, b, false, if UpToDate(hash, p.status, b) then Observing else Fetching(2));
      w.(op := op, refused := [], saves := 0)
  }

  function FetchStep(w: World, ok: bool): World
    requires w.op.Running? && w.op.pc.Fetching?
  {
    w.(op := w.op.(pc := Saving(w.op.pc.tries, if ok then Some(w.cfg) else None, false)))
  }

  function Accept(w: World): World
    requires w.op.Running? && w.op.pc.Saving?
  {
    w.(cfg := Config(w.next, w.op.bytes), next := w.next + 1,
    accepted := w.accepted + [Accepted(w.op.bytes, w.op.pc.seen, w.cfg)])
  }

  predicate Takes(w: World) {
    w.op.Running? && w.op.pc.Saving? && Token(w.op.pc.seen) == w.cfg.version
  }

  function SaveStep(hash: Digest, w: World, fault: Fault): World
    requires w.op.Running? && w.op.pc.Saving?
  {
    var op, w1 := w.op, w.(saves := w.saves + 1);
    match fault
    case Delivered =>
      if Takes(w) then
        Accept(w1).(op := op.(p := op.p.(status := op.p.status.(configHash := hash(op.bytes))),
        saved := true, pc := Observing))
      else
        w1.(refused := w.refused + [Refused(op.pc.seen.Some?, op.pc.raced)],
        op := op.(pc := if op.pc.tries <= 1 then Writing(Some(Comparison)) else Fetching(op.pc.tries - 1)))
    case Lost(applied) =>
      (if applied && Takes(w) then Accept(w1) else w1).(op := op.(pc := Writing(Some(Other))))
  }

  function ObserveStep(w: World, id: Option<int>, rest: int): World
    requires w.op.Running? && w.op.pc.Observing?
  {
    var s := w.op.p.status;
    w.(op := w.op.(p := w.op.p.(status := s.(pipelineID := if id.Some? then id else s.pipelineID, rest := rest)),
    pc := Writing(None)))
  }

  /** The status write lands: nobody wrote in between, and it was applied. */
  predicate Lands(w: World, fault: Fault) {
    w.op.Running? && w.op.p.version + 1 == |w.hist| && (fault.Delivered? || fault.applied)
  }

  function RecordStep(w: World, fault: Fault): World
    requires w.op.Running?
  {
    if Lands(w, fault) then
      w.(hist := w.hist + [w.op.p.status], recorded := if w.op.saved then Some(w.op.bytes) else w.recorded, op := Idle)
    else w.(op := Idle)
  }

  /** Others change the config: any save in preparation is now racing. */
  function Overtake(w: World, cfg: Config): World {
    var op := if w.op.Running? && w.op.pc.Saving? then w.op.(pc := w.op.pc.(raced := true)) else w.op;
    w.(cfg := cfg, op := op)
  }

  function Apply(hash: Digest, w: World, e: Event): World {
    if w.hist == [] then w
    else match e
         case Begin(i, bytes) => BeginStep(hash, w, i, bytes)
         case Fetch(ok) => if w.op.Running? && w.op.pc.Fetching? then FetchStep(w, ok) else w
         case Save(fault) => if w.op.Running? && w.op.pc.Saving? then SaveStep(hash, w, fault) else w
         case Observe(id, rest) => if w.op.Running? && w.op.pc.Observing? then ObserveStep(w, id, rest) else w
         case Record(fault) => if w.op.Running? && w.op.pc.Writing? then RecordStep(w, fault) else w
         case OtherConfig(bytes) => Overtake(w, Config(w.next, bytes)).(next := w.next + 1)
         case OtherDelete => Overtake(w, NO_CONFIG)
         case OtherEdit(rest) => w.(hist := w.hist + [Last(w).(rest := rest)])
         case Crash => w.(op := Idle)
  }

  type Run = Trace<World, Event>

  function State(hash: Digest, r: Run): World {
    match r
    case Start(w) => w
    case Then(prev, e) => Apply(hash, State(hash, prev), e)
  }

  /** A Pipeline just created; the ATC may already have a config from others. */
  predicate Init(w: World) {
    && |w.hist| == 1 && w.hist[0].configHash == "" && w.hist[0].pipelineID.None?
    && w.op.Idle? && w.accepted == [] && w.recorded.None? && w.refused == [] && w.saves == 0
    && w.cfg.version < w.next && (w.cfg.version == 0 ==> w.cfg == NO_CONFIG)
  }

  predicate FromInit(r: Run) {
    match r
    case Start(w) => Init(w)
    case Then(prev, _) => FromInit(prev)
  }

  // ---------------------------------------------------------------- invariant

  /** What an accepted save replaced is what its own fetch returned, or nothing at all. */
  predicate ReplacedWhatItSaw(a: Accepted) {
    a.replaced == if a.seen.Some? then a.seen.value else NO_CONFIG
  }

  predicate Excused(x: Refused) {
    !x.fetched || x.raced
  }

  function RecordedHash(hash: Digest, w: World): string {
    if w.recorded.Some? then hash(w.recorded.value) else ""
  }

  predicate OpInv(hash: Digest, w: World, op: Op)
    requires op.Running?
  {
    && op.p.version < |w.hist|
    && w.saves <= 2
    && (op.p.status.configHash == if op.saved then hash(op.bytes) else w.hist[op.p.version].configHash)
    && (op.saved ==> (op.pc.Observing? || op.pc == Writing(None))
                     && w.accepted != [] && w.accepted[|w.accepted| - 1].bytes == op.bytes)
    && (op.pc.Fetching? || op.pc.Saving? ==> 1 <= op.pc.tries && w.saves + op.pc.tries == 2 && |w.refused| == w.saves)
    && (op.pc.Saving? && op.pc.seen.Some? ==>
          var c := op.pc.seen.value;
          c.version < w.next && (c.version == 0 ==> c == NO_CONFIG)
              && (c.version == w.cfg.version || !op.pc.raced ==> c == w.cfg))
    && (op.pc == Writing(Some(Comparison)) ==> |w.refused| == 2)
  }

  predicate Inv(hash: Digest, w: World) {
    && 0 < |w.hist|
    && w.cfg.version < w.next && (w.cfg.version == 0 ==> w.cfg == NO_CONFIG)
    && (forall a :: a in w.accepted ==> ReplacedWhatItSaw(a))
    && (forall x :: x in w.refused ==> Excused(x))
    && Last(w).configHash == RecordedHash(hash, w)
    && (w.op.Running? ==> OpInv(hash, w, w.op))
  }

  lemma {:induction false} SaveKeeps(hash: Digest, w: World, fault: Fault)
    requires Inv(hash, w) && w.op.Running? && w.op.pc.Saving?
    ensures Inv(hash, SaveStep(hash, w, fault))
  {
    if Takes(w) {
      assert ReplacedWhatItSaw(Accepted(w.op.bytes, w.op.pc.seen, w.cfg));
    } else {
      assert Excused(Refused(w.op.pc.seen.Some?, w.op.pc.raced));
    }
  }

  lemma {:induction false} RecordKeeps(hash: Digest, w: World, fault: Fault)
    requires Inv(hash, w) && w.op.Running? && w.op.pc.Writing?
    ensures Inv(hash, RecordStep(w, fault))
  {
  }

  lemma {:induction false} BeginKeeps(hash: Digest, w: World, i: nat, bytes: Option<Bytes>)
    requires Inv(hash, w)
    ensures Inv(hash, BeginStep(hash, w, i, bytes))
  {
  }

  lemma {:induction false} OthersKeep(hash: Digest, w: World, e: Event)
    requires Inv(hash, w) && (e.OtherConfig? || e.OtherDelete? || e.OtherEdit?)
    ensures Inv(hash, Apply(hash, w, e))
  {
  }

  lemma {:induction false} CallKeeps(hash: Digest, w: World, e: Event)
    requires Inv(hash, w) && (e.Fetch? || e.Observe? || e.Crash?)
    ensures Inv(hash, Apply(hash, w, e))
  {
  }

  lemma {:induction false} StepKeeps(hash: Digest, w: World, e: Event)
    requires Inv(hash, w)
    ensures Inv(hash, Apply(hash, w, e))
  {
    hide Inv;
    match e {
      case Begin(i, bytes) => BeginKeeps(hash, w, i, bytes);
      case Save(fault) =>
        if w.op.Running? && w.op.pc.Saving? {
          SaveKeeps(hash, w, fault);
        }
      case Record(fault) =>
        if w.op.Running? && w.op.pc.Writing? {
          RecordKeeps(hash, w, fault);
        }
      case OtherConfig(_) => OthersKeep(hash, w, e);
      case OtherDelete => OthersKeep(hash, w, e);
      case OtherEdit(_) => OthersKeep(hash, w, e);
      case Fetch(_) => CallKeeps(hash, w, e);
      case Observe(_, _) => CallKeeps(hash, w, e);
      case Crash => CallKeeps(hash, w, e);
    }
  }

  lemma {:induction false} RunKeeps(hash: Digest, r: Run)
    requires FromInit(r)
    ensures Inv(hash, State(hash, r))
  {
    if r.Then? {
      RunKeeps(hash, r.prev);
      StepKeeps(hash, State(hash, r.prev), r.e);
    }
  }

  // ---------------------------------------------------------------- no lost update

  /**
   In every run, an accepted save replaced exactly the config its reconcile had fetched
   last, bytes and all, or nothing if that fetch failed; no reconcile saves more than
   twice; and a comparison error surfaces only after two saves, each with a failed fetch
   or overtaken by another writer after it.
   */
  lemma {:induction false} NoLostUpdate(hash: Digest, r: Run, a: Accepted)
    requires FromInit(r)
    ensures var w := State(hash, r);
            && (a in w.accepted ==> ReplacedWhatItSaw(a))
            && (w.op.Running? ==> w.saves <= 2)
            && (w.op.Running? && w.op.pc == Writing(Some(Comparison)) ==>
                  |w.refused| == 2 && forall x :: x in w.refused ==> !x.fetched || x.raced)
  {
    RunKeeps(hash, r);
  }

  /** A save after a good fetch that nobody overtook is accepted; one overtaken by a config write is refused. */
  lemma {:induction false} SaveIsTakenUnlessRaced(hash: Digest, r: Run)
    requires FromInit(r) && State(hash, r).op.Running? && State(hash, r).op.pc.Saving?
    ensures var w := State(hash, r);
            && (w.op.pc.seen.Some? && !w.op.pc.raced ==> Takes(w))
            && (w.op.pc.seen.None? ==> (Takes(w) <==> w.cfg == NO_CONFIG))
            && (w.op.pc.seen.Some? ==> (Takes(w) <==> w.op.pc.seen.value == w.cfg))
  {
    RunKeeps(hash, r);
  }

  // ---------------------------------------------------------------- the recorded hash

  function LastAccepted(w: World): Option<Bytes> {
    if w.accepted == [] then None else Some(w.accepted[|w.accepted| - 1].bytes)
  }

  /** The persisted hash is that of the config the ATC last accepted from the operator. */
  predicate Agrees(hash: Digest, w: World) {
    Last(w).configHash == if LastAccepted(w).Some? then hash(LastAccepted(w).value) else ""
  }

  /** An accepted config goes unrecorded: its answer, its status write or the process is lost. */
  predicate Forgets(w: World, e: Event) {
    match e
    case Save(fault) => Takes(w) && fault == Lost(true)
    case Record(fault) => w.op.Running? && w.op.pc.Writing? && w.op.saved && !Lands(w, fault)
    case Crash => w.op.Running? && w.op.saved
    case _ => false
  }

  predicate Remembers(w: World, e: Event) {
    e.Record? && w.op.Running? && w.op.pc.Writing? && w.op.saved && Lands(w, e.fault)
  }

  /** Since the last accepted config was forgotten, if one was, another one has been recorded. */
  predicate OnRecord(hash: Digest, r: Run) {
    r.Then? ==>
      var w := State(hash, r.prev);
      !Forgets(w, r.e) && (Remembers(w, r.e) || OnRecord(hash, r.prev))
  }

  /** The last accepted config is recorded, or about to be. */
  predicate Accounted(w: World) {
    (w.op.Running? && w.op.saved) || w.recorded == LastAccepted(w)
  }

  lemma {:induction false} StepAccounts(hash: Digest, w: World, e: Event)
    requires Inv(hash, w) && !Forgets(w, e) && (Remembers(w, e) || Accounted(w))
    ensures Accounted(Apply(hash, w, e))
  {
    match e
    case Begin(i, bytes) =>
    case Save(fault) =>
    case Record(fault) =>
    case _ =>
  }

  lemma {:induction false} OnRecordMeansRecorded(hash: Digest, r: Run)
    requires FromInit(r) && OnRecord(hash, r)
    ensures Accounted(State(hash, r))
  {
    if r.Then? {
      var w := State(hash, r.prev);
      RunKeeps(hash, r.prev);
      if !Remembers(w, r.e) {
        OnRecordMeansRecorded(hash, r.prev);
      }
      hide Inv;
      hide Accounted;
      StepAccounts(hash, w, r.e);
    }
  }

  /** Between reconciles, while the last accepted config is on record, the persisted hash is its hash. */
  lemma {:induction false} OnRecordAgrees(hash: Digest, r: Run)
    requires FromInit(r) && State(hash, r).op.Idle? && OnRecord(hash, r)
    ensures Agrees(hash, State(hash, r))
  {
    RunKeeps(hash, r);
    OnRecordMeansRecorded(hash, r);
  }

  /**
   With a digest that tells configs apart and is never empty, in every run the persisted
   hash agrees with the ATC's last accepted config exactly if the config recorded last is
   the one accepted last.
   */
  lemma {:induction false} HashAgreesIff(hash: Digest, r: Run)
    requires FromInit(r)
    requires forall a, b :: hash(a) == hash(b) ==> a == b
    requires forall a :: hash(a) != ""
    ensures var w := State(hash, r); Agrees(hash, w) <==> w.recorded == LastAccepted(w)
  {
    RunKeeps(hash, r);
  }

  /**
   In a run that never forgets, a reconcile that reads the current status skips the save
   exactly if its bytes are those the ATC last accepted from the operator and the pipeline's
   ID is known.
   */
  lemma {:induction false} SkipIff(hash: Digest, r: Run, bytes: Bytes)
    requires FromInit(r) && State(hash, r).op.Idle? && OnRecord(hash, r)
    requires forall a, b :: hash(a) == hash(b) ==> a == b
    requires hash(bytes) != ""
    ensures var w := State(hash, r);
            var w' := Apply(hash, w, Begin(Newest(w), Some(bytes)));
            && w'.op.Running? && w'.saves == 0
            && (w'.op.pc.Observing? <==> LastAccepted(w) == Some(bytes) && Last(w).pipelineID.Some?)
            && (!w'.op.pc.Observing? <==> w'.op.pc == Fetching(2))
  {
    RunKeeps(hash, r);
    OnRecordAgrees(hash, r);
  }

  // ---------------------------------------------------------------- after a loss

  /** The events of a reconcile on the current status in which nothing fails and nobody interferes. */
  function Calm(hash: Digest, r: Run, bytes: Bytes, id: int, rest: int): Run {
    var r0 := Then(r, Begin(Newest(State(hash, r)), Some(bytes)));
    Then(Then(Then(Then(r0, Fetch(true)), Save(Delivered)), Observe(Some(id), rest)), Record(Delivered))
  }

  /** Its effect when it has to save. */
  function Applied(hash: Digest, w: World, bytes: Bytes, id: int, rest: int): World {
    var s := Status(hash(bytes), Some(id), rest);
    World(w.hist + [s], Config(w.next, bytes), w.next + 1, Idle, w.accepted + [Accepted(bytes, Some(w.cfg), w.cfg)],
          [], 1, Some(bytes))
  }

  lemma {:induction false} CalmState(hash: Digest, r: Run, bytes: Bytes, id: int, rest: int)
    requires FromInit(r) && State(hash, r).op.Idle?
    ensures var w := State(hash, r);
            State(hash, Calm(hash, r, bytes, id, rest)) ==
            if UpToDate(hash, Last(w), bytes)
            then w.(hist := w.hist + [Last(w).(pipelineID := Some(id), rest := rest)], refused := [], saves := 0)
            else Applied(hash, w, bytes, id, rest)
    ensures !UpToDate(hash, Last(State(hash, r)), bytes) ==> OnRecord(hash, Calm(hash, r, bytes, id, rest))
  {
    RunKeeps(hash, r);
    hide Inv;
    var w := State(hash, r);
    var r0 := Then(r, Begin(Newest(w), Some(bytes)));
    var r1 := Then(r0, Fetch(true));
    var r2 := Then(r1, Save(Delivered));
    var r3 := Then(r2, Observe(Some(id), rest));
    var r4 := Then(r3, Record(Delivered));
    assert 0 < |w.hist| by { RunIsNonempty(hash, r); }
    var w0 := State(hash, r0);
    assert w0 == BeginStep(hash, w, |w.hist| - 1, Some(bytes));
    var w1 := State(hash, r1);
    var w2 := State(hash, r2);
    var w3 := State(hash, r3);
    if UpToDate(hash, Last(w), bytes) {
      assert w1 == w0 && w2 == w0;
    } else {
      assert w1 == FetchStep(w0, true);
      assert w2 == SaveStep(hash, w1, Delivered);
    }
    assert w3 == ObserveStep(w2, Some(id), rest);
    assert State(hash, r4) == RecordStep(w3, Delivered);
    assert Calm(hash, r, bytes, id, rest) == r4;
  }

  lemma {:induction false} RunIsNonempty(hash: Digest, r: Run)
    requires FromInit(r)
    ensures 0 < |State(hash, r).hist|
  {
    RunKeeps(hash, r);
  }

  /**
   After a loss, a calm reconcile repairs the record exactly if it saves at all: if the
   hash of its bytes is not the recorded one, or the pipeline's ID is unknown. A spec
   reverted to the recorded bytes therefore stays unapplied for good.
   */
  lemma {:induction false} CalmReconcileRepairsIff(hash: Digest, r: Run, bytes: Bytes, id: int, rest: int)
    requires FromInit(r) && State(hash, r).op.Idle? && !Agrees(hash, State(hash, r))
    ensures var w, w' := State(hash, r), State(hash, Calm(hash, r, bytes, id, rest));
            && w'.op.Idle?
            && (Agrees(hash, w') <==> !UpToDate(hash, Last(w), bytes))
            && (UpToDate(hash, Last(w), bytes) ==> w'.cfg == w.cfg && UpToDate(hash, Last(w'), bytes))
  {
    hide State;
    hide Calm;
    CalmState(hash, r, bytes, id, rest);
  }

  /** Whatever happened before, a calm reconcile that does save leaves the ATC with its bytes, on record. */
  lemma {:induction false} CalmReconcileApplies(hash: Digest, r: Run, bytes: Bytes, id: int, rest: int)
    requires FromInit(r) && State(hash, r).op.Idle? && !UpToDate(hash, Last(State(hash, r)), bytes)
    ensures var w' := State(hash, Calm(hash, r, bytes, id, rest));
            && w'.op.Idle? && w'.cfg.bytes == bytes && LastAccepted(w') == Some(bytes)
            && UpToDate(hash, Last(w'), bytes) && OnRecord(hash, Calm(hash, r, bytes, id, rest))
  {
    hide State;
    hide Calm;
    CalmState(hash, r, bytes, id, rest);
  }

  /** b is accepted, but the ATC's answer or the status write that follows is lost. */
  function Loss(hash: Digest, r: Run, b: Bytes, answer: Fault): Run {
    var r2 := Then(Then(Then(r, Begin(Newest(State(hash, r)), Some(b))), Fetch(true)), Save(answer));
    Then(Then(r2, Observe(Some(1), 0)), Record(Lost(false)))
  }

  lemma {:induction false} LossState(hash: Digest, r: Run, b: Bytes, answer: Fault)
    requires FromInit(r) && State(hash, r).op.Idle? && !UpToDate(hash, Last(State(hash, r)), b)
    requires answer == Delivered || answer == Lost(true)
    ensures var w, w' := State(hash, r), State(hash, Loss(hash, r, b, answer));
            w'.op.Idle? && w'.hist == w.hist && w'.cfg.bytes == b && LastAccepted(w') == Some(b)
  {
    RunIsNonempty(hash, r);
    var w := State(hash, r);
    var r0 := Then(r, Begin(Newest(w), Some(b)));
    var r1 := Then(r0, Fetch(true));
    var r2 := Then(r1, Save(answer));
    var r3 := Then(r2, Observe(Some(1), 0));
    var r4 := Then(r3, Record(Lost(false)));
    assert State(hash, r0) == BeginStep(hash, w, |w.hist| - 1, Some(b));
    assert State(hash, r1) == FetchStep(State(hash, r0), true);
    assert State(hash, r2) == SaveStep(hash, State(hash, r1), answer);
    var w3 := State(hash, r3);
    assert w3.op.Running? && w3.op.pc.Writing?;
    assert State(hash, r4) == RecordStep(w3, Lost(false));
    assert Loss(hash, r, b, answer) == r4;
  }

  /**
   Losing the status write, or the ATC's answer, and then reverting the spec leaves the
   ATC with the abandoned config although the reconcile finds itself up to date.
   */
  lemma {:induction false} LossThenRevertSticks(hash: Digest, w: World, a: Bytes, b: Bytes, answer: Fault)
    requires Init(w) && hash(a) != hash(b) && hash(a) != "" && (answer == Delivered || answer == Lost(true))
    ensures var r := Calm(hash, Loss(hash, Calm(hash, Start(w), a, 1, 0), b, answer), a, 1, 0);
            var w' := State(hash, r);
            w'.op.Idle? && w'.cfg.bytes == b && UpToDate(hash, Last(w'), a) && !Agrees(hash, w')
  {
    var r1 := Calm(hash, Start(w), a, 1, 0);
    CalmReconcileApplies(hash, Start(w), a, 1, 0);
    CalmFromInit(hash, Start(w), a, 1, 0);
    var r2 := Loss(hash, r1, b, answer);
    LossState(hash, r1, b, answer);
    assert FromInit(r2) by { LossFromInit(hash, r1, b, answer); }
    CalmReconcileRepairsIff(hash, r2, a, 1, 0);
  }

  lemma {:induction false} CalmFromInit(hash: Digest, r: Run, bytes: Bytes, id: int, rest: int)
    requires FromInit(r)
    ensures FromInit(Calm(hash, r, bytes, id, rest))
  {
    var r0 := Then(r, Begin(Newest(State(hash, r)), Some(bytes)));
    var r1 := Then(r0, Fetch(true));
    var r2 := Then(r1, Save(Delivered));
    assert FromInit(r1);
    assert FromInit(Then(r2, Observe(Some(id), rest)));
  }

  lemma {:induction false} LossFromInit(hash: Digest, r: Run, b: Bytes, answer: Fault)
    requires FromInit(r)
    ensures FromInit(Loss(hash, r, b, answer))
  {
    var r0 := Then(r, Begin(Newest(State(hash, r)), Some(b)));
    var r1 := Then(r0, Fetch(true));
    var r2 := Then(r1, Save(answer));
    assert FromInit(r1);
    assert FromInit(Then(r2, Observe(Some(1), 0)));
  }

  // ---------------------------------------------------------------- races

  /** A reconcile whose first save another writer overtakes; otherwise all goes well. */
  function RacedOnce(hash: Digest, r: Run, bytes: Bytes, other: Bytes, id: int, rest: int): Run {
    var raced := Then(RacedSave(hash, r, bytes, other), Fetch(true));
    Then(Then(Then(raced, Save(Delivered)), Observe(Some(id), rest)), Record(Delivered))
  }

  /** The same with a second writer overtaking the second save. */
  function RacedTwice(hash: Digest, r: Run, bytes: Bytes, other: Bytes, another: Bytes): Run {
    var raced := Then(Then(RacedSave(hash, r, bytes, other), Fetch(true)), OtherConfig(another));
    Then(Then(raced, Save(Delivered)), Record(Delivered))
  }

  function RacedSave(hash: Digest, r: Run, bytes: Bytes, other: Bytes): Run {
    var r0 := Then(r, Begin(Newest(State(hash, r)), Some(bytes)));
    Then(Then(Then(r0, Fetch(true)), OtherConfig(other)), Save(Delivered))
  }

  lemma {:induction false} RacedSaveState(hash: Digest, r: Run, bytes: Bytes, other: Bytes)
    requires FromInit(r) && State(hash, r).op.Idle? && !UpToDate(hash, Last(State(hash, r)), bytes)
    ensures var w := State(hash, r);
            State(hash, RacedSave(hash, r, bytes, other)) ==
            w.(cfg := Config(w.next, other), next := w.next + 1, saves := 1, refused := [Refused(true, true)],
               op := Running(Local(Newest(w), Last(w)), bytes, false, Fetching(1)))
  {
    RunKeeps(hash, r);
    RunIsNonempty(hash, r);
    var w := State(hash, r);
    assert w.cfg.version < w.next;
    hide Inv;
    var r0 := Then(r, Begin(Newest(w), Some(bytes)));
    var r1 := Then(r0, Fetch(true));
    var r2 := Then(r1, OtherConfig(other));
    var r3 := Then(r2, Save(Delivered));
    var w0 := State(hash, r0);
    assert w0 == BeginStep(hash, w, |w.hist| - 1, Some(bytes));
    var w1 := State(hash, r1);
    assert w1 == FetchStep(w0, true);
    var w2 := State(hash, r2);
    assert w2 == Overtake(w1, Config(w.next, other)).(next := w.next + 1);
    assert State(hash, r3) == SaveStep(hash, w2, Delivered);
    assert RacedSave(hash, r, bytes, other) == r3;
  }

  /**
   One race is survived: the token is fetched again and the second save replaces what the other
   writer left. After two the reconcile gives up, the ATC keeps what the last writer left, and
   the persisted hash is the old one.
   */
  lemma {:induction false} OneRaceIsSurvived(hash: Digest, r: Run, bytes: Bytes, other: Bytes, another: Bytes, id: int,
                                             rest: int)
    requires FromInit(r) && State(hash, r).op.Idle? && !UpToDate(hash, Last(State(hash, r)), bytes)
    ensures var w, w' := State(hash, r), State(hash, RacedOnce(hash, r, bytes, other, id, rest));
            && w'.op.Idle? && w'.cfg.bytes == bytes && w'.hist == w.hist + [Status(hash(bytes), Some(id), rest)]
            && w'.accepted == w.accepted + [Accepted(bytes, Some(Config(w.next, other)), Config(w.next, other))]
    ensures var w, w' := State(hash, r), State(hash, RacedTwice(hash, r, bytes, other, another));
            && w'.op.Idle? && w'.cfg.bytes == another && w'.accepted == w.accepted && w'.hist == w.hist + [Last(w)]
  {
    RacedSaveState(hash, r, bytes, other);
    var raced := RacedSave(hash, r, bytes, other);
    var w3 := State(hash, raced);
    RunIsNonempty(hash, r);
    var r4 := Then(raced, Fetch(true));
    var r5 := Then(r4, Save(Delivered));
    var r6 := Then(r5, Observe(Some(id), rest));
    var r7 := Then(r6, Record(Delivered));
    hide RacedSave;
    var w4 := State(hash, r4);
    assert w4 == FetchStep(w3, true);
    assert State(hash, r5) == SaveStep(hash, w4, Delivered);
    assert State(hash, r6) == ObserveStep(State(hash, r5), Some(id), rest);
    assert State(hash, r7) == RecordStep(State(hash, r6), Delivered);
    assert RacedOnce(hash, r, bytes, other, id, rest) == r7;
    var q5 := Then(r4, OtherConfig(another));
    var q6 := Then(q5, Save(Delivered));
    var q7 := Then(q6, Record(Delivered));
    assert State(hash, q5) == Overtake(w4, Config(w4.next, another)).(next := w4.next + 1);
    assert State(hash, q6) == SaveStep(hash, State(hash, q5), Delivered);
    assert State(hash, q7) == RecordStep(State(hash, q6), Delivered);
    assert RacedTwice(hash, r, bytes, other, another) == q7;
  }

  // ---------------------------------------------------------------- the pipeline's ID

  /** No version has lost an ID that an earlier one had, and the running reconcile has not either. */
  predicate KeepsID(w: World) {
    && (forall i, j :: 0 <= i <= j < |w.hist| && w.hist[i].pipelineID.Some? ==> w.hist[j].pipelineID.Some?)
    && (w.op.Running? ==> w.op.p.version < |w.hist|
                          && (w.hist[w.op.p.version].pipelineID.Some? ==> w.op.p.status.pipelineID.Some?))
  }

  lemma {:induction false} StepKeepsID(hash: Digest, w: World, e: Event)
    requires KeepsID(w)
    ensures KeepsID(Apply(hash, w, e))
  {
  }

  /** In every run an ID once persisted stays: an ATC that does not name the pipeline makes nobody forget it. */
  lemma {:induction false} PipelineIDStays(hash: Digest, r: Run, i: nat, j: nat)
    requires FromInit(r) && i <= j < |State(hash, r).hist|
    ensures State(hash, r).hist[i].pipelineID.Some? ==> State(hash, r).hist[j].pipelineID.Some?
  {
    RunKeepsID(hash, r);
  }

  lemma {:induction false} RunKeepsID(hash: Digest, r: Run)
    requires FromInit(r)
    ensures KeepsID(State(hash, r))
  {
    if r.Then? {
      RunKeepsID(hash, r.prev);
      StepKeepsID(hash, State(hash, r.prev), r.e);
    }
  }
}
