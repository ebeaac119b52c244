/**
 The Build custom resource as the build controller sees it, and the in-memory
 status edits the controller makes between two API calls.
 */
module BuildTypes {
  import opened Options

  // Concourse build IDs are positive; the controller uses 0 for "no build".
  type Id = n: int | 0 < n witness 1

  datatype Phase = Unknown | Pending | Started | Succeeded | Failed | Errored | Aborted

  predicate IsTerminal(p: Phase) {
    match p
    case Succeeded | Failed | Errored | Aborted => true
    case _ => false
  }

  /** Reason of the Ready condition. */
  datatype Ready = Unset | Suspended | NoJobRef | ChainNotReady | TriggerFailed | CommentFailed | Tracked

  datatype Spec = Spec(suspend: bool, hasJobRef: bool, buildID: Option<Id>, rerunOf: string,
                       comment: string, canceled: bool)

  /** `rest` stands for every status field the protocol never reads: inputs, outputs, URLs, times. */
  datatype Status = Status(buildID: Option<Id>, buildName: string, apiURL: string, startTime: Option<int>,
                           rerunOf: string, phase: Phase, comment: string, ready: Ready, rest: int)

  datatype Object = Object(spec: Spec, deleting: bool, status: Status)

  /** The operator may act on this version at all. */
  predicate Active(o: Object) {
    o.spec.hasJobRef && !o.spec.suspend && !o.deleting && !IsTerminal(o.status.phase)
  }

  /** There is no build to track or adopt. */
  predicate IsNew(o: Object) {
    o.status.buildID.None? && o.spec.buildID.None?
  }

  /** An object as one client holds it: a possibly stale copy with its resource version. */
  datatype Local = Local(version: nat, spec: Spec, deleting: bool, status: Status)

  /** What the ATC reports about a build, besides its ID and phase. */
  datatype AtcBuild = AtcBuild(name: string, apiURL: string, startTime: int)

  function WithReady(b: Local, r: Ready): Local {
    b.(status := b.status.(ready := r))
  }

  /** The copy after a successful create or rerun. */
  function Triggered(b: Local, id: Id, info: AtcBuild): Local {
    b.(status := b.status.(
    buildID := Some(id),
    buildName := info.name,
    apiURL := info.apiURL,
    startTime := if info.startTime > 0 then Some(info.startTime) else b.status.startTime,
    rerunOf := if b.spec.rerunOf != "" then b.spec.rerunOf else b.status.rerunOf))
  }

  /** The latest status with the five tracking fields of `mine` laid over it. */
  function Retrack(latest: Status, mine: Status): Status {
    latest.(buildID := mine.buildID, buildName := mine.buildName, apiURL := mine.apiURL,
    startTime := mine.startTime, rerunOf := mine.rerunOf)
  }

  /** The reset made when the ATC has lost the build: three fields, nothing else. */
  function Vanished(s: Status): Status {
    s.(buildID := None, buildName := "", phase := Unknown)
  }

  function Observed(s: Status, phase: Phase, info: AtcBuild): Status {
    s.(phase := phase,
    buildName := if info.name != "" then info.name else s.buildName,
    apiURL := if info.apiURL != "" then info.apiURL else s.apiURL,
    startTime := if info.startTime > 0 then Some(info.startTime) else s.startTime)
  }

  predicate NeedsComment(b: Local) {
    b.spec.comment != "" && b.spec.comment != b.status.comment
  }
}
