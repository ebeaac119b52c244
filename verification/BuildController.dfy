/**
 The build reconciler in the operator's imperative form, proved to be a run of the
 protocol: each API call is a method of the cluster that first lets the outside act
 and then performs one atomic step.
 */
module BuildController {
  import opened Options
  import opened Protocols
  import opened BuildTypes
  import opened BuildProtocol
  import opened BuildInvariant

  /** What happens around one API call: outside events before it, then its answer. */
  datatype Tick = Tick(outside: seq<Outsider>, seen: Snapshot, lookup: JobLookup, ok: bool, created: bool,
                       info: AtcBuild, rest: int, fault: Fault)

  /** The in-memory Build object that the controller's functions share and update. */
  class Build {
    var version: nat
    var spec: Spec
    var deleting: bool
    var status: Status

    constructor ()
      ensures Value() == Local(0, Spec(false, false, None, "", "", false), false,
                               Status(None, "", "", None, "", Unknown, "", Unset, 0))
    {
      version, deleting := 0, false;
      spec := Spec(false, false, None, "", "", false);
      status := Status(None, "", "", None, "", Unknown, "", Unset, 0);
    }

    function Value(): Local
      reads this
    {
      Local(version, spec, deleting, status)
    }

    method Load(b: Local)
      modifies this
      ensures Value() == b
    {
      version, spec, deleting, status := b.version, b.spec, b.deleting, b.status;
    }
  }

  /** What the ATC said about the build asked for: whether it answered, and the phase if it has the build. */
  datatype Look = Look(id: Id, reached: bool, found: Option<Phase>)

  /** The answers to the calls since the object was read, the last one outermost. */
  datatype Heard = Silence | Heard(last: Reply, before: Heard)

  /** The last event is a status write of the reconciled object that landed and was answered. */
  ghost predicate Confirmed(w0: World, es: seq<Event>) {
    && es != []
    && var w := State(RunOf(w0, es[..|es| - 1]));
    w.op.Running? && es[|es| - 1] == Answer(Write(Delivered)) && Fits(w, w.op.build.version)
  }

  lemma {:induction false} Grown(w: World, w': World)
    requires 0 < |w.hist| && Extends(w, w')
    ensures w.hist <= w'.hist
  {
  }

  lemma {:induction false} OthersGoUnnoticed(w: World, o: Outsider)
    ensures var w' := Apply(w, Outside(o));
            && w'.op == w.op && w'.retries == w.retries && w'.rounds == w.rounds && w'.calls == w.calls
  {
  }

  /**
   API server and ATC. `script` decides everything the controller does not; `lookups`, `looks`
   and `heard` are the answers to the reads of the object, to the questions about a build, and
   to all calls since the last read.
   */
  class Cluster {
    ghost const init: World
    ghost var events: seq<Event>
    var w: World
    const script: nat -> Tick
    var clock: nat
    var lookups: seq<Snapshot>
    var looks: seq<Look>
    var heard: Heard

    constructor (w0: World, script: nat -> Tick)
      requires Init(w0)
      ensures Valid() && w == w0 && events == [] && init == w0
    {
      init, w, events, clock, lookups, looks, heard := w0, w0, [], 0, [], [], Silence;
      this.script := script;
      new;
      RunKeeps(Start(w0));
    }

    /** The state is the one reached by the events so far. */
    ghost predicate Valid()
      reads this`w, this`events
    {
      Init(init) && w == State(RunOf(init, events)) && Inv(w)
    }

    lemma {:induction false} Persisted()
      requires Valid()
      ensures 0 < |w.hist|
    {
    }

    method Do(e: Event)
      requires Valid()
      modifies this`w, this`events
      ensures Valid() && events == old(events) + [e] && w == Apply(old(w), e) && old(w.hist) <= w.hist
      ensures Confirmed(init, events) <==>
                old(w.op.Running?) && e == Answer(Write(Delivered)) && Fits(old(w), old(w.op.build.version))
    {
      StepKeeps(w, e);
      assert 0 < |w.hist|;
      Grown(w, Apply(w, e));
      hide Inv;
      events := events + [e];
      assert events[..|events| - 1] == old(events);
      w := Apply(w, e);
    }

    /** The outside events the script puts before the next call; the reconcile does not notice them. */
    method Settle() returns (t: Tick)
      requires Valid()
      modifies this`w, this`events, this`clock
      ensures Valid() && old(events) <= events && 0 < |w.hist| && old(w.hist) <= w.hist
      ensures w.op == old(w.op) && w.retries == old(w.retries) && w.rounds == old(w.rounds) && w.calls == old(w.calls)
      ensures t == script(old(clock)) && clock == old(clock) + 1
    {
      hide Apply;
      t := script(clock);
      clock := clock + 1;
      for i := 0 to |t.outside|
        invariant Valid() && old(events) <= events && clock == old(clock) + 1 && old(w.hist) <= w.hist
        invariant w.op == old(w.op) && w.retries == old(w.retries) && w.rounds == old(w.rounds)
        invariant w.calls == old(w.calls)
      {
        OthersGoUnnoticed(w, t.outside[i]);
        Do(Outside(t.outside[i]));
      }
    }

    /** A possibly stale read of the object. */
    method Get(b: Build) returns (seen: Snapshot)
      requires Valid() && w.op.Idle?
      modifies this`w, this`events, this`clock, this`lookups, this`heard, b
      ensures Valid() && old(events) <= events && w.rounds == old(w.rounds) + 1 && old(w.hist) <= w.hist
      ensures w.calls == old(w.calls) && w.retries == old(w.retries)
      ensures lookups == old(lookups) + [seen] && heard.Silence?
      ensures match seen
              case Missing => w.op == Idle(Done)
              case Unreachable => w.op == Idle(Error)
              case Seen(i) => i < |w.hist| && b.Value() == CopyOf(w, i) && w.op == AfterRead(b.Value())
    {
      var t := Settle();
      seen := if t.seen.Seen? && t.seen.version >= |w.hist| then Missing else t.seen;
      if seen.Seen? {
        b.Load(CopyOf(w, seen.version));
      }
      lookups, heard := lookups + [seen], Silence;
      Do(Begin(seen));
    }

    method GetJob(b: Build) returns (lookup: JobLookup)
      requires Valid() && w.op == Running(b.Value(), GettingJob)
      modifies this`w, this`events, this`clock, this`heard
      ensures Valid() && old(events) <= events && w.rounds == old(w.rounds) && old(w.hist) <= w.hist
      ensures w.calls == old(w.calls) && heard == Heard(Job(lookup), old(heard))
      ensures w.op == AfterJob(b.Value(), lookup)
    {
      var t := Settle();
      lookup := t.lookup;
      heard := Heard(Job(lookup), heard);
      Do(Answer(Job(lookup)));
    }

    /** Metadata update; its answer refreshes the whole in-memory object. */
    method Update(b: Build) returns (ok: bool)
      requires Valid() && w.op == Running(b.Value(), SettingOwner)
      modifies this`w, this`events, this`clock, this`heard, b
      ensures Valid() && old(events) <= events && w.rounds == old(w.rounds) && old(w.hist) <= w.hist
      ensures w.calls == old(w.calls) && heard.Heard? && heard.before == old(heard)
      ensures heard.last.Owner?
      ensures b.spec == old(b.spec) && b.deleting == old(b.deleting) && b.status == old(b.status)
      ensures w.op == if ok then Running(b.Value(), ResolvingChain) else Idle(Error)
    {
      assert OpInv(w, w.op.build, SettingOwner);
      var t := Settle();
      assert OpInv(w, w.op.build, SettingOwner);
      hide Inv;
      ok := Put(w, b.version, Last(w), t.fault).1.Ok?;
      heard := Heard(Owner(t.fault), heard);
      Do(Answer(Owner(t.fault)));
      if ok {
        b.Load(CopyOf(w, |w.hist| - 1));
      }
    }

    method ResolveClientForJob(b: Build) returns (ok: bool)
      requires Valid() && w.op == Running(b.Value(), ResolvingChain)
      modifies this`w, this`events, this`clock, this`heard
      ensures Valid() && old(events) <= events && w.rounds == old(w.rounds) && w.retries == old(w.retries)
      ensures old(w.hist) <= w.hist && w.calls == old(w.calls) && heard == Heard(Chain(ok), old(heard))
      ensures w.op == AfterChain(b.Value(), ok)
    {
      var t := Settle();
      ok := t.ok;
      heard := Heard(Chain(ok), heard);
      Do(Answer(Chain(ok)));
    }

    /** CreateJobBuild or RerunJobBuild. */
    method TriggerJobBuild(b: Build) returns (r: Option<(Id, AtcBuild)>)
      requires Valid() && w.op == Running(b.Value(), Triggering)
      modifies this`w, this`events, this`clock, this`heard
      ensures Valid() && old(events) <= events && w.rounds == old(w.rounds) && old(w.hist) <= w.hist
      ensures w.calls == old(w.calls) + [TriggerCall] && heard.Heard? && heard.before == old(heard)
      ensures match r
              case Some((id, info)) =>
                && w.op == Running(Triggered(b.Value(), id, info), Reading(w.retries))
                && heard.last == Trigger(info) && id in w.created
              case None =>
                && w.op == Running(WithReady(b.Value(), TriggerFailed), Writing(Requeue(30), Requeue(30)))
                && heard.last.TriggerFailure?
    {
      var t := Settle();
      if t.ok {
        r := Some((w.atc.next, t.info));
        heard := Heard(Trigger(t.info), heard);
        Do(Answer(Trigger(t.info)));
      } else {
        r := None;
        heard := Heard(TriggerFailure(t.created), heard);
        Do(Answer(TriggerFailure(t.created)));
      }
    }

    method GetLatest(b: Build, latest: Build) returns (ok: bool)
      requires Valid() && w.op.Running? && w.op.build == b.Value() && w.op.pc.Reading? && latest != b
      modifies this`w, this`events, this`clock, this`heard, latest
      ensures Valid() && old(events) <= events && w.rounds == old(w.rounds) && old(w.hist) <= w.hist
      ensures w.calls == old(w.calls) && heard.Heard? && heard.before == old(heard)
      ensures heard.last.Latest?
      ensures ok ==> latest.version < |w.hist| && latest.status == w.hist[latest.version].status
      ensures ok && latest.status.buildID.Some? ==>
                w.op == AfterTracked(b.Value().(version := latest.version, status := latest.status))
      ensures ok && latest.status.buildID.None? ==>
                w.op == Running(b.Value(), Recording(old(w.op.pc.tries), latest.Value()))
      ensures !ok ==> w.op == Idle(Requeue(2))
    {
      var t := Settle();
      ok := t.seen.Seen? && t.seen.version < |w.hist|;
      if ok {
        latest.Load(CopyOf(w, t.seen.version));
      }
      heard := Heard(Latest(t.seen), heard);
      Do(Answer(Latest(t.seen)));
    }

    /** The status write of persistBuildTracking. */
    method UpdateTracking(b: Build, latest: Build) returns (result: WriteResult)
      requires Valid() && w.op.Running? && w.op.build == b.Value() && w.op.pc.Recording? && latest != b
      requires latest.Value() == w.op.pc.latest.(status := Retrack(w.op.pc.latest.status, b.status))
      modifies this`w, this`events, this`clock, this`heard, latest
      ensures Valid() && old(events) <= events && w.rounds == old(w.rounds) && old(w.hist) <= w.hist
      ensures w.calls == old(w.calls) && heard.Heard? && heard.before == old(heard)
      ensures heard.last.Record?
      ensures result.Ok? ==>
                && latest.status == old(latest.status)
                && latest.version < |w.hist| && latest.status == w.hist[latest.version].status
                && w.op == AfterTracked(b.Value().(version := latest.version, status := latest.status))
      ensures var tries := old(w.op.pc.tries);
              result.Conflict? ==>
                w.op == if tries <= 1 then Idle(Requeue(2)) else Running(b.Value(), Reading(tries - 1))
      ensures result.Failure? ==> w.op == Idle(Requeue(2))
    {
      var t := Settle();
      var o := Last(w).(status := latest.status);
      result := Put(w, latest.version, o, t.fault).1;
      if result.Ok? {
        latest.version := |w.hist|;
      }
      heard := Heard(Record(t.fault), heard);
      Do(Answer(Record(t.fault)));
    }

    method AbortBuild(b: Build)
      requires Valid() && w.op == Running(b.Value(), Aborting) && b.status.buildID.Some?
      modifies this`w, this`events, this`clock, this`heard
      ensures Valid() && old(events) <= events && w.rounds == old(w.rounds) && old(w.hist) <= w.hist
      ensures w.calls == old(w.calls) + [AbortCall(b.status.buildID.value)]
      ensures heard.Heard? && heard.before == old(heard) && heard.last.Abort?
      ensures w.op == Running(b.Value(), Observing)
    {
      var t := Settle();
      heard := Heard(Abort(t.ok), heard);
      Do(Answer(Abort(t.ok)));
    }

    /** The ATC's answer about build `id`: unreachable, not found, or its phase and details. */
    method GetAtcBuild(b: Build) returns (reached: bool, found: Option<Phase>, info: AtcBuild, rest: int)
      requires Valid() && w.op == Running(b.Value(), Observing)
      modifies this`w, this`events, this`clock, this`heard, this`looks
      ensures Valid() && old(events) <= events && w.rounds == old(w.rounds) && old(w.hist) <= w.hist
      ensures w.calls == old(w.calls) && heard == Heard(Observe(reached, info, rest), old(heard))
      ensures if reached && found.None? && !IsTerminal(b.status.phase)
              then w.op == Running(b.Value().(status := Vanished(b.status)), Writing(Requeue(5), Requeue(5)))
              else w.op == AfterObserved(b.Value().(status :=
                     (if reached && found.Some? then Observed(b.status, found.value, info)
                      else b.status).(rest := rest)))
      ensures b.status.buildID.Some?
      ensures var id := b.status.buildID.value;
              && looks == old(looks) + [Look(id, reached, found)]
              && found == if id in w.atc.builds then Some(w.atc.builds[id]) else None
    {
      var t := Settle();
      assert b.status.buildID.Some?;
      var id := b.status.buildID.value;
      reached, info, rest := t.ok, t.info, t.rest;
      found := if id in w.atc.builds then Some(w.atc.builds[id]) else None;
      heard, looks := Heard(Observe(reached, info, rest), heard), looks + [Look(id, reached, found)];
      Do(Answer(Observe(reached, info, rest)));
    }

    method SetBuildComment(b: Build) returns (ok: bool)
      requires Valid() && w.op == Running(b.Value(), Commenting)
      modifies this`w, this`events, this`clock, this`heard
      ensures Valid() && old(events) <= events && w.rounds == old(w.rounds) && old(w.hist) <= w.hist
      ensures w.op == if ok then Finish(b.Value().(status := b.status.(comment := b.spec.comment)), false)
                      else Finish(WithReady(b.Value(), CommentFailed), true)
      ensures b.status.buildID.Some? && w.calls == old(w.calls) + [CommentCall(b.status.buildID.value, b.spec.comment)]
      ensures heard == Heard(Comment(ok), old(heard))
    {
      var t := Settle();
      ok := t.ok;
      heard := Heard(Comment(ok), heard);
      Do(Answer(Comment(ok)));
    }

    /** A status write; if confirmed, the object persisted last holds this status. */
    method UpdateStatus(b: Build) returns (ok: bool)
      requires Valid() && w.op.Running? && w.op.build == b.Value() && w.op.pc.Writing?
      modifies this`w, this`events, this`clock, this`heard
      ensures Valid() && old(events) <= events && w.rounds == old(w.rounds) && old(w.hist) <= w.hist
      ensures w.calls == old(w.calls) && heard.Heard? && heard.before == old(heard)
      ensures heard.last.Write?
      ensures w.op == Idle(if ok then old(w.op.pc.onOk) else old(w.op.pc.onErr))
      ensures ok <==> Confirmed(init, events)
      ensures ok ==> 0 < |w.hist| && Last(w).status == b.status
    {
      var t := Settle();
      ok := Put(w, b.version, Last(w).(status := b.status), t.fault).1.Ok?;
      heard := Heard(Write(t.fault), heard);
      Do(Answer(Write(t.fault)));
    }
  }

  // ---------------------------------------------------------------- what a reconcile amounts to

  /**
   What a reconcile that read o sends, and the build it asks the ATC about, if it gets so
   far: a trigger exactly without a build to track or adopt; the abort exactly if canceled,
   before the question; after it one comment exactly if one is wanted, not recorded and the
   build is not lost. What is recorded about a build just triggered may come from others.
   */
  predicate Asked(o: Object, before: seq<Call>, after: seq<Call>, id: Option<Id>, lost: bool) {
    var unnamed := IsNew(o);
    match id
    case None => after == before || (unnamed && after == before + [TriggerCall])
    case Some(n) =>
      var triggered := if unnamed then before + [TriggerCall] else before;
      var asked := if o.spec.canceled then triggered + [AbortCall(n)] else triggered;
      var commented := asked + [CommentCall(n, o.spec.comment)];
      var wanted := o.spec.comment != "" && !lost;
      if unnamed then after == asked || (wanted && after == commented)
      else
        && id == (if o.status.buildID.Some? then o.status.buildID else o.spec.buildID)
        && after == if wanted && o.spec.comment != o.status.comment then commented else asked
  }

  /** The ATC answered that it does not have a build that never ended. */
  predicate Gone(l: Look, before: Phase) {
    l.reached && l.found.None? && !IsTerminal(before)
  }

  /** What the final write, confirmed or not, of status s leads to. */
  function Conclusion(s: Status, commentFailed: bool, confirmed: bool): Verdict {
    if !confirmed then Error
    else if commentFailed then Requeue(30)
    else if IsTerminal(s.phase) then Done
    else match s.buildID
         case Some(id) => Watch(id)
         case None => Requeue(30)
  }

  /**
   The verdict of a reconcile that read o, from its last two answers, whether it found its
   build lost, whether its last write was confirmed and the status persisted last.
   */
  function VerdictOf(o: Object, heard: Heard, lost: bool, confirmed: bool, s: Status): Verdict {
    match heard
    case Silence => Done
    case Heard(Job(lookup), _) => if lookup.JobError? then Error else Done
    case Heard(Owner(_), _) => Error
    case Heard(Latest(_), _) => Requeue(2)
    case Heard(Record(_), _) => Requeue(2)
    case Heard(_, before) =>
      if o.spec.suspend then (if confirmed then Done else Error)
      else match before
           case Silence => Done
           case Heard(Chain(false), _) => Requeue(30)
           case Heard(TriggerFailure(_), _) => Requeue(30)
           case Heard(last, _) => if lost then Requeue(5) else Conclusion(s, last == Comment(false), confirmed)
  }

  /** The last two answers are those to the look or the comment, and to the final write. */
  predicate Finished(heard: Heard) {
    && heard.Heard? && heard.last.Write?
    && heard.before.Heard? && (heard.before.last.Observe? || heard.before.last.Comment?)
  }

  /** The last answers are those to a failed trigger and its status write, or to an attempt to record the build. */
  predicate Untriggered(heard: Heard) {
    && heard.Heard?
    && (heard.last.Latest? || heard.last.Record?
        || (heard.last.Write? && heard.before.Heard? && heard.before.last.TriggerFailure?))
  }

  lemma {:induction false} UntriggeredVerdict(o: Object, heard: Heard, confirmed: bool, s: Status)
    requires Untriggered(heard) && !o.spec.suspend
    ensures VerdictOf(o, heard, false, confirmed, s) == if heard.last.Write? then Requeue(30) else Requeue(2)
  {
  }

  lemma {:induction false} FollowedVerdict(o: Object, heard: Heard, lost: bool, confirmed: bool, s: Status)
    requires Finished(heard) && !o.spec.suspend
    ensures VerdictOf(o, heard, lost, confirmed, s)
         == if lost then Requeue(5) else Conclusion(s, heard.before.last == Comment(false), confirmed)
  {
  }

  /** The calls about a tracked build, on top of the ones before. */
  function Followed(spec: Spec, calls: seq<Call>, id: Id, comment: string, lost: bool): seq<Call> {
    var asked := if spec.canceled then calls + [AbortCall(id)] else calls;
    if spec.comment != "" && spec.comment != comment && !lost then asked + [CommentCall(id, spec.comment)] else asked
  }

  lemma {:induction false} FollowedAsked(o: Object, before: seq<Call>, calls: seq<Call>, s: Status, lost: bool)
    requires s.buildID.Some?
    requires if IsNew(o) then calls == before + [TriggerCall]
             else calls == before && s.comment == o.status.comment
                  && s.buildID == if o.status.buildID.Some? then o.status.buildID else o.spec.buildID
    ensures Asked(o, before, Followed(o.spec, calls, s.buildID.value, s.comment, lost), s.buildID, lost)
  {
  }

  lemma {:induction false} OnlyTriggered(o: Object, before: seq<Call>)
    requires IsNew(o)
    ensures Asked(o, before, before + [TriggerCall], None, false)
  {
  }

  /** The look at build `id` and at no other, if any; a build can be lost only by it. */
  predicate LookedAt(looks: seq<Look>, before: seq<Look>, id: Option<Id>, lost: bool) {
    match id
    case None => looks == before && !lost
    case Some(n) =>
      && |looks| == |before| + 1 && before <= looks
      && var look := looks[|before|];
      look.id == n && (lost ==> look.reached && look.found.None?)
  }

  class BuildReconciler {
    const cluster: Cluster

    constructor (cluster: Cluster)
      ensures this.cluster == cluster
    {
      this.cluster := cluster;
    }

    /**
     One reconcile. Whatever the outside does meanwhile, it extends the run by legal
     steps of the protocol from one read to the verdict it returns. It sends what the
     version read asks for: `id` is the build it looked at, if it got so far, and it sends an
     abort exactly if that version is canceled and the look is reached. The verdict is the
     one its answers call for.
     */
    method Reconcile() returns (verdict: Verdict, ghost seen: Snapshot, ghost id: Option<Id>, ghost lost: bool)
      requires cluster.Valid() && cluster.w.op.Idle?
      modifies cluster
      ensures cluster.Valid() && old(cluster.events) <= cluster.events
      ensures cluster.w.op == Idle(verdict) && cluster.w.rounds == old(cluster.w.rounds) + 1
      ensures cluster.lookups == old(cluster.lookups) + [seen]
      ensures LookedAt(cluster.looks, old(cluster.looks), id, lost)
      ensures !seen.Seen? ==>
                && verdict == (if seen.Missing? then Done else Error) && id.None?
                && cluster.w.calls == old(cluster.w.calls)
      ensures seen.Seen? ==>
                && seen.version < |cluster.w.hist|
                && var o := cluster.w.hist[seen.version];
                && (!Active(o) ==> cluster.w.calls == old(cluster.w.calls) && id.None?)
                && Asked(o, old(cluster.w.calls), cluster.w.calls, id, lost)
                && (id.Some? && (o.status.buildID.Some? || o.spec.buildID.Some?) ==>
                      (lost <==> Gone(cluster.looks[|old(cluster.looks)|], o.status.phase)))
                && verdict == VerdictOf(o, cluster.heard, lost, Confirmed(cluster.init, cluster.events),
                                        Last(cluster.w).status)
    {
      hide Cluster.Valid;
      hide Finish;
      hide Confirmed;
      var build := new Build();
      var got := cluster.Get(build);
      seen, id, lost := got, None, false;
      if !got.Seen? {
        return if got.Missing? then Done else Error, seen, id, lost;
      }
      ghost var o := cluster.w.hist[seen.version];
      var handled, v := HandleBuildLifecycle(build);
      if handled {
        return v, seen, id, lost;
      }
      if !build.spec.hasJobRef {
        build.status := build.status.(ready := NoJobRef);
        var _ := cluster.UpdateStatus(build);
        return Done, seen, id, lost;
      }
      verdict, id, lost := Act(build);
      assert o == cluster.w.hist[seen.version];
    }

    /** The part of a reconcile that may make calls: job, chain, trigger, and then the build. */
    method Act(build: Build) returns (verdict: Verdict, ghost id: Option<Id>, ghost lost: bool)
      requires cluster.Valid() && cluster.w.op == Running(build.Value(), GettingJob)
      requires Active(Object(build.spec, build.deleting, build.status)) && cluster.heard.Silence?
      modifies cluster`w, cluster`events, cluster`clock, cluster`heard, cluster`looks, build
      ensures cluster.Valid() && old(cluster.events) <= cluster.events && cluster.w.rounds == old(cluster.w.rounds)
      ensures old(cluster.w.hist) <= cluster.w.hist
      ensures cluster.w.op == Idle(verdict) && 0 < |cluster.w.hist|
      ensures LookedAt(cluster.looks, old(cluster.looks), id, lost)
      ensures var o := old(Object(build.spec, build.deleting, build.status));
              && Asked(o, old(cluster.w.calls), cluster.w.calls, id, lost)
              && (id.Some? && (o.status.buildID.Some? || o.spec.buildID.Some?) ==>
                    (lost <==> Gone(cluster.looks[|old(cluster.looks)|], o.status.phase)))
              && verdict == VerdictOf(o, cluster.heard, lost, Confirmed(cluster.init, cluster.events),
                                      Last(cluster.w).status)
    {
      cluster.Persisted();
      hide Cluster.Valid;
      hide Confirmed;
      hide AfterTracked;
      hide AfterChain;
      var handled, v := ResolveJob(build);
      if handled {
        return v, None, false;
      }
      verdict, id, lost := Pursue(build);
    }

    /** The build is triggered or adopted if need be, and then followed. */
    method Pursue(build: Build) returns (verdict: Verdict, ghost id: Option<Id>, ghost lost: bool)
      requires cluster.Valid() && cluster.w.op == AfterChain(build.Value(), true)
      requires !build.spec.suspend && cluster.heard.Heard?
      modifies cluster`w, cluster`events, cluster`clock, cluster`heard, cluster`looks, build
      ensures cluster.Valid() && old(cluster.events) <= cluster.events && cluster.w.rounds == old(cluster.w.rounds)
      ensures old(cluster.w.hist) <= cluster.w.hist
      ensures cluster.w.op == Idle(verdict) && 0 < |cluster.w.hist|
      ensures LookedAt(cluster.looks, old(cluster.looks), id, lost)
      ensures var o := old(Object(build.spec, build.deleting, build.status));
              && Asked(o, old(cluster.w.calls), cluster.w.calls, id, lost)
              && (id.Some? && (o.status.buildID.Some? || o.spec.buildID.Some?) ==>
                    (lost <==> Gone(cluster.looks[|old(cluster.looks)|], o.status.phase)))
              && verdict == VerdictOf(o, cluster.heard, lost, Confirmed(cluster.init, cluster.events),
                                      Last(cluster.w).status)
    {
      cluster.Persisted();
      hide Cluster.Valid;
      hide Confirmed;
      hide AfterTracked;
      hide AfterChain;
      hide Asked;
      hide Followed;
      hide VerdictOf;
      hide Conclusion;
      ghost var o, before := Object(build.spec, build.deleting, build.status), cluster.w.calls;
      var handled, v := EnsureBuildTriggered(build);
      if handled {
        OnlyTriggered(o, before);
        UntriggeredVerdict(o, cluster.heard, Confirmed(cluster.init, cluster.events), Last(cluster.w).status);
        return v, None, false;
      }
      id := build.status.buildID;
      ghost var calls, tracked := cluster.w.calls, build.status;
      verdict, lost := Follow(build);
      FollowedAsked(o, before, calls, tracked, lost);
      FollowedVerdict(o, cluster.heard, lost, Confirmed(cluster.init, cluster.events), Last(cluster.w).status);
    }

    /** What is done about a tracked build: the abort, the look, the comment, the final write. */
    method Follow(build: Build) returns (verdict: Verdict, ghost lost: bool)
      requires cluster.Valid() && cluster.w.op == AfterTracked(build.Value()) && build.status.buildID.Some?
      modifies cluster`w, cluster`events, cluster`clock, cluster`heard, cluster`looks, build
      ensures cluster.Valid() && old(cluster.events) <= cluster.events && cluster.w.rounds == old(cluster.w.rounds)
      ensures old(cluster.w.hist) <= cluster.w.hist
      ensures cluster.w.op == Idle(verdict) && 0 < |cluster.w.hist| && build.spec == old(build.spec)
      ensures LookedAt(cluster.looks, old(cluster.looks), old(build.status.buildID), lost)
      ensures lost <==> Gone(cluster.looks[|old(cluster.looks)|], old(build.status.phase))
      ensures var id := old(build.status.buildID.value);
              cluster.w.calls == Followed(build.spec, old(cluster.w.calls), id, old(build.status.comment), lost)
      ensures Finished(cluster.heard)
      ensures verdict == if lost then Requeue(5)
                         else Conclusion(Last(cluster.w).status, cluster.heard.before.last == Comment(false),
                                         Confirmed(cluster.init, cluster.events))
    {
      cluster.Persisted();
      hide Cluster.Valid;
      hide Confirmed;
      hide Finish;
      hide AfterObserved;
      hide Inv;
      if build.spec.canceled && build.status.buildID.Some? {
        cluster.AbortBuild(build);
      }

      verdict, lost := Inspect(build);
    }

    /** The look at a tracked build, and what follows from it. */
    method Inspect(build: Build) returns (verdict: Verdict, ghost lost: bool)
      requires cluster.Valid() && cluster.w.op == Running(build.Value(), Observing) && build.status.buildID.Some?
      modifies cluster`w, cluster`events, cluster`clock, cluster`heard, cluster`looks, build
      ensures cluster.Valid() && old(cluster.events) <= cluster.events && cluster.w.rounds == old(cluster.w.rounds)
      ensures old(cluster.w.hist) <= cluster.w.hist
      ensures cluster.w.op == Idle(verdict) && 0 < |cluster.w.hist| && build.spec == old(build.spec)
      ensures LookedAt(cluster.looks, old(cluster.looks), old(build.status.buildID), lost)
      ensures lost <==> Gone(cluster.looks[|old(cluster.looks)|], old(build.status.phase))
      ensures cluster.w.calls == if build.spec.comment != "" && build.spec.comment != old(build.status.comment) && !lost
                                 then old(cluster.w.calls)
                                      + [CommentCall(old(build.status.buildID.value), build.spec.comment)]
                                 else old(cluster.w.calls)
      ensures Finished(cluster.heard)
      ensures verdict == if lost then Requeue(5)
                         else Conclusion(Last(cluster.w).status, cluster.heard.before.last == Comment(false),
                                         Confirmed(cluster.init, cluster.events))
    {
      cluster.Persisted();
      hide *;
      var done, reached, found := ObserveBuild(build);
      lost := done;
      if done {
        return Requeue(5), lost;
      }
      verdict := Conclude(build);
    }

    /** The comment and the final write for a build that was looked at. */
    method Conclude(build: Build) returns (verdict: Verdict)
      requires cluster.Valid() && cluster.w.op == AfterObserved(build.Value()) && build.status.buildID.Some?
      requires cluster.heard.Heard? && cluster.heard.last.Observe?
      modifies cluster`w, cluster`events, cluster`clock, cluster`heard, build
      ensures cluster.Valid() && old(cluster.events) <= cluster.events && cluster.w.rounds == old(cluster.w.rounds)
      ensures old(cluster.w.hist) <= cluster.w.hist
      ensures cluster.w.op == Idle(verdict) && build.spec == old(build.spec)
      ensures cluster.w.calls == if build.spec.comment != "" && build.spec.comment != old(build.status.comment)
                                 then old(cluster.w.calls)
                                      + [CommentCall(old(build.status.buildID.value), build.spec.comment)]
                                 else old(cluster.w.calls)
      ensures 0 < |cluster.w.hist|
      ensures Finished(cluster.heard)
      ensures verdict == Conclusion(Last(cluster.w).status, cluster.heard.before.last == Comment(false),
                                    Confirmed(cluster.init, cluster.events))
    {
      cluster.Persisted();
      hide Cluster.Valid;
      hide Confirmed;
      hide Finish;
      hide Inv;
      var commentFailed := false;
      if build.status.buildID.Some? {
        commentFailed := ReconcileComment(build);
      }
      verdict := FinishReconcile(build, commentFailed);
    }

    /** The final status write and what to do next: a build that is tracked and has not ended is watched. */
    method FinishReconcile(build: Build, commentFailed: bool) returns (verdict: Verdict)
      requires cluster.Valid() && cluster.w.op == Finish(build.Value(), commentFailed)
      modifies cluster`w, cluster`events, cluster`clock, cluster`heard, build
      ensures cluster.Valid() && old(cluster.events) <= cluster.events && cluster.w.rounds == old(cluster.w.rounds)
      ensures old(cluster.w.hist) <= cluster.w.hist && cluster.w.calls == old(cluster.w.calls)
      ensures cluster.heard.Heard? && cluster.heard.last.Write? && cluster.heard.before == old(cluster.heard)
      ensures build.spec == old(build.spec)
      ensures build.status == old(build.status).(ready := if commentFailed then old(build.status.ready) else Tracked)
      ensures Confirmed(cluster.init, cluster.events) ==>
                && 0 < |cluster.w.hist| && Last(cluster.w).status == build.status
      ensures verdict == Conclusion(build.status, commentFailed, Confirmed(cluster.init, cluster.events))
      ensures cluster.w.op == Idle(verdict)
    {
      if !commentFailed {
        build.status := build.status.(ready := Tracked);
      }
      var ok := cluster.UpdateStatus(build);
      if !ok {
        return Error;
      }
      if commentFailed {
        return Requeue(30);
      }
      if IsTerminal(build.status.phase) {
        return Done;
      }
      match build.status.buildID
      case Some(id) => return Watch(id);
      case None => return Requeue(30);
    }

    /** Suspend, deletion and terminal short-circuits; only the first writes anything. */
    method HandleBuildLifecycle(build: Build) returns (handled: bool, v: Verdict)
      requires cluster.Valid() && cluster.w.op == AfterRead(build.Value())
      modifies cluster`w, cluster`events, cluster`clock, cluster`heard, build
      ensures cluster.Valid() && old(cluster.events) <= cluster.events && cluster.w.rounds == old(cluster.w.rounds)
      ensures old(cluster.w.hist) <= cluster.w.hist && cluster.w.calls == old(cluster.w.calls)
      ensures handled <==> old(build.spec.suspend || build.deleting || IsTerminal(build.status.phase))
      ensures handled ==> cluster.w.op == Idle(v)
      ensures if old(build.spec.suspend)
              then && v == (if Confirmed(cluster.init, cluster.events) then Done else Error)
                   && cluster.heard.Heard? && cluster.heard.last.Write? && cluster.heard.before == old(cluster.heard)
                   && (v == Done ==> 0 < |cluster.w.hist|
                                     && Last(cluster.w).status == old(build.status).(ready := Suspended))
              else v == Done && cluster.w == old(cluster.w) && cluster.heard == old(cluster.heard)
                   && build.Value() == old(build.Value())
    {
      if build.spec.suspend {
        build.status := build.status.(ready := Suspended);
        var ok := cluster.UpdateStatus(build);
        return true, if ok then Done else Error;
      }
      if build.deleting || IsTerminal(build.status.phase) {
        return true, Done;
      }
      return false, Done;
    }

    /**
     Looks up the job, adopts it as owner and resolves the ATC client. It goes on exactly if
     there is a job, the owner could be set if that was needed, and the chain is ready.
     */
    method ResolveJob(build: Build) returns (handled: bool, v: Verdict)
      requires cluster.Valid() && cluster.w.op == Running(build.Value(), GettingJob)
      modifies cluster`w, cluster`events, cluster`clock, cluster`heard, build
      ensures cluster.Valid() && old(cluster.events) <= cluster.events && cluster.w.rounds == old(cluster.w.rounds)
      ensures old(cluster.w.hist) <= cluster.w.hist && cluster.w.calls == old(cluster.w.calls)
      ensures build.spec == old(build.spec) && build.deleting == old(build.deleting)
      ensures !handled ==> build.status == old(build.status)
      ensures cluster.w.op == if handled then Idle(v) else AfterChain(build.Value(), true)
      ensures cluster.heard.Heard?
      ensures var heard := cluster.heard;
              if !handled
              then && heard.last == Chain(true) && heard.before.Heard?
                   && match heard.before.last
                      case Job(lookup) => lookup == JobFound(false) && heard.before.before == old(cluster.heard)
                      case Owner(_) => heard.before.before == Heard(Job(JobFound(true)), old(cluster.heard))
                      case _ => false
              else match heard.last
                   case Job(lookup) => !lookup.JobFound? && v == (if lookup.JobMissing? then Done else Error)
                   case Owner(_) => v == Error && heard.before == Heard(Job(JobFound(true)), old(cluster.heard))
                   case Write(_) => v == Requeue(30) && heard.before.Heard? && heard.before.last == Chain(false)
                   case _ => false
    {
      hide Cluster.Valid;
      hide Confirmed;
      var job := cluster.GetJob(build);
      if !job.JobFound? {
        return true, if job.JobMissing? then Done else Error;
      }

      if job.needsOwner {
        var ok := cluster.Update(build);
        if !ok {
          return true, Error;
        }
      }

      var chain := cluster.ResolveClientForJob(build);
      if !chain {
        build.status := build.status.(ready := ChainNotReady);
        var _ := cluster.UpdateStatus(build);
        return true, Requeue(30);
      }
      return false, Done;
    }

    /**
     Goes on with the tracked build, or adopts spec.buildID without any call, or triggers a
     build and goes on only with one that is persisted.
     */
    method EnsureBuildTriggered(build: Build) returns (handled: bool, v: Verdict)
      requires cluster.Valid() && cluster.w.op == AfterChain(build.Value(), true)
      modifies cluster`w, cluster`events, cluster`clock, cluster`heard, build
      ensures cluster.Valid() && old(cluster.events) <= cluster.events && cluster.w.rounds == old(cluster.w.rounds)
      ensures old(cluster.w.hist) <= cluster.w.hist
      ensures build.spec == old(build.spec) && build.deleting == old(build.deleting)
      ensures handled ==> cluster.w.op == Idle(v)
      ensures !handled ==> cluster.w.op == AfterTracked(build.Value()) && build.status.buildID.Some?
      ensures old(build.status.buildID).Some? || build.spec.buildID.Some? ==>
                && !handled && cluster.w == old(cluster.w) && cluster.heard == old(cluster.heard)
                && build.status == old(build.status).(buildID := if old(build.status.buildID).Some?
                                   then old(build.status.buildID) else build.spec.buildID)
      ensures old(build.status.buildID).None? && build.spec.buildID.None? ==>
                && cluster.w.calls == old(cluster.w.calls) + [TriggerCall]
                && (!handled ==> build.version < |cluster.w.hist|
                                 && build.status == cluster.w.hist[build.version].status)
                && (handled ==> Untriggered(cluster.heard)
                                && v == if cluster.heard.last.Write? then Requeue(30) else Requeue(2))
    {
      hide Cluster.Valid;
      hide Confirmed;
      if build.status.buildID.None? {
        if build.spec.buildID.Some? {
          build.status := build.status.(buildID := build.spec.buildID);
        } else {
          var r := cluster.TriggerJobBuild(build);
          if r.None? {
            build.status := build.status.(ready := TriggerFailed);
            var _ := cluster.UpdateStatus(build);
            return true, Requeue(30);
          }
          var (id, info) := r.value;
          build.status := build.status.(buildID := Some(id));
          build.status := build.status.(buildName := info.name);
          build.status := build.status.(apiURL := info.apiURL);
          if info.startTime > 0 {
            build.status := build.status.(startTime := Some(info.startTime));
          }
          if build.spec.rerunOf != "" {
            build.status := build.status.(rerunOf := build.spec.rerunOf);
          }
          var ok := PersistBuildTracking(build);
          if !ok {
            return true, Requeue(2);
          }
        }
      }
      return false, Done;
    }

    /**
     Writes the tracking fields of a just created build, re-reading and re-applying them
     after each conflict, at most `retries` times. Success means that the build's status is
     persisted, with this or another build ID.
     */
    method PersistBuildTracking(build: Build) returns (ok: bool)
      requires cluster.Valid() && cluster.w.op == Running(build.Value(), Reading(cluster.w.retries))
      modifies cluster`w, cluster`events, cluster`clock, cluster`heard, build
      ensures cluster.Valid() && old(cluster.events) <= cluster.events && cluster.w.rounds == old(cluster.w.rounds)
      ensures old(cluster.w.hist) <= cluster.w.hist
      ensures cluster.w.op == if ok then AfterTracked(build.Value()) else Idle(Requeue(2))
      ensures build.spec == old(build.spec) && build.deleting == old(build.deleting)
      ensures ok ==> build.status.buildID.Some?
                     && build.version < |cluster.w.hist| && build.status == cluster.w.hist[build.version].status
      ensures cluster.w.calls == old(cluster.w.calls)
      ensures !ok ==> cluster.heard.Heard? && (cluster.heard.last.Latest? || cluster.heard.last.Record?)
    {
      assert 0 < cluster.w.retries && build.status.buildID.Some?;
      hide Cluster.Valid;
      hide AfterTracked;
      var tries := cluster.w.retries;
      while 0 < tries
        invariant 0 <= tries
        invariant cluster.Valid() && old(cluster.events) <= cluster.events && cluster.w.rounds == old(cluster.w.rounds)
        invariant old(cluster.w.hist) <= cluster.w.hist && cluster.w.calls == old(cluster.w.calls)
        invariant build.Value() == old(build.Value())
        invariant cluster.w.op == if 0 < tries then Running(build.Value(), Reading(tries)) else Idle(Requeue(2))
        invariant tries == 0 ==> cluster.heard.Heard? && cluster.heard.last.Record?
        decreases tries
      {
        var result := TrackOnce(build, tries);
        match result
        case Ok => return true;
        case Failure => return false;
        case Conflict => tries := tries - 1;
      }
      return false;
    }

    /** One attempt: re-reads the object, and writes the tracking fields unless it has a build ID by now. */
    method TrackOnce(build: Build, ghost tries: nat) returns (result: WriteResult)
      requires cluster.Valid() && cluster.w.op == Running(build.Value(), Reading(tries)) && build.status.buildID.Some?
      requires 0 < tries
      modifies cluster`w, cluster`events, cluster`clock, cluster`heard, build
      ensures cluster.Valid() && old(cluster.events) <= cluster.events && cluster.w.rounds == old(cluster.w.rounds)
      ensures old(cluster.w.hist) <= cluster.w.hist && cluster.w.calls == old(cluster.w.calls)
      ensures cluster.heard.Heard?
      ensures build.spec == old(build.spec) && build.deleting == old(build.deleting)
      ensures match result
              case Ok => && cluster.w.op == AfterTracked(build.Value()) && build.status.buildID.Some?
                         && build.version < |cluster.w.hist| && build.status == cluster.w.hist[build.version].status
              case Conflict => && build.Value() == old(build.Value()) && cluster.heard.last.Record?
                               && cluster.w.op == if tries == 1 then Idle(Requeue(2))
                                                  else Running(build.Value(), Reading(tries - 1))
              case Failure => && cluster.w.op == Idle(Requeue(2))
                              && (cluster.heard.last.Latest? || cluster.heard.last.Record?)
    {
      hide Cluster.Valid;
      hide AfterTracked;
      var mine := build.status;
      var latest := new Build();
      var got := cluster.GetLatest(build, latest);
      if !got {
        return Failure;
      }
      if latest.status.buildID.Some? {
        build.version := latest.version;
        build.status := latest.status;
        return Ok;
      }
      latest.status := latest.status.(buildID := mine.buildID, buildName := mine.buildName, apiURL := mine.apiURL,
      startTime := mine.startTime, rerunOf := mine.rerunOf);
      result := cluster.UpdateTracking(build, latest);
      if result.Ok? {
        build.version := latest.version;
        build.status := latest.status;
      }
    }

    /**
     Resets the three tracking fields of a build that the ATC does not know and that never
     finished; otherwise copies the ATC's view into the status, or leaves it if unreachable.
     */
    method ObserveBuild(build: Build) returns (done: bool, ghost reached: bool, ghost found: Option<Phase>)
      requires cluster.Valid() && cluster.w.op == Running(build.Value(), Observing) && build.status.buildID.Some?
      modifies cluster`w, cluster`events, cluster`clock, cluster`heard, cluster`looks, build
      ensures cluster.Valid() && old(cluster.events) <= cluster.events && cluster.w.rounds == old(cluster.w.rounds)
      ensures old(cluster.w.hist) <= cluster.w.hist
      ensures cluster.w.op == if done then Idle(Requeue(5)) else AfterObserved(build.Value())
      ensures done <==> reached && found.None? && !IsTerminal(old(build.status.phase))
      ensures done ==> build.status == old(build.status).(buildID := None, buildName := "", phase := Unknown)
      ensures build.spec == old(build.spec) && cluster.w.calls == old(cluster.w.calls)
      ensures LookedAt(cluster.looks, old(cluster.looks), old(build.status.buildID), done)
      ensures var look := cluster.looks[|old(cluster.looks)|];
              look.reached == reached && look.found == found && (done <==> Gone(look, old(build.status.phase)))
      ensures cluster.heard.Heard?
      ensures if done
              then cluster.heard.last.Write? && cluster.heard.before.Heard? && cluster.heard.before.last.Observe?
              else cluster.heard.last.Observe?
      ensures done && Confirmed(cluster.init, cluster.events) ==>
                0 < |cluster.w.hist| && Last(cluster.w).status == build.status
      ensures !done ==> build.status.buildID == old(build.status.buildID)
                        && build.status.comment == old(build.status.comment)
      ensures !done ==> var id := build.status.buildID.value;
                        found == if id in cluster.w.atc.builds then Some(cluster.w.atc.builds[id]) else None
      ensures !done ==> build.status.phase == if reached && found.Some? then found.value else old(build.status.phase)
      ensures !done && !(reached && found.Some?) ==> build.status == old(build.status).(rest := build.status.rest)
    {
      assert build.status.buildID.Some?;
      var up, phase, info, rest := cluster.GetAtcBuild(build);
      reached, found := up, phase;
      if up && phase.None? && !IsTerminal(build.status.phase) {
        build.status := build.status.(buildID := None);
        build.status := build.status.(buildName := "");
        build.status := build.status.(phase := Unknown);
        var _ := cluster.UpdateStatus(build);
        return true, reached, found;
      }
      if up && phase.Some? {
        build.status := build.status.(phase := phase.value);
        if info.name != "" {
          build.status := build.status.(buildName := info.name);
        }
        if info.apiURL != "" {
          build.status := build.status.(apiURL := info.apiURL);
        }
        if info.startTime > 0 {
          build.status := build.status.(startTime := Some(info.startTime));
        }
      }
      build.status := build.status.(rest := rest);
      return false, reached, found;
    }

    /** Sends the comment exactly if one is wanted and not recorded yet; a failure leaves it unrecorded. */
    method ReconcileComment(build: Build) returns (failed: bool)
      requires cluster.Valid() && cluster.w.op == AfterObserved(build.Value()) && build.status.buildID.Some?
      modifies cluster`w, cluster`events, cluster`clock, cluster`heard, build
      ensures cluster.Valid() && old(cluster.events) <= cluster.events && cluster.w.rounds == old(cluster.w.rounds)
      ensures old(cluster.w.hist) <= cluster.w.hist
      ensures cluster.w.op == Finish(build.Value(), failed) && build.spec == old(build.spec)
      ensures if build.spec.comment != "" && build.spec.comment != old(build.status.comment)
              then && cluster.w.calls == old(cluster.w.calls)
                                         + [CommentCall(old(build.status.buildID.value), build.spec.comment)]
                   && cluster.heard == Heard(Comment(!failed), old(cluster.heard))
                   && build.status == if failed then old(build.status).(ready := CommentFailed)
                                      else old(build.status).(comment := build.spec.comment)
              else && cluster.w.calls == old(cluster.w.calls) && cluster.heard == old(cluster.heard)
                   && !failed && build.status == old(build.status)
    {
      if build.spec.comment == "" || build.spec.comment == build.status.comment {
        return false;
      }
      var ok := cluster.SetBuildComment(build);
      if !ok {
        build.status := build.status.(ready := CommentFailed);
        return true;
      }
      build.status := build.status.(comment := build.spec.comment);
      return false;
    }
  }
}
