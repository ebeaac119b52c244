/** The team reconciler in the operator's imperative form, proved to be a run of the lifecycle. */
module TeamController {
  import opened Options
  import opened Protocols
  import opened TeamLifecycle
  import opened TeamAuth

  /** What happens around one call: outside events before it, then its answer. */
  datatype Tick = Tick(outside: seq<Event>, missing: bool, version: nat, ok: bool, applied: bool, fault: Fault)

  /** The answer to a read of the object. */
  datatype Lookup = Missing | Unreachable | Found(t: Local)

  /** The in-memory Team object. `roles` are part of the spec; the lifecycle does not read them. */
  class Team {
    var version: nat
    const spec: Spec
    const others: bool
    const deleting: bool
    const roles: seq<TeamRole>
    var finalizer: bool

    constructor (t: Local, roles: seq<TeamRole>)
      ensures Value() == t && this.roles == roles
    {
      version, finalizer := t.version, t.obj.finalizer;
      spec, others, deleting, this.roles := t.obj.spec, t.obj.others, t.obj.deleting, roles;
    }

    function Value(): Local
      reads this
    {
      Local(version, Object(spec, finalizer, others, deleting))
    }
  }

  lemma {:induction false} OthersGoUnnoticed(w: World, e: Event)
    requires e.Edit? || e.Delete?
    ensures Apply(w, e).op == w.op && Apply(w, e).name == w.name && Apply(w, e).calls == w.calls
            && Apply(w, e).released == w.released && Apply(w, e).mine == w.mine
  {
  }

  /** The reconciler's own events, without those of others. */
  function Own(es: seq<Event>): seq<Event> {
    if es == [] then []
    else
      var e := es[|es| - 1];
      Own(es[..|es| - 1]) + if e.Edit? || e.Delete? then [] else [e]
  }

  /** Own events of one reconcile after its read. */
  predicate Unbroken(es: seq<Event>) {
    forall e :: e in es ==> !e.Begin? && !e.Crash?
  }

  /** The last event is a write of the reconciled object that landed and was answered. */
  ghost predicate Confirmed(w0: World, es: seq<Event>) {
    && es != []
    && var w, e := State(RunOf(w0, es[..|es| - 1])), es[|es| - 1];
    w.op.Running? && (e.Update? || e.WriteStatus?) && e.fault.Delivered? && Lands(w, w.op.t.version, e.fault)
  }

  /**
   API server and ATC. `script` decides everything the controller does not; `lookups` and
   `auths` are the answers to the reads and the auth maps received.
   */
  class Cluster {
    ghost const init: World
    ghost var events: seq<Event>
    var w: World
    const script: nat -> Tick
    const rolesOf: Spec -> seq<TeamRole>
    var clock: nat
    var lookups: seq<Lookup>
    var auths: seq<Option<Auth>>

    constructor (w0: World, script: nat -> Tick, rolesOf: Spec -> seq<TeamRole>)
      requires Init(w0)
      ensures Valid() && w == w0 && events == [] && init == w0
    {
      init, w, events, clock, lookups, auths := w0, w0, [], 0, [], [];
      this.script, this.rolesOf := script, rolesOf;
      new;
      RunKeeps(Start(w0));
    }

    /** The state is the one reached by the events so far. */
    ghost predicate Valid()
      reads this`w, this`events
    {
      Init(init) && w == State(RunOf(init, events)) && Inv(w)
    }

    method Do(e: Event)
      requires Valid()
      modifies this`w, this`events
      ensures Valid() && events == old(events) + [e] && w == Apply(old(w), e) && old(w.hist) <= w.hist
      ensures Own(events) == Own(old(events)) + if e.Edit? || e.Delete? then [] else [e]
      ensures Confirmed(init, events) <==>
                old(w.op.Running?) && (e.Update? || e.WriteStatus?) && e.fault.Delivered?
                && Lands(old(w), old(w.op.t.version), e.fault)
    {
      StepKeeps(w, e);
      StepGrows(w, e);
      events := events + [e];
      assert events[..|events| - 1] == old(events);
      w := Apply(w, e);
    }

    method Settle() returns (t: Tick)
      requires Valid()
      modifies this`w, this`events, this`clock
      ensures Valid() && old(events) <= events && w.hist != [] && old(w.hist) <= w.hist
      ensures w.op == old(w.op) && w.name == old(w.name) && w.calls == old(w.calls) && w.released == old(w.released)
      ensures w.mine == old(w.mine) && Own(events) == Own(old(events))
    {
      hide Inv;
      hide Apply;
      t := script(clock);
      clock := clock + 1;
      for i := 0 to |t.outside|
        invariant Valid() && old(events) <= events && old(w.hist) <= w.hist
        invariant w.op == old(w.op) && w.name == old(w.name) && w.calls == old(w.calls) && w.released == old(w.released)
        invariant w.mine == old(w.mine) && Own(events) == Own(old(events))
      {
        var e := t.outside[i];
        if e.Edit? || e.Delete? {
          OthersGoUnnoticed(w, e);
          Do(e);
        }
      }
      Nonempty(w);
    }

    /** A possibly stale read of the object. */
    method Get() returns (found: Lookup, team: Team?)
      requires Valid() && w.op.Idle?
      modifies this`w, this`events, this`clock, this`lookups
      ensures Valid() && old(events) <= events && w.name == old(w.name) && w.calls == old(w.calls)
              && w.released == old(w.released)
      ensures old(w.hist) <= w.hist && lookups == old(lookups) + [found]
      ensures found.Found? <==> team != null
      ensures team == null ==> w.op.Idle? && Own(events) == Own(old(events))
      ensures team != null ==>
                && fresh(team) && found == Found(team.Value())
                && w.op == AfterRead(w.name, team.Value()) && team.roles == rolesOf(team.spec)
                && team.version < |w.hist| && w.hist[team.version] == team.Value().obj
                && Own(events) == Own(old(events)) + [Begin(team.version)]
    {
      var t := Settle();
      if !t.ok || t.missing || t.version >= |w.hist| {
        found, team := if t.ok then Missing else Unreachable, null;
      } else {
        var l := Local(t.version, w.hist[t.version]);
        Do(Begin(t.version));
        team := new Team(l, rolesOf(l.obj.spec));
        found := Found(l);
      }
      lookups := lookups + [found];
    }

    /** r.Update with the finalizer added or removed. */
    method Update(team: Team) returns (ok: bool)
      requires Valid() && w.op.Running?
      requires w.op.pc.AddingFinalizer? || w.op.pc.Removing?
      requires team.Value() == w.op.t.(obj := w.op.t.obj.(finalizer := w.op.pc.AddingFinalizer?))
      modifies this`w, this`events, this`clock, team`version
      ensures Valid() && old(events) <= events && w.name == old(w.name) && w.calls == old(w.calls)
      ensures old(w.hist) <= w.hist && events != [] && Own(events) == Own(old(events)) + [events[|events| - 1]]
      ensures events[|events| - 1].Update?
      ensures ok <==> Confirmed(init, events)
      ensures old(w.op.pc.Removing?) ==> w.op == Idle && (ok ==> w.released == Some(old(w.op.pc.why)))
      ensures old(w.op.pc.AddingFinalizer?) ==>
                w.released == old(w.released) && w.op == if ok then Running(team.Value(), Owning) else Idle
    {
      var t := Settle();
      ok := Lands(w, team.version, t.fault) && t.fault.Delivered?;
      if ok {
        team.version := |w.hist|;
      }
      Do(TeamLifecycle.Event.Update(t.fault));
    }

    /** Sets the owner reference if it is missing. */
    method EnsureOwner(team: Team) returns (ok: bool)
      requires Valid() && w.op == Running(team.Value(), Owning)
      modifies this`w, this`events, this`clock, team`version
      ensures Valid() && old(events) <= events && w.name == old(w.name) && w.calls == old(w.calls)
              && w.released == old(w.released)
      ensures old(w.hist) <= w.hist && events != [] && Own(events) == Own(old(events)) + [events[|events| - 1]]
      ensures events[|events| - 1].Owner?
      ensures w.op == if ok then Running(team.Value(), Resolving) else Idle
    {
      var t := Settle();
      ok := !t.ok || (Lands(w, team.version, t.fault) && t.fault.Delivered?);
      if ok && t.ok {
        team.version := |w.hist|;
      }
      Do(Owner(t.ok, t.fault));
    }

    method ResolveInstance(team: Team) returns (ok: bool)
      requires Valid() && w.op.Running? && w.op.t == team.Value() && (w.op.pc.Resolving? || w.op.pc.ResolvingDestroy?)
      modifies this`w, this`events, this`clock
      ensures Valid() && old(events) <= events && w.name == old(w.name) && w.calls == old(w.calls)
              && w.released == old(w.released)
      ensures old(w.hist) <= w.hist && events != [] && Own(events) == Own(old(events)) + [events[|events| - 1]]
      ensures events[|events| - 1] == Resolve(ok)
      ensures w.op == Running(team.Value(), if !ok then Status
                                             else if old(w.op.pc.Resolving?) then Creating else Destroying)
    {
      var t := Settle();
      ok := t.ok;
      Do(Resolve(ok));
    }

    method CreateOrUpdate(team: Team, name: string, auth: Option<Auth>) returns (ok: bool)
      requires Valid() && w.op == Running(team.Value(), Creating) && name == ResolvedName(w.name, team.spec)
      modifies this`w, this`events, this`clock, this`auths
      ensures Valid() && old(events) <= events && w.name == old(w.name) && w.calls == old(w.calls)
              && w.released == old(w.released)
      ensures old(w.hist) <= w.hist && events != [] && Own(events) == Own(old(events)) + [events[|events| - 1]]
      ensures events[|events| - 1].Create?
      ensures events[|events| - 1].ok == ok
      ensures w.op == Running(team.Value(), Status) && (ok ==> name in w.mine)
      ensures auths == old(auths) + [auth]
    {
      var t := Settle();
      ok := t.ok;
      auths := auths + [auth];
      Do(Create(ok, t.applied));
    }

    method DestroyTeam(team: Team, name: string) returns (ok: bool)
      requires Valid() && w.op == Running(team.Value(), Destroying) && name == ResolvedName(w.name, team.spec)
      modifies this`w, this`events, this`clock
      ensures Valid() && old(events) <= events && w.name == old(w.name) && w.released == old(w.released)
      ensures old(w.hist) <= w.hist && events != [] && Own(events) == Own(old(events)) + [events[|events| - 1]]
      ensures events[|events| - 1] == Destroy(ok)
      ensures w.calls == old(w.calls) + [DestroyCall(name, team.version)]
      ensures w.op == Running(team.Value(), if ok then Removing(DestroyedAs(name)) else Status)
    {
      var t := Settle();
      ok := t.ok;
      Do(Destroy(ok));
    }

    method UpdateStatus(team: Team) returns (ok: bool)
      requires Valid() && w.op == Running(team.Value(), Status)
      modifies this`w, this`events, this`clock
      ensures Valid() && old(events) <= events && w.name == old(w.name) && w.calls == old(w.calls)
              && w.released == old(w.released)
      ensures old(w.hist) <= w.hist && events != [] && Own(events) == Own(old(events)) + [events[|events| - 1]]
      ensures events[|events| - 1].WriteStatus?
      ensures w.op == Idle && w.mine == old(w.mine) && (ok <==> Confirmed(init, events))
    {
      var t := Settle();
      ok := t.fault.Delivered? && Lands(w, team.version, t.fault);
      Do(WriteStatus(t.fault));
    }
  }

  lemma {:induction false} Nonempty(w: World)
    requires Inv(w)
    ensures w.hist != []
  {
  }

  datatype Verdict = Done | Requeue(seconds: nat) | Error

  /**
   What a reconcile of object o returns, given its own events after the read and whether the
   last of them is a confirmed write.
   */
  function VerdictOf(o: Object, own: seq<Event>, confirmed: bool): Verdict {
    var written := if confirmed then Done else Error;
    if own == [] then Done
    else if o.spec.suspend then written
    else if own[|own| - 1].Update? then (if o.deleting then written else Error)
    else if own[|own| - 1].Owner? then Error
    else if o.deleting || |own| == 1 || own[|own| - 2] == Resolve(false) then Requeue(30)
    else match own[|own| - 2]
         case Create(true, _) => if confirmed then Requeue(300) else Error
         case _ => Requeue(30)
  }

  /** The events of the reconcile since `before` are one read of `read`, and then those that lead to the verdict. */
  ghost predicate ReadOnce(init: World, before: seq<Event>, after: seq<Event>, read: Local, v: Verdict) {
    && Own(before) + [Begin(read.version)] <= Own(after)
    && var own := Own(after)[|Own(before)| + 1..];
    && Unbroken(own) && v == VerdictOf(read.obj, own, Confirmed(init, after))
    && (own == [] <==> !read.obj.spec.suspend && read.obj.deleting && !read.obj.finalizer)
  }

  lemma {:induction false} ReadOnceThen(init: World, before: seq<Event>, begun: seq<Event>, after: seq<Event>,
                                        read: Local, v: Verdict)
    requires Own(begun) == Own(before) + [Begin(read.version)] && Own(begun) <= Own(after)
    requires var own := Own(after)[|Own(begun)|..];
             && Unbroken(own) && v == VerdictOf(read.obj, own, Confirmed(init, after))
             && (own == [] <==> !read.obj.spec.suspend && read.obj.deleting && !read.obj.finalizer)
    ensures ReadOnce(init, before, after, read, v)
  {
    assert Own(before) + [Begin(read.version)] <= Own(after);
    assert Own(after)[|Own(before)| + 1..] == Own(after)[|Own(begun)|..];
    hide Own;
    hide Confirmed;
    hide VerdictOf;
  }

  lemma {:induction false} NothingYet()
    ensures Unbroken([])
  {
  }

  lemma {:induction false} NothingToDo(o: Object, confirmed: bool)
    ensures Unbroken([]) && VerdictOf(o, [], confirmed) == Done
  {
  }

  lemma {:induction false} SuspendedWrite(o: Object, e: Event, confirmed: bool)
    requires o.spec.suspend && e.WriteStatus?
    ensures Unbroken([e]) && VerdictOf(o, [e], confirmed) == if confirmed then Done else Error
  {
  }

  /** The last write of the deletion branch. */
  lemma {:induction false} FinalWrite(o: Object, own: seq<Event>, e: Event, confirmed: bool)
    requires !o.spec.suspend && o.deleting && Unbroken(own) && (e.Update? || e.WriteStatus?)
    ensures Unbroken(own + [e])
    ensures VerdictOf(o, own + [e], confirmed) == if e.WriteStatus? then Requeue(30)
                                                  else if confirmed then Done else Error
  {
  }

  lemma {:induction false} FinalizerAdded(o: Object, e: Event, confirmed: bool)
    requires !o.spec.suspend && !o.deleting && e.Update?
    ensures Unbroken([e]) && VerdictOf(o, [e], confirmed) == Error
  {
  }

  lemma {:induction false} OwnerSet(o: Object, own: seq<Event>, e: Event, confirmed: bool) returns (own': seq<Event>)
    requires !o.spec.suspend && !o.deleting && Unbroken(own) && e.Owner?
    ensures own' == own + [e] && Unbroken(own') && VerdictOf(o, own', confirmed) == Error
  {
    own' := own + [e];
  }

  lemma {:induction false} SynchronizedVerdict(o: Object, own: seq<Event>, rest: seq<Event>, confirmed: bool)
    requires !o.spec.suspend && !o.deleting && Unbroken(own)
    requires (|rest| == 2 && rest[0] == Resolve(false) && rest[1].WriteStatus?)
             || (|rest| == 3 && rest[0] == Resolve(true) && rest[1].Create? && rest[2].WriteStatus?)
    ensures Unbroken(own + rest)
    ensures VerdictOf(o, own + rest, confirmed) == if |rest| == 2 || !rest[1].ok then Requeue(30)
                                                   else if confirmed then Requeue(300) else Error
  {
    var all := own + rest;
    assert all[|all| - 1] == rest[|rest| - 1] && all[|all| - 2] == rest[|rest| - 2];
  }

  /** The own events of deleting the ATC team, as the spec read asks for, and the result they call for. */
  predicate Deleted(s: Spec, objectName: string, own: seq<Event>, ok: bool) {
    var name := if s.teamName != "" then s.teamName else objectName;
    if s.orphan then ok && own == []
    else if name == "main" && !s.allowDestroy then !ok && own == []
    else if own == [Resolve(false)] then !ok
    else own == [Resolve(true), Destroy(ok)]
  }

  /** The events of the whole deletion branch: the status is written exactly after a failure, else the object. */
  predicate FinalizedBy(s: Spec, objectName: string, own: seq<Event>, v: Verdict) {
    && own != []
    && var ok := own[|own| - 1].Update?;
    && (ok || own[|own| - 1].WriteStatus?)
    && Deleted(s, objectName, own[..|own| - 1], ok) && (v == Requeue(30) <==> !ok)
  }

  class TeamReconciler {
    const cluster: Cluster

    constructor (cluster: Cluster)
      ensures this.cluster == cluster
    {
      this.cluster := cluster;
    }

    /**
     One reconcile: whatever happens meanwhile it reads the object once and, if it gets it,
     extends the run by steps of the lifecycle from that read until it is idle, and returns the
     verdict that these steps call for. Done with an object held and marked for deletion means that it
     was released as its policy asks; the long requeue means that the team exists and that the
     grouping of the roles read, and nothing else, was sent.
     */
    method Reconcile() returns (v: Verdict, ghost read: Lookup)
      requires cluster.Valid() && cluster.w.op.Idle?
      modifies cluster
      ensures cluster.Valid() && old(cluster.events) <= cluster.events && cluster.w.op.Idle?
      ensures cluster.w.name == old(cluster.w.name) && cluster.lookups == old(cluster.lookups) + [read]
      ensures !read.Found? ==>
                && v == (if read.Missing? then Done else Error) && Own(cluster.events) == Own(old(cluster.events))
                && cluster.w.calls == old(cluster.w.calls) && cluster.auths == old(cluster.auths)
      ensures read.Found? ==>
                var t, o := read.t, read.t.obj;
                var name := ResolvedName(cluster.w.name, o.spec);
                var held := !o.spec.suspend && o.deleting && o.finalizer;
                && t.version < |cluster.w.hist| && cluster.w.hist[t.version] == o
                && ReadOnce(cluster.init, old(cluster.events), cluster.events, t, v)
                && (held ==> FinalizedBy(o.spec, cluster.w.name,
                                         Own(cluster.events)[|Own(old(cluster.events))| + 1..], v))
                && (held && v == Done ==>
                      && cluster.w.released == Some(if o.spec.orphan then Orphaned else DestroyedAs(name))
                      && (!o.spec.orphan ==>
                            cluster.w.calls == old(cluster.w.calls) + [DestroyCall(name, t.version)]))
                && (cluster.w.calls == old(cluster.w.calls)
                    || (held && !o.spec.orphan
                        && cluster.w.calls == old(cluster.w.calls) + [DestroyCall(name, t.version)]))
                && (cluster.auths == old(cluster.auths)
                    || (!o.spec.suspend && !o.deleting && Sent(cluster, old(cluster.auths), o.spec)))
                && (v == Requeue(300) ==> Sent(cluster, old(cluster.auths), o.spec) && name in cluster.w.mine)
    {
      hide Cluster.Valid;
      hide Groups;
      hide ResolvedName;
      hide Own;
      hide Confirmed;
      hide VerdictOf;
      hide ReadOnce;
      hide Unbroken;
      hide FinalizedBy;
      ghost var before := cluster.events;
      var found, team := cluster.Get();
      read := found;
      if team == null {
        return if found.Missing? then Done else Error, read;
      }
      ghost var t, begun := team.Value(), cluster.events;
      if team.spec.suspend {
        var ok := cluster.UpdateStatus(team);
        v := if ok then Done else Error;
        ghost var e := cluster.events[|cluster.events| - 1];
        SuspendedWrite(t.obj, e, ok);
        assert Own(cluster.events)[|Own(begun)|..] == [e];
      } else if team.deleting {
        if team.finalizer {
          v := Finalize(team);
        } else {
          v := Done;
          NothingToDo(t.obj, Confirmed(cluster.init, cluster.events));
          assert Own(cluster.events)[|Own(begun)|..] == [];
        }
      } else {
        v := Maintain(team);
      }
      ReadOnceThen(cluster.init, before, begun, cluster.events, t, v);
    }

    /** The deletion branch: destroys the team as the policy asks, then lets go of the object. */
    method Finalize(team: Team) returns (v: Verdict)
      requires cluster.Valid() && cluster.w.op == TeamLifecycle.DeleteTeam(cluster.w.name, team.Value())
      requires team.deleting && team.finalizer && !team.spec.suspend
      modifies cluster`w, cluster`events, cluster`clock, team`version, team`finalizer
      ensures cluster.Valid() && old(cluster.events) <= cluster.events && cluster.w.op.Idle?
      ensures cluster.w.name == old(cluster.w.name) && old(cluster.w.hist) <= cluster.w.hist
      ensures Own(old(cluster.events)) < Own(cluster.events)
      ensures var own := Own(cluster.events)[|Own(old(cluster.events))|..];
              Unbroken(own) && v == VerdictOf(old(team.Value().obj), own, Confirmed(cluster.init, cluster.events))
      ensures v != Requeue(300)
      ensures FinalizedBy(team.spec, cluster.w.name, Own(cluster.events)[|Own(old(cluster.events))|..], v)
      ensures var call := DestroyCall(ResolvedName(cluster.w.name, team.spec), old(team.version));
              && (v == Done ==>
                    cluster.w.released == Some(if team.spec.orphan then Orphaned else DestroyedAs(call.name)))
              && (v == Done && !team.spec.orphan ==> cluster.w.calls == old(cluster.w.calls) + [call])
              && (cluster.w.calls == old(cluster.w.calls)
                  || (!team.spec.orphan && cluster.w.calls == old(cluster.w.calls) + [call]))
    {
      hide Cluster.Valid;
      hide ResolvedName;
      hide Own;
      hide Confirmed;
      hide Unbroken;
      hide VerdictOf;
      hide Deleted;
      ghost var o, base := team.Value().obj, Own(cluster.events);
      var destroyed := DeleteTeam(team);
      ghost var own := Own(cluster.events)[|Own(old(cluster.events))|..];
      if !destroyed {
        var ok := cluster.UpdateStatus(team);
        FinalWrite(o, own, cluster.events[|cluster.events| - 1], ok);
        assert Own(cluster.events)[|base|..] == own + [cluster.events[|cluster.events| - 1]];
        return Requeue(30);
      }
      team.finalizer := false;
      var ok := cluster.Update(team);
      FinalWrite(o, own, cluster.events[|cluster.events| - 1], ok);
      assert Own(cluster.events)[|base|..] == own + [cluster.events[|cluster.events| - 1]];
      return if ok then Done else Error;
    }

    /** The branch of an object that is there to stay: finalizer, owner reference, then the team. */
    method Maintain(team: Team) returns (v: Verdict)
      requires cluster.Valid() && !team.deleting && !team.spec.suspend
      requires cluster.w.op == Running(team.Value(), if team.finalizer then Owning else AddingFinalizer)
      requires team.roles == cluster.rolesOf(team.spec)
      modifies cluster`w, cluster`events, cluster`clock, cluster`auths, team`version, team`finalizer
      ensures cluster.Valid() && old(cluster.events) <= cluster.events && cluster.w.op.Idle?
      ensures cluster.w.name == old(cluster.w.name) && old(cluster.w.hist) <= cluster.w.hist
      ensures cluster.w.calls == old(cluster.w.calls) && Own(old(cluster.events)) < Own(cluster.events)
      ensures var own := Own(cluster.events)[|Own(old(cluster.events))|..];
              Unbroken(own) && v == VerdictOf(old(team.Value().obj), own, Confirmed(cluster.init, cluster.events))
      ensures cluster.auths == old(cluster.auths) || Sent(cluster, old(cluster.auths), team.spec)
      ensures v == Requeue(300) ==>
                Sent(cluster, old(cluster.auths), team.spec)
                && ResolvedName(cluster.w.name, team.spec) in cluster.w.mine
    {
      hide Cluster.Valid;
      hide ResolvedName;
      hide Own;
      hide Confirmed;
      hide Unbroken;
      hide VerdictOf;
      hide AuthOf;
      ghost var o, base := team.Value().obj, Own(cluster.events);
      ghost var own: seq<Event> := [];
      NothingYet();
      if !team.finalizer {
        team.finalizer := true;
        var ok := cluster.Update(team);
        own := [cluster.events[|cluster.events| - 1]];
        FinalizerAdded(o, own[0], ok);
        if !ok {
          return Error;
        }
      }
      assert Own(cluster.events) == base + own;
      var owned := cluster.EnsureOwner(team);
      own := OwnerSet(o, own, cluster.events[|cluster.events| - 1], Confirmed(cluster.init, cluster.events));
      assert Own(cluster.events) == base + own;
      if !owned {
        return Error;
      }
      ghost var before := Own(cluster.events);
      v := Synchronize(team);
      ghost var rest := Own(cluster.events)[|before|..];
      assert Own(cluster.events) == base + (own + rest);
      SynchronizedVerdict(o, own, rest, Confirmed(cluster.init, cluster.events));
    }

    /**
     Creates or updates the ATC team with the grouping of the object's roles, and writes the
     status. The long requeue means that both were done; the grouping is sent only if the
     instance was resolved.
     */
    method Synchronize(team: Team) returns (v: Verdict)
      requires cluster.Valid() && cluster.w.op == Running(team.Value(), Resolving)
      requires team.roles == cluster.rolesOf(team.spec)
      modifies cluster`w, cluster`events, cluster`clock, cluster`auths
      ensures cluster.Valid() && old(cluster.events) <= cluster.events && cluster.w.op.Idle?
      ensures cluster.w.name == old(cluster.w.name) && old(cluster.w.hist) <= cluster.w.hist
      ensures cluster.w.calls == old(cluster.w.calls) && cluster.w.released == old(cluster.w.released)
      ensures Own(old(cluster.events)) <= Own(cluster.events)
      ensures var own := Own(cluster.events)[|Own(old(cluster.events))|..];
              var confirmed := Confirmed(cluster.init, cluster.events);
              if |own| == 2
              then own[0] == Resolve(false) && own[1].WriteStatus? && v == Requeue(30)
                   && cluster.auths == old(cluster.auths)
              else && |own| == 3 && own[0] == Resolve(true) && own[1].Create? && own[2].WriteStatus?
                   && v == (if !own[1].ok then Requeue(30) else if confirmed then Requeue(300) else Error)
                   && Sent(cluster, old(cluster.auths), team.spec)
                   && (own[1].ok ==> ResolvedName(cluster.w.name, team.spec) in cluster.w.mine)
    {
      hide Cluster.Valid;
      hide Groups;
      hide ResolvedName;
      hide Own;
      hide Confirmed;
      var resolved := cluster.ResolveInstance(team);
      if !resolved {
        var _ := cluster.UpdateStatus(team);
        return Requeue(30);
      }
      var name := ResolvedName(cluster.w.name, team.spec);
      var auth := BuildTeamAuth(team.roles);
      var created := cluster.CreateOrUpdate(team, name, auth);
      assert Sent(cluster, old(cluster.auths), team.spec);
      var ok := cluster.UpdateStatus(team);
      return if !created then Requeue(30) else if ok then Requeue(300) else Error;
    }

    /**
     Success means the policy is Orphan and nothing was called, or the team was destroyed.
     Under Orphan it always succeeds; otherwise it fails exactly if the team is "main" without
     permission, or the instance is not resolved, or the destroy call fails.
     */
    method DeleteTeam(team: Team) returns (ok: bool)
      requires cluster.Valid() && cluster.w.op == TeamLifecycle.DeleteTeam(cluster.w.name, team.Value())
      modifies cluster`w, cluster`events, cluster`clock
      ensures cluster.Valid() && old(cluster.events) <= cluster.events && cluster.w.name == old(cluster.w.name)
      ensures old(cluster.w.hist) <= cluster.w.hist && Own(old(cluster.events)) <= Own(cluster.events)
      ensures Unbroken(Own(cluster.events)[|Own(old(cluster.events))|..])
      ensures var name := ResolvedName(cluster.w.name, team.spec);
              && cluster.w.op == Running(team.Value(), if !ok then Status
                 else if team.spec.orphan then Removing(Orphaned) else Removing(DestroyedAs(name)))
              && (ok && !team.spec.orphan ==>
                  cluster.w.calls == old(cluster.w.calls) + [DestroyCall(name, team.version)])
              && (cluster.w.calls == old(cluster.w.calls)
                  || cluster.w.calls == old(cluster.w.calls) + [DestroyCall(name, team.version)])
              && (team.spec.orphan || (name == MAIN_TEAM && !team.spec.allowDestroy) ==>
                    cluster.w.calls == old(cluster.w.calls))
      ensures Deleted(team.spec, cluster.w.name, Own(cluster.events)[|Own(old(cluster.events))|..], ok)
    {
      hide Cluster.Valid;
      hide Own;
      if team.spec.orphan {
        return true;
      }
      var name := ResolvedName(cluster.w.name, team.spec);
      if name == MAIN_TEAM && !team.spec.allowDestroy {
        return false;
      }
      var resolved := cluster.ResolveInstance(team);
      if !resolved {
        return false;
      }
      ok := cluster.DestroyTeam(team, name);
    }
  }

  /** The grouping of the roles of this spec was sent once since, and no other. */
  ghost predicate Sent(cluster: Cluster, before: seq<Option<Auth>>, spec: Spec)
    reads cluster`auths
  {
    && |cluster.auths| == |before| + 1 && before <= cluster.auths
    && AuthOf(cluster.rolesOf(spec), cluster.auths[|before|])
  }

  ghost predicate AuthOf(roles: seq<TeamRole>, auth: Option<Auth>) {
    (auth.None? <==> roles == []) && (auth.Some? ==> Groups(roles, auth.value))
  }
}
