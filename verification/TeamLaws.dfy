/** What an undisturbed reconcile of a Team does in each of its branches, from whatever state a run has reached. */
module TeamLaws {
  import opened Options
  import opened Protocols
  import opened TeamLifecycle

  /** Between two reconciles of an object that exists. */
  predicate Resting(w: World) {
    w.op.Idle? && w.alive && w.hist != []
  }

  /**
   A reconcile of the newest version in which nobody else acts, the owner reference is in place,
   every call succeeds and every write lands. A call that the reconcile does not make has no
   effect.
   */
  function Undisturbed(r: Run): Run {
    var started := Then(Then(Then(r, Begin(Newest(State(r)))), Update(Delivered)), Owner(false, Delivered));
    var called := Then(Then(Then(started, Resolve(true)), Create(true, true)), Destroy(true));
    Then(Then(called, Update(Delivered)), WriteStatus(Delivered))
  }

  /** The same on states. */
  function Steps(w: World): World {
    var w3 := Apply(Apply(Apply(w, Begin(Newest(w))), Update(Delivered)), Owner(false, Delivered));
    var w6 := Apply(Apply(Apply(w3, Resolve(true)), Create(true, true)), Destroy(true));
    Apply(Apply(w6, Update(Delivered)), WriteStatus(Delivered))
  }

  lemma {:induction false} UndisturbedSteps(r: Run)
    ensures State(Undisturbed(r)) == Steps(State(r))
  {
    var r8 := Undisturbed(r);
    var r7 := r8.prev;
    var r6 := r7.prev;
    var r5 := r6.prev;
    var r4 := r5.prev;
    var r3 := r4.prev;
    var r2 := r3.prev;
    var r1 := r2.prev;
    hide Apply;
    assert State(r1) == Apply(State(r), Begin(Newest(State(r))));
    assert State(r2) == Apply(State(r1), Update(Delivered));
    assert State(r3) == Apply(State(r2), Owner(false, Delivered));
    assert State(r4) == Apply(State(r3), Resolve(true));
    assert State(r5) == Apply(State(r4), Create(true, true));
    assert State(r6) == Apply(State(r5), Destroy(true));
    assert State(r7) == Apply(State(r6), Update(Delivered));
    assert State(r8) == Apply(State(r7), WriteStatus(Delivered));
  }

  /** Nothing is answered while no reconcile runs. */
  lemma {:induction false} StaysIdle(w: World, e: Event)
    requires w.op.Idle? && !e.Begin? && !e.Edit? && !e.Delete? && !e.Crash?
    ensures Apply(w, e) == w
  {
  }

  lemma {:induction false} WritesStatus(w: World, t: Local)
    requires w.hist != [] && w.alive && w.op == Running(t, Status) && t == Local(|w.hist| - 1, Last(w))
    requires !Last(w).deleting || Last(w).finalizer || Last(w).others
    ensures forall e: Event ::
              e.Update? || e.Owner? || e.Resolve? || e.Create? || e.Destroy? ==> Apply(w, e) == w
    ensures Apply(w, WriteStatus(Delivered)) == w.(hist := w.hist + [Last(w)], op := Idle)
  {
  }

  /**
   A held object marked for deletion. Under Orphan it is released without any call. Otherwise
   its team is destroyed under the name it has and the object is released for that, unless
   this is "main" without permission: then nothing happens to either.
   */
  lemma {:induction false} UndisturbedDeletion(r: Run)
    requires FromInit(r) && Resting(State(r))
    requires var o := Last(State(r)); !o.spec.suspend && o.deleting && o.finalizer
    ensures var w, w', o := State(r), State(Undisturbed(r)), Last(State(r));
            var name := if o.spec.teamName != "" then o.spec.teamName else w.name;
            var refused := !o.spec.orphan && name == "main" && !o.spec.allowDestroy;
            && w'.op.Idle?
            && w'.hist == w.hist + [if refused then o else o.(finalizer := false)]
            && w'.alive == (refused || o.others)
            && w'.released == (if refused then w.released
                               else Some(if o.spec.orphan then Orphaned else DestroyedAs(name)))
            && w'.calls == (if refused || o.spec.orphan then w.calls
                            else w.calls + [DestroyCall(name, |w.hist| - 1)])
            && w'.mine == (if refused || o.spec.orphan then w.mine else w.mine - {name})
  {
    RunKeeps(r);
    UndisturbedSteps(r);
    Deletion(State(r));
  }

  /** The state in which a reconcile of the newest version starts. */
  function Begun(w: World): World {
    w.(floor := if |w.hist| - 1 > w.floor then |w.hist| - 1 else w.floor)
  }

  lemma {:induction false} ReleaseUnderOrphan(w: World)
    requires Resting(w) && !Last(w).spec.suspend && Last(w).deleting && Last(w).finalizer && Last(w).spec.orphan
    ensures Steps(w) == Begun(w).(hist := w.hist + [Last(w).(finalizer := false)], alive := Last(w).others,
                                  released := Some(Orphaned))
  {
    var w1 := Apply(w, Begin(Newest(w)));
    var w2 := Apply(w1, Update(Delivered));
    assert w1.op == Running(Local(|w.hist| - 1, Last(w)), Removing(Orphaned));
    assert w2.op == Idle;
    hide Apply;
    StaysIdle(w2, Owner(false, Delivered));
    StaysIdle(w2, Resolve(true));
    StaysIdle(w2, Create(true, true));
    StaysIdle(w2, Destroy(true));
    StaysIdle(w2, Update(Delivered));
    StaysIdle(w2, WriteStatus(Delivered));
  }

  lemma {:induction false} ReleaseAfterDestroy(w: World, name: string)
    requires Resting(w) && !Last(w).spec.suspend && Last(w).deleting && Last(w).finalizer && !Last(w).spec.orphan
    requires name == ResolvedName(w.name, Last(w).spec) && (name == MAIN_TEAM ==> Last(w).spec.allowDestroy)
    ensures Steps(w) == Begun(w).(hist := w.hist + [Last(w).(finalizer := false)], alive := Last(w).others,
                                  released := Some(DestroyedAs(name)),
                                  calls := w.calls + [DestroyCall(name, |w.hist| - 1)], mine := w.mine - {name})
  {
    var t := Local(|w.hist| - 1, Last(w));
    hide ResolvedName;
    var w1 := Apply(w, Begin(Newest(w)));
    var w3 := Apply(Apply(w1, Update(Delivered)), Owner(false, Delivered));
    assert w1.op == Running(t, ResolvingDestroy) && w3 == w1;
    var w4 := Apply(w3, Resolve(true));
    var w5 := Apply(w4, Create(true, true));
    assert w4 == w1.(op := Running(t, Destroying)) && w5 == w4;
    var w6 := Apply(w5, Destroy(true));
    assert w6.op == Running(t, Removing(DestroyedAs(name))) && w6.hist == w.hist;
    var w7 := Apply(w6, Update(Delivered));
    StaysIdle(w7, WriteStatus(Delivered));
  }

  lemma {:induction false} Deletion(w: World)
    requires Resting(w) && !Last(w).spec.suspend && Last(w).deleting && Last(w).finalizer
    ensures var o := Last(w);
            var name := ResolvedName(w.name, o.spec);
            var let := o.(finalizer := false);
            Steps(w) ==
            if o.spec.orphan then Begun(w).(hist := w.hist + [let], alive := o.others, released := Some(Orphaned))
            else if name == MAIN_TEAM && !o.spec.allowDestroy then Begun(w).(hist := w.hist + [o])
            else Begun(w).(hist := w.hist + [let], alive := o.others, released := Some(DestroyedAs(name)),
                           calls := w.calls + [DestroyCall(name, |w.hist| - 1)], mine := w.mine - {name})
  {
    var o, name := Last(w), ResolvedName(w.name, Last(w).spec);
    if o.spec.orphan {
      ReleaseUnderOrphan(w);
    } else if name == MAIN_TEAM && !o.spec.allowDestroy {
      WritesStatus(Apply(w, Begin(Newest(w))), Local(|w.hist| - 1, o));
    } else {
      ReleaseAfterDestroy(w, name);
      hide Apply;
    }
  }

  /**
   Any other object. A suspended one only has its status written; one that is kept by others alone is left
   alone. A live one gets the finalizer before anything else and then its team, under the name it has.
   */
  lemma {:induction false} UndisturbedUpkeep(r: Run)
    requires FromInit(r) && Resting(State(r))
    requires var o := Last(State(r)); o.spec.suspend || !o.deleting || !o.finalizer
    ensures var w, w', o := State(r), State(Undisturbed(r)), Last(State(r));
            var name := if o.spec.teamName != "" then o.spec.teamName else w.name;
            && Resting(w') && w'.calls == w.calls && w'.released == w.released
            && if o.spec.suspend then w'.mine == w.mine && w'.hist == w.hist + [o]
               else if o.deleting then w'.mine == w.mine && w'.hist == w.hist
               else && w'.mine == w.mine + {name}
                    && w'.hist == w.hist + (if o.finalizer then [] else [o.(finalizer := true)])
                                  + [o.(finalizer := true)]
  {
    RunKeeps(r);
    UndisturbedSteps(r);
    Upkeep(State(r));
  }

  lemma {:induction false} Upkeep(w: World)
    requires Inv(w) && Resting(w) && (Last(w).spec.suspend || !Last(w).deleting || !Last(w).finalizer)
    ensures var o := Last(w);
            Steps(w) ==
            if o.spec.suspend then Begun(w).(hist := w.hist + [o])
            else if o.deleting then Begun(w)
            else Begun(w).(mine := w.mine + {ResolvedName(w.name, o.spec)},
                           hist := w.hist + (if o.finalizer then [] else [o.(finalizer := true)])
                                   + [o.(finalizer := true)])
  {
    var o, t := Last(w), Local(|w.hist| - 1, Last(w));
    hide ResolvedName;
    hide Inv;
    var w1 := Apply(w, Begin(Newest(w)));
    var w2 := Apply(w1, Update(Delivered));
    var w3 := Apply(w2, Owner(false, Delivered));
    var w4 := Apply(w3, Resolve(true));
    var w5 := Apply(w4, Create(true, true));
    if o.spec.suspend {
      WritesStatus(w1, t);
    } else if o.deleting {
      StaysIdle(w1, Update(Delivered));
      StaysIdle(w1, Owner(false, Delivered));
      StaysIdle(w1, Resolve(true));
      StaysIdle(w1, Create(true, true));
      StaysIdle(w1, Destroy(true));
      StaysIdle(w1, WriteStatus(Delivered));
    } else {
      var t' := if o.finalizer then t else Local(|w.hist|, o.(finalizer := true));
      assert w2.op == Running(t', Owning);
      assert w3 == w2.(op := Running(t', Resolving));
      assert w4 == w2.(op := Running(t', Creating));
      assert w5.op == Running(t', Status) && w5.hist == w2.hist;
      WritesStatus(w5, t');
      assert w.hist + [] == w.hist;
    }
  }
}
