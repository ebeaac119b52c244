/** GetOrBuild is not atomic: its Get, build and Set interleave across any number of threads. */
module ClientCacheThreads {
  import opened Options
  import opened ClientCache

  datatype Thread =
    | Resting
    | Missed(i: Instance)
    | Built(i: Instance, cl: Client)
    | Returned(i: Instance, cl: Client)

  datatype System = System(store: Store, threads: map<nat, Thread>)

  datatype Event =
    | Look(t: nat, i: Instance)
    | Build(t: nat, ok: bool)
    | Save(t: nat)
    | Drop(i: Instance)

  function Apply(s: System, e: Event): System {
    match e
    case Look(t, i) =>
      if t in s.threads && (s.threads[t].Missed? || s.threads[t].Built?) then s
      else s.(threads := s.threads[t := match Lookup(s.store, i)
                                        case Some(cl) => Returned(i, cl)
                                        case None => Missed(i)])
    case Build(t, ok) =>
      if t !in s.threads || !s.threads[t].Missed? then s
      else s.(threads := s.threads[t := if ok then Built(s.threads[t].i, Client(s.threads[t].i)) else Resting])
    case Save(t) =>
      if t !in s.threads || !s.threads[t].Built? then s
      else
        var Built(i, cl) := s.threads[t];
        s.(store := Stored(s.store, i, cl), threads := s.threads[t := Returned(i, cl)])
    case Drop(i) => s.(store := Evicted(s.store, i))
  }

  function Run(es: seq<Event>): System {
    if es == [] then System(map[], map[]) else Apply(Run(es[..|es| - 1]), es[|es| - 1])
  }

  /** Every snapshot used is well named and carries the spec its object had at that version. */
  predicate Genuine(i: Instance, specAt: (string, string, string) -> int) {
    Named(i.namespace, i.name) && i.spec == specAt(i.namespace, i.name, i.version)
  }

  predicate GenuineEvent(e: Event, specAt: (string, string, string) -> int) {
    match e
    case Look(_, i) => Genuine(i, specAt)
    case Drop(i) => Named(i.namespace, i.name)
    case _ => true
  }

  /** Entries lie under the key of the snapshot they were built from, one per instance. */
  ghost predicate StoreInv(store: Store, specAt: (string, string, string) -> int) {
    && (forall k :: k in store ==> Genuine(store[k].builtFrom, specAt) && k == CacheKey(store[k].builtFrom))
    && (forall k, l :: k in store && l in store && SameInstance(store[k].builtFrom, store[l].builtFrom) ==> k == l)
  }

  predicate SameInstance(i: Instance, j: Instance) {
    i.namespace == j.namespace && i.name == j.name
  }

  predicate ThreadInv(th: Thread, specAt: (string, string, string) -> int) {
    match th
    case Resting => true
    case Missed(i) => Genuine(i, specAt)
    case Built(i, cl) => Genuine(i, specAt) && cl.builtFrom == i
    case Returned(i, cl) => Genuine(i, specAt) && cl.builtFrom == i
  }

  ghost predicate Inv(s: System, specAt: (string, string, string) -> int) {
    && StoreInv(s.store, specAt)
    && (forall t :: t in s.threads ==> ThreadInv(s.threads[t], specAt))
  }

  lemma {:induction false} SaveKeeps(store: Store, i: Instance, specAt: (string, string, string) -> int)
    requires StoreInv(store, specAt) && Genuine(i, specAt)
    ensures StoreInv(Stored(store, i, Client(i)), specAt)
  {
    forall k | k in store
      ensures Prefix(i.namespace, i.name) <= k <==>
              (i.namespace, i.name) == (store[k].builtFrom.namespace, store[k].builtFrom.name)
    {
      KeysAreExact(i, store[k].builtFrom);
    }
  }

  lemma {:induction false} StepKeeps(s: System, e: Event, specAt: (string, string, string) -> int)
    requires Inv(s, specAt) && GenuineEvent(e, specAt)
    ensures Inv(Apply(s, e), specAt)
  {
    match e
    case Look(t, i) =>
      if CacheKey(i) in s.store {
        KeysAreExact(i, s.store[CacheKey(i)].builtFrom);
      }
    case Build(t, ok) =>
    case Save(t) =>
      if t in s.threads && s.threads[t].Built? {
        SaveKeeps(s.store, s.threads[t].i, specAt);
      }
    case Drop(i) =>
  }

  /**
   In every interleaving there is at most one entry per instance, each entry was built
   from the spec at the resource version in its key, and what a thread gets for a
   snapshot, by a hit or by building, was built from that very snapshot.
   */
  lemma {:induction false} HitsAreForTheirVersion(es: seq<Event>, specAt: (string, string, string) -> int)
    requires forall n :: 0 <= n < |es| ==> GenuineEvent(es[n], specAt)
    ensures Inv(Run(es), specAt)
    ensures forall t :: t in Run(es).threads && Run(es).threads[t].Returned? ==>
                          Run(es).threads[t].cl.builtFrom == Run(es).threads[t].i
  {
    if es != [] {
      HitsAreForTheirVersion(es[..|es| - 1], specAt);
      StepKeeps(Run(es[..|es| - 1]), es[|es| - 1], specAt);
    }
  }

  // ---------------------------------------------------------------- entries after an eviction

  predicate Holds(store: Store, ns: string, n: string) {
    exists k :: k in store && Prefix(ns, n) <= k
  }

  /** Of the saves and evictions of this instance that took place, the last was a save. */
  predicate LastIsSave(es: seq<Event>, ns: string, n: string) {
    es != [] && (
      var pre := es[..|es| - 1];
      var s := Run(pre);
      match es[|es| - 1]
      case Save(t) =>
        (t in s.threads && s.threads[t].Built? && s.threads[t].i.namespace == ns && s.threads[t].i.name == n)
        || LastIsSave(pre, ns, n)
      case Drop(i) => !(i.namespace == ns && i.name == n) && LastIsSave(pre, ns, n)
      case _ => LastIsSave(pre, ns, n))
  }

  lemma {:induction false} EvictedHolds(store: Store, i: Instance, ns: string, n: string,
                                        specAt: (string, string, string) -> int)
    requires StoreInv(store, specAt) && Named(i.namespace, i.name) && Named(ns, n)
    ensures Holds(Evicted(store, i), ns, n) <==> !(i.namespace == ns && i.name == n) && Holds(store, ns, n)
  {
    forall k | k in store && Prefix(ns, n) <= k
      ensures Prefix(i.namespace, i.name) <= k <==> i.namespace == ns && i.name == n
    {
      KeyParts(ns, n, k[|Prefix(ns, n)|..], store[k].builtFrom.namespace, store[k].builtFrom.name,
               store[k].builtFrom.version);
      KeysAreExact(i, store[k].builtFrom);
    }
    if Holds(store, ns, n) && !(i.namespace == ns && i.name == n) {
      var k :| k in store && Prefix(ns, n) <= k;
      assert k in Evicted(store, i);
    }
  }

  lemma {:induction false} StoredHolds(store: Store, i: Instance, ns: string, n: string,
                                       specAt: (string, string, string) -> int)
    requires StoreInv(store, specAt) && Named(i.namespace, i.name) && Named(ns, n)
    ensures Holds(Stored(store, i, Client(i)), ns, n) <==> (i.namespace == ns && i.name == n) || Holds(store, ns, n)
  {
    var store' := Stored(store, i, Client(i));
    EvictedHolds(store, i, ns, n, specAt);
    KeysAreExact(Instance(ns, n, "", 0), i);
    assert CacheKey(i) in store';
    if Holds(Evicted(store, i), ns, n) {
      var k :| k in Evicted(store, i) && Prefix(ns, n) <= k;
      assert k in store';
    }
  }

  /** In every interleaving an instance has an entry exactly if it was saved after its last eviction. */
  lemma {:induction false} EntryIffLastIsSave(es: seq<Event>, ns: string, n: string,
                                              specAt: (string, string, string) -> int)
    requires forall k :: 0 <= k < |es| ==> GenuineEvent(es[k], specAt)
    requires Named(ns, n)
    ensures Holds(Run(es).store, ns, n) <==> LastIsSave(es, ns, n)
  {
    if es != [] {
      var pre := es[..|es| - 1];
      var s := Run(pre);
      EntryIffLastIsSave(pre, ns, n, specAt);
      HitsAreForTheirVersion(pre, specAt);
      match es[|es| - 1]
      case Save(t) =>
        if t in s.threads && s.threads[t].Built? {
          StoredHolds(s.store, s.threads[t].i, ns, n, specAt);
        }
      case Drop(i) => EvictedHolds(s.store, i, ns, n, specAt);
      case _ =>
    }
  }

  /** The thread has missed on the instance and has not saved yet. */
  predicate Preparing(th: Thread, ns: string, n: string) {
    (th.Missed? || th.Built?) && th.i.namespace == ns && th.i.name == n
  }

  predicate Pending(s: System, ns: string, n: string) {
    exists t :: t in s.threads && Preparing(s.threads[t], ns, n)
  }

  predicate NeverLooks(es: seq<Event>, ns: string, n: string) {
    forall k :: 0 <= k < |es| && es[k].Look? ==> !(es[k].i.namespace == ns && es[k].i.name == n)
  }

  lemma {:induction false} NothingPendingStays(s: System, e: Event, ns: string, n: string)
    requires !Pending(s, ns, n) && NeverLooks([e], ns, n)
    ensures !Pending(Apply(s, e), ns, n)
  {
    assert [e][0] == e;
    var s' := Apply(s, e);
    forall t | t in s'.threads ensures !Preparing(s'.threads[t], ns, n) {
      assert t in s.threads ==> !Preparing(s.threads[t], ns, n);
    }
  }

  lemma {:induction false} StaysGone(es: seq<Event>, later: seq<Event>, ns: string, n: string,
                                     specAt: (string, string, string) -> int)
    requires forall k :: 0 <= k < |es| ==> GenuineEvent(es[k], specAt)
    requires forall k :: 0 <= k < |later| ==> GenuineEvent(later[k], specAt)
    requires Named(ns, n) && NeverLooks(later, ns, n)
    requires !LastIsSave(es, ns, n) && !Pending(Run(es), ns, n)
    ensures !LastIsSave(es + later, ns, n) && !Pending(Run(es + later), ns, n)
    decreases |later|
  {
    if later == [] {
      assert es + later == es;
    } else {
      var pre, e := later[..|later| - 1], later[|later| - 1];
      assert (es + later)[..|es + later| - 1] == es + pre;
      StaysGone(es, pre, ns, n, specAt);
      NothingPendingStays(Run(es + pre), e, ns, n);
      var s := Run(es + pre);
      assert e.Save? && e.t in s.threads && s.threads[e.t].Built? ==> !Preparing(s.threads[e.t], ns, n);
    }
  }

  /** `later` brings back an entry for the instance although nobody looks for it any more. */
  ghost predicate Revives(es: seq<Event>, later: seq<Event>, ns: string, n: string,
                          specAt: (string, string, string) -> int) {
    && (forall k :: 0 <= k < |later| ==> GenuineEvent(later[k], specAt))
    && NeverLooks(later, ns, n)
    && Holds(Run(es + later).store, ns, n)
  }

  /**
   After an eviction an entry can come back without a new Get exactly if some thread had
   missed on the instance, and not saved yet, when it was evicted.
   */
  lemma {:induction false} EvictedEntryReturnsIff(es: seq<Event>, i: Instance, specAt: (string, string, string) -> int)
    requires forall k :: 0 <= k < |es| ==> GenuineEvent(es[k], specAt)
    requires Named(i.namespace, i.name)
    ensures (exists later :: Revives(es + [Drop(i)], later, i.namespace, i.name, specAt)) <==>
            Pending(Run(es), i.namespace, i.name)
  {
    var ns, n, dropped := i.namespace, i.name, es + [Drop(i)];
    assert dropped[..|dropped| - 1] == es;
    assert Run(dropped).threads == Run(es).threads && !LastIsSave(dropped, ns, n);
    if Pending(Run(es), ns, n) {
      var t :| t in Run(es).threads && Preparing(Run(es).threads[t], ns, n);
      PendingThreadSaves(dropped, t, ns, n, specAt);
    } else {
      assert !Pending(Run(dropped), ns, n);
      forall later ensures !Revives(dropped, later, ns, n, specAt) {
        if Revives(dropped, later, ns, n, specAt) {
          StaysGone(dropped, later, ns, n, specAt);
          EntryIffLastIsSave(dropped + later, ns, n, specAt);
        }
      }
    }
  }

  lemma {:induction false} PendingThreadSaves(es: seq<Event>, t: nat, ns: string, n: string,
                                              specAt: (string, string, string) -> int)
    requires forall k :: 0 <= k < |es| ==> GenuineEvent(es[k], specAt)
    requires Named(ns, n) && t in Run(es).threads && Preparing(Run(es).threads[t], ns, n)
    ensures exists later :: Revives(es, later, ns, n, specAt)
  {
    var later := [Build(t, true), Save(t)];
    assert (es + later)[..|es + later| - 1] == es + [Build(t, true)];
    assert (es + [Build(t, true)])[..|es + [Build(t, true)]| - 1] == es;
    assert LastIsSave(es + later, ns, n);
    EntryIffLastIsSave(es + later, ns, n, specAt);
    assert Revives(es, later, ns, n, specAt);
  }
}
