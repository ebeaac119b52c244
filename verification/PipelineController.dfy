/** syncPipelineConfig and the status writes around it in the operator's imperative form. */
module PipelineController {
  import opened Options
  import opened Protocols
  import opened PipelineConfig

  /** What happens around one call: others' writes before it, then its answer. */
  datatype Tick = Tick(outside: seq<Event>, ok: bool, fault: Fault, id: Option<int>, rest: int, version: nat)

  /** The in-memory Pipeline object. */
  class Pipeline {
    var version: nat
    var status: Status

    constructor (version: nat, status: Status)
      ensures Value() == Local(version, status)
    {
      this.version, this.status := version, status;
    }

    function Value(): Local
      reads this
    {
      Local(version, status)
    }
  }

  /** Two operations that differ only in whether others have overtaken a save. */
  predicate SameCall(op: Op, op': Op) {
    op' == op || (op.Running? && op.pc.Saving? && op' == op.(pc := op.pc.(raced := true)))
  }

  lemma {:induction false} Nonempty(hash: Digest, w: World)
    requires Inv(hash, w)
    ensures 0 < |w.hist|
  {
  }

  lemma {:induction false} HistoryGrows(hash: Digest, w: World, e: Event)
    ensures w.hist <= Apply(hash, w, e).hist
  {
  }

  predicate Foreign(e: Event) {
    e.OtherConfig? || e.OtherDelete? || e.OtherEdit?
  }

  /** The reconciler's own events, without those of others. */
  function Own(es: seq<Event>): seq<Event> {
    if es == [] then []
    else
      var e := es[|es| - 1];
      Own(es[..|es| - 1]) + if Foreign(e) then [] else [e]
  }

  /** Own events of one reconcile after its read. */
  predicate Unbroken(es: seq<Event>) {
    forall e :: e in es ==> !e.Begin? && !e.Crash?
  }

  /** The last event is a status write that landed and was answered. */
  ghost predicate Confirmed(hash: Digest, w0: World, es: seq<Event>) {
    && es != [] && es[|es| - 1] == Record(Delivered)
    && Lands(State(hash, RunOf(w0, es[..|es| - 1])), Delivered)
  }

  /** The last event is a save that the ATC took and answered. */
  ghost predicate Taken(hash: Digest, w0: World, es: seq<Event>) {
    es != [] && es[|es| - 1] == Save(Delivered) && Takes(State(hash, RunOf(w0, es[..|es| - 1])))
  }

  /** One more event, and not one that breaks a reconcile. */
  lemma {:induction false} OneMore(own: seq<Event>, e: Event)
    requires Unbroken(own) && !e.Begin? && !e.Crash?
    ensures Unbroken(own + [e])
  {
  }

  lemma {:induction false} SameCallReflexive(op: Op)
    ensures SameCall(op, op)
  {
  }

  lemma {:induction false} OthersGoUnnoticed(hash: Digest, w: World, e: Event, op: Op)
    requires Foreign(e) && SameCall(op, w.op)
    ensures SameCall(op, Apply(hash, w, e).op) && Apply(hash, w, e).saves == w.saves
  {
  }

  /** What a save answers, and what the reconcile goes on with. */
  lemma {:induction false} SaveAnswered(hash: Digest, w: World, op: Op, fault: Fault, err: Option<Failure>)
    requires Inv(hash, w) && op.Running? && op.pc.Saving? && SameCall(op, w.op)
    requires err == if fault.Lost? then Some(Other)
                    else if Token(op.pc.seen) == w.cfg.version then None else Some(Comparison)
    ensures var w' := Apply(hash, w, Save(fault));
            && w'.saves == w.saves + 1 && (err.None? <==> fault.Delivered? && Takes(w))
            && w'.op == match err
                        case None => op.(p := op.p.(status := op.p.status.(configHash := hash(op.bytes))),
                                         saved := true, pc := Observing)
                        case Some(Comparison) =>
                          op.(pc := if op.pc.tries <= 1 then Writing(Some(Comparison)) else Fetching(op.pc.tries - 1))
                        case Some(Other) => op.(pc := Writing(Some(Other)))
  {
    Nonempty(hash, w);
    assert Apply(hash, w, Save(fault)) == SaveStep(hash, w, fault);
  }

  /**
   API server and ATC. `script` decides everything the controller does not; `replies` are the
   answers to the saves, None for success.
   */
  class Cluster {
    const hash: Digest
    ghost const init: World
    ghost var events: seq<Event>
    var w: World
    const script: nat -> Tick
    var clock: nat
    var replies: seq<Option<Failure>>

    constructor (hash: Digest, w0: World, script: nat -> Tick)
      requires Init(w0)
      ensures Valid() && w == w0 && events == [] && init == w0
    {
      this.hash, init, w, events, clock, replies := hash, w0, w0, [], 0, [];
      this.script := script;
      new;
      RunKeeps(hash, Start(w0));
    }

    /** The state is the one reached by the events so far. */
    ghost predicate Valid()
      reads this`w, this`events
    {
      Init(init) && w == State(hash, RunOf(init, events)) && Inv(hash, w)
    }

    method Do(e: Event)
      requires Valid()
      modifies this`w, this`events
      ensures Valid() && events == old(events) + [e] && w == Apply(hash, old(w), e) && old(w.hist) <= w.hist
      ensures Own(events) == Own(old(events)) + if Foreign(e) then [] else [e]
      ensures Confirmed(hash, init, events) <==> e == Record(Delivered) && Lands(old(w), Delivered)
      ensures Taken(hash, init, events) <==> e == Save(Delivered) && Takes(old(w))
    {
      StepKeeps(hash, w, e);
      HistoryGrows(hash, w, e);
      events := events + [e];
      assert events[..|events| - 1] == old(events);
      w := Apply(hash, w, e);
    }

    /** The outside events before the next call; all the reconcile can notice is a lost race. */
    method Settle() returns (t: Tick)
      requires Valid()
      modifies this`w, this`events, this`clock
      ensures Valid() && old(events) <= events
      ensures SameCall(old(w.op), w.op) && w.saves == old(w.saves)
      ensures old(w.hist) <= w.hist && Own(events) == Own(old(events))
    {
      hide Cluster.Valid;
      hide SameCall;
      hide Apply;
      SameCallReflexive(w.op);
      t := script(clock);
      clock := clock + 1;
      for i := 0 to |t.outside|
        invariant Valid() && old(events) <= events
        invariant SameCall(old(w.op), w.op) && w.saves == old(w.saves)
        invariant old(w.hist) <= w.hist && Own(events) == Own(old(events))
      {
        var e := t.outside[i];
        if Foreign(e) {
          OthersGoUnnoticed(hash, w, e, old(w.op));
          Do(e);
        }
      }
    }

    method Get(bytes: Option<Bytes>) returns (p: Pipeline)
      requires Valid() && w.op.Idle?
      modifies this`w, this`events, this`clock
      ensures Valid() && old(events) <= events && fresh(p) && w.saves == 0
      ensures old(w.hist) <= w.hist && Own(events) == Own(old(events)) + [Begin(p.version, bytes)]
      ensures p.version < |w.hist| && w.hist[p.version] == p.status
      ensures match bytes
              case None => w.op == Running(p.Value(), "", false, Writing(None))
              case Some(b) =>
                w.op == Running(p.Value(), b, false, if UpToDate(hash, p.status, b) then Observing else Fetching(2))
    {
      hide Inv;
      hide State;
      hide Own;
      hide Confirmed;
      hide Taken;
      hide UpToDate;
      var t := Settle();
      Nonempty(hash, w);
      var i := if t.version < |w.hist| then t.version else |w.hist| - 1;
      p := new Pipeline(i, w.hist[i]);
      Do(Begin(i, bytes));
    }

    /** The ATC's current config, or an error. */
    method PipelineConfig() returns (found: Option<Config>)
      requires Valid() && w.op.Running? && w.op.pc.Fetching?
      modifies this`w, this`events, this`clock
      ensures Valid() && old(events) <= events && w.saves == old(w.saves)
      ensures old(w.hist) <= w.hist && events != [] && Own(events) == Own(old(events)) + [events[|events| - 1]]
      ensures events[|events| - 1].Fetch?
      ensures w.op == old(w.op).(pc := Saving(old(w.op.pc.tries), found, false))
    {
      var t := Settle();
      found := if t.ok then Some(w.cfg) else None;
      Do(Fetch(t.ok));
    }

    /** set-config with a token: nil, the comparison error, or any other error. */
    method CreateOrUpdatePipelineConfig(token: nat, bytes: Bytes) returns (err: Option<Failure>)
      requires Valid() && w.op.Running? && w.op.pc.Saving? && token == Token(w.op.pc.seen) && bytes == w.op.bytes
      modifies this`w, this`events, this`clock, this`replies
      ensures Valid() && old(events) <= events && w.saves == old(w.saves) + 1
      ensures old(w.hist) <= w.hist && events != [] && Own(events) == Own(old(events)) + [events[|events| - 1]]
      ensures events[|events| - 1].Save?
      ensures replies == old(replies) + [err] && (err.None? <==> Taken(hash, init, events))
      ensures var op := old(w.op);
              match err
              case None => w.op == op.(p := op.p.(status := op.p.status.(configHash := hash(bytes))),
                  saved := true, pc := Observing)
              case Some(Comparison) =>
                w.op == op.(pc := if op.pc.tries <= 1 then Writing(Some(Comparison)) else Fetching(op.pc.tries - 1))
              case Some(Other) => w.op == op.(pc := Writing(Some(Other)))
    {
      hide Inv;
      hide Init;
      hide Apply;
      hide State;
      hide Own;
      hide Confirmed;
      hide Taken;
      hide Takes;
      ghost var op := w.op;
      var t := Settle();
      if t.fault.Lost? {
        err := Some(Other);
      } else {
        err := if token == w.cfg.version then None else Some(Comparison);
      }
      SaveAnswered(hash, w, op, t.fault, err);
      Do(Save(t.fault));
      replies := replies + [err];
    }

    method ObservePipeline() returns (id: Option<int>, rest: int)
      requires Valid() && w.op.Running? && w.op.pc.Observing?
      modifies this`w, this`events, this`clock
      ensures Valid() && old(events) <= events && w.saves == old(w.saves)
      ensures old(w.hist) <= w.hist && events != [] && Own(events) == Own(old(events)) + [events[|events| - 1]]
      ensures events[|events| - 1].Observe?
      ensures var op, s := old(w.op), old(w.op.p.status);
              w.op == op.(p := op.p.(status := s.(
                            pipelineID := if id.Some? then id else s.pipelineID, rest := rest)), pc := Writing(None))
    {
      var t := Settle();
      id, rest := t.id, t.rest;
      Do(Observe(id, rest));
    }

    method UpdateStatus(p: Pipeline) returns (ok: bool)
      requires Valid() && w.op.Running? && w.op.pc.Writing? && w.op.p == p.Value()
      modifies this`w, this`events, this`clock
      ensures Valid() && old(events) <= events && w.saves == old(w.saves) && w.op.Idle?
      ensures old(w.hist) <= w.hist && events != [] && Own(events) == Own(old(events)) + [events[|events| - 1]]
      ensures events[|events| - 1].Record?
      ensures ok <==> Confirmed(hash, init, events)
      ensures ok ==> Last(w) == p.status
    {
      var t := Settle();
      ok := t.fault.Delivered? && Lands(w, t.fault);
      Do(Record(t.fault));
    }
  }

  class PipelineReconciler {
    const cluster: Cluster

    constructor (cluster: Cluster)
      ensures this.cluster == cluster
    {
      this.cluster := cluster;
    }

    /**
     One reconcile, given the bytes it loads (none if it stops before the config). Whatever
     others do meanwhile it extends the run by steps of the protocol, from one read with these
     bytes up to its status write. It makes no save if the status read is up to date, and
     otherwise one, or two after a comparison error. It succeeds exactly if it had bytes, the
     last save if any was accepted, and its status write landed; the persisted status then holds
     the hash of the bytes.
     */
    method Reconcile(bytes: Option<Bytes>) returns (ok: bool, ghost read: Local)
      requires cluster.Valid() && cluster.w.op.Idle?
      modifies cluster
      ensures cluster.Valid() && old(cluster.events) <= cluster.events
      ensures cluster.w.op.Idle? && cluster.w.saves <= 2
      ensures read.version < |cluster.w.hist| && cluster.w.hist[read.version] == read.status
      ensures Own(old(cluster.events)) + [Begin(read.version, bytes)] <= Own(cluster.events)
      ensures Unbroken(Own(cluster.events)[|Own(old(cluster.events))| + 1..])
      ensures old(cluster.replies) <= cluster.replies
      ensures var replies := cluster.replies[|old(cluster.replies)|..];
              && Attempts(replies, bytes.None? || UpToDate(cluster.hash, read.status, bytes.value))
              && (ok <==> bytes.Some? && (replies != [] ==> replies[|replies| - 1].None?)
                          && Confirmed(cluster.hash, cluster.init, cluster.events))
      ensures ok ==> Last(cluster.w).configHash == cluster.hash(bytes.value)
    {
      hide Cluster.Valid;
      hide Own;
      hide Unbroken;
      hide Confirmed;
      hide UpToDate;
      ghost var before := Own(cluster.events);
      var pipeline := cluster.Get(bytes);
      read := pipeline.Value();
      ghost var begun := Own(cluster.events);
      match bytes
      case None =>
        var _ := cluster.UpdateStatus(pipeline);
        ok := false;
        NothingYet();
        OneMore([], cluster.events[|cluster.events| - 1]);
        assert Own(cluster.events)[|begun|..] == [] + [cluster.events[|cluster.events| - 1]];
      case Some(b) =>
        hide Attempts;
        ok := ApplyConfig(pipeline, b);
      assert Own(cluster.events)[|before| + 1..] == Own(cluster.events)[|begun|..];
    }

    /** The part of a reconcile that has the bytes: the config, the observed state and the status write. */
    method ApplyConfig(pipeline: Pipeline, bytes: Bytes) returns (ok: bool)
      requires cluster.Valid() && cluster.w.saves == 0
      requires cluster.w.op == Running(pipeline.Value(), bytes, false,
                                      if UpToDate(cluster.hash, pipeline.status, bytes) then Observing else Fetching(2))
      modifies cluster, pipeline
      ensures cluster.Valid() && old(cluster.events) <= cluster.events
      ensures cluster.w.op.Idle? && cluster.w.saves <= 2 && old(cluster.w.hist) <= cluster.w.hist
      ensures Own(old(cluster.events)) <= Own(cluster.events)
              && Unbroken(Own(cluster.events)[|Own(old(cluster.events))|..])
      ensures old(cluster.replies) <= cluster.replies
      ensures var replies := cluster.replies[|old(cluster.replies)|..];
              && Attempts(replies, old(UpToDate(cluster.hash, pipeline.status, bytes)))
              && (ok <==> (replies != [] ==> replies[|replies| - 1].None?)
                          && Confirmed(cluster.hash, cluster.init, cluster.events))
      ensures ok ==> Last(cluster.w).configHash == cluster.hash(bytes)
    {
      hide Cluster.Valid;
      hide Own;
      hide Unbroken;
      hide Confirmed;
      hide Attempts;
      hide UpToDate;
      var newHash := cluster.hash(bytes);
      ghost var before := Own(cluster.events);
      var handled := SyncPipelineConfig(pipeline, bytes, newHash);
      if handled {
        return false;
      }
      ghost var own := Own(cluster.events)[|before|..];
      var id, rest := cluster.ObservePipeline();
      OneMore(own, cluster.events[|cluster.events| - 1]);
      own := own + [cluster.events[|cluster.events| - 1]];
      if id.Some? {
        pipeline.status := pipeline.status.(pipelineID := id);
      }
      pipeline.status := pipeline.status.(rest := rest);
      ok := cluster.UpdateStatus(pipeline);
      OneMore(own, cluster.events[|cluster.events| - 1]);
      assert Own(cluster.events)[|before|..] == own + [cluster.events[|cluster.events| - 1]];
    }

    /**
     Saves the config if its hash changed or the pipeline's ID is unknown, with the token
     just fetched, and once more after a comparison error. It gives up exactly if the last
     save was not accepted; the status is then written with its old hash. Otherwise the
     in-memory hash is that of the bytes.
     */
    method SyncPipelineConfig(pipeline: Pipeline, bytes: Bytes, newHash: string) returns (handled: bool)
      requires cluster.Valid() && newHash == cluster.hash(bytes) && cluster.w.saves == 0
      requires cluster.w.op == Running(pipeline.Value(), bytes, false,
                                      if UpToDate(cluster.hash, pipeline.status, bytes) then Observing else Fetching(2))
      modifies cluster, pipeline
      ensures cluster.Valid() && old(cluster.events) <= cluster.events && cluster.w.saves <= 2
      ensures old(cluster.w.hist) <= cluster.w.hist
      ensures Own(old(cluster.events)) <= Own(cluster.events)
              && Unbroken(Own(cluster.events)[|Own(old(cluster.events))|..])
      ensures old(cluster.replies) <= cluster.replies
      ensures var replies := cluster.replies[|old(cluster.replies)|..];
              && Attempts(replies, old(UpToDate(cluster.hash, pipeline.status, bytes)))
              && (handled <==> replies != [] && replies[|replies| - 1].Some?)
      ensures old(UpToDate(cluster.hash, pipeline.status, bytes)) ==>
                !handled && cluster.w == old(cluster.w) && pipeline.Value() == old(pipeline.Value())
      ensures handled ==> cluster.w.op.Idle?
      ensures !handled ==>
                && cluster.w.op.Running? && cluster.w.op.p == pipeline.Value() && cluster.w.op.pc.Observing?
                && pipeline.status == old(pipeline.status).(configHash := newHash)
                && cluster.w.op.saved == !old(UpToDate(cluster.hash, pipeline.status, bytes))
    {
      hide Cluster.Valid;
      hide Own;
      hide Unbroken;
      hide Confirmed;
      NothingYet();
      ghost var before, own := Own(cluster.events), [];
      if pipeline.status.configHash != newHash || pipeline.status.pipelineID.None? {
        var err := TrySave(bytes);
        own := Own(cluster.events)[|before|..];
        if err == Some(Comparison) {
          ghost var between := Own(cluster.events);
          err := TrySave(bytes);
          Joined(own, Own(cluster.events)[|between|..]);
          own := own + Own(cluster.events)[|between|..];
        }
        assert Own(cluster.events) == before + own;
        if err.Some? {
          var _ := cluster.UpdateStatus(pipeline);
          OneMore(own, cluster.events[|cluster.events| - 1]);
          assert Own(cluster.events)[|before|..] == own + [cluster.events[|cluster.events| - 1]];
          return true;
        }
        pipeline.status := pipeline.status.(configHash := newHash);
      }
      assert Own(cluster.events)[|before|..] == own;
      return false;
    }

    /** One fetch of the token and one save with it. */
    method TrySave(bytes: Bytes) returns (err: Option<Failure>)
      requires cluster.Valid() && cluster.w.op.Running? && cluster.w.op.pc.Fetching? && bytes == cluster.w.op.bytes
      modifies cluster
      ensures cluster.Valid() && old(cluster.events) <= cluster.events && old(cluster.w.hist) <= cluster.w.hist
      ensures cluster.w.saves == old(cluster.w.saves) + 1 && cluster.replies == old(cluster.replies) + [err]
      ensures Own(old(cluster.events)) <= Own(cluster.events)
              && Unbroken(Own(cluster.events)[|Own(old(cluster.events))|..])
      ensures var op := old(cluster.w.op);
              cluster.w.op == match err
                              case None => op.(p := op.p.(status := op.p.status.(configHash := cluster.hash(bytes))),
                                               saved := true, pc := Observing)
                              case Some(Comparison) => op.(pc := if op.pc.tries <= 1 then Writing(Some(Comparison))
                                                                 else Fetching(op.pc.tries - 1))
                              case Some(Other) => op.(pc := Writing(Some(Other)))
    {
      hide Cluster.Valid;
      hide Own;
      hide Unbroken;
      NothingYet();
      ghost var before := Own(cluster.events);
      var token := CurrentVersion();
      ghost var fetch := cluster.events[|cluster.events| - 1];
      err := cluster.CreateOrUpdatePipelineConfig(token, bytes);
      ghost var save := cluster.events[|cluster.events| - 1];
      OneMore([], fetch);
      OneMore([] + [fetch], save);
      assert Own(cluster.events)[|before|..] == [] + [fetch] + [save];
    }

    /** The token of the config if the fetch succeeds and finds one, else the empty token. */
    method CurrentVersion() returns (token: nat)
      requires cluster.Valid() && cluster.w.op.Running? && cluster.w.op.pc.Fetching?
      modifies cluster`w, cluster`events, cluster`clock
      ensures cluster.Valid() && old(cluster.events) <= cluster.events && cluster.w.saves == old(cluster.w.saves)
      ensures old(cluster.w.hist) <= cluster.w.hist && cluster.events != []
      ensures var e := cluster.events[|cluster.events| - 1];
              e.Fetch? && Own(cluster.events) == Own(old(cluster.events)) + [e]
      ensures cluster.w.op.Running? && cluster.w.op.pc.Saving? && token == Token(cluster.w.op.pc.seen)
      ensures cluster.w.op == old(cluster.w.op).(pc := Saving(old(cluster.w.op.pc.tries), cluster.w.op.pc.seen, false))
    {
      var found := cluster.PipelineConfig();
      token := if found.Some? then found.value.version else 0;
    }
  }

  /** No save if none is needed, else one, and a second exactly after a comparison error. */
  predicate Attempts(replies: seq<Option<Failure>>, skip: bool) {
    if skip then replies == []
    else 1 <= |replies| <= 2 && (|replies| == 2 <==> replies[0] == Some(Comparison))
  }

  lemma {:induction false} NothingYet()
    ensures Unbroken([])
  {
  }

  lemma {:induction false} Joined(a: seq<Event>, b: seq<Event>)
    requires Unbroken(a) && Unbroken(b)
    ensures Unbroken(a + b)
  {
  }
}
