/**
 The watchers of running builds: one sentinel per object key and one goroutine per
 sentinel, sending into a bounded event channel.
 */
module BuildWatchers {
  import opened BuildTypes

  type Key = string

  /** Where a goroutine is between LoadOrStore and its deferred Delete. */
  datatype TaskPc = Opening | Streaming | Sending | Deleting | Ended

  datatype Task = Task(key: Key, pc: TaskPc, sent: nat)

  const CAPACITY: nat := 64

  /** `delivered` is what the reconcile queue has taken out of the channel. */
  datatype Pool = Pool(sentinels: set<Key>, tasks: seq<Task>, channel: seq<Key>, delivered: seq<Key>)

  /** What a stream yields: a status event, another event, or an error such as EOF. */
  datatype Item = Status(phase: Phase) | Other | StreamError

  /** The watcher stops reading. */
  predicate Ends(item: Item) {
    item.StreamError? || (item.Status? && IsTerminal(item.phase))
  }

  datatype Step =
    | LoadOrStore(key: Key)
    | Open(t: nat, ok: bool)
    | Next(t: nat, item: Item)
    | Send(t: nat)
    | Delete(t: nat)
    | Receive

  function With(p: Pool, t: nat, task: Task): Pool
    requires t < |p.tasks|
  {
    p.(tasks := p.tasks[t := task])
  }

  /** One atomic step; a step that is not enabled leaves the pool unchanged. */
  function Apply(p: Pool, s: Step): Pool {
    match s
    case LoadOrStore(key) =>
      if key in p.sentinels then p
      else p.(sentinels := p.sentinels + {key}, tasks := p.tasks + [Task(key, Opening, 0)])
    case Open(t, ok) =>
      if t < |p.tasks| && p.tasks[t].pc.Opening?
      then With(p, t, p.tasks[t].(pc := if ok then Streaming else Sending)) else p
    case Next(t, item) =>
      if t < |p.tasks| && p.tasks[t].pc.Streaming? && Ends(item)
      then With(p, t, p.tasks[t].(pc := Sending)) else p
    case Send(t) =>
      if t < |p.tasks| && p.tasks[t].pc.Sending? && |p.channel| < CAPACITY
      then With(p, t, p.tasks[t].(pc := Deleting, sent := p.tasks[t].sent + 1))
           .(channel := p.channel + [p.tasks[t].key])
      else p
    case Delete(t) =>
      if t < |p.tasks| && p.tasks[t].pc.Deleting?
      then With(p, t, p.tasks[t].(pc := Ended)).(sentinels := p.sentinels - {p.tasks[t].key}) else p
    case Receive =>
      if p.channel == [] then p
      else p.(channel := p.channel[1..], delivered := p.delivered + [p.channel[0]])
  }

  function Run(steps: seq<Step>): Pool {
    if steps == [] then Pool({}, [], [], []) else Apply(Run(steps[..|steps| - 1]), steps[|steps| - 1])
  }

  predicate Live(p: Pool, t: int) {
    0 <= t < |p.tasks| && !p.tasks[t].pc.Ended?
  }

  /** The keys sent so far, task by task. */
  function Sent(tasks: seq<Task>): multiset<Key> {
    if tasks == [] then multiset{}
    else Sent(tasks[..|tasks| - 1]) + multiset{}[tasks[|tasks| - 1].key := tasks[|tasks| - 1].sent]
  }

  /** Sentinels and live tasks match one to one. */
  ghost predicate Exclusive(p: Pool) {
    && (forall t :: Live(p, t) ==> p.tasks[t].key in p.sentinels)
    && (forall k :: k in p.sentinels ==> exists t :: Live(p, t) && p.tasks[t].key == k)
    && (forall t, u :: Live(p, t) && Live(p, u) && p.tasks[t].key == p.tasks[u].key ==> t == u)
  }

  /** Each task sends once, just before its deferred Delete; nothing sent is lost. */
  ghost predicate Counted(p: Pool) {
    && (forall t :: 0 <= t < |p.tasks| ==>
                      p.tasks[t].sent == if p.tasks[t].pc.Deleting? || p.tasks[t].pc.Ended? then 1 else 0)
    && multiset(p.delivered + p.channel) == Sent(p.tasks)
  }

  ghost predicate Inv(p: Pool) {
    Exclusive(p) && Counted(p)
  }

  lemma {:induction false} SentUpdate(tasks: seq<Task>, t: nat, task: Task)
    requires t < |tasks| && task.key == tasks[t].key && task.sent >= tasks[t].sent
    ensures Sent(tasks[t := task]) == Sent(tasks) + multiset{}[task.key := task.sent - tasks[t].sent]
  {
    var n := |tasks| - 1;
    if t == n {
      assert tasks[t := task][..n] == tasks[..n];
    } else {
      SentUpdate(tasks[..n], t, task);
      assert tasks[t := task][..n] == tasks[..n][t := task];
    }
  }

  /** A task moving on to another live stage keeps the sentinels in step. */
  lemma {:induction false} MoveKeepsExclusive(p: Pool, t: nat, task: Task)
    requires Exclusive(p) && Live(p, t) && task.key == p.tasks[t].key && !task.pc.Ended?
    ensures Exclusive(With(p, t, task))
  {
    var p' := With(p, t, task);
    forall k | k in p'.sentinels
      ensures exists u :: Live(p', u) && p'.tasks[u].key == k
    {
      var u :| Live(p, u) && p.tasks[u].key == k;
      assert Live(p', u);
    }
    assert forall u :: Live(p', u) ==> Live(p, u) && p'.tasks[u].key == p.tasks[u].key;
  }

  /** Moving on without sending. */
  lemma {:induction false} MoveKeeps(p: Pool, t: nat, pc: TaskPc)
    requires Inv(p) && t < |p.tasks|
    requires p.tasks[t].pc.Opening? || p.tasks[t].pc.Streaming?
    requires pc.Streaming? || pc.Sending?
    ensures Inv(With(p, t, p.tasks[t].(pc := pc)))
  {
    MoveKeepsExclusive(p, t, p.tasks[t].(pc := pc));
    MoveKeepsCounted(p, t, pc);
    hide Exclusive;
    hide Counted;
  }

  lemma {:induction false} MoveKeepsCounted(p: Pool, t: nat, pc: TaskPc)
    requires Counted(p) && t < |p.tasks|
    requires p.tasks[t].pc.Opening? || p.tasks[t].pc.Streaming?
    requires pc.Streaming? || pc.Sending?
    ensures Counted(With(p, t, p.tasks[t].(pc := pc)))
  {
    hide Sent;
    SentUpdate(p.tasks, t, p.tasks[t].(pc := pc));
  }

  /** Exclusive does not depend on the channel. */
  lemma {:induction false} ChannelIrrelevant(p: Pool, q: Pool)
    requires Exclusive(p) && q.tasks == p.tasks && q.sentinels == p.sentinels
    ensures Exclusive(q)
  {
    forall k | k in q.sentinels
      ensures exists u :: Live(q, u) && q.tasks[u].key == k
    {
      var u :| Live(p, u) && p.tasks[u].key == k;
      assert Live(q, u);
    }
    assert forall u :: Live(q, u) ==> Live(p, u);
  }

  lemma {:induction false} SendKeepsCounted(p: Pool, t: nat)
    requires Counted(p) && t < |p.tasks| && p.tasks[t].pc.Sending? && |p.channel| < CAPACITY
    ensures Counted(Apply(p, Send(t)))
  {
    var p' := Apply(p, Send(t));
    var key := p.tasks[t].key;
    hide Sent;
    SentUpdate(p.tasks, t, p'.tasks[t]);
    assert p'.tasks == p.tasks[t := p'.tasks[t]];
    assert Sent(p'.tasks) == Sent(p.tasks) + multiset{}[key := 1];
    OneMoreQueued(p.delivered, p.channel, key);
  }

  lemma {:induction false} OneMoreQueued(delivered: seq<Key>, channel: seq<Key>, key: Key)
    ensures multiset(delivered + (channel + [key])) == multiset(delivered + channel) + multiset{}[key := 1]
  {
    assert delivered + (channel + [key]) == (delivered + channel) + [key];
  }

  lemma {:induction false} SendKeeps(p: Pool, t: nat)
    requires Inv(p)
    ensures Inv(Apply(p, Send(t)))
  {
    if t < |p.tasks| && p.tasks[t].pc.Sending? && |p.channel| < CAPACITY {
      SendKeepsCounted(p, t);
      var p' := Apply(p, Send(t));
      MoveKeepsExclusive(p, t, p'.tasks[t]);
      ChannelIrrelevant(With(p, t, p'.tasks[t]), p');
      hide Exclusive;
      hide Counted;
    }
  }

  lemma {:induction false} DeleteKeeps(p: Pool, t: nat)
    requires Inv(p)
    ensures Inv(Apply(p, Delete(t)))
  {
    if t < |p.tasks| && p.tasks[t].pc.Deleting? {
      var p' := Apply(p, Delete(t));
      SentUpdate(p.tasks, t, p'.tasks[t]);
      assert Live(p, t);
      forall k | k in p'.sentinels
        ensures exists u :: Live(p', u) && p'.tasks[u].key == k
      {
        var u :| Live(p, u) && p.tasks[u].key == k;
        assert Live(p', u);
      }
      assert forall u :: Live(p', u) ==> Live(p, u) && u != t && p'.tasks[u].key == p.tasks[u].key;
    }
  }

  lemma {:induction false} StoreKeeps(p: Pool, key: Key)
    requires Inv(p)
    ensures Inv(Apply(p, LoadOrStore(key)))
  {
    if key !in p.sentinels {
      var p' := Apply(p, LoadOrStore(key));
      var n := |p.tasks|;
      assert p'.tasks[..n] == p.tasks;
      assert Live(p', n);
      forall k | k in p'.sentinels
        ensures exists u :: Live(p', u) && p'.tasks[u].key == k
      {
        if k != key {
          var u :| Live(p, u) && p.tasks[u].key == k;
          assert Live(p', u);
        }
      }
      assert forall u :: Live(p', u) && u != n ==> Live(p, u) && p'.tasks[u].key == p.tasks[u].key;
    }
  }

  lemma {:induction false} StepKeeps(p: Pool, s: Step)
    requires Inv(p)
    ensures Inv(Apply(p, s))
  {
    match s
    case LoadOrStore(key) => StoreKeeps(p, key);
    case Open(t, ok) =>
      if t < |p.tasks| && p.tasks[t].pc.Opening? {
        MoveKeeps(p, t, if ok then Streaming else Sending);
      }
    case Next(t, item) =>
      if t < |p.tasks| && p.tasks[t].pc.Streaming? {
        MoveKeeps(p, t, Sending);
      }
    case Send(t) => SendKeeps(p, t);
    case Delete(t) => DeleteKeeps(p, t);
    case Receive =>
      if p.channel != [] {
        var p' := Apply(p, Receive);
        assert p'.delivered + p'.channel == p.delivered + p.channel;
        assert forall u :: Live(p', u) <==> Live(p, u);
      }
  }

  lemma {:induction false} RunKeeps(steps: seq<Step>)
    ensures Inv(Run(steps))
  {
    if steps != [] {
      RunKeeps(steps[..|steps| - 1]);
      StepKeeps(Run(steps[..|steps| - 1]), steps[|steps| - 1]);
    }
  }

  /**
   In every interleaving a key's sentinel is present exactly while one watcher of the
   key runs, no key ever has two watchers, every watcher that ended sent exactly one
   event, and the events in the channel and delivered are exactly those sent.
   */
  lemma {:induction false} OneWatcherPerKey(steps: seq<Step>, key: Key)
    ensures var p := Run(steps);
            && (key in p.sentinels <==> exists t :: Live(p, t) && p.tasks[t].key == key)
            && (forall t, u :: Live(p, t) && Live(p, u) && p.tasks[t].key == key && p.tasks[u].key == key ==> t == u)
            && (forall t :: 0 <= t < |p.tasks| && p.tasks[t].pc.Ended? ==> p.tasks[t].sent == 1)
            && multiset(p.delivered + p.channel) == Sent(p.tasks)
  {
    RunKeeps(steps);
  }

  /** A reason to send: the stream cannot be opened, reports one of the four last phases, or breaks off. */
  predicate Alarming(s: Step, t: nat) {
    match s
    case Open(u, ok) => u == t && !ok
    case Next(u, StreamError) => u == t
    case Next(u, Status(phase)) =>
      u == t && (phase.Succeeded? || phase.Failed? || phase.Errored? || phase.Aborted?)
    case _ => false
  }

  predicate HasReason(steps: seq<Step>, t: nat) {
    exists i :: 0 <= i < |steps| && Alarming(steps[i], t) && Waiting(Run(steps[..i]), t)
  }

  lemma {:induction false} ReasonStays(steps: seq<Step>, s: Step, t: nat)
    requires HasReason(steps, t)
    ensures HasReason(steps + [s], t)
  {
    hide Run;
    hide Alarming;
    hide Waiting;
    var i :| 0 <= i < |steps| && Alarming(steps[i], t) && Waiting(Run(steps[..i]), t);
    assert (steps + [s])[i] == steps[i] && (steps + [s])[..i] == steps[..i];
  }

  /** One step of a watcher that has not sent: only a reason makes it send, and any other step leaves it waiting. */
  lemma {:induction false} ReasonDecides(p: Pool, s: Step, t: nat)
    requires t < |Apply(p, s).tasks|
    ensures var task := Apply(p, s).tasks[t];
            && (task.pc.Sending? || task.sent > 0)
            && !(t < |p.tasks| && (p.tasks[t].pc.Sending? || p.tasks[t].sent > 0)) ==>
              Alarming(s, t) && Waiting(p, t)
    ensures t < |p.tasks| && p.tasks[t].pc.Streaming? && s.Next? && s.t == t ==>
              Apply(p, s).tasks[t].pc == if Alarming(s, t) then Sending else Streaming
  {
  }

  /**
   In every interleaving a watcher that is about to send or has sent saw a reason while it was
   opening or reading its stream; while it reads, an item with a reason makes it send and any
   other item leaves it reading.
   */
  lemma {:induction false} SendsForAReason(steps: seq<Step>, t: nat, item: Item)
    requires t < |Run(steps).tasks|
    ensures Run(steps).tasks[t].pc.Sending? || Run(steps).tasks[t].sent > 0 ==> HasReason(steps, t)
    ensures var p' := Apply(Run(steps), Next(t, item));
            && t < |p'.tasks|
            && (Run(steps).tasks[t].pc.Streaming? ==>
                  p'.tasks[t].pc == if Alarming(Next(t, item), t) then Sending else Streaming)
  {
    if steps != [] {
      var pre, s := steps[..|steps| - 1], steps[|steps| - 1];
      var p := Run(pre);
      ReasonDecides(p, s, t);
      hide Apply;
      assert pre + [s] == steps;
      if t < |p.tasks| && (p.tasks[t].pc.Sending? || p.tasks[t].sent > 0) {
        SendsForAReason(pre, t, item);
        ReasonStays(pre, s, t);
      } else if Alarming(s, t) && Waiting(p, t) {
        assert steps[|pre|] == s && steps[..|pre|] == pre;
      }
    }
    NextKeepsTasks(Run(steps), t, item);
  }

  lemma {:induction false} NextKeepsTasks(p: Pool, t: nat, item: Item)
    requires t < |p.tasks|
    ensures t < |Apply(p, Next(t, item)).tasks|
    ensures p.tasks[t].pc.Streaming? ==>
              Apply(p, Next(t, item)).tasks[t].pc == if Alarming(Next(t, item), t) then Sending else Streaming
  {
    ReasonDecides(p, Next(t, item), t);
  }

  predicate Waiting(p: Pool, t: nat) {
    t < |p.tasks| && (p.tasks[t].pc.Opening? || p.tasks[t].pc.Streaming?) && p.tasks[t].sent == 0
  }

  // ---------------------------------------------------------------- the goroutine

  /** Steps of other goroutines, of reconciles and of the queue around one step of ours. */
  predicate Foreign(s: Step, t: nat) {
    match s
    case Open(u, _) => u != t
    case Next(u, _) => u != t
    case Send(u) => u != t
    case Delete(u) => u != t
    case _ => true
  }

  lemma {:induction false} ForeignKeeps(p: Pool, s: Step, t: nat)
    requires t < |p.tasks| && Foreign(s, t)
    ensures t < |Apply(p, s).tasks| && Apply(p, s).tasks[t] == p.tasks[t]
  {
  }

  /** What the goroutine's own steps do to its task. */
  lemma {:induction false} OwnSteps(p: Pool, t: nat, ok: bool)
    requires t < |p.tasks|
    ensures p.tasks[t].pc.Opening? ==>
              Apply(p, Open(t, ok)).tasks == p.tasks[t := p.tasks[t].(pc := if ok then Streaming else Sending)]
    ensures p.tasks[t].pc.Sending? && |p.channel| < CAPACITY ==>
              Apply(p, Send(t)).tasks == p.tasks[t := p.tasks[t].(pc := Deleting, sent := p.tasks[t].sent + 1)]
    ensures p.tasks[t].pc.Deleting? ==>
              Apply(p, Delete(t)).tasks == p.tasks[t := p.tasks[t].(pc := Ended)]
    ensures Apply(p, Receive).tasks == p.tasks
    ensures p.channel != [] ==> |Apply(p, Receive).channel| < |p.channel|
  {
  }

  lemma {:induction false} NothingSentYet(p: Pool, t: nat)
    requires Inv(p) && t < |p.tasks| && !p.tasks[t].pc.Deleting? && !p.tasks[t].pc.Ended?
    ensures p.tasks[t].sent == 0
  {
  }

  /** What watcher t read from its stream, in order. */
  function Items(steps: seq<Step>, t: nat): seq<Item> {
    if steps == [] then []
    else
      var s := steps[|steps| - 1];
      Items(steps[..|steps| - 1], t) + if s.Next? && s.t == t then [s.item] else []
  }

  /** The first item of a stream that ends the reading, or its length: then the stream breaks off. */
  predicate FirstEnd(stream: seq<Item>, n: nat) {
    && n <= |stream|
    && (forall i :: 0 <= i < n ==> !Ends(stream[i]))
    && (n < |stream| ==> Ends(stream[n]))
  }

  function UpTo(stream: seq<Item>, n: nat): seq<Item>
    requires n <= |stream|
  {
    if n < |stream| then stream[..n + 1] else stream + [StreamError]
  }

  lemma {:induction false} FindEnd(stream: seq<Item>) returns (n: nat)
    ensures FirstEnd(stream, n)
  {
    n := 0;
    while n < |stream| && !Ends(stream[n])
      invariant n <= |stream| && forall i :: 0 <= i < n ==> !Ends(stream[i])
    {
      n := n + 1;
    }
  }

  lemma {:induction false} NothingMore(items: seq<Item>)
    ensures items + [] == items
  {
  }

  class Watchers {
    ghost var steps: seq<Step>
    var pool: Pool
    const script: nat -> seq<Step>
    var clock: nat

    constructor (script: nat -> seq<Step>)
      ensures Valid() && steps == []
    {
      steps, pool, clock := [], Pool({}, [], [], []), 0;
      this.script := script;
      new;
      RunKeeps([]);
    }

    ghost predicate Valid()
      reads this
    {
      pool == Run(steps) && Inv(pool)
    }

    method Do(s: Step)
      requires Valid()
      modifies this`steps, this`pool
      ensures Valid() && steps == old(steps) + [s] && pool == Apply(old(pool), s)
      ensures forall t: nat :: Items(steps, t) == Items(old(steps), t) + if s.Next? && s.t == t then [s.item] else []
    {
      StepKeeps(pool, s);
      steps := steps + [s];
      assert steps[..|steps| - 1] == old(steps);
      pool := Apply(pool, s);
    }

    /** Whatever else runs before our next step. */
    method Yield(t: nat)
      requires Valid() && t < |pool.tasks|
      modifies this
      ensures Valid() && old(steps) <= steps
      ensures t < |pool.tasks| && pool.tasks[t] == old(pool.tasks[t]) && Items(steps, t) == Items(old(steps), t)
    {
      hide Inv;
      hide Items;
      var others := script(clock);
      clock := clock + 1;
      for i := 0 to |others|
        invariant Valid() && old(steps) <= steps
        invariant t < |pool.tasks| && pool.tasks[t] == old(pool.tasks[t]) && Items(steps, t) == Items(old(steps), t)
      {
        if Foreign(others[i], t) {
          ForeignKeeps(pool, others[i], t);
          Do(others[i]);
        }
      }
    }

    /** Starts a goroutine for the key unless its sentinel is already there. */
    method EnsureWatcher(key: Key) returns (started: bool)
      requires Valid()
      modifies this`steps, this`pool
      ensures Valid() && old(steps) <= steps
      ensures started <==> key !in old(pool.sentinels)
      ensures key in pool.sentinels
      ensures started ==>
                && |pool.tasks| == |old(pool.tasks)| + 1
                && pool.tasks[|old(pool.tasks)|] == Task(key, Opening, 0)
      ensures !started ==> pool == old(pool)
    {
      hide Inv;
      started := key !in pool.sentinels;
      Do(LoadOrStore(key));
    }

    /** A send blocks while the channel is full; it goes through after the queue has taken one event. */
    method Enqueue(t: nat)
      requires Valid() && t < |pool.tasks| && pool.tasks[t].pc.Sending?
      modifies this
      ensures Valid() && old(steps) <= steps
      ensures t < |pool.tasks| && pool.tasks[t] == Task(old(pool.tasks[t].key), Deleting, 1)
      ensures Items(steps, t) == Items(old(steps), t)
    {
      NothingSentYet(pool, t);
      hide *;
      Yield(t);
      while |pool.channel| >= CAPACITY
        invariant Valid() && old(steps) <= steps
        invariant t < |pool.tasks| && pool.tasks[t] == old(pool.tasks[t])
        invariant Items(steps, t) == Items(old(steps), t)
        decreases |pool.channel|
      {
        OwnSteps(pool, t, true);
        Do(Receive);
      }
      OwnSteps(pool, t, true);
      Do(Send(t));
    }

    /**
     Runs goroutine t to its end: opens the stream, reads it up to the first status of the last
     four phases or the first error, sends one event and removes the sentinel. `n` items of
     other kinds are passed over; nothing is read if the stream does not open.
     */
    method WatchBuildEvents(t: nat, opens: bool, stream: seq<Item>) returns (ghost n: nat)
      requires Valid() && t < |pool.tasks| && pool.tasks[t].pc.Opening?
      modifies this
      ensures Valid() && old(steps) <= steps
      ensures t < |pool.tasks| && pool.tasks[t] == Task(old(pool.tasks[t].key), Ended, 1)
      ensures FirstEnd(stream, n)
      ensures Items(steps, t) == Items(old(steps), t) + if opens then UpTo(stream, n) else []
    {
      n := FindEnd(stream);
      NothingMore(Items(steps, t));
      hide *;
      OpenStream(t, opens);
      if opens {
        ReadStream(t, stream, n);
      }
      Enqueue(t);
      RemoveSentinel(t);
    }

    method OpenStream(t: nat, opens: bool)
      requires Valid() && t < |pool.tasks| && pool.tasks[t].pc.Opening?
      modifies this
      ensures Valid() && old(steps) <= steps && t < |pool.tasks|
      ensures pool.tasks[t] == Task(old(pool.tasks[t].key), if opens then Streaming else Sending, 0)
      ensures Items(steps, t) == Items(old(steps), t)
    {
      NothingSentYet(pool, t);
      hide *;
      Yield(t);
      OwnSteps(pool, t, opens);
      Do(Open(t, opens));
    }

    /** The deferred Delete of the sentinel. */
    method RemoveSentinel(t: nat)
      requires Valid() && t < |pool.tasks| && pool.tasks[t].pc.Deleting?
      modifies this
      ensures Valid() && old(steps) <= steps && t < |pool.tasks|
      ensures pool.tasks[t] == old(pool.tasks[t]).(pc := Ended) && Items(steps, t) == Items(old(steps), t)
    {
      hide *;
      Yield(t);
      OwnSteps(pool, t, true);
      Do(Delete(t));
    }

    /** The event loop: reads until a status of the last four phases or an error, and no further. */
    method ReadStream(t: nat, stream: seq<Item>, ghost n: nat)
      requires Valid() && t < |pool.tasks| && pool.tasks[t].pc.Streaming? && FirstEnd(stream, n)
      modifies this
      ensures Valid() && old(steps) <= steps
      ensures t < |pool.tasks| && pool.tasks[t] == old(pool.tasks[t]).(pc := Sending)
      ensures Items(steps, t) == Items(old(steps), t) + UpTo(stream, n)
    {
      hide Inv;
      hide Items;
      var i := 0;
      var reading := true;
      while reading
        invariant Valid() && old(steps) <= steps && i <= |stream|
        invariant t < |pool.tasks|
        invariant pool.tasks[t] == old(pool.tasks[t]).(pc := if reading then Streaming else Sending)
        invariant reading ==> i <= n && Items(steps, t) == Items(old(steps), t) + stream[..i]
        invariant !reading ==> Items(steps, t) == Items(old(steps), t) + UpTo(stream, n)
        decreases reading, |stream| - i
      {
        Yield(t);
        var item := if i < |stream| then stream[i] else StreamError;
        Do(Next(t, item));
        reading := !(item.StreamError? || (item.Status? && IsTerminal(item.phase)));
        assert reading ==> stream[..i + 1] == stream[..i] + [item];
        if i < |stream| {
          i := i + 1;
        }
      }
    }
  }
}
