/**
 Build history pruning: which builds one full run deletes, and what interrupted runs
 and reruns add up to.
 */
module BuildPruning {
  import opened Options
  import opened BuildTypes

  /** The part of a Build object that pruning looks at; names are unique in a namespace. */
  datatype Item = Item(name: string, controller: Option<string>, phase: Phase, ttl: Option<nat>,
                       endTime: Option<int>, created: int)

  datatype Job = Job(uid: string, successLimit: Option<nat>, failLimit: Option<nat>)

  function Limit(limit: Option<nat>): nat {
    match limit case Some(n) => n case None => 3
  }

  predicate Owned(b: Item, job: Job) {
    b.controller == Some(job.uid)
  }

  /** Strictly past its deadline; a TTL of zero is past it as soon as the end time is. */
  predicate Expired(b: Item, now: int) {
    b.ttl.Some? && IsTerminal(b.phase) && b.endTime.Some? && now > b.endTime.value + b.ttl.value
  }

  predicate HasSucceeded(b: Item) {
    b.phase.Succeeded?
  }

  predicate HasFailed(b: Item) {
    b.phase.Failed? || b.phase.Errored? || b.phase.Aborted?
  }

  // ---------------------------------------------------------------- what a full run deletes

  function Succeeding(all: set<Item>, job: Job, now: int): set<Item> {
    set b | b in all && Owned(b, job) && !Expired(b, now) && HasSucceeded(b)
  }

  function Failing(all: set<Item>, job: Job, now: int): set<Item> {
    set b | b in all && Owned(b, job) && !Expired(b, now) && HasFailed(b)
  }

  function Min(a: nat, b: nat): nat {
    if a < b then a else b
  }

  /** `gone` leaves min(limit, |pool|) builds of the pool, none older than a deleted one. */
  ghost predicate KeepsNewest(pool: set<Item>, gone: set<Item>, limit: nat) {
    && |pool - gone| == Min(limit, |pool|)
    && (forall a, b :: a in pool - gone && b in pool * gone ==> a.created >= b.created)
  }

  /** The sets of builds that one undisturbed run may delete; ties in age leave a choice. */
  ghost predicate IsPlan(all: set<Item>, job: Job, now: int, gone: set<Item>) {
    && gone <= all
    && (forall b :: b in all && Owned(b, job) && Expired(b, now) ==> b in gone)
    && (forall b :: b in gone ==> Owned(b, job) && (Expired(b, now) || HasSucceeded(b) || HasFailed(b)))
    && KeepsNewest(Succeeding(all, job, now), gone, Limit(job.successLimit))
    && KeepsNewest(Failing(all, job, now), gone, Limit(job.failLimit))
  }

  // ---------------------------------------------------------------- pools

  /** Some newest `limit` builds can be kept. */
  lemma {:induction false} NewestExist(pool: set<Item>, limit: nat) returns (gone: set<Item>)
    ensures gone <= pool && KeepsNewest(pool, gone, limit)
    decreases |pool|
  {
    if |pool| <= limit {
      gone := {};
      assert pool - {} == pool;
    } else {
      var oldest := Oldest(pool);
      var rest := pool - {oldest};
      var gone' := NewestExist(rest, limit);
      gone := gone' + {oldest};
      assert pool - gone == rest - gone';
    }
  }

  lemma {:induction false} Oldest(pool: set<Item>) returns (b: Item)
    requires pool != {}
    ensures b in pool && forall a :: a in pool ==> a.created >= b.created
    decreases |pool|
  {
    b :| b in pool;
    var rest := pool - {b};
    if rest != {} {
      var c := Oldest(rest);
      b := if c.created < b.created then c else b;
      assert forall a :: a in pool ==> a == b || a in rest || a == c || a.created >= b.created;
    }
  }

  /** Exchange argument: what is left of a pool after an interrupted run is pruned to the same bounds. */
  lemma {:induction false} ResumePool(pool: set<Item>, gone: set<Item>, part: set<Item>, rest: set<Item>, limit: nat)
    requires KeepsNewest(pool, gone, limit) && part <= gone
    requires KeepsNewest(pool - part, rest, limit)
    ensures KeepsNewest(pool, part + rest, limit)
  {
    var left := pool - part;
    assert pool - (part + rest) == left - rest;
    assert pool - gone <= left;
    Subset(pool - gone, left);
    Subset(left, pool);
    if |pool| <= limit {
      SameSize(pool - gone, pool);
      assert left == pool;
    }
    assert |left - rest| == Min(limit, |pool|);
    forall a, b | a in left - rest && b in pool * (part + rest)
      ensures a.created >= b.created
    {
      if b !in left && a in gone {
        // a was kept this time but not before, so some build kept before is deleted now
        var k := Exchanged(left - rest, pool - gone, a);
        assert k in left * rest && b in pool * gone;
        assert a.created >= k.created && k.created >= b.created;
      }
    }
  }

  lemma {:induction false} Exchanged(kept: set<Item>, kept': set<Item>, a: Item) returns (b: Item)
    requires |kept| == |kept'| && a in kept - kept'
    ensures b in kept' - kept
  {
    if kept' - kept == {} {
      assert forall x :: x in kept' && x !in kept ==> x in kept' - kept;
      SameSize(kept', kept);
    }
    b :| b in kept' - kept;
  }

  lemma {:induction false} Subset<T>(a: set<T>, b: set<T>)
    requires a <= b
    ensures |a| <= |b|
  {
    assert b == a + (b - a);
    assert |b| == |a| + |b - a|;
  }

  lemma {:induction false} SameSize<T>(a: set<T>, b: set<T>)
    requires a <= b && |a| == |b|
    ensures a == b
  {
    assert b == a + (b - a);
    assert |b| == |a| + |b - a|;
  }

  /** If creation times differ there is only one way to keep the newest. */
  lemma {:induction false} NewestUnique(pool: set<Item>, gone: set<Item>, gone': set<Item>, limit: nat)
    requires KeepsNewest(pool, gone, limit) && KeepsNewest(pool, gone', limit)
    requires forall a, b :: a in pool && b in pool && a.created == b.created ==> a == b
    ensures pool - gone == pool - gone'
  {
    var kept, kept' := pool - gone, pool - gone';
    forall a | a in kept
      ensures a in kept'
    {
      if a !in kept' {
        var b := Exchanged(kept, kept', a);
        SwapsAreTies(pool, gone, gone', limit, a, b);
        assert false;
      }
    }
    SameSize(kept, kept');
  }

  /** Two builds that two choices of the newest disagree on are equally old. */
  lemma {:induction false} SwapsAreTies(pool: set<Item>, gone: set<Item>, gone': set<Item>, limit: nat, a: Item,
      b: Item)
    requires KeepsNewest(pool, gone, limit) && KeepsNewest(pool, gone', limit)
    requires a in pool - gone && a in gone' && b in pool - gone' && b in gone
    ensures a.created == b.created
  {
    assert a in pool * gone' && b in pool * gone;
  }

  // ---------------------------------------------------------------- theorems about runs

  lemma {:induction false} PlanExists(all: set<Item>, job: Job, now: int) returns (gone: set<Item>)
    ensures IsPlan(all, job, now, gone)
  {
    var s, f := Succeeding(all, job, now), Failing(all, job, now);
    var goneS := NewestExist(s, Limit(job.successLimit));
    var goneF := NewestExist(f, Limit(job.failLimit));
    gone := PlanOf(all, job, now, goneS, goneF);
  }

  /** The expired builds and what each pool loses make a plan. */
  lemma {:induction false} PlanOf(all: set<Item>, job: Job, now: int, goneS: set<Item>, goneF: set<Item>)
    returns (gone: set<Item>)
    requires goneS <= Succeeding(all, job, now) && goneF <= Failing(all, job, now)
    requires KeepsNewest(Succeeding(all, job, now), goneS, Limit(job.successLimit))
    requires KeepsNewest(Failing(all, job, now), goneF, Limit(job.failLimit))
    ensures gone == (set b | b in all && Owned(b, job) && Expired(b, now)) + goneS + goneF
    ensures IsPlan(all, job, now, gone)
  {
    hide KeepsNewest;
    var s, f := Succeeding(all, job, now), Failing(all, job, now);
    gone := (set b | b in all && Owned(b, job) && Expired(b, now)) + goneS + goneF;
    forall b | b in s ensures b in gone <==> b in goneS {
      assert b !in f && !Expired(b, now);
    }
    forall b | b in f ensures b in gone <==> b in goneF {
      assert b !in s && !Expired(b, now);
    }
    SamePart(s, goneS, gone, Limit(job.successLimit));
    SamePart(f, goneF, gone, Limit(job.failLimit));
    forall b | b in gone ensures b in all && Owned(b, job) && (Expired(b, now) || HasSucceeded(b) || HasFailed(b)) {
      assert b in goneS ==> b in s;
      assert b in goneF ==> b in f;
    }
  }

  lemma {:induction false} SamePart(pool: set<Item>, gone: set<Item>, gone': set<Item>, limit: nat)
    requires KeepsNewest(pool, gone, limit) && forall b :: b in pool ==> (b in gone' <==> b in gone)
    ensures KeepsNewest(pool, gone', limit)
  {
    assert pool - gone' == pool - gone;
  }

  /** An interrupted run followed by a full one at the same clock is one full run. */
  lemma {:induction false} InterruptedThenFullIsOneRun(all: set<Item>, job: Job, now: int, gone: set<Item>,
                                                       part: set<Item>, rest: set<Item>)
    requires IsPlan(all, job, now, gone) && part <= gone
    requires IsPlan(all - part, job, now, rest)
    ensures IsPlan(all, job, now, part + rest)
  {
    assert Succeeding(all - part, job, now) == Succeeding(all, job, now) - part;
    assert Failing(all - part, job, now) == Failing(all, job, now) - part;
    ResumePool(Succeeding(all, job, now), gone, part, rest, Limit(job.successLimit));
    ResumePool(Failing(all, job, now), gone, part, rest, Limit(job.failLimit));
  }

  /** Attempts that each delete part of a plan for what is left when they start. */
  ghost predicate Attempts(all: set<Item>, job: Job, now: int, parts: seq<set<Item>>, left: set<Item>) {
    if parts == [] then left == all
    else (exists gone :: IsPlan(all, job, now, gone) && parts[0] <= gone)
         && Attempts(all - parts[0], job, now, parts[1..], left)
  }

  /** Any number of interrupted runs followed by a full one delete exactly what one full run may delete. */
  lemma {:induction false} RetriesAddUpToOneRun(all: set<Item>, job: Job, now: int, parts: seq<set<Item>>,
                                                left: set<Item>, rest: set<Item>)
    requires Attempts(all, job, now, parts, left) && IsPlan(left, job, now, rest)
    ensures left <= all && IsPlan(all, job, now, all - (left - rest))
    decreases |parts|
  {
    if parts == [] {
      assert all - (left - rest) == rest;
    } else {
      var gone :| IsPlan(all, job, now, gone) && parts[0] <= gone;
      var all' := all - parts[0];
      RetriesAddUpToOneRun(all', job, now, parts[1..], left, rest);
      var rest' := all' - (left - rest);
      InterruptedThenFullIsOneRun(all, job, now, gone, parts[0], rest');
      assert parts[0] + rest' == all - (left - rest);
    }
  }

  /** With distinct creation times all full runs leave the same builds. */
  lemma {:induction false} SurvivorsAreUnique(all: set<Item>, job: Job, now: int, gone: set<Item>, gone': set<Item>)
    requires IsPlan(all, job, now, gone) && IsPlan(all, job, now, gone')
    requires forall a, b :: a in all && b in all && a.created == b.created ==> a == b
    ensures gone == gone'
  {
    var s, f := Succeeding(all, job, now), Failing(all, job, now);
    NewestUnique(s, gone, gone', Limit(job.successLimit));
    NewestUnique(f, gone, gone', Limit(job.failLimit));
    forall b | b in all
      ensures b in gone <==> b in gone'
    {
      if b in s {
        assert b in s - gone <==> b in s - gone';
      } else if b in f {
        assert b in f - gone <==> b in f - gone';
      }
    }
  }

  /** After a full run another one at the same clock deletes nothing. */
  lemma {:induction false} FullRunIsStable(all: set<Item>, job: Job, now: int, gone: set<Item>, again: set<Item>)
    requires IsPlan(all, job, now, gone) && IsPlan(all - gone, job, now, again)
    ensures again == {}
  {
    var s, f := Succeeding(all, job, now), Failing(all, job, now);
    PoolsLeft(all, job, now, gone);
    assert KeepsNewest(s - gone, again, Limit(job.successLimit));
    assert KeepsNewest(f - gone, again, Limit(job.failLimit));
    UnexpiredPlan(all - gone, job, now, again);
    hide IsPlan;
    NothingLeft(s, gone, again, Limit(job.successLimit));
    NothingLeft(f, gone, again, Limit(job.failLimit));
    assert again <= (s - gone) + (f - gone);
    assert again == again * (s - gone) + again * (f - gone);
  }

  /** Where no expired build is left, a plan takes only from the two histories. */
  lemma {:induction false} UnexpiredPlan(all: set<Item>, job: Job, now: int, gone: set<Item>)
    requires IsPlan(all, job, now, gone)
    requires forall b :: b in all && Owned(b, job) ==> !Expired(b, now)
    ensures gone <= Succeeding(all, job, now) + Failing(all, job, now)
  {
  }

  lemma {:induction false} PoolsLeft(all: set<Item>, job: Job, now: int, gone: set<Item>)
    ensures Succeeding(all - gone, job, now) == Succeeding(all, job, now) - gone
    ensures Failing(all - gone, job, now) == Failing(all, job, now) - gone
  {
  }

  lemma {:induction false} NothingLeft(pool: set<Item>, gone: set<Item>, again: set<Item>, limit: nat)
    requires KeepsNewest(pool, gone, limit)
    ensures KeepsNewest(pool - gone, again, limit) ==> (pool - gone) * again == {}
  {
    if KeepsNewest(pool - gone, again, limit) {
      var left := pool - gone;
      Subset(left, pool);
      SameSize(left - again, left);
    }
  }

  // ---------------------------------------------------------------- sequences

  function Elements(s: seq<Item>): set<Item> {
    set b | b in s
  }

  predicate Distinct(s: seq<Item>) {
    forall i, j :: 0 <= i < j < |s| ==> s[i] != s[j]
  }

  predicate NewestFirst(s: seq<Item>) {
    forall i, j :: 0 <= i < j < |s| ==> s[i].created >= s[j].created
  }

  lemma {:induction false} DistinctSize(s: seq<Item>)
    requires Distinct(s)
    ensures |Elements(s)| == |s|
  {
    if s != [] {
      var pre := s[..|s| - 1];
      DistinctSize(pre);
      assert Elements(s) == Elements(pre) + {s[|s| - 1]};
    } else {
      assert Elements(s) == {};
    }
  }

  /** A sorted slice cut at the limit: two disjoint parts, none in the first older than one in the second. */
  lemma {:induction false} Cut(s: seq<Item>, limit: nat)
    requires Distinct(s) && limit <= |s|
    ensures Elements(s) - Elements(s[limit..]) == Elements(s[..limit])
    ensures NewestFirst(s) ==> forall a, b :: a in Elements(s[..limit]) && b in Elements(s[limit..]) ==>
                                                a.created >= b.created
  {
    var head, tail := s[..limit], s[limit..];
    assert s == head + tail;
    forall a, b | a in Elements(head) && b in Elements(tail)
      ensures a != b && (NewestFirst(s) ==> a.created >= b.created)
    {
      var i :| 0 <= i < |head| && head[i] == a;
      var j :| 0 <= j < |tail| && tail[j] == b;
      assert s[i] == a && s[limit + j] == b;
    }
  }

  /** Deleting everything past the limit of a sorted slice keeps the newest. */
  lemma {:induction false} TailIsOldest(s: seq<Item>, limit: nat)
    requires Distinct(s) && NewestFirst(s)
    ensures KeepsNewest(Elements(s), if limit < |s| then Elements(s[limit..]) else {}, limit)
  {
    DistinctSize(s);
    if limit < |s| {
      DistinctSize(s[..limit]);
      Cut(s, limit);
    } else {
      assert Elements(s) - {} == Elements(s);
    }
  }
}
