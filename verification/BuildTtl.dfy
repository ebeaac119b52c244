/**
 What a TTL and the history limits mean, in terms of a build's own fields and its rivals, and
 when a TTL differs from an unset one: the API documents zero as the same, the code does not
 treat it so.
 */
module BuildTtl {
  import opened Options
  import opened BuildTypes
  import opened BuildPruning

  function WithoutTtl(b: Item): Item {
    b.(ttl := None)
  }

  /** The set with c in the place of b. */
  function Swap(s: set<Item>, b: Item, c: Item): set<Item> {
    if b in s then s - {b} + {c} else s
  }

  /** The history that b is counted in, and the other one. */
  function Peers(all: set<Item>, job: Job, now: int, succeeded: bool): set<Item> {
    if succeeded then Succeeding(all, job, now) else Failing(all, job, now)
  }

  function PeerLimit(job: Job, succeeded: bool): nat {
    Limit(if succeeded then job.successLimit else job.failLimit)
  }

  function Newer(pool: set<Item>, b: Item): set<Item> {
    set a | a in pool && a.created > b.created
  }

  /** Runs may delete the same builds as if b had no TTL. */
  ghost predicate SamePlans(all: set<Item>, job: Job, now: int, b: Item) {
    forall gone :: gone <= all ==>
                     (IsPlan(all, job, now, gone) <==>
                      IsPlan(Swap(all, b, WithoutTtl(b)), job, now, Swap(gone, b, WithoutTtl(b))))
  }

  // ---------------------------------------------------------------- parts of a plan

  /** What a plan asks for apart from the two histories. */
  predicate Base(all: set<Item>, job: Job, now: int, gone: set<Item>) {
    && gone <= all
    && (forall b :: b in all && Owned(b, job) && Expired(b, now) ==> b in gone)
    && (forall b :: b in gone ==> Owned(b, job) && (Expired(b, now) || HasSucceeded(b) || HasFailed(b)))
  }

  lemma {:induction false} PlanParts(all: set<Item>, job: Job, now: int, gone: set<Item>, succeeded: bool)
    ensures IsPlan(all, job, now, gone) <==>
            && Base(all, job, now, gone)
            && KeepsNewest(Peers(all, job, now, succeeded), gone, PeerLimit(job, succeeded))
            && KeepsNewest(Peers(all, job, now, !succeeded), gone, PeerLimit(job, !succeeded))
  {
  }

  /** b is an owned finished build with a TTL, and no other build has its name. */
  predicate HasTtl(all: set<Item>, job: Job, b: Item) {
    b in all && WithoutTtl(b) !in all && Owned(b, job) && IsTerminal(b.phase) && b.ttl.Some?
  }

  lemma {:induction false} PeersWithoutTtl(all: set<Item>, job: Job, now: int, b: Item)
    requires HasTtl(all, job, b)
    ensures var c := WithoutTtl(b);
            var all', s := Swap(all, b, c), HasSucceeded(b);
            && Peers(all', job, now, s) == Peers(all, job, now, s) - {b} + {c}
            && Peers(all', job, now, !s) == Peers(all, job, now, !s)
            && (b in Peers(all, job, now, s) <==> !Expired(b, now))
            && c !in Peers(all, job, now, s)
            && b !in Peers(all, job, now, !s) && c !in Peers(all, job, now, !s)
  {
  }

  lemma {:induction false} BaseWithoutTtl(all: set<Item>, job: Job, now: int, gone: set<Item>, b: Item)
    requires HasTtl(all, job, b) && gone <= all && (Expired(b, now) ==> b in gone)
    ensures Base(all, job, now, gone) <==> Base(Swap(all, b, WithoutTtl(b)), job, now, Swap(gone, b, WithoutTtl(b)))
  {
    var c := WithoutTtl(b);
    var all', gone' := Swap(all, b, c), Swap(gone, b, c);
    assert forall a :: a != b && a != c ==> (a in all <==> a in all') && (a in gone <==> a in gone');
    assert b !in all' && b !in gone' && c !in gone && !Expired(c, now);
  }

  // ---------------------------------------------------------------- one history

  lemma {:induction false} RenameKeeps(pool: set<Item>, gone: set<Item>, limit: nat, b: Item, c: Item)
    requires KeepsNewest(pool, gone, limit)
    requires b in pool && c !in pool && c !in gone && c.created == b.created
    ensures KeepsNewest(Swap(pool, b, c), Swap(gone, b, c), limit)
  {
    var pool', gone' := Swap(pool, b, c), Swap(gone, b, c);
    assert |pool'| == |pool|;
    if b in gone {
      assert pool' - gone' == pool - gone;
    } else {
      assert pool' - gone' == (pool - gone) - {b} + {c};
    }
    forall x, y | x in pool' - gone' && y in pool' * gone'
      ensures x.created >= y.created
    {
      var x0 := if x == c then b else x;
      var y0 := if y == c then b else y;
      assert x0 in pool - gone && y0 in pool * gone;
    }
  }

  lemma {:induction false} RenameBack(pool: set<Item>, gone: set<Item>, limit: nat, b: Item, c: Item)
    requires KeepsNewest(Swap(pool, b, c), Swap(gone, b, c), limit)
    requires b in pool && c !in pool && c !in gone && c.created == b.created
    ensures KeepsNewest(pool, gone, limit)
  {
    RenameKeeps(Swap(pool, b, c), Swap(gone, b, c), limit, c, b);
    assert Swap(Swap(pool, b, c), c, b) == pool;
    assert Swap(Swap(gone, b, c), c, b) == gone;
  }

  /** Whatever is kept beside an older build that is kept, or equally old, includes all newer ones. */
  lemma {:induction false} NewerAreKept(pool: set<Item>, gone: set<Item>, limit: nat, a: Item, b: Item)
    requires KeepsNewest(pool, gone, limit) && a in pool - gone && a.created <= b.created
    requires a !in Newer(pool, b)
    ensures |Newer(pool, b)| < limit
  {
    var newer := Newer(pool, b);
    assert newer + {a} <= pool - gone;
    Subset(newer + {a}, pool - gone);
    assert |newer + {a}| == |newer| + 1;
  }

  /** With enough newer builds, c is never kept, and leaving it out of the history changes nothing. */
  lemma {:induction false} CrowdedOut(pool: set<Item>, gone: set<Item>, limit: nat, c: Item)
    requires c !in pool && limit <= |Newer(pool, c)|
    ensures KeepsNewest(pool + {c}, gone, limit) ==> c in gone
    ensures c in gone ==> (KeepsNewest(pool + {c}, gone, limit) <==> KeepsNewest(pool, gone, limit))
  {
    var more := pool + {c};
    assert Newer(more, c) == Newer(pool, c);
    Subset(Newer(pool, c), pool);
    assert |more| == |pool| + 1;
    if KeepsNewest(more, gone, limit) && c !in gone {
      NewerAreKept(more, gone, limit, c, c);
    }
    if c in gone {
      assert more - gone == pool - gone;
      if KeepsNewest(pool, gone, limit) {
        forall a, y | a in more - gone && y in more * gone
          ensures a.created >= y.created
        {
          if y == c && a.created < c.created {
            NewerAreKept(pool, gone, limit, a, c);
          }
        }
      }
    }
  }

  /** With room beside the newer ones, some choice keeps c. */
  lemma {:induction false} RoomToKeep(pool: set<Item>, limit: nat, c: Item) returns (gone: set<Item>)
    requires c in pool && |Newer(pool, c)| < limit
    ensures gone <= pool && KeepsNewest(pool, gone, limit) && c !in gone
  {
    gone := NewestExist(pool, limit);
    if c in gone {
      var kept := pool - gone;
      Subset(kept, pool);
      if |kept| == |pool| {
        SameSize(kept, pool);
        assert false;
      }
      var a := NotNewer(kept, Newer(pool, c));
      assert a.created == c.created;
      var gone' := gone - {c} + {a};
      assert pool - gone' == kept - {a} + {c};
      gone := gone';
    }
  }

  lemma {:induction false} NotNewer(kept: set<Item>, newer: set<Item>) returns (a: Item)
    requires |newer| < |kept|
    ensures a in kept && a !in newer
  {
    if kept - newer == {} {
      forall x | x in kept ensures x in newer {
        assert x !in newer ==> x in kept - newer;
      }
      Subset(kept, newer);
    }
    a :| a in kept - newer;
  }

  // ---------------------------------------------------------------- the theorems

  /** A finished build goes in every plan once its TTL has run out since its end. */
  lemma {:induction false} PastIsDeleted(all: set<Item>, job: Job, now: int, gone: set<Item>, b: Item)
    requires IsPlan(all, job, now, gone) && b in all && Owned(b, job) && IsTerminal(b.phase)
    requires b.ttl.Some? && b.endTime.Some? && now > b.endTime.value + b.ttl.value
    ensures b in gone
  {
    assert Expired(b, now);
  }

  lemma {:induction false} ExpiredIsDeleted(all: set<Item>, job: Job, now: int, gone: set<Item>, b: Item)
    requires HasTtl(all, job, b) && Expired(b, now) && IsPlan(all, job, now, gone)
    ensures b in gone
  {
    PastIsDeleted(all, job, now, gone, b);
  }

  lemma {:induction false} UnexpiredIsUnset(all: set<Item>, job: Job, now: int, b: Item, gone: set<Item>)
    requires HasTtl(all, job, b) && !Expired(b, now) && gone <= all
    ensures IsPlan(all, job, now, gone) <==>
            IsPlan(Swap(all, b, WithoutTtl(b)), job, now, Swap(gone, b, WithoutTtl(b)))
  {
    var c, s := WithoutTtl(b), HasSucceeded(b);
    var all', gone' := Swap(all, b, c), Swap(gone, b, c);
    PlanParts(all, job, now, gone, s);
    PlanParts(all', job, now, gone', s);
    hide IsPlan;
    PeersWithoutTtl(all, job, now, b);
    BaseWithoutTtl(all, job, now, gone, b);
    var pool, others := Peers(all, job, now, s), Peers(all, job, now, !s);
    var limit, limit' := PeerLimit(job, s), PeerLimit(job, !s);
    hide Peers;
    hide Base;
    assert Peers(all', job, now, s) == Swap(pool, b, c);
    if KeepsNewest(pool, gone, limit) {
      RenameKeeps(pool, gone, limit, b, c);
    }
    if KeepsNewest(Swap(pool, b, c), gone', limit) {
      RenameBack(pool, gone, limit, b, c);
    }
    OthersUnmoved(others, gone, limit', b, c);
    hide KeepsNewest;
  }

  lemma {:induction false} OthersUnmoved(pool: set<Item>, gone: set<Item>, limit: nat, b: Item, c: Item)
    requires b !in pool && c !in pool
    ensures KeepsNewest(pool, gone, limit) <==> KeepsNewest(pool, Swap(gone, b, c), limit)
  {
    var gone' := Swap(gone, b, c);
    assert pool - gone' == pool - gone && pool * gone' == pool * gone;
  }

  lemma {:induction false} CrowdedIsUnset(all: set<Item>, job: Job, now: int, b: Item, gone: set<Item>)
    requires HasTtl(all, job, b) && Expired(b, now) && gone <= all
    requires PeerLimit(job, HasSucceeded(b)) <= |Newer(Peers(all, job, now, HasSucceeded(b)), b)|
    ensures IsPlan(all, job, now, gone) <==>
            IsPlan(Swap(all, b, WithoutTtl(b)), job, now, Swap(gone, b, WithoutTtl(b)))
  {
    var c, s := WithoutTtl(b), HasSucceeded(b);
    var all', gone' := Swap(all, b, c), Swap(gone, b, c);
    PlanParts(all, job, now, gone, s);
    PlanParts(all', job, now, gone', s);
    hide IsPlan;
    PeersWithoutTtl(all, job, now, b);
    var pool, others := Peers(all, job, now, s), Peers(all, job, now, !s);
    var limit, limit' := PeerLimit(job, s), PeerLimit(job, !s);
    assert Newer(pool, c) == Newer(pool, b);
    assert Peers(all', job, now, s) == pool + {c};
    hide Peers;
    CrowdedOut(pool, gone', limit, c);
    if b in gone {
      BaseWithoutTtl(all, job, now, gone, b);
      OthersUnmoved(others, gone, limit', b, c);
      OthersUnmoved(pool, gone, limit, b, c);
    } else {
      assert !Base(all, job, now, gone);
      assert c !in gone';
    }
    hide KeepsNewest;
    hide Base;
  }

  lemma {:induction false} PlanKeeping(all: set<Item>, job: Job, now: int, c: Item, mine: set<Item>, rest: set<Item>)
    returns (gone: set<Item>)
    requires var s := HasSucceeded(c);
             && mine <= Peers(all, job, now, s) && KeepsNewest(Peers(all, job, now, s), mine, PeerLimit(job, s))
             && rest <= Peers(all, job, now, !s) && KeepsNewest(Peers(all, job, now, !s), rest, PeerLimit(job, !s))
             && c !in mine && c !in rest && !Expired(c, now)
    ensures IsPlan(all, job, now, gone) && gone <= all && c !in gone
  {
    hide KeepsNewest;
    gone := PlanOf(all, job, now, if HasSucceeded(c) then mine else rest, if HasSucceeded(c) then rest else mine);
  }

  lemma {:induction false} ExpiredPeers(all: set<Item>, job: Job, now: int, b: Item)
    requires HasTtl(all, job, b) && Expired(b, now)
    ensures var c := WithoutTtl(b);
            var all', s := Swap(all, b, c), HasSucceeded(b);
            && HasSucceeded(c) == s && !Expired(c, now)
            && c in Peers(all', job, now, s) && c !in Peers(all', job, now, !s)
            && Newer(Peers(all', job, now, s), c) == Newer(Peers(all, job, now, s), b)
  {
    PeersWithoutTtl(all, job, now, b);
  }

  lemma {:induction false} RoomMatters(all: set<Item>, job: Job, now: int, b: Item) returns (gone: set<Item>)
    requires HasTtl(all, job, b) && Expired(b, now)
    requires |Newer(Peers(all, job, now, HasSucceeded(b)), b)| < PeerLimit(job, HasSucceeded(b))
    ensures gone <= all && !IsPlan(all, job, now, gone)
    ensures IsPlan(Swap(all, b, WithoutTtl(b)), job, now, Swap(gone, b, WithoutTtl(b)))
  {
    hide *;
    var c, s := WithoutTtl(b), HasSucceeded(b);
    var all' := Swap(all, b, c);
    ExpiredPeers(all, job, now, b);
    var mine := RoomToKeep(Peers(all', job, now, s), PeerLimit(job, s), c);
    var rest := NewestExist(Peers(all', job, now, !s), PeerLimit(job, !s));
    gone := PlanKeeping(all', job, now, c, mine, rest);
    KeptAside(all, job, b, c, gone);
    if IsPlan(all, job, now, gone) {
      ExpiredIsDeleted(all, job, now, gone, b);
    }
  }

  lemma {:induction false} KeptAside(all: set<Item>, job: Job, b: Item, c: Item, gone: set<Item>)
    requires HasTtl(all, job, b) && c == WithoutTtl(b) && gone <= Swap(all, b, c) && c !in gone
    ensures gone <= all && b !in gone && Swap(gone, b, c) == gone
  {
  }

  /**
   For every list, job and clock: a TTL of t seconds on an owned finished build that ended at e
   puts it into every plan if now > e + t; otherwise, and without an end, the plans are those
   of the same list with that TTL unset.
   */
  lemma {:induction false} TtlIsADeadline(all: set<Item>, job: Job, now: int, b: Item, gone: set<Item>)
    requires HasTtl(all, job, b) && gone <= all
    ensures b.endTime.Some? && now > b.endTime.value + b.ttl.value ==>
              (IsPlan(all, job, now, gone) ==> b in gone)
    ensures !(b.endTime.Some? && now > b.endTime.value + b.ttl.value) ==>
              (IsPlan(all, job, now, gone) <==>
               IsPlan(Swap(all, b, WithoutTtl(b)), job, now, Swap(gone, b, WithoutTtl(b))))
  {
    assert Expired(b, now) <==> b.endTime.Some? && now > b.endTime.value + b.ttl.value;
    hide IsPlan;
    if !Expired(b, now) {
      UnexpiredIsUnset(all, job, now, b, gone);
    } else if IsPlan(all, job, now, gone) {
      PastIsDeleted(all, job, now, gone, b);
    }
  }

  /**
   For every list, job and clock: a TTL of t seconds on a finished build is the same as none
   unless t seconds have passed since its end and the history limit would still have kept it,
   fewer newer builds than the limit being left beside it.
   */
  lemma {:induction false} TtlIsUnsetUnless(all: set<Item>, job: Job, now: int, b: Item)
    requires HasTtl(all, job, b)
    ensures SamePlans(all, job, now, b) <==>
            !(b.endTime.Some? && now > b.endTime.value + b.ttl.value
              && |Newer(Peers(all, job, now, HasSucceeded(b)), b)| < PeerLimit(job, HasSucceeded(b)))
  {
    var c := WithoutTtl(b);
    var room := |Newer(Peers(all, job, now, HasSucceeded(b)), b)| < PeerLimit(job, HasSucceeded(b));
    assert Expired(b, now) <==> b.endTime.Some? && now > b.endTime.value + b.ttl.value;
    hide IsPlan;
    hide Peers;
    if Expired(b, now) && room {
      var gone := RoomMatters(all, job, now, b);
      assert !(IsPlan(all, job, now, gone) <==> IsPlan(Swap(all, b, c), job, now, Swap(gone, b, c)));
    } else {
      forall gone | gone <= all
        ensures IsPlan(all, job, now, gone) <==> IsPlan(Swap(all, b, c), job, now, Swap(gone, b, c))
      {
        if Expired(b, now) {
          CrowdedIsUnset(all, job, now, b, gone);
        } else {
          UnexpiredIsUnset(all, job, now, b, gone);
        }
      }
    }
  }

  /**
   In particular a TTL of zero, documented as none: it is the same unless the build's end time
   has passed and the history limit would still have kept it.
   */
  lemma {:induction false} ZeroIsUnsetUnless(all: set<Item>, job: Job, now: int, b: Item)
    requires HasTtl(all, job, b) && b.ttl == Some(0)
    ensures SamePlans(all, job, now, b) <==>
            !(b.endTime.Some? && b.endTime.value < now
              && |Newer(Peers(all, job, now, HasSucceeded(b)), b)| < PeerLimit(job, HasSucceeded(b)))
  {
    TtlIsUnsetUnless(all, job, now, b);
    hide SamePlans;
    hide Peers;
  }

  // ---------------------------------------------------------------- the limits

  /** a counts in the same history as a finished build of phase p. */
  predicate SameOutcome(a: Item, p: Phase) {
    if p.Succeeded? then a.phase.Succeeded? else a.phase.Failed? || a.phase.Errored? || a.phase.Aborted?
  }

  /** The job's other builds of the same outcome that are not past their deadline and not older than b. */
  function Rivals(all: set<Item>, job: Job, now: int, b: Item): set<Item> {
    set a | a in all && a != b && a.controller == Some(job.uid) && SameOutcome(a, b.phase)
            && !(a.ttl.Some? && a.endTime.Some? && now > a.endTime.value + a.ttl.value) && a.created >= b.created
  }

  lemma {:induction false} RivalsArePeers(all: set<Item>, job: Job, now: int, b: Item)
    requires b in all && b.controller == Some(job.uid)
    requires b.phase.Succeeded? || b.phase.Failed? || b.phase.Errored? || b.phase.Aborted?
    requires !(b.ttl.Some? && b.endTime.Some? && now > b.endTime.value + b.ttl.value)
    ensures var pool := Peers(all, job, now, HasSucceeded(b));
            && b in pool && Newer(Rivals(all, job, now, b), b) == Newer(pool, b)
            && Rivals(all, job, now, b) == set a | a in pool && a != b && a.created >= b.created
  {
    var pool := Peers(all, job, now, HasSucceeded(b));
    forall a ensures a in Rivals(all, job, now, b) <==> a in pool && a != b && a.created >= b.created {
    }
  }

  /**
   A finished build that is not past its deadline is kept by every plan if it has fewer rivals
   than the limit for its outcome, three if none is given, and goes in every plan if it has as
   many newer ones; equally old ones leave a choice.
   */
  lemma {:induction false} LimitDecides(all: set<Item>, job: Job, now: int, gone: set<Item>, b: Item)
    requires IsPlan(all, job, now, gone) && b in all && b.controller == Some(job.uid)
    requires b.phase.Succeeded? || b.phase.Failed? || b.phase.Errored? || b.phase.Aborted?
    requires !(b.ttl.Some? && b.endTime.Some? && now > b.endTime.value + b.ttl.value)
    ensures var given := if b.phase.Succeeded? then job.successLimit else job.failLimit;
            var limit := if given.Some? then given.value else 3;
            && (|Rivals(all, job, now, b)| < limit ==> b !in gone)
            && (limit <= |Newer(Rivals(all, job, now, b), b)| ==> b in gone)
  {
    var s := HasSucceeded(b);
    var pool, limit := Peers(all, job, now, s), PeerLimit(job, s);
    PlanParts(all, job, now, gone, s);
    RivalsArePeers(all, job, now, b);
    hide IsPlan;
    hide Peers;
    hide Rivals;
    if b in gone {
      var kept := pool - gone;
      assert kept + {b} <= pool;
      Subset(kept + {b}, pool);
      Subset(kept, Rivals(all, job, now, b));
    } else {
      NewerAreKept(pool, gone, limit, b, b);
    }
  }
}
