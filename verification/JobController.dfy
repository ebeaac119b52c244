/** pruneBuilds in the operator's imperative form, against an API server whose lists may be old and deletes may fail. */
module JobController {
  import opened Options
  import opened BuildTypes
  import opened BuildPruning
  import opened BuildTtl

  /** A delete works, is refused, or is applied although it reports an error. */
  datatype Outcome = Deleted | Refused | Unconfirmed

  /** A list fails, or shows the builds as they are (`cached` is None) or as an old cache has them. */
  datatype Tick = Tick(ok: bool, outcome: Outcome, cached: Option<set<Item>>)

  /** A delete call for a listed build: whether it was answered without an error, and whether it deleted the build. */
  datatype DeleteCall = DeleteCall(b: Item, ok: bool, applied: bool)

  /** The builds of the namespace by name; `lists` and `deletes` are the calls received and their answers. */
  class ApiServer {
    const script: nat -> Tick
    var builds: map<string, Item>
    var clock: nat
    var lists: seq<Option<set<Item>>>
    var deletes: seq<DeleteCall>

    constructor (builds: map<string, Item>, script: nat -> Tick)
      ensures this.builds == builds
    {
      this.builds, this.script, clock, lists, deletes := builds, script, 0, [], [];
    }

    /** The builds of the namespace in no particular order, as the operator's cache has them. */
    method List() returns (items: Option<seq<Item>>)
      modifies this`clock, this`lists
      ensures lists == old(lists) + [if items.Some? then Some(Elements(items.value)) else None]
      ensures items.Some? ==> Distinct(items.value)
    {
      var t := script(clock);
      clock := clock + 1;
      if !t.ok {
        lists := lists + [None];
        return None;
      }
      var all := if t.cached.Some? then t.cached.value else builds.Values;
      var r := [];
      var todo := all;
      while todo != {}
        invariant Elements(r) + todo == all && Elements(r) !! todo && Distinct(r)
        decreases todo
      {
        var b :| b in todo;
        ghost var before := r;
        r := r + [b];
        todo := todo - {b};
        assert Elements(r) == Elements(before) + {b};
      }
      assert Elements(r) + {} == Elements(r);
      lists := lists + [Some(all)];
      return Some(r);
    }

    /** Deletes by name; a name that is gone already is an error. */
    method Delete(b: Item) returns (ok: bool)
      modifies this`clock, this`builds, this`deletes
      ensures |deletes| == |old(deletes)| + 1 && old(deletes) <= deletes
      ensures var d := deletes[|deletes| - 1];
              && d.b == b && d.ok == ok && (ok ==> d.applied) && (d.applied ==> b.name in old(builds))
              && builds == if d.applied then old(builds) - {b.name} else old(builds)
    {
      var t := script(clock);
      clock := clock + 1;
      var applied := b.name in builds && !t.outcome.Refused?;
      ok := applied && t.outcome.Deleted?;
      if applied {
        builds := builds - {b.name};
      }
      deletes := deletes + [DeleteCall(b, ok, applied)];
    }
  }

  // ---------------------------------------------------------------- what was asked and answered

  function Asked(made: seq<DeleteCall>): set<Item> {
    set d | d in made :: d.b
  }

  function Removed(made: seq<DeleteCall>): set<Item> {
    set d | d in made && d.applied :: d.b
  }

  function Names(s: set<Item>): set<string> {
    set b | b in s :: b.name
  }

  predicate AllOk(made: seq<DeleteCall>) {
    forall d :: d in made ==> d.ok
  }

  /** No delete failed, or only the last one did. */
  predicate EndsAtFailure(made: seq<DeleteCall>, ok: bool) {
    if ok then AllOk(made) else made != [] && AllOk(made[..|made| - 1]) && !made[|made| - 1].ok
  }

  /** The deletes ask for the builds of a slice in order, from index `start` on. */
  predicate InOrderFrom(s: seq<Item>, start: nat, made: seq<DeleteCall>) {
    forall k :: 0 <= k < |made| ==> start + k < |s| && made[k].b == s[start + k]
  }

  lemma {:induction false} OneMoreInOrder(s: seq<Item>, start: nat, made: seq<DeleteCall>, d: DeleteCall)
    requires InOrderFrom(s, start, made) && start + |made| < |s| && d.b == s[start + |made|]
    ensures InOrderFrom(s, start, made + [d])
  {
  }

  /** What the deletes did: those that were applied are gone, and every answered one was. */
  ghost predicate Effect(before: map<string, Item>, made: seq<DeleteCall>, after: map<string, Item>) {
    && after == before - Names(Removed(made))
    && forall d :: d in made ==> (d.ok ==> d.applied) && (d.applied ==> d.b.name in before)
  }

  lemma {:induction false} NothingMade(before: map<string, Item>)
    ensures Asked([]) == Removed([]) == {} && AllOk([]) && Effect(before, [], before)
  {
    assert Removed([]) == {};
    assert Names({}) == {};
  }

  lemma {:induction false} OneMoreDelete(start: map<string, Item>, made: seq<DeleteCall>, before: map<string, Item>,
                                         d: DeleteCall, after: map<string, Item>)
    requires Effect(start, made, before)
    requires (d.ok ==> d.applied) && (d.applied ==> d.b.name in before)
    requires after == if d.applied then before - {d.b.name} else before
    ensures Effect(start, made + [d], after) && Asked(made + [d]) == Asked(made) + {d.b}
    ensures AllOk(made) ==> EndsAtFailure(made + [d], d.ok)
  {
    assert forall c :: c in made + [d] <==> c in made || c == d;
    assert (made + [d])[..|made|] == made;
    assert Removed(made + [d]) == if d.applied then Removed(made) + {d.b} else Removed(made);
    assert Names(Removed(made) + {d.b}) == Names(Removed(made)) + {d.b.name};
  }

  lemma {:induction false} JoinedDeletes(start: map<string, Item>, a: seq<DeleteCall>, middle: map<string, Item>,
                                         b: seq<DeleteCall>, after: map<string, Item>, ok: bool)
    requires Effect(start, a, middle) && EndsAtFailure(a, true)
    requires Effect(middle, b, after) && EndsAtFailure(b, ok)
    ensures Effect(start, a + b, after) && Asked(a + b) == Asked(a) + Asked(b) && EndsAtFailure(a + b, ok)
  {
    assert forall c :: c in a + b <==> c in a || c in b;
    assert Removed(a + b) == Removed(a) + Removed(b);
    assert Names(Removed(a) + Removed(b)) == Names(Removed(a)) + Names(Removed(b));
    if !ok {
      assert (a + b)[..|a + b| - 1] == a + b[..|b| - 1];
    }
  }

  /** A run without a failure has removed everything it asked for. */
  lemma {:induction false} AllRemoved(before: map<string, Item>, made: seq<DeleteCall>, after: map<string, Item>)
    requires Effect(before, made, after) && AllOk(made)
    ensures Removed(made) == Asked(made) && Names(Asked(made)) <= before.Keys
  {
    assert forall d :: d in made ==> d.applied;
    assert Removed(made) == Asked(made);
  }

  lemma {:induction false} FailureShows(made: seq<DeleteCall>)
    requires EndsAtFailure(made, false)
    ensures !AllOk(made)
  {
    assert made[|made| - 1] in made;
  }

  /** Every delete asks for a build of a plan for the list that was read, and success for exactly the plan. */
  ghost predicate Pruned(listed: Option<set<Item>>, job: Job, now: int, gone: set<Item>, before: map<string, Item>,
                         made: seq<DeleteCall>, ok: bool, after: map<string, Item>) {
    && (ok <==> listed.Some? && AllOk(made)) && (made != [] ==> AllOk(made[..|made| - 1]))
    && after == before - Names(Removed(made))
    && match listed
       case None => made == []
       case Some(all) =>
         && IsPlan(all, job, now, gone) && Removed(made) <= Asked(made) <= gone
         && (ok ==> Removed(made) == Asked(made) == gone && Names(gone) <= before.Keys)
  }

  lemma {:induction false} NothingPruned(job: Job, now: int, before: map<string, Item>)
    ensures Pruned(None, job, now, {}, before, [], false, before)
  {
    assert Names(Removed([])) == {};
  }

  lemma {:induction false} PrunedBy(all: set<Item>, job: Job, now: int, gone: set<Item>, before: map<string, Item>,
                                    made: seq<DeleteCall>, ok: bool, after: map<string, Item>)
    requires IsPlan(all, job, now, gone) && Effect(before, made, after) && EndsAtFailure(made, ok)
    requires Asked(made) <= gone && (ok ==> Asked(made) == gone)
    ensures Pruned(Some(all), job, now, gone, before, made, ok, after)
  {
    hide IsPlan;
    if ok {
      AllRemoved(before, made, after);
    } else {
      FailureShows(made);
    }
  }

  /**
   With a current list, a run that returns nil leaves exactly the builds outside a plan; after
   an error those are still there.
   */
  lemma {:induction false} CurrentListIsPruned(job: Job, now: int, gone: set<Item>, before: map<string, Item>,
                                               made: seq<DeleteCall>, ok: bool, after: map<string, Item>)
    requires forall name :: name in before ==> before[name].name == name
    requires Pruned(Some(before.Values), job, now, gone, before, made, ok, after)
    ensures ok ==> after.Values == before.Values - gone
    ensures before.Values - gone <= after.Values <= before.Values
  {
    hide KeepsNewest;
    forall b | b in before.Values && b !in Removed(made)
      ensures b in after.Values
    {
      var name :| name in before && before[name] == b;
      assert b.name == name;
      assert forall c :: c in Removed(made) ==> c in before.Values && c != b && c.name != name by {
        forall c | c in Removed(made) ensures c in before.Values && c.name != name {
          var n :| n in before && before[n] == c;
        }
      }
      assert name in after && after[name] == b;
    }
    forall b | b in after.Values
      ensures b in before.Values && b !in Removed(made)
    {
      var name :| name in after && after[name] == b;
      assert before[name] == b && name !in Names(Removed(made));
    }
  }

  /**
   What a run asks to delete, build by build of the list it read: nothing that the job does not
   control or that has not ended; on success everything whose TTL has run out since its end; of the
   others none with fewer rivals than the limit for its outcome, three if none is given, and on
   success all with that many newer ones.
   */
  lemma {:induction false} RequestsAreDecided(all: set<Item>, job: Job, now: int, gone: set<Item>,
      before: map<string, Item>, made: seq<DeleteCall>, ok: bool, after: map<string, Item>, b: Item)
    requires Pruned(Some(all), job, now, gone, before, made, ok, after) && b in all
    ensures var ended := b.phase.Succeeded? || b.phase.Failed? || b.phase.Errored? || b.phase.Aborted?;
            var past := b.ttl.Some? && b.endTime.Some? && now > b.endTime.value + b.ttl.value;
            var given := if b.phase.Succeeded? then job.successLimit else job.failLimit;
            var limit := if given.Some? then given.value else 3;
            if b.controller != Some(job.uid) || !ended then b !in Asked(made)
            else if past then ok ==> b in Asked(made)
            else && (|Rivals(all, job, now, b)| < limit ==> b !in Asked(made))
                 && (ok && limit <= |Newer(Rivals(all, job, now, b), b)| ==> b in Asked(made))
  {
    hide KeepsNewest;
    hide Asked;
    hide Rivals;
    var ended := b.phase.Succeeded? || b.phase.Failed? || b.phase.Errored? || b.phase.Aborted?;
    var past := b.ttl.Some? && b.endTime.Some? && now > b.endTime.value + b.ttl.value;
    if b.controller == Some(job.uid) && ended {
      if past {
        PastIsDeleted(all, job, now, gone, b);
      } else {
        LimitDecides(all, job, now, gone, b);
      }
    }
  }

  /**
   Whatever list was read, only builds go of which it showed an owned one of the same name that
   was expired or a finished one past its limit.
   */
  lemma {:induction false} OnlyListedBuildsGo(listed: Option<set<Item>>, job: Job, now: int, gone: set<Item>,
      before: map<string, Item>, made: seq<DeleteCall>, ok: bool, after: map<string, Item>, name: string)
    requires Pruned(listed, job, now, gone, before, made, ok, after)
    requires name in before && name !in after
    ensures listed.Some?
    ensures exists b :: b in gone && b in listed.value && b.name == name && Owned(b, job)
                        && (Expired(b, now) || HasSucceeded(b) || HasFailed(b))
  {
    hide KeepsNewest;
    var b :| b in Removed(made) && b.name == name;
  }

  /** Some order with the newest first; equally old builds may come in any order. */
  method SortNewestFirst(s: seq<Item>) returns (r: seq<Item>)
    requires Distinct(s)
    ensures NewestFirst(r) && Distinct(r) && Elements(r) == Elements(s)
  {
    r := [];
    for i := 0 to |s|
      invariant NewestFirst(r) && Distinct(r) && Elements(r) == Elements(s[..i])
    {
      var j := |r|;
      while 0 < j && r[j - 1].created < s[i].created
        invariant 0 <= j <= |r|
        invariant forall k :: j <= k < |r| ==> r[k].created < s[i].created
      {
        j := j - 1;
      }
      assert s[i] !in Elements(r) by {
        assert forall k :: 0 <= k < i ==> s[k] == s[..i][k];
      }
      ghost var before := r;
      r := Inserted(r, j, s[i]);
      InsertKeeps(before, j, s[i]);
      InsertElements(before, j, s[i]);
      assert Elements(s[..i + 1]) == Elements(s[..i]) + {s[i]};
    }
    assert s[..|s|] == s;
  }

  function Inserted(r: seq<Item>, j: nat, b: Item): seq<Item>
    requires j <= |r|
  {
    r[..j] + [b] + r[j..]
  }

  lemma {:induction false} InsertedPair(r: seq<Item>, j: nat, b: Item, p: nat, q: nat)
    requires j <= |r| && NewestFirst(r) && Distinct(r) && b !in r && p < q <= |r|
    requires forall k :: j <= k < |r| ==> r[k].created < b.created
    requires 0 < j ==> r[j - 1].created >= b.created
    ensures Inserted(r, j, b)[p].created >= Inserted(r, j, b)[q].created
    ensures Inserted(r, j, b)[p] != Inserted(r, j, b)[q]
  {
    if p == j {
      assert Inserted(r, j, b)[q] == r[q - 1];
    } else if q == j {
      assert Inserted(r, j, b)[p] == r[p] && r[p].created >= r[j - 1].created;
    } else {
      var p', q' := if p < j then p else p - 1, if q < j then q else q - 1;
      assert Inserted(r, j, b)[p] == r[p'] && Inserted(r, j, b)[q] == r[q'] && p' < q';
    }
  }

  lemma {:induction false} InsertKeeps(r: seq<Item>, j: nat, b: Item)
    requires j <= |r| && NewestFirst(r) && Distinct(r) && b !in r
    requires forall k :: j <= k < |r| ==> r[k].created < b.created
    requires 0 < j ==> r[j - 1].created >= b.created
    ensures NewestFirst(Inserted(r, j, b)) && Distinct(Inserted(r, j, b))
  {
    var r' := Inserted(r, j, b);
    forall p, q | 0 <= p < q < |r'|
      ensures r'[p].created >= r'[q].created && r'[p] != r'[q]
    {
      InsertedPair(r, j, b, p, q);
    }
  }

  lemma {:induction false} InsertElements(r: seq<Item>, j: nat, b: Item)
    requires j <= |r|
    ensures Elements(Inserted(r, j, b)) == Elements(r) + {b}
  {
    assert r == r[..j] + r[j..];
    assert forall x :: x in r <==> x in r[..j] || x in r[j..];
  }

  lemma {:induction false} ElementsAppend(s: seq<Item>, b: Item)
    ensures Elements(s + [b]) == Elements(s) + {b}
  {
  }

  class JobReconciler {
    const api: ApiServer

    constructor (api: ApiServer)
      ensures this.api == api
    {
      this.api := api;
    }

    /**
     A run that returns nil deletes exactly a plan for the list it read; it returns an error
     exactly if the list or a delete fails, and stops there with part of a plan deleted. A
     build that is not owned or not finished in the list is in no plan.
     */
    method PruneBuilds(job: Job, now: int) returns (ok: bool, ghost listed: Option<set<Item>>, ghost gone: set<Item>)
      modifies api
      ensures api.lists == old(api.lists) + [listed] && old(api.deletes) <= api.deletes
      ensures Pruned(listed, job, now, gone, old(api.builds), api.deletes[|old(api.deletes)|..], ok, api.builds)
    {
      hide KeepsNewest;
      hide Effect;
      hide EndsAtFailure;
      hide AllOk;
      hide Asked;
      hide Pruned;
      ghost var builds, before := api.builds, api.deletes;
      NothingMade(builds);
      var items := api.List();
      listed := api.lists[|api.lists| - 1];
      gone := {};
      if items.None? {
        assert api.deletes[|before|..] == [];
        NothingPruned(job, now, builds);
        return false, listed, gone;
      }
      ghost var all := listed.value;
      var owned := FilterOwned(items.value, job);
      assert forall b :: b in owned <==> b in Elements(owned);
      assert forall b :: b in items.value <==> b in all;
      ghost var expired := set b | b in owned && Expired(b, now);
      assert expired == set b | b in all && Owned(b, job) && Expired(b, now);
      var expiredOk, succeeded, failed := DeleteExpired(owned, job, now);
      ghost var made0 := api.deletes[|before|..];
      if !expiredOk {
        gone := PlanExists(all, job, now);
        assert expired <= gone;
        PrunedBy(all, job, now, gone, builds, made0, false, api.builds);
        return false, listed, gone;
      }
      assert Elements(succeeded) == Succeeding(all, job, now);
      assert Elements(failed) == Failing(all, job, now);
      ghost var before1, builds1, goneS, goneF := api.deletes, api.builds, {}, {};
      ok, goneS, goneF := DeletePastLimits(job, succeeded, failed);
      ghost var made1 := api.deletes[|before1|..];
      gone := PlanOf(all, job, now, goneS, goneF);
      hide IsPlan;
      JoinedDeletes(builds, made0, builds1, made1, api.builds, ok);
      assert api.deletes[|before|..] == made0 + made1;
      PrunedBy(all, job, now, gone, builds, made0 + made1, ok, api.builds);
    }

    /** Sorts both histories and deletes what is past their limits, up to the first failure. */
    method DeletePastLimits(job: Job, succeeded: seq<Item>, failed: seq<Item>)
      returns (ok: bool, ghost goneS: set<Item>, ghost goneF: set<Item>)
      requires Distinct(succeeded) && Distinct(failed)
      modifies api`clock, api`builds, api`deletes
      ensures goneS <= Elements(succeeded) && KeepsNewest(Elements(succeeded), goneS, Limit(job.successLimit))
      ensures goneF <= Elements(failed) && KeepsNewest(Elements(failed), goneF, Limit(job.failLimit))
      ensures old(api.deletes) <= api.deletes
      ensures var made := api.deletes[|old(api.deletes)|..];
              && Effect(old(api.builds), made, api.builds) && EndsAtFailure(made, ok)
              && Asked(made) <= goneS + goneF && (ok ==> Asked(made) == goneS + goneF)
    {
      hide KeepsNewest;
      hide Effect;
      hide EndsAtFailure;
      hide AllOk;
      hide Asked;
      ghost var builds, before := api.builds, api.deletes;
      var sortedS := SortNewestFirst(succeeded);
      var sortedF := SortNewestFirst(failed);
      var successLimit, failLimit := Limit(job.successLimit), Limit(job.failLimit);
      TailIsOldest(sortedS, successLimit);
      TailIsOldest(sortedF, failLimit);
      goneS, goneF := Past(sortedS, successLimit), Past(sortedF, failLimit);
      PastIsPart(sortedS, successLimit);
      PastIsPart(sortedF, failLimit);
      ok := DeletePast(sortedS, successLimit);
      ghost var made1 := api.deletes[|before|..];
      if !ok {
        return false, goneS, goneF;
      }
      ghost var before2, builds2 := api.deletes, api.builds;
      ok := DeletePast(sortedF, failLimit);
      ghost var made2 := api.deletes[|before2|..];
      JoinedDeletes(builds, made1, builds2, made2, api.builds, ok);
      assert api.deletes[|before|..] == made1 + made2;
    }

    method FilterOwned(items: seq<Item>, job: Job) returns (owned: seq<Item>)
      requires Distinct(items)
      ensures Distinct(owned) && Elements(owned) == set b | b in items && Owned(b, job)
    {
      owned := [];
      for i := 0 to |items|
        invariant forall b :: b in owned <==> b in items[..i] && Owned(b, job)
        invariant Distinct(owned)
      {
        assert items[..i + 1] == items[..i] + [items[i]];
        assert items[i] !in items[..i];
        if Owned(items[i], job) {
          owned := owned + [items[i]];
        }
      }
      assert items[..|items|] == items;
    }

    /**
     Deletes the owned builds past their TTL, up to the first failure, and sorts the other
     finished ones into two slices.
     */
    method DeleteExpired(owned: seq<Item>, job: Job, now: int)
      returns (ok: bool, succeeded: seq<Item>, failed: seq<Item>)
      requires Distinct(owned)
      modifies api`clock, api`builds, api`deletes
      ensures old(api.deletes) <= api.deletes
      ensures var made, expired := api.deletes[|old(api.deletes)|..], set b | b in owned && Expired(b, now);
              && Effect(old(api.builds), made, api.builds) && EndsAtFailure(made, ok)
              && Asked(made) <= expired && (ok ==> Asked(made) == expired)
      ensures ok ==> Distinct(succeeded) && Distinct(failed)
      ensures ok ==> Elements(succeeded) == set b | b in owned && !Expired(b, now) && HasSucceeded(b)
      ensures ok ==> Elements(failed) == set b | b in owned && !Expired(b, now) && HasFailed(b)
    {
      hide Effect;
      hide AllOk;
      hide Asked;
      ghost var builds, before := api.builds, api.deletes;
      NothingMade(builds);
      assert api.deletes[|before|..] == [];
      succeeded, failed := [], [];
      for i := 0 to |owned|
        invariant before <= api.deletes
        invariant var made := api.deletes[|before|..];
                  && Effect(builds, made, api.builds) && AllOk(made)
                  && Asked(made) == set b | b in owned[..i] && Expired(b, now)
        invariant Distinct(succeeded) && Distinct(failed)
        invariant Elements(succeeded) == set b | b in owned[..i] && !Expired(b, now) && HasSucceeded(b)
        invariant Elements(failed) == set b | b in owned[..i] && !Expired(b, now) && HasFailed(b)
      {
        var b := owned[i];
        assert owned[..i + 1] == owned[..i] + [b];
        assert b !in owned[..i];
        if Expired(b, now) {
          ghost var made, left := api.deletes[|before|..], api.builds;
          var deleted := api.Delete(b);
          ghost var d := api.deletes[|api.deletes| - 1];
          OneMoreDelete(builds, made, left, d, api.builds);
          assert api.deletes[|before|..] == made + [d];
          if !deleted {
            return false, succeeded, failed;
          }
        } else {
          assert b !in Elements(succeeded) && b !in Elements(failed);
          ElementsAppend(succeeded, b);
          ElementsAppend(failed, b);
          match b.phase
          case Succeeded => succeeded := succeeded + [b];
          case Failed | Errored | Aborted => failed := failed + [b];
          case _ =>
        }
      }
      assert owned[..|owned|] == owned;
      ok := true;
    }

    /** Deletes the builds of a sorted slice from index `limit` on, up to the first failure. */
    method DeletePast(s: seq<Item>, limit: nat) returns (ok: bool)
      modifies api`clock, api`builds, api`deletes
      ensures old(api.deletes) <= api.deletes
      ensures var made := api.deletes[|old(api.deletes)|..];
              && Effect(old(api.builds), made, api.builds) && EndsAtFailure(made, ok)
              && Asked(made) <= Past(s, limit) && (ok ==> Asked(made) == Past(s, limit))
              && InOrderFrom(s, limit, made)
    {
      assert InOrderFrom(s, limit, []);
      PastEnds(s, limit);
      hide InOrderFrom;
      hide Effect;
      hide AllOk;
      hide Asked;
      hide Between;
      hide Past;
      ghost var builds, before := api.builds, api.deletes;
      NothingMade(builds);
      assert api.deletes[|before|..] == [];
      var i := limit;
      while i < |s|
        invariant limit <= i && (limit <= |s| ==> i <= |s|) && before <= api.deletes
        invariant var made := api.deletes[|before|..];
                  && Effect(builds, made, api.builds) && AllOk(made)
                  && Asked(made) == Between(s, limit, i) && |made| == i - limit && InOrderFrom(s, limit, made)
        decreases |s| - i
      {
        PastGrows(s, limit, i);
        ghost var made, left := api.deletes[|before|..], api.builds;
        var deleted := api.Delete(s[i]);
        ghost var d := api.deletes[|api.deletes| - 1];
        OneMoreDelete(builds, made, left, d, api.builds);
        OneMoreInOrder(s, limit, made, d);
        assert api.deletes[|before|..] == made + [d];
        if !deleted {
          return false;
        }
        i := i + 1;
      }
      return true;
    }
  }

  lemma {:induction false} PastIsPart(s: seq<Item>, limit: nat)
    ensures Past(s, limit) <= Elements(s)
  {
  }

  /** The builds of a slice from index `limit` up to index i. */
  function Between(s: seq<Item>, limit: nat, i: nat): set<Item> {
    if limit <= i <= |s| then Elements(s[limit..i]) else {}
  }

  lemma {:induction false} PastGrows(s: seq<Item>, limit: nat, i: nat)
    requires limit <= i < |s|
    ensures Between(s, limit, i + 1) == Between(s, limit, i) + {s[i]} && Between(s, limit, i + 1) <= Past(s, limit)
  {
    assert s[limit..i + 1] == s[limit..i] + [s[i]];
    ElementsAppend(s[limit..i], s[i]);
    assert s[limit..] == s[limit..i + 1] + s[i + 1..];
  }

  lemma {:induction false} PastEnds(s: seq<Item>, limit: nat)
    ensures Between(s, limit, limit) == {}
    ensures Past(s, limit) == if limit < |s| then Between(s, limit, |s|) else {}
  {
    if limit < |s| {
      assert s[limit..|s|] == s[limit..];
    }
  }

  /** The builds of a slice from index `limit` on. */
  function Past(s: seq<Item>, limit: nat): set<Item> {
    if limit < |s| then Elements(s[limit..]) else {}
  }
}
