/** syncPin and syncDisabledVersions in the operator's imperative form. */
module ResourceController {
  import opened Options
  import opened DisabledVersions
  import opened ResourceCalls

  datatype Tick = Tick(ok: bool, done: bool)

  /**
   One resource as the ATC keeps it. `listing` is what the ATC returns for a version
   filter; IDs and versions never change. `calls` are the calls received and the replies given.
   */
  class Atc {
    const listing: Version -> seq<Entry>
    const versionOf: int -> Version
    const script: nat -> Tick
    var calls: seq<Call>
    var disabled: set<int>
    var pin: Option<Version>
    var comment: string

    constructor (listing: Version -> seq<Entry>, versionOf: int -> Version, script: nat -> Tick)
      requires forall v, e :: e in listing(v) ==> versionOf(e.id) == e.version
      ensures Valid() && calls == []
    {
      this.listing, this.versionOf, this.script := listing, versionOf, script;
      calls, disabled, pin, comment := [], {}, None, "";
    }

    /** The listing tells the truth about IDs. */
    ghost predicate Valid() {
      forall v, e :: e in listing(v) ==> versionOf(e.id) == e.version
    }

    method Answer(request: Request) returns (done: bool, ok: bool)
      modifies this`calls
      ensures calls == old(calls) + [Call(request, ok, done)]
    {
      var t := script(|calls|);
      done, ok := t.done, t.ok;
      calls := calls + [Call(request, ok, done)];
    }

    method Resource() returns (found: bool, ok: bool, pinned: Option<Version>, pinComment: string)
      modifies this`calls
      ensures calls == old(calls) + [Call(GetResource, ok, found)]
      ensures ok && found ==> pinned == pin && pinComment == comment
    {
      found, ok := Answer(GetResource);
      pinned, pinComment := pin, comment;
    }

    method ResourceVersions(v: Version) returns (found: bool, ok: bool, versions: seq<Entry>)
      modifies this`calls
      ensures calls == old(calls) + [Call(ListVersions(v), ok, found)]
      ensures ok && found ==> versions == listing(v)
    {
      found, ok := Answer(ListVersions(v));
      versions := listing(v);
    }

    method DisableResourceVersion(id: int) returns (done: bool, ok: bool)
      modifies this`calls, this`disabled
      ensures calls == old(calls) + [Call(DisableVersion(id), ok, done)]
      ensures disabled == if done then old(disabled) + {id} else old(disabled)
    {
      done, ok := Answer(DisableVersion(id));
      if done {
        disabled := disabled + {id};
      }
    }

    method EnableResourceVersion(id: int) returns (done: bool, ok: bool)
      modifies this`calls, this`disabled
      ensures calls == old(calls) + [Call(EnableVersion(id), ok, done)]
      ensures disabled == if done then old(disabled) - {id} else old(disabled)
    {
      done, ok := Answer(EnableVersion(id));
      if done {
        disabled := disabled - {id};
      }
    }

    method PinResourceVersion(id: int) returns (done: bool, ok: bool)
      modifies this`calls, this`pin
      ensures calls == old(calls) + [Call(PinVersion(id), ok, done)]
      ensures pin == if done then Some(versionOf(id)) else old(pin)
    {
      done, ok := Answer(PinVersion(id));
      if done {
        pin := Some(versionOf(id));
      }
    }

    method UnpinResource() returns (done: bool, ok: bool)
      modifies this`calls, this`pin
      ensures calls == old(calls) + [Call(Unpin, ok, done)]
      ensures pin == if done then None else old(pin)
    {
      done, ok := Answer(Unpin);
      if done {
        pin := None;
      }
    }

    method SetPinComment(text: string) returns (done: bool, ok: bool)
      modifies this`calls, this`comment
      ensures calls == old(calls) + [Call(SetComment(text), ok, done)]
      ensures comment == if done then text else old(comment)
    {
      done, ok := Answer(SetComment(text));
      if done {
        comment := text;
      }
    }
  }

  /** The in-memory Resource object. */
  class Resource {
    const disabledVersions: seq<Version>
    const pinnedVersion: Version
    const pinComment: string
    var disabledVersionIDs: seq<int>
    var pinned: Option<bool>
    var pinnedVersionID: Option<int>

    constructor (disabledVersions: seq<Version>, pinnedVersion: Version, pinComment: string, tracked: seq<int>)
      ensures this.disabledVersions == disabledVersions && this.pinnedVersion == pinnedVersion
      ensures disabledVersionIDs == tracked
    {
      this.disabledVersions, this.pinnedVersion, this.pinComment := disabledVersions, pinnedVersion, pinComment;
      disabledVersionIDs, pinned, pinnedVersionID := tracked, None, None;
    }
  }

  /** The next key of a map iteration: any of those left. */
  method AnyKey<T(==)>(todo: set<T>) returns (key: T)
    requires todo != {}
    ensures key in todo
  {
    key :| key in todo;
  }

  class ResourceReconciler {
    const atc: Atc

    constructor (atc: Atc)
      ensures this.atc == atc
    {
      this.atc := atc;
    }

    /** First listed entry with exactly this version. */
    method FindVersion(versions: seq<Entry>, v: Version) returns (id: Option<int>)
      ensures id == FirstMatch(versions, v)
      ensures if id.Some? then FirstHas(versions, v, id.value) else !Knows(versions, v)
    {
      FirstMatchIsFirst(versions, v);
      hide FirstHas;
      hide Knows;
      for i := 0 to |versions|
        invariant FirstMatch(versions, v) == FirstMatch(versions[i..], v)
      {
        if versions[i].version == v {
          return Some(versions[i].id);
        }
        assert versions[i..][1..] == versions[i + 1..];
      }
      return None;
    }

    /**
     The ATC is asked to pin or unpin at most once, as the last call, exactly if its pin is
     wrong, and for what the spec wants. On success it then has the desired pin exactly if it
     did not ignore that call; an ignored call is made again. The attempt fails exactly if a
     call other than the comment's fails or a version to pin is unknown.
     */
    method SyncPin(resource: Resource) returns (ok: bool)
      requires atc.Valid()
      modifies atc`calls, atc`pin, atc`comment, resource`pinned, resource`pinnedVersionID
      ensures old(atc.calls) <= atc.calls
      ensures PinOutcome(atc.listing, resource.pinnedVersion, old(atc.pin), atc.calls[|old(atc.calls)|..], ok, atc.pin)
      ensures CommentOutcome(resource.pinnedVersion, resource.pinComment, old(atc.comment),
                             atc.calls[|old(atc.calls)|..], atc.comment)
      ensures !ok ==> resource.pinned == old(resource.pinned)
                      && resource.pinnedVersionID == old(resource.pinnedVersionID)
      ensures ok ==> var v := resource.pinnedVersion;
                && resource.pinned == Some(|v| != 0)
                && resource.pinnedVersionID ==
                   if |v| == 0 then None
                   else if Synced(old(atc.pin), v) then old(resource.pinnedVersionID)
                   else Some(ToInt32(FirstMatch(atc.listing(v), v).value))
      ensures var v := resource.pinnedVersion;
              ok && |v| != 0 && old(atc.pin) != Some(v) ==>
                exists id :: FirstHas(atc.listing(v), v, id) && resource.pinnedVersionID == Some(ToInt32(id))
                             && WasAsked(atc.calls[|old(atc.calls)|..], PinVersion(id))
    {
      hide FirstHas;
      hide WasAsked;
      hide PinOutcome;
      hide CommentOutcome;
      hide Preface;
      hide ChangesPin;
      hide Wanted;
      hide FirstMatch;
      hide ToInt32;
      ghost var before, pin, listing := atc.calls, atc.pin, atc.listing;
      var desired := resource.pinnedVersion;
      var found, reached, pinned, pinComment := atc.Resource();
      ghost var get := Call(GetResource, reached, found);
      assert atc.calls == before + [get];
      if !reached || !found {
        ResourceFails(listing, desired, pin, get);
        CommentNotSent(desired, resource.pinComment, atc.comment, get);
        return false;
      }
      PrefaceStarts(get);
      var actual := if pinned.Some? then pinned.value else map[];
      if |desired| == 0 {
        CommentNotSent(desired, resource.pinComment, atc.comment, get);
        if |actual| > 0 {
          var done, answered := atc.UnpinResource();
          UnpinIsAsked(listing, desired, pin, [get], Call(Unpin, answered, done));
          CommentStays(desired, resource.pinComment, atc.comment, [get], atc.comment, [Call(Unpin, answered, done)]);
          assert atc.calls == before + ([get] + [Call(Unpin, answered, done)]);
          if !answered {
            return false;
          }
        } else {
          PinIsRight(listing, desired, pin, [get]);
        }
        resource.pinned := Some(false);
        resource.pinnedVersionID := None;
        return true;
      }
      ghost var before' := atc.calls;
      ok := ApplyPin(resource, pinned, pinComment, get);
      assert atc.calls[|before|..] == [get] + atc.calls[|before'|..];
      if ok && pin != Some(desired) {
        PinInListing(listing, desired, pin, atc.calls[|before|..], true, atc.pin);
      }
    }

    /** The part of syncPin for a version to be pinned, given the ATC's pin and comment. */
    method ApplyPin(resource: Resource, pinned: Option<Version>, pinComment: string, ghost get: Call) returns (ok: bool)
      requires atc.Valid() && |resource.pinnedVersion| != 0 && pinned == atc.pin && pinComment == atc.comment
      requires get.request.GetResource? && !Failed(get)
      modifies atc`calls, atc`pin, atc`comment, resource`pinned, resource`pinnedVersionID
      ensures old(atc.calls) <= atc.calls
      ensures PinOutcome(atc.listing, resource.pinnedVersion, pinned, [get] + atc.calls[|old(atc.calls)|..],
                         ok, atc.pin)
      ensures CommentOutcome(resource.pinnedVersion, resource.pinComment, pinComment,
                             [get] + atc.calls[|old(atc.calls)|..], atc.comment)
      ensures !ok ==> resource.pinned == old(resource.pinned)
                      && resource.pinnedVersionID == old(resource.pinnedVersionID)
      ensures ok ==> var v := resource.pinnedVersion;
                && resource.pinned == Some(true)
                && resource.pinnedVersionID == if Synced(pinned, v) then old(resource.pinnedVersionID)
                                               else Some(ToInt32(FirstMatch(atc.listing(v), v).value))
    {
      hide PinOutcome;
      hide CommentOutcome;
      hide Preface;
      hide ChangesPin;
      hide Wanted;
      hide Failed;
      hide FirstMatch;
      hide ToInt32;
      ghost var before, listing, made := atc.calls, atc.listing, [get];
      var desired, text := resource.pinnedVersion, resource.pinComment;
      PrefaceStarts(get);
      if text != "" && pinComment != text {
        var done, answered := atc.SetPinComment(text);
        made := CommentSent(desired, text, pinComment, get, Call(SetComment(text), answered, done));
      } else {
        CommentNotSent(desired, text, pinComment, get);
      }
      ghost var sent := atc.calls[|before|..];
      assert made == [get] + sent;
      if pinned == Some(desired) {
        PinIsRight(listing, desired, pinned, made);
        resource.pinned := Some(true);
        return true;
      }
      ghost var before' := atc.calls;
      var id := LookUpAndPin(desired);
      ghost var rest := atc.calls[|before'|..];
      assert [get] + atc.calls[|before|..] == made + rest;
      PinIsLookedUp(listing, desired, pinned, made, rest);
      CommentStays(desired, text, pinComment, made, atc.comment, rest);
      if id.None? {
        return false;
      }
      resource.pinned := Some(true);
      resource.pinnedVersionID := Some(ToInt32(id.value));
      return true;
    }

    /** The end of syncPin: looks up the version and pins the ID found. */
    method LookUpAndPin(desired: Version) returns (id: Option<int>)
      requires atc.Valid() && |desired| != 0
      modifies atc`calls, atc`pin
      ensures old(atc.calls) <= atc.calls
      ensures var rest, first := atc.calls[|old(atc.calls)|..], FirstMatch(atc.listing(desired), desired);
              && LookedUp(atc.listing, desired, rest)
              && id == (if |rest| == 2 && rest[1].ok then first else None)
              && atc.pin == if |rest| == 2 && rest[1].done then Some(desired) else old(atc.pin)
    {
      var known, listed, versions := atc.ResourceVersions(desired);
      if !listed || !known {
        return None;
      }
      id := FindVersion(versions, desired);
      if id.None? {
        return None;
      }
      var _, answered := atc.PinResourceVersion(id.value);
      if !answered {
        return None;
      }
    }

    /**
     The attempt succeeds exactly if every listed version is known and no call fails; nothing
     is asked after a failed call. A success has asked to disable exactly the desired untracked
     versions and to enable exactly the tracked ones no longer desired. If the ATC ignored none
     of these calls it leaves exactly the intended set; otherwise that but for the ignored ones,
     so the intended set exactly if those made no difference. The tracked list is then the
     desired set in ascending order, whatever the order of map iteration. A failed attempt
     leaves the tracked list alone and the disabled set in between.
     */
    method SyncDisabledVersions(resource: Resource) returns (ok: bool)
      modifies atc`calls, atc`disabled, resource`disabledVersionIDs
      ensures old(atc.calls) <= atc.calls
      ensures AttemptOutcome(DesiredIDs(atc.listing, resource.disabledVersions),
                             SetOf(old(resource.disabledVersionIDs)), old(atc.disabled),
                             atc.calls[|old(atc.calls)|..], ok, atc.disabled)
      ensures ok ==> BeginsAndEndsWith(Requests(atc.calls[|old(atc.calls)|..]), Lookups(resource.disabledVersions),
                                       EnableRequests(old(resource.disabledVersionIDs),
                                                      DesiredIDs(atc.listing, resource.disabledVersions).value))
      ensures ok ==> StrictlyAscending(resource.disabledVersionIDs)
                     && Some(SetOf(resource.disabledVersionIDs)) == DesiredIDs(atc.listing, resource.disabledVersions)
      ensures !ok ==> resource.disabledVersionIDs == old(resource.disabledVersionIDs)
      ensures ok <==> AllKnown(atc.listing, resource.disabledVersions) && NoneFailed(atc.calls[|old(atc.calls)|..])
      ensures ok && AllFit(atc.listing, resource.disabledVersions) ==>
                SyncedTo(atc.listing, resource.disabledVersions, old(resource.disabledVersionIDs),
                         atc.calls[|old(atc.calls)|..], resource.disabledVersionIDs)
    {
      NothingAsked();
      hide SyncedTo;
      hide AllKnown;
      hide AllFit;
      hide AttemptOutcome;
      hide EndsAtFailure;
      hide NoneFailed;
      hide Requests;
      hide Distinct;
      hide Disables;
      hide Disabled;
      hide Enables;
      hide Enabled;
      hide Lookups;
      hide EnableRequests;
      hide BeginsAndEndsWith;
      hide DesiredIDs;
      hide StrictlyAscending;
      ghost var before, D := atc.calls, atc.disabled;
      var desired := Resolve(resource.disabledVersions);
      ghost var lookups := atc.calls[|before|..];
      ghost var T := SetOf(resource.disabledVersionIDs);
      if desired.None? {
        OutcomeOfLookups(DesiredIDs(atc.listing, resource.disabledVersions), T, D, lookups);
        OutcomeInListing(atc.listing, resource.disabledVersions, T, D, lookups, false, D);
        return false;
      }
      var desiredIDs := desired.value;
      var tracked := resource.disabledVersionIDs;
      var trackedSet := {};
      for i := 0 to |tracked|
        invariant trackedSet == SetOf(tracked[..i])
      {
        assert tracked[..i + 1] == tracked[..i] + [tracked[i]];
        trackedSet := trackedSet + {tracked[i]};
      }
      assert tracked[..|tracked|] == tracked;

      ghost var before' := atc.calls;
      ok := DisableNew(desiredIDs, trackedSet);
      ghost var disables := atc.calls[|before'|..];
      JoinedEnd(lookups, disables, ok);
      assert atc.calls[|before|..] == lookups + disables;
      if !ok {
        assert lookups + disables + [] == lookups + disables;
        assert atc.disabled == (D + Disabled(disables)) - Enabled([]);
        OutcomeOf(desiredIDs, T, D, lookups, disables, [], false);
        OutcomeInListing(atc.listing, resource.disabledVersions, T, D, lookups + disables, false, atc.disabled);
        return false;
      }
      ghost var before'' := atc.calls;
      ok := EnableDropped(desiredIDs, tracked);
      ghost var enables := atc.calls[|before''|..];
      JoinedEnd(lookups + disables, enables, ok);
      assert atc.calls[|before|..] == lookups + disables + enables;
      OutcomeOf(desiredIDs, T, D, lookups, disables, enables, ok);
      OutcomeInListing(atc.listing, resource.disabledVersions, T, D, atc.calls[|before|..], ok, atc.disabled);
      if !ok {
        return false;
      }
      JoinedRequests(lookups, disables, enables);
      var newTracked := SortedIDs(desiredIDs);
      resource.disabledVersionIDs := newTracked;
      SuccessInListing(atc.listing, resource.disabledVersions, tracked, D, atc.calls[|before|..], atc.disabled,
                       newTracked);
    }

    /** Looks up the listed versions in order and resolves them to their IDs; nothing is changed. */
    method Resolve(spec: seq<Version>) returns (ids: Option<set<int>>)
      modifies atc`calls
      ensures old(atc.calls) <= atc.calls
      ensures var made := atc.calls[|old(atc.calls)|..];
              && Requests(made) <= Lookups(spec) && (forall c :: c in made ==> c.request.ListVersions?)
              && (ids.Some? ==> ids == DesiredIDs(atc.listing, spec)
                                && NoneFailed(made) && Requests(made) == Lookups(spec))
              && (ids.None? ==> EndsAtFailure(made, false)
                                || (NoneFailed(made) && DesiredIDs(atc.listing, spec).None?))
    {
      ghost var before := atc.calls;
      var desiredIDs := {};
      for i := 0 to |spec|
        invariant DesiredIDs(atc.listing, spec[..i]) == Some(desiredIDs)
        invariant before <= atc.calls && NoneFailed(atc.calls[|before|..])
        invariant forall c :: c in atc.calls[|before|..] ==> c.request.ListVersions?
        invariant Requests(atc.calls[|before|..]) == Lookups(spec[..i])
      {
        var v := spec[i];
        assert spec[..i + 1][..i] == spec[..i];
        if |v| != 0 {
          ghost var calls := atc.calls;
          var known, listed, versions := atc.ResourceVersions(v);
          OneMoreCall(before, calls, Call(ListVersions(v), listed, known));
          LookupsGrow(spec, i + 1);
          if !listed || !known {
            return None;
          }
          var id := FindVersion(versions, v);
          if id.None? {
            UnknownStaysUnknown(atc.listing, spec, i + 1);
            return None;
          }
          desiredIDs := desiredIDs + {ToInt32(id.value)};
        }
      }
      assert spec[..|spec|] == spec;
      return Some(desiredIDs);
    }

    /** Asks once for each desired version not yet tracked, in any order, up to the first failure. */
    method DisableNew(desiredIDs: set<int>, tracked: set<int>) returns (ok: bool)
      modifies atc`calls, atc`disabled
      ensures old(atc.calls) <= atc.calls
      ensures var made := atc.calls[|old(atc.calls)|..];
              && (forall c :: c in made ==> c.request.DisableVersion?)
              && EndsAtFailure(made, ok) && Distinct(made)
              && Disables(made) <= desiredIDs - tracked
              && (ok ==> Disables(made) == desiredIDs - tracked)
              && atc.disabled == old(atc.disabled) + Disabled(made)
    {
      NothingAsked();
      hide NoneFailed;
      hide Distinct;
      hide Disables;
      hide Disabled;
      ghost var before := atc.calls;
      assert atc.calls[|before|..] == [];
      var todo := desiredIDs;
      while todo != {}
        invariant todo <= desiredIDs && before <= atc.calls
        invariant var made := atc.calls[|before|..];
                  && (forall c :: c in made ==> c.request.DisableVersion?)
                  && NoneFailed(made) && Distinct(made)
                  && Disables(made) == desiredIDs - todo - tracked
                  && atc.disabled == old(atc.disabled) + Disabled(made)
        decreases todo
      {
        var id := AnyKey(todo);
        todo := todo - {id};
        if id !in tracked {
          ghost var calls := atc.calls;
          var done, answered := atc.DisableResourceVersion(id);
          OneMoreCall(before, calls, Call(DisableVersion(id), answered, done));
          OneMoreDisable(calls[|before|..], Call(DisableVersion(id), answered, done));
          if !answered {
            return false;
          }
        }
      }
      return true;
    }

    /** Asks for each tracked version no longer desired, in list order, up to the first failure. */
    method EnableDropped(desiredIDs: set<int>, tracked: seq<int>) returns (ok: bool)
      modifies atc`calls, atc`disabled
      ensures old(atc.calls) <= atc.calls
      ensures var made := atc.calls[|old(atc.calls)|..];
              && Requests(made) <= EnableRequests(tracked, desiredIDs)
              && (forall c :: c in made ==> c.request.EnableVersion?)
              && EndsAtFailure(made, ok)
              && (ok ==> Requests(made) == EnableRequests(tracked, desiredIDs))
              && Enables(made) <= SetOf(tracked) - desiredIDs
              && (ok ==> Enables(made) == SetOf(tracked) - desiredIDs)
              && atc.disabled == old(atc.disabled) - Enabled(made)
    {
      NothingAsked();
      assert SetOf(tracked[..0]) == {} && EnableRequests(tracked[..0], desiredIDs) == [];
      hide Requests;
      hide NoneFailed;
      hide Enables;
      hide Enabled;
      hide EnableRequests;
      hide SetOf;
      ghost var before := atc.calls;
      assert atc.calls[|before|..] == [];
      for i := 0 to |tracked|
        invariant before <= atc.calls
        invariant var made := atc.calls[|before|..];
                  && Requests(made) == EnableRequests(tracked[..i], desiredIDs)
                  && NoneFailed(made) && (forall c :: c in made ==> c.request.EnableVersion?)
                  && Enables(made) == SetOf(tracked[..i]) - desiredIDs
                  && atc.disabled == old(atc.disabled) - Enabled(made)
      {
        var id := tracked[i];
        EnableRequestsStep(tracked, desiredIDs, i);
        if id !in desiredIDs {
          ghost var calls := atc.calls;
          var done, answered := atc.EnableResourceVersion(id);
          OneMoreCall(before, calls, Call(EnableVersion(id), answered, done));
          OneMoreEnable(calls[|before|..], Call(EnableVersion(id), answered, done));
          if !answered {
            return false;
          }
        }
      }
      assert tracked[..|tracked|] == tracked;
      return true;
    }

    /** Collects a set in any order and sorts it. */
    method SortedIDs(ids: set<int>) returns (sorted: seq<int>)
      ensures StrictlyAscending(sorted) && SetOf(sorted) == ids
    {
      sorted := [];
      var todo := ids;
      while todo != {}
        invariant StrictlyAscending(sorted) && SetOf(sorted) + todo == ids && SetOf(sorted) !! todo
        decreases todo
      {
        hide StrictlyAscending;
        var id := AnyKey(todo);
        todo := todo - {id};
        assert id !in SetOf(sorted);
        sorted := Insert(sorted, id);
      }
    }

    method Insert(s: seq<int>, id: int) returns (r: seq<int>)
      requires StrictlyAscending(s) && id !in s
      ensures StrictlyAscending(r) && SetOf(r) == SetOf(s) + {id}
    {
      var j := |s|;
      while 0 < j && s[j - 1] > id
        invariant 0 <= j <= |s|
        invariant forall k :: j <= k < |s| ==> s[k] > id
      {
        j := j - 1;
      }
      r := s[..j] + [id] + s[j..];
      SmallerBefore(s, id, j);
      LargerAfter(s, id, j);
      assert s == s[..j] + s[j..];
      hide StrictlyAscending;
      hide SetOf;
      InsertedBetween(s[..j], id, s[j..]);
    }
  }

  lemma {:induction false} SmallerBefore(s: seq<int>, id: int, j: nat)
    requires StrictlyAscending(s) && id !in s && j <= |s| && (0 < j ==> s[j - 1] <= id)
    ensures StrictlyAscending(s[..j]) && forall x :: x in s[..j] ==> x < id
  {
    forall x | x in s[..j] ensures x < id {
      var k :| 0 <= k < j && s[k] == x;
      assert k < j - 1 ==> s[k] < s[j - 1];
      assert x in s;
    }
  }

  lemma {:induction false} LargerAfter(s: seq<int>, id: int, j: nat)
    requires StrictlyAscending(s) && j <= |s| && forall k :: j <= k < |s| ==> s[k] > id
    ensures StrictlyAscending(s[j..]) && forall x :: x in s[j..] ==> id < x
  {
  }

  lemma {:induction false} InsertedBetween(a: seq<int>, id: int, b: seq<int>)
    requires StrictlyAscending(a) && StrictlyAscending(b)
    requires forall x :: x in a ==> x < id
    requires forall x :: x in b ==> id < x
    ensures StrictlyAscending(a + [id] + b) && SetOf(a + [id] + b) == SetOf(a + b) + {id}
  {
    ConcatElements(a + [id], b);
    ConcatElements(a, [id]);
    ConcatElements(a, b);
    ConcatAscending(a, [id]);
    ConcatAscending(a + [id], b);
  }

  lemma {:induction false} ConcatElements(a: seq<int>, b: seq<int>)
    ensures SetOf(a + b) == SetOf(a) + SetOf(b)
  {
    assert forall x :: x in a + b <==> x in a || x in b;
  }

  lemma {:induction false} ConcatAscending(a: seq<int>, b: seq<int>)
    requires StrictlyAscending(a) && StrictlyAscending(b)
    requires forall x, y :: x in a && y in b ==> x < y
    ensures StrictlyAscending(a + b)
  {
    forall i, j | 0 <= i < j < |a + b| ensures (a + b)[i] < (a + b)[j] {
      if i < |a| <= j {
        assert a[i] in a && b[j - |a|] in b;
      }
    }
  }
}
