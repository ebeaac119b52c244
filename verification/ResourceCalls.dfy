/**
 The calls one reconcile makes to the ATC about a resource and the replies it gets, and what
 they say about the pin and the disabled set that it leaves.
 */
module ResourceCalls {
  import opened Options
  import opened DisabledVersions

  /** What the operator asks the ATC about the resource. */
  datatype Request =
    | GetResource
    | ListVersions(version: Version)
    | DisableVersion(id: int)
    | EnableVersion(id: int)
    | PinVersion(id: int)
    | Unpin
    | SetComment(text: string)

  /**
   A call and its reply: whether it came without an error, and the boolean beside the error.
   For a lookup `done` says that the ATC knows the resource, for a change that it was applied.
   A change without an error and without effect was ignored; one with an error may have been
   applied all the same.
   */
  datatype Call = Call(request: Request, ok: bool, done: bool)

  // ---------------------------------------------------------------- what was asked and answered

  /** An error, or a lookup of something the ATC does not know. */
  predicate Failed(c: Call) {
    !c.ok || ((c.request.GetResource? || c.request.ListVersions?) && !c.done)
  }

  predicate NoneFailed(calls: seq<Call>) {
    forall c :: c in calls ==> !Failed(c)
  }

  /** No call failed, or only the last one did. */
  predicate EndsAtFailure(calls: seq<Call>, ok: bool) {
    if ok then NoneFailed(calls)
    else calls != [] && NoneFailed(calls[..|calls| - 1]) && Failed(calls[|calls| - 1])
  }

  function Requests(calls: seq<Call>): seq<Request> {
    seq(|calls|, i requires 0 <= i < |calls| => calls[i].request)
  }

  /** The versions the ATC was asked to disable, and those for which it did. */
  function Disables(calls: seq<Call>): set<int> {
    set c | c in calls && c.request.DisableVersion? :: c.request.id
  }

  function Disabled(calls: seq<Call>): set<int> {
    set c | c in calls && c.request.DisableVersion? && c.done :: c.request.id
  }

  /** The versions the ATC was asked to enable, and those for which it did. */
  function Enables(calls: seq<Call>): set<int> {
    set c | c in calls && c.request.EnableVersion? :: c.request.id
  }

  function Enabled(calls: seq<Call>): set<int> {
    set c | c in calls && c.request.EnableVersion? && c.done :: c.request.id
  }

  /** Lookups come first, then disable calls, then enable calls. */
  function Rank(r: Request): nat {
    match r
    case GetResource => 0
    case ListVersions(_) => 0
    case DisableVersion(_) => 1
    case _ => 2
  }

  predicate InOrder(calls: seq<Call>) {
    forall i, j :: 0 <= i < j < |calls| ==> Rank(calls[i].request) <= Rank(calls[j].request)
  }

  predicate Distinct(calls: seq<Call>) {
    forall i, j :: 0 <= i < j < |calls| ==> calls[i].request != calls[j].request
  }

  /** One lookup for each version of the spec that is not empty. */
  function Lookups(spec: seq<Version>): seq<Request> {
    if spec == [] then []
    else
      var v := spec[|spec| - 1];
      Lookups(spec[..|spec| - 1]) + if |v| == 0 then [] else [ListVersions(v)]
  }

  /** One enable call for each tracked ID that is no longer desired. */
  function EnableRequests(tracked: seq<int>, desired: set<int>): seq<Request> {
    if tracked == [] then []
    else
      var id := tracked[|tracked| - 1];
      EnableRequests(tracked[..|tracked| - 1], desired) + if id in desired then [] else [EnableVersion(id)]
  }

  lemma {:induction false} NothingAsked()
    ensures NoneFailed([]) && Distinct([]) && Requests([]) == []
    ensures Disables([]) == Disabled([]) == Enables([]) == Enabled([]) == {}
  {
  }

  lemma {:induction false} FailureShows(calls: seq<Call>)
    requires EndsAtFailure(calls, false)
    ensures !NoneFailed(calls)
  {
    assert calls[|calls| - 1] in calls;
  }

  /** One more call since `before`. */
  lemma {:induction false} OneMoreCall(before: seq<Call>, calls: seq<Call>, c: Call)
    requires before <= calls
    ensures before <= calls + [c] && (calls + [c])[|before|..] == calls[|before|..] + [c]
    ensures Requests(calls[|before|..] + [c]) == Requests(calls[|before|..]) + [c.request]
    ensures NoneFailed(calls[|before|..]) ==> EndsAtFailure(calls[|before|..] + [c], !Failed(c))
  {
    var made := calls[|before|..];
    assert (made + [c])[..|made|] == made;
  }

  lemma {:induction false} JoinedCalls(a: seq<Call>, b: seq<Call>)
    ensures Disables(a + b) == Disables(a) + Disables(b) && Disabled(a + b) == Disabled(a) + Disabled(b)
    ensures Enables(a + b) == Enables(a) + Enables(b) && Enabled(a + b) == Enabled(a) + Enabled(b)
  {
    assert forall c :: c in a + b <==> c in a || c in b;
  }

  predicate BeginsAndEndsWith(all: seq<Request>, first: seq<Request>, last: seq<Request>) {
    |first| + |last| <= |all| && all[..|first|] == first && all[|all| - |last|..] == last
  }

  lemma {:induction false} JoinedRequests(a: seq<Call>, b: seq<Call>, c: seq<Call>)
    ensures BeginsAndEndsWith(Requests(a + b + c), Requests(a), Requests(c))
  {
  }

  lemma {:induction false} JoinedEnd(a: seq<Call>, b: seq<Call>, ok: bool)
    requires NoneFailed(a) && EndsAtFailure(b, ok)
    ensures EndsAtFailure(a + b, ok)
  {
    if !ok {
      assert (a + b)[..|a + b| - 1] == a + b[..|b| - 1];
    }
  }

  lemma {:induction false} JoinedOrder(a: seq<Call>, b: seq<Call>)
    requires InOrder(a) && InOrder(b)
    requires forall c, d :: c in a && d in b ==> Rank(c.request) <= Rank(d.request)
    ensures InOrder(a + b)
  {
    forall i, j | 0 <= i < j < |a + b| ensures Rank((a + b)[i].request) <= Rank((a + b)[j].request) {
      if i < |a| <= j {
        assert a[i] in a && b[j - |a|] in b;
      }
    }
  }

  lemma {:induction false} OneMoreDisable(made: seq<Call>, c: Call)
    requires c.request.DisableVersion? && forall d :: d in made ==> d.request.DisableVersion?
    ensures forall d :: d in made + [c] ==> d.request.DisableVersion?
    ensures Disables(made + [c]) == Disables(made) + {c.request.id}
    ensures Disabled(made + [c]) == if c.done then Disabled(made) + {c.request.id} else Disabled(made)
    ensures Distinct(made) && c.request.id !in Disables(made) ==> Distinct(made + [c])
  {
    assert forall d :: d in made + [c] <==> d in made || d == c;
    assert forall d :: d in made ==> d.request.id in Disables(made);
  }

  lemma {:induction false} OneMoreEnable(made: seq<Call>, c: Call)
    requires c.request.EnableVersion? && forall d :: d in made ==> d.request.EnableVersion?
    ensures forall d :: d in made + [c] ==> d.request.EnableVersion?
    ensures Enables(made + [c]) == Enables(made) + {c.request.id}
    ensures Enabled(made + [c]) == if c.done then Enabled(made) + {c.request.id} else Enabled(made)
  {
    assert forall d :: d in made + [c] <==> d in made || d == c;
  }

  lemma {:induction false} AllDone(made: seq<Call>)
    requires forall c :: c in made ==> c.done
    ensures Disables(made) == Disabled(made) && Enables(made) == Enabled(made)
  {
  }

  lemma {:induction false} DoneIsAsked(disables: seq<Call>, enables: seq<Call>)
    ensures Disabled(disables) <= Disables(disables) && Enabled(enables) <= Enables(enables)
  {
  }

  lemma {:induction false} InPhases(lookups: seq<Call>, disables: seq<Call>, enables: seq<Call>)
    requires forall c :: c in lookups ==> c.request.ListVersions?
    requires forall c :: c in disables ==> c.request.DisableVersion?
    requires forall c :: c in enables ==> c.request.EnableVersion?
    ensures InOrder(lookups + disables + enables)
  {
    JoinedOrder(lookups, disables);
    assert InOrder(enables);
    hide InOrder;
    assert forall c :: c in lookups + disables ==> Rank(c.request) <= 1;
    assert forall c :: c in enables ==> Rank(c.request) == 2;
    hide Rank;
    JoinedOrder(lookups + disables, enables);
  }

  lemma {:induction false} PhaseSets(lookups: seq<Call>, disables: seq<Call>, enables: seq<Call>)
    requires forall c :: c in lookups ==> c.request.ListVersions?
    requires forall c :: c in disables ==> c.request.DisableVersion?
    requires forall c :: c in enables ==> c.request.EnableVersion?
    ensures var made := lookups + disables + enables;
            && Disables(made) == Disables(disables) && Disabled(made) == Disabled(disables)
            && Enables(made) == Enables(enables) && Enabled(made) == Enabled(enables)
  {
    assert Disables(lookups) == Disabled(lookups) == Enables(lookups) == Enabled(lookups) == {};
    assert Enables(disables) == Enabled(disables) == Disables(enables) == Disabled(enables) == {};
    hide Disables;
    hide Disabled;
    hide Enables;
    hide Enabled;
    JoinedCalls(lookups + disables, enables);
    JoinedCalls(lookups, disables);
  }

  lemma {:induction false} LookupsGrow(spec: seq<Version>, i: nat)
    requires i <= |spec|
    ensures Lookups(spec[..i]) <= Lookups(spec)
  {
    if i == |spec| {
      assert spec[..i] == spec;
    } else {
      LookupsGrow(spec[..|spec| - 1], i);
      assert spec[..|spec| - 1][..i] == spec[..i];
    }
  }

  lemma {:induction false} UnknownStaysUnknown(listing: Version -> seq<Entry>, spec: seq<Version>, i: nat)
    requires i <= |spec| && DesiredIDs(listing, spec[..i]).None?
    ensures DesiredIDs(listing, spec).None?
  {
    if i == |spec| {
      assert spec[..i] == spec;
    } else {
      assert spec[..|spec| - 1][..i] == spec[..i];
      UnknownStaysUnknown(listing, spec[..|spec| - 1], i);
    }
  }

  lemma {:induction false} EnableRequestsGrow(tracked: seq<int>, desired: set<int>, i: nat)
    requires i <= |tracked|
    ensures EnableRequests(tracked[..i], desired) <= EnableRequests(tracked, desired)
  {
    if i == |tracked| {
      assert tracked[..i] == tracked;
    } else {
      EnableRequestsGrow(tracked[..|tracked| - 1], desired, i);
      assert tracked[..|tracked| - 1][..i] == tracked[..i];
    }
  }

  lemma {:induction false} EnableRequestsStep(tracked: seq<int>, desired: set<int>, i: nat)
    requires i < |tracked|
    ensures EnableRequests(tracked[..i + 1], desired) ==
            EnableRequests(tracked[..i], desired) + if tracked[i] in desired then [] else [EnableVersion(tracked[i])]
    ensures EnableRequests(tracked[..i + 1], desired) <= EnableRequests(tracked, desired)
    ensures SetOf(tracked[..i + 1]) == SetOf(tracked[..i]) + {tracked[i]} && SetOf(tracked[..i + 1]) <= SetOf(tracked)
  {
    EnableRequestsGrow(tracked, desired, i + 1);
    var upTo := tracked[..i + 1];
    assert upTo[..|upTo| - 1] == tracked[..i] && upTo == tracked[..i] + [tracked[i]];
  }

  // ---------------------------------------------------------------- outcomes

  /** The ATC's pin is what the spec asks for: that version, or none. */
  predicate Synced(pin: Option<Version>, desired: Version) {
    if |desired| == 0 then pin.None? || |pin.value| == 0 else pin == Some(desired)
  }

  predicate ChangesPin(r: Request) {
    r.PinVersion? || r.Unpin?
  }

  /** The call that brings about the pin the spec asks for. */
  predicate Wanted(listing: Version -> seq<Entry>, desired: Version, r: Request) {
    if |desired| == 0 then r.Unpin?
    else
      var id := FirstMatch(listing(desired), desired);
      id.Some? && r == PinVersion(id.value)
  }

  /**
   What the calls of one syncPin for version v say about its result and the pin that it leaves:
   the ATC is asked for the wanted pin as the last call or not at all, on success exactly if
   its pin was wrong.
   */
  ghost predicate PinOutcome(listing: Version -> seq<Entry>, v: Version, pin: Option<Version>, made: seq<Call>,
                             ok: bool, pin': Option<Version>) {
    && made != [] && made[0].request.GetResource?
    && var wrong, last := !Synced(pin, v), made[|made| - 1];
    && (ok <==> (forall i :: 0 <= i < |made| && Failed(made[i]) ==> made[i].request.SetComment?)
                && (wrong && |v| != 0 ==> FirstMatch(listing(v), v).Some?))
    && (forall i :: 0 <= i < |made| && ChangesPin(made[i].request) ==>
          i == |made| - 1 && wrong && Wanted(listing, v, made[i].request))
    && (ok && wrong ==> ChangesPin(last.request))
    && pin' == (if !ChangesPin(last.request) || !last.done then pin else if |v| == 0 then None else Some(v))
    && (ok ==> (Synced(pin', v) <==> !ChangesPin(last.request) || last.done))
    && (ok && (forall c :: c in made ==> c.done) ==> Synced(pin', v))
  }

  /** The comment is sent, as the second call, exactly if the version is to be pinned and the comment differs. */
  ghost predicate CommentOutcome(v: Version, text: string, comment: string, made: seq<Call>, comment': string) {
    && made != []
    && var sent := 1 < |made| && made[1].request.SetComment?;
    && (sent <==> !Failed(made[0]) && |v| != 0 && text != "" && comment != text)
    && (forall i :: 0 <= i < |made| && made[i].request.SetComment? ==> i == 1 && made[i] == made[1])
    && (sent ==> made[1].request == SetComment(text))
    && comment' == if sent && made[1].done then text else comment
  }

  /** Calls that do not end a syncPin. */
  predicate Preface(made: seq<Call>) {
    && made != [] && made[0].request.GetResource?
    && forall i :: 0 <= i < |made| ==>
         !ChangesPin(made[i].request) && (Failed(made[i]) ==> made[i].request.SetComment?)
  }

  lemma {:induction false} PrefaceGrows(made: seq<Call>, c: Call)
    requires Preface(made) && !ChangesPin(c.request) && (Failed(c) ==> c.request.SetComment?)
    ensures Preface(made + [c])
  {
  }

  lemma {:induction false} ResourceFails(listing: Version -> seq<Entry>, v: Version, pin: Option<Version>, c: Call)
    requires c.request.GetResource? && Failed(c)
    ensures PinOutcome(listing, v, pin, [c], false, pin)
  {
    assert Failed([c][0]);
  }

  lemma {:induction false} PinIsRight(listing: Version -> seq<Entry>, v: Version, pin: Option<Version>, made: seq<Call>)
    requires Preface(made) && Synced(pin, v)
    ensures PinOutcome(listing, v, pin, made, true, pin)
  {
  }

  lemma {:induction false} PinIsAsked(listing: Version -> seq<Entry>, v: Version, pin: Option<Version>,
      made: seq<Call>, c: Call)
    requires Preface(made) && !Synced(pin, v) && Wanted(listing, v, c.request)
    ensures PinOutcome(listing, v, pin, made + [c], c.ok,
                       if !c.done then pin else if |v| == 0 then None else Some(v))
  {
    assert (made + [c])[|made|] == c;
    assert c in made + [c];
  }

  /** A lookup of the version, and a pin call exactly if the lookup finds it. */
  predicate LookedUp(listing: Version -> seq<Entry>, v: Version, rest: seq<Call>) {
    && 1 <= |rest| <= 2 && rest[0].request == ListVersions(v)
    && var id := FirstMatch(listing(v), v);
    && (|rest| == 2 <==> !Failed(rest[0]) && id.Some?)
    && (|rest| == 2 ==> rest[1].request == PinVersion(id.value))
  }

  lemma {:induction false} UnpinIsAsked(listing: Version -> seq<Entry>, v: Version, pin: Option<Version>,
      made: seq<Call>, c: Call)
    requires Preface(made) && |v| == 0 && pin.Some? && |pin.value| > 0 && c.request.Unpin?
    ensures PinOutcome(listing, v, pin, made + [c], c.ok, if c.done then None else pin)
  {
    PinIsAsked(listing, v, pin, made, c);
  }

  lemma {:induction false} PinIsLookedUp(listing: Version -> seq<Entry>, v: Version, pin: Option<Version>,
      made: seq<Call>, rest: seq<Call>)
    requires Preface(made) && !Synced(pin, v) && |v| != 0 && LookedUp(listing, v, rest)
    ensures PinOutcome(listing, v, pin, made + rest, |rest| == 2 && rest[1].ok,
                       if |rest| == 2 && rest[1].done then Some(v) else pin)
  {
    if |rest| == 2 {
      PrefaceGrows(made, rest[0]);
      PinIsAsked(listing, v, pin, made + [rest[0]], rest[1]);
      assert made + [rest[0]] + [rest[1]] == made + rest;
    } else {
      assert (made + rest)[|made|] == rest[0];
    }
  }

  lemma {:induction false} PrefaceStarts(get: Call)
    requires get.request.GetResource? && !Failed(get)
    ensures Preface([get])
  {
  }

  lemma {:induction false} CommentNotSent(v: Version, text: string, comment: string, get: Call)
    requires get.request.GetResource? && (Failed(get) || |v| == 0 || text == "" || comment == text)
    ensures CommentOutcome(v, text, comment, [get], comment)
  {
  }

  lemma {:induction false} CommentSent(v: Version, text: string, comment: string, get: Call, c: Call)
    returns (made: seq<Call>)
    requires get.request.GetResource? && !Failed(get) && |v| != 0 && text != "" && comment != text
    requires c.request == SetComment(text)
    ensures made == [get, c] && Preface(made)
    ensures CommentOutcome(v, text, comment, made, if c.done then text else comment)
  {
    made := [get, c];
  }

  lemma {:induction false} CommentStays(v: Version, text: string, comment: string, made: seq<Call>, comment': string,
                                        rest: seq<Call>)
    requires CommentOutcome(v, text, comment, made, comment') && forall c :: c in rest ==> !c.request.SetComment?
    ensures CommentOutcome(v, text, comment, made + rest, comment')
  {
  }

  /**
   What the calls of an attempt for the wanted IDs (none if a listed version is unknown) and
   tracked IDs T say about its result and the set D' that it leaves.
   */
  ghost predicate AttemptOutcome(wanted: Option<set<int>>, T: set<int>, D: set<int>, made: seq<Call>, ok: bool,
                                 D': set<int>) {
    && (ok <==> wanted.Some? && NoneFailed(made))
    && (made != [] ==> NoneFailed(made[..|made| - 1])) && InOrder(made)
    && D' == (D + Disabled(made)) - Enabled(made)
    && match wanted
       case None => Disables(made) == Enables(made) == {}
       case Some(S) =>
         && Disables(made) <= S - T && Enables(made) <= T - S && Partial(D, S, T, D')
         && (ok ==> Disables(made) == S - T && Enables(made) == T - S)
         && (ok && (forall c :: c in made ==> c.done) ==> D' == After(D, S, T))
         && (ok ==>
               var M, N := Disables(made) - Disabled(made), Enables(made) - Enabled(made);
               D' == AfterIgnoring(D, S, T, M, N) && (D' == After(D, S, T) <==> M <= D && N !! D))
  }

  /** The outcome in terms of the lookups, disable calls and enable calls made. */
  lemma {:induction false} OutcomeOf(S: set<int>, T: set<int>, D: set<int>, lookups: seq<Call>, disables: seq<Call>,
                                     enables: seq<Call>, ok: bool)
    requires forall c :: c in lookups ==> c.request.ListVersions?
    requires forall c :: c in disables ==> c.request.DisableVersion?
    requires forall c :: c in enables ==> c.request.EnableVersion?
    requires Disables(disables) <= S - T && Enables(enables) <= T - S
    requires EndsAtFailure(lookups + disables + enables, ok)
    requires ok ==> Disables(disables) == S - T && Enables(enables) == T - S
    ensures AttemptOutcome(Some(S), T, D, lookups + disables + enables, ok, (D + Disabled(disables)) - Enabled(enables))
  {
    var made := lookups + disables + enables;
    InPhases(lookups, disables, enables);
    PhaseSets(lookups, disables, enables);
    hide InOrder;
    hide Disables;
    hide Disabled;
    hide Enables;
    hide Enabled;
    DoneIsAsked(disables, enables);
    if ok {
      IgnoredCallsMatterUnless(D, S, T, Disables(made) - Disabled(made), Enables(made) - Enabled(made));
      if forall c :: c in made ==> c.done {
        AllDone(made);
      }
    } else {
      FailureShows(made);
    }
  }

  lemma {:induction false} OutcomeOfLookups(wanted: Option<set<int>>, T: set<int>, D: set<int>, lookups: seq<Call>)
    requires forall c :: c in lookups ==> c.request.ListVersions?
    requires EndsAtFailure(lookups, false) || (NoneFailed(lookups) && wanted.None?)
    ensures AttemptOutcome(wanted, T, D, lookups, false, D)
  {
    if EndsAtFailure(lookups, false) {
      FailureShows(lookups);
    }
  }

  // ---------------------------------------------------------------- in terms of the listing

  predicate WasAsked(made: seq<Call>, r: Request) {
    exists c :: c in made && c.request == r
  }

  lemma {:induction false} AskedSets(made: seq<Call>)
    ensures forall id :: id in Disables(made) <==> WasAsked(made, DisableVersion(id))
    ensures forall id :: id in Enables(made) <==> WasAsked(made, EnableVersion(id))
  {
    forall id | WasAsked(made, DisableVersion(id)) ensures id in Disables(made) {
      var c :| c in made && c.request == DisableVersion(id);
    }
    forall id | WasAsked(made, EnableVersion(id)) ensures id in Enables(made) {
      var c :| c in made && c.request == EnableVersion(id);
    }
  }

  /**
   What a successful attempt asked for and tracks afterwards: the untracked ones of the listed
   IDs to be disabled, the tracked others to be enabled, the listed ones tracked.
   */
  ghost predicate SyncedTo(listing: Version -> seq<Entry>, spec: seq<Version>, tracked: seq<int>, made: seq<Call>,
                           tracked': seq<int>) {
    forall id ::
      && (WasAsked(made, DisableVersion(id)) <==> Listed(listing, spec, id) && id !in tracked)
      && (WasAsked(made, EnableVersion(id)) <==> id in tracked && !Listed(listing, spec, id))
      && (id in tracked' <==> Listed(listing, spec, id))
  }

  /** A successful attempt knows every listed version, and with IDs of 32 bits it is synced to the listing. */
  lemma {:induction false} SuccessInListing(listing: Version -> seq<Entry>, spec: seq<Version>, tracked: seq<int>,
      D: set<int>, made: seq<Call>, D': set<int>, tracked': seq<int>)
    requires AttemptOutcome(DesiredIDs(listing, spec), SetOf(tracked), D, made, true, D')
    requires Some(SetOf(tracked')) == DesiredIDs(listing, spec)
    ensures AllKnown(listing, spec)
    ensures AllFit(listing, spec) ==> SyncedTo(listing, spec, tracked, made, tracked')
  {
    hide Disables;
    hide Enables;
    DesiredAreListed(listing, spec);
    AskedSets(made);
    var S := DesiredIDs(listing, spec).value;
    hide AllFit;
    hide AllKnown;
    hide Listed;
    hide DesiredIDs;
    hide WasAsked;
    assert forall id :: id in S <==> id in tracked';
  }

  /**
   An attempt succeeds exactly if the ATC knows every listed version and no call fails; with an
   unknown one, nothing is asked but lookups.
   */
  lemma {:induction false} OutcomeInListing(listing: Version -> seq<Entry>, spec: seq<Version>, T: set<int>,
      D: set<int>, made: seq<Call>, ok: bool, D': set<int>)
    requires AttemptOutcome(DesiredIDs(listing, spec), T, D, made, ok, D')
    ensures ok <==> AllKnown(listing, spec) && NoneFailed(made)
    ensures !AllKnown(listing, spec) ==>
              forall id :: !WasAsked(made, DisableVersion(id)) && !WasAsked(made, EnableVersion(id))
  {
    hide Disables;
    hide Enables;
    DesiredAreListed(listing, spec);
    AskedSets(made);
  }

  /**
   A syncPin asks to unpin only if no version is wanted and one is pinned, and to pin only the
   first entry with the wanted version, if that one is not pinned; a successful one does ask.
   */
  lemma {:induction false} PinInListing(listing: Version -> seq<Entry>, v: Version, pin: Option<Version>,
      made: seq<Call>, ok: bool, pin': Option<Version>)
    requires PinOutcome(listing, v, pin, made, ok, pin')
    ensures WasAsked(made, Unpin) ==> |v| == 0 && pin.Some? && |pin.value| != 0
    ensures forall id :: WasAsked(made, PinVersion(id)) ==> |v| != 0 && pin != Some(v) && FirstHas(listing(v), v, id)
    ensures ok && |v| == 0 && pin.Some? && |pin.value| != 0 ==> WasAsked(made, Unpin)
    ensures ok && |v| != 0 && pin != Some(v) ==>
              var id := FirstMatch(listing(v), v);
              id.Some? && FirstHas(listing(v), v, id.value) && WasAsked(made, PinVersion(id.value))
  {
    FirstMatchIsFirst(listing(v), v);
    hide FirstMatch;
    hide FirstHas;
    forall c | c in made && ChangesPin(c.request) ensures Wanted(listing, v, c.request) && !Synced(pin, v) {
      var i :| 0 <= i < |made| && made[i] == c;
    }
    assert made[|made| - 1] in made;
  }

  // ---------------------------------------------------------------- runs

  /**
   After any stopped attempts and outsiders, a success leaves what a first success would have
   left exactly if the calls that the ATC ignored had nothing to do. If it ignored none, that
   is (start minus tracked) union desired exactly if no tracked and still desired version had
   been enabled by others.
   */
  lemma {:induction false} SuccessAfterRetries(D: set<int>, S: set<int>, T: set<int>, es: seq<Event>, made: seq<Call>,
                                               D': set<int>)
    requires Legal(D, S, T, es) && AttemptOutcome(Some(S), T, Final(D, es), made, true, D')
    ensures D' == After(OutsideOnly(D, es), S, T) <==>
            && Disables(made) - Disabled(made) <= Final(D, es)
            && (Enables(made) - Enabled(made)) !! Final(D, es)
    ensures (forall c :: c in made ==> c.done) ==>
              && D' == After(OutsideOnly(D, es), S, T)
              && (D' == (OutsideOnly(D, es) - T) + S <==> S * T <= D)
  {
    hide Disables;
    hide Disabled;
    hide Enables;
    hide Enabled;
    hide InOrder;
    RetriesConverge(D, S, T, es);
  }

  /** A successful syncPin repeated at once calls for a change of the pin exactly if the first one's was ignored. */
  lemma {:induction false} PinIsRepeatedIff(listing: Version -> seq<Entry>, v: Version, pin: Option<Version>,
      made: seq<Call>, pin': Option<Version>, made': seq<Call>, pin'': Option<Version>)
    requires PinOutcome(listing, v, pin, made, true, pin') && PinOutcome(listing, v, pin', made', true, pin'')
    ensures (exists c :: c in made' && ChangesPin(c.request)) <==>
            exists c :: c in made && ChangesPin(c.request) && !c.done
  {
    var last, last' := made[|made| - 1], made'[|made'| - 1];
    assert last in made && last' in made';
    if c :| c in made' && ChangesPin(c.request) {
      var i :| 0 <= i < |made'| && made'[i] == c;
      assert !Synced(pin', v);
    }
    if c :| c in made && ChangesPin(c.request) && !c.done {
      var i :| 0 <= i < |made| && made[i] == c;
      assert !Synced(pin', v);
    }
  }
}
