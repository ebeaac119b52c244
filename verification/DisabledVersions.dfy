/**
 Reconciling a set of disabled versions with a tracked list: what one attempt does to
 the ATC's set, and what runs of attempts, outsiders and spec changes add up to.
 */
module DisabledVersions {
  import opened Options

  type Version = map<string, string>

  /** One row of the ATC's version listing. */
  datatype Entry = Entry(id: int, version: Version)

  /** Go's conversion to int32: the low 32 bits, as a signed number. */
  function ToInt32(v: int): (r: int)
    ensures Fits(r) && (v - r) % 0x1_0000_0000 == 0
    ensures Fits(v) ==> r == v
  {
    (v + 0x8000_0000) % 0x1_0000_0000 - 0x8000_0000
  }

  predicate Fits(v: int) {
    -0x8000_0000 <= v < 0x8000_0000
  }

  function FirstMatch(entries: seq<Entry>, v: Version): Option<int> {
    if entries == [] then None
    else if entries[0].version == v then Some(entries[0].id)
    else FirstMatch(entries[1..], v)
  }

  /** The IDs the spec lists, if the ATC knows every listed version. */
  function DesiredIDs(listing: Version -> seq<Entry>, spec: seq<Version>): Option<set<int>> {
    if spec == [] then Some({})
    else
      var v := spec[|spec| - 1];
      var rest := DesiredIDs(listing, spec[..|spec| - 1]);
      if |v| == 0 || rest.None? then rest
      else match FirstMatch(listing(v), v)
           case None => None
           case Some(id) => Some(rest.value + {ToInt32(id)})
  }

  /** The first entry with exactly this version has this ID. */
  predicate FirstHas(entries: seq<Entry>, v: Version, id: int) {
    exists k :: 0 <= k < |entries| && entries[k] == Entry(id, v) && forall j :: 0 <= j < k ==> entries[j].version != v
  }

  predicate Knows(entries: seq<Entry>, v: Version) {
    exists e :: e in entries && e.version == v
  }

  /** The ATC's ID of some version that the spec lists, empty ones aside. */
  predicate Listed(listing: Version -> seq<Entry>, spec: seq<Version>, id: int) {
    exists v :: v in spec && |v| != 0 && FirstHas(listing(v), v, id)
  }

  predicate AllKnown(listing: Version -> seq<Entry>, spec: seq<Version>) {
    forall v :: v in spec && |v| != 0 ==> Knows(listing(v), v)
  }

  /** Every ID that the ATC lists for these versions is a 32-bit number. */
  predicate AllFit(listing: Version -> seq<Entry>, spec: seq<Version>) {
    forall v, e :: v in spec && e in listing(v) ==> Fits(e.id)
  }

  /** The match is the first entry with the version, and there is one if any entry has it. */
  lemma {:induction false} FirstMatchIsFirst(entries: seq<Entry>, v: Version)
    ensures FirstMatch(entries, v).Some? <==> Knows(entries, v)
    ensures forall id :: FirstMatch(entries, v) == Some(id) <==> FirstHas(entries, v, id)
  {
    if entries != [] {
      var rest := entries[1..];
      FirstMatchIsFirst(rest, v);
      assert forall e :: e in entries <==> e == entries[0] || e in rest;
      if entries[0].version == v {
        assert FirstHas(entries, v, entries[0].id);
      } else {
        forall id ensures FirstHas(entries, v, id) <==> FirstHas(rest, v, id) {
          if FirstHas(rest, v, id) {
            var k :| 0 <= k < |rest| && rest[k] == Entry(id, v) && forall j :: 0 <= j < k ==> rest[j].version != v;
            assert entries[k + 1] == Entry(id, v);
          }
          if FirstHas(entries, v, id) {
            var k :| 0 <= k < |entries| && entries[k] == Entry(id, v)
                     && forall j :: 0 <= j < k ==> entries[j].version != v;
            assert rest[k - 1] == Entry(id, v);
            assert forall j :: 0 <= j < k - 1 ==> rest[j] == entries[j + 1];
          }
        }
      }
    }
  }

  /**
   The desired IDs in terms of the listing alone: there are some exactly if the ATC knows
   every listed version, and they are the IDs of the first entries with those versions, cut
   to 32 bits; exactly these IDs if they fit.
   */
  lemma {:induction false} DesiredAreListed(listing: Version -> seq<Entry>, spec: seq<Version>)
    ensures DesiredIDs(listing, spec).Some? <==> AllKnown(listing, spec)
    ensures DesiredIDs(listing, spec).Some? ==>
              var S := DesiredIDs(listing, spec).value;
              && (forall id :: id in S <==> exists m :: Listed(listing, spec, m) && ToInt32(m) == id)
              && (AllFit(listing, spec) ==> forall id :: id in S <==> Listed(listing, spec, id))
  {
    if spec != [] {
      var pre, v := spec[..|spec| - 1], spec[|spec| - 1];
      DesiredAreListed(listing, pre);
      FirstMatchIsFirst(listing(v), v);
      assert forall u :: u in spec <==> u in pre || u == v;
      assert forall m ::
          Listed(listing, spec, m) <==> Listed(listing, pre, m) || (|v| != 0 && FirstHas(listing(v), v, m));
    }
  }

  function SetOf(ids: seq<int>): set<int> {
    set id | id in ids
  }

  predicate StrictlyAscending(s: seq<int>) {
    forall i, j :: 0 <= i < j < |s| ==> s[i] < s[j]
  }

  /** The disabled set after a successful attempt for desired set S with tracked set T. */
  function After(disabled: set<int>, S: set<int>, T: set<int>): set<int> {
    (disabled + (S - T)) - (T - S)
  }

  /**
   The same when the ATC answered the disable calls for M and the enable calls for N
   without an error and without doing anything.
   */
  function AfterIgnoring(disabled: set<int>, S: set<int>, T: set<int>, M: set<int>, N: set<int>): set<int> {
    (disabled + (S - T - M)) - ((T - S) - N)
  }

  /** The disabled set after an attempt stopped at any call, which may or may not have taken effect. */
  predicate Partial(disabled: set<int>, S: set<int>, T: set<int>, disabled': set<int>) {
    disabled - (T - S) <= disabled' <= disabled + (S - T)
  }

  // ---------------------------------------------------------------- one spec, many attempts

  /** Between the start and the success: attempts that fail or are not persisted, and outsiders. */
  datatype Event = Attempt(disabled: set<int>) | Outsider(id: int, disable: bool)

  function Touch(disabled: set<int>, id: int, disable: bool): set<int> {
    if disable then disabled + {id} else disabled - {id}
  }

  /** The ATC's set after the events, starting from D. */
  function Final(D: set<int>, es: seq<Event>): set<int> {
    if es == [] then D
    else match es[|es| - 1]
         case Attempt(disabled) => disabled
         case Outsider(id, disable) => Touch(Final(D, es[..|es| - 1]), id, disable)
  }

  /** The same with every attempt left out. */
  function OutsideOnly(D: set<int>, es: seq<Event>): set<int> {
    if es == [] then D
    else match es[|es| - 1]
         case Attempt(_) => OutsideOnly(D, es[..|es| - 1])
         case Outsider(id, disable) => Touch(OutsideOnly(D, es[..|es| - 1]), id, disable)
  }

  /** Attempts are for S and T; outsiders leave the IDs in S and T alone. */
  predicate Legal(D: set<int>, S: set<int>, T: set<int>, es: seq<Event>) {
    es == [] || (
      var pre := es[..|es| - 1];
      Legal(D, S, T, pre)
      && match es[|es| - 1]
         case Attempt(disabled) => Partial(Final(D, pre), S, T, disabled)
         case Outsider(id, _) => id !in S && id !in T)
  }

  lemma {:induction false} AttemptsStayPartial(D: set<int>, S: set<int>, T: set<int>, es: seq<Event>)
    requires Legal(D, S, T, es)
    ensures Partial(OutsideOnly(D, es), S, T, Final(D, es))
    ensures S * T * OutsideOnly(D, es) == S * T * D
  {
    if es != [] {
      AttemptsStayPartial(D, S, T, es[..|es| - 1]);
    }
  }

  /**
   Retries converge: however many attempts stopped at whatever call, the next success
   leaves what a first success would have left. That is (start minus tracked) union
   desired exactly if no tracked and still desired version had been enabled by others.
   */
  lemma {:induction false} RetriesConverge(D: set<int>, S: set<int>, T: set<int>, es: seq<Event>)
    requires Legal(D, S, T, es)
    ensures After(Final(D, es), S, T) == After(OutsideOnly(D, es), S, T)
    ensures After(Final(D, es), S, T) == (OutsideOnly(D, es) - T) + S <==> S * T <= D
  {
    AttemptsStayPartial(D, S, T, es);
    var O := OutsideOnly(D, es);
    assert After(Final(D, es), S, T) == After(O, S, T);
    assert forall x :: x in After(O, S, T) <==> (x in O && !(x in T && x !in S)) || (x in S && x !in T);
    if After(O, S, T) == (O - T) + S {
      assert forall x :: x in S * T ==> x in S * T * O;
    }
    if S * T <= D {
      assert forall x :: x in S * T ==> x in S * T * D;
      assert forall x :: x in S * T ==> x in O;
      assert After(O, S, T) == (O - T) + S;
    }
  }

  /** A success is also a partial attempt: one whose status write is lost may be repeated. */
  lemma {:induction false} LostSuccessIsAnAttempt(D: set<int>, S: set<int>, T: set<int>)
    ensures Partial(D, S, T, After(D, S, T))
  {
  }

  // ---------------------------------------------------------------- ignored calls

  /**
   A success in which the ATC ignored calls leaves what it should exactly if every version
   whose disabling was ignored was disabled already and none whose enabling was ignored was.
   */
  lemma {:induction false} IgnoredCallsMatterUnless(D: set<int>, S: set<int>, T: set<int>, M: set<int>, N: set<int>)
    requires M <= S - T && N <= T - S
    ensures AfterIgnoring(D, S, T, M, N) == After(D, S, T) <==> M <= D && N !! D
  {
    var X, Y := AfterIgnoring(D, S, T, M, N), After(D, S, T);
    assert forall x :: x in M ==> x in Y && (x in X <==> x in D);
    assert forall x :: x in N ==> x !in Y && (x in X <==> x in D);
    assert forall x :: x !in M && x !in N ==> (x in X <==> x in Y);
    if X == Y {
      assert forall x :: x in M ==> x in D;
      assert forall x :: x in N ==> x !in D;
    }
  }

  /**
   Once such a success is persisted, no reconcile for the same spec makes up for it: as the
   tracked set is the desired one, any later attempt leaves the ATC's set as it is.
   */
  lemma {:induction false} IgnoredCallsAreNotRepeated(D: set<int>, S: set<int>, T: set<int>, M: set<int>, N: set<int>,
                                                      later: seq<Event>)
    requires M <= S - T && N <= T - S
    requires Legal(AfterIgnoring(D, S, T, M, N), S, S, later)
    ensures Final(AfterIgnoring(D, S, T, M, N), later) == OutsideOnly(AfterIgnoring(D, S, T, M, N), later)
    ensures forall x :: x in M - D ==> x !in Final(AfterIgnoring(D, S, T, M, N), later)
  {
    var X := AfterIgnoring(D, S, T, M, N);
    AttemptsStayPartial(X, S, S, later);
    assert S - S == {};
    assert forall x :: x in M - D ==> x in S && x !in X;
    assert forall x :: x in S * OutsideOnly(X, later) ==> x in S * S * OutsideOnly(X, later);
    assert forall x :: x in M - D ==> x !in S * S * X;
  }

  // ---------------------------------------------------------------- changing specs

  /**
   Whatever earlier attempts did, for other specs or with an outdated tracked list, the next
   success for S2 agrees with one on the untouched set exactly if they left alone every ID
   that this success does not set itself.
   */
  lemma {:induction false} NextSuccessAgreesIff(D: set<int>, D1: set<int>, S2: set<int>, T: set<int>)
    ensures After(D1, S2, T) == After(D, S2, T) <==>
            D1 - ((S2 - T) + (T - S2)) == D - ((S2 - T) + (T - S2))
  {
    var fixed := (S2 - T) + (T - S2);
    assert After(D1, S2, T) == (D1 - fixed) + (S2 - T);
    assert After(D, S2, T) == (D - fixed) + (S2 - T);
    assert After(D1, S2, T) - fixed == D1 - fixed;
    assert After(D, S2, T) - fixed == D - fixed;
  }

  /**
   If the spec changes from S1 to S2 after any stopped attempts for S1, the next success
   agrees with one from scratch exactly if, of the versions listed in both specs or tracked
   in neither, those attempts left disabled what was disabled and no more.
   */
  lemma {:induction false} SpecChangeAfterAttemptsIff(D: set<int>, S1: set<int>, S2: set<int>, T: set<int>,
      es: seq<Event>)
    requires Legal(D, S1, T, es)
    ensures After(Final(D, es), S2, T) == After(OutsideOnly(D, es), S2, T) <==>
            && Final(D, es) * ((S1 - T) - S2) <= OutsideOnly(D, es)
            && OutsideOnly(D, es) * ((T * S2) - S1) <= Final(D, es)
  {
    var D1, O := Final(D, es), OutsideOnly(D, es);
    AttemptsStayPartial(D, S1, T, es);
    NextSuccessAgreesIff(O, D1, S2, T);
    var fixed := (S2 - T) + (T - S2);
    assert forall x :: x in D1 && x !in O ==> x in S1 - T;
    assert forall x :: x in O && x !in D1 ==> x in T - S1;
    assert forall x :: x in (S1 - T) - S2 ==> x !in fixed;
    assert forall x :: x in (T * S2) - S1 ==> x !in fixed;
    if D1 * ((S1 - T) - S2) <= O && O * ((T * S2) - S1) <= D1 {
      forall x | x !in fixed ensures x in D1 <==> x in O {
        assert x in D1 && x !in O ==> x in D1 * ((S1 - T) - S2);
        assert x in O && x !in D1 ==> x in O * ((T * S2) - S1);
      }
      assert D1 - fixed == O - fixed;
    }
    if D1 - fixed == O - fixed {
      assert forall x :: x in D1 * ((S1 - T) - S2) ==> x in D1 - fixed;
      assert forall x :: x in O * ((T * S2) - S1) ==> x in O - fixed;
    }
  }

  /**
   If the spec changes from S1 to S2 after a success whose tracked list was lost, the next
   success agrees with one from scratch exactly if the lost attempt disabled nothing the
   new spec drops and enabled nothing it keeps.
   */
  lemma {:induction false} SpecChangeAfterLostWriteIff(D: set<int>, S1: set<int>, S2: set<int>, T: set<int>)
    ensures After(After(D, S1, T), S2, T) == After(D, S2, T) <==>
            (S1 - T) - S2 <= D && (T * S2) - S1 !! D
  {
    var D2 := After(After(D, S1, T), S2, T);
    var D' := After(D, S2, T);
    assert forall x :: x in (S1 - T) - S2 ==> x in D2 && (x in D' <==> x in D);
    assert forall x :: x in (T * S2) - S1 ==> x !in D2 && (x in D' <==> x in D);
    assert forall x :: x !in (S1 - T) - S2 && x !in (T * S2) - S1 ==> (x in D2 <==> x in D');
    if D2 == D' {
      assert forall x :: x in (S1 - T) - S2 ==> x in D;
      assert forall x :: x in (T * S2) - S1 ==> x !in D;
    }
  }

  /**
   An attempt that reads an outdated tracked list T0 and fails to persist does no lasting
   harm exactly if it enabled no disabled version that is neither listed nor tracked, and
   disabled none that is listed and tracked but had been enabled by others.
   */
  lemma {:induction false} OutdatedAttemptIff(D: set<int>, S: set<int>, T: set<int>, T0: set<int>, D1: set<int>)
    requires Partial(D, S, T0, D1)
    ensures After(D1, S, T) == After(D, S, T) <==>
            D * ((T0 - S) - T) <= D1 && D1 * ((S * T) - T0) <= D
  {
    NextSuccessAgreesIff(D, D1, S, T);
    var fixed := (S - T) + (T - S);
    assert forall x :: x in D1 && x !in D ==> x in S - T0;
    assert forall x :: x in D && x !in D1 ==> x in T0 - S;
    assert forall x :: x in (T0 - S) - T || x in (S * T) - T0 ==> x !in fixed;
    if D * ((T0 - S) - T) <= D1 && D1 * ((S * T) - T0) <= D {
      forall x | x !in fixed ensures x in D1 <==> x in D {
        assert x in D && x !in D1 ==> x in D * ((T0 - S) - T);
        assert x in D1 && x !in D ==> x in D1 * ((S * T) - T0);
      }
      assert D1 - fixed == D - fixed;
    }
    if D1 - fixed == D - fixed {
      assert forall x :: x in D * ((T0 - S) - T) ==> x in D - fixed;
      assert forall x :: x in D1 * ((S * T) - T0) ==> x in D1 - fixed;
    }
  }

  /** A run in which every reconcile succeeds and is persisted; the ATC may ignore calls for some IDs. */
  datatype Move = Reconcile(desired: set<int>, ignored: set<int>) | Others(id: int, disable: bool)

  /** The ATC's disabled set and the tracked set. */
  datatype Pair = Pair(disabled: set<int>, tracked: set<int>)

  function Moves(D: set<int>, ms: seq<Move>): Pair {
    if ms == [] then Pair(D, {})
    else
      var p := Moves(D, ms[..|ms| - 1]);
      match ms[|ms| - 1]
      case Reconcile(S, ignored) => Pair(AfterIgnoring(p.disabled, S, p.tracked, ignored, ignored), S)
      case Others(id, disable) => Pair(Touch(p.disabled, id, disable), p.tracked)
  }

  function OthersOnly(D: set<int>, ms: seq<Move>): set<int> {
    if ms == [] then D
    else match ms[|ms| - 1]
         case Reconcile(_, _) => OthersOnly(D, ms[..|ms| - 1])
         case Others(id, disable) => Touch(OthersOnly(D, ms[..|ms| - 1]), id, disable)
  }

  predicate OthersKeepOff(D: set<int>, ms: seq<Move>) {
    ms == [] || (
      var pre := ms[..|ms| - 1];
      OthersKeepOff(D, pre) && (ms[|ms| - 1].Others? ==> ms[|ms| - 1].id !in Moves(D, pre).tracked))
  }

  function LastDesired(ms: seq<Move>): set<int> {
    if ms == [] then {}
    else if ms[|ms| - 1].Reconcile? then ms[|ms| - 1].desired
    else LastDesired(ms[..|ms| - 1])
  }

  predicate NeverListed(ms: seq<Move>, x: int) {
    ms == [] || (NeverListed(ms[..|ms| - 1], x)
                 && (ms[|ms| - 1].Reconcile? ==> x !in ms[|ms| - 1].desired))
  }

  /** Versions still tracked that were not disabled when the ATC ignored their disable call. */
  function NeverDisabled(D: set<int>, ms: seq<Move>): set<int> {
    if ms == [] then {}
    else
      var pre := ms[..|ms| - 1];
      match ms[|ms| - 1]
      case Others(_, _) => NeverDisabled(D, pre)
      case Reconcile(S, ignored) =>
        NeverDisabled(D, pre) * S + ((S - Moves(D, pre).tracked) * ignored - Moves(D, pre).disabled)
  }

  /**
   Across any spec changes the tracked set is the last desired one, all of it is disabled
   but exactly those whose disable call was ignored, and a version never listed is disabled
   exactly if the others alone left it so.
   */
  lemma {:induction false} SpecChangesAreFollowed(D: set<int>, ms: seq<Move>, x: int)
    requires OthersKeepOff(D, ms)
    ensures var p := Moves(D, ms);
            && p.tracked == LastDesired(ms) && p.tracked - p.disabled == NeverDisabled(D, ms)
            && (NeverListed(ms, x) ==> x !in p.tracked && (x in p.disabled <==> x in OthersOnly(D, ms)))
  {
    if ms != [] {
      var pre := ms[..|ms| - 1];
      SpecChangesAreFollowed(D, pre, x);
      var p, p' := Moves(D, pre), Moves(D, ms);
      if ms[|ms| - 1].Reconcile? {
        assert forall y :: y in p'.tracked - p'.disabled <==> y in NeverDisabled(D, ms);
      }
    }
  }

  // ---------------------------------------------------------------- the tracked list

  /** The tracked list is determined by its set, so the order of map iteration cannot show. */
  lemma {:induction false} AscendingIsUnique(s: seq<int>, t: seq<int>)
    requires StrictlyAscending(s) && StrictlyAscending(t) && SetOf(s) == SetOf(t)
    ensures s == t
    decreases |s|
  {
    if s == [] {
      if t != [] {
        NonemptySet(t);
      }
    } else {
      NonemptySet(s);
      SameLast(s, t);
      DropLast(s);
      DropLast(t);
      hide StrictlyAscending;
      hide SetOf;
      var s', t' := s[..|s| - 1], t[..|t| - 1];
      AscendingIsUnique(s', t');
      assert s == s' + [s[|s| - 1]] && t == t' + [t[|t| - 1]];
    }
  }

  lemma {:induction false} NonemptySet(s: seq<int>)
    requires s != []
    ensures SetOf(s) != {}
  {
    assert s[0] in SetOf(s);
  }

  lemma {:induction false} SameLast(s: seq<int>, t: seq<int>)
    requires StrictlyAscending(s) && StrictlyAscending(t) && SetOf(s) == SetOf(t) && s != [] && t != []
    ensures s[|s| - 1] == t[|t| - 1]
  {
    assert s[|s| - 1] in SetOf(s) && t[|t| - 1] in SetOf(t);
    var i :| 0 <= i < |t| && t[i] == s[|s| - 1];
    var j :| 0 <= j < |s| && s[j] == t[|t| - 1];
  }

  lemma {:induction false} DropLast(s: seq<int>)
    requires StrictlyAscending(s) && s != []
    ensures StrictlyAscending(s[..|s| - 1]) && SetOf(s[..|s| - 1]) == SetOf(s) - {s[|s| - 1]}
  {
    var pre := s[..|s| - 1];
    assert s == pre + [s[|s| - 1]];
  }
}
