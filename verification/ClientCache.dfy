/**
 The client cache: a flat string-keyed map with prefix eviction, and the map from
 instances to one versioned client each that it stands for.
 */
module ClientCache {
  import opened Options

  /** A snapshot of an Instance object: its identity, resource version and connection spec. */
  datatype Instance = Instance(namespace: string, name: string, version: string, spec: int)

  /** A client remembers the snapshot it was built from. */
  datatype Client = Client(builtFrom: Instance)

  type Store = map<string, Client>

  function Prefix(namespace: string, name: string): string {
    namespace + "/" + name + "@"
  }

  function Key(namespace: string, name: string, version: string): string {
    Prefix(namespace, name) + version
  }

  function CacheKey(i: Instance): string {
    Key(i.namespace, i.name, i.version)
  }

  /** Kubernetes names: no '/' in a namespace, no '@' in a name. */
  predicate Named(namespace: string, name: string) {
    '/' !in namespace && '@' !in name
  }

  function Lookup(store: Store, i: Instance): Option<Client> {
    if CacheKey(i) in store then Some(store[CacheKey(i)]) else None
  }

  function Evicted(store: Store, i: Instance): Store {
    map k | k in store && !(Prefix(i.namespace, i.name) <= k) :: store[k]
  }

  function Stored(store: Store, i: Instance, cl: Client): Store {
    Evicted(store, i)[CacheKey(i) := cl]
  }

  // ---------------------------------------------------------------- keys

  lemma {:induction false} SplitIsUnique(a: string, b: string, a': string, b': string, c: char)
    requires c !in a && c !in a' && a + [c] + b == a' + [c] + b'
    ensures a == a' && b == b'
  {
    var s, s' := a + [c] + b, a' + [c] + b';
    assert s[|a|] == c && s'[|a'|] == c;
    assert forall k :: 0 <= k < |a| ==> s[k] == a[k];
    assert forall k :: 0 <= k < |a'| ==> s'[k] == a'[k];
    assert a == s[..|a|] && a' == s'[..|a'|];
    assert b == s[|a| + 1..] && b' == s'[|a'| + 1..];
  }

  lemma {:induction false} KeyParts(ns: string, n: string, rest: string, ns': string, n': string, rest': string)
    requires Named(ns, n) && Named(ns', n')
    requires Prefix(ns, n) + rest == Prefix(ns', n') + rest'
    ensures ns == ns' && n == n' && rest == rest'
  {
    var tail, tail' := n + "@" + rest, n' + "@" + rest';
    assert Prefix(ns, n) + rest == ns + ['/'] + tail;
    assert Prefix(ns', n') + rest' == ns' + ['/'] + tail';
    SplitIsUnique(ns, tail, ns', tail', '/');
    SplitIsUnique(n, rest, n', rest', '@');
  }

  /** The key determines namespace, name and version, and the prefix test matches exactly the instance's own keys. */
  lemma {:induction false} KeysAreExact(i: Instance, j: Instance)
    requires Named(i.namespace, i.name) && Named(j.namespace, j.name)
    ensures CacheKey(i) == CacheKey(j) <==> (i.namespace, i.name, i.version) == (j.namespace, j.name, j.version)
    ensures Prefix(i.namespace, i.name) <= CacheKey(j) <==> (i.namespace, i.name) == (j.namespace, j.name)
  {
    if CacheKey(i) == CacheKey(j) {
      KeyParts(i.namespace, i.name, i.version, j.namespace, j.name, j.version);
    }
    var p := Prefix(i.namespace, i.name);
    if p <= CacheKey(j) {
      KeyParts(i.namespace, i.name, CacheKey(j)[|p|..], j.namespace, j.name, j.version);
    }
  }

  /** Without the naming rules, keys collide and one instance's eviction hits another. */
  lemma {:induction false} NamingRulesNeeded(v: string, s: int)
    ensures CacheKey(Instance("a", "b", "x@" + v, s)) == CacheKey(Instance("a", "b@x", v, s))
    ensures CacheKey(Instance("a", "b/c", v, s)) == CacheKey(Instance("a/b", "c", v, s))
    ensures Prefix("a", "b") <= CacheKey(Instance("a", "b@x", v, s))
  {
    assert Prefix("a", "b") + ("x@" + v) == Prefix("a", "b@x") + v;
    assert Prefix("a", "b/c") == Prefix("a/b", "c");
    assert CacheKey(Instance("a", "b@x", v, s))[..|Prefix("a", "b")|] == Prefix("a", "b");
  }

  // ---------------------------------------------------------------- refinement

  datatype Command = GetCmd(i: Instance) | SetCmd(i: Instance, cl: Client) | EvictCmd(i: Instance)

  /** What the cache is for: at most one versioned client for each instance. */
  type Table = map<(string, string), (string, Client)>

  function ConcreteStep(s: Store, c: Command): (Store, Option<Client>) {
    match c
    case GetCmd(i) => (s, Lookup(s, i))
    case SetCmd(i, cl) => (Stored(s, i, cl), None)
    case EvictCmd(i) => (Evicted(s, i), None)
  }

  function AbstractStep(t: Table, c: Command): (Table, Option<Client>) {
    var id := (c.i.namespace, c.i.name);
    match c
    case GetCmd(i) => (t, if id in t && t[id].0 == i.version then Some(t[id].1) else None)
    case SetCmd(i, cl) => (t[id := (i.version, cl)], None)
    case EvictCmd(i) => (t - {id}, None)
  }

  /** The store holds exactly the entries of the table, under their keys. */
  ghost predicate Represents(s: Store, t: Table) {
    && (forall id :: id in t ==> Named(id.0, id.1))
    && (forall id :: id in t ==> Key(id.0, id.1, t[id].0) in s && s[Key(id.0, id.1, t[id].0)] == t[id].1)
    && (forall k :: k in s ==> exists id :: id in t && k == Key(id.0, id.1, t[id].0))
  }

  lemma {:induction false} EvictRefines(s: Store, t: Table, i: Instance)
    requires Represents(s, t) && Named(i.namespace, i.name)
    ensures Represents(Evicted(s, i), t - {(i.namespace, i.name)})
  {
    var s', t' := Evicted(s, i), t - {(i.namespace, i.name)};
    forall id | id in t'
      ensures Key(id.0, id.1, t'[id].0) in s'
    {
      KeysAreExact(i, Instance(id.0, id.1, t[id].0, 0));
    }
    forall k | k in s'
      ensures exists id :: id in t' && k == Key(id.0, id.1, t'[id].0)
    {
      var id :| id in t && k == Key(id.0, id.1, t[id].0);
      KeysAreExact(i, Instance(id.0, id.1, t[id].0, 0));
      assert id in t';
    }
  }

  lemma {:induction false} SetRefines(s: Store, t: Table, i: Instance, cl: Client)
    requires Represents(s, t) && Named(i.namespace, i.name)
    ensures Represents(Stored(s, i, cl), t[(i.namespace, i.name) := (i.version, cl)])
  {
    EvictRefines(s, t, i);
    var self := (i.namespace, i.name);
    var s0, t0 := Evicted(s, i), t - {self};
    var s', t' := Stored(s, i, cl), t[self := (i.version, cl)];
    forall id | id in t'
      ensures Named(id.0, id.1)
      ensures Key(id.0, id.1, t'[id].0) in s' && s'[Key(id.0, id.1, t'[id].0)] == t'[id].1
    {
      if id != self {
        assert id in t0 && t'[id] == t0[id];
        KeysAreExact(i, Instance(id.0, id.1, t0[id].0, 0));
      }
    }
    forall k | k in s'
      ensures exists id :: id in t' && k == Key(id.0, id.1, t'[id].0)
    {
      if k == CacheKey(i) {
        assert self in t';
      } else {
        var id :| id in t0 && k == Key(id.0, id.1, t0[id].0);
        assert id in t' && t'[id] == t0[id];
      }
    }
  }

  lemma {:induction false} StepRefines(s: Store, t: Table, c: Command)
    requires Represents(s, t) && Named(c.i.namespace, c.i.name)
    ensures Represents(ConcreteStep(s, c).0, AbstractStep(t, c).0)
    ensures ConcreteStep(s, c).1 == AbstractStep(t, c).1
  {
    match c
    case GetCmd(i) =>
      if CacheKey(i) in s {
        var id :| id in t && CacheKey(i) == Key(id.0, id.1, t[id].0);
        KeysAreExact(i, Instance(id.0, id.1, t[id].0, 0));
      }
    case SetCmd(i, cl) => SetRefines(s, t, i, cl);
    case EvictCmd(i) => EvictRefines(s, t, i);
  }

  function ConcreteRun(cs: seq<Command>): (r: (Store, seq<Option<Client>>)) {
    if cs == [] then (map[], [])
    else
      var (s, out) := ConcreteRun(cs[..|cs| - 1]);
      var (s', o) := ConcreteStep(s, cs[|cs| - 1]);
      (s', out + [o])
  }

  function AbstractRun(cs: seq<Command>): (r: (Table, seq<Option<Client>>)) {
    if cs == [] then (map[], [])
    else
      var (t, out) := AbstractRun(cs[..|cs| - 1]);
      var (t', o) := AbstractStep(t, cs[|cs| - 1]);
      (t', out + [o])
  }

  /**
   Every sequence of Get, Set and Evict answers as the table of at most one versioned
   client per instance does; the store always represents that table.
   */
  lemma {:induction false} CacheRefinesTable(cs: seq<Command>)
    requires forall k :: 0 <= k < |cs| ==> Named(cs[k].i.namespace, cs[k].i.name)
    ensures Represents(ConcreteRun(cs).0, AbstractRun(cs).0)
    ensures ConcreteRun(cs).1 == AbstractRun(cs).1
  {
    if cs != [] {
      CacheRefinesTable(cs[..|cs| - 1]);
      StepRefines(ConcreteRun(cs[..|cs| - 1]).0, AbstractRun(cs[..|cs| - 1]).0, cs[|cs| - 1]);
    }
  }

  // ---------------------------------------------------------------- the mutable cache

  class Cache {
    var store: Store

    constructor ()
      ensures store == map[]
    {
      store := map[];
    }

    /** Answers as any table that the store represents: the instance's client if it is for this version. */
    method Get(i: Instance) returns (cl: Option<Client>)
      ensures forall t :: Represents(store, t) && Named(i.namespace, i.name) ==> cl == AbstractStep(t, GetCmd(i)).1
      ensures cl == Lookup(store, i)
    {
      forall t | Represents(store, t) && Named(i.namespace, i.name)
        ensures Lookup(store, i) == AbstractStep(t, GetCmd(i)).1
      {
        StepRefines(store, t, GetCmd(i));
      }
      cl := if CacheKey(i) in store then Some(store[CacheKey(i)]) else None;
    }

    /** Deletes every key with the instance's prefix, visiting the keys in any order. */
    method Evict(i: Instance)
      modifies this
      ensures store == Evicted(old(store), i)
      ensures forall t :: Represents(old(store), t) && Named(i.namespace, i.name) ==>
                            Represents(store, t - {(i.namespace, i.name)})
    {
      var prefix := Prefix(i.namespace, i.name);
      var todo := store.Keys;
      while todo != {}
        invariant todo <= old(store).Keys && store.Keys <= old(store).Keys
        invariant forall k :: k in store ==> store[k] == old(store)[k]
        invariant forall k :: k in old(store) ==> (k in store <==> k in todo || !(prefix <= k))
        decreases |todo|
      {
        var k :| k in todo;
        todo := todo - {k};
        if |k| >= |prefix| && k[..|prefix|] == prefix {
          store := store - {k};
        }
      }
      assert store == Evicted(old(store), i);
      forall t | Represents(old(store), t) && Named(i.namespace, i.name)
        ensures Represents(store, t - {(i.namespace, i.name)})
      {
        EvictRefines(old(store), t, i);
      }
    }

    method Set(i: Instance, cl: Client)
      modifies this
      ensures store == Stored(old(store), i, cl)
      ensures forall t :: Represents(old(store), t) && Named(i.namespace, i.name) ==>
                            Represents(store, t[(i.namespace, i.name) := (i.version, cl)])
    {
      Evict(i);
      store := store[CacheKey(i) := cl];
      forall t | Represents(old(store), t) && Named(i.namespace, i.name)
        ensures Represents(store, t[(i.namespace, i.name) := (i.version, cl)])
      {
        SetRefines(old(store), t, i, cl);
      }
    }

    /** Get, then build and Set on a miss. `builds` is whether the HTTP client can be built. */
    method GetOrBuild(i: Instance, builds: bool) returns (cl: Option<Client>)
      modifies this
      ensures match Lookup(old(store), i)
              case Some(hit) => cl == Some(hit) && store == old(store)
              case None => if builds then cl == Some(Client(i)) && store == Stored(old(store), i, Client(i))
                           else cl == None && store == old(store)
    {
      cl := Get(i);
      if cl.Some? {
        return cl;
      }
      if !builds {
        return None;
      }
      Set(i, Client(i));
      return Some(Client(i));
    }
  }
}
