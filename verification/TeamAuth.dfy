/** Grouping role bindings into the ATC's auth map. */
module TeamAuth {
  import opened Options

  datatype TeamRole = TeamRole(role: string, users: seq<string>, groups: seq<string>)

  /** For each role, the lists "users" and "groups". */
  type Auth = map<string, map<string, seq<string>>>

  /** Users of one role, in order over its entries. */
  function UsersOf(roles: seq<TeamRole>, role: string): seq<string> {
    if roles == [] then []
    else UsersOf(roles[..|roles| - 1], role)
         + (if roles[|roles| - 1].role == role then roles[|roles| - 1].users else [])
  }

  function GroupsOf(roles: seq<TeamRole>, role: string): seq<string> {
    if roles == [] then []
    else GroupsOf(roles[..|roles| - 1], role)
         + (if roles[|roles| - 1].role == role then roles[|roles| - 1].groups else [])
  }

  predicate Listed(roles: seq<TeamRole>, role: string) {
    exists i :: 0 <= i < |roles| && roles[i].role == role
  }

  function Grouped(users: seq<string>, groups: seq<string>): map<string, seq<string>> {
    map["users" := users, "groups" := groups]
  }

  predicate GroupsAt(roles: seq<TeamRole>, auth: Auth, role: string) {
    && (role in auth <==> Listed(roles, role))
    && (role in auth ==> auth[role] == Grouped(UsersOf(roles, role), GroupsOf(roles, role)))
  }

  /** The map groups exactly the listed roles. */
  ghost predicate Groups(roles: seq<TeamRole>, auth: Auth) {
    forall role :: GroupsAt(roles, auth, role)
  }

  /** Reading a missing list gives nil, the empty list. */
  function ListAt(lists: map<string, seq<string>>, key: string): seq<string> {
    if key in lists then lists[key] else []
  }

  /** One pass of the loop, as a value. */
  function Add(auth: Auth, r: TeamRole): Auth {
    var lists := if r.role in auth then auth[r.role] else map[];
    auth[r.role := lists["users" := ListAt(lists, "users") + r.users]["groups" := ListAt(lists, "groups") + r.groups]]
  }

  lemma {:induction false} AddKeeps(roles: seq<TeamRole>, auth: Auth, r: TeamRole)
    requires Groups(roles, auth)
    ensures Groups(roles + [r], Add(auth, r))
  {
    forall role ensures GroupsAt(roles + [r], Add(auth, r), role) {
      assert GroupsAt(roles, auth, role);
      AddKeepsAt(roles, auth, r, role);
    }
  }

  lemma {:induction false} AddKeepsAt(roles: seq<TeamRole>, auth: Auth, r: TeamRole, role: string)
    requires GroupsAt(roles, auth, role)
    ensures GroupsAt(roles + [r], Add(auth, r), role)
  {
    ListedGrows(roles, r, role);
    OneMore(roles, r, role);
    if role !in auth {
      UnlistedHasNothing(roles, role);
      assert [] + r.users == r.users && [] + r.groups == r.groups;
    }
  }

  lemma {:induction false} OneMore(roles: seq<TeamRole>, r: TeamRole, role: string)
    ensures UsersOf(roles + [r], role) ==
            if r.role == role then UsersOf(roles, role) + r.users else UsersOf(roles, role)
    ensures GroupsOf(roles + [r], role) ==
            if r.role == role then GroupsOf(roles, role) + r.groups else GroupsOf(roles, role)
  {
    var all := roles + [r];
    assert all[..|all| - 1] == roles && all[|all| - 1] == r;
  }

  lemma {:induction false} ListedGrows(roles: seq<TeamRole>, r: TeamRole, role: string)
    ensures Listed(roles + [r], role) <==> Listed(roles, role) || r.role == role
  {
    var all := roles + [r];
    assert all[|roles|] == r;
    if Listed(roles, role) {
      var i :| 0 <= i < |roles| && roles[i].role == role;
      assert all[i].role == role;
    }
  }

  lemma {:induction false} UnlistedHasNothing(roles: seq<TeamRole>, role: string)
    requires !Listed(roles, role)
    ensures UsersOf(roles, role) == [] && GroupsOf(roles, role) == []
  {
    if roles != [] {
      var pre := roles[..|roles| - 1];
      assert roles == pre + [roles[|roles| - 1]];
      ListedGrows(pre, roles[|roles| - 1], role);
      UnlistedHasNothing(pre, role);
    }
  }

  /** nil exactly for no roles; otherwise the grouping, duplicate entries of a role merged in order. */
  method BuildTeamAuth(roles: seq<TeamRole>) returns (auth: Option<Auth>)
    ensures auth.None? <==> roles == []
    ensures auth.Some? ==> Groups(roles, auth.value)
  {
    if |roles| == 0 {
      return None;
    }
    var m: Auth := map[];
    for i := 0 to |roles|
      invariant Groups(roles[..i], m)
    {
      hide Groups;
      var r := roles[i];
      ghost var before := m;
      if r.role !in m {
        m := m[r.role := map[]];
      }
      m := m[r.role := m[r.role]["users" := ListAt(m[r.role], "users") + r.users]];
      m := m[r.role := m[r.role]["groups" := ListAt(m[r.role], "groups") + r.groups]];
      assert m == Add(before, r);
      AddKeeps(roles[..i], before, r);
      assert roles[..i + 1] == roles[..i] + [r];
    }
    assert roles[..|roles|] == roles;
    return Some(m);
  }

  // ---------------------------------------------------------------- what grouping conserves

  lemma {:induction false} UsersConserved(roles: seq<TeamRole>, role: string, who: string)
    ensures who in UsersOf(roles, role) <==>
            exists i :: 0 <= i < |roles| && roles[i].role == role && who in roles[i].users
  {
    if roles != [] {
      var pre := roles[..|roles| - 1];
      UsersConserved(pre, role, who);
      assert forall i :: 0 <= i < |pre| ==> roles[i] == pre[i];
    }
  }

  lemma {:induction false} GroupsConserved(roles: seq<TeamRole>, role: string, who: string)
    ensures who in GroupsOf(roles, role) <==>
            exists i :: 0 <= i < |roles| && roles[i].role == role && who in roles[i].groups
  {
    if roles != [] {
      var pre := roles[..|roles| - 1];
      GroupsConserved(pre, role, who);
      assert forall i :: 0 <= i < |pre| ==> roles[i] == pre[i];
    }
  }

  /** The map lists `who` under "users" or "groups" of a role. */
  predicate Grants(auth: Auth, role: string, list: string, who: string) {
    role in auth && list in auth[role] && who in auth[role][list]
  }

  /** An identity is granted a role exactly if some entry for that role lists it. */
  lemma {:induction false} NothingLostOrInvented(roles: seq<TeamRole>, auth: Auth, role: string, who: string)
    requires Groups(roles, auth)
    ensures Grants(auth, role, "users", who) <==>
            exists i :: 0 <= i < |roles| && roles[i].role == role && who in roles[i].users
    ensures Grants(auth, role, "groups", who) <==>
            exists i :: 0 <= i < |roles| && roles[i].role == role && who in roles[i].groups
  {
    assert GroupsAt(roles, auth, role);
    UsersConserved(roles, role, who);
    GroupsConserved(roles, role, who);
    hide UsersOf;
    hide GroupsOf;
  }

  lemma {:induction false} Regroup(x: seq<string>, y: seq<string>, z: seq<string>)
    ensures (x + y) + z == x + (y + z)
  {
  }

  /** Splitting the list anywhere splits every grouped list there: order and multiplicity are kept. */
  lemma {:induction false} OrderIsKept(a: seq<TeamRole>, b: seq<TeamRole>, role: string)
    ensures UsersOf(a + b, role) == UsersOf(a, role) + UsersOf(b, role)
    ensures GroupsOf(a + b, role) == GroupsOf(a, role) + GroupsOf(b, role)
    decreases |b|
  {
    if b == [] {
      assert a + b == a;
    } else {
      hide UsersOf;
      hide GroupsOf;
      var pre, r := b[..|b| - 1], b[|b| - 1];
      assert b == pre + [r] && a + b == (a + pre) + [r];
      OrderIsKept(a, pre, role);
      OneMore(a + pre, r, role);
      OneMore(pre, r, role);
      Regroup(UsersOf(a, role), UsersOf(pre, role), r.users);
      Regroup(GroupsOf(a, role), GroupsOf(pre, role), r.groups);
    }
  }

  /** Grouping is deterministic: the role list decides the map. */
  lemma {:induction false} GroupingIsUnique(roles: seq<TeamRole>, x: Auth, y: Auth)
    requires Groups(roles, x) && Groups(roles, y)
    ensures x == y
  {
    forall role
      ensures role in x <==> role in y
      ensures role in x ==> x[role] == y[role]
    {
      assert GroupsAt(roles, x, role) && GroupsAt(roles, y, role);
    }
  }

  /** With each role listed once, as the schema asks, every entry is passed on as it is. */
  lemma {:induction false} DistinctRolesPassThrough(roles: seq<TeamRole>, auth: Auth, i: nat)
    requires Groups(roles, auth) && i < |roles|
    requires forall j, k :: 0 <= j < k < |roles| ==> roles[j].role != roles[k].role
    ensures roles[i].role in auth
    ensures auth[roles[i].role] == Grouped(roles[i].users, roles[i].groups)
  {
    var before, r, after := roles[..i], roles[i], roles[i + 1..];
    assert GroupsAt(roles, auth, r.role);
    assert roles == before + [r] + after;
    UnlistedHasNothing(before, r.role);
    UnlistedHasNothing(after, r.role);
    hide UsersOf;
    hide GroupsOf;
    OrderIsKept(before + [r], after, r.role);
    OneMore(before, r, r.role);
    assert [] + r.users + [] == r.users && [] + r.groups + [] == r.groups;
  }
}
