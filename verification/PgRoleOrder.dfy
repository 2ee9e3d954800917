/** Declaration order does not matter: roles may come in any order, members before their groups. */
module PgRoleOrder {
  import opened Strings
  import opened PgConfig
  import opened PgCluster
  import opened PgPlan
  import opened PgInForce
  import Converging

  // ----- Roles

  function Get<K, V>(m: map<K, V>, k: K): Option<V> {
    if k in m then Some(m[k]) else None
  }

  /** The record a role ends up with. */
  function GoalOf(prior: Option<RoleRec>, role: Role): RoleRec {
    var rec := BaseOf(prior, role);
    rec.(params := rec.params + role.config, comment := if role.comment == "" then rec.comment else role.comment)
  }

  /** The server takes every statement a role needs. */
  ghost predicate Taken(env: Env, st: Cluster, role: Role) {
    && Connectable(st, MAINTENANCE_DB)
    && env.refuses(MAINTENANCE_DB, RoleStmt(st, role)).None?
    && (forall k :: k in role.config ==> env.refuses(MAINTENANCE_DB, SetParam(role.name, k, role.config[k])).None?)
    && (role.comment != "" ==> env.refuses(MAINTENANCE_DB, CommentOnRole(role.name, role.comment)).None?)
  }

  /** The first of the sorted parameters, set. */
  function SomeParams(rec: RoleRec, keys: seq<string>, config: map<string, string>): RoleRec
    requires forall k :: k in keys ==> k in config
  {
    rec.(params := rec.params + map k | k in keys :: config[k])
  }

  lemma ParamsSnoc(params: map<string, string>, front: seq<string>, key: string, config: map<string, string>)
    requires key in config && forall k :: k in front ==> k in config
    ensures (params + map k | k in front :: config[k])[key := config[key]] == params + map k | k in front + [key] :: config[k]
  {
    assert forall k :: k in front + [key] <==> k in front || k == key;
  }

  lemma OneMoreParam(st: Cluster, name: string, rec: RoleRec, front: seq<string>, key: string, config: map<string, string>)
    requires key in config && forall k :: k in front ==> k in config
    ensures var some, more := SomeParams(rec, front, config), SomeParams(rec, front + [key], config);
      && some.(params := some.params[key := config[key]]) == more
      && WithRole(WithRole(st, name, some), name, more) == WithRole(st, name, more)
  {
    ParamsSnoc(rec.params, front, key, config);
    WithRoleTwice(st, name, SomeParams(rec, front, config), SomeParams(rec, front + [key], config));
  }

  lemma {:induction false} ParamsRun(env: Env, st: Cluster, name: string, keys: seq<string>, config: map<string, string>)
    requires name in st.roles && Connectable(st, MAINTENANCE_DB)
    requires forall k :: k in keys ==> k in config
    ensures Run(env, ParamActs(name, keys, config), st).1 <==>
      forall k :: k in keys ==> env.refuses(MAINTENANCE_DB, SetParam(name, k, config[k])).None?
    ensures Run(env, ParamActs(name, keys, config), st).1 ==>
      Run(env, ParamActs(name, keys, config), st).0 == WithRole(st, name, SomeParams(st.roles[name], keys, config))
  {
    if keys == [] {
      assert ParamActs(name, keys, config) == [];
      assert SomeParams(st.roles[name], keys, config) == st.roles[name];
      assert st.roles[name := st.roles[name]] == st.roles;
    } else {
      var n := |keys| - 1;
      var front, key := keys[..n], keys[n];
      var act := Sql(MAINTENANCE_DB, SetParam(name, key, config[key]));
      assert keys == front + [key];
      assert ParamActs(name, keys, config) == ParamActs(name, front, config) + [act];
      RunSnoc(env, ParamActs(name, front, config), act, st);
      ParamsRun(env, st, name, front, config);
      OneMoreParam(st, name, st.roles[name], front, key, config);
    }
  }

  lemma WithRoleTwice(st: Cluster, name: string, a: RoleRec, b: RoleRec)
    ensures WithRole(WithRole(st, name, a), name, b) == WithRole(st, name, b)
  {
  }

  lemma CommentRun(env: Env, st: Cluster, role: Role)
    requires role.name in st.roles && Connectable(st, MAINTENANCE_DB)
    ensures Run(env, CommentActs(role), st).1 <==>
      (role.comment != "" ==> env.refuses(MAINTENANCE_DB, CommentOnRole(role.name, role.comment)).None?)
    ensures Run(env, CommentActs(role), st).1 ==>
      Run(env, CommentActs(role), st).0 == if role.comment == "" then st
        else WithRole(st, role.name, st.roles[role.name].(comment := role.comment))
  {
    if role.comment != "" {
      Converging.RunOne(Stepping(env), CommentActs(role)[0], st);
    }
  }

  /** The record once the role exists with its options. */
  function BaseOf(prior: Option<RoleRec>, role: Role): RoleRec {
    if prior.Some? then Altered(prior.value, ClauseOf(role)) else Created(ClauseOf(role))
  }

  lemma EnsureRun(env: Env, st: Cluster, role: Role)
    ensures Run(env, [EnsureRole(role)], st).1 <==>
      Connectable(st, MAINTENANCE_DB) && env.refuses(MAINTENANCE_DB, RoleStmt(st, role)).None?
    ensures Run(env, [EnsureRole(role)], st).1 ==>
      Run(env, [EnsureRole(role)], st).0 == WithRole(st, role.name, BaseOf(Get(st.roles, role.name), role))
  {
    Converging.RunOne(Stepping(env), EnsureRole(role), st);
  }

  lemma AllParamsRun(env: Env, st: Cluster, role: Role)
    requires role.name in st.roles && Connectable(st, MAINTENANCE_DB)
    ensures var acts := ParamActs(role.name, SortedKeys(role.config.Keys), role.config);
      && (Run(env, acts, st).1 <==> forall k :: k in role.config ==>
            env.refuses(MAINTENANCE_DB, SetParam(role.name, k, role.config[k])).None?)
      && (Run(env, acts, st).1 ==>
            Run(env, acts, st).0 ==
              WithRole(st, role.name, st.roles[role.name].(params := st.roles[role.name].params + role.config)))
  {
    var keys := SortedKeys(role.config.Keys);
    ParamsRun(env, st, role.name, keys, role.config);
    AllKeys(keys, role.config);
  }

  lemma AllKeys(keys: seq<string>, config: map<string, string>)
    requires forall k :: k in keys <==> k in config
    ensures (map k | k in keys :: config[k]) == config
  {
  }

  /** One role: created or altered, then its parameters, then its comment. */
  lemma RoleRun(env: Env, st: Cluster, role: Role)
    ensures Run(env, RoleActs(role), st).1 <==> Taken(env, st, role)
    ensures Run(env, RoleActs(role), st).1 ==>
      Run(env, RoleActs(role), st).0 == WithRole(st, role.name, GoalOf(Get(st.roles, role.name), role))
  {
    var params := ParamActs(role.name, SortedKeys(role.config.Keys), role.config);
    RunAppend(env, [EnsureRole(role)], params, st);
    RunAppend(env, [EnsureRole(role)] + params, CommentActs(role), st);
    EnsureRun(env, st, role);
    var (here, ok) := Run(env, [EnsureRole(role)], st);
    if ok {
      AllParamsRun(env, here, role);
      var (there, done) := Run(env, params, here);
      if done {
        WithRoleTwice(st, role.name, here.roles[role.name], there.roles[role.name]);
        CommentRun(env, there, role);
        WithRoleTwice(st, role.name, there.roles[role.name], GoalOf(Get(st.roles, role.name), role));
      }
    }
  }

  predicate Declares(roles: seq<Role>, name: string) {
    exists role :: role in roles && role.name == name
  }

  /** The roles a phase leaves, given those it met: every declared role at its goal, every other untouched. */
  ghost predicate IsGoal(roles: seq<Role>, before: map<string, RoleRec>, after: map<string, RoleRec>) {
    && (forall n :: n in after <==> n in before || Declares(roles, n))
    && (forall role :: role in roles ==> role.name in after && after[role.name] == GoalOf(Get(before, role.name), role))
    && (forall n :: n in before && !Declares(roles, n) ==> after[n] == before[n])
  }

  lemma GoalUnique(p: seq<Role>, q: seq<Role>, before: map<string, RoleRec>, a: map<string, RoleRec>, b: map<string, RoleRec>)
    requires forall role :: role in p <==> role in q
    requires IsGoal(p, before, a) && IsGoal(q, before, b)
    ensures a == b
  {
    forall n
      ensures Declares(p, n) <==> Declares(q, n)
    {
    }
    forall n | n in a
      ensures n in b && a[n] == b[n]
    {
      if role :| role in p && role.name == n {
        assert role in q;
      }
    }
  }

  lemma DeclaresSnoc(roles: seq<Role>, role: Role, name: string)
    ensures Declares(roles + [role], name) <==> Declares(roles, name) || name == role.name
  {
    assert forall r :: r in roles + [role] <==> r in roles || r == role;
  }

  lemma NewName(roles: seq<Role>, role: Role)
    requires DistinctRoles(roles + [role])
    ensures !Declares(roles, role.name)
  {
    var all := roles + [role];
    forall r | r in roles
      ensures r.name != role.name
    {
      var i :| 0 <= i < |roles| && roles[i] == r;
      assert all[i] == r && all[|roles|] == role;
    }
  }

  lemma GoalSnocNames(roles: seq<Role>, role: Role, before: map<string, RoleRec>, mid: map<string, RoleRec>, rec: RoleRec)
    requires IsGoal(roles, before, mid)
    ensures forall n :: n in mid[role.name := rec] <==> n in before || Declares(roles + [role], n)
    ensures forall n :: n in before && !Declares(roles + [role], n) ==> mid[role.name := rec][n] == before[n]
  {
    forall n
      ensures Declares(roles + [role], n) <==> Declares(roles, n) || n == role.name
    {
      DeclaresSnoc(roles, role, n);
    }
  }

  lemma GoalSnoc(roles: seq<Role>, role: Role, before: map<string, RoleRec>, mid: map<string, RoleRec>)
    requires DistinctRoles(roles + [role]) && IsGoal(roles, before, mid)
    ensures Get(mid, role.name) == Get(before, role.name)
    ensures IsGoal(roles + [role], before, mid[role.name := GoalOf(Get(before, role.name), role)])
  {
    NewName(roles, role);
    GoalSnocNames(roles, role, before, mid, GoalOf(Get(before, role.name), role));
    forall r | r in roles
      ensures r.name != role.name
    {
      assert Declares(roles, r.name);
    }
    assert forall r :: r in roles + [role] <==> r in roles || r == role;
  }

  /** Whether a role is taken depends on nothing but whether it is there. */
  lemma TakenAlike(env: Env, a: Cluster, b: Cluster, role: Role)
    requires a.dbs == b.dbs && (role.name in a.roles <==> role.name in b.roles)
    ensures Taken(env, a, role) <==> Taken(env, b, role)
  {
  }

  /** The first pass of the role phase. */
  lemma {:induction false} RolesRun(env: Env, st: Cluster, roles: seq<Role>)
    requires DistinctRoles(roles)
    ensures Run(env, AllRoleActs(roles), st).1 <==> forall role :: role in roles ==> Taken(env, st, role)
    ensures Run(env, AllRoleActs(roles), st).1 ==>
      var final := Run(env, AllRoleActs(roles), st).0;
      final == st.(roles := final.roles) && IsGoal(roles, st.roles, final.roles)
  {
    if roles != [] {
      var n := |roles| - 1;
      var front, role := roles[..n], roles[n];
      assert roles == front + [role];
      RolesRun(env, st, front);
      RunAppend(env, AllRoleActs(front), RoleActs(role), st);
      assert forall r :: r in roles <==> r in front || r == role;
      var (here, ok) := Run(env, AllRoleActs(front), st);
      if ok {
        RoleRun(env, here, role);
        GoalSnoc(front, role, st.roles, here.roles);
        TakenAlike(env, here, st, role);
      }
    }
  }

  // ----- Memberships

  /** Nobody is, however indirectly, a member of itself. */
  predicate Acyclic(members: set<(string, string)>) {
    forall e :: e in members ==> e.0 !in Groups(members, {e.1})
  }

  /** Groups is the least set that contains `of` and every group of its members. */
  lemma {:induction false} GroupsLeast(members: set<(string, string)>, of: set<string>, closed: set<string>)
    requires of <= closed && Parents(members, closed) <= closed
    ensures Groups(members, of) <= closed
    decreases (set e | e in members :: e.1) - of
  {
    var next := of + Parents(members, of);
    assert Parents(members, of) <= Parents(members, closed);
    if next != of {
      var everyone := set e | e in members :: e.1;
      var g :| g in next && g !in of;
      assert g in everyone - of && g !in everyone - next;
      GroupsLeast(members, next, closed);
    }
  }

  lemma GroupsGrow(members: set<(string, string)>, more: set<(string, string)>, of: set<string>)
    requires members <= more
    ensures Groups(members, of) <= Groups(more, of)
  {
    var closed := Groups(more, of);
    assert Parents(members, closed) <= Parents(more, closed);
    GroupsLeast(members, of, closed);
  }

  /** GRANT's cycle check keeps the memberships acyclic. */
  lemma AddMembership(members: set<(string, string)>, member: string, parent: string)
    requires Acyclic(members) && member !in Groups(members, {parent})
    ensures Acyclic(members + {(member, parent)})
  {
    var more := members + {(member, parent)};
    var above := Groups(members, {parent});
    forall e | e in more
      ensures e.0 !in Groups(more, {e.1})
    {
      if e == (member, parent) {
        GroupsLeast(more, {parent}, above);
      } else {
        var here := Groups(members, {e.1});
        if e.0 in above {
          assert e.1 in Parents(members, above);
          GroupsLeast(members, {e.1}, above);
        }
        if member in here {
          assert Parents(more, here + above) <= here + above;
          GroupsLeast(more, {e.1}, here + above);
        } else {
          GroupsLeast(more, {e.1}, here);
        }
      }
    }
  }

  function GrantsOf(pairs: seq<(string, string)>): (acts: seq<Act>)
    ensures |acts| == |pairs|
  {
    seq(|pairs|, i requires 0 <= i < |pairs| => Sql(MAINTENANCE_DB, GrantRole(pairs[i].1, pairs[i].0)))
  }

  function PairsOf(role: Role): (pairs: seq<(string, string)>)
    ensures |pairs| == |role.memberOf|
  {
    seq(|role.memberOf|, i requires 0 <= i < |role.memberOf| => (role.name, role.memberOf[i]))
  }

  function AllPairs(roles: seq<Role>): seq<(string, string)> {
    if roles == [] then [] else AllPairs(roles[..|roles| - 1]) + PairsOf(roles[|roles| - 1])
  }

  lemma PairsOfMembers(role: Role)
    ensures forall e :: e in PairsOf(role) <==> e.0 == role.name && e.1 in role.memberOf
  {
    forall e: (string, string) | e.0 == role.name && e.1 in role.memberOf
      ensures e in PairsOf(role)
    {
      var i :| 0 <= i < |role.memberOf| && role.memberOf[i] == e.1;
      assert PairsOf(role)[i] == e;
    }
  }

  lemma {:induction false} JoinsAreGrants(roles: seq<Role>)
    ensures AllJoinActs(roles) == GrantsOf(AllPairs(roles))
    ensures forall e :: e in AllPairs(roles) <==> exists role :: role in roles && role.name == e.0 && e.1 in role.memberOf
  {
    if roles != [] {
      var n := |roles| - 1;
      JoinsAreGrants(roles[..n]);
      assert roles == roles[..n] + [roles[n]];
      assert JoinActs(roles[n]) == GrantsOf(PairsOf(roles[n]));
      assert AllJoinActs(roles) == GrantsOf(AllPairs(roles[..n])) + GrantsOf(PairsOf(roles[n]));
      PairsOfMembers(roles[n]);
    }
  }

  /** Everything but the cycle check. */
  predicate Grantable(env: Env, st: Cluster, e: (string, string)) {
    && Connectable(st, MAINTENANCE_DB)
    && e.0 in st.roles && e.1 in st.roles
    && env.refuses(MAINTENANCE_DB, GrantRole(e.1, e.0)).None?
  }

  /** The second pass: it succeeds exactly when the memberships, old and new together, are acyclic. */
  lemma {:induction false} GrantsRun(env: Env, st: Cluster, pairs: seq<(string, string)>)
    requires Acyclic(st.members)
    ensures var all := st.members + set e | e in pairs;
      && (Run(env, GrantsOf(pairs), st).1 <==> (forall e :: e in pairs ==> Grantable(env, st, e)) && Acyclic(all))
      && (Run(env, GrantsOf(pairs), st).1 ==> Run(env, GrantsOf(pairs), st).0 == st.(members := all))
    decreases |pairs|
  {
    var acts := GrantsOf(pairs);
    var all := st.members + set e | e in pairs;
    if pairs == [] {
      assert all == st.members;
    } else {
      var e, rest := pairs[0], pairs[1..];
      assert acts[1..] == GrantsOf(rest);
      assert forall f :: f in pairs <==> f == e || f in rest;
      var (here, ok) := Step(env, st, acts[0]);
      assert all == st.members + {e} + set f | f in rest;
      assert e in all;
      if ok {
        assert here.members == st.members + {e};
        if e !in st.members {
          AddMembership(st.members, e.0, e.1);
        } else {
          assert st.members + {e} == st.members;
        }
        GrantsRun(env, here, rest);
      } else if Grantable(env, st, e) && Acyclic(all) {
        GroupsGrow(st.members, all, {e.1});
      }
    }
  }

  // ----- The phase, and the whole convergence

  function PairSet(roles: seq<Role>): set<(string, string)> {
    set e | e in AllPairs(roles)
  }

  /**
   * The role phase succeeds exactly when the server takes every role, every group exists once the roles do, and old
   * and new memberships together are acyclic; none of this mentions an order.
   */
  lemma RolePhaseRun(env: Env, cfg: Config, st: Cluster)
    requires DistinctRoles(cfg.roles) && Acyclic(st.members)
    ensures var (here, ok) := Run(env, AllRoleActs(cfg.roles), st);
      && (ok <==> forall role :: role in cfg.roles ==> Taken(env, st, role))
      && (ok ==> here == st.(roles := here.roles) && IsGoal(cfg.roles, st.roles, here.roles))
      && (Run(env, RolePhase(cfg), st).1 <==>
            && ok
            && (forall e :: e in PairSet(cfg.roles) ==> Grantable(env, here, e))
            && Acyclic(st.members + PairSet(cfg.roles)))
      && (Run(env, RolePhase(cfg), st).1 ==>
            Run(env, RolePhase(cfg), st).0 == here.(members := st.members + PairSet(cfg.roles)))
  {
    RolesRun(env, st, cfg.roles);
    JoinsAreGrants(cfg.roles);
    RunAppend(env, AllRoleActs(cfg.roles), AllJoinActs(cfg.roles), st);
    var (here, ok) := Run(env, AllRoleActs(cfg.roles), st);
    if ok {
      GrantsRun(env, here, AllPairs(cfg.roles));
    }
  }

  lemma PairIn(roles: seq<Role>, role: Role, parent: string)
    requires role in roles && parent in role.memberOf
    ensures (role.name, parent) in PairSet(roles)
  {
    JoinsAreGrants(roles);
    assert (role.name, parent) in AllPairs(roles);
  }

  lemma SamePairs(p: seq<Role>, q: seq<Role>)
    requires forall role :: role in p <==> role in q
    ensures PairSet(p) == PairSet(q)
  {
    JoinsAreGrants(p);
    JoinsAreGrants(q);
  }

  /**
   * Two configs that declare the same roles in different orders converge alike: the role phase succeeds for both or
   * for neither, and a success leaves the same roles and memberships.
   */
  lemma RoleOrderIrrelevant(env: Env, p: Config, q: Config, st: Cluster)
    requires DistinctRoles(p.roles) && DistinctRoles(q.roles) && Acyclic(st.members)
    requires forall role :: role in p.roles <==> role in q.roles
    ensures Run(env, RolePhase(p), st).1 <==> Run(env, RolePhase(q), st).1
    ensures Run(env, RolePhase(p), st).1 ==> Run(env, RolePhase(p), st) == Run(env, RolePhase(q), st)
  {
    RolePhaseRun(env, p, st);
    RolePhaseRun(env, q, st);
    SamePairs(p.roles, q.roles);
    var (a, okA) := Run(env, AllRoleActs(p.roles), st);
    var (b, okB) := Run(env, AllRoleActs(q.roles), st);
    assert okA <==> okB;
    if okA {
      GoalUnique(p.roles, q.roles, st.roles, a.roles, b.roles);
    }
  }

  /** What follows the role phase does not look at the roles. */
  lemma SameAfterRoles(name: string, p: Config, roles: seq<Role>)
    ensures AfterRoles(name, p.(roles := roles)) == AfterRoles(name, p)
  {
    var q := p.(roles := roles);
    assert ClauseOfDatabase(q) == ClauseOfDatabase(p);
    assert TuneActs(name, q) == TuneActs(name, p);
    assert DatabaseActs(name, q) == DatabaseActs(name, p);
  }

  /** So reordering the roles of a config changes neither whether it converges nor where to. */
  lemma ConvergeIgnoresRoleOrder(env: Env, name: string, p: Config, roles: seq<Role>, st: Cluster)
    requires DistinctRoles(p.roles) && DistinctRoles(roles) && Acyclic(st.members)
    requires forall role :: role in p.roles <==> role in roles
    ensures var q := p.(roles := roles);
      && Run(env, Plan(name, p), st).1 == Run(env, Plan(name, q), st).1
      && (Run(env, Plan(name, p), st).1 ==> Run(env, Plan(name, p), st).0 == Run(env, Plan(name, q), st).0)
  {
    var q := p.(roles := roles);
    RoleOrderIrrelevant(env, p, q, st);
    SameAfterRoles(name, p, roles);
    RunAppend(env, RolePhase(p), AfterRoles(name, p), st);
    RunAppend(env, RolePhase(q), AfterRoles(name, p), st);
  }
}
