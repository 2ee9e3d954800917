/** Converge and Prune as they run: statement by statement, through weather, following the plan. */
module PgConverge {
  import opened Strings
  import opened Sequences
  import opened PgConfig
  import opened PgCluster
  import opened PgPlan
  import opened PgInForce
  import opened PgPlanFacts
  import opened PgConfluence
  import opened PgFrame
  import opened PgPrune
  import opened PgRunner
  import opened PgStorm
  import opened PgThinned
  import Converging

  // ----- Following a list of acts

  /** The cluster, and what the weather has done so far. */
  datatype Note = Note(st: Cluster, passedOver: bool, diverged: bool)

  ghost function Now(psql: Psql): Note
    reads psql
  {
    Note(psql.st, psql.passedOver, psql.diverged)
  }

  /** The state is one the uninterrupted run goes through; `done` if it is the last. */
  ghost predicate Reached(env: Env, acts: seq<Act>, before: Cluster, after: Cluster, done: bool) {
    exists k: nat ::
      k <= |acts| && after == StateAt(env, acts, before, k) &&
      (done ==> k == |acts| && Passed(env, acts, before, k))
  }

  /**
   * Under calm weather the acts were run. Under any weather the cluster stands where a run leaves it, complete or cut
   * short, that passes some optional extensions over; and where some prefix of the whole run leaves it, unless the
   * weather made an optional extension be passed over and the cluster changed after that.
   */
  ghost predicate Follows(env: Env, calm: bool, acts: seq<Act>, a: Note, b: Note, ok: bool) {
    && (a.passedOver ==> b.passedOver) && (a.diverged ==> b.diverged)
    && Weathered(env, acts, a.st, b.st, ok)
    && (!b.diverged ==>
          if a.passedOver then b.st == a.st else Reached(env, acts, a.st, b.st, ok && !b.passedOver))
    && (calm ==> (b.st, ok) == Run(env, acts, a.st) && b.passedOver == a.passedOver)
  }

  lemma ReachedThen(env: Env, acts: seq<Act>, more: seq<Act>, a: Cluster, b: Cluster, c: Cluster, done: bool)
    requires Reached(env, acts, a, b, true) && Reached(env, more, b, c, done)
    ensures Reached(env, acts + more, a, c, done)
  {
    var j: nat :| j <= |more| && c == StateAt(env, more, b, j) && (done ==> j == |more| && Passed(env, more, b, j));
    var all := acts + more;
    assert acts[..|acts|] == acts;
    assert all[..|acts| + j] == acts + more[..j];
    RunAppend(env, acts, more[..j], a);
    assert StateAt(env, all, a, |acts| + j) == c;
  }

  lemma ReachedPart(env: Env, acts: seq<Act>, more: seq<Act>, a: Cluster, b: Cluster, done: bool)
    requires Reached(env, acts, a, b, done)
    ensures Reached(env, acts + more, a, b, false)
  {
    var k: nat :| k <= |acts| && b == StateAt(env, acts, a, k);
    assert (acts + more)[..k] == acts[..k];
    assert StateAt(env, acts + more, a, k) == b;
  }

  lemma WeatheredOnlyDeclared(env: Env, name: string, cfg: Config, before: Cluster, after: Cluster, done: bool)
    requires Weathered(env, Plan(name, cfg), before, after, done)
    ensures OnlyDeclared(env, name, cfg, before, after)
  {
    var n: nat, kept :| WeatheredBy(env, Plan(name, cfg), before, after, done, n, kept);
    forall act | act in kept
      ensures act in Plan(name, cfg)
    {
      ThinnedIn(Plan(name, cfg)[..n], kept, act);
    }
    RunOnlyDeclared(env, name, cfg, before, kept);
  }

  lemma FollowsThen(env: Env, calm: bool, acts: seq<Act>, more: seq<Act>, a: Note, b: Note, c: Note, ok: bool)
    requires Follows(env, calm, acts, a, b, true) && Follows(env, calm, more, b, c, ok)
    ensures Follows(env, calm, acts + more, a, c, ok)
  {
    RunAppend(env, acts, more, a.st);
    WeatheredThen(env, acts, more, a.st, b.st, c.st, ok);
    if !c.diverged && !a.passedOver {
      if b.passedOver {
        ReachedPart(env, acts, more, a.st, b.st, false);
      } else {
        ReachedThen(env, acts, more, a.st, b.st, c.st, ok && !c.passedOver);
      }
    }
  }

  lemma FollowsStop(env: Env, calm: bool, acts: seq<Act>, more: seq<Act>, a: Note, b: Note)
    requires Follows(env, calm, acts, a, b, false)
    ensures Follows(env, calm, acts + more, a, b, false)
  {
    RunAppend(env, acts, more, a.st);
    WeatheredPart(env, acts, more, a.st, b.st, false);
    if !b.diverged && !a.passedOver {
      ReachedPart(env, acts, more, a.st, b.st, false);
    }
  }

  lemma FollowsNothing(env: Env, calm: bool, a: Note)
    ensures Follows(env, calm, [], a, a, true)
  {
    WeatheredNothing(env, [], a.st);
    assert StateAt(env, [], a.st, 0) == a.st && Passed(env, [], a.st, 0);
  }

  /** One act that was carried out, or left the cluster alone, or stopped after what it could do. */
  lemma FollowsOne(env: Env, calm: bool, act: Act, a: Note, b: Note, ok: bool)
    requires b.passedOver == a.passedOver && (a.diverged ==> b.diverged)
    requires b.diverged || !a.passedOver || b.st == a.st
    requires ok ==> Step(env, a.st, act) == (b.st, true)
    requires !ok ==> b.st == a.st || Step(env, a.st, act) == (b.st, false)
    requires calm ==> Step(env, a.st, act) == (b.st, ok)
    ensures Follows(env, calm, [act], a, b, ok)
  {
    RunSnoc(env, [], act, a.st);
    assert [] + [act] == [act] && [act][..1] == [act] && [act][..0] == [];
    WeatheredNothing(env, [act], a.st);
    WeatheredOne(env, act, a.st);
    if b.st == a.st && !ok {
      assert StateAt(env, [act], a.st, 0) == b.st;
    } else {
      assert StateAt(env, [act], a.st, 1) == b.st;
    }
  }

  /** An optional act passed over because of the weather. */
  lemma FollowsPassedOver(env: Env, act: Act, a: Note, b: Note)
    requires b == a.(passedOver := true) && Passable(act)
    ensures Follows(env, false, [act], a, b, true)
  {
    WeatheredOver(env, act, a.st);
    assert StateAt(env, [act], a.st, 0) == a.st;
  }

  // ----- One statement

  /** A statement sent with retries. */
  method Send(psql: Psql, at: string, stmt: Stmt) returns (err: Option<string>)
    requires psql.Valid() && psql.Serves()
    modifies psql
    ensures psql.Valid() && old(psql.tick) < psql.tick
    ensures Follows(psql.env, psql.Calm(), [Sql(at, stmt)], old(Now(psql)), Now(psql), err.None?)
    ensures err.Some? ==> psql.st == old(psql.st)
    ensures psql.passedOver == old(psql.passedOver)
  {
    ghost var a := Now(psql);
    ghost var from := psql.tick;
    err := psql.ExecRetry(at, stmt);
    SentOnce(psql, at, stmt, from, psql.tick, a.st, psql.st, err, psql.slept - old(psql.slept));
    FollowsOne(psql.env, psql.Calm(), Sql(at, stmt), a, Now(psql), err.None?);
  }

  lemma SentOnce(psql: Psql, at: string, stmt: Stmt, from: nat, to: nat, before: Cluster, after: Cluster,
                 err: Option<string>, slept: int)
    requires psql.Serves() && psql.Retrial(psql.server(before, at, stmt), from, to, before, after, err, slept)
    ensures err.None? ==> Exec(psql.env, before, at, stmt) == Success(after)
    ensures err.Some? ==> after == before
    ensures psql.Calm() ==> (err.None? <==> Exec(psql.env, before, at, stmt).Success?)
  {
  }

  /** A statement sent once. */
  method SendOnce(psql: Psql, at: string, stmt: Stmt) returns (ok: bool)
    requires psql.Valid() && psql.Serves()
    modifies psql
    ensures psql.Valid()
    ensures Follows(psql.env, psql.Calm(), [Sql(at, stmt)], old(Now(psql)), Now(psql), ok)
    ensures psql.passedOver == old(psql.passedOver)
  {
    ghost var a := Now(psql);
    var err := psql.Exec1(at, stmt);
    ok := err.None?;
    FollowsOne(psql.env, psql.Calm(), Sql(at, stmt), a, Now(psql), ok);
  }

  // ----- The phases

  /** convergeRole */
  method ConvergeRole(psql: Psql, role: Role) returns (ok: bool)
    requires psql.Valid() && psql.Serves()
    modifies psql
    ensures psql.Valid()
    ensures Follows(psql.env, psql.Calm(), RoleActs(role), old(Now(psql)), Now(psql), ok)
  {
    ghost var a := Now(psql);
    ghost var calm := psql.Calm();
    var keys := SortedKeys(role.config.Keys);
    ghost var params := ParamActs(role.name, keys, role.config);
    ok := EnsureRoleExists(psql, role);
    if !ok {
      FollowsStop(psql.env, calm, [EnsureRole(role)], params, a, Now(psql));
      FollowsStop(psql.env, calm, [EnsureRole(role)] + params, CommentActs(role), a, Now(psql));
      return;
    }
    ghost var b := Now(psql);
    ok := SetParams(psql, role.name, keys, role.config);
    FollowsThen(psql.env, calm, [EnsureRole(role)], params, a, b, Now(psql), ok);
    if !ok {
      FollowsStop(psql.env, calm, [EnsureRole(role)] + params, CommentActs(role), a, Now(psql));
      return;
    }
    b := Now(psql);
    if role.comment != "" {
      var err := Send(psql, MAINTENANCE_DB, CommentOnRole(role.name, role.comment));
      ok := err.None?;
    } else {
      FollowsNothing(psql.env, calm, b);
    }
    FollowsThen(psql.env, calm, [EnsureRole(role)] + params, CommentActs(role), a, b, Now(psql), ok);
  }

  method EnsureRoleExists(psql: Psql, role: Role) returns (ok: bool)
    requires psql.Valid() && psql.Serves()
    modifies psql
    ensures psql.Valid()
    ensures Follows(psql.env, psql.Calm(), [EnsureRole(role)], old(Now(psql)), Now(psql), ok)
  {
    ghost var a := Now(psql);
    var answer := psql.Ask(RoleThere(role.name));
    if answer.Failure? {
      FollowsOne(psql.env, psql.Calm(), EnsureRole(role), a, Now(psql), false);
      return false;
    }
    var present := answer.value;
    var needAlter := present;
    if !present {
      var err := Create(psql, role);
      if err.None? {
        return true;
      }
      if !RoleExists(err.value) {
        FollowsOne(psql.env, psql.Calm(), EnsureRole(role), a, Now(psql), false);
        return false;
      }
      needAlter := true;
    }
    ok := Alter(psql, role, a);
  }

  /** CREATE ROLE; on success the act is done, on failure nothing happened. */
  method Create(psql: Psql, role: Role) returns (err: Option<string>)
    requires psql.Valid() && psql.Serves() && role.name !in psql.st.roles
    modifies psql
    ensures psql.Valid() && psql.passedOver == old(psql.passedOver) && (old(psql.diverged) ==> psql.diverged)
    ensures err.None? ==> Follows(psql.env, psql.Calm(), [EnsureRole(role)], old(Now(psql)), Now(psql), true)
    ensures err.Some? ==> Now(psql).st == old(psql.st) && psql.diverged == old(psql.diverged)
    ensures err.Some? && psql.Calm() ==> Step(psql.env, old(psql.st), EnsureRole(role)) == (old(psql.st), false)
  {
    ghost var a := Now(psql);
    ghost var from := psql.tick;
    var stmt := CreateRole(role.name, ClauseOf(role));
    err := psql.ExecRetry(MAINTENANCE_DB, stmt);
    SentOnce(psql, MAINTENANCE_DB, stmt, from, psql.tick, a.st, psql.st, err, psql.slept - old(psql.slept));
    if err.None? {
      FollowsOne(psql.env, psql.Calm(), EnsureRole(role), a, Now(psql), true);
    }
  }

  /** ALTER ROLE, of a role that was there or that a failed CREATE reported to be. */
  method Alter(psql: Psql, role: Role, ghost a: Note) returns (ok: bool)
    requires psql.Valid() && psql.Serves() && a == Now(psql)
    requires psql.Calm() && role.name !in psql.st.roles ==> !Step(psql.env, psql.st, EnsureRole(role)).1
    modifies psql
    ensures psql.Valid()
    ensures Follows(psql.env, psql.Calm(), [EnsureRole(role)], a, Now(psql), ok)
  {
    ghost var from := psql.tick;
    var stmt := AlterRole(role.name, ClauseOf(role));
    var err := psql.ExecRetry(MAINTENANCE_DB, stmt);
    SentOnce(psql, MAINTENANCE_DB, stmt, from, psql.tick, a.st, psql.st, err, psql.slept - old(psql.slept));
    ok := err.None?;
    FollowsOne(psql.env, psql.Calm(), EnsureRole(role), a, Now(psql), ok);
  }

  method SetParams(psql: Psql, name: string, keys: seq<string>, config: map<string, string>) returns (ok: bool)
    requires psql.Valid() && psql.Serves()
    requires forall k :: k in keys ==> k in config
    modifies psql
    ensures psql.Valid()
    ensures Follows(psql.env, psql.Calm(), ParamActs(name, keys, config), old(Now(psql)), Now(psql), ok)
  {
    ghost var a := Now(psql);
    ghost var acts := ParamActs(name, keys, config);
    Whole(acts);
    FollowsNothing(psql.env, psql.Calm(), a);
    for i := 0 to |keys|
      invariant psql.Valid()
      invariant Follows(psql.env, psql.Calm(), acts[..i], a, Now(psql), true)
    {
      ghost var b := Now(psql);
      var err := Send(psql, MAINTENANCE_DB, SetParam(name, keys[i], config[keys[i]]));
      FollowsThen(psql.env, psql.Calm(), acts[..i], [acts[i]], a, b, Now(psql), err.None?);
      CutAt(acts, i);
      if err.Some? {
        FollowsStop(psql.env, psql.Calm(), acts[..i + 1], acts[i + 1..], a, Now(psql));
        return false;
      }
    }
    ok := true;
  }

  method ConvergeRoles(psql: Psql, roles: seq<Role>) returns (ok: bool)
    requires psql.Valid() && psql.Serves()
    modifies psql
    ensures psql.Valid()
    ensures Follows(psql.env, psql.Calm(), AllRoleActs(roles), old(Now(psql)), Now(psql), ok)
  {
    ghost var a := Now(psql);
    FollowsNothing(psql.env, psql.Calm(), a);
    for i := 0 to |roles|
      invariant psql.Valid()
      invariant Follows(psql.env, psql.Calm(), AllRoleActs(roles[..i]), a, Now(psql), true)
    {
      ghost var b := Now(psql);
      ok := ConvergeRole(psql, roles[i]);
      RolesSplit(roles, i);
      FollowsThen(psql.env, psql.Calm(), AllRoleActs(roles[..i]), RoleActs(roles[i]), a, b, Now(psql), ok);
      if !ok {
        ghost var rest := RolesRest(roles, i + 1);
        FollowsStop(psql.env, psql.Calm(), AllRoleActs(roles[..i + 1]), rest, a, Now(psql));
        return;
      }
    }
    assert roles[..|roles|] == roles;
    ok := true;
  }

  lemma RolesSplit(roles: seq<Role>, i: nat)
    requires i < |roles|
    ensures AllRoleActs(roles[..i + 1]) == AllRoleActs(roles[..i]) + RoleActs(roles[i])
    ensures AllJoinActs(roles[..i + 1]) == AllJoinActs(roles[..i]) + JoinActs(roles[i])
  {
    assert roles[..i + 1][..i] == roles[..i];
  }

  lemma {:induction false} RolesRest(roles: seq<Role>, i: nat) returns (rest: seq<Act>)
    requires i <= |roles|
    ensures AllRoleActs(roles) == AllRoleActs(roles[..i]) + rest
    decreases |roles| - i
  {
    if i == |roles| {
      assert roles[..i] == roles;
      rest := [];
    } else {
      RolesSplit(roles, i);
      rest := RolesRest(roles, i + 1);
      Associative(AllRoleActs(roles[..i]), RoleActs(roles[i]), rest);
      rest := RoleActs(roles[i]) + rest;
    }
  }

  lemma {:induction false} JoinsRest(roles: seq<Role>, i: nat) returns (rest: seq<Act>)
    requires i <= |roles|
    ensures AllJoinActs(roles) == AllJoinActs(roles[..i]) + rest
    decreases |roles| - i
  {
    if i == |roles| {
      assert roles[..i] == roles;
      rest := [];
    } else {
      RolesSplit(roles, i);
      rest := JoinsRest(roles, i + 1);
      Associative(AllJoinActs(roles[..i]), JoinActs(roles[i]), rest);
      rest := JoinActs(roles[i]) + rest;
    }
  }

  method JoinGroups(psql: Psql, role: Role) returns (ok: bool)
    requires psql.Valid() && psql.Serves()
    modifies psql
    ensures psql.Valid()
    ensures Follows(psql.env, psql.Calm(), JoinActs(role), old(Now(psql)), Now(psql), ok)
  {
    ghost var a := Now(psql);
    ghost var acts := JoinActs(role);
    Whole(acts);
    FollowsNothing(psql.env, psql.Calm(), a);
    for i := 0 to |role.memberOf|
      invariant psql.Valid()
      invariant Follows(psql.env, psql.Calm(), acts[..i], a, Now(psql), true)
    {
      ghost var b := Now(psql);
      var err := Send(psql, MAINTENANCE_DB, GrantRole(role.memberOf[i], role.name));
      FollowsThen(psql.env, psql.Calm(), acts[..i], [acts[i]], a, b, Now(psql), err.None?);
      CutAt(acts, i);
      if err.Some? {
        FollowsStop(psql.env, psql.Calm(), acts[..i + 1], acts[i + 1..], a, Now(psql));
        return false;
      }
    }
    ok := true;
  }

  method ConvergeMemberships(psql: Psql, roles: seq<Role>) returns (ok: bool)
    requires psql.Valid() && psql.Serves()
    modifies psql
    ensures psql.Valid()
    ensures Follows(psql.env, psql.Calm(), AllJoinActs(roles), old(Now(psql)), Now(psql), ok)
  {
    ghost var a := Now(psql);
    FollowsNothing(psql.env, psql.Calm(), a);
    for i := 0 to |roles|
      invariant psql.Valid()
      invariant Follows(psql.env, psql.Calm(), AllJoinActs(roles[..i]), a, Now(psql), true)
    {
      ghost var b := Now(psql);
      ok := JoinGroups(psql, roles[i]);
      RolesSplit(roles, i);
      FollowsThen(psql.env, psql.Calm(), AllJoinActs(roles[..i]), JoinActs(roles[i]), a, b, Now(psql), ok);
      if !ok {
        ghost var rest := JoinsRest(roles, i + 1);
        FollowsStop(psql.env, psql.Calm(), AllJoinActs(roles[..i + 1]), rest, a, Now(psql));
        return;
      }
    }
    assert roles[..|roles|] == roles;
    ok := true;
  }

  /** The first half of convergeDatabase: create the database, or give it its owner. */
  method EnsureDatabaseExists(psql: Psql, name: string, create: DbClause, owner: string) returns (ok: bool)
    requires psql.Valid() && psql.Serves()
    modifies psql
    ensures psql.Valid()
    ensures Follows(psql.env, psql.Calm(), [EnsureDatabase(name, create, owner)], old(Now(psql)), Now(psql), ok)
  {
    ghost var a := Now(psql);
    ghost var act := EnsureDatabase(name, create, owner);
    var answer := psql.Ask(DatabaseThere(name));
    if answer.Failure? {
      FollowsOne(psql.env, psql.Calm(), act, a, Now(psql), false);
      return false;
    }
    ok := true;
    if !answer.value {
      var err := psql.Exec1(MAINTENANCE_DB, CreateDatabase(name, create));
      ok := err.None?;
    } else if owner != "" {
      ghost var from, slept := psql.tick, psql.slept;
      var err := psql.ExecRetry(MAINTENANCE_DB, AlterOwner(name, owner));
      SentOnce(psql, MAINTENANCE_DB, AlterOwner(name, owner), from, psql.tick, a.st, psql.st, err, psql.slept - slept);
      ok := err.None?;
    }
    FollowsOne(psql.env, psql.Calm(), act, a, Now(psql), ok);
  }

  /** convergeDatabase */
  method ConvergeDatabase(psql: Psql, name: string, cfg: Config) returns (ok: bool)
    requires psql.Valid() && psql.Serves()
    modifies psql
    ensures psql.Valid()
    ensures Follows(psql.env, psql.Calm(), DatabaseActs(name, cfg), old(Now(psql)), Now(psql), ok)
  {
    ghost var a, calm := Now(psql), psql.Calm();
    ghost var first := [EnsureDatabase(name, ClauseOfDatabase(cfg), cfg.owner)];
    ghost var comment := if cfg.comment == "" then [] else [Sql(MAINTENANCE_DB, CommentOnDatabase(name, cfg.comment))];
    assert DatabaseActs(name, cfg) == first + TuneActs(name, cfg) + comment;
    ok := EnsureDatabaseExists(psql, name, ClauseOfDatabase(cfg), cfg.owner);
    if !ok {
      FollowsStop(psql.env, calm, first, TuneActs(name, cfg), a, Now(psql));
      FollowsStop(psql.env, calm, first + TuneActs(name, cfg), comment, a, Now(psql));
      return;
    }
    ghost var b := Now(psql);
    ok := TuneDatabase(psql, name, cfg);
    FollowsThen(psql.env, calm, first, TuneActs(name, cfg), a, b, Now(psql), ok);
    if !ok {
      FollowsStop(psql.env, calm, first + TuneActs(name, cfg), comment, a, Now(psql));
      return;
    }
    b := Now(psql);
    if cfg.comment != "" {
      var err := Send(psql, MAINTENANCE_DB, CommentOnDatabase(name, cfg.comment));
      ok := err.None?;
    } else {
      FollowsNothing(psql.env, calm, b);
    }
    FollowsThen(psql.env, calm, first + TuneActs(name, cfg), comment, a, b, Now(psql), ok);
  }

  /** The options of ALTER DATABASE, collected and sent if there are any. */
  method TuneDatabase(psql: Psql, name: string, cfg: Config) returns (ok: bool)
    requires psql.Valid() && psql.Serves()
    modifies psql
    ensures psql.Valid()
    ensures Follows(psql.env, psql.Calm(), TuneActs(name, cfg), old(Now(psql)), Now(psql), ok)
  {
    var limit: Option<int>, template, deny, any := None, false, false, false;
    if cfg.connectionLimit != UNLIMITED_CONNECTIONS {
      limit, any := Some(cfg.connectionLimit), true;
    }
    if cfg.isTemplate {
      template, any := true, true;
    }
    if !cfg.allowConns {
      deny, any := true, true;
    }
    if any {
      var err := Send(psql, MAINTENANCE_DB, AlterDatabase(name, limit, template, deny));
      ok := err.None?;
    } else {
      FollowsNothing(psql.env, psql.Calm(), Now(psql));
      ok := true;
    }
  }

  method ConvergeSchemas(psql: Psql, name: string, schemas: seq<Schema>) returns (ok: bool)
    requires psql.Valid() && psql.Serves()
    modifies psql
    ensures psql.Valid()
    ensures Follows(psql.env, psql.Calm(), SchemaActs(name, schemas), old(Now(psql)), Now(psql), ok)
  {
    ghost var a, acts := Now(psql), SchemaActs(name, schemas);
    Whole(acts);
    FollowsNothing(psql.env, psql.Calm(), a);
    for i := 0 to |schemas|
      invariant psql.Valid()
      invariant Follows(psql.env, psql.Calm(), acts[..i], a, Now(psql), true)
    {
      ghost var b := Now(psql);
      ok := SendOnce(psql, name, CreateSchema(schemas[i].name, schemas[i].owner));
      FollowsThen(psql.env, psql.Calm(), acts[..i], [acts[i]], a, b, Now(psql), ok);
      CutAt(acts, i);
      if !ok {
        FollowsStop(psql.env, psql.Calm(), acts[..i + 1], acts[i + 1..], a, Now(psql));
        return;
      }
    }
    ok := true;
  }

  // ----- Extensions

  /** A bundle fetched, if there is one to fetch; failing that, an optional extension is passed over. */
  method FetchExtension(psql: Psql, ext: Extension) returns (ok: bool)
    requires psql.Valid() && psql.Serves()
    modifies psql
    ensures psql.Valid()
    ensures Follows(psql.env, psql.Calm(), if ext.source == "" then [] else [FetchBundle(ext)],
                    old(Now(psql)), Now(psql), ok)
  {
    ghost var a := Now(psql);
    ok := true;
    if ext.source == "" {
      FollowsNothing(psql.env, psql.Calm(), a);
    } else if RealName(ext.name) in psql.st.files {
      FollowsOne(psql.env, psql.Calm(), FetchBundle(ext), a, Now(psql), true);
    } else {
      var installed := psql.Install(RealName(ext.name), ext.source);
      ok := installed || ext.optional;
      if psql.weather(psql.tick - 1).Some? && ext.optional {
        psql.NotePassedOver();
        FollowsPassedOver(psql.env, FetchBundle(ext), a, Now(psql));
      } else {
        FollowsOne(psql.env, psql.Calm(), FetchBundle(ext), a, Now(psql), ok);
      }
    }
  }

  /** CREATE EXTENSION, if the toolchain has it; an optional one may fail. */
  method MakeExtensionNow(psql: Psql, name: string, ext: Extension) returns (ok: bool)
    requires psql.Valid() && psql.Serves()
    modifies psql
    ensures psql.Valid()
    ensures Follows(psql.env, psql.Calm(), [MakeExtension(name, ext)], old(Now(psql)), Now(psql), ok)
  {
    ghost var a := Now(psql);
    if RealName(ext.name) !in psql.st.files {
      FollowsOne(psql.env, psql.Calm(), MakeExtension(name, ext), a, Now(psql), ext.optional);
      return ext.optional;
    }
    var err := psql.Exec1(name, MakeStmt(ext));
    ok := err.None? || ext.optional;
    if psql.weather(psql.tick - 1).Some? && ext.optional {
      psql.NotePassedOver();
      FollowsPassedOver(psql.env, MakeExtension(name, ext), a, Now(psql));
    } else {
      FollowsOne(psql.env, psql.Calm(), MakeExtension(name, ext), a, Now(psql), ok);
    }
  }

  method ConvergeExtension(psql: Psql, name: string, ext: Extension) returns (ok: bool)
    requires psql.Valid() && psql.Serves()
    modifies psql
    ensures psql.Valid()
    ensures Follows(psql.env, psql.Calm(), ExtensionActs(name, ext), old(Now(psql)), Now(psql), ok)
  {
    ghost var a := Now(psql);
    ghost var fetch := if ext.source == "" then [] else [FetchBundle(ext)];
    ok := FetchExtension(psql, ext);
    if !ok {
      FollowsStop(psql.env, psql.Calm(), fetch, [MakeExtension(name, ext)], a, Now(psql));
      return;
    }
    ghost var b := Now(psql);
    ok := MakeExtensionNow(psql, name, ext);
    FollowsThen(psql.env, psql.Calm(), fetch, [MakeExtension(name, ext)], a, b, Now(psql), ok);
  }

  lemma ExtensionsSplit(name: string, exts: seq<Extension>, i: nat)
    requires i < |exts|
    ensures AllExtensionActs(name, exts[..i + 1]) == AllExtensionActs(name, exts[..i]) + ExtensionActs(name, exts[i])
  {
    assert exts[..i + 1][..i] == exts[..i];
  }

  lemma {:induction false} ExtensionsRest(name: string, exts: seq<Extension>, i: nat) returns (rest: seq<Act>)
    requires i <= |exts|
    ensures AllExtensionActs(name, exts) == AllExtensionActs(name, exts[..i]) + rest
    decreases |exts| - i
  {
    if i == |exts| {
      assert exts[..i] == exts;
      rest := [];
    } else {
      ExtensionsSplit(name, exts, i);
      rest := ExtensionsRest(name, exts, i + 1);
      Associative(AllExtensionActs(name, exts[..i]), ExtensionActs(name, exts[i]), rest);
      rest := ExtensionActs(name, exts[i]) + rest;
    }
  }

  method ConvergeExtensions(psql: Psql, name: string, exts: seq<Extension>) returns (ok: bool)
    requires psql.Valid() && psql.Serves()
    modifies psql
    ensures psql.Valid()
    ensures Follows(psql.env, psql.Calm(), AllExtensionActs(name, exts), old(Now(psql)), Now(psql), ok)
  {
    ghost var a := Now(psql);
    FollowsNothing(psql.env, psql.Calm(), a);
    for i := 0 to |exts|
      invariant psql.Valid()
      invariant Follows(psql.env, psql.Calm(), AllExtensionActs(name, exts[..i]), a, Now(psql), true)
    {
      ghost var b := Now(psql);
      ok := ConvergeExtension(psql, name, exts[i]);
      ExtensionsSplit(name, exts, i);
      FollowsThen(psql.env, psql.Calm(), AllExtensionActs(name, exts[..i]), ExtensionActs(name, exts[i]), a, b,
                  Now(psql), ok);
      if !ok {
        ghost var rest := ExtensionsRest(name, exts, i + 1);
        FollowsStop(psql.env, psql.Calm(), AllExtensionActs(name, exts[..i + 1]), rest, a, Now(psql));
        return;
      }
    }
    assert exts[..|exts|] == exts;
    ok := true;
  }

  // ----- Grants

  /** convergeGrant */
  method ConvergeGrant(psql: Psql, name: string, g: Grant) returns (ok: bool)
    requires psql.Valid() && psql.Serves()
    modifies psql
    ensures psql.Valid()
    ensures Follows(psql.env, psql.Calm(), GrantActs(name, g), old(Now(psql)), Now(psql), ok)
  {
    ghost var a := Now(psql);
    var err;
    if g.database != "" {
      err := Send(psql, MAINTENANCE_DB, GrantOnDatabase(g));
    } else if g.objects != "" {
      ghost var first, second := [Sql(name, GrantOnAll(g))], [Sql(name, DefaultPrivileges(g))];
      assert GrantActs(name, g) == first + second;
      err := Send(psql, name, GrantOnAll(g));
      if err.Some? {
        FollowsStop(psql.env, psql.Calm(), first, second, a, Now(psql));
        return false;
      }
      ghost var b := Now(psql);
      err := Send(psql, name, DefaultPrivileges(g));
      FollowsThen(psql.env, psql.Calm(), first, second, a, b, Now(psql), err.None?);
    } else {
      err := Send(psql, name, GrantOnSchema(g));
    }
    ok := err.None?;
  }

  lemma GrantsSplit(name: string, grants: seq<Grant>, i: nat)
    requires i < |grants|
    ensures AllGrantActs(name, grants[..i + 1]) == AllGrantActs(name, grants[..i]) + GrantActs(name, grants[i])
  {
    assert grants[..i + 1][..i] == grants[..i];
  }

  lemma {:induction false} GrantsRest(name: string, grants: seq<Grant>, i: nat) returns (rest: seq<Act>)
    requires i <= |grants|
    ensures AllGrantActs(name, grants) == AllGrantActs(name, grants[..i]) + rest
    decreases |grants| - i
  {
    if i == |grants| {
      assert grants[..i] == grants;
      rest := [];
    } else {
      GrantsSplit(name, grants, i);
      rest := GrantsRest(name, grants, i + 1);
      Associative(AllGrantActs(name, grants[..i]), GrantActs(name, grants[i]), rest);
      rest := GrantActs(name, grants[i]) + rest;
    }
  }

  method ConvergeGrants(psql: Psql, name: string, grants: seq<Grant>) returns (ok: bool)
    requires psql.Valid() && psql.Serves()
    modifies psql
    ensures psql.Valid()
    ensures Follows(psql.env, psql.Calm(), AllGrantActs(name, grants), old(Now(psql)), Now(psql), ok)
  {
    ghost var a := Now(psql);
    FollowsNothing(psql.env, psql.Calm(), a);
    for i := 0 to |grants|
      invariant psql.Valid()
      invariant Follows(psql.env, psql.Calm(), AllGrantActs(name, grants[..i]), a, Now(psql), true)
    {
      ghost var b := Now(psql);
      ok := ConvergeGrant(psql, name, grants[i]);
      GrantsSplit(name, grants, i);
      FollowsThen(psql.env, psql.Calm(), AllGrantActs(name, grants[..i]), GrantActs(name, grants[i]), a, b, Now(psql), ok);
      if !ok {
        ghost var rest := GrantsRest(name, grants, i + 1);
        FollowsStop(psql.env, psql.Calm(), AllGrantActs(name, grants[..i + 1]), rest, a, Now(psql));
        return;
      }
    }
    assert grants[..|grants|] == grants;
    ok := true;
  }

  // ----- Converge

  /** Two phases in a row, the second only if the first went through. */
  lemma Sequenced(env: Env, calm: bool, acts: seq<Act>, more: seq<Act>, a: Note, b: Note, c: Note, first: bool, ok: bool)
    requires Follows(env, calm, acts, a, b, first)
    requires if first then Follows(env, calm, more, b, c, ok) else c == b && !ok
    ensures Follows(env, calm, acts + more, a, c, ok)
  {
    if first {
      FollowsThen(env, calm, acts, more, a, b, c, ok);
    } else {
      FollowsStop(env, calm, acts, more, a, b);
    }
  }

  method ConvergeRolePhase(psql: Psql, cfg: Config) returns (ok: bool)
    requires psql.Valid() && psql.Serves()
    modifies psql
    ensures psql.Valid()
    ensures Follows(psql.env, psql.Calm(), RolePhase(cfg), old(Now(psql)), Now(psql), ok)
  {
    ghost var a := Now(psql);
    ok := ConvergeRoles(psql, cfg.roles);
    ghost var b, first := Now(psql), ok;
    if ok {
      ok := ConvergeMemberships(psql, cfg.roles);
    }
    Sequenced(psql.env, psql.Calm(), AllRoleActs(cfg.roles), AllJoinActs(cfg.roles), a, b, Now(psql), first, ok);
  }

  /** Converge */
  method Converge(psql: Psql, name: string, cfg: Config) returns (ok: bool)
    requires psql.Valid() && psql.Serves()
    modifies psql
    ensures psql.Valid()
    ensures Follows(psql.env, psql.Calm(), Plan(name, cfg), old(Now(psql)), Now(psql), ok)
    ensures OnlyDeclared(psql.env, name, cfg, old(psql.st), psql.st)
  {
    ghost var a, calm := Now(psql), psql.Calm();
    ok := ConvergeRolePhase(psql, cfg);
    ghost var b, first := Now(psql), ok;
    if ok {
      ok := ConvergeAfterRoles(psql, name, cfg);
    }
    Sequenced(psql.env, calm, RolePhase(cfg), AfterRoles(name, cfg), a, b, Now(psql), first, ok);
    WeatheredOnlyDeclared(psql.env, name, cfg, a.st, psql.st, ok);
  }

  method ConvergeAfterRoles(psql: Psql, name: string, cfg: Config) returns (ok: bool)
    requires psql.Valid() && psql.Serves()
    modifies psql
    ensures psql.Valid()
    ensures Follows(psql.env, psql.Calm(), AfterRoles(name, cfg), old(Now(psql)), Now(psql), ok)
  {
    ghost var a, calm := Now(psql), psql.Calm();
    ghost var acts := DatabaseActs(name, cfg);
    ok := ConvergeDatabase(psql, name, cfg);
    ghost var b, first := Now(psql), ok;
    if ok {
      ok := ConvergeSchemas(psql, name, cfg.schemas);
    }
    Sequenced(psql.env, calm, acts, SchemaActs(name, cfg.schemas), a, b, Now(psql), first, ok);
    acts := acts + SchemaActs(name, cfg.schemas);
    b, first := Now(psql), ok;
    if ok {
      ok := ConvergeExtensions(psql, name, cfg.extensions);
    }
    Sequenced(psql.env, calm, acts, AllExtensionActs(name, cfg.extensions), a, b, Now(psql), first, ok);
    acts := acts + AllExtensionActs(name, cfg.extensions);
    b, first := Now(psql), ok;
    if ok {
      ok := ConvergeGrants(psql, name, cfg.grants);
    }
    Sequenced(psql.env, calm, acts, AllGrantActs(name, cfg.grants), a, b, Now(psql), first, ok);
  }

  // ----- Faults, then calm

  /** The process dies at interaction `dies`: from then on nothing gets through. */
  ghost predicate CrashesAt(weather: nat -> Option<string>, dies: nat) {
    forall n: nat :: weather(n).None? <==> n < dies
  }

  /** Where a run of any weather left the cluster, a calm one goes on as if there had been none. */
  lemma CalmResumes(env: Env, name: string, cfg: Config, calm: bool, a: Note, b: Note, ok: bool)
    requires Fair(env) && WellFormed(cfg) && Settled(env, Plan(name, cfg), a.st)
    requires Follows(env, calm, Plan(name, cfg), a, b, ok) && !a.passedOver && !b.diverged
    ensures Run(env, Plan(name, cfg), b.st) == Run(env, Plan(name, cfg), a.st)
  {
    var acts := Plan(name, cfg);
    var k: nat :| k <= |acts| && b.st == StateAt(env, acts, a.st, k);
    ConvergeResumes(env, name, cfg, a.st, k);
  }

  /** Where a run of any weather left the cluster of a sturdy config, a calm one makes it as if there had been none. */
  lemma SturdyResumes(env: Env, name: string, cfg: Config, before: Cluster, after: Cluster, ok: bool)
    requires Fair(env) && WellFormed(cfg) && Sturdy(env, cfg.extensions)
    requires Weathered(env, Plan(name, cfg), before, after, ok)
    ensures Run(env, Plan(name, cfg), after) == Run(env, Plan(name, cfg), before)
  {
    var n: nat, kept :| WeatheredBy(env, Plan(name, cfg), before, after, ok, n, kept);
    SturdyForgets(env, name, cfg, n, kept, before);
  }

  lemma StormForgotten(env: Env, name: string, cfg: Config, calm: bool, a: Note, b: Note, ok: bool)
    requires Fair(env) && WellFormed(cfg) && Follows(env, calm, Plan(name, cfg), a, b, ok) && !a.passedOver
    ensures Sturdy(env, cfg.extensions) || (Settled(env, Plan(name, cfg), a.st) && !b.diverged) ==>
      Run(env, Plan(name, cfg), b.st) == Run(env, Plan(name, cfg), a.st)
  {
    if Sturdy(env, cfg.extensions) {
      SturdyResumes(env, name, cfg, a.st, b.st, ok);
    } else if Settled(env, Plan(name, cfg), a.st) && !b.diverged {
      CalmResumes(env, name, cfg, calm, a, b, ok);
    }
  }

  /** Nothing happens after the fault that makes an extension be passed over, if it is the fault of a dying process. */
  lemma CrashLeavesNoTrace(psql: Psql)
    requires psql.Valid()
    ensures forall dies :: CrashesAt(psql.weather, dies) ==> !psql.diverged
  {
  }

  /**
   * A convergence in any weather, followed by one that is left alone, ends in the state, and with the outcome, of a
   * single convergence that is left alone: always if the config is sturdy, and otherwise where the single one would
   * settle, unless a fault made an optional extension be passed over and the cluster was changed after that, which a
   * process that dies never does.
   */
  method StormThenCalm(stormy: Psql, name: string, cfg: Config) returns (calm: Psql, ok: bool)
    requires stormy.Valid() && stormy.Serves() && !stormy.passedOver && !stormy.diverged
    requires Fair(stormy.env) && WellFormed(cfg)
    modifies stormy
    ensures fresh(calm)
    ensures Sturdy(stormy.env, cfg.extensions) ==> (calm.st, ok) == Run(stormy.env, Plan(name, cfg), old(stormy.st))
    ensures Settled(stormy.env, Plan(name, cfg), old(stormy.st)) && !stormy.diverged ==>
      (calm.st, ok) == Run(stormy.env, Plan(name, cfg), old(stormy.st))
    ensures forall dies :: CrashesAt(stormy.weather, dies) ==> !stormy.diverged
  {
    ghost var a := Now(stormy);
    ok := Converge(stormy, name, cfg);
    StormForgotten(stormy.env, name, cfg, stormy.Calm(), a, Now(stormy), ok);
    CrashLeavesNoTrace(stormy);
    calm := new Psql(stormy.env, n => None, n => false, stormy.st);
    ok := Converge(calm, name, cfg);
  }

  // ----- Objects and Prune

  /** Driver.Objects */
  method ListObjects(name: string, cfg: Config) returns (objs: seq<Object>)
    ensures objs == Objects(name, cfg)
  {
    objs := [];
    for i := 0 to |cfg.roles|
      invariant objs == RoleObjects(cfg.roles)[..i]
    {
      objs := objs + [Object(RoleKind, cfg.roles[i].name)];
    }
    objs := objs + [Object(DatabaseKind, name)];
    ghost var first := RoleObjects(cfg.roles) + [Object(DatabaseKind, name)];
    for i := 0 to |cfg.schemas|
      invariant objs == first + SchemaObjects(cfg.schemas)[..i]
    {
      objs := objs + [Object(SchemaKind, cfg.schemas[i].name)];
    }
    for i := 0 to |cfg.extensions|
      invariant objs == first + SchemaObjects(cfg.schemas) + ExtensionObjects(cfg.extensions)[..i]
    {
      objs := objs + [Object(ExtensionKind, cfg.extensions[i].name)];
    }
  }

  /** Driver.Prune: an object of no known kind is passed over, the first failure ends it. */
  method Prune(psql: Psql, name: string, removed: seq<Object>) returns (ok: bool)
    requires psql.Valid() && psql.Serves()
    modifies psql
    ensures psql.Valid()
    ensures psql.Calm() ==> (psql.st, ok) == PruneRun(psql.env, name, removed, old(psql.st))
    ensures exists k: nat ::
      k <= |removed| && psql.st == PruneRun(psql.env, name, removed[..k], old(psql.st)).0 &&
      (ok ==> k == |removed| && PruneRun(psql.env, name, removed, old(psql.st)).1)
  {
    ghost var before := psql.st;
    assert removed[..0] == [];
    for i := 0 to |removed|
      invariant psql.Valid()
      invariant PruneRun(psql.env, name, removed[..i], before) == (psql.st, true)
    {
      ghost var here := psql.st;
      assert removed == removed[..i] + [removed[i]] + removed[i + 1..];
      assert removed[..i + 1] == removed[..i] + [removed[i]];
      Converging.RunAppend(Dropping(psql.env, name), removed[..i], [removed[i]], before);
      Converging.RunOne(Dropping(psql.env, name), removed[i], here);
      var o := removed[i];
      var at, stmt;
      match o.kind {
        case ExtensionKind => at, stmt := name, DropExtension(o.name);
        case SchemaKind => at, stmt := name, DropSchema(o.name);
        case DatabaseKind => at, stmt := MAINTENANCE_DB, DropDatabase(o.name);
        case RoleKind => at, stmt := MAINTENANCE_DB, DropRole(o.name);
        case OtherKind => continue;
      }
      var err := psql.Exec1(at, stmt);
      if err.Some? {
        Converging.RunAppend(Dropping(psql.env, name), removed[..i + 1], removed[i + 1..], before);
        return false;
      }
    }
    assert removed[..|removed|] == removed;
    ok := true;
  }
}
