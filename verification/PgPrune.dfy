/** Objects and Prune: taking down what convergence put up. */
module PgPrune {
  import opened Strings
  import opened PgConfig
  import opened PgCluster
  import opened PgPlan
  import opened PgInForce
  import opened PgPlanFacts
  import opened PgConfluence
  import opened PgFrame
  import opened PgTarget
  import Converging

  datatype Kind = RoleKind | DatabaseKind | SchemaKind | ExtensionKind | OtherKind

  /** engine.Object without its fingerprint, which Prune does not look at. */
  datatype Object = Object(kind: Kind, name: string)

  function RoleObjects(roles: seq<Role>): (objs: seq<Object>)
    ensures |objs| == |roles|
  {
    seq(|roles|, i requires 0 <= i < |roles| => Object(RoleKind, roles[i].name))
  }

  function SchemaObjects(schemas: seq<Schema>): (objs: seq<Object>)
    ensures |objs| == |schemas|
  {
    seq(|schemas|, i requires 0 <= i < |schemas| => Object(SchemaKind, schemas[i].name))
  }

  function ExtensionObjects(exts: seq<Extension>): (objs: seq<Object>)
    ensures |objs| == |exts|
  {
    seq(|exts|, i requires 0 <= i < |exts| => Object(ExtensionKind, exts[i].name))
  }

  /** The managed objects in the order they are created. */
  function Objects(name: string, cfg: Config): seq<Object> {
    RoleObjects(cfg.roles) + ([Object(DatabaseKind, name)] + (SchemaObjects(cfg.schemas) + ExtensionObjects(cfg.extensions)))
  }

  function DropOrder(name: string, cfg: Config): seq<Object> {
    Converging.Reversed(Objects(name, cfg))
  }

  lemma ReverseConcat<T(!new)>(a: seq<T>, b: seq<T>)
    ensures Converging.Reversed(a + b) == Converging.Reversed(b) + Converging.Reversed(a)
  {
  }

  /** The statement that drops an object, and the database it is sent through. */
  function DropOf(name: string, o: Object): Option<(string, Stmt)> {
    match o.kind
    case ExtensionKind => Some((name, DropExtension(o.name)))
    case SchemaKind => Some((name, DropSchema(o.name)))
    case DatabaseKind => Some((MAINTENANCE_DB, DropDatabase(o.name)))
    case RoleKind => Some((MAINTENANCE_DB, DropRole(o.name)))
    case OtherKind => None
  }

  function Drop(env: Env, name: string, st: Cluster, o: Object): (Cluster, bool) {
    match DropOf(name, o)
    case None => (st, true)
    case Some(drop) => After(st, Exec(env, st, drop.0, drop.1), false)
  }

  function Dropping(env: Env, name: string): Converging.Stepper<Cluster, Object> {
    (st, o) => Drop(env, name, st, o)
  }

  /** Prune */
  function PruneRun(env: Env, name: string, objs: seq<Object>, st: Cluster): (Cluster, bool) {
    Converging.Run(Dropping(env, name), objs, st)
  }

  /** The server parses every drop. */
  ghost predicate TakesDrops(env: Env) {
    forall at, stmt: Stmt ::
      stmt.DropExtension? || stmt.DropSchema? || stmt.DropDatabase? || stmt.DropRole? ==> env.refuses(at, stmt).None?
  }

  // ----- The three stages

  /** The same database, however little is left in it. */
  predicate Emptied(db: Db, db': Db) {
    db' == db.(schemas := db'.schemas, exts := db'.exts, privs := db'.privs)
  }

  lemma {:induction false} DropContents(env: Env, name: string, objs: seq<Object>, st: Cluster)
    requires TakesDrops(env) && name in st.dbs
    requires forall o :: o in objs ==> o.kind == SchemaKind || o.kind == ExtensionKind
    ensures PruneRun(env, name, objs, st).1 <==> objs == [] || Connectable(st, name)
    ensures PruneRun(env, name, objs, st).1 ==>
      var after := PruneRun(env, name, objs, st).0;
      name in after.dbs && Emptied(st.dbs[name], after.dbs[name]) && after == WithDb(st, name, after.dbs[name])
    decreases |objs|
  {
    if objs == [] {
      SameDb(st, name);
    } else if Connectable(st, name) {
      var drop := DropOf(name, objs[0]).value;
      var next := Exec(env, st, drop.0, drop.1).value;
      SameDb(st, name);
      DropContents(env, name, objs[1..], next);
      assert next == WithDb(st, name, next.dbs[name]);
      var after := PruneRun(env, name, objs[1..], next).0;
      assert after.dbs == next.dbs[name := after.dbs[name]] == st.dbs[name := after.dbs[name]];
    }
  }

  /** The extensions that a drop names, or that live in a schema a drop names. */
  function Dropped(db: Db, objs: set<Object>): set<string> {
    set e | e in db.exts &&
      (Object(ExtensionKind, e) in objs
       || (Home(db.exts[e]) in db.schemas && Object(SchemaKind, Home(db.exts[e])) in objs))
  }

  /**
   * What is left of a database: the schemas that are not named, the privileges on them, and the extensions of which
   * neither they nor any they need are dropped.
   */
  function Remaining(env: Env, db: Db, objs: set<Object>): Db {
    WithoutExtensions(env, db, Dropped(db, objs)).(
      schemas := map s | s in db.schemas && Object(SchemaKind, s) !in objs :: db.schemas[s],
      privs := set p | p in db.privs && (p.schema in db.schemas ==> Object(SchemaKind, p.schema) !in objs))
  }

  /** What is needed by what is needed is needed. */
  ghost predicate Transitive(env: Env) {
    forall e, d :: d in env.needs(e) ==> env.needs(d) <= env.needs(e)
  }

  lemma OneDrop(env: Env, db: Db, o: Object)
    ensures o.kind == SchemaKind ==>
      Remaining(env, db, {o}) == if o.name in db.schemas then WithoutSchema(env, db, o.name) else db
    ensures o.kind == ExtensionKind ==>
      Remaining(env, db, {o}) == if o.name in db.exts then WithoutExtensions(env, db, {o.name}) else db
  {
    if o.kind == SchemaKind {
      OneSchema(env, db, o);
    } else if o.kind == ExtensionKind {
      OneExtension(env, db, o);
    }
  }

  lemma OneSchema(env: Env, db: Db, o: Object)
    requires o.kind == SchemaKind
    ensures Remaining(env, db, {o}) == if o.name in db.schemas then WithoutSchema(env, db, o.name) else db
  {
    var rest := Remaining(env, db, {o});
    assert Dropped(db, {o}) == if o.name in db.schemas then LivingIn(db, o.name) else {};
    assert rest.schemas == db.schemas - {o.name};
    assert o.name !in db.schemas ==> rest.exts == db.exts && rest.privs == db.privs;
  }

  lemma OneExtension(env: Env, db: Db, o: Object)
    requires o.kind == ExtensionKind
    ensures Remaining(env, db, {o}) == if o.name in db.exts then WithoutExtensions(env, db, {o.name}) else db
  {
    var rest := Remaining(env, db, {o});
    assert Dropped(db, {o}) == if o.name in db.exts then {o.name} else {};
    assert rest.schemas == db.schemas;
    assert rest.privs == db.privs;
    assert o.name !in db.exts ==> rest.exts == db.exts;
  }

  /** An extension left by the first drop is dropped by the later ones exactly if all of them together drop it. */
  lemma DroppedThen(env: Env, db: Db, o: Object, objs: set<Object>, e: string)
    requires Transitive(env) && e in db.exts
    ensures var next := Remaining(env, db, {o});
      (e in next.exts && e !in Dropped(next, objs) && env.needs(e) !! Dropped(next, objs)) <==>
      (e !in Dropped(db, {o} + objs) && env.needs(e) !! Dropped(db, {o} + objs))
  {
    var next := Remaining(env, db, {o});
    forall d | d in db.exts
      ensures d in Dropped(db, {o} + objs) <==> d in Dropped(db, {o}) || d in Dropped(db, objs)
      ensures d in Dropped(next, objs) ==> d in Dropped(db, objs)
      ensures d in Dropped(db, objs) && d in next.exts && d !in Dropped(db, {o}) ==> d in Dropped(next, objs)
    {
    }
  }

  lemma DropsCompose(env: Env, db: Db, o: Object, objs: set<Object>)
    requires Transitive(env)
    ensures Remaining(env, Remaining(env, db, {o}), objs) == Remaining(env, db, {o} + objs)
  {
    var next := Remaining(env, db, {o});
    var a, b := Remaining(env, next, objs), Remaining(env, db, {o} + objs);
    forall e | e in db.exts
      ensures e in a.exts <==> e in b.exts
    {
      DroppedThen(env, db, o, objs, e);
    }
    assert a.exts == b.exts;
    assert a.schemas == b.schemas;
    assert a.privs == b.privs;
  }

  lemma NothingDropped(env: Env, db: Db)
    ensures Remaining(env, db, {}) == db
  {
    var rest := Remaining(env, db, {});
    assert Dropped(db, {}) == {};
    assert rest.exts == db.exts && rest.schemas == db.schemas && rest.privs == db.privs;
  }

  lemma DbTwice(st: Cluster, name: string, a: Db, b: Db)
    ensures WithDb(WithDb(st, name, a), name, b) == WithDb(st, name, b)
  {
    assert st.dbs[name := a][name := b] == st.dbs[name := b];
  }

  lemma DropOne(env: Env, name: string, o: Object, st: Cluster)
    requires TakesDrops(env) && Connectable(st, name) && (o.kind == SchemaKind || o.kind == ExtensionKind)
    ensures Exec(env, st, DropOf(name, o).value.0, DropOf(name, o).value.1) ==
      Success(WithDb(st, name, Remaining(env, st.dbs[name], {o})))
  {
    OneDrop(env, st.dbs[name], o);
    SameDb(st, name);
  }

  /**
   * Dropping schemas and extensions, in any order, leaves exactly what neither is named by a drop nor depends on
   * something that is, and touches nothing else in the cluster.
   */
  lemma {:induction false} DropContentsExactly(env: Env, name: string, objs: seq<Object>, st: Cluster)
    requires TakesDrops(env) && Transitive(env) && Connectable(st, name)
    requires forall o :: o in objs ==> o.kind == SchemaKind || o.kind == ExtensionKind
    ensures PruneRun(env, name, objs, st) == (WithDb(st, name, Remaining(env, st.dbs[name], set o | o in objs)), true)
    decreases |objs|
  {
    var db := st.dbs[name];
    if objs == [] {
      NothingDropped(env, db);
      SameDb(st, name);
      assert (set o | o in objs) == {};
    } else {
      var left := Remaining(env, db, {objs[0]});
      DropOne(env, name, objs[0], st);
      DropContentsExactly(env, name, objs[1..], WithDb(st, name, left));
      DropsCompose(env, db, objs[0], set o | o in objs[1..]);
      assert {objs[0]} + (set o | o in objs[1..]) == set o | o in objs;
      DbTwice(st, name, left, Remaining(env, db, set o | o in objs));
    }
  }

  function WithoutDb(st: Cluster, name: string): Cluster {
    st.(dbs := st.dbs - {name}, dbPrivs := (set p | p in st.dbPrivs && p.db != name))
  }

  function WithoutRoles(st: Cluster, names: set<string>): Cluster {
    st.(roles := st.roles - names, members := (set e | e in st.members && e.0 !in names && e.1 !in names))
  }

  predicate RoleDroppable(st: Cluster, role: string) {
    role in st.roles ==> role != SUPERUSER && !HasDependents(st, role)
  }

  function NamesOf(objs: seq<Object>): set<string> {
    set o | o in objs :: o.name
  }

  lemma SameDependents(a: Cluster, b: Cluster, role: string)
    requires a.dbs == b.dbs && a.dbPrivs == b.dbPrivs
    ensures HasDependents(a, role) <==> HasDependents(b, role)
  {
  }

  lemma WithoutOneRole(st: Cluster, role: string, others: set<string>)
    requires forall e :: e in st.members ==> e.0 in st.roles && e.1 in st.roles
    ensures WithoutRoles(WithoutRoles(st, {role}), others) == WithoutRoles(st, {role} + others)
    ensures role !in st.roles ==> WithoutRoles(st, {role}) == st
  {
  }

  lemma {:induction false} DropRoles(env: Env, name: string, objs: seq<Object>, st: Cluster)
    requires TakesDrops(env) && Connectable(st, MAINTENANCE_DB)
    requires forall o :: o in objs ==> o.kind == RoleKind
    requires forall e :: e in st.members ==> e.0 in st.roles && e.1 in st.roles
    ensures PruneRun(env, name, objs, st).1 <==> forall o :: o in objs ==> RoleDroppable(st, o.name)
    ensures PruneRun(env, name, objs, st).1 ==> PruneRun(env, name, objs, st).0 == WithoutRoles(st, NamesOf(objs))
    decreases |objs|
  {
    if objs == [] {
      assert WithoutRoles(st, {}) == st;
    } else {
      var role := objs[0].name;
      assert forall o :: o in objs <==> o == objs[0] || o in objs[1..];
      assert NamesOf(objs) == {role} + NamesOf(objs[1..]);
      var reply := Exec(env, st, MAINTENANCE_DB, DropRole(role));
      if reply.Success? {
        var next := reply.value;
        WithoutOneRole(st, role, NamesOf(objs[1..]));
        assert next == WithoutRoles(st, {role});
        forall r { SameDependents(next, st, r); }
        DropRoles(env, name, objs[1..], next);
      }
    }
  }

  // ----- Destroy

  /** What has to hold before a destroy for it to go through. */
  predicate Destroyable(name: string, cfg: Config, st: Cluster) {
    && name in st.dbs && !st.dbs[name].isTemplate
    && name != MAINTENANCE_DB && Connectable(st, MAINTENANCE_DB)
    && ((cfg.schemas == [] && cfg.extensions == []) || Connectable(st, name))
    && forall role :: role in cfg.roles ==> RoleDroppable(WithoutDb(st, name), role.name)
  }

  function RoleNames(cfg: Config): set<string> {
    set role | role in cfg.roles :: role.name
  }

  lemma ContentsKinds(cfg: Config)
    ensures forall o :: o in Converging.Reversed(SchemaObjects(cfg.schemas) + ExtensionObjects(cfg.extensions)) ==>
      o.kind == SchemaKind || o.kind == ExtensionKind
  {
  }

  lemma RoleObject(roles: seq<Role>, o: Object)
    ensures o in Converging.Reversed(RoleObjects(roles)) <==>
      o.kind == RoleKind && exists role :: role in roles && role.name == o.name
  {
    var objs := Converging.Reversed(RoleObjects(roles));
    if role :| role in roles && role.name == o.name && o.kind == RoleKind {
      var i :| 0 <= i < |roles| && roles[i] == role;
      assert objs[|objs| - 1 - i] == RoleObjects(roles)[i] == o;
    }
    if o in objs {
      var i :| 0 <= i < |objs| && objs[i] == o;
      assert roles[|objs| - 1 - i] in roles && o == Object(RoleKind, roles[|objs| - 1 - i].name);
    }
  }

  lemma RoleKinds(cfg: Config)
    ensures forall o :: o in Converging.Reversed(RoleObjects(cfg.roles)) ==> o.kind == RoleKind
    ensures NamesOf(Converging.Reversed(RoleObjects(cfg.roles))) == RoleNames(cfg)
    ensures forall n :: (exists o :: o in Converging.Reversed(RoleObjects(cfg.roles)) && o.name == n) <==> n in RoleNames(cfg)
  {
    forall o
      ensures o in Converging.Reversed(RoleObjects(cfg.roles)) <==> o.kind == RoleKind && o.name in RoleNames(cfg)
    {
      RoleObject(cfg.roles, o);
    }
    forall n | n in RoleNames(cfg)
      ensures Object(RoleKind, n) in Converging.Reversed(RoleObjects(cfg.roles))
    {
      RoleObject(cfg.roles, Object(RoleKind, n));
    }
  }

  lemma ReverseObjects(name: string, cfg: Config)
    ensures DropOrder(name, cfg) ==
      Converging.Reversed(SchemaObjects(cfg.schemas) + ExtensionObjects(cfg.extensions))
      + ([Object(DatabaseKind, name)] + Converging.Reversed(RoleObjects(cfg.roles)))
  {
    var contents := SchemaObjects(cfg.schemas) + ExtensionObjects(cfg.extensions);
    var db := [Object(DatabaseKind, name)];
    ReverseConcat(RoleObjects(cfg.roles), db + contents);
    ReverseConcat(db, contents);
    assert Converging.Reversed(db) == db;
  }

  /**
   * Pruning everything a config declares, in reverse, goes through exactly when the state allows it; then the
   * database and the roles are gone, with all that depended on them, and nothing else is.
   */
  lemma DestroyExactly(env: Env, name: string, cfg: Config, st: Cluster)
    requires TakesDrops(env) && name in st.dbs
    requires forall e :: e in st.members ==> e.0 in st.roles && e.1 in st.roles
    ensures var (after, ok) := PruneRun(env, name, DropOrder(name, cfg), st);
      && (ok <==> Destroyable(name, cfg, st))
      && (ok ==> after == WithoutRoles(WithoutDb(st, name), RoleNames(cfg)))
  {
    var contents := Converging.Reversed(SchemaObjects(cfg.schemas) + ExtensionObjects(cfg.extensions));
    var roles := Converging.Reversed(RoleObjects(cfg.roles));
    var db := [Object(DatabaseKind, name)];
    ReverseObjects(name, cfg);
    ContentsKinds(cfg);
    Converging.RunAppend(Dropping(env, name), contents, db + roles, st);
    DropContents(env, name, contents, st);
    var (emptied, ok) := PruneRun(env, name, contents, st);
    if ok {
      DestroyRest(env, name, cfg, st, emptied);
    }
  }

  lemma DropTheDatabase(env: Env, name: string, st: Cluster, emptied: Cluster)
    requires TakesDrops(env) && name in st.dbs && name in emptied.dbs
    requires emptied == WithDb(st, name, emptied.dbs[name]) && Emptied(st.dbs[name], emptied.dbs[name])
    ensures var reply := Exec(env, emptied, MAINTENANCE_DB, DropDatabase(name));
      && (reply.Success? <==> !st.dbs[name].isTemplate && name != MAINTENANCE_DB && Connectable(st, MAINTENANCE_DB))
      && (reply.Success? ==> reply.value == WithoutDb(st, name))
  {
    var reply := Exec(env, emptied, MAINTENANCE_DB, DropDatabase(name));
    if reply.Success? {
      assert reply.value == WithoutDb(emptied, name) == WithoutDb(st, name);
    }
  }

  lemma AllDroppable(cfg: Config, st: Cluster)
    ensures (forall o :: o in Converging.Reversed(RoleObjects(cfg.roles)) ==> RoleDroppable(st, o.name))
      <==> forall role :: role in cfg.roles ==> RoleDroppable(st, role.name)
  {
    forall o
      ensures o in Converging.Reversed(RoleObjects(cfg.roles)) <==>
        o.kind == RoleKind && exists role :: role in cfg.roles && role.name == o.name
    {
      RoleObject(cfg.roles, o);
    }
    forall role | role in cfg.roles
      ensures Object(RoleKind, role.name) in Converging.Reversed(RoleObjects(cfg.roles))
    {
      RoleObject(cfg.roles, Object(RoleKind, role.name));
    }
  }

  lemma DestroyRest(env: Env, name: string, cfg: Config, st: Cluster, emptied: Cluster)
    requires TakesDrops(env) && name in st.dbs && name in emptied.dbs
    requires forall e :: e in st.members ==> e.0 in st.roles && e.1 in st.roles
    requires emptied == WithDb(st, name, emptied.dbs[name]) && Emptied(st.dbs[name], emptied.dbs[name])
    ensures var (after, ok) :=
        PruneRun(env, name, [Object(DatabaseKind, name)] + Converging.Reversed(RoleObjects(cfg.roles)), emptied);
      && (ok <==>
            && !st.dbs[name].isTemplate && name != MAINTENANCE_DB && Connectable(st, MAINTENANCE_DB)
            && forall role :: role in cfg.roles ==> RoleDroppable(WithoutDb(st, name), role.name))
      && (ok ==> after == WithoutRoles(WithoutDb(st, name), RoleNames(cfg)))
  {
    var roles := Converging.Reversed(RoleObjects(cfg.roles));
    assert ([Object(DatabaseKind, name)] + roles)[1..] == roles;
    DropTheDatabase(env, name, st, emptied);
    if Exec(env, emptied, MAINTENANCE_DB, DropDatabase(name)).Success? {
      RoleKinds(cfg);
      AllDroppable(cfg, WithoutDb(st, name));
      DropRoles(env, name, roles, WithoutDb(st, name));
    }
  }

  // ----- Create, then destroy

  /** Nothing in the cluster refers to a role or a database that is not there. */
  ghost predicate Sound(st: Cluster) {
    && MAINTENANCE_DB in st.dbs
    && (forall e :: e in st.members ==> e.0 in st.roles && e.1 in st.roles)
    && (forall r :: r !in st.roles && r != "public" ==> !HasDependents(st, r))
    && (forall p :: p in st.dbPrivs ==> p.db in st.dbs)
  }

  /** The config declares a new database and new roles. */
  predicate AllNew(name: string, cfg: Config, st: Cluster) {
    && name !in st.dbs
    && forall role :: role in cfg.roles ==> role.name !in st.roles && role.name != "public"
  }

  /** The privileges that the config grants on other databases. */
  function Elsewhere(name: string, cfg: Config): set<DbPriv> {
    set g, p | g in cfg.grants && g.database != "" && g.database != name && p in DbPrivs(g) :: p
  }

  /** A grant on another database to a declared role, which the role cannot be dropped with. */
  predicate HoldsBack(name: string, cfg: Config, g: Grant) {
    g in cfg.grants && g.database != "" && g.database != name && g.role in RoleNames(cfg)
  }

  predicate MembersExist(st: Cluster) {
    forall e :: e in st.members ==> e.0 in st.roles && e.1 in st.roles
  }

  /** The database's flags are no further than the config takes them. */
  predicate FlagsAsDeclared(name: string, cfg: Config, st: Cluster) {
    name in st.dbs ==> (st.dbs[name].isTemplate ==> cfg.isTemplate) && (!st.dbs[name].allowConns ==> !cfg.allowConns)
  }

  /** The act changes no flag the config does not change. */
  predicate Mild(cfg: Config, act: Act) {
    act.Sql? && act.stmt.AlterDatabase? ==>
      (act.stmt.template ==> cfg.isTemplate) && (act.stmt.deny ==> !cfg.allowConns)
  }

  lemma EarlyMild(name: string, cfg: Config, act: Act)
    requires Early(name, cfg, act)
    ensures Mild(cfg, act)
  {
    if OfDatabase(name, cfg, act) {
    } else {
      var role :| role in cfg.roles && OfRole(role, act);
    }
  }

  lemma PlanMild(name: string, cfg: Config, act: Act)
    requires act in Plan(name, cfg)
    ensures Mild(cfg, act) && Plannable(act)
  {
    PlanPlannable(name, cfg, act);
    PlanHas(name, cfg, act);
    if Early(name, cfg, act) {
      EarlyMild(name, cfg, act);
    }
  }

  lemma FlagsStep(env: Env, name: string, cfg: Config, st: Cluster, act: Act)
    requires FlagsAsDeclared(name, cfg, st) && Mild(cfg, act) && Plannable(act)
    ensures FlagsAsDeclared(name, cfg, Step(env, st, act).0)
  {
    if act.Sql? {
      FlagsStmt(env, name, cfg, st, act);
    }
  }

  lemma FlagsStmt(env: Env, name: string, cfg: Config, st: Cluster, act: Act)
    requires FlagsAsDeclared(name, cfg, st) && Mild(cfg, act) && Plannable(act) && act.Sql?
    ensures FlagsAsDeclared(name, cfg, Step(env, st, act).0)
  {
  }

  lemma MembersStep(env: Env, st: Cluster, act: Act)
    requires MembersExist(st) && Plannable(act)
    ensures MembersExist(Step(env, st, act).0)
  {
  }

  lemma {:induction false} FlagsRun(env: Env, name: string, cfg: Config, st: Cluster, acts: seq<Act>)
    requires FlagsAsDeclared(name, cfg, st) && MembersExist(st)
    requires forall act :: act in acts ==> Mild(cfg, act) && Plannable(act)
    ensures FlagsAsDeclared(name, cfg, Run(env, acts, st).0) && MembersExist(Run(env, acts, st).0)
    decreases |acts|
  {
    if acts != [] {
      FlagsStep(env, name, cfg, st, acts[0]);
      MembersStep(env, st, acts[0]);
      if Step(env, st, acts[0]).1 {
        FlagsRun(env, name, cfg, Step(env, st, acts[0]).0, acts[1..]);
      }
    }
  }

  lemma DatabaseActsInPlan(name: string, cfg: Config)
    ensures EnsureDatabase(name, ClauseOfDatabase(cfg), cfg.owner) in Plan(name, cfg)
    ensures cfg.isTemplate || !cfg.allowConns ==> TuneAct(name, cfg) in Plan(name, cfg)
  {
    DatabaseHas(name, cfg);
    InPlan(name, cfg, EnsureDatabase(name, ClauseOfDatabase(cfg), cfg.owner));
    InPlan(name, cfg, TuneAct(name, cfg));
  }

  lemma PlanFlags(env: Env, name: string, cfg: Config, st: Cluster)
    requires name !in st.dbs && MembersExist(st)
    ensures FlagsAsDeclared(name, cfg, Run(env, Plan(name, cfg), st).0) && MembersExist(Run(env, Plan(name, cfg), st).0)
  {
    forall act | act in Plan(name, cfg) { PlanMild(name, cfg, act); }
    FlagsRun(env, name, cfg, st, Plan(name, cfg));
  }

  lemma TunedFlags(env: Env, name: string, cfg: Config, st: Cluster, final: Cluster)
    requires Fair(env) && WellFormed(cfg)
    requires Run(env, Plan(name, cfg), st) == (final, true)
    ensures Connectable(final, MAINTENANCE_DB) && name in final.dbs
    ensures (cfg.isTemplate ==> final.dbs[name].isTemplate) && (!cfg.allowConns ==> !final.dbs[name].allowConns)
  {
    DatabaseActsInPlan(name, cfg);
    ActEnforced(env, name, cfg, st, final, EnsureDatabase(name, ClauseOfDatabase(cfg), cfg.owner));
    if cfg.isTemplate || !cfg.allowConns {
      ActEnforced(env, name, cfg, st, final, TuneAct(name, cfg));
      TuneMeans(env, name, cfg, final);
    }
  }

  /** Where convergence leaves the flags of a database it created. */
  lemma FlagsExactly(env: Env, name: string, cfg: Config, st: Cluster, final: Cluster)
    requires Fair(env) && WellFormed(cfg) && name !in st.dbs && MembersExist(st)
    requires Run(env, Plan(name, cfg), st) == (final, true)
    ensures Connectable(final, MAINTENANCE_DB) && name in final.dbs && MembersExist(final)
    ensures (final.dbs[name].isTemplate <==> cfg.isTemplate) && (final.dbs[name].allowConns <==> cfg.allowConns)
  {
    PlanFlags(env, name, cfg, st);
    TunedFlags(env, name, cfg, st, final);
  }

  lemma ElsewhereIs(name: string, cfg: Config, p: DbPriv)
    ensures p in Elsewhere(name, cfg) <==> p.db != name && NamesDbPriv(cfg, p)
  {
    if g :| g in cfg.grants && g.database != "" && p in DbPrivs(g) && p.db != name {
      assert g.database == p.db;
    }
  }

  /** What the cluster grants on databases once the instance's own is gone. */
  lemma PrivsElsewhere(env: Env, name: string, cfg: Config, st: Cluster, final: Cluster)
    requires Sound(st) && AllNew(name, cfg, st) && OnlyDeclared(env, name, cfg, st, final) && AsDeclared(name, cfg, final)
    ensures WithoutDb(final, name).dbPrivs == st.dbPrivs + Elsewhere(name, cfg)
  {
    forall p
      ensures p in WithoutDb(final, name).dbPrivs <==> p in st.dbPrivs + Elsewhere(name, cfg)
    {
      ElsewhereIs(name, cfg, p);
      if p in Elsewhere(name, cfg) {
        var g :| g in cfg.grants && g.database != "" && p in DbPrivs(g);
        assert GrantAsDeclared(name, g, final);
      }
    }
  }

  /** Taking the new database and roles away again leaves what was there before, and the grants elsewhere. */
  lemma NothingElseLeft(env: Env, name: string, cfg: Config, st: Cluster, final: Cluster)
    requires Sound(st) && AllNew(name, cfg, st) && OnlyDeclared(env, name, cfg, st, final) && AsDeclared(name, cfg, final)
    ensures WithoutDb(final, name).dbs == st.dbs
    ensures WithoutRoles(WithoutDb(final, name), RoleNames(cfg)) ==
      st.(files := final.files, dbPrivs := st.dbPrivs + Elsewhere(name, cfg))
  {
    PrivsElsewhere(env, name, cfg, st, final);
    RolesTaken(env, name, cfg, st, final);
    assert WithoutDb(final, name).dbs == st.dbs;
  }

  lemma RolesTaken(env: Env, name: string, cfg: Config, st: Cluster, final: Cluster)
    requires MembersExist(st) && AllNew(name, cfg, st) && OnlyDeclared(env, name, cfg, st, final)
    ensures WithoutRoles(final, RoleNames(cfg)).roles == st.roles
    ensures WithoutRoles(final, RoleNames(cfg)).members == st.members
  {
    var after := WithoutRoles(final, RoleNames(cfg));
    assert forall r :: NamesRole(cfg, r) <==> r in RoleNames(cfg);
    forall e | e in final.members && NamesMembership(cfg, e)
      ensures e.0 in RoleNames(cfg)
    {
    }
    assert after.roles == st.roles;
    assert after.members == st.members;
  }

  /** A declared role can be dropped afterwards unless it was granted something elsewhere. */
  lemma DroppableUnless(name: string, cfg: Config, st: Cluster, left: Cluster, role: Role)
    requires WellFormed(cfg) && Sound(st) && AllNew(name, cfg, st) && SUPERUSER in st.roles && role in cfg.roles
    requires left.dbs == st.dbs && left.dbPrivs == st.dbPrivs + Elsewhere(name, cfg)
    ensures RoleDroppable(left, role.name) || HeldBack(name, cfg, role.name)
    ensures HeldBack(name, cfg, role.name) ==> HasDependents(left, role.name)
  {
    assert !HasDependents(st, role.name);
    if g :| HoldsBack(name, cfg, g) && g.role == role.name {
      GrantHolds(cfg, g);
      var p :| p in DbPrivs(g);
      ElsewhereIs(name, cfg, p);
      assert p in left.dbPrivs && p.role == role.name;
    }
    if HasDependents(left, role.name) {
      var p :| p in left.dbPrivs && p.role == role.name;
      ElsewhereIs(name, cfg, p);
      var g :| g in cfg.grants && g.database != "" && p in DbPrivs(g);
      assert HoldsBack(name, cfg, g);
    }
  }

  ghost predicate HeldBack(name: string, cfg: Config, role: string) {
    exists g :: HoldsBack(name, cfg, g) && g.role == role
  }

  /** A decoded grant grants something. */
  lemma GrantHolds(cfg: Config, g: Grant)
    requires WellFormed(cfg) && g in cfg.grants && g.database != ""
    ensures DbPrivs(g) != {}
  {
    assert DbPriv(g.database, g.role, g.privileges[0], g.withGrantOption) in DbPrivs(g);
  }

  lemma AllDroppableUnless(name: string, cfg: Config, st: Cluster, final: Cluster)
    requires WellFormed(cfg) && Sound(st) && AllNew(name, cfg, st) && SUPERUSER in st.roles
    requires forall role :: role in cfg.roles ==> role.name in final.roles
    requires WithoutDb(final, name).dbs == st.dbs
    requires WithoutDb(final, name).dbPrivs == st.dbPrivs + Elsewhere(name, cfg)
    ensures (forall role :: role in cfg.roles ==> RoleDroppable(WithoutDb(final, name), role.name))
      <==> !exists g :: HoldsBack(name, cfg, g)
  {
    forall role | role in cfg.roles
      ensures RoleDroppable(WithoutDb(final, name), role.name) <==> !HeldBack(name, cfg, role.name)
    {
      DroppableUnless(name, cfg, st, WithoutDb(final, name), role);
    }
    if g :| HoldsBack(name, cfg, g) {
      var role :| role in cfg.roles && role.name == g.role;
      assert HeldBack(name, cfg, role.name);
    }
  }

  /**
   * Destroy inverts create: when a config's database and roles are new, converging and then pruning goes through
   * exactly unless the database is a template, or closed with something declared in it, or a declared role was granted
   * something on another database; and the cluster is then as it was, but for extension files installed in the
   * toolchain and what was granted on other databases to others.
   */
  lemma DestroyUndoesCreate(env: Env, name: string, cfg: Config, st: Cluster)
    requires Fair(env) && TakesDrops(env) && WellFormed(cfg)
    requires Sound(st) && AllNew(name, cfg, st) && SUPERUSER in st.roles
    requires Run(env, Plan(name, cfg), st).1
    ensures var final := Run(env, Plan(name, cfg), st).0;
      var (after, ok) := PruneRun(env, name, DropOrder(name, cfg), final);
      && (ok <==>
            && !cfg.isTemplate && (cfg.allowConns || (cfg.schemas == [] && cfg.extensions == []))
            && !exists g :: HoldsBack(name, cfg, g))
      && (ok ==> after == st.(files := final.files, dbPrivs := st.dbPrivs + Elsewhere(name, cfg)))
  {
    var final := Run(env, Plan(name, cfg), st).0;
    FlagsExactly(env, name, cfg, st, final);
    RunOnlyDeclared(env, name, cfg, st, Plan(name, cfg));
    ConvergedAsDeclared(env, name, cfg, st);
    DestroyDeclared(env, name, cfg, st, final);
  }

  /** Destroying what was new and is now as declared. */
  lemma DestroyDeclared(env: Env, name: string, cfg: Config, st: Cluster, final: Cluster)
    requires TakesDrops(env) && WellFormed(cfg) && Sound(st) && AllNew(name, cfg, st) && SUPERUSER in st.roles
    requires OnlyDeclared(env, name, cfg, st, final) && AsDeclared(name, cfg, final)
    requires Connectable(final, MAINTENANCE_DB) && MembersExist(final)
    requires (final.dbs[name].isTemplate <==> cfg.isTemplate) && (final.dbs[name].allowConns <==> cfg.allowConns)
    ensures var (after, ok) := PruneRun(env, name, DropOrder(name, cfg), final);
      && (ok <==>
            && !cfg.isTemplate && (cfg.allowConns || (cfg.schemas == [] && cfg.extensions == []))
            && !exists g :: HoldsBack(name, cfg, g))
      && (ok ==> after == st.(files := final.files, dbPrivs := st.dbPrivs + Elsewhere(name, cfg)))
  {
    NothingElseLeft(env, name, cfg, st, final);
    PrivsElsewhere(env, name, cfg, st, final);
    DestroyExactly(env, name, cfg, final);
    AllDroppableUnless(name, cfg, st, final);
  }

  // ----- Aliases

  /**
   * The inventory keeps the declared name while convergence creates the real one: pruning an extension's object
   * takes the extension away exactly when the two names are one, or it happens to need an extension of that name.
   */
  lemma AliasSurvivesPrune(env: Env, name: string, ext: Extension, st: Cluster)
    requires TakesDrops(env) && Connectable(st, name) && RealName(ext.name) in st.dbs[name].exts
    ensures var (after, ok) := PruneRun(env, name, ExtensionObjects([ext]), st);
      && ok && name in after.dbs
      && (RealName(ext.name) !in after.dbs[name].exts <==>
            || RealName(ext.name) == ext.name
            || (ext.name in st.dbs[name].exts && ext.name in env.needs(RealName(ext.name))))
  {
    var objs := ExtensionObjects([ext]);
    assert objs == [Object(ExtensionKind, ext.name)];
    Converging.RunOne(Dropping(env, name), objs[0], st);
  }
}
