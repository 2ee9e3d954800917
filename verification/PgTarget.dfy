/** What a successful convergence has achieved, in the config's own terms. */
module PgTarget {
  import opened Strings
  import opened PgConfig
  import opened PgCluster
  import opened PgPlan
  import opened PgInForce
  import opened PgPlanFacts
  import opened PgConfluence
  import opened PgFrame

  // ----- Roles

  /** Options, password and expiry if given, parameters, comment if given, and memberships. */
  predicate RoleAsDeclared(role: Role, st: Cluster) {
    && role.name in st.roles
    && var rec := st.roles[role.name];
       && rec.options.login == role.login && rec.options.superuser == role.superuser
       && rec.options.createDB == role.createDB && rec.options.createRole == role.createRole
       && rec.options.replication == role.replication && rec.options.inherits == role.inherits
       && rec.options.bypassRLS == role.bypassRLS && rec.options.connectionLimit == role.connectionLimit
       && (role.password != "" ==> rec.password == Some(role.password))
       && (role.validUntil != "" ==> rec.validUntil == Some(role.validUntil))
       && (forall k :: k in role.config ==> k in rec.params && rec.params[k] == role.config[k])
       && (role.comment != "" ==> rec.comment == role.comment)
       && forall parent :: parent in role.memberOf ==> parent in st.roles && (role.name, parent) in st.members
  }

  lemma ParamIn(role: Role, k: string)
    requires k in role.config
    ensures Sql(MAINTENANCE_DB, SetParam(role.name, k, role.config[k])) in RoleActs(role)
  {
    var keys := SortedKeys(role.config.Keys);
    var params := ParamActs(role.name, keys, role.config);
    var i :| 0 <= i < |keys| && keys[i] == k;
    assert params[i] in params;
    InEither([EnsureRole(role)], params, params[i]);
    InEither([EnsureRole(role)] + params, CommentActs(role), params[i]);
  }

  lemma JoinIn(role: Role, parent: string)
    requires parent in role.memberOf
    ensures Sql(MAINTENANCE_DB, GrantRole(parent, role.name)) in JoinActs(role)
  {
    var i :| 0 <= i < |role.memberOf| && role.memberOf[i] == parent;
    assert JoinActs(role)[i] in JoinActs(role);
  }

  lemma OptionsIn(role: Role)
    ensures EnsureRole(role) in RoleActs(role)
    ensures role.comment != "" ==> Sql(MAINTENANCE_DB, CommentOnRole(role.name, role.comment)) in RoleActs(role)
  {
    var params := ParamActs(role.name, SortedKeys(role.config.Keys), role.config);
    assert RoleActs(role)[0] == EnsureRole(role);
    if role.comment != "" {
      InEither([EnsureRole(role)] + params, CommentActs(role), CommentActs(role)[0]);
    }
  }

  /** A role's acts are in force, each of them. */
  lemma RoleActEnforced(env: Env, name: string, cfg: Config, st: Cluster, final: Cluster, role: Role, act: Act)
    requires Fair(env) && WellFormed(cfg)
    requires Run(env, Plan(name, cfg), st) == (final, true)
    requires role in cfg.roles && (act in RoleActs(role) || act in JoinActs(role)) && !act.MakeExtension?
    ensures InForce(env, act, final)
  {
    RolesHave(cfg.roles, role, act);
    InPlan(name, cfg, act);
    ActEnforced(env, name, cfg, st, final, act);
  }

  lemma RoleReached(env: Env, name: string, cfg: Config, st: Cluster, final: Cluster, role: Role)
    requires Fair(env) && WellFormed(cfg)
    requires Run(env, Plan(name, cfg), st) == (final, true) && role in cfg.roles
    ensures RoleAsDeclared(role, final)
  {
    OptionsIn(role);
    RoleActEnforced(env, name, cfg, st, final, role, EnsureRole(role));
    if role.comment != "" {
      RoleActEnforced(env, name, cfg, st, final, role, Sql(MAINTENANCE_DB, CommentOnRole(role.name, role.comment)));
    }
    forall k | k in role.config
      ensures k in final.roles[role.name].params && final.roles[role.name].params[k] == role.config[k]
    {
      ParamIn(role, k);
      RoleActEnforced(env, name, cfg, st, final, role, Sql(MAINTENANCE_DB, SetParam(role.name, k, role.config[k])));
    }
    forall parent | parent in role.memberOf
      ensures parent in final.roles && (role.name, parent) in final.members
    {
      JoinIn(role, parent);
      RoleActEnforced(env, name, cfg, st, final, role, Sql(MAINTENANCE_DB, GrantRole(parent, role.name)));
    }
  }

  // ----- The database

  /** Every option that was not left at its default. */
  predicate OptionsAsDeclared(cfg: Config, db: Db) {
    && (cfg.owner != "" ==> db.owner == cfg.owner)
    && (cfg.connectionLimit != UNLIMITED_CONNECTIONS ==> db.connectionLimit == cfg.connectionLimit)
    && (cfg.isTemplate ==> db.isTemplate)
    && (!cfg.allowConns ==> !db.allowConns)
    && (cfg.comment != "" ==> db.comment == cfg.comment)
  }

  lemma EnsureMeans(env: Env, name: string, cfg: Config, st: Cluster)
    requires InForce(env, EnsureDatabase(name, ClauseOfDatabase(cfg), cfg.owner), st)
    ensures name in st.dbs && (cfg.owner != "" ==> st.dbs[name].owner == cfg.owner)
  {
  }

  lemma TuneMeans(env: Env, name: string, cfg: Config, st: Cluster)
    requires InForce(env, TuneAct(name, cfg), st)
    ensures name in st.dbs && (cfg.isTemplate ==> st.dbs[name].isTemplate) && (!cfg.allowConns ==> !st.dbs[name].allowConns)
    ensures cfg.connectionLimit != UNLIMITED_CONNECTIONS ==> st.dbs[name].connectionLimit == cfg.connectionLimit
  {
  }

  lemma DatabaseActEnforced(env: Env, name: string, cfg: Config, st: Cluster, final: Cluster, act: Act)
    requires Fair(env) && WellFormed(cfg)
    requires Run(env, Plan(name, cfg), st) == (final, true) && act in DatabaseActs(name, cfg) && !act.MakeExtension?
    ensures InForce(env, act, final)
  {
    InPlan(name, cfg, act);
    ActEnforced(env, name, cfg, st, final, act);
  }

  lemma OwnerReached(env: Env, name: string, cfg: Config, st: Cluster, final: Cluster)
    requires Fair(env) && WellFormed(cfg)
    requires Run(env, Plan(name, cfg), st) == (final, true)
    ensures name in final.dbs && (cfg.owner != "" ==> final.dbs[name].owner == cfg.owner)
  {
    DatabaseHas(name, cfg);
    DatabaseActEnforced(env, name, cfg, st, final, EnsureDatabase(name, ClauseOfDatabase(cfg), cfg.owner));
    EnsureMeans(env, name, cfg, final);
  }

  lemma FlagsReached(env: Env, name: string, cfg: Config, st: Cluster, final: Cluster)
    requires Fair(env) && WellFormed(cfg)
    requires Run(env, Plan(name, cfg), st) == (final, true) && name in final.dbs
    ensures (cfg.isTemplate ==> final.dbs[name].isTemplate) && (!cfg.allowConns ==> !final.dbs[name].allowConns)
    ensures cfg.connectionLimit != UNLIMITED_CONNECTIONS ==> final.dbs[name].connectionLimit == cfg.connectionLimit
  {
    DatabaseHas(name, cfg);
    if LimitOf(cfg.connectionLimit).Some? || cfg.isTemplate || !cfg.allowConns {
      DatabaseActEnforced(env, name, cfg, st, final, TuneAct(name, cfg));
      TuneMeans(env, name, cfg, final);
    }
  }

  lemma CommentMeans(env: Env, name: string, text: string, st: Cluster)
    requires InForce(env, Sql(MAINTENANCE_DB, CommentOnDatabase(name, text)), st)
    ensures name in st.dbs && st.dbs[name].comment == text
  {
  }

  lemma CommentReached(env: Env, name: string, cfg: Config, st: Cluster, final: Cluster)
    requires Fair(env) && WellFormed(cfg)
    requires Run(env, Plan(name, cfg), st) == (final, true) && name in final.dbs
    ensures cfg.comment != "" ==> final.dbs[name].comment == cfg.comment
  {
    DatabaseHas(name, cfg);
    if cfg.comment != "" {
      DatabaseActEnforced(env, name, cfg, st, final, Sql(MAINTENANCE_DB, CommentOnDatabase(name, cfg.comment)));
      CommentMeans(env, name, cfg.comment, final);
    }
  }

  lemma DatabaseReached(env: Env, name: string, cfg: Config, st: Cluster, final: Cluster)
    requires Fair(env) && WellFormed(cfg)
    requires Run(env, Plan(name, cfg), st) == (final, true)
    ensures name in final.dbs && OptionsAsDeclared(cfg, final.dbs[name])
  {
    OwnerReached(env, name, cfg, st, final);
    FlagsReached(env, name, cfg, st, final);
    CommentReached(env, name, cfg, st, final);
  }

  predicate ContentsAsDeclared(cfg: Config, db: Db) {
    && (forall schema :: schema in cfg.schemas ==> schema.name in db.schemas)
    && (forall ext :: ext in cfg.extensions && !ext.optional ==> RealName(ext.name) in db.exts)
  }

  lemma SchemaMeans(env: Env, name: string, schema: Schema, st: Cluster)
    requires InForce(env, Sql(name, CreateSchema(schema.name, schema.owner)), st)
    ensures name in st.dbs && schema.name in st.dbs[name].schemas
  {
  }

  lemma SchemaIn(name: string, cfg: Config, schema: Schema)
    requires schema in cfg.schemas
    ensures Sql(name, CreateSchema(schema.name, schema.owner)) in Plan(name, cfg)
  {
    var act := Sql(name, CreateSchema(schema.name, schema.owner));
    var i :| 0 <= i < |cfg.schemas| && cfg.schemas[i] == schema;
    assert SchemaActs(name, cfg.schemas)[i] == act;
    InPlan(name, cfg, act);
  }

  lemma SchemaReached(env: Env, name: string, cfg: Config, st: Cluster, final: Cluster, schema: Schema)
    requires Fair(env) && WellFormed(cfg)
    requires Run(env, Plan(name, cfg), st) == (final, true) && schema in cfg.schemas
    ensures name in final.dbs && schema.name in final.dbs[name].schemas
  {
    SchemaIn(name, cfg, schema);
    ActEnforced(env, name, cfg, st, final, Sql(name, CreateSchema(schema.name, schema.owner)));
    SchemaMeans(env, name, schema, final);
  }

  lemma ExtensionReached(env: Env, name: string, cfg: Config, st: Cluster, final: Cluster, ext: Extension)
    requires Fair(env) && WellFormed(cfg)
    requires Run(env, Plan(name, cfg), st) == (final, true) && ext in cfg.extensions && !ext.optional
    ensures name in final.dbs && RealName(ext.name) in final.dbs[name].exts
  {
    ExtensionsHave(name, cfg.extensions, ext);
    InPlan(name, cfg, MakeExtension(name, ext));
    ActEnforced(env, name, cfg, st, final, MakeExtension(name, ext));
  }

  lemma ContentsReached(env: Env, name: string, cfg: Config, st: Cluster, final: Cluster)
    requires Fair(env) && WellFormed(cfg)
    requires Run(env, Plan(name, cfg), st) == (final, true) && name in final.dbs
    ensures ContentsAsDeclared(cfg, final.dbs[name])
  {
    forall schema | schema in cfg.schemas
      ensures schema.name in final.dbs[name].schemas
    {
      SchemaReached(env, name, cfg, st, final, schema);
    }
    forall ext | ext in cfg.extensions && !ext.optional
      ensures RealName(ext.name) in final.dbs[name].exts
    {
      ExtensionReached(env, name, cfg, st, final, ext);
    }
  }

  // ----- Grants

  /** Each privilege, on the database, on the schema, or on all objects of a kind in it, those to come included. */
  predicate GrantAsDeclared(name: string, g: Grant, st: Cluster)
    requires name in st.dbs
  {
    forall p :: p in g.privileges ==>
      if g.database != "" then DbPriv(g.database, g.role, p, g.withGrantOption) in st.dbPrivs
      else if g.objects != "" then
        && SchemaPriv(g.schema, g.objects, false, g.role, p, g.withGrantOption) in st.dbs[name].privs
        && SchemaPriv(g.schema, g.objects, true, g.role, p, g.withGrantOption) in st.dbs[name].privs
      else SchemaPriv(g.schema, "", false, g.role, p, g.withGrantOption) in st.dbs[name].privs
  }

  lemma GrantActEnforced(env: Env, name: string, cfg: Config, st: Cluster, final: Cluster, g: Grant, act: Act)
    requires Fair(env) && WellFormed(cfg)
    requires Run(env, Plan(name, cfg), st) == (final, true) && g in cfg.grants && act in GrantActs(name, g)
    ensures InForce(env, act, final)
  {
    GrantsHave(name, cfg.grants, g, act);
    InPlan(name, cfg, act);
    ActEnforced(env, name, cfg, st, final, act);
  }

  lemma OnDatabaseMeans(env: Env, g: Grant, st: Cluster)
    requires InForce(env, Sql(MAINTENANCE_DB, GrantOnDatabase(g)), st)
    ensures forall p :: p in g.privileges ==> DbPriv(g.database, g.role, p, g.withGrantOption) in st.dbPrivs
  {
    assert forall p :: p in g.privileges ==> DbPriv(g.database, g.role, p, g.withGrantOption) in DbPrivs(g);
  }

  lemma PrivsMean(g: Grant, kind: string, future: bool, privs: set<SchemaPriv>)
    requires SchemaPrivs(g, kind, future) <= privs
    ensures forall p :: p in g.privileges ==> SchemaPriv(g.schema, kind, future, g.role, p, g.withGrantOption) in privs
  {
    forall p | p in g.privileges
      ensures SchemaPriv(g.schema, kind, future, g.role, p, g.withGrantOption) in privs
    {
      assert SchemaPriv(g.schema, kind, future, g.role, p, g.withGrantOption) in SchemaPrivs(g, kind, future);
    }
  }

  lemma InSchemaMeans(env: Env, name: string, g: Grant, act: Act, st: Cluster)
    requires act == Sql(name, GrantOnSchema(g)) || act == Sql(name, GrantOnAll(g)) || act == Sql(name, DefaultPrivileges(g))
    requires InForce(env, act, st)
    ensures name in st.dbs
    ensures act.stmt.GrantOnSchema? ==> SchemaPrivs(g, "", false) <= st.dbs[name].privs
    ensures act.stmt.GrantOnAll? ==> SchemaPrivs(g, g.objects, false) <= st.dbs[name].privs
    ensures act.stmt.DefaultPrivileges? ==> SchemaPrivs(g, g.objects, true) <= st.dbs[name].privs
  {
  }

  lemma GrantReached(env: Env, name: string, cfg: Config, st: Cluster, final: Cluster, g: Grant)
    requires Fair(env) && WellFormed(cfg)
    requires Run(env, Plan(name, cfg), st) == (final, true) && g in cfg.grants && name in final.dbs
    ensures GrantAsDeclared(name, g, final)
  {
    var privs := final.dbs[name].privs;
    if g.database != "" {
      GrantActEnforced(env, name, cfg, st, final, g, Sql(MAINTENANCE_DB, GrantOnDatabase(g)));
      OnDatabaseMeans(env, g, final);
    } else if g.objects != "" {
      GrantActEnforced(env, name, cfg, st, final, g, Sql(name, GrantOnAll(g)));
      GrantActEnforced(env, name, cfg, st, final, g, Sql(name, DefaultPrivileges(g)));
      InSchemaMeans(env, name, g, Sql(name, GrantOnAll(g)), final);
      InSchemaMeans(env, name, g, Sql(name, DefaultPrivileges(g)), final);
      PrivsMean(g, g.objects, false, privs);
      PrivsMean(g, g.objects, true, privs);
    } else {
      GrantActEnforced(env, name, cfg, st, final, g, Sql(name, GrantOnSchema(g)));
      InSchemaMeans(env, name, g, Sql(name, GrantOnSchema(g)), final);
      PrivsMean(g, "", false, privs);
    }
  }

  // ----- All of it

  predicate AsDeclared(name: string, cfg: Config, st: Cluster) {
    && (forall role :: role in cfg.roles ==> RoleAsDeclared(role, st))
    && name in st.dbs && OptionsAsDeclared(cfg, st.dbs[name]) && ContentsAsDeclared(cfg, st.dbs[name])
    && forall g :: g in cfg.grants ==> GrantAsDeclared(name, g, st)
  }

  /** A convergence that succeeds leaves the cluster as the config declares it. */
  lemma ConvergedAsDeclared(env: Env, name: string, cfg: Config, st: Cluster)
    requires Fair(env) && WellFormed(cfg) && Run(env, Plan(name, cfg), st).1
    ensures AsDeclared(name, cfg, Run(env, Plan(name, cfg), st).0)
  {
    var final := Run(env, Plan(name, cfg), st).0;
    DatabaseReached(env, name, cfg, st, final);
    ContentsReached(env, name, cfg, st, final);
    forall role | role in cfg.roles
      ensures RoleAsDeclared(role, final)
    {
      RoleReached(env, name, cfg, st, final, role);
    }
    forall g | g in cfg.grants
      ensures GrantAsDeclared(name, g, final)
    {
      GrantReached(env, name, cfg, st, final, g);
    }
  }

  // ----- What is fixed at creation

  /** Encoding and categories as declared; `locale` stands for a category that is not set. */
  predicate LocaleAsDeclared(cfg: Config, db: Db) {
    && db.locale.encoding == cfg.encoding
    && db.locale.collate == (if cfg.lcCollate != "" then cfg.lcCollate else cfg.locale)
    && db.locale.ctype == (if cfg.lcCtype != "" then cfg.lcCtype else cfg.locale)
    && db.locale.tablespace == cfg.tablespace
  }

  /** The database the new one is copied from: the one that is named, else the pristine one if a locale is declared. */
  function TemplateFor(cfg: Config): string {
    if cfg.template != "" then cfg.template
    else if cfg.encoding != "" || cfg.locale != "" || cfg.lcCollate != "" || cfg.lcCtype != "" then "template0"
    else "template1"
  }

  /** All that the template held. */
  predicate Copies(template: Db, db: Db) {
    && (forall s :: s in template.schemas ==> s in db.schemas && db.schemas[s] == template.schemas[s])
    && (forall e :: e in template.exts ==> e in db.exts && db.exts[e] == template.exts[e])
    && template.privs <= db.privs
  }

  predicate BornAsDeclared(cfg: Config, before: Cluster, db: Db) {
    && LocaleAsDeclared(cfg, db)
    && TemplateFor(cfg) in before.dbs && Copies(before.dbs[TemplateFor(cfg)], db)
  }

  lemma OnlyEnsureCreates(env: Env, st: Cluster, act: Act)
    requires Plannable(act) && !act.EnsureDatabase?
    ensures Step(env, st, act).0.dbs.Keys == st.dbs.Keys
  {
  }

  lemma EnsureCreates(env: Env, name: string, cfg: Config, st: Cluster)
    requires name !in st.dbs
    ensures var after := Step(env, st, EnsureDatabase(name, ClauseOfDatabase(cfg), cfg.owner)).0;
      name in after.dbs ==> BornAsDeclared(cfg, st, after.dbs[name])
  {
  }

  lemma EarlyEnsures(name: string, cfg: Config, act: Act)
    requires Early(name, cfg, act) && act.EnsureDatabase?
    ensures act == EnsureDatabase(name, ClauseOfDatabase(cfg), cfg.owner)
  {
  }

  lemma EnsuresWhich(name: string, cfg: Config, act: Act)
    requires act in Plan(name, cfg) && act.EnsureDatabase?
    ensures act == EnsureDatabase(name, ClauseOfDatabase(cfg), cfg.owner)
  {
    PlanHas(name, cfg, act);
    EarlyEnsures(name, cfg, act);
  }

  /** Every other database is as it was. */
  ghost predicate OthersKept(name: string, before: Cluster, st: Cluster) {
    forall d :: d != name ==> (d in st.dbs <==> d in before.dbs) && (d in before.dbs ==> st.dbs[d] == before.dbs[d])
  }

  lemma BornStep(env: Env, name: string, cfg: Config, before: Cluster, st: Cluster, act: Act)
    requires act in Plan(name, cfg) && name !in before.dbs && OthersKept(name, before, st)
    requires name in st.dbs ==> BornAsDeclared(cfg, before, st.dbs[name])
    ensures OthersKept(name, before, Step(env, st, act).0)
    ensures name in Step(env, st, act).0.dbs ==> BornAsDeclared(cfg, before, Step(env, st, act).0.dbs[name])
  {
    StepOnlyDeclared(env, name, cfg, st, act);
    if name !in st.dbs {
      if act.EnsureDatabase? {
        EnsuresWhich(name, cfg, act);
        EnsureCreates(env, name, cfg, st);
      } else {
        PlanPlannable(name, cfg, act);
        OnlyEnsureCreates(env, st, act);
      }
    }
  }

  lemma {:induction false} BornRun(env: Env, name: string, cfg: Config, before: Cluster, st: Cluster, acts: seq<Act>)
    requires name !in before.dbs && OthersKept(name, before, st)
    requires forall act :: act in acts ==> act in Plan(name, cfg)
    requires name in st.dbs ==> BornAsDeclared(cfg, before, st.dbs[name])
    ensures name in Run(env, acts, st).0.dbs ==> BornAsDeclared(cfg, before, Run(env, acts, st).0.dbs[name])
    decreases |acts|
  {
    if acts != [] {
      BornStep(env, name, cfg, before, st, acts[0]);
      var next := Step(env, st, acts[0]);
      if next.1 {
        BornRun(env, name, cfg, before, next.0, acts[1..]);
      }
    }
  }

  /**
   * A database that was not there is only ever there with the declared encoding, categories and tablespace, and with
   * all that the declared template held, the pristine one standing in where a locale is declared and no template is.
   */
  lemma CreatedAsDeclared(env: Env, name: string, cfg: Config, st: Cluster, acts: seq<Act>)
    requires name !in st.dbs && forall act :: act in acts ==> act in Plan(name, cfg)
    ensures name in Run(env, acts, st).0.dbs ==> BornAsDeclared(cfg, st, Run(env, acts, st).0.dbs[name])
  {
    BornRun(env, name, cfg, st, st, acts);
  }
}
