/** Convergence as a list of acts, each deciding from the state it meets which statement to send. */
module PgPlan {
  import opened Strings
  import opened PgConfig
  import opened PgCluster
  import Converging

  datatype Act =
    | EnsureRole(role: Role)
    | EnsureDatabase(name: string, create: DbClause, owner: string)
    | FetchBundle(ext: Extension)
    | MakeExtension(db: string, ext: Extension)
    | Sql(at: string, stmt: Stmt)

  // ----- The acts of a config, in Converge's order

  function ClauseOf(role: Role): RoleClause {
    RoleClause(RoleOptions(role.login, role.superuser, role.createDB, role.createRole, role.replication,
                           role.inherits, role.bypassRLS, role.connectionLimit),
               role.password, role.validUntil)
  }

  function ParamActs(name: string, keys: seq<string>, config: map<string, string>): (acts: seq<Act>)
    requires forall k :: k in keys ==> k in config
    ensures |acts| == |keys|
  {
    seq(|keys|, i requires 0 <= i < |keys| => Sql(MAINTENANCE_DB, SetParam(name, keys[i], config[keys[i]])))
  }

  function CommentActs(role: Role): seq<Act> {
    if role.comment == "" then [] else [Sql(MAINTENANCE_DB, CommentOnRole(role.name, role.comment))]
  }

  /** convergeRole */
  function RoleActs(role: Role): seq<Act> {
    [EnsureRole(role)] + ParamActs(role.name, SortedKeys(role.config.Keys), role.config) + CommentActs(role)
  }

  function AllRoleActs(roles: seq<Role>): seq<Act> {
    if roles == [] then [] else AllRoleActs(roles[..|roles| - 1]) + RoleActs(roles[|roles| - 1])
  }

  function JoinActs(role: Role): (acts: seq<Act>)
    ensures |acts| == |role.memberOf|
  {
    seq(|role.memberOf|,
        i requires 0 <= i < |role.memberOf| => Sql(MAINTENANCE_DB, GrantRole(role.memberOf[i], role.name)))
  }

  function AllJoinActs(roles: seq<Role>): seq<Act> {
    if roles == [] then [] else AllJoinActs(roles[..|roles| - 1]) + JoinActs(roles[|roles| - 1])
  }

  function LimitOf(limit: int): Option<int> {
    if limit == UNLIMITED_CONNECTIONS then None else Some(limit)
  }

  /** `locale` stands for both categories unless one is set; any of these needs template0 unless one is named. */
  function ClauseOfDatabase(cfg: Config): DbClause {
    var collate := if cfg.lcCollate == "" then cfg.locale else cfg.lcCollate;
    var ctype := if cfg.lcCtype == "" then cfg.locale else cfg.lcCtype;
    var template := if (cfg.encoding != "" || collate != "" || ctype != "") && cfg.template == ""
                    then "template0" else cfg.template;
    DbClause(cfg.owner, template, Locale(cfg.encoding, collate, ctype, cfg.tablespace), LimitOf(cfg.connectionLimit))
  }

  function TuneActs(name: string, cfg: Config): seq<Act> {
    if LimitOf(cfg.connectionLimit).None? && !cfg.isTemplate && cfg.allowConns then []
    else [Sql(MAINTENANCE_DB,
              AlterDatabase(name, LimitOf(cfg.connectionLimit), cfg.isTemplate, !cfg.allowConns))]
  }

  function CommentOn(name: string, cfg: Config): seq<Act> {
    if cfg.comment == "" then [] else [Sql(MAINTENANCE_DB, CommentOnDatabase(name, cfg.comment))]
  }

  /** convergeDatabase */
  function DatabaseActs(name: string, cfg: Config): seq<Act> {
    [EnsureDatabase(name, ClauseOfDatabase(cfg), cfg.owner)] + TuneActs(name, cfg) + CommentOn(name, cfg)
  }

  function SchemaActs(name: string, schemas: seq<Schema>): (acts: seq<Act>)
    ensures |acts| == |schemas|
  {
    seq(|schemas|, i requires 0 <= i < |schemas| => Sql(name, CreateSchema(schemas[i].name, schemas[i].owner)))
  }

  /** extensionAliases */
  function RealName(name: string): string {
    if name == "pgvector" then "vector" else name
  }

  function ExtensionActs(name: string, ext: Extension): seq<Act> {
    (if ext.source == "" then [] else [FetchBundle(ext)]) + [MakeExtension(name, ext)]
  }

  function AllExtensionActs(name: string, exts: seq<Extension>): seq<Act> {
    if exts == [] then []
    else AllExtensionActs(name, exts[..|exts| - 1]) + ExtensionActs(name, exts[|exts| - 1])
  }

  /** convergeGrant */
  function GrantActs(name: string, g: Grant): seq<Act> {
    if g.database != "" then [Sql(MAINTENANCE_DB, GrantOnDatabase(g))]
    else if g.objects != "" then [Sql(name, GrantOnAll(g)), Sql(name, DefaultPrivileges(g))]
    else [Sql(name, GrantOnSchema(g))]
  }

  function AllGrantActs(name: string, grants: seq<Grant>): seq<Act> {
    if grants == [] then []
    else AllGrantActs(name, grants[..|grants| - 1]) + GrantActs(name, grants[|grants| - 1])
  }

  function RolePhase(cfg: Config): seq<Act> {
    AllRoleActs(cfg.roles) + AllJoinActs(cfg.roles)
  }

  /** The role phase and the database: all that several runs have in common to contend for. */
  function SharedActs(name: string, cfg: Config): seq<Act> {
    RolePhase(cfg) + [EnsureDatabase(name, ClauseOfDatabase(cfg), cfg.owner)]
  }

  function AfterRoles(name: string, cfg: Config): seq<Act> {
    DatabaseActs(name, cfg)
    + SchemaActs(name, cfg.schemas)
    + AllExtensionActs(name, cfg.extensions)
    + AllGrantActs(name, cfg.grants)
  }

  /** Converge */
  function Plan(name: string, cfg: Config): seq<Act> {
    RolePhase(cfg) + AfterRoles(name, cfg)
  }

  // ----- What an act does

  function RoleStmt(st: Cluster, role: Role): Stmt {
    if role.name in st.roles then AlterRole(role.name, ClauseOf(role)) else CreateRole(role.name, ClauseOf(role))
  }

  function MakeStmt(ext: Extension): Stmt {
    CreateExtension(RealName(ext.name), ext.schema, ext.version, ext.cascade)
  }

  /** The state after a reply, and whether the act may be passed. */
  function After(st: Cluster, reply: Reply, optional: bool): (Cluster, bool) {
    match reply
    case Success(st') => (st', true)
    case Failure(_) => (st, optional)
  }

  /** One act on the state it meets; the flag says whether convergence goes on. */
  function Step(env: Env, st: Cluster, act: Act): (Cluster, bool) {
    match act
    case EnsureRole(role) => After(st, Exec(env, st, MAINTENANCE_DB, RoleStmt(st, role)), false)
    case EnsureDatabase(name, create, owner) =>
      if !Connectable(st, MAINTENANCE_DB) then (st, false)
      else if name !in st.dbs then After(st, Exec(env, st, MAINTENANCE_DB, CreateDatabase(name, create)), false)
      else if owner == "" then (st, true)
      else After(st, Exec(env, st, MAINTENANCE_DB, AlterOwner(name, owner)), false)
    case FetchBundle(ext) =>
      if RealName(ext.name) in st.files then (st, true)
      else if env.bundles(ext.source).None? then (st, ext.optional)
      else
        var contents := env.bundles(ext.source).value;
        (st.(files := st.files + contents), RealName(ext.name) in contents || ext.optional)
    case MakeExtension(db, ext) =>
      if RealName(ext.name) !in st.files then (st, ext.optional)
      else After(st, Exec(env, st, db, MakeStmt(ext)), ext.optional)
    case Sql(at, stmt) => After(st, Exec(env, st, at, stmt), false)
  }

  function Stepping(env: Env): Converging.Stepper<Cluster, Act> {
    (st, act) => Step(env, st, act)
  }

  /** The acts one after another, up to the first that stops convergence. */
  function Run(env: Env, acts: seq<Act>, st: Cluster): (Cluster, bool) {
    Converging.Run(Stepping(env), acts, st)
  }

  lemma RunAppend(env: Env, a: seq<Act>, b: seq<Act>, st: Cluster)
    ensures Run(env, a + b, st) ==
      if Run(env, a, st).1 then Run(env, b, Run(env, a, st).0) else Run(env, a, st)
  {
    Converging.RunAppend(Stepping(env), a, b, st);
  }

  lemma RunSnoc(env: Env, acts: seq<Act>, act: Act, st: Cluster)
    ensures Run(env, acts + [act], st) ==
      if Run(env, acts, st).1 then Step(env, Run(env, acts, st).0, act) else Run(env, acts, st)
  {
    RunAppend(env, acts, [act], st);
    var here := Run(env, acts, st).0;
    Converging.RunOne(Stepping(env), act, here);
  }
}
