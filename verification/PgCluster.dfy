/** A PostgreSQL cluster as convergence sees it, and what each statement does to it. */
module PgCluster {
  import opened Strings
  import opened PgConfig

  // ----- State

  datatype RoleOptions = RoleOptions(
    login: bool, superuser: bool, createDB: bool, createRole: bool, replication: bool, inherits: bool,
    bypassRLS: bool, connectionLimit: int)

  datatype RoleRec = RoleRec(
    options: RoleOptions, password: Option<string>, validUntil: Option<string>,
    params: map<string, string>, comment: string)

  /** An extension as installed: the schema and version asked for when it was created ("" for the default). */
  datatype ExtRec = ExtRec(schema: string, version: string)

  /** A privilege on a schema or on all objects of a kind in it (kind "" is the schema itself). */
  datatype SchemaPriv = SchemaPriv(
    schema: string, kind: string, future: bool, role: string, privilege: string, grantable: bool)

  datatype Locale = Locale(encoding: string, collate: string, ctype: string, tablespace: string)

  datatype Db = Db(
    owner: string, locale: Locale, connectionLimit: int, isTemplate: bool, allowConns: bool, comment: string,
    schemas: map<string, string>, exts: map<string, ExtRec>, privs: set<SchemaPriv>)

  datatype DbPriv = DbPriv(db: string, role: string, privilege: string, grantable: bool)

  /** `members` are pairs (member, group); `files` are the extensions the toolchain can create. */
  datatype Cluster = Cluster(
    roles: map<string, RoleRec>, members: set<(string, string)>, dbs: map<string, Db>, dbPrivs: set<DbPriv>,
    files: set<string>)

  const SUPERUSER := "postgres"
  const MAINTENANCE_DB := "postgres"
  const DEFAULT_TEMPLATE := "template1"
  const DEFAULT_SCHEMA := "public"

  // ----- Statements

  datatype RoleClause = RoleClause(options: RoleOptions, password: string, validUntil: string)

  datatype DbClause = DbClause(owner: string, template: string, locale: Locale, connectionLimit: Option<int>)

  datatype Stmt =
    | CreateRole(name: string, clause: RoleClause)
    | AlterRole(name: string, clause: RoleClause)
    | SetParam(name: string, key: string, value: string)
    | CommentOnRole(name: string, text: string)
    | GrantRole(parent: string, member: string)
    | CreateDatabase(name: string, create: DbClause)
    | AlterOwner(name: string, owner: string)
    | AlterDatabase(name: string, limit: Option<int>, template: bool, deny: bool)
    | CommentOnDatabase(name: string, text: string)
    | CreateSchema(name: string, owner: string)
    | CreateExtension(name: string, schema: string, version: string, cascade: bool)
    | GrantOnDatabase(grant: Grant)
    | GrantOnSchema(grant: Grant)
    | GrantOnAll(grant: Grant)
    | DefaultPrivileges(grant: Grant)
    | DropExtension(name: string)
    | DropSchema(name: string)
    | DropDatabase(name: string)
    | DropRole(name: string)

  /**
   * What a cluster's surroundings decide once and for all: statements the server refuses whatever its state, the
   * extensions an extension needs, directly or not, and what an extension bundle contains when it can be fetched.
   */
  datatype Env = Env(
    refuses: (string, Stmt) -> Option<string>, needs: string -> set<string>, bundles: string -> Option<set<string>>)

  type Reply = Result<Cluster, string>

  // ----- Semantics

  function Given(text: string): Option<string> {
    if text == "" then None else Some(text)
  }

  function Created(clause: RoleClause): RoleRec {
    RoleRec(clause.options, Given(clause.password), Given(clause.validUntil), map[], "")
  }

  /** Password and expiry stay when the clause does not name them. */
  function Altered(rec: RoleRec, clause: RoleClause): RoleRec {
    rec.(options := clause.options,
         password := if clause.password == "" then rec.password else Some(clause.password),
         validUntil := if clause.validUntil == "" then rec.validUntil else Some(clause.validUntil))
  }

  function Parents(members: set<(string, string)>, of: set<string>): set<string> {
    set e | e in members && e.0 in of :: e.1
  }

  /** `of` and every group they are, directly or not, members of. */
  function Groups(members: set<(string, string)>, of: set<string>): (groups: set<string>)
    ensures of <= groups && Parents(members, groups) <= groups
    decreases (set e | e in members :: e.1) - of
  {
    var next := of + Parents(members, of);
    if next == of then of
    else
      var everyone := set e | e in members :: e.1;
      assert everyone - next < everyone - of by {
        var g :| g in next && g !in of;
        assert g in everyone - of && g !in everyone - next;
      }
      Groups(members, next)
  }

  function NewDb(template: Db, clause: DbClause): Db {
    Db(if clause.owner == "" then SUPERUSER else clause.owner, clause.locale, Or(clause.connectionLimit, -1),
       false, true, "", template.schemas, template.exts, template.privs)
  }

  function AlteredDb(db: Db, limit: Option<int>, template: bool, deny: bool): Db {
    db.(connectionLimit := Or(limit, db.connectionLimit),
        isTemplate := template || db.isTemplate,
        allowConns := !deny && db.allowConns)
  }

  predicate KnownGrantee(st: Cluster, role: string) {
    role in st.roles || role == "public"
  }

  function SchemaPrivs(g: Grant, kind: string, future: bool): set<SchemaPriv> {
    set p | p in g.privileges :: SchemaPriv(g.schema, kind, future, g.role, p, g.withGrantOption)
  }

  function DbPrivs(g: Grant): set<DbPriv> {
    set p | p in g.privileges :: DbPriv(g.database, g.role, p, g.withGrantOption)
  }

  /** CREATE EXTENSION of one that is not there yet: everything it needs must be there, or creatable under CASCADE. */
  predicate Creatable(env: Env, st: Cluster, db: Db, stmt: Stmt)
    requires stmt.CreateExtension?
  {
    && stmt.name in st.files
    && (stmt.schema == "" || stmt.schema in db.schemas)
    && forall d :: d in env.needs(stmt.name) ==> d in db.exts || (stmt.cascade && d in st.files)
  }

  function WithExtension(env: Env, db: Db, stmt: Stmt): Db
    requires stmt.CreateExtension?
  {
    var pulled := map d | d in env.needs(stmt.name) - db.exts.Keys :: ExtRec(stmt.schema, "");
    db.(exts := (pulled + db.exts)[stmt.name := ExtRec(stmt.schema, stmt.version)])
  }

  /** CASCADE: an extension goes when it, or one it needs, is dropped. */
  function WithoutExtensions(env: Env, db: Db, dropped: set<string>): Db {
    db.(exts := map e | e in db.exts && e !in dropped && env.needs(e) !! dropped :: db.exts[e])
  }

  /** Where an extension lives: in the schema asked for, else in the default one. */
  function Home(rec: ExtRec): string {
    if rec.schema == "" then DEFAULT_SCHEMA else rec.schema
  }

  function LivingIn(db: Db, schema: string): set<string> {
    set e | e in db.exts && Home(db.exts[e]) == schema
  }

  function WithoutSchema(env: Env, db: Db, name: string): Db {
    WithoutExtensions(env, db, LivingIn(db, name)).(
      schemas := db.schemas - {name}, privs := set p | p in db.privs && p.schema != name)
  }

  /** Something in this database would be left without the role. */
  predicate Mentions(db: Db, role: string) {
    db.owner == role || (exists s :: s in db.schemas && db.schemas[s] == role) || exists p :: p in db.privs && p.role == role
  }

  predicate HasDependents(st: Cluster, role: string) {
    (exists d :: d in st.dbs && Mentions(st.dbs[d], role)) || exists p :: p in st.dbPrivs && p.role == role
  }

  function AlreadyExists(kind: string, name: string): string {
    "ERROR:  " + kind + " \"" + name + "\" already exists"
  }

  function DoesNotExist(kind: string, name: string): string {
    "ERROR:  " + kind + " \"" + name + "\" does not exist"
  }

  function WithRole(st: Cluster, name: string, rec: RoleRec): Cluster {
    st.(roles := st.roles[name := rec])
  }

  function WithDb(st: Cluster, name: string, db: Db): Cluster {
    st.(dbs := st.dbs[name := db])
  }

  /** One statement on an open connection to `at`. */
  function Apply(env: Env, st: Cluster, at: string, stmt: Stmt): Reply
    requires at in st.dbs
  {
    var here := st.dbs[at];
    match stmt
    case CreateRole(name, clause) =>
      if name in st.roles then Failure(AlreadyExists("role", name)) else Success(WithRole(st, name, Created(clause)))
    case AlterRole(name, clause) =>
      if name !in st.roles then Failure(DoesNotExist("role", name))
      else Success(WithRole(st, name, Altered(st.roles[name], clause)))
    case SetParam(name, key, value) =>
      if name !in st.roles then Failure(DoesNotExist("role", name))
      else Success(WithRole(st, name, st.roles[name].(params := st.roles[name].params[key := value])))
    case CommentOnRole(name, text) =>
      if name !in st.roles then Failure(DoesNotExist("role", name))
      else Success(WithRole(st, name, st.roles[name].(comment := text)))
    case GrantRole(parent, member) =>
      if parent !in st.roles then Failure(DoesNotExist("role", parent))
      else if member !in st.roles then Failure(DoesNotExist("role", member))
      else if (member, parent) in st.members then Success(st)
      else if member in Groups(st.members, {parent}) then
        Failure("ERROR:  role \"" + parent + "\" is a member of role \"" + member + "\"")
      else Success(st.(members := st.members + {(member, parent)}))
    case CreateDatabase(name, create) =>
      var template := if create.template == "" then DEFAULT_TEMPLATE else create.template;
      if name in st.dbs then Failure(AlreadyExists("database", name))
      else if create.owner != "" && create.owner !in st.roles then Failure(DoesNotExist("role", create.owner))
      else if template !in st.dbs then Failure(DoesNotExist("template database", template))
      else Success(WithDb(st, name, NewDb(st.dbs[template], create)))
    case AlterOwner(name, owner) =>
      if name !in st.dbs then Failure(DoesNotExist("database", name))
      else if owner !in st.roles then Failure(DoesNotExist("role", owner))
      else Success(WithDb(st, name, st.dbs[name].(owner := owner)))
    case AlterDatabase(name, limit, template, deny) =>
      if name !in st.dbs then Failure(DoesNotExist("database", name))
      else if deny && name == at then Failure("ERROR:  cannot disallow connections for current database")
      else Success(WithDb(st, name, AlteredDb(st.dbs[name], limit, template, deny)))
    case CommentOnDatabase(name, text) =>
      if name !in st.dbs then Failure(DoesNotExist("database", name))
      else Success(WithDb(st, name, st.dbs[name].(comment := text)))
    case CreateSchema(name, owner) =>
      if owner != "" && owner !in st.roles then Failure(DoesNotExist("role", owner))
      else if name in here.schemas then Success(st)
      else
        var holder := if owner == "" then SUPERUSER else owner;
        Success(WithDb(st, at, here.(schemas := here.schemas[name := holder])))
    case CreateExtension(name, _, _, _) =>
      if name in here.exts then Success(st)
      else if !Creatable(env, st, here, stmt) then Failure("ERROR:  extension \"" + name + "\" cannot be created")
      else Success(WithDb(st, at, WithExtension(env, here, stmt)))
    case GrantOnDatabase(g) =>
      if g.database !in st.dbs then Failure(DoesNotExist("database", g.database))
      else if !KnownGrantee(st, g.role) then Failure(DoesNotExist("role", g.role))
      else Success(st.(dbPrivs := st.dbPrivs + DbPrivs(g)))
    case GrantOnSchema(g) => GrantHere(st, at, g, SchemaPrivs(g, "", false))
    case GrantOnAll(g) => GrantHere(st, at, g, SchemaPrivs(g, g.objects, false))
    case DefaultPrivileges(g) => GrantHere(st, at, g, SchemaPrivs(g, g.objects, true))
    case DropExtension(name) =>
      if name !in here.exts then Success(st) else Success(WithDb(st, at, WithoutExtensions(env, here, {name})))
    case DropSchema(name) =>
      if name !in here.schemas then Success(st) else Success(WithDb(st, at, WithoutSchema(env, here, name)))
    case DropDatabase(name) =>
      if name !in st.dbs then Success(st)
      else if st.dbs[name].isTemplate then Failure("ERROR:  cannot drop a template database")
      else if name == at then Failure("ERROR:  cannot drop the currently open database")
      else Success(st.(dbs := st.dbs - {name}, dbPrivs := (set p | p in st.dbPrivs && p.db != name)))
    case DropRole(name) =>
      if name !in st.roles then Success(st)
      else if name == SUPERUSER then Failure("ERROR:  current user cannot be dropped")
      else if HasDependents(st, name) then
        Failure("ERROR:  role \"" + name + "\" cannot be dropped because some objects depend on it")
      else Success(st.(roles := st.roles - {name}, members := (set e | e in st.members && e.0 != name && e.1 != name)))
  }

  function GrantHere(st: Cluster, at: string, g: Grant, privs: set<SchemaPriv>): Reply
    requires at in st.dbs
  {
    if g.schema !in st.dbs[at].schemas then Failure(DoesNotExist("schema", g.schema))
    else if !KnownGrantee(st, g.role) then Failure(DoesNotExist("role", g.role))
    else Success(WithDb(st, at, st.dbs[at].(privs := st.dbs[at].privs + privs)))
  }

  /** Even the superuser cannot connect to a database that is missing or allows no connections. */
  predicate Connectable(st: Cluster, at: string) {
    at in st.dbs && st.dbs[at].allowConns
  }

  /** `psql -d at -c stmt` */
  function Exec(env: Env, st: Cluster, at: string, stmt: Stmt): Reply {
    if at !in st.dbs then Failure("FATAL:  database \"" + at + "\" does not exist")
    else if !st.dbs[at].allowConns then Failure("FATAL:  database \"" + at + "\" is not currently accepting connections")
    else if env.refuses(at, stmt).Some? then Failure(env.refuses(at, stmt).value)
    else Apply(env, st, at, stmt)
  }
}
