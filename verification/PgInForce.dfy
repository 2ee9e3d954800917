/** When an act has nothing left to do, and why it stays that way. */
module PgInForce {
  import opened Strings
  import opened PgConfig
  import opened PgCluster
  import opened PgPlan

  /** A clause the server takes when it creates something it also takes later. */
  ghost predicate Fair(env: Env) {
    && (forall at, name, clause ::
          env.refuses(at, CreateRole(name, clause)).None? ==> env.refuses(at, AlterRole(name, clause)).None?)
    && (forall at, name, create ::
          env.refuses(at, CreateDatabase(name, create)).None? ==> env.refuses(at, AlterOwner(name, create.owner)).None?)
  }

  // ----- Being in force

  predicate OptionsInForce(role: Role, st: Cluster) {
    && role.name in st.roles
    && var rec := st.roles[role.name];
       && rec.options == ClauseOf(role).options
       && (role.password != "" ==> rec.password == Some(role.password))
       && (role.validUntil != "" ==> rec.validUntil == Some(role.validUntil))
  }

  predicate OwnerInForce(name: string, owner: string, st: Cluster) {
    && name in st.dbs
    && (owner != "" ==> st.dbs[name].owner == owner && owner in st.roles)
  }

  /** The extension is there, or it is optional and the act passes it over. */
  predicate Skips(env: Env, st: Cluster, db: string, ext: Extension) {
    && ext.optional
    && (RealName(ext.name) !in st.files || Exec(env, st, db, MakeStmt(ext)).Failure?)
  }

  predicate Installed(st: Cluster, db: string, ext: Extension) {
    Connectable(st, db) && RealName(ext.name) in st.files && RealName(ext.name) in st.dbs[db].exts
  }

  predicate BundleInForce(env: Env, ext: Extension, st: Cluster) {
    || RealName(ext.name) in st.files
    || (ext.optional && (env.bundles(ext.source).None? || env.bundles(ext.source).value <= st.files))
  }

  predicate GrantInForce(st: Cluster, at: string, g: Grant, privs: set<SchemaPriv>)
    requires at in st.dbs
  {
    g.schema in st.dbs[at].schemas && KnownGrantee(st, g.role) && privs <= st.dbs[at].privs
  }

  predicate StmtInForce(st: Cluster, at: string, stmt: Stmt)
    requires at in st.dbs
  {
    match stmt
    case SetParam(name, key, value) =>
      name in st.roles && key in st.roles[name].params && st.roles[name].params[key] == value
    case CommentOnRole(name, text) => name in st.roles && st.roles[name].comment == text
    case GrantRole(parent, member) => parent in st.roles && member in st.roles && (member, parent) in st.members
    case AlterDatabase(name, limit, template, deny) =>
      && name in st.dbs
      && (limit.Some? ==> st.dbs[name].connectionLimit == limit.value)
      && (template ==> st.dbs[name].isTemplate)
      && (deny ==> !st.dbs[name].allowConns)
    case CommentOnDatabase(name, text) => name in st.dbs && st.dbs[name].comment == text
    case CreateSchema(name, owner) => (owner == "" || owner in st.roles) && name in st.dbs[at].schemas
    case GrantOnDatabase(g) => g.database in st.dbs && KnownGrantee(st, g.role) && DbPrivs(g) <= st.dbPrivs
    case GrantOnSchema(g) => GrantInForce(st, at, g, SchemaPrivs(g, "", false))
    case GrantOnAll(g) => GrantInForce(st, at, g, SchemaPrivs(g, g.objects, false))
    case DefaultPrivileges(g) => GrantInForce(st, at, g, SchemaPrivs(g, g.objects, true))
    case _ => false
  }

  /** What the act declares holds of the cluster. */
  predicate InForce(env: Env, act: Act, st: Cluster) {
    match act
    case EnsureRole(role) =>
      && Connectable(st, MAINTENANCE_DB)
      && OptionsInForce(role, st)
      && env.refuses(MAINTENANCE_DB, AlterRole(role.name, ClauseOf(role))).None?
    case EnsureDatabase(name, create, owner) =>
      && Connectable(st, MAINTENANCE_DB)
      && OwnerInForce(name, owner, st)
      && (owner != "" ==> env.refuses(MAINTENANCE_DB, AlterOwner(name, owner)).None?)
    case FetchBundle(ext) => BundleInForce(env, ext, st)
    case MakeExtension(db, ext) =>
      (Installed(st, db, ext) && env.refuses(db, MakeStmt(ext)).None?) || Skips(env, st, db, ext)
    case Sql(at, stmt) =>
      Connectable(st, at) && env.refuses(at, stmt).None? && StmtInForce(st, at, stmt)
  }

  /** The statements Converge sends unconditionally, and the clause under which the database is created. */
  predicate Plannable(act: Act) {
    match act
    case Sql(_, stmt) =>
      || stmt.SetParam? || stmt.CommentOnRole? || stmt.GrantRole? || stmt.AlterDatabase? || stmt.CommentOnDatabase?
      || stmt.CreateSchema? || stmt.GrantOnDatabase? || stmt.GrantOnSchema? || stmt.GrantOnAll? || stmt.DefaultPrivileges?
    case EnsureDatabase(_, create, owner) => create.owner == owner
    case _ => true
  }

  // ----- An act that passes is in force afterwards

  lemma StmtEstablishes(env: Env, st: Cluster, at: string, stmt: Stmt)
    requires Plannable(Sql(at, stmt)) && Exec(env, st, at, stmt).Success?
    ensures InForce(env, Sql(at, stmt), Exec(env, st, at, stmt).value)
  {
  }

  lemma StepEstablishes(env: Env, st: Cluster, act: Act)
    requires Fair(env) && Plannable(act) && Step(env, st, act).1
    ensures InForce(env, act, Step(env, st, act).0)
  {
    match act
    case Sql(at, stmt) => StmtEstablishes(env, st, at, stmt);
    case EnsureRole(_) =>
    case EnsureDatabase(_, _, _) =>
    case FetchBundle(_) =>
    case MakeExtension(_, _) =>
  }

  // ----- An act in force does nothing

  lemma SameDb(st: Cluster, at: string)
    requires at in st.dbs
    ensures WithDb(st, at, st.dbs[at]) == st
  {
    assert st.dbs[at := st.dbs[at]] == st.dbs;
  }

  lemma StmtAbsorbed(env: Env, st: Cluster, at: string, stmt: Stmt)
    requires InForce(env, Sql(at, stmt), st)
    ensures Exec(env, st, at, stmt) == Success(st)
  {
    match stmt
    case SetParam(name, key, value) =>
      assert st.roles[name].params[key := value] == st.roles[name].params;
      assert st.roles[name := st.roles[name]] == st.roles;
    case CommentOnRole(name, _) =>
      assert st.roles[name := st.roles[name]] == st.roles;
    case AlterDatabase(name, _, _, _) => SameDb(st, name);
    case CommentOnDatabase(name, _) => SameDb(st, name);
    case GrantOnDatabase(g) =>
      assert st.dbPrivs + DbPrivs(g) == st.dbPrivs;
    case GrantOnSchema(g) => GrantAbsorbed(st, at, g, SchemaPrivs(g, "", false));
    case GrantOnAll(g) => GrantAbsorbed(st, at, g, SchemaPrivs(g, g.objects, false));
    case DefaultPrivileges(g) => GrantAbsorbed(st, at, g, SchemaPrivs(g, g.objects, true));
    case _ =>
  }

  lemma GrantAbsorbed(st: Cluster, at: string, g: Grant, privs: set<SchemaPriv>)
    requires at in st.dbs && GrantInForce(st, at, g, privs)
    ensures GrantHere(st, at, g, privs) == Success(st)
  {
    assert st.dbs[at].privs + privs == st.dbs[at].privs;
    SameDb(st, at);
  }

  /** Once in force, always a no-op: convergence passes the act without touching the cluster. */
  lemma InForceAbsorbs(env: Env, st: Cluster, act: Act)
    requires InForce(env, act, st)
    ensures Step(env, st, act) == (st, true)
  {
    match act
    case Sql(at, stmt) => StmtAbsorbed(env, st, at, stmt);
    case EnsureRole(role) =>
      assert Altered(st.roles[role.name], ClauseOf(role)) == st.roles[role.name];
      assert st.roles[role.name := st.roles[role.name]] == st.roles;
    case EnsureDatabase(name, _, owner) => SameDb(st, name);
    case FetchBundle(ext) =>
      if RealName(ext.name) !in st.files && env.bundles(ext.source).Some? {
        assert st.files + env.bundles(ext.source).value == st.files;
      }
    case MakeExtension(_, _) =>
  }

  // ----- Later acts leave it in force

  predicate ConnectsTo(act: Act, db: string) {
    match act
    case EnsureRole(_) => db == MAINTENANCE_DB
    case EnsureDatabase(_, _, _) => db == MAINTENANCE_DB
    case FetchBundle(_) => false
    case MakeExtension(at, _) => db == at
    case Sql(at, _) => db == at
  }

  /** The database an act closes to further connections: never the one it is sent through. */
  predicate Denies(act: Act, db: string) {
    act.Sql? && act.stmt.AlterDatabase? && act.stmt.deny && act.stmt.name == db && act.at != db
  }

  predicate StmtsAgree(s: Stmt, t: Stmt) {
    && (s.SetParam? && t.SetParam? && s.name == t.name && s.key == t.key ==> s.value == t.value)
    && (s.CommentOnRole? && t.CommentOnRole? && s.name == t.name ==> s.text == t.text)
    && (s.AlterDatabase? && t.AlterDatabase? && s.name == t.name ==> s == t)
    && (s.CommentOnDatabase? && t.CommentOnDatabase? && s.name == t.name ==> s.text == t.text)
  }

  /** Doing b later does not undo a: they set nothing to two values, and b does not shut the door a goes through. */
  ghost predicate Compatible(a: Act, b: Act) {
    && (forall db :: Denies(b, db) ==> !ConnectsTo(a, db))
    && (a.EnsureRole? && b.EnsureRole? && a.role.name == b.role.name ==> ClauseOf(a.role) == ClauseOf(b.role))
    && (a.EnsureDatabase? && b.EnsureDatabase? && a.name == b.name ==> a.owner == b.owner)
    && (a.Sql? && b.Sql? ==> StmtsAgree(a.stmt, b.stmt))
  }

  /** A role record that keeps what `a` declares about it. */
  predicate KeepsRole(a: Act, name: string, rec: RoleRec, rec': RoleRec) {
    match a
    case EnsureRole(role) =>
      role.name == name ==>
        && (rec.options == ClauseOf(role).options ==> rec'.options == rec.options)
        && (role.password != "" && rec.password == Some(role.password) ==> rec'.password == rec.password)
        && (role.validUntil != "" && rec.validUntil == Some(role.validUntil) ==> rec'.validUntil == rec.validUntil)
    case Sql(_, SetParam(n, key, value)) =>
      n == name && key in rec.params && rec.params[key] == value ==> key in rec'.params && rec'.params[key] == value
    case Sql(_, CommentOnRole(n, text)) => n == name && rec.comment == text ==> rec'.comment == text
    case _ => true
  }

  lemma RoleChangeKeeps(env: Env, st: Cluster, a: Act, name: string, rec: RoleRec)
    requires InForce(env, a, st)
    requires name in st.roles ==> KeepsRole(a, name, st.roles[name], rec)
    ensures InForce(env, a, WithRole(st, name, rec))
  {
    if a.MakeExtension? {
      var stmt := MakeStmt(a.ext);
      assert Connectable(st, a.db) ==> Creatable(env, st, st.dbs[a.db], stmt) ==
                                       Creatable(env, WithRole(st, name, rec), st.dbs[a.db], stmt);
    }
  }

  /** A database record that keeps what `a` declares about it; what it holds only grows. */
  predicate KeepsDb(a: Act, name: string, db: Db, db': Db) {
    && (forall s :: s in db.schemas ==> s in db'.schemas)
    && (forall e :: e in db.exts ==> e in db'.exts)
    && db.privs <= db'.privs
    && (ConnectsTo(a, name) && db.allowConns ==> db'.allowConns)
    && match a
       case EnsureDatabase(n, _, owner) => n == name && owner != "" && db.owner == owner ==> db'.owner == owner
       case Sql(_, AlterDatabase(n, limit, template, deny)) =>
         n == name ==>
           && (limit.Some? && db.connectionLimit == limit.value ==> db'.connectionLimit == limit.value)
           && (template && db.isTemplate ==> db'.isTemplate)
           && (deny && !db.allowConns ==> !db'.allowConns)
       case Sql(_, CommentOnDatabase(n, text)) => n == name && db.comment == text ==> db'.comment == text
       case _ => true
  }

  /** An extension that had been passed over is passed over still, or someone else brought it. */
  ghost predicate Undecided(env: Env, st: Cluster, a: Act, st': Cluster) {
    a.MakeExtension? && !(Installed(st, a.db, a.ext) && env.refuses(a.db, MakeStmt(a.ext)).None?) ==> InForce(env, a, st')
  }

  lemma DbChangeKeeps(env: Env, st: Cluster, a: Act, name: string, db: Db)
    requires InForce(env, a, st) && Plannable(a)
    requires name in st.dbs ==> KeepsDb(a, name, st.dbs[name], db)
    requires Undecided(env, st, a, WithDb(st, name, db))
    ensures InForce(env, a, WithDb(st, name, db))
  {
  }

  lemma MembersKeep(env: Env, st: Cluster, a: Act, members: set<(string, string)>)
    requires InForce(env, a, st) && st.members <= members
    ensures InForce(env, a, st.(members := members))
  {
  }

  lemma DbPrivsKeep(env: Env, st: Cluster, a: Act, privs: set<DbPriv>)
    requires InForce(env, a, st) && st.dbPrivs <= privs
    ensures InForce(env, a, st.(dbPrivs := privs))
  {
  }

  lemma FilesKeep(env: Env, st: Cluster, a: Act, files: set<string>)
    requires InForce(env, a, st) && st.files <= files
    requires Undecided(env, st, a, st.(files := files))
    ensures InForce(env, a, st.(files := files))
  {
  }

  lemma RoleStmtKeeps(env: Env, st: Cluster, a: Act, at: string, stmt: Stmt)
    requires InForce(env, a, st) && Plannable(a)
    requires stmt.SetParam? || stmt.CommentOnRole? || stmt.GrantRole?
    requires Compatible(a, Sql(at, stmt)) && Exec(env, st, at, stmt).Success?
    requires Undecided(env, st, a, Exec(env, st, at, stmt).value)
    ensures InForce(env, a, Exec(env, st, at, stmt).value)
  {
    var st' := Exec(env, st, at, stmt).value;
    if stmt.GrantRole? {
      MembersKeep(env, st, a, st'.members);
    } else {
      RoleChangeKeeps(env, st, a, stmt.name, st'.roles[stmt.name]);
    }
  }

  lemma AlterDatabaseKeeps(env: Env, st: Cluster, a: Act, at: string, stmt: Stmt)
    requires InForce(env, a, st) && Plannable(a)
    requires stmt.AlterDatabase? || stmt.CommentOnDatabase?
    requires Compatible(a, Sql(at, stmt)) && Exec(env, st, at, stmt).Success?
    requires Undecided(env, st, a, Exec(env, st, at, stmt).value)
    ensures InForce(env, a, Exec(env, st, at, stmt).value)
  {
    var st' := Exec(env, st, at, stmt).value;
    assert Denies(Sql(at, stmt), stmt.name) ==> !ConnectsTo(a, stmt.name);
    DbChangeKeeps(env, st, a, stmt.name, st'.dbs[stmt.name]);
  }

  lemma ContentsStmtKeeps(env: Env, st: Cluster, a: Act, at: string, stmt: Stmt)
    requires InForce(env, a, st) && Plannable(a)
    requires stmt.CreateSchema? || stmt.CreateExtension?
    requires Compatible(a, Sql(at, stmt)) && Exec(env, st, at, stmt).Success?
    requires Undecided(env, st, a, Exec(env, st, at, stmt).value)
    ensures InForce(env, a, Exec(env, st, at, stmt).value)
  {
    var st' := Exec(env, st, at, stmt).value;
    SameDb(st, at);
    assert st' == WithDb(st, at, st'.dbs[at]);
    DbChangeKeeps(env, st, a, at, st'.dbs[at]);
  }

  lemma GrantStmtKeeps(env: Env, st: Cluster, a: Act, at: string, stmt: Stmt)
    requires InForce(env, a, st) && Plannable(a)
    requires stmt.GrantOnSchema? || stmt.GrantOnAll? || stmt.DefaultPrivileges?
    requires Compatible(a, Sql(at, stmt)) && Exec(env, st, at, stmt).Success?
    requires Undecided(env, st, a, Exec(env, st, at, stmt).value)
    ensures InForce(env, a, Exec(env, st, at, stmt).value)
  {
    var st' := Exec(env, st, at, stmt).value;
    assert st' == WithDb(st, at, st'.dbs[at]);
    DbChangeKeeps(env, st, a, at, st'.dbs[at]);
  }

  lemma StmtKeeps(env: Env, st: Cluster, a: Act, at: string, stmt: Stmt)
    requires InForce(env, a, st) && Plannable(a)
    requires Plannable(Sql(at, stmt)) || stmt.CreateExtension?
    requires Compatible(a, Sql(at, stmt)) && Exec(env, st, at, stmt).Success?
    requires Undecided(env, st, a, Exec(env, st, at, stmt).value)
    ensures InForce(env, a, Exec(env, st, at, stmt).value)
  {
    var st' := Exec(env, st, at, stmt).value;
    if stmt.SetParam? || stmt.CommentOnRole? || stmt.GrantRole? {
      RoleStmtKeeps(env, st, a, at, stmt);
    } else if stmt.AlterDatabase? || stmt.CommentOnDatabase? {
      AlterDatabaseKeeps(env, st, a, at, stmt);
    } else if stmt.GrantOnDatabase? {
      DbPrivsKeep(env, st, a, st'.dbPrivs);
    } else if stmt.CreateSchema? || stmt.CreateExtension? {
      ContentsStmtKeeps(env, st, a, at, stmt);
    } else {
      GrantStmtKeeps(env, st, a, at, stmt);
    }
  }

  lemma EnsureRoleKeeps(env: Env, st: Cluster, a: Act, b: Act)
    requires InForce(env, a, st) && Plannable(a) && Plannable(b) && Compatible(a, b) && b.EnsureRole?
    requires Undecided(env, st, a, Step(env, st, b).0)
    ensures InForce(env, a, Step(env, st, b).0)
  {
    var st' := Step(env, st, b).0;
    if st' != st {
      RoleChangeKeeps(env, st, a, b.role.name, st'.roles[b.role.name]);
    }
  }

  lemma EnsureDatabaseKeeps(env: Env, st: Cluster, a: Act, b: Act)
    requires InForce(env, a, st) && Plannable(a) && Plannable(b) && Compatible(a, b) && b.EnsureDatabase?
    requires Undecided(env, st, a, Step(env, st, b).0)
    ensures InForce(env, a, Step(env, st, b).0)
  {
    var st' := Step(env, st, b).0;
    if st' != st {
      DbChangeKeeps(env, st, a, b.name, st'.dbs[b.name]);
    }
  }

  /** Acts that agree do not undo each other. */
  lemma StepKeeps(env: Env, st: Cluster, a: Act, b: Act)
    requires InForce(env, a, st) && Plannable(a) && Plannable(b) && Compatible(a, b)
    requires Undecided(env, st, a, Step(env, st, b).0)
    ensures InForce(env, a, Step(env, st, b).0)
  {
    var st' := Step(env, st, b).0;
    match b
    case EnsureRole(_) => EnsureRoleKeeps(env, st, a, b);
    case EnsureDatabase(_, _, _) => EnsureDatabaseKeeps(env, st, a, b);
    case FetchBundle(_) =>
      if st' != st {
        FilesKeep(env, st, a, st'.files);
      }
    case MakeExtension(db, ext) =>
      if st' != st {
        StmtKeeps(env, st, a, db, MakeStmt(ext));
      }
    case Sql(at, stmt) =>
      if st' != st {
        StmtKeeps(env, st, a, at, stmt);
      }
  }
}
