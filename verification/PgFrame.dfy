/** What convergence leaves alone, after any of its acts, in any order, however far it gets. */
module PgFrame {
  import opened Strings
  import opened PgConfig
  import opened PgCluster
  import opened PgPlan
  import opened PgInForce
  import opened PgPlanFacts

  predicate NamesRole(cfg: Config, name: string) {
    exists role :: role in cfg.roles && role.name == name
  }

  predicate NamesMembership(cfg: Config, e: (string, string)) {
    exists role :: role in cfg.roles && role.name == e.0 && e.1 in role.memberOf
  }

  predicate NamesSchema(cfg: Config, name: string) {
    exists schema :: schema in cfg.schemas && schema.name == name
  }

  /** Declared, or needed by a declared extension that cascades. */
  predicate NamesExtension(env: Env, cfg: Config, name: string) {
    exists ext :: ext in cfg.extensions
      && (name == RealName(ext.name) || (ext.cascade && name in env.needs(RealName(ext.name))))
  }

  predicate NamesDbPriv(cfg: Config, p: DbPriv) {
    exists g :: g in cfg.grants && g.database != "" && p in DbPrivs(g)
  }

  predicate NamesPriv(cfg: Config, p: SchemaPriv) {
    exists g :: g in cfg.grants && p.schema == g.schema && p.role == g.role && p.privilege in g.privileges
      && p.grantable == g.withGrantOption
  }

  /** Inside the instance's database: nothing goes, what was there stays as it was, and only declared things come. */
  ghost predicate ContentsGrow(env: Env, cfg: Config, db: Db, db': Db) {
    && db'.locale == db.locale
    && (forall s :: s in db.schemas ==> s in db'.schemas && db'.schemas[s] == db.schemas[s])
    && (forall s :: s in db'.schemas ==> s in db.schemas || NamesSchema(cfg, s))
    && (forall e :: e in db.exts ==> e in db'.exts && db'.exts[e] == db.exts[e])
    && (forall e :: e in db'.exts ==> e in db.exts || NamesExtension(env, cfg, e))
    && db.privs <= db'.privs
    && (forall p :: p in db'.privs ==> p in db.privs || NamesPriv(cfg, p))
  }

  /** The frame of convergence. */
  ghost predicate OnlyDeclared(env: Env, name: string, cfg: Config, st: Cluster, st': Cluster) {
    && (forall r :: r in st.roles ==> r in st'.roles)
    && (forall r :: r in st'.roles && !NamesRole(cfg, r) ==> r in st.roles && st'.roles[r] == st.roles[r])
    && st.members <= st'.members
    && (forall e :: e in st'.members ==> e in st.members || NamesMembership(cfg, e))
    && (forall d :: d in st.dbs ==> d in st'.dbs)
    && (forall d :: d in st'.dbs && d != name ==> d in st.dbs && st'.dbs[d] == st.dbs[d])
    && (name in st.dbs ==> ContentsGrow(env, cfg, st.dbs[name], st'.dbs[name]))
    && st.dbPrivs <= st'.dbPrivs
    && (forall p :: p in st'.dbPrivs ==> p in st.dbPrivs || NamesDbPriv(cfg, p))
    && st.files <= st'.files
  }

  lemma Chain(env: Env, name: string, cfg: Config, s0: Cluster, s1: Cluster, s2: Cluster)
    requires OnlyDeclared(env, name, cfg, s0, s1) && OnlyDeclared(env, name, cfg, s1, s2)
    ensures OnlyDeclared(env, name, cfg, s0, s2)
  {
  }

  lemma RoleFrame(env: Env, name: string, cfg: Config, st: Cluster, role: string, rec: RoleRec)
    requires NamesRole(cfg, role)
    ensures OnlyDeclared(env, name, cfg, st, WithRole(st, role, rec))
  {
  }

  lemma DbFrame(env: Env, name: string, cfg: Config, st: Cluster, db: Db)
    requires name in st.dbs ==> ContentsGrow(env, cfg, st.dbs[name], db)
    ensures OnlyDeclared(env, name, cfg, st, WithDb(st, name, db))
  {
  }

  lemma RoleStep(env: Env, name: string, cfg: Config, st: Cluster, role: Role, act: Act)
    requires role in cfg.roles && OfRole(role, act)
    ensures OnlyDeclared(env, name, cfg, st, Step(env, st, act).0)
  {
    var st' := Step(env, st, act).0;
    if st' != st {
      assert NamesRole(cfg, role.name);
      if act.Sql? && act.stmt.GrantRole? {
        assert NamesMembership(cfg, (act.stmt.member, act.stmt.parent));
      } else {
        RoleFrame(env, name, cfg, st, role.name, st'.roles[role.name]);
      }
    }
  }

  lemma DatabaseStep(env: Env, name: string, cfg: Config, st: Cluster, act: Act)
    requires OfDatabase(name, cfg, act)
    ensures OnlyDeclared(env, name, cfg, st, Step(env, st, act).0)
  {
    var st' := Step(env, st, act).0;
    if st' != st {
      DbFrame(env, name, cfg, st, st'.dbs[name]);
    }
  }

  lemma MadeGrows(env: Env, cfg: Config, st: Cluster, db: Db, ext: Extension)
    requires ext in cfg.extensions && RealName(ext.name) !in db.exts && Creatable(env, st, db, MakeStmt(ext))
    ensures ContentsGrow(env, cfg, db, WithExtension(env, db, MakeStmt(ext)))
  {
    var made := WithExtension(env, db, MakeStmt(ext));
    forall e | e in made.exts && e !in db.exts
      ensures NamesExtension(env, cfg, e)
    {
    }
  }

  lemma MakeStep(env: Env, name: string, cfg: Config, st: Cluster, ext: Extension)
    requires ext in cfg.extensions
    ensures OnlyDeclared(env, name, cfg, st, Step(env, st, MakeExtension(name, ext)).0)
  {
    var st' := Step(env, st, MakeExtension(name, ext)).0;
    if st' != st {
      MadeGrows(env, cfg, st, st.dbs[name], ext);
      DbFrame(env, name, cfg, st, WithExtension(env, st.dbs[name], MakeStmt(ext)));
    }
  }

  lemma ExtensionStep(env: Env, name: string, cfg: Config, st: Cluster, act: Act)
    requires (act.FetchBundle? || act.MakeExtension?) && OfContents(name, cfg, act)
    ensures OnlyDeclared(env, name, cfg, st, Step(env, st, act).0)
  {
    if act.MakeExtension? {
      MakeStep(env, name, cfg, st, act.ext);
    }
  }

  lemma SchemaStep(env: Env, name: string, cfg: Config, st: Cluster, act: Act)
    requires act.Sql? && act.stmt.CreateSchema? && OfContents(name, cfg, act)
    ensures OnlyDeclared(env, name, cfg, st, Step(env, st, act).0)
  {
    var st' := Step(env, st, act).0;
    if st' != st {
      assert Schema(act.stmt.name, act.stmt.owner) in cfg.schemas;
      assert NamesSchema(cfg, act.stmt.name);
      DbFrame(env, name, cfg, st, st'.dbs[name]);
    }
  }

  lemma GrantStep(env: Env, name: string, cfg: Config, st: Cluster, act: Act)
    requires act.Sql? && !act.stmt.CreateSchema? && OfContents(name, cfg, act)
    ensures OnlyDeclared(env, name, cfg, st, Step(env, st, act).0)
  {
    var st' := Step(env, st, act).0;
    if st' != st {
      var g := act.stmt.grant;
      if act.stmt.GrantOnDatabase? {
        assert forall p :: p in DbPrivs(g) ==> NamesDbPriv(cfg, p);
      } else {
        assert forall kind, future, p :: p in SchemaPrivs(g, kind, future) ==> NamesPriv(cfg, p);
        DbFrame(env, name, cfg, st, st'.dbs[name]);
      }
    }
  }

  /** Every act of a plan keeps the frame, whatever state it meets. */
  lemma StepOnlyDeclared(env: Env, name: string, cfg: Config, st: Cluster, act: Act)
    requires act in Plan(name, cfg)
    ensures OnlyDeclared(env, name, cfg, st, Step(env, st, act).0)
  {
    PlanHas(name, cfg, act);
    if role :| role in cfg.roles && OfRole(role, act) {
      RoleStep(env, name, cfg, st, role, act);
    } else if OfDatabase(name, cfg, act) {
      DatabaseStep(env, name, cfg, st, act);
    } else if act.Sql? && act.stmt.CreateSchema? {
      SchemaStep(env, name, cfg, st, act);
    } else if act.Sql? {
      GrantStep(env, name, cfg, st, act);
    } else {
      ExtensionStep(env, name, cfg, st, act);
    }
  }

  /**
   * No run of a config's acts, complete, cut short, failing or out of order, drops anything or touches what the
   * config does not name.
   */
  lemma {:induction false} RunOnlyDeclared(env: Env, name: string, cfg: Config, st: Cluster, acts: seq<Act>)
    requires forall act :: act in acts ==> act in Plan(name, cfg)
    ensures OnlyDeclared(env, name, cfg, st, Run(env, acts, st).0)
    decreases |acts|
  {
    if acts != [] {
      var next := Step(env, st, acts[0]);
      StepOnlyDeclared(env, name, cfg, st, acts[0]);
      if next.1 {
        RunOnlyDeclared(env, name, cfg, next.0, acts[1..]);
        Chain(env, name, cfg, st, next.0, Run(env, acts, st).0);
      }
    }
  }

  /** An optional extension is passed over whatever fails. */
  lemma OptionalPasses(env: Env, name: string, ext: Extension, st: Cluster)
    requires ext.optional
    ensures Run(env, ExtensionActs(name, ext), st).1
  {
    var fetch := if ext.source == "" then [] else [FetchBundle(ext)];
    RunSnoc(env, [], FetchBundle(ext), st);
    assert [] + [FetchBundle(ext)] == [FetchBundle(ext)];
    RunSnoc(env, fetch, MakeExtension(name, ext), st);
  }

  /** Everything in front of the i-th extension passed, and the i-th, a required one, did not. */
  predicate RequiredStops(env: Env, name: string, exts: seq<Extension>, st: Cluster, i: nat)
    requires i < |exts|
  {
    var (here, passed) := Run(env, AllExtensionActs(name, exts[..i]), st);
    passed && !exts[i].optional && !Run(env, ExtensionActs(name, exts[i]), here).1
  }

  lemma LastOne(env: Env, name: string, exts: seq<Extension>, st: Cluster)
    requires exts != []
    ensures var n := |exts| - 1; var front := Run(env, AllExtensionActs(name, exts[..n]), st);
      !Run(env, AllExtensionActs(name, exts), st).1 <==> !front.1 || RequiredStops(env, name, exts, st, n)
  {
    var n := |exts| - 1;
    var here := Run(env, AllExtensionActs(name, exts[..n]), st);
    RunAppend(env, AllExtensionActs(name, exts[..n]), ExtensionActs(name, exts[n]), st);
    if exts[n].optional {
      OptionalPasses(env, name, exts[n], here.0);
    }
  }

  /** Optional extensions never stop convergence, whatever required ones stand among them. */
  lemma {:induction false} OnlyRequiredStops(env: Env, name: string, exts: seq<Extension>, st: Cluster)
    ensures !Run(env, AllExtensionActs(name, exts), st).1 <==>
      exists i :: 0 <= i < |exts| && RequiredStops(env, name, exts, st, i)
  {
    if exts != [] {
      var n := |exts| - 1;
      OnlyRequiredStops(env, name, exts[..n], st);
      LastOne(env, name, exts, st);
      forall i | 0 <= i < n
        ensures RequiredStops(env, name, exts[..n], st, i) <==> RequiredStops(env, name, exts, st, i)
      {
        assert exts[..n][..i] == exts[..i];
      }
    }
  }
}
