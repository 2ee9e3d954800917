/** Databases that allow no connections: which of them can be declared. */
module PgClosed {
  import opened Strings
  import opened PgConfig
  import opened PgCluster
  import opened PgPlan
  import opened PgInForce
  import opened PgPlanFacts
  import opened PgConfluence
  import opened PgTarget
  import Converging

  /** Something that has to be done inside the database. */
  predicate NeedsInside(cfg: Config) {
    || cfg.schemas != []
    || (exists ext :: ext in cfg.extensions && !ext.optional)
    || exists g :: g in cfg.grants && g.database == ""
  }

  lemma InsideAct(name: string, cfg: Config) returns (act: Act)
    requires NeedsInside(cfg)
    ensures act in Plan(name, cfg) && ConnectsTo(act, name) && (act.MakeExtension? ==> !act.ext.optional)
  {
    if cfg.schemas != [] {
      SchemaIn(name, cfg, cfg.schemas[0]);
      act := Sql(name, CreateSchema(cfg.schemas[0].name, cfg.schemas[0].owner));
    } else if ext :| ext in cfg.extensions && !ext.optional {
      ExtensionsHave(name, cfg.extensions, ext);
      act := MakeExtension(name, ext);
    } else {
      var g :| g in cfg.grants && g.database == "";
      act := GrantActs(name, g)[0];
      GrantsHave(name, cfg.grants, g, act);
    }
    InPlan(name, cfg, act);
  }

  /**
   * A config that closes its database and has something done inside it converges on no cluster, and neither does one
   * that closes the database everything is sent through.
   */
  lemma ClosedNeverConverges(env: Env, name: string, cfg: Config, st: Cluster)
    requires Fair(env) && WellFormed(cfg) && !cfg.allowConns && (name == MAINTENANCE_DB || NeedsInside(cfg))
    ensures !Run(env, Plan(name, cfg), st).1
  {
    if Run(env, Plan(name, cfg), st).1 {
      var final := Run(env, Plan(name, cfg), st).0;
      DatabaseReached(env, name, cfg, st, final);
      if name == MAINTENANCE_DB {
        DatabaseHas(name, cfg);
        DatabaseActEnforced(env, name, cfg, st, final, EnsureDatabase(name, ClauseOfDatabase(cfg), cfg.owner));
      } else {
        var act := InsideAct(name, cfg);
        ActEnforced(env, name, cfg, st, final, act);
      }
      assert false;
    }
  }

  // ----- Closed and open in step

  /** The same cluster but for what is in one database. */
  ghost predicate Alike(name: string, a: Cluster, b: Cluster) {
    && a.roles == b.roles && a.members == b.members && a.dbPrivs == b.dbPrivs && a.files == b.files
    && a.dbs.Keys == b.dbs.Keys && forall d :: d in a.dbs && d != name ==> a.dbs[d] == b.dbs[d]
  }

  /** An act that does not depend on getting into the database. */
  predicate Outside(name: string, act: Act) {
    match act
    case FetchBundle(_) => true
    case MakeExtension(db, ext) => db == name && ext.optional
    case Sql(at, stmt) => at == MAINTENANCE_DB && (stmt.CommentOnDatabase? || stmt.GrantOnDatabase?)
    case _ => false
  }

  lemma AlikeStep(env: Env, name: string, a: Cluster, b: Cluster, act: Act)
    requires Alike(name, a, b) && Outside(name, act) && name != MAINTENANCE_DB
    ensures Step(env, a, act).1 <==> Step(env, b, act).1
    ensures Alike(name, Step(env, a, act).0, Step(env, b, act).0)
  {
    match act
    case Sql(_, stmt) => AlikeStmt(env, name, a, b, stmt);
    case MakeExtension(_, _) =>
      MakesInside(env, name, a, act);
      MakesInside(env, name, b, act);
    case _ =>
  }

  lemma MakesInside(env: Env, name: string, st: Cluster, act: Act)
    requires act.MakeExtension? && act.db == name && act.ext.optional
    ensures Step(env, st, act).1 && Alike(name, Step(env, st, act).0, st)
  {
  }

  lemma AlikeStmt(env: Env, name: string, a: Cluster, b: Cluster, stmt: Stmt)
    requires Alike(name, a, b) && Outside(name, Sql(MAINTENANCE_DB, stmt)) && name != MAINTENANCE_DB
    ensures var p, q := Exec(env, a, MAINTENANCE_DB, stmt), Exec(env, b, MAINTENANCE_DB, stmt);
      (p.Success? <==> q.Success?) && (p.Success? ==> Alike(name, p.value, q.value))
  {
  }

  lemma {:induction false} AlikeRun(env: Env, name: string, a: Cluster, b: Cluster, acts: seq<Act>)
    requires Alike(name, a, b) && name != MAINTENANCE_DB && forall act :: act in acts ==> Outside(name, act)
    ensures Run(env, acts, a).1 <==> Run(env, acts, b).1
    decreases |acts|
  {
    if acts != [] {
      assert acts[0] in acts;
      AlikeStep(env, name, a, b, acts[0]);
      AlikeRun(env, name, Step(env, a, acts[0]).0, Step(env, b, acts[0]).0, acts[1..]);
    }
  }

  // ----- The two plans

  /** Everything behind the database's options. */
  function Behind(name: string, cfg: Config): seq<Act> {
    CommentOn(name, cfg) + LateActs(name, cfg)
  }

  lemma PlanAround(name: string, cfg: Config)
    ensures Plan(name, cfg) == SharedActs(name, cfg) + TuneActs(name, cfg) + Behind(name, cfg)
  {
    PlanSplits(name, cfg);
    Around(RolePhase(cfg), [EnsureDatabase(name, ClauseOfDatabase(cfg), cfg.owner)], TuneActs(name, cfg),
           CommentOn(name, cfg), LateActs(name, cfg));
  }

  lemma Around<T>(a: seq<T>, b: seq<T>, c: seq<T>, d: seq<T>, e: seq<T>)
    ensures a + (b + c + d) + e == a + b + c + (d + e)
  {
  }

  lemma BehindOutside(name: string, cfg: Config, act: Act)
    requires !NeedsInside(cfg) && act in Behind(name, cfg)
    ensures Outside(name, act)
  {
    ExtensionActsOf(name, cfg.extensions, act);
    GrantActsOf(name, cfg.grants, act);
  }

  /** The same config with its database open. */
  function Opened(cfg: Config): Config {
    cfg.(allowConns := true)
  }

  lemma OpenedAlike(name: string, cfg: Config)
    ensures SharedActs(name, Opened(cfg)) == SharedActs(name, cfg) && Behind(name, Opened(cfg)) == Behind(name, cfg)
  {
    assert ClauseOfDatabase(Opened(cfg)) == ClauseOfDatabase(cfg);
  }

  ghost predicate TakesTuning(env: Env) {
    forall at, stmt: Stmt :: stmt.AlterDatabase? ==> env.refuses(at, stmt).None?
  }

  lemma TuneBoth(env: Env, name: string, cfg: Config, here: Cluster)
    requires TakesTuning(env) && !cfg.allowConns && name in here.dbs && Connectable(here, MAINTENANCE_DB)
    requires name != MAINTENANCE_DB
    ensures var (a, ok) := Run(env, TuneActs(name, cfg), here); var (b, also) := Run(env, TuneActs(name, Opened(cfg)), here);
      ok && also && Alike(name, a, b)
  {
    Converging.RunOne(Stepping(env), TuneActs(name, cfg)[0], here);
    if TuneActs(name, Opened(cfg)) != [] {
      Converging.RunOne(Stepping(env), TuneActs(name, Opened(cfg))[0], here);
    }
  }

  lemma EnsuredThere(env: Env, name: string, cfg: Config, st: Cluster)
    requires Run(env, SharedActs(name, cfg), st).1
    ensures var here := Run(env, SharedActs(name, cfg), st).0; name in here.dbs && Connectable(here, MAINTENANCE_DB)
  {
    var act := EnsureDatabase(name, ClauseOfDatabase(cfg), cfg.owner);
    RunSnoc(env, RolePhase(cfg), act, st);
    EnsuredNow(env, Run(env, RolePhase(cfg), st).0, act);
  }

  lemma EnsuredNow(env: Env, st: Cluster, act: Act)
    requires act.EnsureDatabase? && Step(env, st, act).1
    ensures act.name in Step(env, st, act).0.dbs && Connectable(Step(env, st, act).0, MAINTENANCE_DB)
  {
  }

  /**
   * What a config that closes its database needs, exactly: another name than that of the database everything is sent
   * through, nothing to do inside, and that it would converge with the database open.
   */
  lemma ClosedExactly(env: Env, name: string, cfg: Config, st: Cluster)
    requires Fair(env) && TakesTuning(env) && WellFormed(cfg) && !cfg.allowConns
    ensures Run(env, Plan(name, cfg), st).1 <==>
      name != MAINTENANCE_DB && !NeedsInside(cfg) && Run(env, Plan(name, Opened(cfg)), st).1
  {
    if name == MAINTENANCE_DB || NeedsInside(cfg) {
      ClosedNeverConverges(env, name, cfg, st);
    } else {
      InStep(env, name, cfg, st);
    }
  }

  lemma InStep(env: Env, name: string, cfg: Config, st: Cluster)
    requires TakesTuning(env) && !cfg.allowConns && name != MAINTENANCE_DB && !NeedsInside(cfg)
    ensures Run(env, Plan(name, cfg), st).1 <==> Run(env, Plan(name, Opened(cfg)), st).1
  {
    var first, last := SharedActs(name, cfg), Behind(name, cfg);
    var closed, open := TuneActs(name, cfg), TuneActs(name, Opened(cfg));
    PlanAround(name, cfg);
    PlanAround(name, Opened(cfg));
    OpenedAlike(name, cfg);
    RunAppend(env, first + closed, last, st);
    RunAppend(env, first, closed, st);
    RunAppend(env, first + open, last, st);
    RunAppend(env, first, open, st);
    var (here, ok) := Run(env, first, st);
    if ok {
      EnsuredThere(env, name, cfg, st);
      TuneBoth(env, name, cfg, here);
      forall act | act in last
        ensures Outside(name, act)
      {
        BehindOutside(name, cfg, act);
      }
      AlikeRun(env, name, Run(env, closed, here).0, Run(env, open, here).0, last);
    }
  }
}
