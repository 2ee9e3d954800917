/** Interleavings that exist: what several runs at once can come to, and what becomes of a race for the database. */
module PgDuel {
  import opened Strings
  import opened PgConfig
  import opened PgCluster
  import opened PgPlan
  import opened PgInForce
  import opened PgPlanFacts
  import opened PgRunner
  import opened PgRace
  import Converging
  import PgConfluence
  import PgRoleOrder

  /** One world can lead to the other. */
  ghost predicate Leads(env: Env, acts: seq<Act>, path: seq<World>, w: World, w': World) {
    && path != [] && path[0] == w && path[|path| - 1] == w'
    && forall k :: 0 <= k < |path| - 1 ==> Next(env, acts, path[k], path[k + 1])
  }

  ghost predicate Reaches(env: Env, acts: seq<Act>, w: World, w': World) {
    exists path :: Leads(env, acts, path, w, w')
  }

  lemma ReachesHere(env: Env, acts: seq<Act>, w: World)
    ensures Reaches(env, acts, w, w)
  {
    assert Leads(env, acts, [w], w, w);
  }

  lemma ReachesNext(env: Env, acts: seq<Act>, w: World, w': World)
    requires Next(env, acts, w, w')
    ensures Reaches(env, acts, w, w')
  {
    assert Leads(env, acts, [w, w'], w, w');
  }

  lemma ReachesThen(env: Env, acts: seq<Act>, a: World, b: World, c: World)
    requires Reaches(env, acts, a, b) && Reaches(env, acts, b, c)
    ensures Reaches(env, acts, a, c)
  {
    var p :| Leads(env, acts, p, a, b);
    var q :| Leads(env, acts, q, b, c);
    var path := p + q[1..];
    forall k | 0 <= k < |path| - 1
      ensures Next(env, acts, path[k], path[k + 1])
    {
      if k < |p| - 1 {
        assert path[k] == p[k] && path[k + 1] == p[k + 1];
      } else {
        assert path[k] == q[k - (|p| - 1)] && path[k + 1] == q[k - (|p| - 1) + 1];
      }
    }
    assert path[|path| - 1] == c;
    assert Leads(env, acts, path, a, c);
  }

  /** Run i alone does its next act, which passes. */
  lemma SoloRole(env: Env, acts: seq<Act>, w: World, i: nat)
    requires Underway(acts, w, i) && w.procs[i].point == StartOf(acts, w.procs[i].next)
    requires acts[w.procs[i].next].EnsureRole? && Step(env, w.st, acts[w.procs[i].next]).1
    ensures Reaches(env, acts, w, With(w, i, Ahead(acts, w.procs[i])).(st := Step(env, w.st, acts[w.procs[i].next]).0))
  {
    var p, role := w.procs[i], acts[w.procs[i].next].role;
    var found := role.name in w.st.roles;
    var asked := With(w, i, p.(point := if found then Altering(0) else Creating(0)));
    var reply := Exec(env, w.st, MAINTENANCE_DB, RoleStmt(w.st, role));
    var done := With(w, i, Ahead(acts, p)).(st := reply.value);
    assert Asks(env, acts, w, i, None, asked);
    ReachesNext(env, acts, w, asked);
    assert done.procs == asked.procs[i := Ahead(acts, p)];
    if found {
      assert Alters(env, acts, asked, i, reply, done);
    } else {
      assert Creates(env, acts, asked, i, reply, done);
    }
    ReachesNext(env, acts, asked, done);
    ReachesThen(env, acts, w, asked, done);
  }

  lemma SoloSend(env: Env, acts: seq<Act>, w: World, i: nat)
    requires Underway(acts, w, i) && w.procs[i].point == StartOf(acts, w.procs[i].next)
    requires acts[w.procs[i].next].Sql? && acts[w.procs[i].next].at == MAINTENANCE_DB
    requires Step(env, w.st, acts[w.procs[i].next]).1
    ensures Reaches(env, acts, w, With(w, i, Ahead(acts, w.procs[i])).(st := Step(env, w.st, acts[w.procs[i].next]).0))
  {
    var p := w.procs[i];
    var reply := Exec(env, w.st, MAINTENANCE_DB, acts[p.next].stmt);
    var done := With(w, i, Ahead(acts, p)).(st := reply.value);
    assert Sends(env, acts, w, i, reply, done);
    ReachesNext(env, acts, w, done);
  }

  lemma WithTwice(w: World, i: nat, p: Proc, q: Proc, a: Cluster, b: Cluster)
    requires i < |w.procs|
    ensures With(With(w, i, p).(st := a), i, q).(st := b) == With(w, i, q).(st := b)
  {
    assert w.procs[i := p][i := q] == w.procs[i := q];
  }

  lemma PhaseStep(env: Env, cfg: Config, n: nat, st: Cluster)
    requires n < |RolePhase(cfg)| && Run(env, RolePhase(cfg)[n..], st).1
    ensures Step(env, st, RolePhase(cfg)[n]).1
    ensures Run(env, RolePhase(cfg)[n..], st) == Run(env, RolePhase(cfg)[n + 1..], Step(env, st, RolePhase(cfg)[n]).0)
  {
    assert RolePhase(cfg)[n..] == [RolePhase(cfg)[n]] + RolePhase(cfg)[n + 1..];
    RunAppend(env, [RolePhase(cfg)[n]], RolePhase(cfg)[n + 1..], st);
    Converging.RunOne(Stepping(env), RolePhase(cfg)[n], st);
  }

  /** Run i alone does its next act of the role phase. */
  lemma SoloStep(env: Env, name: string, cfg: Config, w: World, i: nat)
    requires i < |w.procs| && w.procs[i].next < |RolePhase(cfg)|
    requires w.procs[i].point == StartOf(SharedActs(name, cfg), w.procs[i].next)
    requires Step(env, w.st, RolePhase(cfg)[w.procs[i].next]).1
    ensures Reaches(env, SharedActs(name, cfg), w,
      With(w, i, Ahead(SharedActs(name, cfg), w.procs[i])).(st := Step(env, w.st, RolePhase(cfg)[w.procs[i].next]).0))
  {
    var acts, n := SharedActs(name, cfg), w.procs[i].next;
    PhaseIn(name, cfg, n);
    RoleActsOf(cfg.roles, acts[n]);
    if acts[n].EnsureRole? {
      SoloRole(env, acts, w, i);
    } else {
      SoloSend(env, acts, w, i);
    }
  }

  /** Run i alone goes through the role phase, which passes. */
  lemma {:induction false} SoloPhase(env: Env, name: string, cfg: Config, w: World, i: nat)
    requires i < |w.procs| && w.procs[i].next <= |RolePhase(cfg)|
    requires w.procs[i].point == StartOf(SharedActs(name, cfg), w.procs[i].next)
    requires Run(env, RolePhase(cfg)[w.procs[i].next..], w.st).1
    ensures Reaches(env, SharedActs(name, cfg), w,
      With(w, i, Proc(|RolePhase(cfg)|, Asking)).(st := Run(env, RolePhase(cfg)[w.procs[i].next..], w.st).0))
    decreases |RolePhase(cfg)| - w.procs[i].next
  {
    var acts, n, p := SharedActs(name, cfg), |RolePhase(cfg)|, w.procs[i];
    if p.next == n {
      ReachesHere(env, acts, w);
      assert With(w, i, p) == w;
    } else {
      PhaseStep(env, cfg, p.next, w.st);
      SoloStep(env, name, cfg, w, i);
      var w' := With(w, i, Ahead(acts, p)).(st := Step(env, w.st, RolePhase(cfg)[p.next]).0);
      SoloPhase(env, name, cfg, w', i);
      var end := Run(env, RolePhase(cfg)[p.next..], w.st).0;
      WithTwice(w, i, Ahead(acts, p), Proc(n, Asking), w'.st, end);
      ReachesThen(env, acts, w, w', With(w', i, Proc(n, Asking)).(st := end));
    }
  }

  // ----- The race for the database

  /** Two runs both ask for the database before either creates it; the slower CREATE is the end of its run. */
  lemma Duel(env: Env, acts: seq<Act>, w: World, n: nat)
    requires n < |acts| && acts[n].EnsureDatabase? && |w.procs| >= 2
    requires w.procs[0] == Proc(n, Asking) && w.procs[1] == Proc(n, Asking)
    requires acts[n].name !in w.st.dbs
    requires Exec(env, w.st, MAINTENANCE_DB, CreateDatabase(acts[n].name, acts[n].create)).Success?
    ensures exists w' :: Reaches(env, acts, w, w') && |w'.procs| == |w.procs| && LostDatabase(acts, w'.procs[1])
  {
    var stmt := CreateDatabase(acts[n].name, acts[n].create);
    var made := Exec(env, w.st, MAINTENANCE_DB, stmt);
    var a := With(w, 0, Proc(n, Making));
    var b := With(a, 1, Proc(n, Making));
    var c := With(b, 0, Ahead(acts, b.procs[0])).(st := made.value);
    var late := Exec(env, c.st, MAINTENANCE_DB, stmt);
    var d := With(c, 1, c.procs[1].(point := Stopped(LostCause(acts[n].name))));
    assert Asks(env, acts, w, 0, None, a);
    assert Asks(env, acts, a, 1, None, b);
    assert Makes(env, acts, b, 0, made, c);
    assert late == Failure(AlreadyExists("database", acts[n].name));
    assert Makes(env, acts, c, 1, late, d);
    assert Leads(env, acts, [w, a, b, c, d], w, d);
  }

  /** A path from the start is a run. */
  lemma PathIsRun(env: Env, acts: seq<Act>, path: seq<World>, st: Cluster, n: nat, w: World)
    requires Leads(env, acts, path, StartWorld(acts, st, n), w)
    ensures IsRun(env, acts, path) && path[0] == StartWorld(acts, st, n) && path[|path| - 1] == w
  {
  }

  /** One run through its role phase leaves nothing to do for the next. */
  lemma PhaseSettled(env: Env, name: string, cfg: Config, st: Cluster, n: nat, w: World)
    requires Fair(env) && WellFormed(cfg)
    requires Reaches(env, SharedActs(name, cfg), StartWorld(SharedActs(name, cfg), st, n), w)
    requires w.procs != [] && w.procs[0].next == |RolePhase(cfg)|
    ensures Run(env, RolePhase(cfg), w.st) == (w.st, true)
  {
    var acts := SharedActs(name, cfg);
    var path :| Leads(env, acts, path, StartWorld(acts, st, n), w);
    PathIsRun(env, acts, path, st, n, w);
    SharedIsShared(name, cfg);
    RunKeepsInv(env, acts, path);
    assert ProcInv(env, acts, st, w.st, w.procs[0]);
    forall j | 0 <= j < |RolePhase(cfg)|
      ensures InForce(env, RolePhase(cfg)[j], w.st)
    {
      PhaseIn(name, cfg, j);
    }
    PgConfluence.WalkThrough(env, RolePhase(cfg), w.st);
  }

  /** Two runs, one after the other, get as far as the database. */
  lemma TwoThroughPhase(env: Env, name: string, cfg: Config, st: Cluster, n: nat) returns (w: World)
    requires Fair(env) && WellFormed(cfg) && n >= 2 && Run(env, RolePhase(cfg), st).1
    ensures Reaches(env, SharedActs(name, cfg), StartWorld(SharedActs(name, cfg), st, n), w)
    ensures |w.procs| == n && w.st == Run(env, RolePhase(cfg), st).0
    ensures w.procs[0] == Proc(|RolePhase(cfg)|, Asking) && w.procs[1] == Proc(|RolePhase(cfg)|, Asking)
  {
    var acts, phase := SharedActs(name, cfg), RolePhase(cfg);
    var start := StartWorld(acts, st, n);
    assert phase[0..] == phase;
    SoloPhase(env, name, cfg, start, 0);
    var first := With(start, 0, Proc(|phase|, Asking)).(st := Run(env, phase, st).0);
    PhaseSettled(env, name, cfg, st, n, first);
    SoloPhase(env, name, cfg, first, 1);
    w := With(first, 1, Proc(|phase|, Asking)).(st := first.st);
    ReachesThen(env, acts, start, first, w);
  }

  /** This interleaving of n runs of the config, all starting from st, stops run i over the database. */
  ghost predicate Loses(env: Env, name: string, cfg: Config, st: Cluster, n: nat, run: seq<World>, i: nat) {
    && IsRun(env, SharedActs(name, cfg), run) && run[0] == StartWorld(SharedActs(name, cfg), st, n)
    && i < |run[|run| - 1].procs| && LostDatabase(SharedActs(name, cfg), run[|run| - 1].procs[i])
  }

  ghost predicate CanLose(env: Env, name: string, cfg: Config, st: Cluster, n: nat) {
    exists run, i :: Loses(env, name, cfg, st, n, run, i)
  }

  lemma CreateAccepted(env: Env, name: string, cfg: Config, here: Cluster)
    requires Step(env, here, EnsureDatabase(name, ClauseOfDatabase(cfg), cfg.owner)).1 && name !in here.dbs
    ensures Exec(env, here, MAINTENANCE_DB, CreateDatabase(name, ClauseOfDatabase(cfg))).Success?
  {
  }

  lemma LosesIfMissing(env: Env, name: string, cfg: Config, st: Cluster, n: nat)
    requires Fair(env) && WellFormed(cfg) && n >= 2 && PgRoleOrder.Acyclic(st.members)
    requires Run(env, SharedActs(name, cfg), st).1 && name !in st.dbs
    ensures CanLose(env, name, cfg, st, n)
  {
    var acts, phase := SharedActs(name, cfg), RolePhase(cfg);
    var act := EnsureDatabase(name, ClauseOfDatabase(cfg), cfg.owner);
    RunSnoc(env, phase, act, st);
    PhaseLeaves(env, name, cfg, st);
    var w := TwoThroughPhase(env, name, cfg, st, n);
    assert acts[|phase|] == act;
    CreateAccepted(env, name, cfg, w.st);
    Duel(env, acts, w, |phase|);
    var w' :| Reaches(env, acts, w, w') && |w'.procs| == |w.procs| && LostDatabase(acts, w'.procs[1]);
    ReachesThen(env, acts, StartWorld(acts, st, n), w, w');
    var path :| Leads(env, acts, path, StartWorld(acts, st, n), w');
    PathIsRun(env, acts, path, st, n, w');
    assert Loses(env, name, cfg, st, n, path, 1);
  }

  lemma LoserFoundNone(env: Env, name: string, cfg: Config, st: Cluster, n: nat, run: seq<World>, i: nat)
    requires Fair(env) && WellFormed(cfg) && PgRoleOrder.Acyclic(st.members)
    requires Run(env, SharedActs(name, cfg), st).1 && Loses(env, name, cfg, st, n, run, i)
    ensures name !in st.dbs
  {
    var p := run[|run| - 1].procs[i];
    SharedDatabase(name, cfg, SharedActs(name, cfg)[p.next]);
    ExistsRecognised("database", name);
    assert FromServer(LostCause(name));
    NobodyLosesTheRace(env, name, cfg, run, i);
  }

  /**
   * The database has no fallback: where a single run would pass, some interleaving of two or more is stopped by the
   * server over the database, one run having created it between another's question and its CREATE, exactly when the
   * database was not there at the start.
   */
  lemma DatabaseRaceExactly(env: Env, name: string, cfg: Config, st: Cluster, n: nat)
    requires Fair(env) && WellFormed(cfg) && n >= 2 && PgRoleOrder.Acyclic(st.members)
    requires Run(env, SharedActs(name, cfg), st).1
    ensures CanLose(env, name, cfg, st, n) <==> name !in st.dbs
  {
    if name !in st.dbs {
      LosesIfMissing(env, name, cfg, st, n);
    } else if CanLose(env, name, cfg, st, n) {
      var run, i :| Loses(env, name, cfg, st, n, run, i);
      LoserFoundNone(env, name, cfg, st, n, run, i);
    }
  }
}
