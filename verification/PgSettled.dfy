/** When optional extensions settle: a condition on the config alone, and what goes wrong without it. */
module PgSettled {
  import opened Strings
  import opened Sequences
  import opened PgConfig
  import opened PgCluster
  import opened PgPlan
  import opened PgInForce
  import opened PgPlanFacts
  import opened PgConfluence

  // ----- Configs that always settle

  /** What an optional extension may be waiting for. */
  function Awaits(env: Env, ext: Extension): set<string> {
    {RealName(ext.name)} + env.needs(RealName(ext.name))
  }

  /** What declaring an extension can bring: itself, what CASCADE pulls in, and the contents of its bundle. */
  function Brings(env: Env, ext: Extension): set<string> {
    {RealName(ext.name)}
    + (if ext.cascade then env.needs(RealName(ext.name)) else {})
    + (if ext.source != "" && env.bundles(ext.source).Some? then env.bundles(ext.source).value else {})
  }

  /** Every optional extension stands after everything that could bring it or what it needs. */
  predicate InDependencyOrder(env: Env, exts: seq<Extension>) {
    forall i, j :: 0 <= i < j < |exts| && exts[i].optional ==> Awaits(env, exts[i]) !! Brings(env, exts[j])
  }

  predicate IsGrant(act: Act) {
    act.Sql? && (act.stmt.GrantOnDatabase? || act.stmt.GrantOnSchema? || act.stmt.GrantOnAll? || act.stmt.DefaultPrivileges?)
  }

  /** An act that brings nothing the extension awaits. */
  predicate Unhelpful(env: Env, ext: Extension, act: Act) {
    match act
    case FetchBundle(other) => Awaits(env, ext) !! Brings(env, other) && other.source != ""
    case MakeExtension(_, other) => Awaits(env, ext) !! Brings(env, other)
    case _ => IsGrant(act)
  }

  /** CREATE EXTENSION cannot tell the two states apart. */
  lemma SameVerdict(env: Env, st: Cluster, st': Cluster, db: string, ext: Extension)
    requires db in st.dbs && db in st'.dbs
    requires st'.dbs[db].allowConns == st.dbs[db].allowConns && st'.dbs[db].schemas == st.dbs[db].schemas
    requires forall d :: d in Awaits(env, ext) ==> (d in st'.files <==> d in st.files)
    requires forall d :: d in Awaits(env, ext) ==> (d in st'.dbs[db].exts <==> d in st.dbs[db].exts)
    ensures Wanted(env, st', MakeExtension(db, ext)) <==> Wanted(env, st, MakeExtension(db, ext))
  {
    var stmt := MakeStmt(ext);
    assert RealName(ext.name) in Awaits(env, ext);
    assert forall d :: d in env.needs(stmt.name) ==> d in Awaits(env, ext);
    assert Creatable(env, st', st'.dbs[db], stmt) <==> Creatable(env, st, st.dbs[db], stmt);
  }

  lemma UnhelpfulMake(env: Env, st: Cluster, db: string, ext: Extension, at: string, other: Extension)
    requires db in st.dbs && !Wanted(env, st, MakeExtension(db, ext)) && Awaits(env, ext) !! Brings(env, other)
    ensures !Wanted(env, Step(env, st, MakeExtension(at, other)).0, MakeExtension(db, ext))
  {
    var st' := Step(env, st, MakeExtension(at, other)).0;
    if st' != st {
      var here, stmt := st.dbs[at], MakeStmt(other);
      SameDb(st, at);
      assert st' == WithDb(st, at, WithExtension(env, here, stmt));
      assert forall d :: d in Awaits(env, ext) ==> d !in Brings(env, other);
      SameVerdict(env, st, st', db, ext);
    }
  }

  lemma UnhelpfulStep(env: Env, st: Cluster, db: string, ext: Extension, act: Act)
    requires !Wanted(env, st, MakeExtension(db, ext)) && Unhelpful(env, ext, act)
    ensures !Wanted(env, Step(env, st, act).0, MakeExtension(db, ext))
  {
    if db in st.dbs {
      if act.MakeExtension? {
        UnhelpfulMake(env, st, db, ext, act.db, act.ext);
      } else if act.FetchBundle? {
        UnhelpfulFetch(env, st, db, ext, act.ext);
      } else {
        SameVerdict(env, st, Step(env, st, act).0, db, ext);
      }
    }
  }

  lemma UnhelpfulFetch(env: Env, st: Cluster, db: string, ext: Extension, other: Extension)
    requires db in st.dbs && !Wanted(env, st, MakeExtension(db, ext))
    requires Awaits(env, ext) !! Brings(env, other) && other.source != ""
    ensures !Wanted(env, Step(env, st, FetchBundle(other)).0, MakeExtension(db, ext))
  {
    assert forall d :: d in Awaits(env, ext) ==> d !in Brings(env, other);
    SameVerdict(env, st, Step(env, st, FetchBundle(other)).0, db, ext);
  }

  lemma {:induction false} ExtensionActsAt(env: Env, name: string, exts: seq<Extension>, i: nat, k: nat)
    requires i < k < |AllExtensionActs(name, exts)| && InDependencyOrder(env, exts)
    requires AllExtensionActs(name, exts)[i].MakeExtension? && AllExtensionActs(name, exts)[i].ext.optional
    ensures Unhelpful(env, AllExtensionActs(name, exts)[i].ext, AllExtensionActs(name, exts)[k])
  {
    var n := |exts| - 1;
    var front := AllExtensionActs(name, exts[..n]);
    if k < |front| {
      ExtensionActsAt(env, name, exts[..n], i, k);
    } else if i < |front| {
      ExtensionActsOf(name, exts[..n], front[i]);
      var ext :| ext in exts[..n] && front[i] == MakeExtension(name, ext);
      assert exists j :: 0 <= j < n && exts[j] == ext;
    }
  }

  lemma ThreeParts<T>(a: seq<T>, b: seq<T>, c: seq<T>, i: nat)
    requires i < |a + b + c|
    ensures i < |a| ==> (a + b + c)[i] in a
    ensures |a| <= i < |a| + |b| ==> (a + b + c)[i] == b[i - |a|]
    ensures |a| + |b| <= i ==> (a + b + c)[i] in c
  {
    if |a| + |b| <= i {
      assert (a + b + c)[i] == c[i - |a| - |b|];
    }
  }

  /** Optional extensions are made in the extension phase, nowhere else. */
  lemma GrantsOnly(name: string, grants: seq<Grant>, act: Act)
    requires act in AllGrantActs(name, grants)
    ensures IsGrant(act)
  {
    GrantActsOf(name, grants, act);
  }

  lemma NoMakesYet(name: string, cfg: Config, act: Act)
    requires act in EarlyActs(name, cfg) + SchemaActs(name, cfg.schemas)
    ensures !act.MakeExtension?
  {
    InEither(EarlyActs(name, cfg), SchemaActs(name, cfg.schemas), act);
    if act in EarlyActs(name, cfg) {
      EarlyActsOf(name, cfg, act);
    }
  }

  lemma PlanInThree(name: string, cfg: Config)
    ensures Plan(name, cfg) == EarlyActs(name, cfg) + SchemaActs(name, cfg.schemas)
                               + AllExtensionActs(name, cfg.extensions) + AllGrantActs(name, cfg.grants)
  {
    PlanSplits(name, cfg);
    AssociativeFour(EarlyActs(name, cfg), SchemaActs(name, cfg.schemas), AllExtensionActs(name, cfg.extensions),
                    AllGrantActs(name, cfg.grants));
  }

  /** Whatever follows an optional extension does not bring what it awaits. */
  predicate Orderly(env: Env, acts: seq<Act>) {
    forall i, k :: 0 <= i < k < |acts| && acts[i].MakeExtension? && acts[i].ext.optional ==> Unhelpful(env, acts[i].ext, acts[k])
  }

  lemma OrderlyBetween(env: Env, first: seq<Act>, exts: seq<Act>, grants: seq<Act>)
    requires Orderly(env, exts)
    requires forall act :: act in first ==> !act.MakeExtension?
    requires forall act :: act in grants ==> IsGrant(act)
    ensures Orderly(env, first + exts + grants)
  {
    var acts := first + exts + grants;
    forall i, k | 0 <= i < k < |acts| && acts[i].MakeExtension? && acts[i].ext.optional
      ensures Unhelpful(env, acts[i].ext, acts[k])
    {
      ThreeParts(first, exts, grants, i);
      ThreeParts(first, exts, grants, k);
    }
  }

  lemma ExtensionsOrderly(env: Env, name: string, exts: seq<Extension>)
    requires InDependencyOrder(env, exts)
    ensures Orderly(env, AllExtensionActs(name, exts))
  {
    var acts := AllExtensionActs(name, exts);
    forall i, k | 0 <= i < k < |acts| && acts[i].MakeExtension? && acts[i].ext.optional
      ensures Unhelpful(env, acts[i].ext, acts[k])
    {
      ExtensionActsAt(env, name, exts, i, k);
    }
  }

  lemma PlanOrderly(env: Env, name: string, cfg: Config)
    requires InDependencyOrder(env, cfg.extensions)
    ensures Orderly(env, Plan(name, cfg))
  {
    var first := EarlyActs(name, cfg) + SchemaActs(name, cfg.schemas);
    forall act | act in first
      ensures !act.MakeExtension?
    {
      NoMakesYet(name, cfg, act);
    }
    forall act | act in AllGrantActs(name, cfg.grants)
      ensures IsGrant(act)
    {
      GrantsOnly(name, cfg.grants, act);
    }
    ExtensionsOrderly(env, name, cfg.extensions);
    OrderlyBetween(env, first, AllExtensionActs(name, cfg.extensions), AllGrantActs(name, cfg.grants));
    PlanInThree(name, cfg);
  }

  lemma {:induction false} StaysUnwanted(env: Env, acts: seq<Act>, st: Cluster, i: nat, k: nat)
    requires i < k <= |acts| && Passed(env, acts, st, i + 1)
    requires acts[i].MakeExtension? && acts[i].ext.optional
    requires forall j :: i < j < |acts| ==> Unhelpful(env, acts[i].ext, acts[j])
    ensures !Wanted(env, StateAt(env, acts, st, k), acts[i])
  {
    StateStep(env, acts, st, k - 1);
    if k == i + 1 {
      PassedPrefix(env, acts, st, i, i + 1);
    } else {
      StaysUnwanted(env, acts, st, i, k - 1);
      if Passed(env, acts, st, k - 1) {
        UnhelpfulStep(env, StateAt(env, acts, st, k - 1), acts[i].db, acts[i].ext, acts[k - 1]);
      }
    }
  }

  /** A config whose optional extensions stand in dependency order settles from every state. */
  lemma DependencyOrderSettles(env: Env, name: string, cfg: Config, st: Cluster)
    requires InDependencyOrder(env, cfg.extensions)
    ensures Settled(env, Plan(name, cfg), st)
  {
    var acts := Plan(name, cfg);
    forall i, k | 0 <= i < k <= |acts| && Passed(env, acts, st, i + 1)
      ensures !Wanted(env, StateAt(env, acts, st, k), acts[i])
    {
      if acts[i].MakeExtension? && acts[i].ext.optional {
        PlanOrderly(env, name, cfg);
        StaysUnwanted(env, acts, st, i, k);
      }
    }
  }

  /** So such a config may crash anywhere and be converged again, from every starting state. */
  lemma DependencyOrderResumes(env: Env, name: string, cfg: Config, st: Cluster, k: nat)
    requires Fair(env) && WellFormed(cfg)
    requires InDependencyOrder(env, cfg.extensions) && k <= |Plan(name, cfg)|
    ensures Run(env, Plan(name, cfg), StateAt(env, Plan(name, cfg), st, k)) == Run(env, Plan(name, cfg), st)
  {
    DependencyOrderSettles(env, name, cfg, st);
    ConvergeResumes(env, name, cfg, st, k);
  }

  // ----- Without it

  /** A config that declares extensions and nothing else. */
  function JustExtensions(exts: seq<Extension>): Config {
    Config("", "", "", "", "", "", UNLIMITED_CONNECTIONS, false, true, "", "", DEFAULT_SHARED_BUFFERS,
           DEFAULT_MAX_CONNECTIONS, false, false, map[], [], [], exts, [])
  }

  function Optionally(name: string): Extension {
    ByName(name).(optional := true)
  }

  lemma PairPlan(name: string, a: string, b: string)
    ensures Plan(name, JustExtensions([Optionally(a), ByName(b)])) ==
      [EnsureDatabase(name, ClauseOfDatabase(JustExtensions([])), ""),
       MakeExtension(name, Optionally(a)), MakeExtension(name, ByName(b))]
  {
    var exts := [Optionally(a), ByName(b)];
    assert exts[..1] == [Optionally(a)] && exts[..1][..0] == [];
    assert AllExtensionActs(name, exts[..1]) == [MakeExtension(name, Optionally(a))];
  }

  lemma RunThree(env: Env, a: Act, b: Act, c: Act, st: Cluster)
    requires Step(env, st, a) == (st, true) && Step(env, st, b) == (st, true)
    ensures Run(env, [a, b, c], st) == Step(env, st, c)
  {
    RunSnoc(env, [], a, st);
    RunSnoc(env, [a], b, st);
    RunSnoc(env, [a, b], c, st);
    assert [] + [a] == [a] && [a] + [b] == [a, b] && [a, b] + [c] == [a, b, c];
  }

  /** b can be created, a cannot before it. */
  ghost predicate Trap(env: Env, name: string, st: Cluster, a: string, b: string) {
    && a != b && RealName(a) == a && RealName(b) == b
    && env.needs(a) == {b} && env.needs(b) == {}
    && (forall at, stmt :: env.refuses(at, stmt).None?)
    && Connectable(st, MAINTENANCE_DB) && Connectable(st, name)
    && {a, b} <= st.files && a !in st.dbs[name].exts && b !in st.dbs[name].exts
  }

  lemma TrapFirstRun(env: Env, name: string, st: Cluster, a: string, b: string)
    requires Trap(env, name, st, a, b)
    ensures var acts := Plan(name, JustExtensions([Optionally(a), ByName(b)]));
      Run(env, acts, st) == (WithDb(st, name, WithExtension(env, st.dbs[name], MakeStmt(ByName(b)))), true)
  {
    PairPlan(name, a, b);
    var acts := Plan(name, JustExtensions([Optionally(a), ByName(b)]));
    assert Step(env, st, acts[0]) == (st, true);
    assert !Creatable(env, st, st.dbs[name], MakeStmt(Optionally(a)));
    RunThree(env, acts[0], acts[1], acts[2], st);
  }

  lemma TrapSprings(env: Env, name: string, st: Cluster, a: string, b: string, first: Cluster)
    requires Trap(env, name, st, a, b)
    requires first == WithDb(st, name, WithExtension(env, st.dbs[name], MakeStmt(ByName(b))))
    ensures Wanted(env, first, MakeExtension(name, Optionally(a)))
    ensures first.dbs[name].exts.Keys == st.dbs[name].exts.Keys + {b}
  {
    assert Creatable(env, first, first.dbs[name], MakeStmt(Optionally(a)));
  }

  lemma TrapEnsured(env: Env, name: string, st: Cluster, b: string, first: Cluster)
    requires Connectable(st, MAINTENANCE_DB) && name in st.dbs
    requires first == WithDb(st, name, WithExtension(env, st.dbs[name], MakeStmt(ByName(b))))
    ensures InForce(env, EnsureDatabase(name, ClauseOfDatabase(JustExtensions([])), ""), first)
  {
  }

  lemma TrapSecondRun(env: Env, name: string, st: Cluster, a: string, b: string, first: Cluster)
    requires Trap(env, name, st, a, b)
    requires first == WithDb(st, name, WithExtension(env, st.dbs[name], MakeStmt(ByName(b))))
    ensures first.dbs[name].exts.Keys == st.dbs[name].exts.Keys + {b}
    ensures Run(env, Plan(name, JustExtensions([Optionally(a), ByName(b)])), first).0 != first
  {
    TrapSprings(env, name, st, a, b, first);
    TrapEnsured(env, name, st, b, first);
    PairPlan(name, a, b);
    PlanCoherent(name, JustExtensions([Optionally(a), ByName(b)]));
    WantedChanges(env, Plan(name, JustExtensions([Optionally(a), ByName(b)])), first, 1);
  }

  /**
   * Convergence is not idempotent in general: an optional extension declared before the one it needs is passed over
   * by the first run and created by the second.
   */
  lemma OptionalBeforeItsDependency(env: Env, name: string, st: Cluster, a: string, b: string)
    requires Trap(env, name, st, a, b)
    ensures var acts := Plan(name, JustExtensions([Optionally(a), ByName(b)])); var first := Run(env, acts, st);
      && first.1 && name in first.0.dbs && first.0.dbs[name].exts.Keys == st.dbs[name].exts.Keys + {b}
      && Run(env, acts, first.0).0 != first.0
  {
    TrapFirstRun(env, name, st, a, b);
    TrapSecondRun(env, name, st, a, b, WithDb(st, name, WithExtension(env, st.dbs[name], MakeStmt(ByName(b)))));
  }
}
