/** When a second convergence changes nothing, told from the config and the state the first one starts from. */
module PgIdempotent {
  import opened Strings
  import opened Sequences
  import opened PgConfig
  import opened PgCluster
  import opened PgPlan
  import opened PgInForce
  import opened PgPlanFacts
  import opened PgConfluence
  import opened PgTarget
  import opened PgSettled
  import opened PgStorm
  import opened PgThinned
  import opened PgFrame
  import Converging

  // ----- Extensions without the rest of the cluster

  /** All that CREATE EXTENSION looks at: is the database open, what schemas and extensions has it, what the toolchain. */
  datatype Shelf = Shelf(open: bool, schemas: set<string>, files: set<string>, exts: set<string>)

  function ShelfAt(st: Cluster, name: string): Shelf
    requires name in st.dbs
  {
    Shelf(st.dbs[name].allowConns, st.dbs[name].schemas.Keys, st.files, st.dbs[name].exts.Keys)
  }

  function Fetched(env: Env, ext: Extension, shelf: Shelf): Shelf {
    if ext.source != "" && RealName(ext.name) !in shelf.files && env.bundles(ext.source).Some? then
      shelf.(files := shelf.files + env.bundles(ext.source).value)
    else shelf
  }

  /** CREATE EXTENSION would do something. */
  predicate Fits(env: Env, name: string, ext: Extension, shelf: Shelf) {
    && shelf.open && env.refuses(name, MakeStmt(ext)).None?
    && RealName(ext.name) in shelf.files && RealName(ext.name) !in shelf.exts
    && (ext.schema == "" || ext.schema in shelf.schemas)
    && forall d :: d in env.needs(RealName(ext.name)) ==> d in shelf.exts || (ext.cascade && d in shelf.files)
  }

  function Made(env: Env, name: string, ext: Extension, shelf: Shelf): Shelf {
    if Fits(env, name, ext, shelf) then
      shelf.(exts := shelf.exts + env.needs(RealName(ext.name)) + {RealName(ext.name)})
    else shelf
  }

  function Put(env: Env, name: string, ext: Extension, shelf: Shelf): Shelf {
    Made(env, name, ext, Fetched(env, ext, shelf))
  }

  /** The extensions one after another. */
  function PutAll(env: Env, name: string, exts: seq<Extension>, shelf: Shelf): (after: Shelf)
    ensures after.open == shelf.open && shelf.exts <= after.exts
  {
    if exts == [] then shelf
    else
      var n := |exts| - 1;
      Put(env, name, exts[n], PutAll(env, name, exts[..n], shelf))
  }

  lemma FetchPuts(env: Env, name: string, ext: Extension, st: Cluster)
    requires name in st.dbs && ext.source != ""
    ensures var after := Step(env, st, FetchBundle(ext)).0;
      after.dbs == st.dbs && ShelfAt(after, name) == Fetched(env, ext, ShelfAt(st, name))
  {
  }

  lemma MakePuts(env: Env, name: string, ext: Extension, st: Cluster)
    requires name in st.dbs
    ensures var after := Step(env, st, MakeExtension(name, ext)).0;
      name in after.dbs && ShelfAt(after, name) == Made(env, name, ext, ShelfAt(st, name))
  {
    var db, stmt := st.dbs[name], MakeStmt(ext);
    assert Creatable(env, st, db, stmt) && RealName(ext.name) !in db.exts ==>
      WithExtension(env, db, stmt).exts.Keys == db.exts.Keys + env.needs(RealName(ext.name)) + {RealName(ext.name)};
  }

  lemma OnePuts(env: Env, name: string, ext: Extension, st: Cluster)
    requires name in st.dbs && Run(env, ExtensionActs(name, ext), st).1
    ensures var after := Run(env, ExtensionActs(name, ext), st).0;
      name in after.dbs && ShelfAt(after, name) == Put(env, name, ext, ShelfAt(st, name))
  {
    var fetch := if ext.source == "" then [] else [FetchBundle(ext)];
    RunSnoc(env, fetch, MakeExtension(name, ext), st);
    var here := Run(env, fetch, st).0;
    if ext.source != "" {
      Converging.RunOne(Stepping(env), FetchBundle(ext), st);
      FetchPuts(env, name, ext, st);
    }
    MakePuts(env, name, ext, here);
  }

  /** The extension phase, as far as extensions can tell. */
  lemma {:induction false} AllPut(env: Env, name: string, exts: seq<Extension>, st: Cluster)
    requires name in st.dbs && Run(env, AllExtensionActs(name, exts), st).1
    ensures var after := Run(env, AllExtensionActs(name, exts), st).0;
      name in after.dbs && ShelfAt(after, name) == PutAll(env, name, exts, ShelfAt(st, name))
  {
    if exts != [] {
      var n := |exts| - 1;
      RunAppend(env, AllExtensionActs(name, exts[..n]), ExtensionActs(name, exts[n]), st);
      AllPut(env, name, exts[..n], st);
      OnePuts(env, name, exts[n], Run(env, AllExtensionActs(name, exts[..n]), st).0);
    }
  }

  lemma WantedFits(env: Env, name: string, ext: Extension, st: Cluster)
    requires name in st.dbs
    ensures Wanted(env, st, MakeExtension(name, ext)) <==> ext.optional && Fits(env, name, ext, ShelfAt(st, name))
  {
    assert Creatable(env, st, st.dbs[name], MakeStmt(ext)) <==>
      && RealName(ext.name) in st.files
      && (ext.schema == "" || ext.schema in st.dbs[name].schemas)
      && forall d :: d in env.needs(RealName(ext.name)) ==> d in st.dbs[name].exts || (ext.cascade && d in st.files);
  }

  // ----- What the extension phase meets

  function SchemaNames(schemas: seq<Schema>): set<string> {
    set s | s in schemas :: s.name
  }

  /** The database as it is found, or the template it will be copied from. */
  function Origin(name: string, cfg: Config, st: Cluster): Option<Db> {
    if name in st.dbs then Some(st.dbs[name])
    else if TemplateFor(cfg) in st.dbs then Some(st.dbs[TemplateFor(cfg)])
    else None
  }

  /** What the extension phase will find. */
  function Found(name: string, cfg: Config, st: Cluster): Shelf
    requires Origin(name, cfg, st).Some?
  {
    var db := Origin(name, cfg, st).value;
    Shelf((name in st.dbs ==> db.allowConns) && cfg.allowConns, db.schemas.Keys + SchemaNames(cfg.schemas), st.files,
          db.exts.Keys)
  }

  predicate FromRoles(cfg: Config, act: Act) {
    exists role :: role in cfg.roles && OfRole(role, act)
  }

  lemma {:induction false} RolesLeave(env: Env, cfg: Config, acts: seq<Act>, st: Cluster)
    requires forall act :: act in acts ==> FromRoles(cfg, act)
    ensures Run(env, acts, st).0.dbs == st.dbs && Run(env, acts, st).0.files == st.files
    decreases |acts|
  {
    if acts != [] {
      assert FromRoles(cfg, acts[0]);
      var next := Step(env, st, acts[0]);
      assert next.0.dbs == st.dbs && next.0.files == st.files;
      if next.1 {
        RolesLeave(env, cfg, acts[1..], next.0);
      }
    }
  }

  lemma EnsureFinds(env: Env, name: string, cfg: Config, st: Cluster)
    requires Step(env, st, EnsureDatabase(name, ClauseOfDatabase(cfg), cfg.owner)).1
    ensures var after := Step(env, st, EnsureDatabase(name, ClauseOfDatabase(cfg), cfg.owner)).0;
      && Origin(name, cfg, st).Some? && name in after.dbs
      && var db := Origin(name, cfg, st).value;
         ShelfAt(after, name) == Shelf(name in st.dbs ==> db.allowConns, db.schemas.Keys, st.files, db.exts.Keys)
  {
  }

  lemma TuneFinds(env: Env, name: string, cfg: Config, st: Cluster)
    requires name in st.dbs && Run(env, TuneActs(name, cfg), st).1
    ensures var after := Run(env, TuneActs(name, cfg), st).0;
      && name in after.dbs
      && ShelfAt(after, name) == ShelfAt(st, name).(open := st.dbs[name].allowConns && cfg.allowConns)
  {
    if TuneActs(name, cfg) != [] {
      Converging.RunOne(Stepping(env), TuneActs(name, cfg)[0], st);
    }
  }

  lemma CommentFinds(env: Env, name: string, cfg: Config, st: Cluster)
    requires name in st.dbs && Run(env, CommentOn(name, cfg), st).1
    ensures var after := Run(env, CommentOn(name, cfg), st).0;
      name in after.dbs && ShelfAt(after, name) == ShelfAt(st, name)
  {
    if cfg.comment != "" {
      Converging.RunOne(Stepping(env), CommentOn(name, cfg)[0], st);
    }
  }

  lemma SchemaFinds(env: Env, name: string, schema: Schema, st: Cluster)
    requires name in st.dbs && Step(env, st, Sql(name, CreateSchema(schema.name, schema.owner))).1
    ensures var after := Step(env, st, Sql(name, CreateSchema(schema.name, schema.owner))).0;
      && name in after.dbs
      && ShelfAt(after, name) == ShelfAt(st, name).(schemas := st.dbs[name].schemas.Keys + {schema.name})
  {
  }

  lemma {:induction false} SchemasFind(env: Env, name: string, schemas: seq<Schema>, st: Cluster)
    requires name in st.dbs && Run(env, SchemaActs(name, schemas), st).1
    ensures var after := Run(env, SchemaActs(name, schemas), st).0;
      && name in after.dbs
      && ShelfAt(after, name) == ShelfAt(st, name).(schemas := st.dbs[name].schemas.Keys + SchemaNames(schemas))
  {
    if schemas != [] {
      var n := |schemas| - 1;
      var act := Sql(name, CreateSchema(schemas[n].name, schemas[n].owner));
      assert SchemaActs(name, schemas) == SchemaActs(name, schemas[..n]) + [act];
      RunSnoc(env, SchemaActs(name, schemas[..n]), act, st);
      SchemasFind(env, name, schemas[..n], st);
      SchemaFinds(env, name, schemas[n], Run(env, SchemaActs(name, schemas[..n]), st).0);
      assert forall s :: s in schemas <==> s in schemas[..n] || s == schemas[n];
      assert SchemaNames(schemas) == SchemaNames(schemas[..n]) + {schemas[n].name};
    }
  }

  lemma {:induction false} GrantsLeave(env: Env, name: string, acts: seq<Act>, st: Cluster)
    requires name in st.dbs
    requires forall act :: act in acts ==> IsGrant(act)
    ensures name in Run(env, acts, st).0.dbs && ShelfAt(Run(env, acts, st).0, name) == ShelfAt(st, name)
    decreases |acts|
  {
    if acts != [] {
      assert acts[0] in acts;
      var next := Step(env, st, acts[0]);
      assert name in next.0.dbs && ShelfAt(next.0, name) == ShelfAt(st, name);
      if next.1 {
        GrantsLeave(env, name, acts[1..], next.0);
      }
    }
  }

  lemma RolePhaseLeaves(env: Env, cfg: Config, st: Cluster)
    ensures Run(env, RolePhase(cfg), st).0.dbs == st.dbs && Run(env, RolePhase(cfg), st).0.files == st.files
  {
    forall act | act in RolePhase(cfg)
      ensures FromRoles(cfg, act)
    {
      RoleActsOf(cfg.roles, act);
    }
    RolesLeave(env, cfg, RolePhase(cfg), st);
  }

  lemma DatabaseFinds(env: Env, name: string, cfg: Config, st: Cluster)
    requires Run(env, DatabaseActs(name, cfg), st).1
    ensures var after := Run(env, DatabaseActs(name, cfg), st).0;
      && Origin(name, cfg, st).Some? && name in after.dbs
      && ShelfAt(after, name).(schemas := ShelfAt(after, name).schemas + SchemaNames(cfg.schemas)) == Found(name, cfg, st)
  {
    var ensure := EnsureDatabase(name, ClauseOfDatabase(cfg), cfg.owner);
    RunAppend(env, [ensure] + TuneActs(name, cfg), CommentOn(name, cfg), st);
    RunAppend(env, [ensure], TuneActs(name, cfg), st);
    Converging.RunOne(Stepping(env), ensure, st);
    EnsureFinds(env, name, cfg, st);
    var made := Step(env, st, ensure).0;
    TuneFinds(env, name, cfg, made);
    CommentFinds(env, name, cfg, Run(env, TuneActs(name, cfg), made).0);
  }

  lemma PhaseFinds(env: Env, name: string, cfg: Config, st: Cluster)
    requires Run(env, BeforeExtensions(name, cfg), st).1
    ensures var here := Run(env, BeforeExtensions(name, cfg), st).0;
      Origin(name, cfg, st).Some? && name in here.dbs && ShelfAt(here, name) == Found(name, cfg, st)
  {
    RunAppend(env, EarlyActs(name, cfg), SchemaActs(name, cfg.schemas), st);
    RunAppend(env, RolePhase(cfg), DatabaseActs(name, cfg), st);
    RolePhaseLeaves(env, cfg, st);
    var a := Run(env, RolePhase(cfg), st).0;
    DatabaseFinds(env, name, cfg, a);
    SchemasFind(env, name, cfg.schemas, Run(env, DatabaseActs(name, cfg), a).0);
  }

  /** What extensions can tell of where a successful convergence ends. */
  lemma ConvergeEnds(env: Env, name: string, cfg: Config, st: Cluster)
    requires Run(env, Plan(name, cfg), st).1
    ensures var final := Run(env, Plan(name, cfg), st).0;
      && Origin(name, cfg, st).Some? && name in final.dbs
      && ShelfAt(final, name) == PutAll(env, name, cfg.extensions, Found(name, cfg, st))
  {
    var first, exts, grants :=
      BeforeExtensions(name, cfg), AllExtensionActs(name, cfg.extensions), AllGrantActs(name, cfg.grants);
    PlanInThree(name, cfg);
    RunAppend(env, first + exts, grants, st);
    RunAppend(env, first, exts, st);
    PhaseFinds(env, name, cfg, st);
    AllPut(env, name, cfg.extensions, Run(env, first, st).0);
    forall act | act in grants
      ensures IsGrant(act)
    {
      GrantsOnly(name, cfg.grants, act);
    }
    GrantsLeave(env, name, grants, Run(env, first + exts, st).0);
  }

  lemma MakesDeclared(name: string, cfg: Config, act: Act)
    requires act in Plan(name, cfg) && act.MakeExtension?
    ensures act.db == name && act.ext in cfg.extensions
  {
    PlanHas(name, cfg, act);
    if Early(name, cfg, act) {
      EarlyMakesNothing(name, cfg, act);
    }
  }

  lemma EarlyMakesNothing(name: string, cfg: Config, act: Act)
    requires Early(name, cfg, act)
    ensures !act.MakeExtension?
  {
    assert act in TuneActs(name, cfg) ==> act.Sql?;
  }

  lemma DeclaredIsMade(name: string, cfg: Config, ext: Extension)
    requires ext in cfg.extensions
    ensures MakeExtension(name, ext) in Plan(name, cfg)
  {
    ExtensionsHave(name, cfg.extensions, ext);
    InPlan(name, cfg, MakeExtension(name, ext));
  }

  ghost predicate NoneWanted(env: Env, acts: seq<Act>, st: Cluster) {
    forall act :: act in acts ==> !Wanted(env, st, act)
  }

  /** No optional extension fits. */
  predicate NoneFits(env: Env, name: string, exts: seq<Extension>, shelf: Shelf) {
    forall ext :: ext in exts && ext.optional ==> !Fits(env, name, ext, shelf)
  }

  lemma WantedOrFits(env: Env, name: string, cfg: Config, st: Cluster)
    requires name in st.dbs
    ensures NoneWanted(env, Plan(name, cfg), st) <==> NoneFits(env, name, cfg.extensions, ShelfAt(st, name))
  {
    if act :| act in Plan(name, cfg) && Wanted(env, st, act) {
      MakesDeclared(name, cfg, act);
      WantedFits(env, name, act.ext, st);
    }
    if ext :| ext in cfg.extensions && ext.optional && Fits(env, name, ext, ShelfAt(st, name)) {
      DeclaredIsMade(name, cfg, ext);
      WantedFits(env, name, ext, st);
    }
  }

  /**
   * The exact condition of idempotence, on the config and the state the first run starts from: a successful
   * convergence can be repeated without effect if and only if, once the extensions have been put in one after
   * another, no optional one that is still missing would fit.
   */
  lemma IdempotentFromStart(env: Env, name: string, cfg: Config, st: Cluster)
    requires Fair(env) && WellFormed(cfg) && Run(env, Plan(name, cfg), st).1
    ensures Origin(name, cfg, st).Some?
    ensures var final := Run(env, Plan(name, cfg), st).0;
      var end := PutAll(env, name, cfg.extensions, Found(name, cfg, st));
      Run(env, Plan(name, cfg), final) == (final, true) <==>
      NoneFits(env, name, cfg.extensions, end)
  {
    ConvergeEnds(env, name, cfg, st);
    IdempotentExactly(env, name, cfg, st);
    WantedOrFits(env, name, cfg, Run(env, Plan(name, cfg), st).0);
  }

  // ----- A fault that lasts

  function From(name: string, source: string): Extension {
    Optionally(name).(source := source)
  }

  /** Three extensions no one has: the first one's bundle brings the second as well, the second one's the third. */
  ghost predicate Fickle(env: Env, name: string, st: Cluster, a: string, b: string, c: string, p: string, q: string) {
    && a != b && b != c && a != c && RealName(a) == a && RealName(b) == b && RealName(c) == c
    && env.needs(a) == {} && env.needs(b) == {} && env.needs(c) == {}
    && p != "" && q != "" && env.bundles(p) == Some({a, b}) && env.bundles(q) == Some({b, c})
    && (forall at, stmt :: env.refuses(at, stmt).None?)
    && Connectable(st, MAINTENANCE_DB) && Connectable(st, name)
    && {a, b, c} !! st.files && {a, b, c} !! st.dbs[name].exts.Keys
  }

  /** A config of optional extensions and nothing else converges. */
  lemma OptionalsConverge(env: Env, name: string, exts: seq<Extension>, st: Cluster)
    requires (forall at, stmt :: env.refuses(at, stmt).None?) && (forall ext :: ext in exts ==> ext.optional)
    requires Connectable(st, MAINTENANCE_DB) && Connectable(st, name)
    ensures var (after, ok) := Run(env, Plan(name, JustExtensions(exts)), st);
      && ok && name in after.dbs && Connectable(after, MAINTENANCE_DB) && Connectable(after, name)
      && ShelfAt(after, name) == PutAll(env, name, exts, ShelfAt(st, name))
  {
    var cfg := JustExtensions(exts);
    var ensure := EnsureDatabase(name, ClauseOfDatabase(cfg), "");
    assert Plan(name, cfg) == [ensure] + AllExtensionActs(name, exts);
    Converging.RunOne(Stepping(env), ensure, st);
    RunAppend(env, [ensure], AllExtensionActs(name, exts), st);
    OnlyRequiredStops(env, name, exts, st);
    RunOnlyDeclared(env, name, cfg, st, Plan(name, cfg));
    AllPut(env, name, exts, st);
  }

  lemma PutTwo(env: Env, name: string, x: Extension, y: Extension, shelf: Shelf)
    ensures PutAll(env, name, [x, y], shelf) == Put(env, name, y, Put(env, name, x, shelf))
  {
    assert [x, y][..1] == [x] && [x][..0] == [];
    assert PutAll(env, name, [x], shelf) == Put(env, name, x, shelf);
  }

  /** With the first bundle in place the second is not fetched, and the third extension stays out. */
  lemma ThirdStaysOut(env: Env, name: string, shelf: Shelf, a: string, b: string, c: string, p: string, q: string)
    requires a != b && b != c && a != c && RealName(a) == a && RealName(b) == b && RealName(c) == c
    requires env.needs(a) == {} && env.needs(b) == {} && p != "" && env.bundles(p) == Some({a, b})
    requires (forall at, stmt :: env.refuses(at, stmt).None?) && shelf.open
    requires {a, b, c} !! shelf.files && {a, b, c} !! shelf.exts
    ensures c !in PutAll(env, name, [From(a, p), From(b, q), Optionally(c)], shelf).exts
  {
    var x, y, z := From(a, p), From(b, q), Optionally(c);
    PutTwo(env, name, x, y, shelf);
    var first := Put(env, name, x, shelf);
    assert first.files == shelf.files + {a, b} && c !in first.exts;
    var second := Put(env, name, y, first);
    assert second.files == first.files && c !in second.exts;
    assert [x, y, z][..2] == [x, y];
  }

  /** Without the first extension the second one's bundle is fetched, and the third comes with it. */
  lemma ThirdComesIn(env: Env, name: string, shelf: Shelf, b: string, c: string, q: string)
    requires b != c && RealName(b) == b && RealName(c) == c
    requires env.needs(b) == {} && env.needs(c) == {} && q != "" && env.bundles(q) == Some({b, c})
    requires (forall at, stmt :: env.refuses(at, stmt).None?) && shelf.open
    requires {b, c} !! shelf.files && {b, c} !! shelf.exts
    ensures c in PutAll(env, name, [From(b, q), Optionally(c)], shelf).exts
  {
    PutTwo(env, name, From(b, q), Optionally(c), shelf);
    var first := Put(env, name, From(b, q), shelf);
    assert first.files == shelf.files + {b, c} && c !in first.exts;
  }

  lemma FickleInOrder(env: Env, name: string, st: Cluster, a: string, b: string, c: string, p: string, q: string)
    requires Fickle(env, name, st, a, b, c, p, q)
    ensures InDependencyOrder(env, [From(a, p), From(b, q), Optionally(c)])
  {
    assert Awaits(env, From(a, p)) == {a} && Awaits(env, From(b, q)) == {b};
    assert Brings(env, From(b, q)) == {b, c} && Brings(env, Optionally(c)) == {c};
  }

  /** A run of the three in which the bundle of the first could not be fetched: it is a run of the other two. */
  lemma FirstPassedOver(env: Env, name: string, st: Cluster, x: Extension, rest: seq<Extension>)
    requires x.optional && x.source != "" && RealName(x.name) !in st.files
    requires (forall at, stmt :: env.refuses(at, stmt).None?) && (forall ext :: ext in rest ==> ext.optional)
    requires Connectable(st, MAINTENANCE_DB) && Connectable(st, name)
    ensures var acts := Plan(name, JustExtensions([x] + rest));
      && |acts| > 1 && acts[1] == FetchBundle(x) && Thinned(acts, [acts[0]] + acts[2..])
      && Run(env, [acts[0]] + acts[2..], st) == Run(env, Plan(name, JustExtensions(rest)), st)
  {
    JustExtensionActs(name, rest);
    JustExtensionActs(name, [x] + rest);
    FirstOfExtensions(name, x, rest);
    var ensure := EnsureDatabase(name, ClauseOfDatabase(JustExtensions([])), "");
    SkipSecond(env, ensure, FetchBundle(x), MakeExtension(name, x), AllExtensionActs(name, rest), st);
  }

  lemma FirstOfExtensions(name: string, x: Extension, rest: seq<Extension>)
    requires x.source != ""
    ensures AllExtensionActs(name, [x] + rest) ==
      [FetchBundle(x)] + ([MakeExtension(name, x)] + AllExtensionActs(name, rest))
  {
    FirstExtension(name, [x] + rest);
    assert ([x] + rest)[1..] == rest;
    assert ExtensionActs(name, x) == [FetchBundle(x)] + [MakeExtension(name, x)];
    Associative([FetchBundle(x)], [MakeExtension(name, x)], AllExtensionActs(name, rest));
  }

  /** A second act that is passed over, and a third that then changes nothing. */
  lemma SkipSecond(env: Env, first: Act, second: Act, third: Act, rest: seq<Act>, st: Cluster)
    requires Passable(second) && Step(env, st, first) == (st, true) && Step(env, st, third) == (st, true)
    ensures var acts := [first] + ([second] + ([third] + rest));
      && acts[1] == second && Thinned(acts, [acts[0]] + acts[2..])
      && Run(env, [acts[0]] + acts[2..], st) == Run(env, [first] + rest, st)
  {
    var acts, kept := [first] + ([second] + ([third] + rest)), [first] + ([third] + rest);
    assert [acts[0]] + acts[2..] == kept && acts[1..] == [second] + ([third] + rest) && acts[1..][1..] == kept[1..];
    ThinnedSelf(kept[1..]);
    SkippedInVain(env, first, third, rest, st);
  }

  lemma JustExtensionActs(name: string, exts: seq<Extension>)
    ensures var ensure := EnsureDatabase(name, ClauseOfDatabase(JustExtensions([])), "");
      Plan(name, JustExtensions(exts)) == [ensure] + AllExtensionActs(name, exts)
  {
    var cfg := JustExtensions(exts);
    assert RolePhase(cfg) == [] && AfterRoles(name, cfg) == DatabaseActs(name, cfg) + AllExtensionActs(name, exts);
    assert TuneActs(name, cfg) == [];
  }

  /** An act that changes nothing, between another one and the rest. */
  lemma SkippedInVain(env: Env, first: Act, act: Act, rest: seq<Act>, st: Cluster)
    requires Step(env, st, first) == (st, true) && Step(env, st, act) == (st, true)
    ensures Run(env, [first] + ([act] + rest), st) == Run(env, [first] + rest, st)
  {
    Converging.RunOne(Stepping(env), first, st);
    Converging.RunOne(Stepping(env), act, st);
    RunAppend(env, [first], [act] + rest, st);
    RunAppend(env, [act], rest, st);
    RunAppend(env, [first], rest, st);
  }

  /**
   * The weather of one run can outlast it, even in dependency order: where a fault makes the bundle of the first
   * extension be passed over, the second has to fetch its own, and the third finds itself in that. The next calm run
   * ends with an extension more than a single calm run would have. The config is not sturdy, of course.
   */
  lemma FaultLasts(env: Env, name: string, st: Cluster, a: string, b: string, c: string, p: string, q: string)
    requires Fickle(env, name, st, a, b, c, p, q)
    ensures var all := [From(a, p), From(b, q), Optionally(c)];
      var acts := Plan(name, JustExtensions(all));
      && |acts| > 1 && acts[1] == FetchBundle(From(a, p)) && Thinned(acts, [acts[0]] + acts[2..])
      && InDependencyOrder(env, all) && !Sturdy(env, all)
      && var calm, stormy := Run(env, acts, st), Run(env, [acts[0]] + acts[2..], st);
      var again := Run(env, acts, stormy.0);
      && calm.1 && stormy.1 && again.1
      && name in calm.0.dbs && c !in calm.0.dbs[name].exts
      && name in again.0.dbs && c in again.0.dbs[name].exts
  {
    var x, y, z := From(a, p), From(b, q), Optionally(c);
    assert [x] + [y, z] == [x, y, z];
    FickleInOrder(env, name, st, a, b, c, p, q);
    FickleIsNotSturdy(env, name, st, a, b, c, p, q);
    FirstPassedOver(env, name, st, x, [y, z]);
    OptionalsConverge(env, name, [x, y, z], st);
    OptionalsConverge(env, name, [y, z], st);
    OptionalsConverge(env, name, [x, y, z], Run(env, Plan(name, JustExtensions([y, z])), st).0);
    ThirdStaysOut(env, name, ShelfAt(st, name), a, b, c, p, q);
    ThirdComesIn(env, name, ShelfAt(st, name), b, c, q);
  }

  lemma FickleIsNotSturdy(env: Env, name: string, st: Cluster, a: string, b: string, c: string, p: string, q: string)
    requires Fickle(env, name, st, a, b, c, p, q)
    ensures !Sturdy(env, [From(a, p), From(b, q), Optionally(c)])
  {
    var exts := [From(a, p), From(b, q), Optionally(c)];
    assert b in Awaits(env, exts[1]) && b in Brings(env, exts[0]);
    assert !Apart(env, exts[0], exts[1]);
  }
}
