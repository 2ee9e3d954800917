/** When the weather of one run is forgotten by the next. */
module PgStorm {
  import opened Strings
  import opened Sequences
  import opened PgConfig
  import opened PgCluster
  import opened PgPlan
  import opened PgInForce
  import opened PgPlanFacts
  import opened PgConfluence
  import opened PgSettled
  import opened PgThinned
  import Converging

  // ----- Extensions that keep out of each other's way

  predicate Apart(env: Env, x: Extension, y: Extension) {
    Awaits(env, x) !! Brings(env, y) && Awaits(env, y) !! Brings(env, x)
  }

  /** No optional extension brings, through CASCADE or its bundle, what a later one awaits, nor the other way round. */
  predicate Sturdy(env: Env, exts: seq<Extension>) {
    forall i, j :: 0 <= i < j < |exts| && exts[i].optional ==> Apart(env, exts[i], exts[j])
  }

  /** An act that neither needs what the extension brings nor brings what it awaits. */
  predicate OutOfTheWay(env: Env, name: string, x: Extension, b: Act) {
    match b
    case FetchBundle(y) => y.source != "" && Apart(env, x, y)
    case MakeExtension(db, y) => db == name && Apart(env, x, y)
    case _ => IsGrant(b)
  }

  // ----- Two acts in either order

  lemma FetchThenFetch(env: Env, x: Extension, y: Extension, st: Cluster)
    requires Apart(env, x, y) && x.source != "" && y.source != "" && x.optional
    ensures Step(env, Step(env, st, FetchBundle(x)).0, FetchBundle(y)) ==
      (Step(env, Step(env, st, FetchBundle(y)).0, FetchBundle(x)).0, Step(env, st, FetchBundle(y)).1)
  {
    assert RealName(x.name) in Awaits(env, x) && RealName(y.name) in Awaits(env, y);
    var p, q := env.bundles(x.source), env.bundles(y.source);
    if p.Some? && q.Some? {
      assert st.files + p.value + q.value == st.files + q.value + p.value;
    }
  }

  /** CREATE EXTENSION looks at the toolchain only for what the extension awaits. */
  lemma SameMake(env: Env, name: string, x: Extension, st: Cluster, files: set<string>)
    requires forall d :: d in Awaits(env, x) ==> (d in files <==> d in st.files)
    ensures var a, b := Step(env, st, MakeExtension(name, x)), Step(env, st.(files := files), MakeExtension(name, x));
      b == (a.0.(files := files), a.1)
  {
    var stmt := MakeStmt(x);
    assert RealName(x.name) in Awaits(env, x);
    assert forall d :: d in env.needs(stmt.name) ==> d in Awaits(env, x);
    if name in st.dbs {
      assert Creatable(env, st.(files := files), st.dbs[name], stmt) <==> Creatable(env, st, st.dbs[name], stmt);
    }
  }

  lemma FetchKeepsOut(env: Env, x: Extension, y: Extension, st: Cluster)
    requires Awaits(env, y) !! Brings(env, x) && x.source != ""
    ensures var after := Step(env, st, FetchBundle(x)).0;
      && after == st.(files := after.files)
      && forall d :: d in Awaits(env, y) ==> (d in after.files <==> d in st.files)
  {
    assert forall d :: d in Awaits(env, y) ==> d !in Brings(env, x);
  }

  lemma MakeLeavesFiles(env: Env, name: string, x: Extension, st: Cluster)
    ensures Step(env, st, MakeExtension(name, x)).0.files == st.files
  {
  }

  /** Fetching does not depend on what is in a database. */
  lemma SameFetch(env: Env, x: Extension, st: Cluster, dbs: map<string, Db>)
    ensures var a, b := Step(env, st, FetchBundle(x)), Step(env, st.(dbs := dbs), FetchBundle(x));
      b == (a.0.(dbs := dbs), a.1)
  {
  }

  lemma MakeChangesDbs(env: Env, name: string, x: Extension, st: Cluster)
    ensures var after := Step(env, st, MakeExtension(name, x)).0; after == st.(dbs := after.dbs)
  {
  }

  lemma FetchThenMake(env: Env, name: string, x: Extension, y: Extension, st: Cluster)
    requires Awaits(env, y) !! Brings(env, x) && x.source != ""
    ensures Step(env, Step(env, st, FetchBundle(x)).0, MakeExtension(name, y)) ==
      (Step(env, Step(env, st, MakeExtension(name, y)).0, FetchBundle(x)).0, Step(env, st, MakeExtension(name, y)).1)
    ensures Step(env, Step(env, st, MakeExtension(name, y)).0, FetchBundle(x)).1 == Step(env, st, FetchBundle(x)).1
  {
    var fetched := Step(env, st, FetchBundle(x)).0;
    FetchKeepsOut(env, x, y, st);
    SameMake(env, name, y, st, fetched.files);
    MakeChangesDbs(env, name, y, st);
    SameFetch(env, x, st, Step(env, st, MakeExtension(name, y)).0.dbs);
  }

  // ----- Two extensions in either order

  /** Whether CREATE EXTENSION would do something here. */
  predicate Makes(env: Env, st: Cluster, name: string, x: Extension) {
    && RealName(x.name) in st.files && Connectable(st, name) && env.refuses(name, MakeStmt(x)).None?
    && RealName(x.name) !in st.dbs[name].exts && Creatable(env, st, st.dbs[name], MakeStmt(x))
  }

  function With(env: Env, exts: map<string, ExtRec>, x: Extension): map<string, ExtRec> {
    ((map d | d in env.needs(RealName(x.name)) - exts.Keys :: ExtRec(x.schema, "")) + exts)[
      RealName(x.name) := ExtRec(x.schema, x.version)]
  }

  /** The server, and the toolchain, do not object. */
  predicate Passes(env: Env, st: Cluster, name: string, x: Extension) {
    x.optional || (RealName(x.name) in st.files && Exec(env, st, name, MakeStmt(x)).Success?)
  }

  function WithExts(st: Cluster, name: string, exts: map<string, ExtRec>): Cluster
    requires name in st.dbs
  {
    WithDb(st, name, st.dbs[name].(exts := exts))
  }

  lemma MakeIs(env: Env, name: string, x: Extension, st: Cluster)
    ensures Step(env, st, MakeExtension(name, x)) ==
      (if Makes(env, st, name, x) then WithExts(st, name, With(env, st.dbs[name].exts, x)) else st,
       Passes(env, st, name, x))
  {
  }

  /** The same extension elsewhere: only what it awaits counts. */
  lemma SameMakes(env: Env, name: string, x: Extension, st: Cluster, exts: map<string, ExtRec>)
    requires name in st.dbs
    requires forall d :: d in Awaits(env, x) ==> (d in exts <==> d in st.dbs[name].exts)
    ensures Makes(env, WithExts(st, name, exts), name, x) <==> Makes(env, st, name, x)
    ensures Passes(env, WithExts(st, name, exts), name, x) <==> Passes(env, st, name, x)
  {
    var stmt := MakeStmt(x);
    assert RealName(x.name) in Awaits(env, x);
    assert forall d :: d in env.needs(stmt.name) ==> d in Awaits(env, x);
    var other := WithExts(st, name, exts);
    assert Creatable(env, other, other.dbs[name], stmt) <==> Creatable(env, st, st.dbs[name], stmt);
  }

  /** What making an extension adds is among what it brings. */
  lemma Added(env: Env, st: Cluster, name: string, x: Extension, d: string)
    requires Makes(env, st, name, x)
    ensures d in With(env, st.dbs[name].exts, x) <==> d in st.dbs[name].exts || d in Pulled(env, st.dbs[name].exts, x)
    ensures d in Pulled(env, st.dbs[name].exts, x) ==> d in Brings(env, x)
  {
  }

  function Pulled(env: Env, exts: map<string, ExtRec>, x: Extension): set<string> {
    {RealName(x.name)} + (env.needs(RealName(x.name)) - exts.Keys)
  }

  /** Making x leaves what y awaits as it was. */
  lemma MakeKeepsOut(env: Env, name: string, x: Extension, y: Extension, st: Cluster)
    requires Makes(env, st, name, x) && Awaits(env, y) !! Brings(env, x)
    ensures forall d :: d in Awaits(env, y) ==> (d in With(env, st.dbs[name].exts, x) <==> d in st.dbs[name].exts)
  {
    forall d | d in Awaits(env, y)
      ensures d in With(env, st.dbs[name].exts, x) <==> d in st.dbs[name].exts
    {
      Added(env, st, name, x, d);
    }
  }

  lemma WithEither(env: Env, exts: map<string, ExtRec>, x: Extension, y: Extension)
    requires Apart(env, x, y) && RealName(x.name) !in exts && RealName(y.name) !in exts
    requires x.cascade || env.needs(RealName(x.name)) <= exts.Keys
    requires y.cascade || env.needs(RealName(y.name)) <= exts.Keys
    ensures With(env, With(env, exts, x), y) == With(env, With(env, exts, y), x)
  {
    var a, b := RealName(x.name), RealName(y.name);
    assert a in Awaits(env, x) && b in Awaits(env, y) && a in Brings(env, x) && b in Brings(env, y);
    var p, q := With(env, With(env, exts, x), y), With(env, With(env, exts, y), x);
    forall d
      ensures (d in p <==> d in q) && (d in p ==> p[d] == q[d])
    {
      assert d in env.needs(a) ==> d in Awaits(env, x);
      assert d in env.needs(b) ==> d in Awaits(env, y);
      assert x.cascade && d in env.needs(a) ==> d in Brings(env, x);
      assert y.cascade && d in env.needs(b) ==> d in Brings(env, y);
    }
  }

  lemma ExtsTwice(st: Cluster, name: string, a: map<string, ExtRec>, b: map<string, ExtRec>)
    requires name in st.dbs
    ensures WithExts(WithExts(st, name, a), name, b) == WithExts(st, name, b)
  {
    assert st.dbs[name := st.dbs[name].(exts := a)][name := st.dbs[name].(exts := b)] == st.dbs[name := st.dbs[name].(exts := b)];
  }

  lemma MakeThenMake(env: Env, name: string, x: Extension, y: Extension, st: Cluster)
    requires Apart(env, x, y)
    ensures Step(env, Step(env, st, MakeExtension(name, x)).0, MakeExtension(name, y)) ==
      (Step(env, Step(env, st, MakeExtension(name, y)).0, MakeExtension(name, x)).0,
       Step(env, st, MakeExtension(name, y)).1)
  {
    MakeIs(env, name, x, st);
    MakeIs(env, name, y, st);
    MakeIs(env, name, y, Step(env, st, MakeExtension(name, x)).0);
    MakeIs(env, name, x, Step(env, st, MakeExtension(name, y)).0);
    if name in st.dbs {
      var exts := st.dbs[name].exts;
      if Makes(env, st, name, x) {
        MakeKeepsOut(env, name, x, y, st);
        SameMakes(env, name, y, st, With(env, exts, x));
        ExtsTwice(st, name, With(env, exts, x), With(env, With(env, exts, x), y));
      }
      if Makes(env, st, name, y) {
        MakeKeepsOut(env, name, y, x, st);
        SameMakes(env, name, x, st, With(env, exts, y));
        ExtsTwice(st, name, With(env, exts, y), With(env, With(env, exts, y), x));
      }
      if Makes(env, st, name, x) && Makes(env, st, name, y) {
        WithEither(env, exts, x, y);
      }
    }
  }

  // ----- Grants in either order

  lemma GrantThenFetch(env: Env, x: Extension, b: Act, st: Cluster)
    requires IsGrant(b)
    ensures Step(env, Step(env, st, FetchBundle(x)).0, b) ==
      (Step(env, Step(env, st, b).0, FetchBundle(x)).0, Step(env, st, b).1)
  {
    FilesOnly(env, x, st);
    SameGrantFiles(env, b, st, Step(env, st, FetchBundle(x)).0.files);
    FetchedAlike(env, x, st, Step(env, st, b).0);
  }

  lemma FilesOnly(env: Env, x: Extension, st: Cluster)
    ensures var after := Step(env, st, FetchBundle(x)).0; after == st.(files := after.files)
  {
  }

  /** A grant does not look at the toolchain. */
  lemma SameGrantFiles(env: Env, b: Act, st: Cluster, files: set<string>)
    requires IsGrant(b)
    ensures Step(env, st.(files := files), b) == (Step(env, st, b).0.(files := files), Step(env, st, b).1)
    ensures Step(env, st, b).0.files == st.files
  {
  }

  /** Fetching looks at nothing but the toolchain. */
  lemma FetchedAlike(env: Env, x: Extension, st: Cluster, other: Cluster)
    requires other.files == st.files
    ensures Step(env, other, FetchBundle(x)) ==
      (other.(files := Step(env, st, FetchBundle(x)).0.files), Step(env, st, FetchBundle(x)).1)
  {
  }

  /** A grant does not look at extensions. */
  lemma SameGrant(env: Env, name: string, b: Act, st: Cluster, exts: map<string, ExtRec>)
    requires IsGrant(b) && name in st.dbs
    ensures name in Step(env, st, b).0.dbs
    ensures Step(env, WithExts(st, name, exts), b) == (WithExts(Step(env, st, b).0, name, exts), Step(env, st, b).1)
  {
    if b.stmt.GrantOnAll? {
      SameGrantHere(name, b.at, b.stmt.grant, SchemaPrivs(b.stmt.grant, b.stmt.grant.objects, false), st, exts);
    } else if b.stmt.GrantOnSchema? {
      SameGrantHere(name, b.at, b.stmt.grant, SchemaPrivs(b.stmt.grant, "", false), st, exts);
    } else if b.stmt.DefaultPrivileges? {
      SameGrantHere(name, b.at, b.stmt.grant, SchemaPrivs(b.stmt.grant, b.stmt.grant.objects, true), st, exts);
    }
  }

  lemma SameGrantHere(
    name: string, at: string, g: Grant, privs: set<SchemaPriv>, st: Cluster, exts: map<string, ExtRec>)
    requires name in st.dbs
    ensures at in WithExts(st, name, exts).dbs <==> at in st.dbs
    ensures at in st.dbs ==>
      var a, b := GrantHere(st, at, g, privs), GrantHere(WithExts(st, name, exts), at, g, privs);
      && (a.Success? <==> b.Success?)
      && (a.Success? ==> name in a.value.dbs && b.value == WithExts(a.value, name, exts))
  {
    if at in st.dbs {
      var other := WithExts(st, name, exts);
      assert other.dbs[at] == (if at == name then st.dbs[at].(exts := exts) else st.dbs[at]);
      if GrantHere(st, at, g, privs).Success? {
        PutEither(st, name, at, exts, st.dbs[at].privs + privs);
      }
    }
  }

  lemma PutEither(st: Cluster, name: string, at: string, exts: map<string, ExtRec>, privs: set<SchemaPriv>)
    requires name in st.dbs && at in st.dbs
    ensures var other, granted := WithExts(st, name, exts), WithDb(st, at, st.dbs[at].(privs := privs));
      && at in other.dbs && name in granted.dbs
      && WithDb(other, at, other.dbs[at].(privs := privs)) == WithExts(granted, name, exts)
  {
    var p := st.dbs[name := st.dbs[name].(exts := exts)];
    var q := st.dbs[at := st.dbs[at].(privs := privs)];
    assert p[at := p[at].(privs := privs)] == q[name := q[name].(exts := exts)];
  }

  lemma GrantKeepsOut(env: Env, name: string, x: Extension, b: Act, st: Cluster)
    requires IsGrant(b) && name in st.dbs
    ensures var after := Step(env, st, b).0;
      && name in after.dbs && after.dbs[name].exts == st.dbs[name].exts
      && (Makes(env, after, name, x) <==> Makes(env, st, name, x))
  {
  }

  lemma GrantThenMake(env: Env, name: string, x: Extension, b: Act, st: Cluster)
    requires IsGrant(b)
    ensures Step(env, Step(env, st, MakeExtension(name, x)).0, b) ==
      (Step(env, Step(env, st, b).0, MakeExtension(name, x)).0, Step(env, st, b).1)
  {
    MakeIs(env, name, x, st);
    MakeIs(env, name, x, Step(env, st, b).0);
    if name in st.dbs {
      GrantKeepsOut(env, name, x, b, st);
      SameGrant(env, name, b, st, With(env, st.dbs[name].exts, x));
    } else {
      GrantMakesNoDb(env, name, b, st);
    }
  }

  lemma GrantMakesNoDb(env: Env, name: string, b: Act, st: Cluster)
    requires IsGrant(b) && name !in st.dbs
    ensures name !in Step(env, st, b).0.dbs
  {
  }

  // ----- One extension and everything behind it, in either order

  lemma StepCommutes(env: Env, name: string, x: Extension, a: Act, b: Act, st: Cluster)
    requires x.optional && OutOfTheWay(env, name, x, b)
    requires (a == FetchBundle(x) && x.source != "") || a == MakeExtension(name, x)
    ensures Step(env, Step(env, st, a).0, b) == (Step(env, Step(env, st, b).0, a).0, Step(env, st, b).1)
  {
    match b
    case FetchBundle(y) =>
      if a.FetchBundle? {
        FetchThenFetch(env, x, y, st);
      } else {
        FetchThenMake(env, name, y, x, st);
      }
    case MakeExtension(_, y) =>
      if a.FetchBundle? {
        FetchThenMake(env, name, x, y, st);
      } else {
        MakeThenMake(env, name, x, y, st);
      }
    case _ =>
      if a.FetchBundle? {
        GrantThenFetch(env, x, b, st);
      } else {
        GrantThenMake(env, name, x, b, st);
      }
  }

  lemma {:induction false} RunCommutes(env: Env, name: string, x: Extension, a: Act, later: seq<Act>, st: Cluster)
    requires x.optional && forall b :: b in later ==> OutOfTheWay(env, name, x, b)
    requires (a == FetchBundle(x) && x.source != "") || a == MakeExtension(name, x)
    ensures Run(env, later, Step(env, st, a).0) == (Step(env, Run(env, later, st).0, a).0, Run(env, later, st).1)
    decreases |later|
  {
    if later != [] {
      assert later[0] in later;
      StepCommutes(env, name, x, a, later[0], st);
      RunCommutes(env, name, x, a, later[1..], Step(env, st, later[0]).0);
    }
  }

  /** An optional extension seen to: its bundle fetched, then made. */
  function SeenTo(env: Env, name: string, x: Extension, st: Cluster): Cluster {
    Step(env, if x.source == "" then st else Step(env, st, FetchBundle(x)).0, MakeExtension(name, x)).0
  }

  lemma SeenToIs(env: Env, name: string, x: Extension, st: Cluster)
    requires x.optional
    ensures Run(env, ExtensionActs(name, x), st) == (SeenTo(env, name, x, st), true)
  {
    var fetch := if x.source == "" then [] else [FetchBundle(x)];
    RunSnoc(env, fetch, MakeExtension(name, x), st);
    if x.source != "" {
      Converging.RunOne(Stepping(env), FetchBundle(x), st);
    }
  }

  lemma SeenToCommutes(env: Env, name: string, x: Extension, later: seq<Act>, st: Cluster)
    requires x.optional && forall b :: b in later ==> OutOfTheWay(env, name, x, b)
    ensures Run(env, later, SeenTo(env, name, x, st)) ==
      (SeenTo(env, name, x, Run(env, later, st).0), Run(env, later, st).1)
  {
    var fetched := if x.source == "" then st else Step(env, st, FetchBundle(x)).0;
    RunCommutes(env, name, x, MakeExtension(name, x), later, fetched);
    if x.source != "" {
      RunCommutes(env, name, x, FetchBundle(x), later, st);
    }
  }

  lemma FetchTwice(env: Env, x: Extension, st: Cluster)
    ensures var once := Step(env, st, FetchBundle(x)).0; Step(env, once, FetchBundle(x)).0 == once
  {
    if RealName(x.name) !in st.files && env.bundles(x.source).Some? {
      var files := st.files + env.bundles(x.source).value;
      assert files + env.bundles(x.source).value == files;
    }
  }

  lemma MakeTwice(env: Env, name: string, x: Extension, st: Cluster)
    ensures var once := Step(env, st, MakeExtension(name, x)).0; Step(env, once, MakeExtension(name, x)).0 == once
  {
    MakeIs(env, name, x, st);
    MakeIs(env, name, x, Step(env, st, MakeExtension(name, x)).0);
  }

  /** Made but not fetched for: either there was nothing to fetch, or nothing could be made. */
  lemma MadeAnyway(env: Env, name: string, x: Extension, st: Cluster)
    ensures var made := Step(env, st, MakeExtension(name, x)).0; SeenTo(env, name, x, made) == SeenTo(env, name, x, st)
  {
    var made := Step(env, st, MakeExtension(name, x)).0;
    MakeTwice(env, name, x, st);
    MakeLeavesFiles(env, name, x, st);
    if RealName(x.name) in st.files {
      assert Step(env, st, FetchBundle(x)).0 == st && Step(env, made, FetchBundle(x)).0 == made;
    } else {
      assert made == st;
    }
  }

  /** Whatever part of it was done before. */
  lemma SeenToAgain(env: Env, name: string, x: Extension, n: nat, kept: seq<Act>, st: Cluster)
    requires x.optional && n <= |ExtensionActs(name, x)| && Thinned(ExtensionActs(name, x)[..n], kept)
    ensures SeenTo(env, name, x, Run(env, kept, st).0) == SeenTo(env, name, x, st)
  {
    var make, fetch := MakeExtension(name, x), FetchBundle(x);
    PartKept(name, x, n, kept);
    MadeAnyway(env, name, x, st);
    FetchTwice(env, x, st);
    if kept == [make] {
      Converging.RunOne(Stepping(env), make, st);
    } else if kept == [fetch] {
      Converging.RunOne(Stepping(env), fetch, st);
    } else if kept == [fetch, make] {
      RunSnoc(env, [fetch], make, st);
      Converging.RunOne(Stepping(env), fetch, st);
      assert [fetch] + [make] == [fetch, make];
      MadeAnyway(env, name, x, Step(env, st, fetch).0);
    }
  }

  lemma PartKept(name: string, x: Extension, n: nat, kept: seq<Act>)
    requires n <= |ExtensionActs(name, x)| && Thinned(ExtensionActs(name, x)[..n], kept)
    ensures kept == [] || kept == [MakeExtension(name, x)]
      || (x.source != "" && (kept == [FetchBundle(x)] || kept == [FetchBundle(x), MakeExtension(name, x)]))
  {
    var acts := ExtensionActs(name, x)[..n];
    if n > 0 {
      OneThinned(acts, kept);
      if n > 1 {
        OneThinned(acts[1..], kept);
        if kept != [] {
          OneThinned(acts[1..], kept[1..]);
        }
      }
    }
  }

  lemma OneThinned(acts: seq<Act>, kept: seq<Act>)
    requires acts != []
    ensures Thinned(acts, kept) ==>
      Thinned(acts[1..], kept) || (kept == [acts[0]] + kept[1..] && Thinned(acts[1..], kept[1..]))
  {
  }

  // ----- Required extensions, and everything else that cannot be passed over

  lemma CoherentParts(a: seq<Act>, b: seq<Act>)
    requires Coherent(a + b)
    ensures Coherent(a) && Coherent(b)
    ensures forall x, y :: x in a && y in b ==> Compatible(x, y)
  {
    assert forall i :: 0 <= i < |a| ==> (a + b)[i] == a[i];
    assert forall i :: 0 <= i < |b| ==> (a + b)[|a| + i] == b[i];
    forall x, y | x in a && y in b
      ensures Compatible(x, y)
    {
      var i, j :| 0 <= i < |a| && a[i] == x && 0 <= j < |b| && b[j] == y;
      assert Compatible((a + b)[i], (a + b)[|a| + j]);
    }
  }

  lemma {:induction false} StaysInForce(env: Env, a: Act, later: seq<Act>, st: Cluster)
    requires InForce(env, a, st) && Plannable(a) && !Passable(a)
    requires forall b :: b in later ==> Plannable(b) && Compatible(a, b)
    ensures InForce(env, a, Run(env, later, st).0)
    decreases |later|
  {
    if later != [] {
      assert later[0] in later;
      StepKeeps(env, st, a, later[0]);
      if Step(env, st, later[0]).1 {
        StaysInForce(env, a, later[1..], Step(env, st, later[0]).0);
      }
    }
  }

  /** Acts that passed, none of which can be passed over, have nothing left to do whatever happens behind them. */
  lemma PassedForGood(env: Env, acts: seq<Act>, later: seq<Act>, kept: seq<Act>, st: Cluster)
    requires Fair(env) && Coherent(acts + later) && NonePassable(acts) && Run(env, acts, st).1
    requires forall b :: b in kept ==> b in later
    ensures var end := Run(env, kept, Run(env, acts, st).0).0; Run(env, acts, end) == (end, true)
  {
    var here := Run(env, acts, st).0;
    var end := Run(env, kept, here).0;
    CoherentParts(acts, later);
    forall i | 0 <= i < |acts|
      ensures InForce(env, acts[i], end)
    {
      assert acts[i] in acts;
      PassedIsInForce(env, acts, st, acts[i]);
      assert forall b :: b in later ==> Plannable(b);
      StaysInForce(env, acts[i], kept, here);
    }
    WalkThrough(env, acts, end);
  }

  lemma NoneWaits(env: Env, acts: seq<Act>, st: Cluster)
    requires NonePassable(acts)
    ensures Settled(env, acts, st)
  {
    assert forall i :: 0 <= i < |acts| ==> !Passable(acts[i]);
  }

  /** Where nothing can be passed over, a prefix of the run is all that weather can leave. */
  lemma NonePassedOver(env: Env, acts: seq<Act>, n: nat, kept: seq<Act>, st: Cluster)
    requires Fair(env) && Coherent(acts) && NonePassable(acts) && n <= |acts| && Thinned(acts[..n], kept)
    ensures Run(env, acts, Run(env, kept, st).0) == Run(env, acts, st)
  {
    NothingThinned(acts[..n], kept);
    NoneWaits(env, acts, st);
    ResumeIsUninterrupted(env, acts, st, n);
  }

  // ----- The extension phase and the grants behind it

  lemma {:induction false} FirstExtension(name: string, exts: seq<Extension>)
    requires exts != []
    ensures AllExtensionActs(name, exts) == ExtensionActs(name, exts[0]) + AllExtensionActs(name, exts[1..])
  {
    var n := |exts| - 1;
    if n == 0 {
      assert exts[..n] == [] && exts[1..] == [];
    } else {
      FirstExtension(name, exts[..n]);
      assert exts[..n][1..] == exts[1..][..n - 1] && exts[1..][n - 1] == exts[n];
      Associative(ExtensionActs(name, exts[0]), AllExtensionActs(name, exts[1..][..n - 1]), ExtensionActs(name, exts[n]));
    }
  }

  /** What stands behind the first extension keeps out of its way. */
  lemma BehindIsOut(env: Env, name: string, exts: seq<Extension>, grants: seq<Act>, b: Act)
    requires exts != [] && Sturdy(env, exts) && exts[0].optional && forall g :: g in grants ==> IsGrant(g)
    requires b in AllExtensionActs(name, exts[1..]) + grants
    ensures OutOfTheWay(env, name, exts[0], b)
  {
    if b in AllExtensionActs(name, exts[1..]) {
      ExtensionActsOf(name, exts[1..], b);
      var y :| y in exts[1..] && ((b == FetchBundle(y) && y.source != "") || b == MakeExtension(name, y));
      var j :| 0 <= j < |exts| - 1 && exts[1..][j] == y;
      assert exts[1 + j] == y && Apart(env, exts[0], exts[1 + j]);
    }
  }

  lemma GrantsPassNone(grants: seq<Act>)
    requires forall g :: g in grants ==> IsGrant(g)
    ensures NonePassable(grants)
  {
  }

  lemma RequiredPassNone(name: string, x: Extension)
    requires !x.optional
    ensures NonePassable(ExtensionActs(name, x))
  {
  }

  /** The extension x in front, seen to in part or in full, and some of what stands behind it. */
  lemma OptionalInFront(env: Env, name: string, x: Extension, m: nat, k: seq<Act>, l: seq<Act>, rest: seq<Act>, st: Cluster)
    requires x.optional && m <= |ExtensionActs(name, x)| && Thinned(ExtensionActs(name, x)[..m], k)
    requires forall b :: b in l ==> OutOfTheWay(env, name, x, b)
    ensures var seen := SeenTo(env, name, x, st);
      && Run(env, ExtensionActs(name, x) + rest, st) == Run(env, rest, seen)
      && Run(env, ExtensionActs(name, x) + rest, Run(env, k + l, st).0) == Run(env, rest, Run(env, l, seen).0)
  {
    var part := Run(env, k, st);
    PartPasses(env, name, x, m, k, st);
    RunAppend(env, k, l, st);
    var end := Run(env, l, part.0).0;
    SeenToCommutes(env, name, x, l, part.0);
    SeenToAgain(env, name, x, m, k, st);
    SeenToIs(env, name, x, st);
    SeenToIs(env, name, x, end);
    RunAppend(env, ExtensionActs(name, x), rest, st);
    RunAppend(env, ExtensionActs(name, x), rest, end);
  }

  lemma PartPasses(env: Env, name: string, x: Extension, m: nat, k: seq<Act>, st: Cluster)
    requires x.optional && m <= |ExtensionActs(name, x)| && Thinned(ExtensionActs(name, x)[..m], k)
    ensures Run(env, k, st).1
  {
    PartKept(name, x, m, k);
    var make, fetch := MakeExtension(name, x), FetchBundle(x);
    Converging.RunOne(Stepping(env), make, st);
    Converging.RunOne(Stepping(env), fetch, st);
    RunSnoc(env, [fetch], make, st);
    assert [fetch] + [make] == [fetch, make];
  }

  /**
   * Whatever optional extensions a run has passed over, and however far it got, a run of all the acts from there ends
   * in the state, and with the outcome, of one from the beginning.
   */
  lemma {:induction false} ExtensionsForget(
    env: Env, name: string, exts: seq<Extension>, grants: seq<Act>, n: nat, kept: seq<Act>, st: Cluster)
    requires Fair(env) && Sturdy(env, exts) && Coherent(AllExtensionActs(name, exts) + grants)
    requires forall g :: g in grants ==> IsGrant(g)
    requires n <= |AllExtensionActs(name, exts) + grants|
    requires Thinned((AllExtensionActs(name, exts) + grants)[..n], kept)
    ensures var acts := AllExtensionActs(name, exts) + grants; Run(env, acts, Run(env, kept, st).0) == Run(env, acts, st)
    decreases |exts|, 1
  {
    if exts == [] {
      assert AllExtensionActs(name, exts) + grants == grants;
      GrantsPassNone(grants);
      NonePassedOver(env, grants, n, kept, st);
    } else {
      var unit, rest := ExtensionActs(name, exts[0]), AllExtensionActs(name, exts[1..]) + grants;
      FirstExtension(name, exts);
      Associative(unit, AllExtensionActs(name, exts[1..]), grants);
      CoherentParts(unit, rest);
      assert Sturdy(env, exts[1..]);
      var k, l := PrefixSplit(unit, rest, n, kept);
      if exts[0].optional {
        OptionalForgets(env, name, exts, grants, n, k, l, st);
      } else {
        RequiredForgets(env, name, exts, grants, n, k, l, st);
      }
    }
  }

  function Least(a: nat, b: nat): nat {
    if a < b then a else b
  }

  /** The part of what was kept that belongs to the first acts, and the rest. */
  lemma PrefixSplit(a: seq<Act>, b: seq<Act>, n: nat, kept: seq<Act>) returns (k: seq<Act>, l: seq<Act>)
    requires n <= |a + b| && Thinned((a + b)[..n], kept)
    ensures var m := Least(n, |a|);
      kept == k + l && Thinned(a[..m], k) && Thinned(b[..n - m], l) && (n < |a| ==> l == [])
  {
    if n <= |a| {
      assert (a + b)[..n] == a[..n] && b[..0] == [] && kept + [] == kept;
      k, l := kept, [];
    } else {
      assert (a + b)[..n] == a + b[..n - |a|] && a[..|a|] == a;
      k, l := ThinnedSplit(a, b[..n - |a|], kept);
    }
  }

  lemma {:induction false} OptionalForgets(
    env: Env, name: string, exts: seq<Extension>, grants: seq<Act>, n: nat, k: seq<Act>, l: seq<Act>, st: Cluster)
    requires Fair(env) && exts != [] && exts[0].optional && Sturdy(env, exts) && Sturdy(env, exts[1..])
    requires forall g :: g in grants ==> IsGrant(g)
    requires Coherent(AllExtensionActs(name, exts[1..]) + grants)
    requires var unit, rest := ExtensionActs(name, exts[0]), AllExtensionActs(name, exts[1..]) + grants;
      var m := Least(n, |unit|); n <= |unit| + |rest| && Thinned(unit[..m], k) && Thinned(rest[..n - m], l)
    ensures var acts := ExtensionActs(name, exts[0]) + (AllExtensionActs(name, exts[1..]) + grants);
      Run(env, acts, Run(env, k + l, st).0) == Run(env, acts, st)
    decreases |exts|, 0
  {
    var unit, rest := ExtensionActs(name, exts[0]), AllExtensionActs(name, exts[1..]) + grants;
    var m := Least(n, |unit|);
    forall b | b in l
      ensures OutOfTheWay(env, name, exts[0], b)
    {
      ThinnedIn(rest[..n - m], l, b);
      BehindIsOut(env, name, exts, grants, b);
    }
    OptionalInFront(env, name, exts[0], m, k, l, rest, st);
    ExtensionsForget(env, name, exts[1..], grants, n - m, l, SeenTo(env, name, exts[0], st));
  }

  lemma {:induction false} RequiredForgets(
    env: Env, name: string, exts: seq<Extension>, grants: seq<Act>, n: nat, k: seq<Act>, l: seq<Act>, st: Cluster)
    requires Fair(env) && exts != [] && !exts[0].optional && Sturdy(env, exts[1..])
    requires forall g :: g in grants ==> IsGrant(g)
    requires Coherent(ExtensionActs(name, exts[0]) + (AllExtensionActs(name, exts[1..]) + grants))
    requires var unit, rest := ExtensionActs(name, exts[0]), AllExtensionActs(name, exts[1..]) + grants;
      var m := Least(n, |unit|);
      && n <= |unit| + |rest| && Thinned(unit[..m], k) && Thinned(rest[..n - m], l) && (n < |unit| ==> l == [])
    ensures var acts := ExtensionActs(name, exts[0]) + (AllExtensionActs(name, exts[1..]) + grants);
      Run(env, acts, Run(env, k + l, st).0) == Run(env, acts, st)
    decreases |exts|, 0
  {
    var unit, rest := ExtensionActs(name, exts[0]), AllExtensionActs(name, exts[1..]) + grants;
    var m := Least(n, |unit|);
    RequiredPassNone(name, exts[0]);
    CoherentParts(unit, rest);
    RunAppend(env, k, l, st);
    if n < |unit| || !Run(env, unit, st).1 {
      PartForgets(env, unit, rest, m, k, l, st);
    } else {
      assert unit[..m] == unit;
      NothingThinned(unit, k);
      var here := Run(env, unit, st).0;
      PassedInFront(env, unit, rest, n - m, l, st);
      ExtensionsForget(env, name, exts[1..], grants, n - m, l, here);
    }
  }

  /** Acts that passed and cannot be passed over: a run that starts behind some later ones comes through to those. */
  lemma PassedInFront(env: Env, acts: seq<Act>, rest: seq<Act>, n: nat, l: seq<Act>, st: Cluster)
    requires Fair(env) && Coherent(acts + rest) && NonePassable(acts) && Run(env, acts, st).1
    requires n <= |rest| && Thinned(rest[..n], l)
    ensures var here := Run(env, acts, st).0;
      && Run(env, acts + rest, st) == Run(env, rest, here)
      && Run(env, acts + rest, Run(env, l, here).0) == Run(env, rest, Run(env, l, here).0)
  {
    forall b | b in l
      ensures b in rest
    {
      ThinnedIn(rest[..n], l, b);
    }
    PassedForGood(env, acts, rest, l, st);
    RunAppend(env, acts, rest, st);
    RunAppend(env, acts, rest, Run(env, l, Run(env, acts, st).0).0);
  }

  /** Acts that cannot be passed over and were not all done. */
  lemma PartForgets(env: Env, acts: seq<Act>, rest: seq<Act>, m: nat, k: seq<Act>, l: seq<Act>, st: Cluster)
    requires Fair(env) && Coherent(acts) && NonePassable(acts) && m <= |acts| && Thinned(acts[..m], k)
    requires l == [] || (m == |acts| && !Run(env, acts, st).1)
    ensures Run(env, acts + rest, Run(env, k + l, st).0) == Run(env, acts + rest, st)
  {
    NonePassedOver(env, acts, m, k, st);
    NothingThinned(acts[..m], k);
    assert acts[..|acts|] == acts;
    assert k + [] == k;
    RunAppend(env, k, l, st);
    RunAppend(env, acts, rest, st);
    RunAppend(env, acts, rest, Run(env, k, st).0);
  }

  // ----- The whole plan

  lemma BeforePassesNone(name: string, cfg: Config)
    ensures NonePassable(BeforeExtensions(name, cfg))
  {
    forall act | act in BeforeExtensions(name, cfg)
      ensures !Passable(act)
    {
      InEither(EarlyActs(name, cfg), SchemaActs(name, cfg.schemas), act);
      if act in EarlyActs(name, cfg) {
        EarlyActsOf(name, cfg, act);
        EarlyPassesNone(name, cfg, act);
      }
    }
  }

  lemma EarlyPassesNone(name: string, cfg: Config, act: Act)
    requires Early(name, cfg, act)
    ensures !Passable(act)
  {
    assert act in TuneActs(name, cfg) ==> act.Sql?;
  }

  lemma PlanInTwo(name: string, cfg: Config)
    ensures Plan(name, cfg) ==
      BeforeExtensions(name, cfg) + (AllExtensionActs(name, cfg.extensions) + AllGrantActs(name, cfg.grants))
  {
    PlanInThree(name, cfg);
    Associative(BeforeExtensions(name, cfg), AllExtensionActs(name, cfg.extensions), AllGrantActs(name, cfg.grants));
  }

  /**
   * A sturdy config forgets: from whatever state a run left that passed some of its optional extensions over, for
   * whatever reason and however far it got, a calm run ends as a single calm run from the beginning would have.
   */
  lemma SturdyForgets(env: Env, name: string, cfg: Config, n: nat, kept: seq<Act>, st: Cluster)
    requires Fair(env) && WellFormed(cfg) && Sturdy(env, cfg.extensions)
    requires n <= |Plan(name, cfg)| && Thinned(Plan(name, cfg)[..n], kept)
    ensures Run(env, Plan(name, cfg), Run(env, kept, st).0) == Run(env, Plan(name, cfg), st)
  {
    PlanInTwo(name, cfg);
    PlanCoherent(name, cfg);
    BeforePassesNone(name, cfg);
    forall g | g in AllGrantActs(name, cfg.grants)
      ensures IsGrant(g)
    {
      GrantsOnly(name, cfg.grants, g);
    }
    AllForget(env, name, BeforeExtensions(name, cfg), cfg.extensions, AllGrantActs(name, cfg.grants), n, kept, st);
  }

  lemma AllForget(env: Env, name: string, first: seq<Act>, exts: seq<Extension>, grants: seq<Act>, n: nat,
                  kept: seq<Act>, st: Cluster)
    requires Fair(env) && Sturdy(env, exts) && NonePassable(first) && forall g :: g in grants ==> IsGrant(g)
    requires Coherent(first + (AllExtensionActs(name, exts) + grants))
    requires var acts := first + (AllExtensionActs(name, exts) + grants); n <= |acts| && Thinned(acts[..n], kept)
    ensures var acts := first + (AllExtensionActs(name, exts) + grants);
      Run(env, acts, Run(env, kept, st).0) == Run(env, acts, st)
  {
    var rest := AllExtensionActs(name, exts) + grants;
    var k, l := PrefixSplit(first, rest, n, kept);
    var m := Least(n, |first|);
    CoherentParts(first, rest);
    if n < |first| || !Run(env, first, st).1 {
      PartForgets(env, first, rest, m, k, l, st);
    } else {
      assert first[..m] == first;
      NothingThinned(first, k);
      RunAppend(env, k, l, st);
      PassedInFront(env, first, rest, n - m, l, st);
      ExtensionsForget(env, name, exts, grants, n - m, l, Run(env, first, st).0);
    }
  }
}
