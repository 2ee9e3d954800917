/** A document store as the ferret driver's convergence sees it, and what a whole convergence run does to it. */
module FerretModel {
  import opened Strings
  import Converging

  // ----- The store

  type Doc = string

  datatype Index = Index(keys: map<string, int>, unique: bool, name: string)

  /** An index as the server keeps it: its fields in order. */
  datatype Spec = Spec(fields: seq<(string, int)>, unique: bool)

  datatype Coll = Coll(docs: seq<Doc>, indexes: map<string, Spec>)

  /** A database and a collection in it. A database is there as long as one of its collections is. */
  type Namespace = (string, string)

  type Store = map<Namespace, Coll>

  const EMPTY := Coll([], map[])

  function Get(st: Store, ns: Namespace): Coll {
    if ns in st then st[ns] else EMPTY
  }

  function Ordered(keys: map<string, int>, fields: seq<string>): seq<(string, int)>
    requires forall f :: f in fields ==> f in keys
  {
    seq(|fields|, i requires 0 <= i < |fields| => (fields[i], keys[fields[i]]))
  }

  /** Declared keys come in no order: the fields are taken in alphabetical order. */
  function SpecOf(ix: Index): Spec {
    Spec(Ordered(ix.keys, SortedKeys(ix.keys.Keys)), ix.unique)
  }

  /** The name the server derives for an index that has none. */
  function DefaultName(fields: seq<(string, int)>): string {
    Join(seq(|fields|, i requires 0 <= i < |fields| => fields[i].0 + "_" + Itoa(fields[i].1)), "_")
  }

  function IndexName(ix: Index): string {
    if ix.name != "" then ix.name else DefaultName(SpecOf(ix).fields)
  }

  /**
   * What the store's surroundings decide once and for all: the collection names the server accepts, whether an index
   * fits a collection, how many of the rows an ordered insert takes before one is refused, and what a seed file holds
   * (None when it cannot be read or is no array of documents).
   */
  datatype Env = Env(
    valid: Namespace -> bool, fits: (Coll, Spec) -> bool, accepted: (Coll, seq<Doc>) -> nat,
    read: string -> Option<seq<Doc>>)

  // ----- The configuration, and the steps it comes to

  datatype Collection = Collection(name: string, indexes: seq<Index>, seed: string)

  datatype Database = Database(name: string, collections: seq<Collection>)

  datatype Act = Ensure(ns: Namespace) | AddIndex(ns: Namespace, index: Index) | Seed(ns: Namespace, path: string)

  function IndexActs(ns: Namespace, indexes: seq<Index>): (acts: seq<Act>)
    ensures forall a :: a in acts ==> a.ns == ns
  {
    if indexes == [] then [] else [AddIndex(ns, indexes[0])] + IndexActs(ns, indexes[1..])
  }

  function SeedActs(ns: Namespace, seed: string): seq<Act> {
    if seed != "" then [Seed(ns, seed)] else []
  }

  function CollectionActs(ns: Namespace, c: Collection): (acts: seq<Act>)
    ensures forall a :: a in acts ==> a.ns == ns
  {
    [Ensure(ns)] + (IndexActs(ns, c.indexes) + SeedActs(ns, c.seed))
  }

  function CollectionsActs(db: string, cs: seq<Collection>): (acts: seq<Act>)
    ensures forall a :: a in acts ==> a.ns.0 == db
  {
    if cs == [] then [] else CollectionActs((db, cs[0].name), cs[0]) + CollectionsActs(db, cs[1..])
  }

  function Plan(dbs: seq<Database>): (acts: seq<Act>)
    ensures forall a :: a in acts ==> exists d :: d in dbs && d.name == a.ns.0
  {
    if dbs == [] then [] else CollectionsActs(dbs[0].name, dbs[0].collections) + Plan(dbs[1..])
  }

  // ----- Steps and runs

  /** How many of the rows go in. */
  function Taken(env: Env, c: Coll, rows: seq<Doc>): (k: nat)
    ensures k <= |rows|
  {
    if env.accepted(c, rows) < |rows| then env.accepted(c, rows) else |rows|
  }

  /** The store after one step, and whether the step succeeded. */
  function Step(env: Env, st: Store, act: Act): (Store, bool) {
    var c := Get(st, act.ns);
    match act
    case Ensure(ns) =>
      if ns in st then (st, true) else if !env.valid(ns) then (st, false) else (st[ns := EMPTY], true)
    case AddIndex(ns, ix) =>
      var name := IndexName(ix);
      if name in c.indexes then (st, c.indexes[name] == SpecOf(ix))
      else if !env.fits(c, SpecOf(ix)) then (st, false)
      else (st[ns := c.(indexes := c.indexes[name := SpecOf(ix)])], true)
    case Seed(ns, path) =>
      if c.docs != [] then (st, true)
      else if env.read(path).None? then (st, false)
      else
        var rows := env.read(path).value;
        if rows == [] then (st, true)
        else (st[ns := c.(docs := rows[..Taken(env, c, rows)])], Taken(env, c, rows) == |rows|)
  }

  function Stepping(env: Env): Converging.Stepper<Store, Act> {
    (st, act) => Step(env, st, act)
  }

  /** A run stops at the first step that fails. */
  function Run(env: Env, acts: seq<Act>, st: Store): (Store, bool) {
    Converging.Run(Stepping(env), acts, st)
  }

  // ----- A step in force stays in force

  predicate InForce(env: Env, st: Store, act: Act) {
    match act
    case Ensure(ns) => ns in st
    case AddIndex(ns, ix) => IndexName(ix) in Get(st, ns).indexes && Get(st, ns).indexes[IndexName(ix)] == SpecOf(ix)
    case Seed(ns, path) => Get(st, ns).docs != [] || env.read(path) == Some([])
  }

  function Forcing(env: Env): (Store, Act) -> bool {
    (st, act) => InForce(env, st, act)
  }

  lemma StepEstablishes(env: Env, st: Store, act: Act)
    requires Step(env, st, act).1
    ensures InForce(env, Step(env, st, act).0, act)
  {
  }

  lemma InForceAbsorbs(env: Env, st: Store, act: Act)
    requires InForce(env, st, act)
    ensures Step(env, st, act) == (st, true)
  {
  }

  /** Nothing is ever taken away: neither a collection nor an index nor a document. */
  predicate Grows(st: Store, later: Store) {
    forall ns :: ns in st ==> ns in later && CollGrows(st[ns], later[ns])
  }

  predicate CollGrows(c: Coll, later: Coll) {
    && (forall n :: n in c.indexes ==> n in later.indexes && later.indexes[n] == c.indexes[n])
    && (c.docs == [] || later.docs == c.docs)
  }

  lemma StepElsewhere(env: Env, st: Store, act: Act)
    ensures forall ns :: ns != act.ns ==>
      && (ns in Step(env, st, act).0 <==> ns in st)
      && Get(Step(env, st, act).0, ns) == Get(st, ns)
  {
  }

  lemma StepHere(env: Env, st: Store, act: Act)
    ensures act.ns in st ==> act.ns in Step(env, st, act).0
    ensures CollGrows(Get(st, act.ns), Get(Step(env, st, act).0, act.ns))
  {
  }

  lemma StepGrows(env: Env, st: Store, act: Act)
    ensures Grows(st, Step(env, st, act).0)
  {
    var next := Step(env, st, act).0;
    StepElsewhere(env, st, act);
    StepHere(env, st, act);
    forall ns | ns in st
      ensures ns in next && CollGrows(st[ns], next[ns])
    {
      assert Get(st, ns) == st[ns];
    }
  }

  lemma GrowsTransitive(a: Store, b: Store, c: Store)
    requires Grows(a, b) && Grows(b, c)
    ensures Grows(a, c)
  {
  }

  lemma {:induction false} RunGrows(env: Env, acts: seq<Act>, st: Store)
    ensures Grows(st, Run(env, acts, st).0)
  {
    if acts != [] {
      var next := Step(env, st, acts[0]);
      StepGrows(env, st, acts[0]);
      if next.1 {
        RunGrows(env, acts[1..], next.0);
        GrowsTransitive(st, next.0, Run(env, acts[1..], next.0).0);
      }
    }
  }

  lemma GrowthKeeps(env: Env, st: Store, later: Store, act: Act)
    requires Grows(st, later) && InForce(env, st, act)
    ensures InForce(env, later, act)
  {
  }

  lemma ActsStick(env: Env, acts: seq<Act>)
    ensures Converging.Sticks(Stepping(env), Forcing(env), acts)
  {
    forall st, a | a in acts && Stepping(env)(st, a).1
      ensures Forcing(env)(Stepping(env)(st, a).0, a)
    {
      StepEstablishes(env, st, a);
    }
    forall st, a | a in acts && Forcing(env)(st, a)
      ensures Stepping(env)(st, a) == (st, true)
    {
      InForceAbsorbs(env, st, a);
    }
    forall st, a, b | a in acts && b in acts && Forcing(env)(st, b)
      ensures Forcing(env)(Stepping(env)(st, a).0, b)
    {
      StepGrows(env, st, a);
      GrowthKeeps(env, st, Step(env, st, a).0, b);
    }
  }

  // ----- Whole runs

  /** A run that was cut short and started again ends like one that never was interrupted, failing where it fails. */
  lemma ResumeIsUninterrupted(env: Env, done: seq<Act>, rest: seq<Act>, st: Store)
    requires Run(env, done, st).1
    ensures Run(env, done + rest, Run(env, done, st).0) == Run(env, done + rest, st)
  {
    ActsStick(env, done + rest);
    Converging.ResumeIsUninterrupted(Stepping(env), Forcing(env), done, rest, st);
  }

  /** Any number of runs with nothing dropped in between is one run. */
  lemma ManyRunsAreOne(env: Env, n: nat, acts: seq<Act>, st: Store)
    requires n > 0
    ensures Converging.Times(Stepping(env), n, acts, st) == Run(env, acts, st)
  {
    ActsStick(env, acts);
    Converging.ManyRunsAreOne(Stepping(env), Forcing(env), n, acts, st);
  }

  lemma InEither(a: seq<Act>, b: seq<Act>, act: Act)
    ensures act in a + b <==> act in a || act in b
  {
  }

  lemma {:induction false} IndexIn(ns: Namespace, indexes: seq<Index>, ix: Index)
    requires ix in indexes
    ensures AddIndex(ns, ix) in IndexActs(ns, indexes)
  {
    InEither([AddIndex(ns, indexes[0])], IndexActs(ns, indexes[1..]), AddIndex(ns, ix));
    if ix != indexes[0] {
      IndexIn(ns, indexes[1..], ix);
    }
  }

  lemma {:induction false} CollectionIn(db: string, cs: seq<Collection>, c: Collection, act: Act)
    requires c in cs && act in CollectionActs((db, c.name), c)
    ensures act in CollectionsActs(db, cs)
  {
    InEither(CollectionActs((db, cs[0].name), cs[0]), CollectionsActs(db, cs[1..]), act);
    if c != cs[0] {
      CollectionIn(db, cs[1..], c, act);
    }
  }

  lemma {:induction false} DatabaseIn(dbs: seq<Database>, d: Database, act: Act)
    requires d in dbs && act in CollectionsActs(d.name, d.collections)
    ensures act in Plan(dbs)
  {
    InEither(CollectionsActs(dbs[0].name, dbs[0].collections), Plan(dbs[1..]), act);
    if d != dbs[0] {
      DatabaseIn(dbs[1..], d, act);
    }
  }

  lemma ActEnforced(env: Env, dbs: seq<Database>, st: Store, d: Database, c: Collection, act: Act)
    requires Run(env, Plan(dbs), st).1 && d in dbs && c in d.collections && act in CollectionActs((d.name, c.name), c)
    ensures InForce(env, Run(env, Plan(dbs), st).0, act)
  {
    CollectionIn(d.name, d.collections, c, act);
    DatabaseIn(dbs, d, act);
    ActsStick(env, Plan(dbs));
    Converging.RunEstablishes(Stepping(env), Forcing(env), Plan(dbs), Plan(dbs), st);
    assert Forcing(env)(Run(env, Plan(dbs), st).0, act);
  }

  /** A collection with its indexes, and with documents if it declares a seed that has any. */
  predicate AsDeclared(env: Env, st: Store, ns: Namespace, c: Collection) {
    && ns in st
    && (forall ix :: ix in c.indexes ==> IndexName(ix) in st[ns].indexes && st[ns].indexes[IndexName(ix)] == SpecOf(ix))
    && (c.seed != "" ==> st[ns].docs != [] || env.read(c.seed) == Some([]))
  }

  /** A run that succeeds leaves every collection as it is declared. */
  lemma ConvergedAsDeclared(env: Env, dbs: seq<Database>, st: Store, d: Database, c: Collection)
    requires Run(env, Plan(dbs), st).1 && d in dbs && c in d.collections
    ensures AsDeclared(env, Run(env, Plan(dbs), st).0, (d.name, c.name), c)
  {
    var ns := (d.name, c.name);
    var end := Run(env, Plan(dbs), st).0;
    var later := IndexActs(ns, c.indexes) + SeedActs(ns, c.seed);
    InEither([Ensure(ns)], later, Ensure(ns));
    ActEnforced(env, dbs, st, d, c, Ensure(ns));
    forall ix | ix in c.indexes
      ensures IndexName(ix) in end[ns].indexes && end[ns].indexes[IndexName(ix)] == SpecOf(ix)
    {
      IndexIn(ns, c.indexes, ix);
      InEither(IndexActs(ns, c.indexes), SeedActs(ns, c.seed), AddIndex(ns, ix));
      InEither([Ensure(ns)], later, AddIndex(ns, ix));
      ActEnforced(env, dbs, st, d, c, AddIndex(ns, ix));
    }
    if c.seed != "" {
      InEither(IndexActs(ns, c.indexes), SeedActs(ns, c.seed), Seed(ns, c.seed));
      InEither([Ensure(ns)], later, Seed(ns, c.seed));
      ActEnforced(env, dbs, st, d, c, Seed(ns, c.seed));
    }
  }

  /** A run touches no collection it does not name. */
  lemma {:induction false} OthersUntouched(env: Env, acts: seq<Act>, st: Store, ns: Namespace)
    requires forall a :: a in acts ==> a.ns != ns
    ensures ns in Run(env, acts, st).0 <==> ns in st
    ensures ns in st ==> Run(env, acts, st).0[ns] == st[ns]
  {
    if acts != [] {
      var next := Step(env, st, acts[0]);
      assert acts[0] in acts;
      if next.1 {
        OthersUntouched(env, acts[1..], next.0, ns);
      }
    }
  }

  /** Documents declared for a collection, or the first few of them. */
  predicate IsSeedOf(env: Env, act: Act, ns: Namespace, docs: seq<Doc>) {
    act.ns == ns && act.Seed? && env.read(act.path).Some? && docs <= env.read(act.path).value
  }

  /** Documents go only into a collection that was empty, and only ones declared for it. */
  lemma {:induction false} SeedsOnlyEmpty(env: Env, acts: seq<Act>, st: Store, ns: Namespace)
    requires Get(Run(env, acts, st).0, ns).docs != Get(st, ns).docs
    ensures Get(st, ns).docs == []
    ensures exists a :: a in acts && IsSeedOf(env, a, ns, Get(Run(env, acts, st).0, ns).docs)
  {
    var next := Step(env, st, acts[0]);
    assert acts[0] in acts;
    StepElsewhere(env, st, acts[0]);
    if Get(next.0, ns).docs != Get(st, ns).docs {
      StepSeeds(env, st, acts[0], ns);
      if next.1 {
        RunGrows(env, acts[1..], next.0);
      }
    } else {
      SeedsOnlyEmpty(env, acts[1..], next.0, ns);
      var a :| a in acts[1..] && IsSeedOf(env, a, ns, Get(Run(env, acts, st).0, ns).docs);
    }
  }

  lemma StepSeeds(env: Env, st: Store, act: Act, ns: Namespace)
    requires Get(Step(env, st, act).0, ns).docs != Get(st, ns).docs
    ensures Get(st, ns).docs == [] && IsSeedOf(env, act, ns, Get(Step(env, st, act).0, ns).docs)
    ensures ns in Step(env, st, act).0
  {
  }

  // ----- Runs that fail

  /** An insert that stops part of the way: some rows are in, one was refused. */
  predicate CutShort(env: Env, st: Store, act: Act) {
    && act.Seed? && Get(st, act.ns).docs == [] && env.read(act.path).Some?
    && 0 < Taken(env, Get(st, act.ns), env.read(act.path).value) < |env.read(act.path).value|
  }

  /**
   * After a failed run the next one fails in the same way and changes nothing, exactly as idempotence promises, unless
   * a seed was cut short: then the next run takes the part that went in for the whole, and goes on behind it.
   */
  lemma NextRunAfterFailure(env: Env, done: seq<Act>, act: Act, rest: seq<Act>, st: Store)
    requires Run(env, done, st).1 && !Step(env, Run(env, done, st).0, act).1
    ensures var plan := done + ([act] + rest);
      var cut := Run(env, done, st).0;
      var end := Step(env, cut, act).0;
      && Run(env, plan, st) == (end, false)
      && Run(env, plan, end) == if CutShort(env, cut, act) then Run(env, rest, end) else (end, false)
  {
    var tail := [act] + rest;
    var cut := Run(env, done, st).0;
    var end := Step(env, cut, act).0;
    assert tail[0] == act && tail[1..] == rest;
    Converging.RunAppend(Stepping(env), done, tail, st);
    ActsStick(env, done);
    Converging.RunEstablishes(Stepping(env), Forcing(env), done, done, st);
    StepGrows(env, cut, act);
    forall a | a in done
      ensures Forcing(env)(end, a)
    {
      GrowthKeeps(env, cut, end, a);
    }
    Converging.RunAbsorbs(Stepping(env), Forcing(env), done, done, end);
    Converging.RunAppend(Stepping(env), done, tail, end);
    StepAgain(env, cut, act);
  }

  lemma StepAgain(env: Env, st: Store, act: Act)
    requires !Step(env, st, act).1
    ensures var end := Step(env, st, act).0; Step(env, end, act) == (end, CutShort(env, st, act))
  {
    var end := Step(env, st, act).0;
    if CutShort(env, st, act) {
      InForceAbsorbs(env, end, act);
    } else if act.Seed? && env.read(act.path).Some? {
      var c := Get(st, act.ns);
      var rows := env.read(act.path).value;
      assert Taken(env, c, rows) == 0 && rows[..0] == c.docs;
      assert Get(end, act.ns) == c && end == st[act.ns := c] && end[act.ns := c] == end;
      assert c.(docs := rows[..0]) == c;
    }
  }

  /** The rows that were refused are never inserted by any later run of any plan. */
  lemma CutShortForever(env: Env, st: Store, act: Act, acts: seq<Act>)
    requires CutShort(env, st, act)
    ensures var rows := env.read(act.path).value;
      Get(Run(env, acts, Step(env, st, act).0).0, act.ns).docs == rows[..Taken(env, Get(st, act.ns), rows)]
  {
    RunGrows(env, acts, Step(env, st, act).0);
  }
}
