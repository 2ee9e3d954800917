/** The ferret driver: convergence against a live store, and what Objects lists and Prune drops. */
module Ferret {
  import opened Strings
  import opened FerretModel
  import Converging

  const NAMESPACE_EXISTS := 48
  const OTHER_ERROR := 1

  // ----- The inventory

  datatype Kind = KindDatabase | KindCollection

  datatype Object = Object(kind: Kind, name: string)

  function CollectionObjects(db: string, cs: seq<Collection>): seq<Object> {
    if cs == [] then []
    else CollectionObjects(db, cs[..|cs| - 1]) + [Object(KindCollection, db + "." + cs[|cs| - 1].name)]
  }

  function ObjectsOf(dbs: seq<Database>): seq<Object> {
    if dbs == [] then []
    else
      var last := dbs[|dbs| - 1];
      ObjectsOf(dbs[..|dbs| - 1]) + [Object(KindDatabase, last.name)] + CollectionObjects(last.name, last.collections)
  }

  method Objects(dbs: seq<Database>) returns (objs: seq<Object>)
    ensures objs == ObjectsOf(dbs)
  {
    objs := [];
    for i := 0 to |dbs|
      invariant objs == ObjectsOf(dbs[..i])
    {
      assert dbs[..i + 1][..i] == dbs[..i];
      objs := objs + [Object(KindDatabase, dbs[i].name)];
      ghost var before := objs;
      var cs := dbs[i].collections;
      for j := 0 to |cs|
        invariant objs == before + CollectionObjects(dbs[i].name, cs[..j])
      {
        assert cs[..j + 1][..j] == cs[..j];
        objs := objs + [Object(KindCollection, dbs[i].name + "." + cs[j].name)];
      }
      assert cs[..|cs|] == cs;
    }
    assert dbs[..|dbs|] == dbs;
  }

  // ----- Object names

  function SplitAt(name: string, i: nat): Option<Namespace>
    requires i <= |name|
    decreases |name| - i
  {
    if i == |name| then None else if name[i] == '.' then Some((name[..i], name[i + 1..])) else SplitAt(name, i + 1)
  }

  method SplitName(name: string) returns (r: Option<Namespace>)
    ensures r == SplitCollection(name)
  {
    for i := 0 to |name|
      invariant SplitCollection(name) == SplitAt(name, i)
    {
      if name[i] == '.' {
        return Some((name[..i], name[i + 1..]));
      }
    }
    return None;
  }

  /** The database and collection of an object's name: it is cut at its first dot. */
  function SplitCollection(name: string): (r: Option<Namespace>)
  {
    SplitAt(name, 0)
  }

  lemma {:induction false} SplitAtFirst(name: string, i: nat, k: nat)
    requires i <= k < |name| && name[k] == '.' && '.' !in name[i..k]
    ensures SplitAt(name, i) == Some((name[..k], name[k + 1..]))
    decreases k - i
  {
    if i < k {
      assert name[i] == name[i..k][0];
      assert name[i + 1..k] == name[i..k][1..];
      SplitAtFirst(name, i + 1, k);
    }
  }

  /** The part of a database name before its first dot. */
  function Stem(db: string): (s: string)
    ensures s <= db && '.' !in s && (s == db <==> '.' !in db)
    ensures s != db ==> db[|s|] == '.'
  {
    if db == "" || db[0] == '.' then "" else [db[0]] + Stem(db[1..])
  }

  /** A collection's object decodes to a collection of the stem: to itself exactly when its database has no dot. */
  lemma DecodesToStem(db: string, coll: string)
    ensures SplitCollection(db + "." + coll).Some?
    ensures SplitCollection(db + "." + coll).value.0 == Stem(db)
    ensures SplitCollection(db + "." + coll) == Some((db, coll)) <==> '.' !in db
  {
    var name := db + "." + coll;
    var k := |Stem(db)|;
    assert name[..k] == Stem(db) && name[0..k] == Stem(db);
    SplitAtFirst(name, 0, k);
    if '.' !in db {
      assert name[k + 1..] == coll;
    }
  }

  // ----- What Prune drops

  /** Dropping the object drops this collection. */
  predicate Hits(o: Object, ns: Namespace) {
    match o.kind
    case KindDatabase => ns.0 == o.name
    case KindCollection => SplitCollection(o.name) == Some(ns)
  }

  function Pruned(removed: seq<Object>, st: Store): Store {
    if removed == [] then st
    else
      var before := Pruned(removed[..|removed| - 1], st);
      map ns | ns in before && !Hits(removed[|removed| - 1], ns) :: before[ns]
  }

  /** Whatever the order: gone is what some object hits, and everything else is as it was. */
  lemma {:induction false} PrunedIs(removed: seq<Object>, st: Store)
    ensures Pruned(removed, st) == map ns | ns in st && !HitBy(removed, ns) :: st[ns]
  {
    if removed != [] {
      PrunedIs(removed[..|removed| - 1], st);
      var last := removed[|removed| - 1];
      forall ns
        ensures HitBy(removed, ns) <==> HitBy(removed[..|removed| - 1], ns) || Hits(last, ns)
      {
        assert last in removed;
        assert forall o :: o in removed <==> o in removed[..|removed| - 1] || o == last;
      }
    }
  }

  /** Whether Prune sends a drop for it at all: a collection whose name cannot be decoded is passed over. */
  predicate Sent(o: Object) {
    o.kind.KindCollection? ==> SplitCollection(o.name).Some?
  }

  /** The place of the first drop, from i on, that is sent and fails; the end of the list if none does. */
  function FirstFailure(removed: seq<Object>, fails: nat -> bool, i: nat): (k: nat)
    requires i <= |removed|
    ensures i <= k <= |removed|
    ensures forall j: nat :: i <= j < k ==> !(Sent(removed[j]) && fails(j))
    ensures k < |removed| ==> Sent(removed[k]) && fails(k)
    decreases |removed| - i
  {
    if i == |removed| || (Sent(removed[i]) && fails(i)) then i else FirstFailure(removed, fails, i + 1)
  }

  predicate HitBy(removed: seq<Object>, ns: Namespace) {
    exists o :: o in removed && Hits(o, ns)
  }

  // ----- Convergence and pruning

  /** A connection to the store. */
  class Client {
    var st: Store
    const env: Env

    constructor (st: Store, env: Env)
      ensures this.st == st && this.env == env
    {
      this.st, this.env := st, env;
    }

    /** The server's reply: 0 or an error code. */
    method CreateCollection(ns: Namespace) returns (code: int)
      modifies this
      ensures code == NAMESPACE_EXISTS <==> ns in old(st)
      ensures code == 0 <==> ns !in old(st) && env.valid(ns)
      ensures st == if code == 0 then old(st)[ns := EMPTY] else old(st)
    {
      if ns in st {
        return NAMESPACE_EXISTS;
      }
      if !env.valid(ns) {
        return OTHER_ERROR;
      }
      st := st[ns := EMPTY];
      return 0;
    }

    method EnsureCollection(ns: Namespace) returns (ok: bool)
      modifies this
      ensures (st, ok) == Step(env, old(st), Ensure(ns))
    {
      var code := CreateCollection(ns);
      ok := code == 0 || code == NAMESPACE_EXISTS;
    }

    method CreateOne(ns: Namespace, name: string, spec: Spec) returns (ok: bool)
      modifies this
      ensures var c := Get(old(st), ns);
        if name in c.indexes then st == old(st) && ok == (c.indexes[name] == spec)
        else ok == env.fits(c, spec)
             && st == if ok then old(st)[ns := c.(indexes := c.indexes[name := spec])] else old(st)
    {
      var c := Get(st, ns);
      if name in c.indexes {
        return c.indexes[name] == spec;
      }
      if !env.fits(c, spec) {
        return false;
      }
      st := st[ns := c.(indexes := c.indexes[name := spec])];
      return true;
    }

    method EnsureIndex(ns: Namespace, ix: Index) returns (ok: bool)
      modifies this
      ensures (st, ok) == Step(env, old(st), AddIndex(ns, ix))
    {
      var fields := SortedKeys(ix.keys.Keys);
      var keys: seq<(string, int)> := [];
      for i := 0 to |fields|
        invariant keys == Ordered(ix.keys, fields[..i])
      {
        keys := keys + [(fields[i], ix.keys[fields[i]])];
      }
      assert fields[..|fields|] == fields;
      var name := if ix.name != "" then ix.name else DefaultName(keys);
      ok := CreateOne(ns, name, Spec(keys, ix.unique));
    }

    /** An ordered insert: the rows before the first refused one stay in. */
    method InsertMany(ns: Namespace, rows: seq<Doc>) returns (ok: bool)
      modifies this
      ensures var c := Get(old(st), ns);
        var k := Taken(env, c, rows);
        st == old(st)[ns := c.(docs := c.docs + rows[..k])] && ok == (k == |rows|)
    {
      var c := Get(st, ns);
      var k := Taken(env, c, rows);
      st := st[ns := c.(docs := c.docs + rows[..k])];
      ok := k == |rows|;
    }

    method SeedCollection(ns: Namespace, path: string) returns (ok: bool)
      modifies this
      ensures (st, ok) == Step(env, old(st), Seed(ns, path))
    {
      if |Get(st, ns).docs| > 0 {
        return true;
      }
      var docs := env.read(path);
      if docs.None? {
        return false;
      }
      if |docs.value| == 0 {
        return true;
      }
      ok := InsertMany(ns, docs.value);
      ghost var taken := docs.value[..Taken(env, Get(old(st), ns), docs.value)];
      assert [] + taken == taken;
    }

    method ConvergeIndexes(ns: Namespace, indexes: seq<Index>) returns (ok: bool)
      modifies this
      ensures (st, ok) == Run(env, IndexActs(ns, indexes), old(st))
    {
      var i := 0;
      while i < |indexes|
        invariant 0 <= i <= |indexes|
        invariant Run(env, IndexActs(ns, indexes), old(st)) == Run(env, IndexActs(ns, indexes[i..]), st)
      {
        assert indexes[i..][1..] == indexes[i + 1..];
        Converging.RunAppend(Stepping(env), [AddIndex(ns, indexes[i])], IndexActs(ns, indexes[i + 1..]), st);
        Converging.RunOne(Stepping(env), AddIndex(ns, indexes[i]), st);
        ok := EnsureIndex(ns, indexes[i]);
        if !ok {
          return false;
        }
        i := i + 1;
      }
      return true;
    }

    method ConvergeCollection(ns: Namespace, c: Collection) returns (ok: bool)
      modifies this
      ensures (st, ok) == Run(env, CollectionActs(ns, c), old(st))
    {
      var indexes, seeds := IndexActs(ns, c.indexes), SeedActs(ns, c.seed);
      Converging.RunAppend(Stepping(env), [Ensure(ns)], indexes + seeds, st);
      Converging.RunOne(Stepping(env), Ensure(ns), st);
      ok := EnsureCollection(ns);
      if !ok {
        return false;
      }
      Converging.RunAppend(Stepping(env), indexes, seeds, st);
      ok := ConvergeIndexes(ns, c.indexes);
      if !ok {
        return false;
      }
      if c.seed != "" {
        Converging.RunOne(Stepping(env), Seed(ns, c.seed), st);
        ok := SeedCollection(ns, c.seed);
      }
    }

    method ConvergeDatabase(db: string, cs: seq<Collection>) returns (ok: bool)
      modifies this
      ensures (st, ok) == Run(env, CollectionsActs(db, cs), old(st))
    {
      var i := 0;
      while i < |cs|
        invariant 0 <= i <= |cs|
        invariant Run(env, CollectionsActs(db, cs), old(st)) == Run(env, CollectionsActs(db, cs[i..]), st)
      {
        assert cs[i..][1..] == cs[i + 1..];
        Converging.RunAppend(Stepping(env), CollectionActs((db, cs[i].name), cs[i]), CollectionsActs(db, cs[i + 1..]), st);
        ok := ConvergeCollection((db, cs[i].name), cs[i]);
        if !ok {
          return false;
        }
        i := i + 1;
      }
      return true;
    }

    method Converge(dbs: seq<Database>) returns (ok: bool)
      modifies this
      ensures (st, ok) == Run(env, Plan(dbs), old(st))
    {
      if |dbs| == 0 {
        return true;
      }
      var i := 0;
      while i < |dbs|
        invariant 0 <= i <= |dbs|
        invariant Run(env, Plan(dbs), old(st)) == Run(env, Plan(dbs[i..]), st)
      {
        assert dbs[i..][1..] == dbs[i + 1..];
        Converging.RunAppend(Stepping(env), CollectionsActs(dbs[i].name, dbs[i].collections), Plan(dbs[i + 1..]), st);
        ok := ConvergeDatabase(dbs[i].name, dbs[i].collections);
        if !ok {
          return false;
        }
        i := i + 1;
      }
      return true;
    }

    /**
     * Collections and databases are dropped in the order given, up to the first drop that fails; what is not there is
     * no error.
     */
    method Prune(removed: seq<Object>, fails: nat -> bool) returns (ok: bool)
      modifies this
      ensures var k := FirstFailure(removed, fails, 0);
        st == Pruned(removed[..k], old(st)) && ok == (k == |removed|)
    {
      for i := 0 to |removed|
        invariant FirstFailure(removed, fails, 0) == FirstFailure(removed, fails, i)
        invariant st == Pruned(removed[..i], old(st))
      {
        assert removed[..i + 1][..i] == removed[..i];
        match removed[i].kind
        case KindCollection =>
          var ns := SplitName(removed[i].name);
          if ns.Some? {
            if fails(i) {
              return false;
            }
            st := map n | n in st && n != ns.value :: st[n];
          }
        case KindDatabase =>
          if fails(i) {
            return false;
          }
          st := map n | n in st && n.0 != removed[i].name :: st[n];
      }
      assert removed[..|removed|] == removed;
      ok := true;
    }
  }

  // ----- Destroying what was created

  function DropOrder(dbs: seq<Database>): seq<Object> {
    Converging.Reversed(ObjectsOf(dbs))
  }

  predicate DeclaresDb(dbs: seq<Database>, name: string) {
    exists d :: d in dbs && d.name == name
  }

  lemma {:induction false} CollectionObjectsAre(db: string, cs: seq<Collection>, o: Object)
    ensures o in CollectionObjects(db, cs) <==> exists c :: c in cs && o == Object(KindCollection, db + "." + c.name)
  {
    if cs != [] {
      CollectionObjectsAre(db, cs[..|cs| - 1], o);
      assert forall c :: c in cs <==> c in cs[..|cs| - 1] || c == cs[|cs| - 1];
    }
  }

  predicate ListedIn(d: Database, o: Object) {
    o == Object(KindDatabase, d.name) || o in CollectionObjects(d.name, d.collections)
  }

  lemma {:induction false} ObjectsAre(dbs: seq<Database>, o: Object)
    ensures o in ObjectsOf(dbs) <==> exists d :: d in dbs && ListedIn(d, o)
  {
    if dbs != [] {
      var last := dbs[|dbs| - 1];
      ObjectsAre(dbs[..|dbs| - 1], o);
      assert o in ObjectsOf(dbs) <==> o in ObjectsOf(dbs[..|dbs| - 1]) || ListedIn(last, o);
      assert forall d :: d in dbs <==> d in dbs[..|dbs| - 1] || d == dbs[|dbs| - 1];
    }
  }

  /** A collection's object that Prune takes for a collection of a database nobody declared. */
  predicate Stray(dbs: seq<Database>, d: Database, c: Collection) {
    d in dbs && c in d.collections && !DeclaresDb(dbs, Stem(d.name))
  }

  function Undeclared(dbs: seq<Database>, st: Store): Store {
    map ns | ns in st && !DeclaresDb(dbs, ns.0) :: st[ns]
  }

  lemma DestroyHits(dbs: seq<Database>, ns: Namespace)
    ensures HitBy(DropOrder(dbs), ns) <==>
      DeclaresDb(dbs, ns.0)
      || exists d, c :: Stray(dbs, d, c) && SplitCollection(d.name + "." + c.name) == Some(ns)
  {
    if HitBy(DropOrder(dbs), ns) {
      var o :| o in DropOrder(dbs) && Hits(o, ns);
      ObjectsAre(dbs, o);
      var d :| d in dbs && ListedIn(d, o);
      if o != Object(KindDatabase, d.name) {
        CollectionObjectsAre(d.name, d.collections, o);
        var c :| c in d.collections && o == Object(KindCollection, d.name + "." + c.name);
        DecodesToStem(d.name, c.name);
        if !DeclaresDb(dbs, Stem(d.name)) {
          assert Stray(dbs, d, c);
        }
      }
    }
    if DeclaresDb(dbs, ns.0) {
      var d :| d in dbs && d.name == ns.0;
      var o := Object(KindDatabase, d.name);
      assert ListedIn(d, o);
      ObjectsAre(dbs, o);
      assert Hits(o, ns);
    }
    forall d, c | Stray(dbs, d, c) && SplitCollection(d.name + "." + c.name) == Some(ns)
      ensures HitBy(DropOrder(dbs), ns)
    {
      var o := Object(KindCollection, d.name + "." + c.name);
      CollectionObjectsAre(d.name, d.collections, o);
      assert ListedIn(d, o);
      ObjectsAre(dbs, o);
      assert Hits(o, ns);
    }
  }

  /**
   * Destroying drops exactly the declared databases with all they hold, whatever else the store holds, if and only if
   * no collection's name is cut inside a dotted database name, at the name of a database nobody declared.
   */
  lemma DestroyExactly(dbs: seq<Database>)
    ensures (forall st :: Pruned(DropOrder(dbs), st) == Undeclared(dbs, st))
      <==> forall d, c :: d in dbs && c in d.collections ==> '.' !in d.name || DeclaresDb(dbs, Stem(d.name))
  {
    if exists d, c :: Stray(dbs, d, c) {
      var d, c :| Stray(dbs, d, c);
      StrayDrops(dbs, d, c);
      assert '.' in d.name by {
        assert DeclaresDb(dbs, d.name);
      }
    } else {
      forall st
        ensures Pruned(DropOrder(dbs), st) == Undeclared(dbs, st)
      {
        NoneStrayDrops(dbs, st);
      }
      forall d, c | d in dbs && c in d.collections
        ensures '.' !in d.name || DeclaresDb(dbs, Stem(d.name))
      {
        assert !Stray(dbs, d, c);
      }
    }
  }

  lemma NoneStrayDrops(dbs: seq<Database>, st: Store)
    requires forall d, c :: !Stray(dbs, d, c)
    ensures Pruned(DropOrder(dbs), st) == Undeclared(dbs, st)
  {
    PrunedIs(DropOrder(dbs), st);
    forall ns | ns in st
      ensures HitBy(DropOrder(dbs), ns) <==> DeclaresDb(dbs, ns.0)
    {
      DestroyHits(dbs, ns);
    }
  }

  lemma StrayDrops(dbs: seq<Database>, d: Database, c: Collection)
    requires Stray(dbs, d, c)
    ensures exists st :: Pruned(DropOrder(dbs), st) != Undeclared(dbs, st)
  {
    DecodesToStem(d.name, c.name);
    var ns := SplitCollection(d.name + "." + c.name).value;
    DestroyHits(dbs, ns);
    var st: Store := map[ns := EMPTY];
    PrunedIs(DropOrder(dbs), st);
    assert ns !in Pruned(DropOrder(dbs), st) && ns in Undeclared(dbs, st);
  }

  /** Destroying after any run, finished or failed, leaves the store as it was without the declared databases. */
  lemma DestroyUndoesCreate(env: Env, dbs: seq<Database>, st: Store)
    requires forall d, c :: d in dbs && c in d.collections ==> '.' !in d.name || DeclaresDb(dbs, Stem(d.name))
    ensures Pruned(DropOrder(dbs), Run(env, Plan(dbs), st).0) == Undeclared(dbs, st)
  {
    var end := Run(env, Plan(dbs), st).0;
    DestroyExactly(dbs);
    forall ns: Namespace | !DeclaresDb(dbs, ns.0)
      ensures (ns in end <==> ns in st) && (ns in st ==> end[ns] == st[ns])
    {
      OthersUntouched(env, Plan(dbs), st, ns);
    }
    assert Undeclared(dbs, end) == Undeclared(dbs, st);
  }
}
