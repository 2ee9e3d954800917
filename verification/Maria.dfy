/** The mariadb driver: convergence statement by statement, and what Objects lists and Prune drops. */
module Maria {
  import opened Strings
  import opened Sequences
  import opened SqlText
  import opened MariaModel
  import Converging

  // ----- The text of accounts and grant targets

  function SqlIdent(s: string): string {
    Enclosed(s, '`')
  }

  function AccountText(account: Account): string {
    SqlLit(account.0) + "@" + SqlLit(account.1)
  }

  function TargetPart(name: string): string {
    if name != "*" && name != "" then SqlIdent(name) else "*"
  }

  function GrantTarget(db: string, table: string): string {
    TargetPart(db) + "." + TargetPart(table)
  }

  /** An account is read back as it was declared, quotes and all, as long as it holds no backslash. */
  lemma AccountReads(account: Account)
    requires BackslashFree(account.0) && BackslashFree(account.1)
    ensures Lex(AccountText(account), MARIADB) == Some([Lit(account.0), Sym('@'), Lit(account.1)])
  {
    LitAlone(account.1, MARIADB);
    var host := "@" + SqlLit(account.1);
    assert host[1..] == SqlLit(account.1);
    assert Lex(host, MARIADB) == Cons(Sym('@'), Some([Lit(account.1)]));
    LitRoundTrip(account.0, MARIADB, host);
    assert SqlLit(account.0) + host == AccountText(account);
    assert [Lit(account.0)] + ([Sym('@')] + [Lit(account.1)]) == [Lit(account.0), Sym('@'), Lit(account.1)];
  }

  /** A name, or the wildcard, which is what an empty name means too. */
  function PartToken(name: string): Token {
    if name == "*" || name == "" then Sym('*') else Ident(name)
  }

  predicate ShortEnough(name: string) {
    |name| <= MARIADB.nameLimit
  }

  lemma PartReads(name: string, rest: string)
    requires rest == "" || rest[0] == '.'
    ensures Lex(TargetPart(name) + rest, MARIADB) ==
      if ShortEnough(name) then Cons(PartToken(name), Lex(rest, MARIADB)) else None
  {
    if name == "*" || name == "" {
      assert ("*" + rest)[1..] == rest;
    } else {
      IdentRoundTrip(name, MARIADB, rest);
    }
  }

  /**
   * The target of a grant is read back as its database and table, whatever characters they hold, exactly if neither
   * name is too long.
   */
  lemma TargetReads(db: string, table: string)
    ensures Lex(GrantTarget(db, table), MARIADB) ==
      if ShortEnough(db) && ShortEnough(table) then Some([PartToken(db), Sym('.'), PartToken(table)]) else None
  {
    var tail := "." + TargetPart(table);
    PartAlone(table);
    DotReads(TargetPart(table));
    PartReads(db, tail);
    Associative(TargetPart(db), ".", TargetPart(table));
    assert [PartToken(db)] + ([Sym('.')] + [PartToken(table)]) == [PartToken(db), Sym('.'), PartToken(table)];
  }

  lemma PartAlone(name: string)
    ensures Lex(TargetPart(name), MARIADB) == if ShortEnough(name) then Some([PartToken(name)]) else None
  {
    PartReads(name, "");
    assert TargetPart(name) + "" == TargetPart(name) && [PartToken(name)] + [] == [PartToken(name)];
  }

  lemma DotReads(t: string)
    ensures Lex("." + t, MARIADB) == Cons(Sym('.'), Lex(t, MARIADB))
  {
    assert ("." + t)[1..] == t && ("." + t)[0] == '.';
    assert First("." + t, MARIADB) == Some((Sym('.'), t));
  }

  // ----- The inventory

  datatype Kind = KindDatabase | KindUser

  datatype Object = Object(kind: Kind, name: string)

  function UserObject(u: User): Object {
    Object(KindUser, u.name + "@" + u.host)
  }

  function ObjectsOf(name: string, users: seq<User>): (objs: seq<Object>)
    ensures |objs| == 1 + |users|
    ensures objs[0] == Object(KindDatabase, name)
    ensures forall i :: 0 <= i < |users| ==> objs[1 + i] == UserObject(users[i])
  {
    [Object(KindDatabase, name)] + seq(|users|, i requires 0 <= i < |users| => UserObject(users[i]))
  }

  method Objects(name: string, cfg: Config) returns (objs: seq<Object>)
    ensures objs == ObjectsOf(name, cfg.users)
  {
    objs := [Object(KindDatabase, name)];
    for i := 0 to |cfg.users|
      invariant |objs| == 1 + i && objs[0] == Object(KindDatabase, name)
      invariant forall k :: 0 <= k < i ==> objs[1 + k] == UserObject(cfg.users[k])
    {
      objs := objs + [UserObject(cfg.users[i])];
    }
  }

  /** The user and host of an object's name: it is cut at its last '@'. */
  function SplitUser(s: string): Option<Account> {
    SplitBefore(s, |s|)
  }

  function SplitBefore(s: string, n: nat): Option<Account>
    requires n <= |s|
  {
    if n == 0 then None else if s[n - 1] == '@' then Some((s[..n - 1], s[n..])) else SplitBefore(s, n - 1)
  }

  method SplitName(s: string) returns (r: Option<Account>)
    ensures r == SplitUser(s)
  {
    var i := |s| - 1;
    while i >= 0
      invariant -1 <= i < |s|
      invariant SplitUser(s) == SplitBefore(s, i + 1)
    {
      if s[i] == '@' {
        return Some((s[..i], s[i + 1..]));
      }
      i := i - 1;
    }
    return None;
  }

  lemma {:induction false} SplitLast(s: string, n: nat, k: nat)
    requires k < n <= |s| && s[k] == '@' && forall j :: k < j < n ==> s[j] != '@'
    ensures SplitBefore(s, n) == Some((s[..k], s[k + 1..]))
  {
    if k < n - 1 {
      SplitLast(s, n - 1, k);
    }
  }

  lemma {:induction false} SplitNotAt(s: string, n: nat, k: nat, j: nat)
    requires k < j < n <= |s| && s[j] == '@'
    ensures SplitBefore(s, n).Some? && |SplitBefore(s, n).value.0| >= j
  {
    if s[n - 1] != '@' {
      SplitNotAt(s, n - 1, k, j);
    }
  }

  /** An account's object decodes to the account exactly when its host has no '@' (the user may have some). */
  lemma DecodesExactly(u: User)
    ensures SplitUser(UserObject(u).name) == Some(u.Account()) <==> '@' !in u.host
  {
    var s := u.name + "@" + u.host;
    var k := |u.name|;
    if '@' in u.host {
      var j :| 0 <= j < |u.host| && u.host[j] == '@';
      SplitNotAt(s, |s|, k, k + 1 + j);
    } else {
      forall j | k < j < |s|
        ensures s[j] != '@'
      {
        assert s[j] == u.host[j - k - 1];
      }
      SplitLast(s, |s|, k);
      assert s[..k] == u.name && s[k + 1..] == u.host;
    }
  }

  /** What is cut off as the host never holds an '@'. */
  lemma {:induction false} HostIsClean(s: string, n: nat)
    requires n <= |s| && '@' !in s[n..] && SplitBefore(s, n).Some?
    ensures '@' !in SplitBefore(s, n).value.1
  {
    if s[n - 1] != '@' {
      assert s[n - 1..] == [s[n - 1]] + s[n..];
      HostIsClean(s, n - 1);
    }
  }

  // ----- What Prune drops

  /** Objects the server refuses to drop. */
  type Refusal = Object -> bool

  /** DROP USER takes the user's grants along; DROP DATABASE leaves grants on the database where they are. */
  function Drop(refuses: Refusal, st: Server, o: Object): (Server, bool) {
    match o.kind
    case KindUser =>
      var account := SplitUser(o.name);
      if account.None? then (st, true)
      else if refuses(o) then (st, false)
      else
        (st.(users := st.users - {account.value},
             privs := set p | p in st.privs && p.account != account.value), true)
    case KindDatabase =>
      if refuses(o) then (st, false) else (st.(dbs := st.dbs - {o.name}), true)
  }

  function Dropping(refuses: Refusal): Converging.Stepper<Server, Object> {
    (st, o) => Drop(refuses, st, o)
  }

  // ----- Convergence and pruning

  /** A connection to the server as root. */
  class Client {
    var st: Server
    const refuses: Env
    const refusesDrop: Refusal

    constructor (st: Server, refuses: Env, refusesDrop: Refusal)
      ensures this.st == st && this.refuses == refuses && this.refusesDrop == refusesDrop
    {
      this.st, this.refuses, this.refusesDrop := st, refuses, refusesDrop;
    }

    method Exec(act: Act) returns (ok: bool)
      modifies this
      ensures (st, ok) == Step(refuses, old(st), act)
    {
      var next := Step(refuses, st, act);
      st, ok := next.0, next.1;
    }

    method ConvergeUser(u: User) returns (ok: bool)
      modifies this
      ensures (st, ok) == Run(refuses, UserActs(u), old(st))
    {
      ghost var later := if u.password == "" then [] else [SetPassword(u.Account(), u.password)];
      assert UserActs(u)[1..] == later;
      ok := Exec(CreateUser(u.Account(), u.password));
      if !ok {
        return false;
      }
      assert Run(refuses, UserActs(u), old(st)) == Run(refuses, later, st);
      if u.password != "" {
        Converging.RunOne(Stepping(refuses), SetPassword(u.Account(), u.password), st);
        ok := Exec(SetPassword(u.Account(), u.password));
      }
    }

    method ConvergeUsers(users: seq<User>) returns (ok: bool)
      modifies this
      ensures (st, ok) == Run(refuses, UsersActs(users), old(st))
    {
      var i := 0;
      while i < |users|
        invariant 0 <= i <= |users|
        invariant Run(refuses, UsersActs(users), old(st)) == Run(refuses, UsersActs(users[i..]), st)
      {
        assert users[i..][1..] == users[i + 1..];
        Converging.RunAppend(Stepping(refuses), UserActs(users[i]), UsersActs(users[i + 1..]), st);
        ok := ConvergeUser(users[i]);
        if !ok {
          return false;
        }
        i := i + 1;
      }
      return true;
    }

    method ConvergeGrants(grants: seq<Grant>) returns (ok: bool)
      modifies this
      ensures (st, ok) == Run(refuses, GrantsActs(grants) + FlushActs(grants), old(st))
    {
      var i := 0;
      while i < |grants|
        invariant 0 <= i <= |grants|
        invariant Run(refuses, GrantsActs(grants), old(st)) == Run(refuses, GrantsActs(grants[i..]), st)
      {
        assert grants[i..][1..] == grants[i + 1..];
        ok := Exec(GrantTo(grants[i]));
        Converging.RunAppend(Stepping(refuses), GrantsActs(grants), FlushActs(grants), old(st));
        if !ok {
          return false;
        }
        i := i + 1;
      }
      Converging.RunAppend(Stepping(refuses), GrantsActs(grants), FlushActs(grants), old(st));
      ok := true;
      if |grants| > 0 {
        ok := Exec(FlushPrivileges);
      }
    }

    method Converge(name: string, cfg: Config) returns (ok: bool)
      modifies this
      ensures (st, ok) == Run(refuses, Plan(name, cfg), old(st))
    {
      var users, grants := UsersActs(cfg.users), GrantsActs(cfg.grants) + FlushActs(cfg.grants);
      ghost var plan := Plan(name, cfg);
      assert plan[0] == CreateDatabase(name, cfg.characterSet, cfg.collation) && plan[1..] == users + grants;
      ok := Exec(CreateDatabase(name, cfg.characterSet, cfg.collation));
      if !ok {
        return false;
      }
      Converging.RunAppend(Stepping(refuses), users, grants, st);
      ok := ConvergeUsers(cfg.users);
      if !ok {
        return false;
      }
      ok := ConvergeGrants(cfg.grants);
    }

    method Prune(removed: seq<Object>) returns (ok: bool)
      modifies this
      ensures (st, ok) == Converging.Run(Dropping(refusesDrop), removed, old(st))
    {
      var i := 0;
      while i < |removed|
        invariant 0 <= i <= |removed|
        invariant Converging.Run(Dropping(refusesDrop), removed, old(st))
          == Converging.Run(Dropping(refusesDrop), removed[i..], st)
      {
        assert removed[i..][1..] == removed[i + 1..];
        var o := removed[i];
        i := i + 1;
        match o.kind
        case KindUser =>
          var account := SplitName(o.name);
          if account.None? {
            continue;
          }
          if refusesDrop(o) {
            return false;
          }
          st := st.(users := st.users - {account.value},
                    privs := set p | p in st.privs && p.account != account.value);
        case KindDatabase =>
          if refusesDrop(o) {
            return false;
          }
          st := st.(dbs := st.dbs - {o.name});
      }
      return true;
    }
  }

  // ----- What a run reaches and what it leaves alone

  predicate DeclaresUser(cfg: Config, account: Account) {
    exists u :: u in cfg.users && u.Account() == account
  }

  lemma {:induction false} UserActsAre(users: seq<User>, u: User)
    requires u in users
    ensures CreateUser(u.Account(), u.password) in UsersActs(users)
    ensures u.password != "" ==> SetPassword(u.Account(), u.password) in UsersActs(users)
  {
    if u == users[0] {
      assert CreateUser(u.Account(), u.password) in UserActs(u);
    } else {
      assert u in users[1..];
      UserActsAre(users[1..], u);
    }
  }

  lemma RunEnforces(refuses: Env, name: string, cfg: Config, st: Server, a: Act)
    requires DistinctAccounts(cfg.users) && Run(refuses, Plan(name, cfg), st).1 && a in Plan(name, cfg)
    ensures InForce(refuses, Run(refuses, Plan(name, cfg), st).0, a)
  {
    var plan := Plan(name, cfg);
    PlanHasNoClash(name, cfg);
    ActsStick(refuses, plan);
    Converging.RunEstablishes(Stepping(refuses), Forcing(refuses), plan, plan, st);
    assert Forcing(refuses)(Run(refuses, plan, st).0, a);
  }

  /** A run that succeeds leaves the database, every user with the password declared, and every grant in force. */
  lemma ConvergeReachesTarget(refuses: Env, name: string, cfg: Config, st: Server)
    requires DistinctAccounts(cfg.users) && Run(refuses, Plan(name, cfg), st).1
    ensures var end := Run(refuses, Plan(name, cfg), st).0;
      && name in end.dbs
      && (forall u :: u in cfg.users ==> u.Account() in end.users)
      && (forall u :: u in cfg.users && u.password != "" ==> end.users[u.Account()] == u.password)
      && (forall g :: g in cfg.grants ==> g.Account() in end.users && g.Privs() <= end.privs)
  {
    RunEnforces(refuses, name, cfg, st, CreateDatabase(name, cfg.characterSet, cfg.collation));
    forall u | u in cfg.users
      ensures var end := Run(refuses, Plan(name, cfg), st).0;
        u.Account() in end.users && (u.password != "" ==> end.users[u.Account()] == u.password)
    {
      UserActsAre(cfg.users, u);
      RunEnforces(refuses, name, cfg, st, CreateUser(u.Account(), u.password));
      if u.password != "" {
        RunEnforces(refuses, name, cfg, st, SetPassword(u.Account(), u.password));
      }
    }
    forall g | g in cfg.grants
      ensures g.Account() in Run(refuses, Plan(name, cfg), st).0.users
      ensures g.Privs() <= Run(refuses, Plan(name, cfg), st).0.privs
    {
      GrantsAre(cfg.grants, GrantTo(g));
      RunEnforces(refuses, name, cfg, st, GrantTo(g));
    }
  }

  /** Same entry, or same absence. */
  predicate Agree<K, V(==)>(a: map<K, V>, b: map<K, V>, k: K) {
    (k in a <==> k in b) && (k in a ==> a[k] == b[k])
  }

  predicate Changes(a: Act, account: Account) {
    (a.CreateUser? || a.SetPassword?) && a.account == account
  }

  lemma {:induction false} OthersUntouched(refuses: Env, acts: seq<Act>, st: Server, db: string, account: Account)
    ensures var end := Run(refuses, acts, st).0;
      && ((forall a :: a in acts && a.CreateDatabase? ==> a.name != db) ==> Agree(st.dbs, end.dbs, db))
      && ((forall a :: a in acts ==> !Changes(a, account)) ==> Agree(st.users, end.users, account))
  {
    if acts != [] {
      var next := Step(refuses, st, acts[0]);
      assert acts[0] in acts;
      if next.1 {
        OthersUntouched(refuses, acts[1..], next.0, db, account);
      }
    }
  }

  // ----- Destroying what was created

  function DropOrder(name: string, cfg: Config): seq<Object> {
    Converging.Reversed(ObjectsOf(name, cfg.users))
  }

  predicate DropsUser(objs: seq<Object>, account: Account) {
    exists o :: o in objs && o.kind == KindUser && SplitUser(o.name) == Some(account)
  }

  predicate DropsDb(objs: seq<Object>, db: string) {
    Object(KindDatabase, db) in objs
  }

  function Remaining(objs: seq<Object>, st: Server): Server {
    Server(map d | d in st.dbs && !DropsDb(objs, d) :: st.dbs[d],
           map u | u in st.users && !DropsUser(objs, u) :: st.users[u],
           set p | p in st.privs && !DropsUser(objs, p.account))
  }

  /** What is left is what no object names; in what order they come makes no difference. */
  lemma {:induction false} PruneLeaves(refuses: Refusal, objs: seq<Object>, st: Server)
    requires Converging.Run(Dropping(refuses), objs, st).1
    ensures Converging.Run(Dropping(refuses), objs, st).0 == Remaining(objs, st)
  {
    if objs != [] {
      var next := Drop(refuses, st, objs[0]).0;
      PruneLeaves(refuses, objs[1..], next);
      forall o
        ensures o in objs <==> o == objs[0] || o in objs[1..]
      {
      }
      DropLeaves(refuses, st, objs[0], objs[1..]);
      assert objs == [objs[0]] + objs[1..];
    } else {
      assert Remaining([], st) == st;
    }
  }

  lemma DropLeaves(refuses: Refusal, st: Server, o: Object, rest: seq<Object>)
    requires Drop(refuses, st, o).1
    ensures Remaining(rest, Drop(refuses, st, o).0) == Remaining([o] + rest, st)
  {
    var objs := [o] + rest;
    assert forall x :: x in objs <==> x == o || x in rest;
    forall account
      ensures DropsUser(objs, account) <==>
        (o.kind == KindUser && SplitUser(o.name) == Some(account)) || DropsUser(rest, account)
    {
      assert o in objs;
    }
  }

  lemma DestroyDropsDb(name: string, cfg: Config, db: string)
    ensures DropsDb(DropOrder(name, cfg), db) <==> db == name
  {
    var objs := ObjectsOf(name, cfg.users);
    assert objs[0] in objs;
    if Object(KindDatabase, db) in objs {
      var i :| 0 <= i < |objs| && objs[i] == Object(KindDatabase, db);
      assert i > 0 ==> objs[i] == UserObject(cfg.users[i - 1]);
    }
  }

  lemma DestroyDropsUser(name: string, cfg: Config, o: Object)
    requires o.kind == KindUser
    ensures o in DropOrder(name, cfg) <==> exists u :: u in cfg.users && o == UserObject(u)
  {
    var objs := ObjectsOf(name, cfg.users);
    if o in objs {
      var i :| 0 <= i < |objs| && objs[i] == o;
      assert o == UserObject(cfg.users[i - 1]) && cfg.users[i - 1] in cfg.users;
    }
    if u :| u in cfg.users && o == UserObject(u) {
      var i :| 0 <= i < |cfg.users| && cfg.users[i] == u;
      assert objs[1 + i] == o;
    }
  }

  /** The account some declared user's object is taken for. */
  predicate TakenFor(cfg: Config, account: Account) {
    exists u :: u in cfg.users && SplitUser(UserObject(u).name) == Some(account)
  }

  predicate PlainHosts(cfg: Config) {
    forall u :: u in cfg.users ==> '@' !in u.host
  }

  lemma DestroyDrops(name: string, cfg: Config, account: Account)
    ensures DropsUser(DropOrder(name, cfg), account) <==> TakenFor(cfg, account)
  {
    var objs := DropOrder(name, cfg);
    if TakenFor(cfg, account) {
      var u :| u in cfg.users && SplitUser(UserObject(u).name) == Some(account);
      DestroyDropsUser(name, cfg, UserObject(u));
    }
    if DropsUser(objs, account) {
      var o :| o in objs && o.kind == KindUser && SplitUser(o.name) == Some(account);
      DestroyDropsUser(name, cfg, o);
    }
  }

  lemma TakenForItself(cfg: Config, account: Account)
    requires PlainHosts(cfg)
    ensures TakenFor(cfg, account) <==> DeclaresUser(cfg, account)
  {
    forall u | u in cfg.users
      ensures SplitUser(UserObject(u).name) == Some(u.Account())
    {
      DecodesExactly(u);
    }
  }

  /** No object is taken for an account whose host holds an '@'. */
  lemma NeverTakenFor(cfg: Config, account: Account)
    requires '@' in account.1
    ensures !TakenFor(cfg, account)
  {
    forall u | u in cfg.users && SplitUser(UserObject(u).name).Some?
      ensures SplitUser(UserObject(u).name).value != account
    {
      HostIsClean(UserObject(u).name, |UserObject(u).name|);
    }
  }

  /** A server without what the config declares: its database, its users and all that was granted to them. */
  function Undeclared(name: string, cfg: Config, st: Server): Server {
    Server(st.dbs - {name},
           map u | u in st.users && !DeclaresUser(cfg, u) :: st.users[u],
           set p | p in st.privs && !DeclaresUser(cfg, p.account))
  }

  lemma PlainDrops(name: string, cfg: Config)
    requires PlainHosts(cfg)
    ensures forall u :: DropsUser(DropOrder(name, cfg), u) <==> DeclaresUser(cfg, u)
    ensures forall d :: DropsDb(DropOrder(name, cfg), d) <==> d == name
  {
    forall u: Account
      ensures DropsUser(DropOrder(name, cfg), u) <==> DeclaresUser(cfg, u)
    {
      DestroyDrops(name, cfg, u);
      TakenForItself(cfg, u);
    }
    forall d: string
      ensures DropsDb(DropOrder(name, cfg), d) <==> d == name
    {
      DestroyDropsDb(name, cfg, d);
    }
  }

  lemma SameRemaining(name: string, cfg: Config, objs: seq<Object>, st: Server)
    requires forall u :: DropsUser(objs, u) <==> DeclaresUser(cfg, u)
    requires forall d :: DropsDb(objs, d) <==> d == name
    ensures Remaining(objs, st) == Undeclared(name, cfg, st)
  {
    var left := Remaining(objs, st);
    assert left.dbs == st.dbs - {name};
    assert left.users == Undeclared(name, cfg, st).users;
    assert left.privs == Undeclared(name, cfg, st).privs;
  }

  lemma PlainIsUndeclared(name: string, cfg: Config, st: Server)
    requires PlainHosts(cfg)
    ensures Remaining(DropOrder(name, cfg), st) == Undeclared(name, cfg, st)
  {
    PlainDrops(name, cfg);
    SameRemaining(name, cfg, DropOrder(name, cfg), st);
  }

  lemma AccountStays(name: string, cfg: Config, u: User, st: Server)
    requires u in cfg.users && '@' in u.host && u.Account() in st.users
    ensures u.Account() in Remaining(DropOrder(name, cfg), st).users && u.Account() !in Undeclared(name, cfg, st).users
  {
    NeverTakenFor(cfg, u.Account());
    DestroyDrops(name, cfg, u.Account());
  }

  /**
   * A destroy drops exactly the declared database and accounts, with all that was granted to these, whatever else the
   * server holds, if and only if no declared host holds an '@': such an account is never dropped.
   */
  lemma DestroyExactly(name: string, cfg: Config)
    ensures (forall st :: Remaining(DropOrder(name, cfg), st) == Undeclared(name, cfg, st)) <==> PlainHosts(cfg)
  {
    if PlainHosts(cfg) {
      forall st
        ensures Remaining(DropOrder(name, cfg), st) == Undeclared(name, cfg, st)
      {
        PlainIsUndeclared(name, cfg, st);
      }
    } else {
      var u :| u in cfg.users && '@' in u.host;
      var st := Server(map[], map[u.Account() := u.password], {});
      AccountStays(name, cfg, u, st);
      assert Remaining(DropOrder(name, cfg), st) != Undeclared(name, cfg, st);
    }
  }

  /** A run changes no account and no database but its own. */
  lemma PlanTouches(refuses: Env, name: string, cfg: Config, st: Server, db: string, account: Account)
    ensures db != name ==> Agree(st.dbs, Run(refuses, Plan(name, cfg), st).0.dbs, db)
    ensures !DeclaresUser(cfg, account) ==> Agree(st.users, Run(refuses, Plan(name, cfg), st).0.users, account)
  {
    var plan := Plan(name, cfg);
    forall a | a in plan
      ensures a.CreateDatabase? ==> a.name == name
      ensures !DeclaresUser(cfg, account) ==> !Changes(a, account)
    {
      GrantsAre(cfg.grants, a);
      if a in UsersActs(cfg.users) {
        PasswordsAre(cfg.users, a);
      }
    }
    OthersUntouched(refuses, plan, st, db, account);
  }

  /** What destroying after any run leaves of the databases and of the users no object is taken for. */
  lemma LeavesUndeclared(refuses: Env, name: string, cfg: Config, st: Server)
    ensures var end := Run(refuses, Plan(name, cfg), st).0;
      && Undeclared(name, cfg, end).dbs == Undeclared(name, cfg, st).dbs
      && Undeclared(name, cfg, end).users == Undeclared(name, cfg, st).users
  {
    var end := Run(refuses, Plan(name, cfg), st).0;
    forall d: string | d != name
      ensures (d in st.dbs <==> d in end.dbs) && (d in st.dbs ==> st.dbs[d] == end.dbs[d])
    {
      PlanTouches(refuses, name, cfg, st, d, ("", ""));
    }
    assert forall d :: d in end.dbs - {name} <==> d in end.dbs && d != name;
    assert forall d :: d in st.dbs - {name} <==> d in st.dbs && d != name;
    assert end.dbs - {name} == st.dbs - {name};
    forall u: Account | !DeclaresUser(cfg, u)
      ensures Agree(st.users, end.users, u)
    {
      PlanTouches(refuses, name, cfg, st, name, u);
    }
    assert Undeclared(name, cfg, end).users == Undeclared(name, cfg, st).users;
  }

  /** Whether what is left after a run and a destroy is what was there without what the config declares. */
  predicate Undone(name: string, cfg: Config, st: Server, end: Server, left: Server) {
    && left.dbs == Undeclared(name, cfg, st).dbs
    && left.users == Undeclared(name, cfg, st).users
    && left.privs == Undeclared(name, cfg, end).privs
  }

  /**
   * Destroying after a run drops the instance's database and its users and leaves every other one as it was before
   * the run, and of the privileges those of accounts that were not declared, those granted by the run among them: if
   * no declared host holds an '@' for any run, finished or failed, and for one that succeeded only then.
   */
  lemma DestroyUndoesCreate(refuses: Env, refusesDrop: Refusal, name: string, cfg: Config, st: Server)
    requires DistinctAccounts(cfg.users)
    requires Converging.Run(Dropping(refusesDrop), DropOrder(name, cfg), Run(refuses, Plan(name, cfg), st).0).1
    ensures var (end, ok) := Run(refuses, Plan(name, cfg), st);
      var left := Converging.Run(Dropping(refusesDrop), DropOrder(name, cfg), end).0;
      && (PlainHosts(cfg) ==> Undone(name, cfg, st, end, left))
      && (ok ==> (Undone(name, cfg, st, end, left) <==> PlainHosts(cfg)))
  {
    var (end, ok) := Run(refuses, Plan(name, cfg), st);
    PruneLeaves(refusesDrop, DropOrder(name, cfg), end);
    LeavesUndeclared(refuses, name, cfg, st);
    if PlainHosts(cfg) {
      PlainIsUndeclared(name, cfg, end);
    } else if ok {
      var u :| u in cfg.users && '@' in u.host;
      ConvergeReachesTarget(refuses, name, cfg, st);
      AccountStays(name, cfg, u, end);
    }
  }

  /**
   * Grants are not tracked, and dropping their user is to remove them: after a successful run and a destroy, the
   * privileges of a declared grant are gone exactly when some declared user's object is taken for its account.
   */
  lemma GrantsGoneExactly(refuses: Env, refusesDrop: Refusal, name: string, cfg: Config, st: Server, g: Grant, p: Priv)
    requires DistinctAccounts(cfg.users)
    requires Run(refuses, Plan(name, cfg), st).1 && g in cfg.grants && p in g.Privs()
    requires Converging.Run(Dropping(refusesDrop), DropOrder(name, cfg), Run(refuses, Plan(name, cfg), st).0).1
    ensures p in Converging.Run(Dropping(refusesDrop), DropOrder(name, cfg), Run(refuses, Plan(name, cfg), st).0).0.privs
      <==> !TakenFor(cfg, g.Account())
    ensures PlainHosts(cfg) ==> (TakenFor(cfg, g.Account()) <==> DeclaresUser(cfg, g.Account()))
  {
    var end := Run(refuses, Plan(name, cfg), st).0;
    PruneLeaves(refusesDrop, DropOrder(name, cfg), end);
    DestroyDrops(name, cfg, g.Account());
    ConvergeReachesTarget(refuses, name, cfg, st);
    if PlainHosts(cfg) {
      TakenForItself(cfg, g.Account());
    }
  }
}
