/** A MariaDB server as the mariadb driver's convergence sees it, and what a whole convergence run does to it. */
module MariaModel {
  import opened Strings
  import Converging

  // ----- The server

  /** A user at a host. */
  type Account = (string, string)

  /** A database and a table in it; "*" stands for all. */
  type Target = (string, string)

  datatype Priv = Priv(account: Account, target: Target, privilege: string)

  /** Databases with their character set and collation, accounts with their password, and what they were granted. */
  datatype Server = Server(dbs: map<string, (string, string)>, users: map<Account, string>, privs: set<Priv>)

  // ----- The configuration

  datatype User = User(name: string, host: string, password: string) {
    function Account(): Account {
      (name, host)
    }
  }

  datatype Grant = Grant(user: string, host: string, privileges: seq<string>, db: string, table: string) {
    function Account(): Account {
      (user, host)
    }

    function Privs(): set<Priv> {
      set p | p in privileges :: Priv((user, host), (db, table), p)
    }
  }

  datatype Config = Config(characterSet: string, collation: string, users: seq<User>, grants: seq<Grant>)

  const ANY_HOST := "%"

  function OrAny(host: string): string {
    if host == "" then ANY_HOST else host
  }

  predicate DistinctAccounts(users: seq<User>) {
    forall i, j :: 0 <= i < j < |users| ==> users[i].Account() != users[j].Account()
  }

  predicate UsersDecodable(raw: seq<User>) {
    && (forall i :: 0 <= i < |raw| ==> raw[i].name != "")
    && forall i, j :: 0 <= i < j < |raw| ==> ObjectName(raw[i]) != ObjectName(raw[j])
  }

  /**
   * Users as decoded: the host defaults to any, and two users whose name and host are joined alike are refused, which
   * keeps accounts apart (and refuses some that differ, where the '@' stands in the name of one and the host of the other).
   */
  method DecodeUsers(raw: seq<User>) returns (r: Result<seq<User>, string>)
    ensures r.Success? <==> UsersDecodable(raw)
    ensures r.Success? ==>
      && |r.value| == |raw|
      && (forall i :: 0 <= i < |raw| ==> r.value[i] == raw[i].(host := OrAny(raw[i].host)))
      && DistinctAccounts(r.value)
  {
    var users := [];
    var seen: set<string> := {};
    for i := 0 to |raw|
      invariant |users| == i
      invariant forall k :: 0 <= k < i ==> users[k] == raw[k].(host := OrAny(raw[k].host)) && raw[k].name != ""
      invariant forall k :: 0 <= k < i ==> ObjectName(raw[k]) in seen
      invariant forall name :: name in seen ==> exists k :: 0 <= k < i && ObjectName(raw[k]) == name
      invariant UsersDecodable(raw[..i])
    {
      var u := raw[i];
      if u.name == "" {
        return Failure("mariadb: a user block needs a name label");
      }
      var host := OrAny(u.host);
      var key := u.name + "@" + host;
      assert key == ObjectName(raw[i]);
      if key in seen {
        return Failure("mariadb: user \"" + key + "\" declared more than once");
      }
      seen := seen + {key};
      users := users + [User(u.name, host, u.password)];
    }
    assert raw[..|raw|] == raw;
    KeptApart(raw, users);
    return Success(users);
  }

  lemma KeptApart(raw: seq<User>, users: seq<User>)
    requires UsersDecodable(raw) && |users| == |raw|
    requires forall i :: 0 <= i < |raw| ==> users[i] == raw[i].(host := OrAny(raw[i].host))
    ensures DistinctAccounts(users)
  {
    forall i, j | 0 <= i < j < |users|
      ensures users[i].Account() != users[j].Account()
    {
      assert ObjectName(raw[i]) == users[i].name + "@" + users[i].host;
      assert ObjectName(raw[j]) == users[j].name + "@" + users[j].host;
    }
  }

  function ObjectName(u: User): string {
    u.name + "@" + OrAny(u.host)
  }

  // ----- Steps

  datatype Act =
    | CreateDatabase(name: string, characterSet: string, collation: string)
    | CreateUser(account: Account, password: string)
    | SetPassword(account: Account, password: string)
    | GrantTo(grant: Grant)
    | FlushPrivileges

  /** The statements the server refuses whatever its state. */
  type Env = Act -> bool

  function Step(refuses: Env, st: Server, act: Act): (Server, bool) {
    if refuses(act) then (st, false)
    else
      match act
      case CreateDatabase(name, characterSet, collation) =>
        if name in st.dbs then (st, true) else (st.(dbs := st.dbs[name := (characterSet, collation)]), true)
      case CreateUser(account, password) =>
        if account in st.users then (st, true) else (st.(users := st.users[account := password]), true)
      case SetPassword(account, password) =>
        if account !in st.users then (st, false) else (st.(users := st.users[account := password]), true)
      case GrantTo(g) =>
        if g.Account() !in st.users then (st, false) else (st.(privs := st.privs + g.Privs()), true)
      case FlushPrivileges => (st, true)
  }

  function Stepping(refuses: Env): Converging.Stepper<Server, Act> {
    (st, act) => Step(refuses, st, act)
  }

  function Run(refuses: Env, acts: seq<Act>, st: Server): (Server, bool) {
    Converging.Run(Stepping(refuses), acts, st)
  }

  // ----- The plan

  function UserActs(u: User): seq<Act> {
    [CreateUser(u.Account(), u.password)] + if u.password == "" then [] else [SetPassword(u.Account(), u.password)]
  }

  function UsersActs(users: seq<User>): seq<Act> {
    if users == [] then [] else UserActs(users[0]) + UsersActs(users[1..])
  }

  function GrantsActs(grants: seq<Grant>): seq<Act> {
    if grants == [] then [] else [GrantTo(grants[0])] + GrantsActs(grants[1..])
  }

  function FlushActs(grants: seq<Grant>): seq<Act> {
    if |grants| > 0 then [FlushPrivileges] else []
  }

  function Plan(name: string, cfg: Config): seq<Act> {
    [CreateDatabase(name, cfg.characterSet, cfg.collation)]
    + (UsersActs(cfg.users) + (GrantsActs(cfg.grants) + FlushActs(cfg.grants)))
  }

  // ----- A step in force stays in force

  predicate InForce(refuses: Env, st: Server, act: Act) {
    && !refuses(act)
    && match act
       case CreateDatabase(name, _, _) => name in st.dbs
       case CreateUser(account, _) => account in st.users
       case SetPassword(account, password) => account in st.users && st.users[account] == password
       case GrantTo(g) => g.Account() in st.users && g.Privs() <= st.privs
       case FlushPrivileges => true
  }

  function Forcing(refuses: Env): (Server, Act) -> bool {
    (st, act) => InForce(refuses, st, act)
  }

  /** Two steps that set different passwords for one account. */
  predicate Clash(a: Act, b: Act) {
    a.SetPassword? && b.SetPassword? && a.account == b.account && a.password != b.password
  }

  predicate NoClash(acts: seq<Act>) {
    forall a, b :: a in acts && b in acts ==> !Clash(a, b)
  }

  lemma StepEstablishes(refuses: Env, st: Server, act: Act)
    requires Step(refuses, st, act).1
    ensures InForce(refuses, Step(refuses, st, act).0, act)
  {
  }

  lemma InForceAbsorbs(refuses: Env, st: Server, act: Act)
    requires InForce(refuses, st, act)
    ensures Step(refuses, st, act) == (st, true)
  {
    match act
    case SetPassword(account, password) => assert st.users[account := password] == st.users;
    case GrantTo(g) => assert st.privs + g.Privs() == st.privs;
    case _ =>
  }

  lemma StepKeeps(refuses: Env, st: Server, a: Act, b: Act)
    requires InForce(refuses, st, b) && !Clash(a, b)
    ensures InForce(refuses, Step(refuses, st, a).0, b)
  {
  }

  lemma ActsStick(refuses: Env, acts: seq<Act>)
    requires NoClash(acts)
    ensures Converging.Sticks(Stepping(refuses), Forcing(refuses), acts)
  {
    forall st, a | a in acts && Stepping(refuses)(st, a).1
      ensures Forcing(refuses)(Stepping(refuses)(st, a).0, a)
    {
      StepEstablishes(refuses, st, a);
    }
    forall st, a | a in acts && Forcing(refuses)(st, a)
      ensures Stepping(refuses)(st, a) == (st, true)
    {
      InForceAbsorbs(refuses, st, a);
    }
    forall st, a, b | a in acts && b in acts && Forcing(refuses)(st, b)
      ensures Forcing(refuses)(Stepping(refuses)(st, a).0, b)
    {
      StepKeeps(refuses, st, a, b);
    }
  }

  /** Distinct accounts have no clashing passwords. */
  lemma {:induction false} PasswordsAre(users: seq<User>, a: Act)
    requires a in UsersActs(users)
    ensures exists u :: u in users && a in UserActs(u)
  {
    if a in UserActs(users[0]) {
      assert users[0] in users;
    } else {
      PasswordsAre(users[1..], a);
    }
  }

  lemma {:induction false} GrantsAre(grants: seq<Grant>, a: Act)
    ensures a in GrantsActs(grants) <==> a.GrantTo? && a.grant in grants
  {
    if grants != [] {
      GrantsAre(grants[1..], a);
      assert grants == [grants[0]] + grants[1..];
    }
  }

  lemma PlanHasNoClash(name: string, cfg: Config)
    requires DistinctAccounts(cfg.users)
    ensures NoClash(Plan(name, cfg))
  {
    forall a, b | a in Plan(name, cfg) && b in Plan(name, cfg) && a.SetPassword? && b.SetPassword?
      ensures !Clash(a, b)
    {
      GrantsAre(cfg.grants, a);
      GrantsAre(cfg.grants, b);
      PasswordsAre(cfg.users, a);
      PasswordsAre(cfg.users, b);
      var u :| u in cfg.users && a in UserActs(u);
      var v :| v in cfg.users && b in UserActs(v);
      var i :| 0 <= i < |cfg.users| && cfg.users[i] == u;
      var j :| 0 <= j < |cfg.users| && cfg.users[j] == v;
      assert a == SetPassword(u.Account(), u.password) && b == SetPassword(v.Account(), v.password);
      assert i != j ==> u.Account() != v.Account();
    }
  }

  // ----- Whole runs

  /** A run that stopped after any of its statements, started again, ends like one that never stopped. */
  lemma ConvergeResumes(refuses: Env, name: string, cfg: Config, done: seq<Act>, rest: seq<Act>, st: Server)
    requires DistinctAccounts(cfg.users) && Plan(name, cfg) == done + rest && Run(refuses, done, st).1
    ensures Run(refuses, Plan(name, cfg), Run(refuses, done, st).0) == Run(refuses, Plan(name, cfg), st)
  {
    PlanHasNoClash(name, cfg);
    ActsStick(refuses, done + rest);
    Converging.ResumeIsUninterrupted(Stepping(refuses), Forcing(refuses), done, rest, st);
  }

  lemma ConvergeIdempotent(refuses: Env, n: nat, name: string, cfg: Config, st: Server)
    requires DistinctAccounts(cfg.users) && n > 0
    ensures Converging.Times(Stepping(refuses), n, Plan(name, cfg), st) == Run(refuses, Plan(name, cfg), st)
  {
    PlanHasNoClash(name, cfg);
    ActsStick(refuses, Plan(name, cfg));
    Converging.ManyRunsAreOne(Stepping(refuses), Forcing(refuses), n, Plan(name, cfg), st);
  }
}
