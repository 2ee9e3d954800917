/**
 * Several convergence runs of one config on one cluster, interleaved interaction by interaction, as far as everything
 * cluster-wide they contend for: the roles, their memberships, and the database itself.
 */
module PgRace {
  import opened Strings
  import opened PgConfig
  import opened PgCluster
  import opened PgPlan
  import opened PgInForce
  import opened PgPlanFacts
  import opened PgRunner
  import PgRoleOrder

  /**
   * Where a run is within its current act; tries count the attempts execRetry has made. Making is the one CREATE
   * DATABASE, which is not retried, Owning the ALTER of a database that was found.
   */
  datatype Point =
    | Asking
    | Creating(tries: nat) | Altering(tries: nat)
    | Making | Owning(tries: nat)
    | Sending(tries: nat)
    | Stopped(cause: Cause)

  datatype Cause = ServerSaid(msg: string) | Exhausted(msg: string) | Cancelled

  /** A run: the acts before `next` are behind it. */
  datatype Proc = Proc(next: nat, point: Point)

  datatype World = World(st: Cluster, procs: seq<Proc>)

  function StartOf(acts: seq<Act>, n: nat): Point {
    if n < |acts| && (acts[n].EnsureRole? || acts[n].EnsureDatabase?) then Asking else Sending(0)
  }

  /** The next act. */
  function Ahead(acts: seq<Act>, p: Proc): Proc {
    Proc(p.next + 1, StartOf(acts, p.next + 1))
  }

  /** What an interaction may yield: the server's reply, or a transient fault that leaves the cluster alone. */
  predicate MayYield(env: Env, st: Cluster, stmt: Stmt, reply: Reply) {
    reply == Exec(env, st, MAINTENANCE_DB, stmt)
    || (reply.Failure? && Transient(reply.error) && !RoleExists(reply.error))
  }

  /** Whether execRetry goes round again, and which of its outcomes it has if not. */
  predicate GoesRound(reply: Reply, tries: nat) {
    IsTransient(reply) && tries + 1 < ATTEMPTS
  }

  function Verdict1(reply: Reply): Cause
    requires reply.Failure?
  {
    if Transient(reply.error) then Exhausted(reply.error) else ServerSaid(reply.error)
  }

  function With(w: World, i: nat, p: Proc): World
    requires i < |w.procs|
  {
    w.(procs := w.procs[i := p])
  }

  predicate Underway(acts: seq<Act>, w: World, i: nat) {
    i < |w.procs| && w.procs[i].next < |acts|
  }

  /** The existence query, which is not retried: a fault of the connection ends the run. */
  ghost predicate Asks(env: Env, acts: seq<Act>, w: World, i: nat, fault: Option<string>, w': World) {
    && Underway(acts, w, i) && w.procs[i].point.Asking?
    && var p, act := w.procs[i], acts[w.procs[i].next];
       && (act.EnsureRole? || act.EnsureDatabase?) && (fault.Some? ==> !RoleExists(fault.value))
       && w' == With(w, i,
            if fault.Some? then p.(point := Stopped(Exhausted(fault.value)))
            else if !Connectable(w.st, MAINTENANCE_DB) then p.(point := Stopped(ServerSaid("cannot connect")))
            else if act.EnsureRole? then p.(point := if act.role.name in w.st.roles then Altering(0) else Creating(0))
            else if act.name !in w.st.dbs then p.(point := Making)
            else if act.owner == "" then Ahead(acts, p)
            else p.(point := Owning(0)))
  }

  /** An attempt at CREATE ROLE; "already exists" turns to ALTER. */
  ghost predicate Creates(env: Env, acts: seq<Act>, w: World, i: nat, reply: Reply, w': World) {
    && Underway(acts, w, i) && w.procs[i].point.Creating? && acts[w.procs[i].next].EnsureRole?
    && var p, role := w.procs[i], acts[w.procs[i].next].role;
       && MayYield(env, w.st, CreateRole(role.name, ClauseOf(role)), reply)
       && w' == match reply
          case Success(st') => With(w, i, Ahead(acts, p)).(st := st')
          case Failure(msg) => With(w, i, p.(point :=
              if GoesRound(reply, p.point.tries) then Creating(p.point.tries + 1)
              else if RoleExists(msg) then Altering(0)
              else Stopped(Verdict1(reply))))
  }

  ghost predicate Alters(env: Env, acts: seq<Act>, w: World, i: nat, reply: Reply, w': World) {
    && Underway(acts, w, i) && w.procs[i].point.Altering? && acts[w.procs[i].next].EnsureRole?
    && var p, role := w.procs[i], acts[w.procs[i].next].role;
       && MayYield(env, w.st, AlterRole(role.name, ClauseOf(role)), reply)
       && w' == match reply
          case Success(st') => With(w, i, Ahead(acts, p)).(st := st')
          case Failure(_) => With(w, i, p.(point :=
              if GoesRound(reply, p.point.tries) then Altering(p.point.tries + 1) else Stopped(Verdict1(reply))))
  }

  /** The one attempt at CREATE DATABASE: whatever it meets ends the run. */
  ghost predicate Makes(env: Env, acts: seq<Act>, w: World, i: nat, reply: Reply, w': World) {
    && Underway(acts, w, i) && w.procs[i].point.Making? && acts[w.procs[i].next].EnsureDatabase?
    && var p, act := w.procs[i], acts[w.procs[i].next];
       && MayYield(env, w.st, CreateDatabase(act.name, act.create), reply)
       && w' == match reply
          case Success(st') => With(w, i, Ahead(acts, p)).(st := st')
          case Failure(_) => With(w, i, p.(point := Stopped(Verdict1(reply))))
  }

  ghost predicate Owns(env: Env, acts: seq<Act>, w: World, i: nat, reply: Reply, w': World) {
    && Underway(acts, w, i) && w.procs[i].point.Owning? && acts[w.procs[i].next].EnsureDatabase?
    && var p, act := w.procs[i], acts[w.procs[i].next];
       && MayYield(env, w.st, AlterOwner(act.name, act.owner), reply)
       && w' == match reply
          case Success(st') => With(w, i, Ahead(acts, p)).(st := st')
          case Failure(_) => With(w, i, p.(point :=
              if GoesRound(reply, p.point.tries) then Owning(p.point.tries + 1) else Stopped(Verdict1(reply))))
  }

  /** An attempt at one of the other statements. */
  ghost predicate Sends(env: Env, acts: seq<Act>, w: World, i: nat, reply: Reply, w': World) {
    && Underway(acts, w, i) && w.procs[i].point.Sending? && acts[w.procs[i].next].Sql?
    && var p, act := w.procs[i], acts[w.procs[i].next];
       && act.at == MAINTENANCE_DB && MayYield(env, w.st, act.stmt, reply)
       && w' == match reply
          case Success(st') => With(w, i, Ahead(acts, p)).(st := st')
          case Failure(_) => With(w, i, p.(point :=
              if GoesRound(reply, p.point.tries) then Sending(p.point.tries + 1) else Stopped(Verdict1(reply))))
  }

  /** The context of a run is done during a wait. */
  ghost predicate Cancels(w: World, i: nat, w': World) {
    i < |w.procs| && w' == With(w, i, w.procs[i].(point := Stopped(Cancelled)))
  }

  ghost predicate Next(env: Env, acts: seq<Act>, w: World, w': World) {
    || (exists i, fault :: Asks(env, acts, w, i, fault, w'))
    || (exists i, reply :: Creates(env, acts, w, i, reply, w'))
    || (exists i, reply :: Alters(env, acts, w, i, reply, w'))
    || (exists i, reply :: Makes(env, acts, w, i, reply, w'))
    || (exists i, reply :: Owns(env, acts, w, i, reply, w'))
    || (exists i, reply :: Sends(env, acts, w, i, reply, w'))
    || (exists i :: Cancels(w, i, w'))
  }

  /** Any number of runs, all at the beginning. */
  function StartWorld(acts: seq<Act>, st: Cluster, n: nat): World {
    World(st, seq(n, _ => Proc(0, StartOf(acts, 0))))
  }

  ghost predicate IsRun(env: Env, acts: seq<Act>, run: seq<World>) {
    && run != [] && run[0] == StartWorld(acts, run[0].st, |run[0].procs|)
    && forall k :: 0 <= k < |run| - 1 ==> Next(env, acts, run[k], run[k + 1])
  }

  // ----- The acts in question

  /** The role a statement is about, which has to exist. */
  function Subject(stmt: Stmt): Option<string> {
    match stmt
    case SetParam(name, _, _) => Some(name)
    case CommentOnRole(name, _) => Some(name)
    case GrantRole(_, member) => Some(member)
    case _ => None
  }

  predicate SharedAct(act: Act) {
    match act
    case EnsureRole(_) => true
    case EnsureDatabase(_, create, owner) => create.owner == owner
    case Sql(at, stmt) => at == MAINTENANCE_DB && Subject(stmt).Some?
    case _ => false
  }

  predicate Ensures(acts: seq<Act>, name: string) {
    exists k :: 0 <= k < |acts| && acts[k].EnsureRole? && acts[k].role.name == name
  }

  /** The role of act j is made sure of by an act before it. */
  predicate GroundedAt(acts: seq<Act>, j: nat)
    requires j < |acts|
  {
    acts[j].Sql? && Subject(acts[j].stmt).Some? ==> Ensures(acts[..j], Subject(acts[j].stmt).value)
  }

  predicate Grounded(acts: seq<Act>) {
    forall j :: 0 <= j < |acts| ==> GroundedAt(acts, j)
  }

  /** Every role that is made sure of at all is so before act j. */
  ghost predicate RolesBefore(acts: seq<Act>, j: nat)
    requires j < |acts|
  {
    acts[j].EnsureDatabase? || (acts[j].Sql? && acts[j].stmt.GrantRole?) ==>
      forall name :: Ensures(acts, name) ==> Ensures(acts[..j], name)
  }

  ghost predicate RolesFirst(acts: seq<Act>) {
    forall j :: 0 <= j < |acts| ==> RolesBefore(acts, j)
  }

  ghost predicate SharedList(acts: seq<Act>) {
    && Grounded(acts) && RolesFirst(acts)
    && (forall k :: 0 <= k < |acts| ==> SharedAct(acts[k]) && Plannable(acts[k]))
    && (forall k, l :: 0 <= k < |acts| && 0 <= l < |acts| ==> Compatible(acts[k], acts[l]))
  }

  lemma EnsuresAppend(a: seq<Act>, b: seq<Act>, name: string)
    ensures Ensures(a + b, name) <==> Ensures(a, name) || Ensures(b, name)
  {
    var acts := a + b;
    assert forall k :: 0 <= k < |a| ==> acts[k] == a[k];
    assert forall k :: 0 <= k < |b| ==> acts[|a| + k] == b[k];
    assert forall k :: |a| <= k < |acts| ==> acts[k] == b[k - |a|];
  }

  /** The role of the act is made sure of in the list. */
  predicate About(act: Act, acts: seq<Act>) {
    act.Sql? && Subject(act.stmt).Some? && Ensures(acts, Subject(act.stmt).value)
  }

  lemma GroundedAppend(a: seq<Act>, b: seq<Act>)
    requires Grounded(a)
    requires forall j :: 0 <= j < |b| ==> GroundedAt(b, j) || About(b[j], a)
    ensures Grounded(a + b)
  {
    var acts := a + b;
    forall j | 0 <= j < |acts|
      ensures GroundedAt(acts, j)
    {
      if j < |a| {
        assert GroundedAt(a, j) && acts[..j] == a[..j];
      } else {
        assert acts[j] == b[j - |a|] && acts[..j] == a + b[..j - |a|];
        if acts[j].Sql? && Subject(acts[j].stmt).Some? {
          EnsuresAppend(a, b[..j - |a|], Subject(acts[j].stmt).value);
        }
      }
    }
  }

  lemma RoleActsGrounded(role: Role)
    ensures Grounded(RoleActs(role))
  {
    var acts := RoleActs(role);
    assert acts[0] == EnsureRole(role);
    forall j | 0 < j < |acts|
      ensures GroundedAt(acts, j)
    {
      assert acts[..j][0] == EnsureRole(role) && Ensures(acts[..j], role.name);
    }
  }

  lemma {:induction false} RolesGrounded(roles: seq<Role>)
    ensures Grounded(AllRoleActs(roles))
  {
    if roles != [] {
      var n := |roles| - 1;
      RolesGrounded(roles[..n]);
      RoleActsGrounded(roles[n]);
      assert forall j :: 0 <= j < |RoleActs(roles[n])| ==> GroundedAt(RoleActs(roles[n]), j);
      GroundedAppend(AllRoleActs(roles[..n]), RoleActs(roles[n]));
    }
  }

  lemma OneRoleEnsures(role: Role, name: string)
    ensures Ensures(RoleActs(role), name) <==> name == role.name
  {
    var acts := RoleActs(role);
    assert acts[0] == EnsureRole(role);
    assert forall k :: 0 < k < |acts| ==> acts[k].Sql?;
  }

  /** The roles a phase makes sure of are the declared ones. */
  lemma {:induction false} EnsuresDeclared(roles: seq<Role>, name: string)
    ensures Ensures(AllRoleActs(roles), name) <==> PgRoleOrder.Declares(roles, name)
  {
    if roles != [] {
      var n := |roles| - 1;
      EnsuresDeclared(roles[..n], name);
      OneMoreEnsures(AllRoleActs(roles[..n]), roles[n], name);
      OneMoreDeclares(roles, name);
    }
  }

  lemma OneMoreEnsures(acts: seq<Act>, role: Role, name: string)
    ensures Ensures(acts + RoleActs(role), name) <==> Ensures(acts, name) || name == role.name
  {
    EnsuresAppend(acts, RoleActs(role), name);
    OneRoleEnsures(role, name);
  }

  lemma OneMoreDeclares(roles: seq<Role>, name: string)
    requires roles != []
    ensures PgRoleOrder.Declares(roles, name) <==>
      PgRoleOrder.Declares(roles[..|roles| - 1], name) || name == roles[|roles| - 1].name
  {
    var n := |roles| - 1;
    assert roles == roles[..n] + [roles[n]];
    PgRoleOrder.DeclaresSnoc(roles[..n], roles[n], name);
  }

  /** A membership act grants a declared membership. */
  lemma JoinIs(roles: seq<Role>, k: nat)
    requires k < |AllJoinActs(roles)|
    ensures var act := AllJoinActs(roles)[k];
      && act.Sql? && act.at == MAINTENANCE_DB && act.stmt.GrantRole?
      && (act.stmt.member, act.stmt.parent) in PgRoleOrder.PairSet(roles)
      && PgRoleOrder.Declares(roles, act.stmt.member)
  {
    PgRoleOrder.JoinsAreGrants(roles);
    var e := PgRoleOrder.AllPairs(roles)[k];
    assert e in PgRoleOrder.AllPairs(roles);
  }

  lemma PhaseGrounded(cfg: Config)
    ensures Grounded(RolePhase(cfg))
    ensures forall name :: Ensures(RolePhase(cfg), name) <==> PgRoleOrder.Declares(cfg.roles, name)
    ensures forall name :: Ensures(AllRoleActs(cfg.roles), name) <==> PgRoleOrder.Declares(cfg.roles, name)
  {
    var first, joins := AllRoleActs(cfg.roles), AllJoinActs(cfg.roles);
    RolesGrounded(cfg.roles);
    forall k | 0 <= k < |joins|
      ensures About(joins[k], first)
    {
      JoinIs(cfg.roles, k);
      EnsuresDeclared(cfg.roles, joins[k].stmt.member);
    }
    GroundedAppend(first, joins);
    forall name
      ensures Ensures(first + joins, name) <==> PgRoleOrder.Declares(cfg.roles, name)
      ensures Ensures(first, name) <==> PgRoleOrder.Declares(cfg.roles, name)
    {
      EnsuresAppend(first, joins, name);
      EnsuresDeclared(cfg.roles, name);
    }
  }

  lemma FirstHasNoGrants(roles: seq<Role>, k: nat)
    requires k < |AllRoleActs(roles)|
    ensures !(AllRoleActs(roles)[k].Sql? && AllRoleActs(roles)[k].stmt.GrantRole?)
    decreases |roles|
  {
    var n := |roles| - 1;
    var front := AllRoleActs(roles[..n]);
    if k < |front| {
      FirstHasNoGrants(roles[..n], k);
    } else {
      var act := RoleActs(roles[n])[k - |front|];
      assert act in RoleActs(roles[n]);
    }
  }

  lemma EnsuresPart(acts: seq<Act>, part: seq<Act>, name: string)
    requires part <= acts && Ensures(part, name)
    ensures Ensures(acts, name)
  {
    var k :| 0 <= k < |part| && part[k].EnsureRole? && part[k].role.name == name;
    assert acts[k] == part[k];
  }

  lemma SharedRolesFirst(name: string, cfg: Config)
    ensures RolesFirst(SharedActs(name, cfg))
    ensures forall role :: Ensures(SharedActs(name, cfg), role) <==> PgRoleOrder.Declares(cfg.roles, role)
  {
    var acts, phase, first := SharedActs(name, cfg), RolePhase(cfg), AllRoleActs(cfg.roles);
    var db := EnsureDatabase(name, ClauseOfDatabase(cfg), cfg.owner);
    PhaseGrounded(cfg);
    forall role
      ensures Ensures(acts, role) <==> PgRoleOrder.Declares(cfg.roles, role)
    {
      EnsuresAppend(phase, [db], role);
    }
    forall j | 0 <= j < |acts|
      ensures RolesBefore(acts, j)
    {
      if acts[j].EnsureDatabase? || (acts[j].Sql? && acts[j].stmt.GrantRole?) {
        if j < |first| {
          FirstHasNoGrants(cfg.roles, j);
          assert acts[j] == first[j];
          RoleActsOf(cfg.roles, acts[j]);
        }
        forall role | Ensures(acts, role)
          ensures Ensures(acts[..j], role)
        {
          assert first <= acts[..j];
          EnsuresPart(acts[..j], first, role);
        }
      }
    }
  }

  lemma SharedEarly(name: string, cfg: Config, act: Act)
    requires act in SharedActs(name, cfg)
    ensures Early(name, cfg, act) && SharedAct(act)
  {
    var db := EnsureDatabase(name, ClauseOfDatabase(cfg), cfg.owner);
    if act in RolePhase(cfg) {
      RoleActsOf(cfg.roles, act);
    } else {
      assert act == db;
    }
  }

  lemma SharedIsShared(name: string, cfg: Config)
    requires WellFormed(cfg)
    ensures SharedList(SharedActs(name, cfg))
  {
    var acts := SharedActs(name, cfg);
    PhaseGrounded(cfg);
    GroundedAppend(RolePhase(cfg), [EnsureDatabase(name, ClauseOfDatabase(cfg), cfg.owner)]);
    SharedRolesFirst(name, cfg);
    forall k | 0 <= k < |acts|
      ensures SharedAct(acts[k]) && Plannable(acts[k])
    {
      SharedEarly(name, cfg, acts[k]);
      EarlyPlannable(name, cfg, acts[k]);
    }
    forall k, l | 0 <= k < |acts| && 0 <= l < |acts|
      ensures Compatible(acts[k], acts[l])
    {
      SharedEarly(name, cfg, acts[k]);
      SharedEarly(name, cfg, acts[l]);
      EarlyCompatible(name, cfg, acts[k], acts[l]);
    }
  }

  // ----- Reasons to be stopped

  /** A role that neither was there at the start nor is declared. */
  predicate Missing(acts: seq<Act>, st0: Cluster, role: string) {
    role !in st0.roles && !Ensures(acts, role)
  }

  /** The memberships the acts declare. */
  function Edges(acts: seq<Act>): set<(string, string)> {
    set act | act in acts && act.Sql? && act.stmt.GrantRole? :: (act.stmt.member, act.stmt.parent)
  }

  /**
   * The server has a reason of its own, which lies in the acts and in the state everybody started from: it refuses the
   * statement as such, a role or template is missing, or the memberships old and new run in a circle.
   */
  ghost predicate Refused(env: Env, acts: seq<Act>, st0: Cluster, act: Act) {
    || !Connectable(st0, MAINTENANCE_DB)
    || match act
       case EnsureRole(role) => env.refuses(MAINTENANCE_DB, RoleStmt(st0, role)).Some?
       case EnsureDatabase(name, create, owner) =>
         || (owner != "" && Missing(acts, st0, owner))
         || (if name in st0.dbs then owner != "" && env.refuses(MAINTENANCE_DB, AlterOwner(name, owner)).Some?
             else env.refuses(MAINTENANCE_DB, CreateDatabase(name, create)).Some? || TemplateOf(create) !in st0.dbs)
       case Sql(at, GrantRole(parent, member)) =>
         || env.refuses(at, GrantRole(parent, member)).Some?
         || Missing(acts, st0, parent)
         || member in Groups(st0.members + Edges(acts), {parent})
       case Sql(at, stmt) => env.refuses(at, stmt).Some?
       case _ => false
  }

  function TemplateOf(create: DbClause): string {
    if create.template == "" then DEFAULT_TEMPLATE else create.template
  }

  /** What a run ends with that creates a database another has created meanwhile. */
  function LostCause(name: string): Cause {
    Verdict1(Failure(AlreadyExists("database", name)))
  }

  /** Stopped over the database because another run created it first. */
  predicate LostDatabase(acts: seq<Act>, p: Proc) {
    p.next < |acts| && acts[p.next].EnsureDatabase? && p.point == Stopped(LostCause(acts[p.next].name))
  }

  /** The server said it: no fault of a connection reads "already exists". */
  predicate FromServer(cause: Cause) {
    cause.ServerSaid? || (cause.Exhausted? && RoleExists(cause.msg))
  }

  // ----- The invariant

  /** Everything the runs contend for only grows, and memberships by declared ones only. */
  ghost predicate Grown(acts: seq<Act>, st0: Cluster, st: Cluster) {
    && (Connectable(st, MAINTENANCE_DB) <==> Connectable(st0, MAINTENANCE_DB))
    && st0.roles.Keys <= st.roles.Keys && st0.dbs.Keys <= st.dbs.Keys
    && st.members <= st0.members + Edges(acts)
  }

  ghost predicate PointInv(env: Env, acts: seq<Act>, st0: Cluster, st: Cluster, act: Act, point: Point) {
    match point
    case Creating(_) => act.EnsureRole? ==> act.role.name !in st0.roles
    case Altering(_) => act.EnsureRole? ==> act.role.name in st.roles || Refused(env, acts, st0, act)
    case Making => act.EnsureDatabase? ==> act.name !in st0.dbs
    case Owning(_) => act.EnsureDatabase? ==> act.name in st.dbs && act.owner != ""
    case Stopped(cause) =>
      FromServer(cause) ==>
        || Refused(env, acts, st0, act)
        || (act.EnsureDatabase? && act.name !in st0.dbs && cause == LostCause(act.name))
    case _ => true
  }

  /** All that a run has behind it is in force, and it is where it is for a reason. */
  ghost predicate ProcInv(env: Env, acts: seq<Act>, st0: Cluster, st: Cluster, p: Proc) {
    && p.next <= |acts|
    && (forall j :: 0 <= j < p.next ==> InForce(env, acts[j], st))
    && (if p.next < |acts| then PointInv(env, acts, st0, st, acts[p.next], p.point)
        else p.point.Stopped? ==> !FromServer(p.point.cause))
  }

  ghost predicate Inv(env: Env, acts: seq<Act>, st0: Cluster, w: World) {
    Grown(acts, st0, w.st) && forall i :: 0 <= i < |w.procs| ==> ProcInv(env, acts, st0, w.st, w.procs[i])
  }

  lemma PassGrows(env: Env, acts: seq<Act>, st0: Cluster, st: Cluster, n: nat)
    requires SharedList(acts) && n < |acts| && Step(env, st, acts[n]).1 && Grown(acts, st0, st)
    ensures var st' := Step(env, st, acts[n]).0;
      Grown(acts, st0, st') && st.roles.Keys <= st'.roles.Keys && st.dbs.Keys <= st'.dbs.Keys
  {
    assert SharedAct(acts[n]);
    if acts[n].Sql? && acts[n].stmt.GrantRole? {
      assert acts[n] in acts;
      assert (acts[n].stmt.member, acts[n].stmt.parent) in Edges(acts);
    }
  }

  /** An act that went through keeps everybody's invariant. */
  lemma PassKeeps(env: Env, acts: seq<Act>, st0: Cluster, st: Cluster, n: nat, p: Proc)
    requires Fair(env) && SharedList(acts) && n < |acts| && Step(env, st, acts[n]).1 && Grown(acts, st0, st)
    requires ProcInv(env, acts, st0, st, p)
    ensures ProcInv(env, acts, st0, Step(env, st, acts[n]).0, p)
  {
    var st' := Step(env, st, acts[n]).0;
    PassGrows(env, acts, st0, st, n);
    forall j | 0 <= j < p.next
      ensures InForce(env, acts[j], st')
    {
      assert SharedAct(acts[j]) && Compatible(acts[j], acts[n]);
      StepKeeps(env, st, acts[j], acts[n]);
    }
  }

  /** The run that passed an act is at the next, with this one in force. */
  lemma AheadInv(env: Env, acts: seq<Act>, st0: Cluster, st: Cluster, p: Proc)
    requires Fair(env) && SharedList(acts) && p.next < |acts| && Step(env, st, acts[p.next]).1 && Grown(acts, st0, st)
    requires ProcInv(env, acts, st0, st, p)
    ensures ProcInv(env, acts, st0, Step(env, st, acts[p.next]).0, Ahead(acts, p))
  {
    ThisInForce(env, acts, st, p.next);
    PassKeeps(env, acts, st0, st, p.next, p);
    OneFurther(env, acts, st0, Step(env, st, acts[p.next]).0, p);
  }

  lemma OneFurther(env: Env, acts: seq<Act>, st0: Cluster, st: Cluster, p: Proc)
    requires ProcInv(env, acts, st0, st, p) && p.next < |acts| && InForce(env, acts[p.next], st)
    ensures ProcInv(env, acts, st0, st, Ahead(acts, p))
  {
  }

  lemma ThisInForce(env: Env, acts: seq<Act>, st: Cluster, n: nat)
    requires Fair(env) && SharedList(acts) && n < |acts| && Step(env, st, acts[n]).1
    ensures InForce(env, acts[n], Step(env, st, acts[n]).0)
  {
    StepEstablishes(env, st, acts[n]);
  }

  lemma AllPassed(env: Env, acts: seq<Act>, st0: Cluster, w: World, i: nat, w': World)
    requires Fair(env) && SharedList(acts) && Inv(env, acts, st0, w) && Underway(acts, w, i)
    requires Step(env, w.st, acts[w.procs[i].next]) == (w'.st, true)
    requires w'.procs == w.procs[i := Ahead(acts, w.procs[i])]
    ensures Inv(env, acts, st0, w')
  {
    var n := w.procs[i].next;
    PassGrows(env, acts, st0, w.st, n);
    AheadInv(env, acts, st0, w.st, w.procs[i]);
    forall k | 0 <= k < |w.procs|
      ensures ProcInv(env, acts, st0, w'.st, w'.procs[k])
    {
      PassKeeps(env, acts, st0, w.st, n, w.procs[k]);
    }
  }

  /** A run that stays at its act, where its new point has its reason, disturbs nobody. */
  lemma Stays(env: Env, acts: seq<Act>, st0: Cluster, w: World, i: nat, point: Point)
    requires Inv(env, acts, st0, w) && Underway(acts, w, i)
    requires PointInv(env, acts, st0, w.st, acts[w.procs[i].next], point)
    ensures Inv(env, acts, st0, With(w, i, w.procs[i].(point := point)))
  {
  }

  lemma AskKeepsInv(env: Env, acts: seq<Act>, st0: Cluster, w: World, i: nat, fault: Option<string>, w': World)
    requires Fair(env) && SharedList(acts) && Inv(env, acts, st0, w) && Asks(env, acts, w, i, fault, w')
    ensures Inv(env, acts, st0, w')
  {
    var act := acts[w.procs[i].next];
    if w'.procs[i] == Ahead(acts, w.procs[i]) {
      AllPassed(env, acts, st0, w, i, w');
    } else {
      Stays(env, acts, st0, w, i, w'.procs[i].point);
    }
  }

  lemma CreateKeepsInv(env: Env, acts: seq<Act>, st0: Cluster, w: World, i: nat, reply: Reply, w': World)
    requires Fair(env) && SharedList(acts) && Inv(env, acts, st0, w) && Creates(env, acts, w, i, reply, w')
    ensures Inv(env, acts, st0, w')
  {
    var role := acts[w.procs[i].next].role;
    assert ProcInv(env, acts, st0, w.st, w.procs[i]);
    if reply.Success? {
      AllPassed(env, acts, st0, w, i, w');
    } else {
      RoleExistsRecognised(role.name);
      Stays(env, acts, st0, w, i, w'.procs[i].point);
    }
  }

  lemma AlterKeepsInv(env: Env, acts: seq<Act>, st0: Cluster, w: World, i: nat, reply: Reply, w': World)
    requires Fair(env) && SharedList(acts) && Inv(env, acts, st0, w) && Alters(env, acts, w, i, reply, w')
    ensures Inv(env, acts, st0, w')
  {
    assert ProcInv(env, acts, st0, w.st, w.procs[i]);
    if reply.Success? {
      AllPassed(env, acts, st0, w, i, w');
    } else {
      Stays(env, acts, st0, w, i, w'.procs[i].point);
    }
  }

  /** A role that was there or is declared is there when the act needs it. */
  lemma NotMissing(env: Env, acts: seq<Act>, st0: Cluster, st: Cluster, p: Proc, role: string)
    requires SharedList(acts) && Grown(acts, st0, st) && ProcInv(env, acts, st0, st, p) && p.next < |acts|
    requires acts[p.next].EnsureDatabase? || (acts[p.next].Sql? && acts[p.next].stmt.GrantRole?)
    ensures role in st.roles || Missing(acts, st0, role)
  {
    assert RolesBefore(acts, p.next);
    if Ensures(acts, role) {
      assert Ensures(acts[..p.next], role);
      var k :| 0 <= k < p.next && acts[..p.next][k].EnsureRole? && acts[..p.next][k].role.name == role;
      assert InForce(env, acts[k], st);
    }
  }

  lemma MakeKeepsInv(env: Env, acts: seq<Act>, st0: Cluster, w: World, i: nat, reply: Reply, w': World)
    requires Fair(env) && SharedList(acts) && Inv(env, acts, st0, w) && Makes(env, acts, w, i, reply, w')
    ensures Inv(env, acts, st0, w')
  {
    var p, act := w.procs[i], acts[w.procs[i].next];
    assert ProcInv(env, acts, st0, w.st, p) && SharedAct(act);
    if reply.Success? {
      AllPassed(env, acts, st0, w, i, w');
    } else {
      NotMissing(env, acts, st0, w.st, p, act.owner);
      Stays(env, acts, st0, w, i, w'.procs[i].point);
    }
  }

  lemma OwnKeepsInv(env: Env, acts: seq<Act>, st0: Cluster, w: World, i: nat, reply: Reply, w': World)
    requires Fair(env) && SharedList(acts) && Inv(env, acts, st0, w) && Owns(env, acts, w, i, reply, w')
    ensures Inv(env, acts, st0, w')
  {
    var p, act := w.procs[i], acts[w.procs[i].next];
    assert ProcInv(env, acts, st0, w.st, p) && SharedAct(act);
    if reply.Success? {
      AllPassed(env, acts, st0, w, i, w');
    } else {
      NotMissing(env, acts, st0, w.st, p, act.owner);
      Stays(env, acts, st0, w, i, w'.procs[i].point);
    }
  }

  /** The role a statement is about is there. */
  lemma SubjectThere(env: Env, acts: seq<Act>, st0: Cluster, st: Cluster, p: Proc)
    requires SharedList(acts) && ProcInv(env, acts, st0, st, p) && p.next < |acts| && acts[p.next].Sql?
    ensures Subject(acts[p.next].stmt).Some? && Subject(acts[p.next].stmt).value in st.roles
  {
    var n := p.next;
    assert SharedAct(acts[n]) && GroundedAt(acts, n);
    var k :| 0 <= k < n && acts[..n][k].EnsureRole? && acts[..n][k].role.name == Subject(acts[n].stmt).value;
    assert InForce(env, acts[k], st);
  }

  /** A statement of the role phase that fails has a reason. */
  lemma SendReason(env: Env, acts: seq<Act>, st0: Cluster, st: Cluster, p: Proc)
    requires SharedList(acts) && Grown(acts, st0, st) && ProcInv(env, acts, st0, st, p)
    requires p.next < |acts| && acts[p.next].Sql? && Exec(env, st, MAINTENANCE_DB, acts[p.next].stmt).Failure?
    ensures Refused(env, acts, st0, acts[p.next])
  {
    var act := acts[p.next];
    assert SharedAct(act);
    SubjectThere(env, acts, st0, st, p);
    if act.stmt.GrantRole? {
      NotMissing(env, acts, st0, st, p, act.stmt.parent);
      PgRoleOrder.GroupsGrow(st.members, st0.members + Edges(acts), {act.stmt.parent});
    }
  }

  lemma SendKeepsInv(env: Env, acts: seq<Act>, st0: Cluster, w: World, i: nat, reply: Reply, w': World)
    requires Fair(env) && SharedList(acts) && Inv(env, acts, st0, w) && Sends(env, acts, w, i, reply, w')
    ensures Inv(env, acts, st0, w')
  {
    assert ProcInv(env, acts, st0, w.st, w.procs[i]);
    if reply.Success? {
      AllPassed(env, acts, st0, w, i, w');
    } else {
      if reply == Exec(env, w.st, MAINTENANCE_DB, acts[w.procs[i].next].stmt) {
        SendReason(env, acts, st0, w.st, w.procs[i]);
      }
      Stays(env, acts, st0, w, i, w'.procs[i].point);
    }
  }

  /** Every interleaved step keeps the invariant of every run. */
  lemma NextKeepsInv(env: Env, acts: seq<Act>, st0: Cluster, w: World, w': World)
    requires Fair(env) && SharedList(acts) && Inv(env, acts, st0, w) && Next(env, acts, w, w')
    ensures Inv(env, acts, st0, w')
  {
    if i, fault :| Asks(env, acts, w, i, fault, w') {
      AskKeepsInv(env, acts, st0, w, i, fault, w');
    } else if i, reply :| Creates(env, acts, w, i, reply, w') {
      CreateKeepsInv(env, acts, st0, w, i, reply, w');
    } else if i, reply :| Alters(env, acts, w, i, reply, w') {
      AlterKeepsInv(env, acts, st0, w, i, reply, w');
    } else if i, reply :| Makes(env, acts, w, i, reply, w') {
      MakeKeepsInv(env, acts, st0, w, i, reply, w');
    } else if i, reply :| Owns(env, acts, w, i, reply, w') {
      OwnKeepsInv(env, acts, st0, w, i, reply, w');
    } else if i, reply :| Sends(env, acts, w, i, reply, w') {
      SendKeepsInv(env, acts, st0, w, i, reply, w');
    } else {
      var i: nat :| Cancels(w, i, w');
      assert ProcInv(env, acts, st0, w.st, w.procs[i]);
    }
  }

  lemma FrontIsRun(env: Env, acts: seq<Act>, run: seq<World>)
    requires IsRun(env, acts, run) && |run| > 1
    ensures var n := |run| - 1;
      && IsRun(env, acts, run[..n]) && run[..n][0] == run[0] && run[..n][n - 1] == run[n - 1]
      && Next(env, acts, run[n - 1], run[n])
  {
    var front := run[..|run| - 1];
    forall k | 0 <= k < |front| - 1
      ensures Next(env, acts, front[k], front[k + 1])
    {
      assert Next(env, acts, run[k], run[k + 1]);
    }
  }

  lemma {:induction false} RunKeepsInv(env: Env, acts: seq<Act>, run: seq<World>)
    requires Fair(env) && SharedList(acts) && IsRun(env, acts, run)
    ensures Inv(env, acts, run[0].st, run[|run| - 1])
  {
    if |run| > 1 {
      var n := |run| - 1;
      FrontIsRun(env, acts, run);
      RunKeepsInv(env, acts, run[..n]);
      NextKeepsInv(env, acts, run[0].st, run[n - 1], run[n]);
    }
  }

  // ----- A reason stops a lone run too

  lemma EdgesArePairs(name: string, cfg: Config)
    ensures Edges(SharedActs(name, cfg)) <= PgRoleOrder.PairSet(cfg.roles)
  {
    var acts := SharedActs(name, cfg);
    forall act | act in acts && act.Sql? && act.stmt.GrantRole?
      ensures (act.stmt.member, act.stmt.parent) in PgRoleOrder.PairSet(cfg.roles)
    {
      GrantIsPair(name, cfg, act);
    }
  }

  lemma GrantIsPair(name: string, cfg: Config, act: Act)
    requires act in SharedActs(name, cfg) && act.Sql? && act.stmt.GrantRole?
    ensures (act.stmt.member, act.stmt.parent) in PgRoleOrder.PairSet(cfg.roles)
  {
    RoleActsOf(cfg.roles, act);
    var role :| role in cfg.roles && OfRole(role, act);
    PgRoleOrder.PairIn(cfg.roles, role, act.stmt.parent);
  }

  /** What a lone run of the role phase that passed shows about each of its acts. */
  lemma PhaseActTaken(env: Env, name: string, cfg: Config, st: Cluster, act: Act)
    requires DistinctRoles(cfg.roles) && PgRoleOrder.Acyclic(st.members) && Run(env, RolePhase(cfg), st).1
    requires act in RolePhase(cfg) && Connectable(st, MAINTENANCE_DB)
    ensures !Refused(env, SharedActs(name, cfg), st, act)
  {
    if act.Sql? && act.stmt.GrantRole? {
      RoleActsOf(cfg.roles, act);
      GrantTaken(env, name, cfg, st, act);
    } else {
      var role := TakenRole(env, cfg, st, act);
      TakenHolds(env, SharedActs(name, cfg), st, role, act);
    }
  }

  lemma TakenRole(env: Env, cfg: Config, st: Cluster, act: Act) returns (role: Role)
    requires DistinctRoles(cfg.roles) && PgRoleOrder.Acyclic(st.members) && Run(env, RolePhase(cfg), st).1
    requires act in RolePhase(cfg)
    ensures OfRole(role, act) && PgRoleOrder.Taken(env, st, role)
  {
    RoleActsOf(cfg.roles, act);
    role :| role in cfg.roles && OfRole(role, act);
    PgRoleOrder.RolePhaseRun(env, cfg, st);
  }

  lemma TakenHolds(env: Env, acts: seq<Act>, st: Cluster, role: Role, act: Act)
    requires OfRole(role, act) && PgRoleOrder.Taken(env, st, role) && !(act.Sql? && act.stmt.GrantRole?)
    ensures !Refused(env, acts, st, act)
  {
  }

  /** A membership that can be granted, and closes no circle together with all the others. */
  lemma GrantHolds(
    env: Env, st: Cluster, here: Cluster, acts: seq<Act>, pairs: set<(string, string)>, parent: string, member: string)
    requires Connectable(st, MAINTENANCE_DB) && (member, parent) in pairs && Edges(acts) <= pairs
    requires PgRoleOrder.Acyclic(st.members + pairs) && PgRoleOrder.Grantable(env, here, (member, parent))
    requires forall role :: role in here.roles ==> !Missing(acts, st, role)
    ensures !Refused(env, acts, st, Sql(MAINTENANCE_DB, GrantRole(parent, member)))
  {
    PgRoleOrder.GroupsGrow(st.members + Edges(acts), st.members + pairs, {parent});
    assert (member, parent) in st.members + pairs;
  }

  lemma GrantTaken(env: Env, name: string, cfg: Config, st: Cluster, act: Act)
    requires DistinctRoles(cfg.roles) && PgRoleOrder.Acyclic(st.members) && Run(env, RolePhase(cfg), st).1
    requires act in RolePhase(cfg) && act.Sql? && act.at == MAINTENANCE_DB && act.stmt.GrantRole?
    requires Connectable(st, MAINTENANCE_DB)
    ensures !Refused(env, SharedActs(name, cfg), st, act)
  {
    var here := Run(env, AllRoleActs(cfg.roles), st).0;
    GrantIsPair(name, cfg, act);
    PgRoleOrder.RolePhaseRun(env, cfg, st);
    SharedRolesFirst(name, cfg);
    EdgesArePairs(name, cfg);
    GrantHolds(env, st, here, SharedActs(name, cfg), PgRoleOrder.PairSet(cfg.roles), act.stmt.parent, act.stmt.member);
  }

  /** The state a lone run meets the database in. */
  lemma PhaseLeaves(env: Env, name: string, cfg: Config, st: Cluster)
    requires DistinctRoles(cfg.roles) && PgRoleOrder.Acyclic(st.members) && Run(env, RolePhase(cfg), st).1
    ensures var here := Run(env, RolePhase(cfg), st).0;
      here.dbs == st.dbs && forall role :: role in here.roles <==> !Missing(SharedActs(name, cfg), st, role)
  {
    PgRoleOrder.RolePhaseRun(env, cfg, st);
    SharedRolesFirst(name, cfg);
  }

  lemma DatabaseHolds(env: Env, acts: seq<Act>, st: Cluster, here: Cluster, act: Act)
    requires act.EnsureDatabase? && act.create.owner == act.owner && Step(env, here, act).1
    requires here.dbs == st.dbs && forall role :: role in here.roles <==> !Missing(acts, st, role)
    ensures Connectable(st, MAINTENANCE_DB) && !Refused(env, acts, st, act)
  {
  }

  lemma DatabaseTaken(env: Env, name: string, cfg: Config, st: Cluster)
    requires DistinctRoles(cfg.roles) && PgRoleOrder.Acyclic(st.members) && Run(env, SharedActs(name, cfg), st).1
    ensures Run(env, RolePhase(cfg), st).1 && Connectable(st, MAINTENANCE_DB)
    ensures !Refused(env, SharedActs(name, cfg), st, EnsureDatabase(name, ClauseOfDatabase(cfg), cfg.owner))
  {
    var act := EnsureDatabase(name, ClauseOfDatabase(cfg), cfg.owner);
    RunSnoc(env, RolePhase(cfg), act, st);
    PhaseLeaves(env, name, cfg, st);
    DatabaseHolds(env, SharedActs(name, cfg), st, Run(env, RolePhase(cfg), st).0, act);
  }

  /** A run on its own is stopped by any of these reasons as well. */
  lemma RefusedAlone(env: Env, name: string, cfg: Config, st: Cluster, act: Act)
    requires DistinctRoles(cfg.roles) && PgRoleOrder.Acyclic(st.members)
    requires act in SharedActs(name, cfg) && Refused(env, SharedActs(name, cfg), st, act)
    ensures !Run(env, SharedActs(name, cfg), st).1
  {
    if Run(env, SharedActs(name, cfg), st).1 {
      DatabaseTaken(env, name, cfg, st);
      if act in RolePhase(cfg) {
        PhaseActTaken(env, name, cfg, st, act);
      }
    }
  }

  // ----- What it gives

  lemma PhaseIn(name: string, cfg: Config, j: nat)
    requires j < |RolePhase(cfg)|
    ensures SharedActs(name, cfg)[j] == RolePhase(cfg)[j]
  {
  }

  lemma EnsureRoleInPhase(cfg: Config, role: Role)
    requires role in cfg.roles
    ensures EnsureRole(role) in RolePhase(cfg)
  {
    assert RoleActs(role)[0] == EnsureRole(role);
    RolesHave(cfg.roles, role, EnsureRole(role));
    InEither(AllRoleActs(cfg.roles), AllJoinActs(cfg.roles), EnsureRole(role));
  }

  /**
   * Whatever the interleaving, and whatever faults there are: if the server stops a run, then a run on its own would
   * have been stopped too, or the run lost the race for the database. Nobody is stopped because another run created
   * its role or granted its memberships first; and a run that is through its role phase has left every declared role
   * as declared, whatever the others do meanwhile.
   */
  lemma NobodyLosesTheRace(env: Env, name: string, cfg: Config, run: seq<World>, i: nat)
    requires Fair(env) && WellFormed(cfg) && IsRun(env, SharedActs(name, cfg), run)
    requires PgRoleOrder.Acyclic(run[0].st.members) && i < |run[|run| - 1].procs|
    ensures var acts, w := SharedActs(name, cfg), run[|run| - 1];
      var p := w.procs[i];
      && p.next <= |acts|
      && (p.point.Stopped? && FromServer(p.point.cause) ==>
            !Run(env, acts, run[0].st).1 || (LostDatabase(acts, p) && name !in run[0].st.dbs))
      && (p.next >= |RolePhase(cfg)| ==>
            && (forall act :: act in RolePhase(cfg) ==> InForce(env, act, w.st))
            && (forall role :: role in cfg.roles ==> OptionsInForce(role, w.st)))
  {
    var acts, w := SharedActs(name, cfg), run[|run| - 1];
    var p := w.procs[i];
    SharedIsShared(name, cfg);
    RunKeepsInv(env, acts, run);
    assert ProcInv(env, acts, run[0].st, w.st, p);
    if p.point.Stopped? && FromServer(p.point.cause) {
      SharedEarly(name, cfg, acts[p.next]);
      if Refused(env, acts, run[0].st, acts[p.next]) {
        RefusedAlone(env, name, cfg, run[0].st, acts[p.next]);
      } else {
        SharedDatabase(name, cfg, acts[p.next]);
      }
    }
    if p.next >= |RolePhase(cfg)| {
      forall act | act in RolePhase(cfg)
        ensures InForce(env, act, w.st)
      {
        var j :| 0 <= j < |RolePhase(cfg)| && RolePhase(cfg)[j] == act;
        PhaseIn(name, cfg, j);
      }
      forall role | role in cfg.roles
        ensures OptionsInForce(role, w.st)
      {
        EnsureRoleInPhase(cfg, role);
      }
    }
  }

  lemma SharedDatabase(name: string, cfg: Config, act: Act)
    requires act in SharedActs(name, cfg) && act.EnsureDatabase?
    ensures act.name == name
  {
    SharedEarly(name, cfg, act);
  }
}
