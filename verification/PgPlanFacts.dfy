/** Which acts a plan contains, and why none of them undoes an earlier one. */
module PgPlanFacts {
  import opened Strings
  import opened Sequences
  import opened PgConfig
  import opened PgCluster
  import opened PgPlan
  import opened PgInForce

  // ----- Which acts a plan contains

  /** An act of the role phase, and the role it comes from. */
  predicate OfRole(role: Role, act: Act) {
    || act == EnsureRole(role)
    || (act.Sql? && act.at == MAINTENANCE_DB &&
        match act.stmt
        case SetParam(name, key, value) => name == role.name && key in role.config && role.config[key] == value
        case CommentOnRole(name, text) => name == role.name && text == role.comment != ""
        case GrantRole(parent, member) => member == role.name && parent in role.memberOf
        case _ => false)
  }

  /** An act of the database phase. */
  predicate OfDatabase(name: string, cfg: Config, act: Act) {
    || act == EnsureDatabase(name, ClauseOfDatabase(cfg), cfg.owner)
    || act in TuneActs(name, cfg)
    || (act == Sql(MAINTENANCE_DB, CommentOnDatabase(name, cfg.comment)) && cfg.comment != "")
  }

  /** An act on what the database holds. */
  predicate OfContents(name: string, cfg: Config, act: Act) {
    match act
    case FetchBundle(ext) => ext in cfg.extensions && ext.source != ""
    case MakeExtension(db, ext) => db == name && ext in cfg.extensions
    case Sql(at, CreateSchema(schema, owner)) => at == name && Schema(schema, owner) in cfg.schemas
    case Sql(at, GrantOnDatabase(g)) => at == MAINTENANCE_DB && g in cfg.grants && g.database != ""
    case Sql(at, GrantOnSchema(g)) => at == name && g in cfg.grants
    case Sql(at, GrantOnAll(g)) => at == name && g in cfg.grants
    case Sql(at, DefaultPrivileges(g)) => at == name && g in cfg.grants
    case _ => false
  }

  predicate Early(name: string, cfg: Config, act: Act) {
    (exists role :: role in cfg.roles && OfRole(role, act)) || OfDatabase(name, cfg, act)
  }

  lemma OneRoleActs(role: Role, act: Act)
    ensures act in RoleActs(role) ==> OfRole(role, act)
    ensures act in JoinActs(role) ==> OfRole(role, act)
  {
  }

  lemma {:induction false} RoleActsOf(roles: seq<Role>, act: Act)
    ensures act in AllRoleActs(roles) || act in AllJoinActs(roles) ==> exists role :: role in roles && OfRole(role, act)
  {
    if roles != [] {
      var n := |roles| - 1;
      RoleActsOf(roles[..n], act);
      OneRoleActs(roles[n], act);
      if act in AllRoleActs(roles[..n]) || act in AllJoinActs(roles[..n]) {
        var role :| role in roles[..n] && OfRole(role, act);
        assert role in roles;
      } else if act in AllRoleActs(roles) {
        InEither(AllRoleActs(roles[..n]), RoleActs(roles[n]), act);
        assert roles[n] in roles;
      } else if act in AllJoinActs(roles) {
        InEither(AllJoinActs(roles[..n]), JoinActs(roles[n]), act);
        assert roles[n] in roles;
      }
    }
  }

  lemma {:induction false} ExtensionActsOf(name: string, exts: seq<Extension>, act: Act)
    ensures act in AllExtensionActs(name, exts) ==>
      exists ext :: ext in exts && ((act == FetchBundle(ext) && ext.source != "") || act == MakeExtension(name, ext))
  {
    if exts != [] {
      var n := |exts| - 1;
      ExtensionActsOf(name, exts[..n], act);
      assert exts == exts[..n] + [exts[n]];
      assert exts[n] in exts;
    }
  }

  lemma {:induction false} GrantActsOf(name: string, grants: seq<Grant>, act: Act)
    ensures act in AllGrantActs(name, grants) ==> exists g :: g in grants && act in GrantActs(name, g)
  {
    if grants != [] {
      var n := |grants| - 1;
      GrantActsOf(name, grants[..n], act);
      assert grants == grants[..n] + [grants[n]];
      assert grants[n] in grants;
    }
  }

  function EarlyActs(name: string, cfg: Config): seq<Act> {
    RolePhase(cfg) + DatabaseActs(name, cfg)
  }

  function LateActs(name: string, cfg: Config): seq<Act> {
    SchemaActs(name, cfg.schemas) + AllExtensionActs(name, cfg.extensions) + AllGrantActs(name, cfg.grants)
  }

  function BeforeExtensions(name: string, cfg: Config): seq<Act> {
    EarlyActs(name, cfg) + SchemaActs(name, cfg.schemas)
  }

  lemma PlanSplits(name: string, cfg: Config)
    ensures Plan(name, cfg) == EarlyActs(name, cfg) + LateActs(name, cfg)
  {
    AssociativeFive(RolePhase(cfg), DatabaseActs(name, cfg), SchemaActs(name, cfg.schemas),
                    AllExtensionActs(name, cfg.extensions), AllGrantActs(name, cfg.grants));
  }

  lemma EarlyActsOf(name: string, cfg: Config, act: Act)
    requires act in EarlyActs(name, cfg)
    ensures Early(name, cfg, act)
  {
    RoleActsOf(cfg.roles, act);
  }

  lemma LateActsOf(name: string, cfg: Config, act: Act)
    requires act in LateActs(name, cfg)
    ensures OfContents(name, cfg, act)
  {
    ExtensionActsOf(name, cfg.extensions, act);
    GrantActsOf(name, cfg.grants, act);
    if act in SchemaActs(name, cfg.schemas) {
      var i :| 0 <= i < |cfg.schemas| && act == SchemaActs(name, cfg.schemas)[i];
      assert Schema(cfg.schemas[i].name, cfg.schemas[i].owner) == cfg.schemas[i];
    }
  }

  lemma InEither<T>(a: seq<T>, b: seq<T>, x: T)
    ensures x in a + b <==> x in a || x in b
  {
  }

  /** Every act of a plan belongs to a phase. */
  lemma PlanHas(name: string, cfg: Config, act: Act)
    requires act in Plan(name, cfg)
    ensures Early(name, cfg, act) || OfContents(name, cfg, act)
  {
    PlanSplits(name, cfg);
    InEither(EarlyActs(name, cfg), LateActs(name, cfg), act);
    if act in EarlyActs(name, cfg) {
      EarlyActsOf(name, cfg, act);
    } else {
      LateActsOf(name, cfg, act);
    }
  }

  lemma {:induction false} RolesHave(roles: seq<Role>, role: Role, act: Act)
    requires role in roles
    ensures act in RoleActs(role) ==> act in AllRoleActs(roles)
    ensures act in JoinActs(role) ==> act in AllJoinActs(roles)
  {
    var n := |roles| - 1;
    assert roles == roles[..n] + [roles[n]];
    InEither(AllRoleActs(roles[..n]), RoleActs(roles[n]), act);
    InEither(AllJoinActs(roles[..n]), JoinActs(roles[n]), act);
    if role != roles[n] {
      RolesHave(roles[..n], role, act);
    }
  }

  lemma {:induction false} ExtensionsHave(name: string, exts: seq<Extension>, ext: Extension)
    requires ext in exts
    ensures MakeExtension(name, ext) in AllExtensionActs(name, exts)
  {
    var n := |exts| - 1;
    assert exts == exts[..n] + [exts[n]];
    var act := MakeExtension(name, ext);
    InEither(AllExtensionActs(name, exts[..n]), ExtensionActs(name, exts[n]), act);
    if ext != exts[n] {
      ExtensionsHave(name, exts[..n], ext);
    }
  }

  lemma {:induction false} GrantsHave(name: string, grants: seq<Grant>, g: Grant, act: Act)
    requires g in grants && act in GrantActs(name, g)
    ensures act in AllGrantActs(name, grants)
  {
    var n := |grants| - 1;
    assert grants == grants[..n] + [grants[n]];
    InEither(AllGrantActs(name, grants[..n]), GrantActs(name, grants[n]), act);
    if g != grants[n] {
      GrantsHave(name, grants[..n], g, act);
    }
  }

  function TuneAct(name: string, cfg: Config): Act {
    Sql(MAINTENANCE_DB, AlterDatabase(name, LimitOf(cfg.connectionLimit), cfg.isTemplate, !cfg.allowConns))
  }

  lemma DatabaseHas(name: string, cfg: Config)
    ensures EnsureDatabase(name, ClauseOfDatabase(cfg), cfg.owner) in DatabaseActs(name, cfg)
    ensures LimitOf(cfg.connectionLimit).Some? || cfg.isTemplate || !cfg.allowConns ==>
      TuneAct(name, cfg) in DatabaseActs(name, cfg)
    ensures cfg.comment != "" ==> Sql(MAINTENANCE_DB, CommentOnDatabase(name, cfg.comment)) in DatabaseActs(name, cfg)
  {
    var first := [EnsureDatabase(name, ClauseOfDatabase(cfg), cfg.owner)];
    var comment := CommentOn(name, cfg);
    InEither(first + TuneActs(name, cfg), comment, first[0]);
    InEither(first + TuneActs(name, cfg), comment, TuneAct(name, cfg));
    InEither(first + TuneActs(name, cfg), comment, Sql(MAINTENANCE_DB, CommentOnDatabase(name, cfg.comment)));
  }

  /** The phases of a plan. */
  lemma InPlan(name: string, cfg: Config, act: Act)
    ensures act in Plan(name, cfg) <==>
      || act in AllRoleActs(cfg.roles) || act in AllJoinActs(cfg.roles)
      || act in DatabaseActs(name, cfg)
      || act in SchemaActs(name, cfg.schemas)
      || act in AllExtensionActs(name, cfg.extensions) || act in AllGrantActs(name, cfg.grants)
  {
    PlanSplits(name, cfg);
    InEither(EarlyActs(name, cfg), LateActs(name, cfg), act);
    InEither(RolePhase(cfg), DatabaseActs(name, cfg), act);
    InEither(AllRoleActs(cfg.roles), AllJoinActs(cfg.roles), act);
    InEither(SchemaActs(name, cfg.schemas) + AllExtensionActs(name, cfg.extensions), AllGrantActs(name, cfg.grants), act);
    InEither(SchemaActs(name, cfg.schemas), AllExtensionActs(name, cfg.extensions), act);
  }

  lemma SameRole(roles: seq<Role>, a: Role, b: Role)
    requires DistinctRoles(roles) && a in roles && b in roles && a.name == b.name
    ensures a == b
  {
  }

  lemma EarlyCompatible(name: string, cfg: Config, a: Act, b: Act)
    requires WellFormed(cfg)
    requires Early(name, cfg, a) && Early(name, cfg, b)
    ensures Compatible(a, b)
  {
    if p, q :| p in cfg.roles && q in cfg.roles && OfRole(p, a) && OfRole(q, b) {
      if p.name == q.name {
        SameRole(cfg.roles, p, q);
      }
    }
  }

  /** Any earlier act of a plan survives any later one. */
  lemma PlanCompatible(name: string, cfg: Config, i: nat, j: nat)
    requires WellFormed(cfg)
    requires i < j < |Plan(name, cfg)|
    ensures Compatible(Plan(name, cfg)[i], Plan(name, cfg)[j])
  {
    PlanSplits(name, cfg);
    var a, b := Plan(name, cfg)[i], Plan(name, cfg)[j];
    if j < |EarlyActs(name, cfg)| {
      EarlyActsOf(name, cfg, a);
      EarlyActsOf(name, cfg, b);
      EarlyCompatible(name, cfg, a, b);
    } else {
      LateActsOf(name, cfg, b);
    }
  }

  lemma EarlyPlannable(name: string, cfg: Config, act: Act)
    requires Early(name, cfg, act)
    ensures Plannable(act)
  {
  }

  lemma LatePlannable(name: string, cfg: Config, act: Act)
    requires OfContents(name, cfg, act)
    ensures Plannable(act)
  {
  }

  lemma PlanPlannable(name: string, cfg: Config, act: Act)
    requires act in Plan(name, cfg)
    ensures Plannable(act)
  {
    PlanHas(name, cfg, act);
    if Early(name, cfg, act) {
      EarlyPlannable(name, cfg, act);
    } else {
      LatePlannable(name, cfg, act);
    }
  }

  /** A list of acts none of which undoes an earlier one. */
  ghost predicate Coherent(acts: seq<Act>) {
    && (forall i :: 0 <= i < |acts| ==> Plannable(acts[i]))
    && (forall i, j :: 0 <= i < j < |acts| ==> Compatible(acts[i], acts[j]))
  }

  lemma PlanCoherent(name: string, cfg: Config)
    requires WellFormed(cfg)
    ensures Coherent(Plan(name, cfg))
  {
    var acts := Plan(name, cfg);
    forall i | 0 <= i < |acts|
      ensures Plannable(acts[i])
    {
      PlanPlannable(name, cfg, acts[i]);
    }
    forall i, j | 0 <= i < j < |acts|
      ensures Compatible(acts[i], acts[j])
    {
      PlanCompatible(name, cfg, i, j);
    }
  }
}
