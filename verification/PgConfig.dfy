/** The postgres block, from the decoded raw structs to the Config the driver converges to. */
module PgConfig {
  import opened Strings

  const UNLIMITED_CONNECTIONS := -1
  const DEFAULT_SHARED_BUFFERS := "16MB"
  const DEFAULT_MAX_CONNECTIONS := 50

  datatype Role = Role(
    name: string, login: bool, password: string, superuser: bool, createDB: bool, createRole: bool,
    replication: bool, inherits: bool, bypassRLS: bool, connectionLimit: int, validUntil: string,
    memberOf: seq<string>, comment: string, config: map<string, string>)

  datatype Schema = Schema(name: string, owner: string)

  datatype Extension = Extension(
    name: string, version: string, schema: string, source: string, optional: bool, cascade: bool)

  datatype Grant = Grant(
    role: string, privileges: seq<string>, database: string, schema: string, objects: string, withGrantOption: bool)

  datatype Config = Config(
    owner: string, encoding: string, locale: string, lcCollate: string, lcCtype: string, template: string,
    connectionLimit: int, isTemplate: bool, allowConns: bool, tablespace: string, comment: string,
    sharedBuffers: string, maxConnections: int, fsync: bool, autovacuum: bool, settings: map<string, string>,
    roles: seq<Role>, schemas: seq<Schema>, extensions: seq<Extension>, grants: seq<Grant>)

  // ----- Raw shapes

  datatype RawRole = RawRole(
    name: string, login: Option<bool>, password: string, superuser: bool, createDB: bool, createRole: bool,
    replication: bool, inherits: Option<bool>, bypassRLS: bool, connectionLimit: Option<int>, validUntil: string,
    memberOf: seq<string>, comment: string, config: map<string, string>)

  datatype RawBody = RawBody(
    owner: string, encoding: string, locale: string, lcCollate: string, lcCtype: string, template: string,
    connectionLimit: Option<int>, isTemplate: Option<bool>, allowConns: Option<bool>, tablespace: string,
    comment: string, sharedBuffers: string, maxConnections: int, fsync: Option<bool>, autovacuum: Option<bool>,
    settings: map<string, string>, extensions: seq<string>, extensionBlocks: seq<Extension>,
    roles: seq<RawRole>, schemas: seq<Schema>, grants: seq<Grant>)

  datatype DecodeError =
    | SettingNeeds(setting: string, major: nat)
    | RoleWithoutName | RoleTwice(name: string)
    | SchemaWithoutName
    | ExtensionWithoutName | ExtensionTwice(name: string)
    | GrantFault(index: nat, fault: GrantError)

  datatype GrantError =
    | MissingRole | MissingPrivileges | NoTarget | BothTargets
    | InvalidObjects | ObjectsWithoutSchema | UnknownPrivilege(privilege: string)

  // ----- Roles

  /** normalizeRole, once the name is known not to be missing. */
  function NormalizeRole(raw: RawRole): Role {
    Role(raw.name, Or(raw.login, true), raw.password, raw.superuser, raw.createDB, raw.createRole,
         raw.replication, Or(raw.inherits, true), raw.bypassRLS, Or(raw.connectionLimit, UNLIMITED_CONNECTIONS),
         raw.validUntil, raw.memberOf, raw.comment, raw.config)
  }

  predicate DistinctRoles(roles: seq<Role>) {
    forall i, j :: 0 <= i < j < |roles| ==> roles[i].name != roles[j].name
  }

  predicate RolesDecodable(raw: seq<RawRole>) {
    && (forall i :: 0 <= i < |raw| ==> raw[i].name != "")
    && (forall i, j :: 0 <= i < j < |raw| ==> raw[i].name != raw[j].name)
  }

  method DecodeRoles(raw: seq<RawRole>) returns (result: Result<seq<Role>, DecodeError>)
    ensures result.Success? <==> RolesDecodable(raw)
    ensures result.Success? ==> DistinctRoles(result.value)
    ensures result.Success? ==>
      |result.value| == |raw| && forall i :: 0 <= i < |raw| ==> result.value[i] == NormalizeRole(raw[i])
    ensures result == Failure(RoleWithoutName) ==> exists i :: 0 <= i < |raw| && raw[i].name == ""
    ensures result.Failure? && result.error.RoleTwice? ==>
      exists i, j :: 0 <= i < j < |raw| && raw[i].name == raw[j].name == result.error.name
  {
    var seen: set<string> := {};
    var roles: seq<Role> := [];
    for n := 0 to |raw|
      invariant |roles| == n && forall i :: 0 <= i < n ==> roles[i] == NormalizeRole(raw[i])
      invariant forall i :: 0 <= i < n ==> raw[i].name != "" && raw[i].name in seen
      invariant forall name :: name in seen ==> exists i :: 0 <= i < n && raw[i].name == name
      invariant forall i, j :: 0 <= i < j < n ==> raw[i].name != raw[j].name
    {
      if raw[n].name == "" {
        return Failure(RoleWithoutName);
      }
      var role := NormalizeRole(raw[n]);
      if role.name in seen {
        return Failure(RoleTwice(role.name));
      }
      seen := seen + {role.name};
      roles := roles + [role];
    }
    result := Success(roles);
  }

  // ----- Extensions

  function ByName(name: string): Extension {
    Extension(name, "", "", "", false, false)
  }

  predicate DistinctExtensions(exts: seq<Extension>) {
    forall i, j :: 0 <= i < j < |exts| ==> exts[i].name != exts[j].name
  }

  /** The names of the `extensions` list, each once, where it first stands. */
  function Once(names: seq<string>): seq<string> {
    if names == [] then []
    else
      var front := Once(names[..|names| - 1]);
      if names[|names| - 1] in front then front else front + [names[|names| - 1]]
  }

  lemma {:induction false} OnceMembers(names: seq<string>)
    ensures forall name :: name in Once(names) <==> name in names
    ensures forall i, j :: 0 <= i < j < |Once(names)| ==> Once(names)[i] != Once(names)[j]
  {
    if names != [] {
      var n := |names| - 1;
      OnceMembers(names[..n]);
      assert names == names[..n] + [names[n]];
    }
  }

  function AllByName(names: seq<string>): (exts: seq<Extension>)
    ensures |exts| == |names|
  {
    seq(|names|, i requires 0 <= i < |names| => ByName(names[i]))
  }

  predicate BlocksDecodable(names: seq<string>, blocks: seq<Extension>) {
    && (forall i :: 0 <= i < |blocks| ==> blocks[i].name != "" && blocks[i].name !in names)
    && DistinctExtensions(blocks)
  }

  method DecodeExtensions(names: seq<string>, blocks: seq<Extension>)
    returns (result: Result<seq<Extension>, DecodeError>)
    ensures result.Success? <==> BlocksDecodable(names, blocks)
    ensures result.Success? ==> result.value == AllByName(Once(names)) + blocks
    ensures result.Success? ==> DistinctExtensions(result.value)
  {
    var seen: set<string> := {};
    var exts: seq<Extension> := [];
    OnceMembers([]);
    for n := 0 to |names|
      invariant exts == AllByName(Once(names[..n]))
      invariant forall name :: name in seen <==> name in Once(names[..n])
    {
      assert names[..n + 1][..n] == names[..n];
      if names[n] !in seen {
        seen := seen + {names[n]};
        exts := exts + [ByName(names[n])];
      }
    }
    assert names[..|names|] == names;
    OnceMembers(names);
    for n := 0 to |blocks|
      invariant exts == AllByName(Once(names)) + blocks[..n]
      invariant forall name :: name in seen <==> name in names || exists i :: 0 <= i < n && blocks[i].name == name
      invariant BlocksDecodable(names, blocks[..n])
    {
      if blocks[n].name == "" {
        return Failure(ExtensionWithoutName);
      }
      if blocks[n].name in seen {
        return Failure(ExtensionTwice(blocks[n].name));
      }
      seen := seen + {blocks[n].name};
      exts := exts + [blocks[n]];
      assert blocks[..n + 1] == blocks[..n] + [blocks[n]];
    }
    assert blocks[..|blocks|] == blocks;
    result := Success(exts);
  }

  // ----- Grants

  const GRANT_OBJECTS: set<string> := {"", "tables", "sequences", "functions"}

  const PRIVILEGES: set<string> := {
    "ALL", "ALL PRIVILEGES", "SELECT", "INSERT", "UPDATE", "DELETE", "TRUNCATE", "REFERENCES", "TRIGGER",
    "CREATE", "CONNECT", "TEMPORARY", "TEMP", "EXECUTE", "USAGE", "SET", "ALTER SYSTEM", "MAINTAIN"}

  /** normalizeGrant's checks, in its order. */
  function GrantFaultOf(g: Grant): Option<GrantError> {
    if g.role == "" then Some(MissingRole)
    else if g.privileges == [] then Some(MissingPrivileges)
    else if g.database == "" && g.schema == "" then Some(NoTarget)
    else if g.database != "" && g.schema != "" then Some(BothTargets)
    else if g.objects !in GRANT_OBJECTS then Some(InvalidObjects)
    else if g.objects != "" && g.schema == "" then Some(ObjectsWithoutSchema)
    else FirstUnknown(g.privileges)
  }

  function FirstUnknown(privileges: seq<string>): Option<GrantError> {
    if privileges == [] then None
    else if Upper(TrimSpace(privileges[0])) !in PRIVILEGES then Some(UnknownPrivilege(privileges[0]))
    else FirstUnknown(privileges[1..])
  }

  /** A grant on exactly one database, schema, or kind of object in a schema, with known privileges only. */
  predicate ValidGrant(g: Grant) {
    && g.role != "" && g.privileges != []
    && (g.database != "" <==> g.schema == "")
    && g.objects in GRANT_OBJECTS && (g.objects != "" ==> g.schema != "")
    && forall i :: 0 <= i < |g.privileges| ==> Upper(TrimSpace(g.privileges[i])) in PRIVILEGES
  }

  lemma {:induction false} NoneUnknown(privileges: seq<string>)
    ensures FirstUnknown(privileges).None?
       <==> forall i :: 0 <= i < |privileges| ==> Upper(TrimSpace(privileges[i])) in PRIVILEGES
  {
    if privileges != [] {
      NoneUnknown(privileges[1..]);
      assert forall i :: 1 <= i < |privileges| ==> privileges[i] == privileges[1..][i - 1];
    }
  }

  /** normalizeGrant accepts exactly the valid grants. */
  lemma GrantAccepted(g: Grant)
    ensures GrantFaultOf(g).None? <==> ValidGrant(g)
  {
    NoneUnknown(g.privileges);
  }

  method DecodeGrants(raw: seq<Grant>) returns (result: Result<seq<Grant>, DecodeError>)
    ensures result.Success? <==> forall i :: 0 <= i < |raw| ==> ValidGrant(raw[i])
    ensures result.Success? ==> result.value == raw
    ensures result.Failure? ==>
      && result.error.GrantFault? && result.error.index < |raw|
      && GrantFaultOf(raw[result.error.index]) == Some(result.error.fault)
      && forall i :: 0 <= i < result.error.index ==> ValidGrant(raw[i])
  {
    var grants: seq<Grant> := [];
    for n := 0 to |raw|
      invariant grants == raw[..n]
      invariant forall i :: 0 <= i < n ==> ValidGrant(raw[i])
    {
      var fault := GrantFaultOf(raw[n]);
      GrantAccepted(raw[n]);
      if fault.Some? {
        return Failure(GrantFault(n, fault.value));
      }
      grants := grants + [raw[n]];
    }
    result := Success(grants);
  }

  // ----- The whole block

  /** What the later steps rely on. */
  predicate WellFormed(cfg: Config) {
    && DistinctRoles(cfg.roles)
    && DistinctExtensions(cfg.extensions)
    && forall i :: 0 <= i < |cfg.grants| ==> ValidGrant(cfg.grants[i])
  }

  predicate Decodable(raw: RawBody) {
    && RolesDecodable(raw.roles)
    && (forall i :: 0 <= i < |raw.schemas| ==> raw.schemas[i].name != "")
    && BlocksDecodable(raw.extensions, raw.extensionBlocks)
    && forall i :: 0 <= i < |raw.grants| ==> ValidGrant(raw.grants[i])
  }

  method DecodeSchemas(raw: seq<Schema>) returns (result: Result<seq<Schema>, DecodeError>)
    ensures result.Success? <==> forall i :: 0 <= i < |raw| ==> raw[i].name != ""
    ensures result.Success? ==> result.value == raw
  {
    var schemas: seq<Schema> := [];
    for n := 0 to |raw|
      invariant schemas == raw[..n]
      invariant forall i :: 0 <= i < n ==> raw[i].name != ""
    {
      if raw[n].name == "" {
        return Failure(SchemaWithoutName);
      }
      schemas := schemas + [raw[n]];
    }
    result := Success(schemas);
  }

  /** Settings that came with a later major version. */
  const VERSION_GATED: map<string, nat> := map["io_method" := 18, "summarize_wal" := 17]

  predicate GatesOpen(settings: map<string, string>, meets: nat -> bool) {
    forall key :: key in VERSION_GATED && key in settings ==> meets(VERSION_GATED[key])
  }

  /** Every gated setting is looked up, in whatever order the map is walked. */
  method CheckGates(settings: map<string, string>, meets: nat -> bool) returns (err: Option<DecodeError>)
    ensures err.None? <==> GatesOpen(settings, meets)
    ensures err.Some? ==> exists key ::
      && key in VERSION_GATED && key in settings && !meets(VERSION_GATED[key])
      && err.value == SettingNeeds(key, VERSION_GATED[key])
  {
    var left := VERSION_GATED.Keys;
    while left != {}
      invariant left <= VERSION_GATED.Keys
      invariant forall key :: key in VERSION_GATED && key !in left && key in settings ==> meets(VERSION_GATED[key])
    {
      var key :| key in left;
      left := left - {key};
      if key in settings && !meets(VERSION_GATED[key]) {
        return Some(SettingNeeds(key, VERSION_GATED[key]));
      }
    }
    err := None;
  }

  /** DecodeConfig, from the decoded body on; `meets` is whether the requested version is that major or a later one. */
  method DecodeConfig(raw: RawBody, meets: nat -> bool) returns (result: Result<Config, DecodeError>)
    ensures result.Success? <==> GatesOpen(raw.settings, meets) && Decodable(raw)
    ensures result.Failure? && !GatesOpen(raw.settings, meets) ==> result.error.SettingNeeds?
    ensures result.Success? ==> var cfg := result.value;
      && WellFormed(cfg)
      && cfg.connectionLimit == Or(raw.connectionLimit, UNLIMITED_CONNECTIONS)
      && cfg.isTemplate == Or(raw.isTemplate, false) && cfg.allowConns == Or(raw.allowConns, true)
      && cfg.sharedBuffers == (if raw.sharedBuffers == "" then DEFAULT_SHARED_BUFFERS else raw.sharedBuffers)
      && cfg.maxConnections == (if raw.maxConnections == 0 then DEFAULT_MAX_CONNECTIONS else raw.maxConnections)
      && cfg.owner == raw.owner && cfg.encoding == raw.encoding && cfg.locale == raw.locale
      && cfg.lcCollate == raw.lcCollate && cfg.lcCtype == raw.lcCtype && cfg.template == raw.template
      && cfg.tablespace == raw.tablespace && cfg.comment == raw.comment && cfg.settings == raw.settings
      && cfg.fsync == Or(raw.fsync, false) && cfg.autovacuum == Or(raw.autovacuum, false)
      && |cfg.roles| == |raw.roles|
      && (forall i :: 0 <= i < |raw.roles| ==> cfg.roles[i] == NormalizeRole(raw.roles[i]))
      && cfg.schemas == raw.schemas && cfg.grants == raw.grants
      && cfg.extensions == AllByName(Once(raw.extensions)) + raw.extensionBlocks
  {
    var gate := CheckGates(raw.settings, meets);
    if gate.Some? {
      return Failure(gate.value);
    }
    var roles := DecodeRoles(raw.roles);
    if roles.Failure? {
      return Failure(roles.error);
    }
    var schemas := DecodeSchemas(raw.schemas);
    if schemas.Failure? {
      return Failure(schemas.error);
    }
    var extensions := DecodeExtensions(raw.extensions, raw.extensionBlocks);
    if extensions.Failure? {
      return Failure(extensions.error);
    }
    var grants := DecodeGrants(raw.grants);
    if grants.Failure? {
      return Failure(grants.error);
    }
    result := Success(Config(
      raw.owner, raw.encoding, raw.locale, raw.lcCollate, raw.lcCtype, raw.template,
      Or(raw.connectionLimit, UNLIMITED_CONNECTIONS), Or(raw.isTemplate, false), Or(raw.allowConns, true),
      raw.tablespace, raw.comment,
      if raw.sharedBuffers == "" then DEFAULT_SHARED_BUFFERS else raw.sharedBuffers,
      if raw.maxConnections == 0 then DEFAULT_MAX_CONNECTIONS else raw.maxConnections,
      Or(raw.fsync, false), Or(raw.autovacuum, false), raw.settings,
      roles.value, schemas.value, extensions.value, grants.value));
  }
}
