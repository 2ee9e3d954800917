# Doze modules: what they promise, proved

A model in Dafny of the parts of the Doze modules where the most can go wrong, and proofs of what those parts promise.
`dafny verify dfyconfig.toml` checks all of it.

**The PostgreSQL wire filter.** Byte streams are finite sequences with a reader on them (`Streams`). `Startup` says what
a client's preamble means (negotiation packets, then a StartupMessage or a CancelRequest, laid out as in sections 55.2
and 55.7 of the PostgreSQL 16 documentation), and `Session` and `Preamble` are the loop, the reader swap under TLS and the
negotiation closure, proved to compute that meaning. `Frames` parses and serialises backend messages; `Handshake` forwards
them in place, frame by frame, through a client that may stop listening at any byte. `Cancel` is the registry of cancel
keys and the closures that fill and empty it. `CancelProtocol` is the step relation of any number of connections that
share one registry; its theorems are about every interleaving.

**PostgreSQL convergence and pruning.** `PgCluster` is a cluster as a state (roles, memberships, databases, schemas,
extensions, privileges) and each SQL statement as a transition that may fail. `PgPlan` turns a config into a list of acts,
each of which looks at the state and decides what to send. `PgConverge` is the driver's code itself, loop by loop, talking
to a server through weather (faults, retries, cancellation), and proved to follow that plan; `PgRunner` is the retry loop.
On top of this are whole-run theorems: crash and resume (`PgConfluence`, `PgSettled`, `PgIdempotent`), runs that pass
optional extensions over and what the next run makes of them (`PgThinned`, `PgStorm`), target (`PgTarget`, `PgClosed`),
frame (`PgFrame`), declaration order (`PgRoleOrder`), several runs at once (`PgRace`, `PgDuel`), and create against destroy
(`PgPrune`). `PgConfig` is the decoding that gives those theorems their premises.

**Printers and their readers.** Quoting and role options against a lexer and an option reader (`SqlText`, `SqlRole`), the
settings files of a cluster against a reader of their lines (`PgConf`, `PgConfFile`), the README splice (`Readme`), and
the kafka plugin's argument list against its own flag parser (`Kafka`).

**Two smaller drivers.** `Converging` is the general theory of programs made of idempotent steps; `FerretModel`, `Ferret`,
`MariaModel` and `Maria` instantiate it for the document store and for MariaDB, with the name encodings their `Prune` has
to decode. `Bytes`, `Strings` and `Sequences` are what they share.

## What turned out not to hold as promised

Each of these is a lemma, with the condition under which the promise does hold.

- *Cleanup takes a connection's keys back.* Only the last of them: `CleanupRestores` and `StaleKeysExactly` show that the
  registry is conserved exactly when no closed connection was sent more than one 8-byte BackendKeyData frame.
- *Every step of Converge is idempotent.* Not when an optional extension is declared before the one it needs
  (`OptionalBeforeItsDependency`); `IdempotentExactly` and `IdempotentFromStart` are the exact conditions on a run's end and
  on its start, and `DependencyOrderResumes` a condition on the config alone that suffices from every state.
- *A convergence that ran into trouble is repaired by the next.* A fault that makes an optional extension be passed over can
  still be felt after the next calm run, even in dependency order (`FaultLasts`). It cannot if no optional extension brings
  what a later one awaits or awaits what a later one brings (`SturdyForgets`, `StormThenCalm`).
- *A database that allows no connections can be declared.* Exactly where it would converge if it allowed them, if nothing
  is declared inside it (no schema, no required extension, no grant on its schemas) and it is not the database all
  statements are sent through (`ClosedExactly`).
- *Prune undoes Converge.* Not for a template database, nor for a closed one with something declared in it, nor where a
  declared role was granted something on another database, which keeps DROP ROLE from going through when the database is
  already gone (`DestroyUndoesCreate` has the exact condition); what was granted on other databases to others stays, and
  so does an extension declared under an alias (`AliasSurvivesPrune`).
- *A lost race is ridden out.* For roles and memberships it is (`NobodyLosesTheRace`). A CREATE DATABASE is not: with two
  or more runs some interleaving stops one exactly when the database is not there at the start (`DatabaseRaceExactly`).
- *Settings are passed through.* Exactly those whose value has no backslash and no line end come back as given
  (`QuotedExactly`), and the file as a whole does exactly if all do and all names are names (`ConfReadsBack`).
- *Locked parameters cannot be set.* All but listen_addresses can, by a file that a user's setting named include brings in
  (`LockedExactly`).
- *postgresql.conf includes doze.conf.* Not if the directive already stands there in a comment (`IncludedActive`).
- *Refreshing the README is idempotent.* Exactly when no module's text holds the end marker (`RefreshIdempotentExactly`).
- *Seeding is safe to repeat.* After an insert that stopped part of the way, the next run takes the part for the whole
  (`NextRunAfterFailure`, `CutShortForever`).
- *Destroying a ferret instance drops what it declares.* A collection of a database with a dot in its name is looked for
  under another database (`Ferret.DestroyExactly`); likewise a MariaDB user whose host holds an `@` is never dropped
  (`Maria.DestroyExactly`).
- *MariaDB grants go with their user.* Exactly those of accounts that a declared user's object is taken for
  (`GrantsGoneExactly`).

## Model

| member | source | states |
|---|---|---|
| `StartupParams.SplitCStrings` | modules/postgres/proxyfilter.go:261-274 | the loop returns the longest list of non-empty NUL-free strings the bytes start with: re-encoding it gives a prefix of the input, and what follows is an empty string or an unterminated tail |
| `StartupParams.SplitUnique` | modules/postgres/proxyfilter.go:261-274 | that list is the only one: nothing else can be split from the same bytes |
| `StartupParams.ParamsRoundTrip` | modules/postgres/proxyfilter.go:248-274 | splitting inverts the NUL-terminated encoding of every list of non-empty NUL-free strings, whatever follows its terminator |
| `StartupParams.ParseParams` | modules/postgres/proxyfilter.go:248-259 | database and user are the last-wins values of the complete pairs |
| `StartupParams.LastWinsMeaning` | modules/postgres/proxyfilter.go:248-259 | the value is that of the last pair with the key |
| `StartupParams.LastWinsAbsent` | modules/postgres/proxyfilter.go:248-259 | without such a pair it is empty |
| `Startup.ParseNegotiated` | modules/postgres/proxyfilter.go:145-162 | a run of SSL and GSS request packets, eight bytes each, only moves the parse along: one reply byte each, encrypted if one of them replaced the reader |
| `Startup.AcceptedWasNegotiated` | modules/postgres/proxyfilter.go:136-200 | whatever is accepted was negotiated packet by packet up to a well-formed StartupMessage or a CancelRequest |
| `Startup.AcceptsExactly` | modules/postgres/proxyfilter.go:136-200 | a startup is accepted if and only if some negotiation leads to a packet whose length field is its length, with version 196608 and a database; it is handed on byte for byte, nothing behind it is consumed, and the replies and the encrypted flag are those of the negotiation |
| `Startup.FinalIsPacket` | modules/postgres/proxyfilter.go:163-198 | the accepted packet and the rest, or the cancel request and the rest, are the input |
| `Startup.CancelUnderstood` | modules/postgres/proxyfilter.go:163-174 | a CancelRequest after any negotiation is read as its pid and secret, whatever follows it |
| `Startup.StartupRoundTrip` | modules/postgres/proxyfilter.go:177-198 | the packet built from a parameter list is accepted exactly when the list names a database or a user, the database defaulting to the user |
| `Startup.BuildCancelRequest` | modules/postgres/proxyfilter.go:239-246 | the buffer holds the sixteen bytes of a CancelRequest |
| `Session.ClientSession.Negotiate` | modules/postgres/proxyfilter.go:41-56 | 'S' and a TLS reader for SSL with TLS configured, 'N' and the same reader otherwise; a client that takes no reply, or whose handshake fails, is an error |
| `Session.ReadHeader` | modules/postgres/proxyfilter.go:138-143 | the eight header bytes, and the length and code in them |
| `Session.ReadCancel` | modules/postgres/proxyfilter.go:163-174 | the verdict on a cancel packet, with its length and short-read errors |
| `Session.ReadMessage` | modules/postgres/proxyfilter.go:177-198 | the verdict on a startup packet, with its length, short-read and no-database errors |
| `Session.ClientSession.ReadPacket` | modules/postgres/proxyfilter.go:137-199 | one turn of the loop: a verdict, or one reply and strictly less left to read |
| `Session.ClientSession.ReadStartup` | modules/postgres/proxyfilter.go:136-200 | the loop ends on every finite stream, through any number of reader swaps, with exactly the outcome and the replies the parse of the whole stream gives, and leaves the bytes behind the packet unread |
| `Preamble.Preamble` | modules/postgres/proxyfilter.go:39-70 | the client gets the negotiation replies and then the error, the SSL complaint or nothing; the connection is proxied with the exact startup packet, handled, or failed; a cancel is routed through the registry |
| `Frames.ScanEncoded` | modules/postgres/proxyfilter.go:202-237 | parsing inverts serialising: a startup's frames are found again, up to the first ReadyForQuery or ErrorResponse |
| `Frames.EncodeScanned` | modules/postgres/proxyfilter.go:202-237 | serialising inverts parsing: a startup found in the input is the front of the input, byte for byte |
| `Frames.EncodePartial` | modules/postgres/proxyfilter.go:203-216 | on malformed or short input only whole frames stand before the point of failure, none of them ending the startup |
| `Frames.RewriteMeaning` | modules/postgres/proxyfilter.go:217-223 | the i-th key takes the place of the payload of the i-th 8-byte BackendKeyData frame, and no other frame changes |
| `Frames.RewriteKeepsShape` | modules/postgres/proxyfilter.go:217-229 | swapping keys changes no frame's type or size |
| `Frames.ErrorResponseRefuses` | modules/postgres/proxyfilter.go:277-295 | a client parses the error as one ErrorResponse frame with nothing behind it |
| `Frames.ErrorFieldsSplit` | modules/postgres/proxyfilter.go:277-288 | its fields are severity twice, code and message, as NUL-terminated strings |
| `Cancel.Registry.Register` | modules/postgres/proxyfilter.go:82-83 | the key handed out has eight bytes, was not live, and now stands for the target |
| `Cancel.Registry.Unregister` | modules/postgres/proxyfilter.go:86-90 | exactly this key is gone |
| `Cancel.Registry.Lookup` | modules/postgres/proxyfilter.go:104-107 | what the key stands for, if it is live |
| `Cancel.KeySwap.RewriteKey` | modules/postgres/proxyfilter.go:78-85 | the real key is registered under a fresh one, which is returned as pid and secret |
| `Cancel.KeySwap.Cleanup` | modules/postgres/proxyfilter.go:86-90 | the last key handed out is taken back |
| `Cancel.IssueTargets` | modules/postgres/proxyfilter.go:78-85 | handing out keys leaves those in use alone, and each new one stands for its own real key |
| `Cancel.CleanupRestores` | modules/postgres/proxyfilter.go:86-94 | cleanup restores the registry exactly when at most one key was handed out |
| `Handshake.ReadFrame` | modules/postgres/proxyfilter.go:205-216 | a frame is read whole, or the error of the scan is reported |
| `Handshake.SwapKey` | modules/postgres/proxyfilter.go:217-223 | the payload is overwritten in place by a fresh key registered for what it was |
| `Handshake.WriteFrame` | modules/postgres/proxyfilter.go:224-229 | header and payload reach the client as one frame, cut where it stops listening |
| `Handshake.ForwardOne` | modules/postgres/proxyfilter.go:204-236 | one turn: the frame at the front goes out with its key swapped, or nothing does |
| `Handshake.ForwardHandshake` | modules/postgres/proxyfilter.go:202-237 | the client receives the scanned frames with their keys swapped, cut exactly where its room ends: a client that stops listening does so inside the last frame taken; ready means ReadyForQuery; no later byte is consumed; every error is the scan's or the client's |
| `Handshake.ForwardsStartup` | modules/postgres/proxyfilter.go:202-237 | for a backend's startup followed by anything, the output is exactly its frames with their keys swapped and what follows is unread |
| `Handshake.Handshake` | modules/postgres/proxyfilter.go:75-96 | a ready connection has one registered key for each key frame; one that is not ready leaves the registry as it was exactly when it saw at most one such frame |
| `Handshake.HandshakeAndClose` | modules/postgres/proxyfilter.go:75-96 | with cleanup run at once, the registry is conserved exactly when at most one key frame was forwarded |
| `Handshake.RouteCancel` | modules/postgres/proxyfilter.go:100-120 | a live key sends its backend's own key to its backend's socket as a CancelRequest; any other key sends nothing |
| `CancelProtocol.NextKeepsInv` | modules/postgres/proxyfilter.go:75-120 | every step of every connection keeps: the registry is exactly the held keys, each owned by one connection and standing for that backend's key |
| `CancelProtocol.RoutesToOwner` | modules/postgres/proxyfilter.go:100-120 | in every reachable state a cancel is delivered exactly when a connection holds its key, and then to that connection's backend with the key that backend sent |
| `CancelProtocol.CancelReachesItsBackend` | modules/postgres/proxyfilter.go:75-120 | end to end, over every interleaving: the key a client received, sent back on another connection after any negotiation and with anything behind it, reaches its backend as the pid and secret that backend had sent |
| `CancelProtocol.StaleKeysExactly` | modules/postgres/proxyfilter.go:86-94 | no key outlives its connection exactly when no closed connection had been sent more than one |
| `CancelProtocol.HandshakeFollowsProtocol` | modules/postgres/proxyfilter.go:75-96 | the handshake method does what the protocol's steps do, one frame at a time, whether it takes all frames or its client stops listening at any of them, ending in the registry its contract states |
| `PgConfig.DecodeRoles` | modules/postgres/config.go:237-248 | succeeds exactly when every role has a name and no two share one, and yields them normalised in order |
| `PgConfig.OnceMembers` | modules/postgres/config.go:257-263 | the extensions list keeps each name once |
| `PgConfig.DecodeExtensions` | modules/postgres/config.go:257-273 | succeeds exactly when every block has a name that is neither listed nor declared twice; names first, blocks behind them |
| `PgConfig.GrantAccepted` | modules/postgres/config.go:328-354 | a grant is accepted exactly when it has a role and known privileges on one database, one schema, or one kind of object in a schema |
| `PgConfig.DecodeGrants` | modules/postgres/config.go:275-281 | the first faulty grant is the one reported, with its index and its fault |
| `PgConfig.DecodeSchemas` | modules/postgres/config.go:250-255 | succeeds exactly when every schema has a name |
| `PgConfig.DecodeConfig` | modules/postgres/config.go:178-283 | succeeds exactly on decodable bodies whose version-gated settings the requested version meets, with every default filled in, and yields what the convergence theorems assume: distinct roles, distinct extensions, valid grants |
| `PgInForce.StepEstablishes` | modules/postgres/converge.go:29-128 | an act that passed is in force: what it declares holds of the cluster |
| `PgInForce.InForceAbsorbs` | modules/postgres/converge.go:29-128 | an act in force passes without touching the cluster |
| `PgInForce.StepKeeps` | modules/postgres/converge.go:29-128 | an act in force stays in force under any act that agrees with it |
| `PgPlanFacts.PlanCoherent` | modules/postgres/converge.go:29-128 | no two acts of a decoded config's plan undo each other |
| `PgConfluence.PassedStaysInForce` | modules/postgres/converge.go:29-128 | whatever passed is in force at every later point of the run, save optional extensions that became creatable too late |
| `PgConfluence.ConvergeResumes` | modules/postgres/converge.go:29-128 | crash-resume confluence: from wherever a run stopped, running again ends in the same state with the same outcome as the uninterrupted run, also when that fails |
| `PgConfluence.ConvergeReachesTarget` | modules/postgres/converge.go:37-127 | a successful run leaves every declared act in force |
| `PgTarget.ConvergedAsDeclared` | modules/postgres/converge.go:37-127 | after a successful run every declared role has its seven flags, limit, password, expiry, parameters, comment and memberships, the database its owner and every option not left at its default, every schema and every non-optional extension is there, and every privilege of every grant is held |
| `PgTarget.CreatedAsDeclared` | modules/postgres/converge.go:238-277 | a database that was not there is only ever there with the declared encoding, collation, character type and tablespace, locale standing for a category that is not set, and with all that its template held: the named one, else template0 if any of these is declared, else template1 |
| `PgConfluence.IdempotentExactly` | modules/postgres/converge.go:25-128 | a successful run can be repeated without effect exactly when none of the optional extensions it passed over could now be created |
| `PgIdempotent.ConvergeEnds` | modules/postgres/converge.go:70-126 | what a successful run leaves in the database and in the toolchain, as far as extensions can tell, follows from the starting state and the declared extensions alone |
| `PgIdempotent.IdempotentFromStart` | modules/postgres/converge.go:25-128 | the exact condition on the config and the starting state: a successful run can be repeated without effect if and only if, with the declared extensions put in one after another, no optional one that is still missing would fit |
| `PgClosed.ClosedExactly` | modules/postgres/converge.go:286-302 | a config that forbids connections converges if and only if it declares no schema, no required extension and no grant inside the database, its instance is not called postgres, the database the statement itself is sent through, and it would converge with connections allowed |
| `PgSettled.DependencyOrderSettles` | modules/postgres/converge.go:70-119 | no optional extension is left waiting when each stands behind whatever could bring it or what it needs |
| `PgSettled.DependencyOrderResumes` | modules/postgres/converge.go:25-128 | such a config resumes from every crash, from every starting state |
| `PgSettled.OptionalBeforeItsDependency` | modules/postgres/converge.go:70-119 | an optional extension declared before the one it needs is passed over by the first run and created by the second, so that the two end differently |
| `PgIdempotent.FaultLasts` | modules/postgres/converge.go:88-96 | for the very config that was run, in dependency order: where a fault makes the bundle of the first optional extension be passed over, the next calm run ends with an extension more than a single calm run, through the bundle another one then had to fetch |
| `PgStorm.SturdyForgets` | modules/postgres/converge.go:29-128 | if no optional extension brings what a later one awaits, through its bundle or CASCADE, nor awaits what a later one brings, then from whatever state a run leaves that passed any of its optional extensions over, however far it got, a calm run ends in the state, and with the outcome, of a single calm run |
| `PgFrame.StepOnlyDeclared` | modules/postgres/converge.go:29-128 | no act drops anything or touches what the config does not name, in any state |
| `PgFrame.RunOnlyDeclared` | modules/postgres/converge.go:29-128 | neither does any run of its acts, complete, cut short, failing or out of order |
| `PgFrame.OnlyRequiredStops` | modules/postgres/converge.go:79-119 | the extension phase stops if and only if some required extension stops it after everything in front of it has passed: optional ones never do, whichever of them fail and whatever required ones stand among them |
| `PgRoleOrder.AddMembership` | modules/postgres/converge.go:46-52 | the server's check on each grant keeps memberships acyclic |
| `PgRoleOrder.RolesRun` | modules/postgres/converge.go:41-45 | the first pass succeeds exactly when every role is taken, and brings each to a record that depends on no order |
| `PgRoleOrder.GrantsRun` | modules/postgres/converge.go:46-52 | the second pass succeeds exactly when every group exists and old and new memberships together are acyclic, and adds exactly the new ones |
| `PgRoleOrder.RolePhaseRun` | modules/postgres/converge.go:37-52 | what the role phase needs and what it leaves, with no order in either |
| `PgRoleOrder.RoleOrderIrrelevant` | modules/postgres/converge.go:37-52 | for every permutation of the roles the phase succeeds or fails alike and reaches the same roles and memberships |
| `PgRoleOrder.ConvergeIgnoresRoleOrder` | modules/postgres/converge.go:37-57 | so does the whole convergence |
| `PgRunner.RoleExistsRecognised` | modules/postgres/converge.go:187-189 | the server's complaint about a second CREATE ROLE is recognised whatever the role is called |
| `PgRunner.AllDelays` | modules/postgres/converge.go:353-371 | six waits of 50, 100, 200, 400, 800 and 800 milliseconds make 2350 |
| `PgRunner.Psql.Exec1` | modules/postgres/converge.go:345-348 | one statement: the server's reply and the state it gives, or a fault and no change |
| `PgRunner.Psql.Ask` | modules/postgres/converge.go:373-379 | an existence query on the roles or the databases: whether there is one of that name, or an error where no connection is possible |
| `PgRunner.Psql.ExecRetry` | modules/postgres/converge.go:353-371 | one to six attempts, all but the last failed transiently and waited out; the first other result is returned and nothing is sent behind it; the context's error once it is done during a wait; waits of min(50·2^i, 800) milliseconds |
| `PgRunner.Psql.RetrialIsShort` | modules/postgres/converge.go:353-371 | never more than 2350 milliseconds of waiting in all |
| `PgRunner.Psql.Install` | modules/postgres/extensions.go:41-62 | a bundle's files are added to the toolchain; success means the named extension is among them |
| `PgConverge.Send` | modules/postgres/converge.go:353-371 | a retried statement takes effect once or not at all |
| `PgConverge.EnsureRoleExists` | modules/postgres/converge.go:148-168 | create, or alter if it exists or has just come to exist: one act of the plan |
| `PgConverge.ConvergeRole` | modules/postgres/converge.go:140-183 | follows the role's acts: options, parameters in sorted order, comment |
| `PgConverge.SetParams` | modules/postgres/converge.go:172-176 | the parameters one by one, stopping at the first failure |
| `PgConverge.ConvergeRoles` | modules/postgres/converge.go:41-45 | the first pass over the roles |
| `PgConverge.ConvergeMemberships` | modules/postgres/converge.go:46-52 | the second pass over the roles |
| `PgConverge.EnsureDatabaseExists` | modules/postgres/converge.go:232-285 | create the database, or give an existing one its owner |
| `PgConverge.TuneDatabase` | modules/postgres/converge.go:286-302 | the options collected into one statement, sent only if there are any |
| `PgConverge.ConvergeDatabase` | modules/postgres/converge.go:232-309 | follows the database's acts |
| `PgConverge.ConvergeSchemas` | modules/postgres/converge.go:59-68 | follows the schemas' acts |
| `PgConverge.FetchExtension` | modules/postgres/converge.go:88-96 | the bundle is fetched if it is needed; failing that, an optional extension is passed over |
| `PgConverge.MakeExtensionNow` | modules/postgres/converge.go:97-118 | CREATE EXTENSION if the toolchain has it; an optional one may be missing or fail |
| `PgConverge.ConvergeExtensions` | modules/postgres/converge.go:73-119 | follows the extensions' acts |
| `PgConverge.ConvergeGrant` | modules/postgres/converge.go:311-329 | one statement for a database or schema, two for a kind of object |
| `PgConverge.ConvergeGrants` | modules/postgres/converge.go:121-126 | follows the grants' acts |
| `PgConverge.Converge` | modules/postgres/converge.go:29-128 | under calm weather the plan is run; under any weather the cluster stands where a run of the plan leaves it, complete or cut short, that passes some of the optional extensions over, and where a prefix of the calm run leaves it as long as no fault made one be passed over with something changed after that; in every case nothing was dropped and nothing undeclared was touched |
| `PgConverge.StormThenCalm` | modules/postgres/converge.go:29-128 | a convergence in any weather, followed by one left alone, ends with the state and outcome of a single one left alone: always if no optional extension and a later one are in each other's way, so also if every extension is required; and otherwise, where the single one would settle, unless a fault made an optional extension be passed over and the cluster changed after that, which a process that dies at any of its interactions never does |
| `PgConverge.ListObjects` | modules/postgres/inventory.go:24-41 | roles, database, schemas, extensions, in the order they are created |
| `PgConverge.Prune` | modules/postgres/inventory.go:57-79 | drops in the order given up to the first failure, and leaves the state some prefix of the drops leaves |
| `PgPrune.DropContents` | modules/postgres/inventory.go:62-66 | schema and extension drops go through exactly if the database can be connected to, and touch nothing outside what it holds |
| `PgPrune.DropContentsExactly` | modules/postgres/inventory.go:62-66 | in whatever order they come, they leave exactly the schemas that are not named, the privileges on these, and the extensions that are not named, live in no dropped schema and need none that goes |
| `PgPrune.DropRoles` | modules/postgres/inventory.go:70-72 | role drops go through exactly if no role is the superuser or has dependents, and remove exactly the roles and their memberships |
| `PgPrune.DestroyExactly` | modules/postgres/inventory.go:24-79 | pruning all that is declared, in reverse, goes through exactly when the state allows it, and removes the database, the roles and what depended on them, and nothing else |
| `PgPrune.FlagsExactly` | modules/postgres/converge.go:286-302 | a database created by a run is a template, or closed, exactly if declared so |
| `PgPrune.DestroyUndoesCreate` | modules/postgres/inventory.go:24-79 | for a new database and new roles, create and then destroy goes through exactly unless the database is a template, or is closed with something declared in it, or a declared role was granted something on another database; it restores the cluster but for extension files and what was granted on other databases to others |
| `PgPrune.AliasSurvivesPrune` | modules/postgres/inventory.go:37-39 | pruning an extension's object removes the extension exactly when its declared name is its real one, or it depends on an extension of the declared name |
| `PgRace.NextKeepsInv` | modules/postgres/converge.go:140-285 | every interleaved step of any number of runs through roles, memberships and the database, with transient failures, keeps all that each run has behind it in force, and gives every stop its reason |
| `PgRace.RefusedAlone` | modules/postgres/converge.go:140-285 | each of these reasons (a statement refused as such, a role or template missing, memberships old and new in a circle) stops a run on its own as well |
| `PgRace.NobodyLosesTheRace` | modules/postgres/converge.go:140-285 | over every interleaving, a run that the server stops would have been stopped on its own too, unless it lost the race for the database: never because another created its role or granted its memberships first; one that is through the role phase has left every declared role with its declared options, whatever the others do meanwhile |
| `PgDuel.DatabaseRaceExactly` | modules/postgres/converge.go:232-285 | where a single run passes, some interleaving of two or more stops one of them with the server's complaint that the database already exists if and only if it did not exist at the start |
| `SqlText.QuotedRoundTrip` | modules/postgres/converge.go:396-397 | reading stops at the closing quote and gives back what was quoted, whatever follows that is not that quote |
| `SqlText.IdentRoundTrip` | modules/postgres/converge.go:396 | a quoted identifier is one token, the original string, in PostgreSQL's and in MariaDB's quoting, except that the empty one is an error, PostgreSQL takes the first 63 characters of a longer one, and MariaDB refuses one of more than 64 |
| `SqlText.LitRoundTrip` | modules/postgres/converge.go:397 | so is a quoted literal, in MariaDB if it holds no backslash, or it is the front part of one if another literal follows behind a line end (PostgreSQL) or white space (MariaDB) |
| `SqlText.LexAppend` | modules/postgres/converge.go:206-230 | text in front of a separator is read as if it stood alone, unless it ends with a literal and another one follows |
| `SqlText.LexJoin` | modules/postgres/converge.go:229 | pieces joined by spaces are read one by one, if no two literals meet |
| `SqlText.IdentInside` | modules/postgres/converge.go:396 | whatever a name contains, the statement around it is read as if it were not there, and the name as itself within the server's limits |
| `SqlText.LitInside` | modules/postgres/converge.go:397 | the same for a value, behind anything that does not end with another one |
| `SqlRole.PartsRead` | modules/postgres/converge.go:206-230 | each printed piece is one option, and together they take any role to what ALTER ROLE with the declared options makes of it |
| `SqlRole.RoleOptionsText` | modules/postgres/converge.go:206-230 | the server reads the printed options as the declared ones: all seven flags, the limit, the password and the expiry, whatever characters these hold |
| `PgConfFile.QuotedExactly` | modules/postgres/cluster.go:171 | a quoted setting is read back as given exactly when it holds neither a backslash nor a line end; any other is read as something else or not at all |
| `PgConf.PassThrough` | modules/postgres/cluster.go:156-163 | the user's settings in sorted order without the locked ones |
| `PgConf.Settings` | modules/postgres/cluster.go:141-169 | typed settings, then the user's, then the listen address |
| `PgConf.SettingsMeaning` | modules/postgres/cluster.go:132-169 | under case-insensitive last-wins reading, with include directives followed, and for every set of user settings: listen_addresses is empty, the last key in byte order that speaks for a parameter, under its name or through a file it includes, overrides the typed value, every other name keeps its typed value, and no other locked parameter has one |
| `PgConf.LockedExactly` | modules/postgres/cluster.go:130-139 | a locked parameter other than listen_addresses stays unset exactly when no file sets it that a user setting named include, include_dir or include_if_exists brings in |
| `PgConf.TypedMeaning` | modules/postgres/cluster.go:142-155 | each typed setting is read under its own name, and fsync decides synchronous_commit and full_page_writes too |
| `PgConfFile.WriteConf` | modules/postgres/cluster.go:99-107 | the heading, then one line for each setting |
| `PgConfFile.ConfReadsBack` | modules/postgres/cluster.go:99-169 | the server reads the file, line by line and token by token, as exactly the declared settings if and only if every value is without backslash and line end and every name passed through is a name |
| `PgConfFile.ConfFile.EnsureInclude` | modules/postgres/cluster.go:111-128 | the directive is appended unless it stands in the file |
| `PgConfFile.IncludedOnce` | modules/postgres/cluster.go:111-128 | any number of boots appends once, behind the original text |
| `PgConfFile.IncludedActive` | modules/postgres/cluster.go:111-128 | the server then reads doze.conf exactly when some line included it before, however spelt, spaced or commented upon, or the directive was nowhere in the file |
| `PgConfFile.CommentBehind` | modules/postgres/cluster.go:117-119 | a comment behind a setting makes no difference to it |
| `PgConfFile.CommentedOutIsMissed` | modules/postgres/cluster.go:117-119 | a file that has the directive in a comment is left without it |
| `Readme.NoStraddling` | cmd/dzm/readme.go:51-58 | no marker overlaps another |
| `Readme.OutsideKept` | cmd/dzm/readme.go:51-58 | the text before the first begin marker and behind the first end marker is kept, and the table put between them |
| `Readme.SpliceIdempotentExactly` | cmd/dzm/readme.go:51-58 | a second splice changes nothing exactly when the table does not hold the end marker |
| `Readme.ReadmeFile.Refresh` | cmd/dzm/readme.go:25-47 | the file is spliced, or left alone on wrong markers; it is written only if that changes it |
| `Readme.ModuleTable` | cmd/dzm/readme.go:62-82 | the table is that of the modules in byte order, however the map is walked |
| `Readme.RowReads` | cmd/dzm/readme.go:78-79 | a row is read back, cell by cell, as link, category, versions and tagline when none of them holds a bar |
| `Readme.RowsHold` | cmd/dzm/readme.go:69-81 | the table holds the end marker exactly when some module's name, category, versions or tagline does |
| `Readme.RefreshIdempotentExactly` | cmd/dzm/readme.go:25-82 | refreshing twice is refreshing once, for every accepted README, exactly when no module's text holds the end marker |
| `Kafka.JoinSplit` | modules/kafka/kafka.go:80-83 | joining a host and a port that were split from an address and splitting again gives them back, IPv6 brackets included |
| `Kafka.ConsoleOnePortUp` | modules/kafka/kafka.go:77-84 | the console listens on the advertised host one port up |
| `Kafka.Plan` | modules/kafka/kafka.go:68-99 | the argument list, option by option, present exactly when its value is set |
| `Kafka.Parse` | modules/kafka/serve.go:32-34 | flag parsing as Go's flag package does it: one dash or two, values behind an equals sign or in the next argument, stopping at the first other argument |
| `Kafka.ServeFromArgs` | modules/kafka/serve.go:21-62 | the parsed flags as server options |
| `Kafka.ParseIntItoa` | modules/kafka/serve.go:29-31 | a positive number printed in decimal is read back though the flag accepts every base prefix |
| `Kafka.ParseArguments` | modules/kafka/serve.go:32-34 | parsing a list of options sets them one by one, whatever their values look like |
| `Kafka.BrokerOpensAsPlanned` | modules/kafka/kafka.go:68-99 | for every instance, endpoint and version the broker opens with the declared socket, data directory, profile (4 if not numeric), host, port, auto-create option and positive limits, and refuses only for want of a socket or data directory |
| `Kafka.PlanThenServe` | modules/kafka/serve.go:21-62 | the two methods in a row do so |
| `Converging.ResumeIsUninterrupted` | modules/mariadb/converge.go:11-54 | a program of steps that stick, cut short and started again, ends like one never interrupted |
| `Converging.ManyRunsAreOne` | modules/mariadb/converge.go:11-54 | any number of its runs is one run |
| `FerretModel.StepGrows` | modules/ferret/converge.go:26-64 | no step takes away a collection, an index or a document, or touches another collection |
| `FerretModel.ResumeIsUninterrupted` | modules/ferret/converge.go:26-64 | a convergence cut short and started again ends like one that was not |
| `FerretModel.ManyRunsAreOne` | modules/ferret/converge.go:26-64 | any number of runs with nothing dropped in between is one run |
| `FerretModel.ConvergedAsDeclared` | modules/ferret/converge.go:46-63 | a successful run leaves every declared collection with its indexes, and with documents if its seed has any |
| `FerretModel.OthersUntouched` | modules/ferret/converge.go:46-63 | a collection no step names is left as it was |
| `FerretModel.SeedsOnlyEmpty` | modules/ferret/converge.go:163-192 | documents go only into a collection that was empty, and only those declared for it |
| `FerretModel.NextRunAfterFailure` | modules/ferret/converge.go:26-64 | after a failed run the next fails in the same way and changes nothing, unless a seed was cut short: then the next run passes it and goes on behind it |
| `FerretModel.CutShortForever` | modules/ferret/converge.go:166-192 | the refused rows are never inserted by any later run |
| `Ferret.Client.EnsureCollection` | modules/ferret/converge.go:148-161 | creating a collection that exists is no error |
| `Ferret.Client.EnsureIndex` | modules/ferret/converge.go:128-144 | the index with its fields in alphabetical order, a no-op if it is there |
| `Ferret.Client.SeedCollection` | modules/ferret/converge.go:166-192 | nothing for a collection with documents; otherwise the file's documents, or an error |
| `Ferret.Client.ConvergeCollection` | modules/ferret/converge.go:48-62 | collection, indexes, seed, stopping at the first failure |
| `Ferret.Client.Converge` | modules/ferret/converge.go:32-65 | the run of the plan, step by step |
| `Ferret.Client.Prune` | modules/ferret/converge.go:218-245 | drops in the order given up to the first one that is sent and fails: what no object in front of that hits is left as it was, the rest is gone; an undecodable object is passed over |
| `Ferret.Objects` | modules/ferret/converge.go:196-213 | each database followed by its collections |
| `Ferret.SplitName` | modules/ferret/converge.go:248-255 | the scan cuts the name at its first dot |
| `Ferret.DecodesToStem` | modules/ferret/converge.go:248-255 | a collection's object decodes to itself exactly when its database has no dot |
| `Ferret.PrunedIs` | modules/ferret/converge.go:218-245 | dropping in any order leaves exactly what no object hits |
| `Ferret.DestroyExactly` | modules/ferret/converge.go:196-255 | destroying drops exactly the declared databases, for every store, if and only if every dotted database with collections has a declared database for its stem |
| `Ferret.DestroyUndoesCreate` | modules/ferret/converge.go:32-245 | destroying after any run, finished or failed, leaves the store as it was without the declared databases |
| `MariaModel.DecodeUsers` | modules/mariadb/config.go:72-87 | succeeds exactly when every user has a name and no two join name and host alike, with the host defaulting to any; accounts are then distinct |
| `MariaModel.ConvergeResumes` | modules/mariadb/converge.go:11-54 | a run that stopped behind any of its statements, started again, ends like one that never stopped |
| `MariaModel.ConvergeIdempotent` | modules/mariadb/converge.go:11-54 | any number of runs is one run |
| `Maria.Client.ConvergeUser` | modules/mariadb/converge.go:56-72 | create, then set the password if there is one |
| `Maria.Client.Converge` | modules/mariadb/converge.go:16-54 | the run of the plan, statement by statement |
| `Maria.ConvergeReachesTarget` | modules/mariadb/converge.go:23-53 | a successful run leaves the database, every user with its declared password, and every grant |
| `Maria.AccountReads` | modules/mariadb/converge.go:57 | an account is read back as its user and host, if they hold no backslash |
| `Maria.TargetReads` | modules/mariadb/converge.go:83-93 | a grant's target is read back as its database and table, an empty name being the wildcard, exactly if neither is longer than 64 characters |
| `Maria.Objects` | modules/mariadb/inventory.go:21-37 | the database, then the users |
| `Maria.SplitName` | modules/mariadb/inventory.go:65-72 | the backward scan cuts the name at its last @ |
| `Maria.DecodesExactly` | modules/mariadb/inventory.go:65-72 | a user's object decodes to the account exactly when the host has no @ |
| `Maria.Client.Prune` | modules/mariadb/inventory.go:41-62 | drops in order up to the first refusal; an undecodable object is passed over |
| `Maria.PruneLeaves` | modules/mariadb/inventory.go:41-62 | what is left is what no object names |
| `Maria.DestroyExactly` | modules/mariadb/inventory.go:21-72 | a destroy drops exactly the declared database and accounts, with all that was granted to these, for every server, if and only if no declared host holds an @: such an account is never dropped |
| `Maria.DestroyUndoesCreate` | modules/mariadb/inventory.go:21-62 | destroying after a run drops the database and the users and leaves every other one as it was before the run: after any run, finished or failed, if no declared host holds an @, and after a successful one only then |
| `Maria.GrantsGoneExactly` | modules/mariadb/inventory.go:10-12 | after create and destroy a declared grant's privileges are gone exactly when some declared user's object is taken for its account, which without an @ in a host means that its account is a declared user |

## Left out

Modelled more narrowly than the source:

- PgConfluence.ConvergeResumes: assumes that the server, for equal states, answers a statement equally, and takes ALTER where it takes the CREATE of the same clause (`Fair`); a transient fault comes before a statement commits, not after.
- PgConverge.Converge: which optional extensions a faulty run passes over is left open; any of them may be.
- PgPrune.DestroyUndoesCreate: assumes a new database and new roles; what a destroy does to objects that were there before is in `PgPrune.DestroyExactly`.
- Cancel.Registry.Register: the SDK's registry is assumed only to hand out an eight-byte key that is not live, and 2^64 keys never to be live at once.
- Session.ClientSession.Negotiate: TLS is a function from the bytes that follow to the plaintext, which is never longer.
- SqlText.IdentRoundTrip: lengths are counted in characters; PostgreSQL counts the 63 in bytes.
- PgTarget.ConvergedAsDeclared: a name in the cluster is the declared one in full, so no two names may share the first 63 bytes, which is all the server keeps of them.
- PgRoleOrder.RoleOrderIrrelevant: likewise.
- Startup.AcceptsExactly: parameter names are compared byte by byte, as the filter does.
- PgClosed.ClosedExactly: assumes that the server refuses no ALTER DATABASE as such, for want of a right, say.
- Maria.AccountReads: literals with backslashes are outside the quoting function's domain; the server's limits on the length of a user and a host, and its disregard of case in hosts, are not modelled.
- Maria.ConvergeReachesTarget: users whose hosts differ in case alone count as two accounts.
- PgConfFile.QuotedExactly: octal escapes count as one escaped character.
- PgConfFile.ConfReadsBack: an unquoted number is a sign and a run of digits, letters and dots, of which the server takes fewer.
- PgConf.SettingsMeaning: what an included file says is a parameter, directories and missing files included.
- PgConfig.DecodeConfig: how a version is compared with a major is a parameter; the base directory of extension sources is left out.
- PgRunner.Psql.Install: an extraction that fails after it has written some of a bundle's files is a fetch that failed.
- PgPrune.DropContentsExactly: an extension created without a schema is taken to live in public, and what an extension needs is taken to include what that needs.
- PgDuel.DatabaseRaceExactly: the interleaving covers roles, memberships and the creation of the database; what a run does after that is not interleaved with others.
- Kafka.ParseIntItoa: digit-separating underscores, which ParseInt allows, are not modelled; the plan never prints one.
- Ferret.Client.Prune: a drop that fails is assumed to have dropped nothing; the connection is assumed to stand.

Not modelled:

- Read errors other than the end of a stream, deadlines, and the reply of a dialled backend.
- A nil key rewriter in the handshake forwarder: the filter never passes one.
- The text of SQL statements other than role options, names, values, accounts and grant targets; statements are values of a datatype with the meaning the PostgreSQL documentation gives them, and privileges are compared as they are written.
- Server behaviour outside what convergence declares: ownership chains, privileges implied by roles, the login of the superuser, template connections, tablespaces on disk.
- Fingerprints of objects, and the planner that compares them; its reverse-order removal is assumed.
- The path an extension's source resolves to, and the unpacking of bundles: a bundle is the set of extensions it brings.
- majorOf, initdb, pg_hba.conf, and the rest of a cluster's provisioning.
- The users of the ferret driver: their convergence is off by default and marked as a scaffold in the source.
- Ferret connections, the process spawning and HTTP of the kafka plugin, the topics it converges.
- HCL decoding, Describe tables, awslocal, aws, valkey, kvrocks and temporal: field copying and argument building that would add only easy members.
