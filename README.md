# Firestore import and user reconciliation, modelled in Dafny

Two admin jobs of a Firebase project are modelled here.

- **`importData()`** (`import_firestore.js`) loads a dataset into the document store. It visits the groups `materiais`, `instrumentos`, `alertas` and `usuarios` in that order; a group missing from the dataset is skipped. For each document of a group, in dataset order, the job does two things:
  - It converts the group's own date fields to timestamps, and only the fields that are present and truthy.
  - It writes the document with `set` under its dataset key, in the collection of the same name.

  No per-document `try` exists. The first date that does not convert, or the first `set` the store refuses, ends the whole run through the outer `catch`.
- **`syncUsers()`** (`sync_users_firestore.js`) re-keys user documents under the uids of the identity provider.
  - It files the dataset's `usuarios` records by email in a plain object, so the last record with a given email wins.
  - For each email it looks up the uid and builds a whitelisted record with the defaults `ativo ?? true`, `localizacao || null` and `telefone || null`, then writes that record under the uid.
  - It then checks the three legacy keys `admin_001`, `gestor_001` and `contribuinte_001`. It deletes one only when the document exists and its stored `email` is the email being migrated (the collision guard).
  - Every failure is caught for that email and the loop moves on.

Modules:

- `Values`: JavaScript values as `JSON.parse` produces them, plus `undefined` and the store's timestamp. It also holds truthiness, `??`, `||`, and the `String(v)` coercion applied to a property key.
- `Store`: the remote store as a map from document path `(collection, key)` to record. It holds `set`, `get` and `delete` as the class `Firestore`, whose `db` field changes in place.
- `Import`: `importData()`. Its specification is a *plan*, meaning the writes in order and how the run ends. The methods, which follow the source's loops, are proved to produce exactly the store that applying the plan's writes gives.
- `Sync`: `syncUsers()`. The email map is a property list in insertion order. One iteration is the function `MigrateStep`, and the run is the fold `SyncUpTo`. The methods, which follow the source's loops, are proved equal to those.

The environment is a set of parameters:

- `parse: Value -> Option<int>` stands for `Timestamp.fromDate(new Date(v))`. `None` means the conversion throws.
- `auth: string -> AuthLookup` stands for `auth.getUserByEmail`, with the outcomes uid, `auth/user-not-found` and any other error.
- `faults: Op -> bool` says which store requests the environment refuses. In addition, the store always refuses to `set` a document that holds `undefined`.

Points of the code's behaviour that the model keeps as written:

- **The import stops at the first failure.** There is no per-document `catch` and no tally. The first date that does not convert, or the first `set` the store refuses, ends the whole run through the outer `catch` (`import_firestore.js:102-105`). A date string that does not parse ends the run too, because `Timestamp.fromDate` of an invalid `Date` throws.
- **Conversion is driven by truthiness.** `if (docData.x)` tests truthiness, so `""`, `0` and `false` are left unconverted, like an absent field.
- **The sync converts both dates unconditionally** (`sync_users_firestore.js:50-51`). A user record without `criadoEm` or `atualizadoEm` therefore fails unless `parse` accepts `undefined`.
- **Groups go in a fixed order:** materiais, instrumentos, alertas, usuarios, whatever their order in the dataset file.
- **The sync keeps no tallies.** It reports nothing but console lines.

## Model

| member | source | states |
|---|---|---|
| Store.Put | import_firestore.js:35 | After `set(r)` the document holds exactly `r` (overwrite, not merge), and every other document reads as before. |
| Store.Remove | sync_users_firestore.js:63 | After `delete()` the document is absent, and every other document reads as before. |
| Store.PutTwice | import_firestore.js:35 | Setting the same record under the same key twice gives the same store as setting it once. |
| Store.Firestore.Set | import_firestore.js:35 | The call succeeds exactly when the store does not refuse it. On success the store becomes `Put` of the old store; on refusal it is unchanged. |
| Store.Firestore.Get | sync_users_firestore.js:61 | A refused `get` fails. Otherwise it returns the document's current contents, or absent. |
| Store.Firestore.Delete | sync_users_firestore.js:63 | The call succeeds exactly when the store does not refuse it. On success the document is removed; on refusal nothing changes. |
| Import.NormalizeSpec | import_firestore.js:28-33 | Conversion succeeds exactly when every present, truthy date field of the list converts. The result keeps the document's field set, since no field is invented. Exactly the present, truthy listed fields become timestamps, and every other field keeps its value. A failure names a present, truthy listed field that does not convert. |
| Import.GroupConversion | import_firestore.js:44-57 | A document of a group converts exactly that group's date fields: it normalises exactly when each of them that is present and truthy converts. The result keeps the field set. Exactly those fields become timestamps, and every other field, including another group's date fields, keeps its value. |
| Import.NormalizeDoc | import_firestore.js:46-57 | The in-place field-by-field conversion loop yields exactly `Normalize` of the document, failing on the first field that throws. |
| Import.ImportDoc | import_firestore.js:26-35 | For the `i`-th document of a group, the store afterwards is the old store plus that document's plan: its normalised record under its key, or nothing when it fails. The outcome is the document's. |
| Import.DocPlanShape | import_firestore.js:26-35 | A document that gets through writes exactly its normalised record under its key. One that does not writes nothing and stops the loop. |
| Import.GroupPlanSpec | import_firestore.js:26-37 | Over the first `m` documents, the loop writes, in dataset order, the normalised record of every document up to the first that fails, under its key in the group's collection. It completes exactly when none fails; otherwise it ends with the first failing document's reason. |
| Import.AbortedPrefixIsFinal | import_firestore.js:26-37 | Once a group's loop has stopped, later documents change neither the writes nor the outcome. |
| Import.ImportGroup | import_firestore.js:44-61 | The loop over a group leaves the store as applying that group's plan, and returns the plan's outcome. |
| Import.GroupPrefixIsChain | import_firestore.js:44-61 | The loop over a group's first `n` documents is those documents' plans run one after the other, each only if no earlier one stopped. |
| Import.ChainSpec | import_firestore.js:44-61 | Steps that each write one document when they get through, and none when they stop, write in order the document of every step up to the first that stops. They complete exactly when none stops; otherwise they end with that step's outcome. |
| Import.ChainStoreIsApply | import_firestore.js:44-61 | While the loop has not stopped, the store it reaches step by step equals applying the plan's writes. |
| Import.AbortedChainIsFinal | import_firestore.js:44-61 | Once a step has stopped the loop, later steps change neither the writes nor the outcome. |
| Import.ChainStop | import_firestore.js:44-61 | The step that stops the loop leaves exactly the store and the outcome of the whole loop's plan. |
| Import.ChainNext | import_firestore.js:44-61 | After one more step the loop either goes on, with the store its plan describes so far, or ends with the store and the outcome of its whole plan. |
| Import.GroupWritesTargets | import_firestore.js:59 | Every write of a group's loop goes to the group's own collection, under a key of that group. |
| Import.PresentPlanTargets | import_firestore.js:42-61 | A group's loop writes, and can stop, only in that group's own collection. |
| Import.ImportIfPresent | import_firestore.js:66-78 | A group absent from the dataset writes nothing and completes. A present group is imported as its plan says. |
| Import.ImportData | import_firestore.js:20-105 | The store after the run is the old store with the run's writes applied, in order. The outcome is the run's: completed, or aborted at the failing document with its cause. |
| Import.ImportPlanOverOrder | import_firestore.js:24-96 | The run is the four groups in the order materiais, instrumentos, alertas, usuarios, each continuing only if the previous did not stop. |
| Import.AbortedRunIsFinal | import_firestore.js:102-105 | Once some group ends the run, the remaining groups add no write and do not change the outcome. |
| Import.ApplyLookup | import_firestore.js:35 | After a sequence of `set`s, each document holds the last record written to it, and a document nobody wrote holds what it held before. |
| Import.ApplyTwice | import_firestore.js:35 | Replaying a run's writes on the store the run produced changes nothing, so re-running the import is safe. |
| Import.ImportLeavesOthersAlone | import_firestore.js:24-35 | A document outside the present groups' collections, or whose key is not in its group, is unchanged. In particular an absent group, and any other collection, gets no write. |
| Import.ImportStoresNormalized | import_firestore.js:59 | After a completed run, a document of a present group holds exactly the normalised record of the last dataset entry with its key. |
| Import.ImportWritesInGroupOrder | import_firestore.js:24-96 | The writes go to collections in group order. When a group stops the run, nothing of a later group was written. |
| Sync.Assign | sync_users_firestore.js:30 | `obj[k] = v`: afterwards `k` holds `v`. Existing properties keep their place and value (except `k`), a new property goes last, and no name appears twice. |
| Sync.UsersMapKeysDistinct | sync_users_firestore.js:28-31 | The email map has each email at most once, so the main loop visits each distinct email once. |
| Sync.UsersMapKeys | sync_users_firestore.js:28-31 | The keys of the email map are exactly the emails (as property keys) of the user records. |
| Sync.UsersMapLastWins | sync_users_firestore.js:28-31 | Under each email the map holds the last user record with that email. |
| Sync.BuildUsersMap | sync_users_firestore.js:28-31 | The loop filling `usersMap` yields the email map. |
| Sync.BuildMigration | sync_users_firestore.js:43-52 | Building `userDocData` succeeds exactly when both dates convert, and the result is the migration record. A failure names a date field that did not convert. |
| Sync.MigrationWhitelist | sync_users_firestore.js:43-52 | The written record has exactly the eight whitelisted fields, so no `password` and no other source field is copied. |
| Sync.MigrationDefaults | sync_users_firestore.js:44-51 | Name, email and role are copied as read. `ativo` becomes true only when null or undefined. `localizacao` and `telefone` become null whenever falsy. Both dates are the converted instants. |
| Sync.RetireSpec | sync_users_firestore.js:59-66 | Collision guard: only the listed users-collection keys can change. One disappears only if it existed with this email, and nothing else changes. A loop that runs to its end leaves no listed key holding this email, and it runs to its end when no `get` or `delete` is refused. |
| Sync.RetireLegacy | sync_users_firestore.js:59-66 | The inner loop over `oldDocIds` produces exactly the store and the error `Retire` describes. |
| Sync.MigrateStepOutcome | sync_users_firestore.js:35-74 | Not-found is reported exactly when the provider says so, and a migrated email under the uid the provider returned. If the lookup, a date, or the `set` fails, nothing changes and no delete is tried (write before delete). |
| Sync.MigrateStepSpec | sync_users_firestore.js:34-74 | One iteration changes only the users collection, at the uid and the legacy keys. The uid holds the migration record (unless it is itself a legacy key). A legacy key disappears only if it held this email, and a successful migration leaves no legacy key holding it. |
| Sync.UidIsLegacyKey | sync_users_firestore.js:55-63 | When the uid is itself a legacy key and the record's email is the email looked up, the iteration deletes the document it just wrote and still succeeds. |
| Sync.MigrateUser | sync_users_firestore.js:35-74 | One iteration with its `catch` produces exactly the store and the outcome of `MigrateStep`. |
| Sync.SyncUpToSpec | sync_users_firestore.js:34-75 | After the first `n` emails, only the users collection changed, at legacy keys or at uids returned for those emails, and only legacy documents can have disappeared. |
| Sync.SyncAllSpec | sync_users_firestore.js:34-75 | The same as `SyncUpToSpec`, over all the emails of the map. |
| Sync.SyncResultSpec | sync_users_firestore.js:19-83 | Without `usuarios` the store is untouched. Otherwise only the users collection changes, at legacy keys or at uids returned for the dataset's emails, and only legacy documents can disappear. |
| Sync.MigrateAll | sync_users_firestore.js:34-75 | The main loop over the email map produces the store `SyncAll` describes. |
| Sync.SyncUsers | sync_users_firestore.js:19-83 | `syncUsers()` returns without touching the store when `usuarios` is absent. Otherwise it builds the email map and runs the main loop, producing `SyncResult`. |

## Left out

- Credential loading, `initializeApp` and the creation of the `auth` and `db` handles: bootstrap against the SDK.
- Reading and parsing the dataset file: the parsed dataset is an input value. A group that is missing or falsy is a name not in the dataset. A non-object group or record is not modelled.
- `new Date(...)` and `Timestamp.fromDate(...)`: the parameter `parse`, not reimplemented. A timestamp is kept as its millisecond instant.
- Network behaviour of the store and the identity provider: a deterministic parameter says which requests are refused, and retries, latency and partial writes are not modelled.
- async/await: each call is awaited before the next, so the model is sequential.
- Console output, the closing summary text and the `process.exit` codes: the model keeps no tallies, since the code keeps none.
- Numbers are integers only. Floating-point values and their `String` forms (used when a non-string email becomes a property key) are not modelled.
- `Object.entries` order: entries keep dataset order. The JavaScript rule that integer-like keys come first, and the special key `__proto__`, are not modelled.
- Document keys and uids are single-segment document ids. The SDK reads a `/` inside `doc(k)` as a path to a document in a subcollection: a dataset key `a/b/c` under `materiais` is written to document `c` of collection `materiais/a/b`. That is not modelled, and such a key is filed as `DocRef("materiais", "a/b/c")`. For such keys, Import.ImportLeavesOthersAlone and Import.ImportStoresNormalized speak of the modelled path, not the SDK's.
- The in-place mutation of the dataset's `docData` objects is modelled as a new record value. Nothing reads the dataset afterwards, so no aliasing is observable.
- Import.ImportStoresNormalized: states the stored record only for a run that completes. For an aborted run, the stored documents are given by ApplyLookup on the run's writes, together with GroupPlanSpec.
