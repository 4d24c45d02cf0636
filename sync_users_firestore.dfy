/** The user reconciliation job: the dataset's user records are grouped by
    email; each email is looked up in the identity provider, a whitelisted
    record is written under the provider's uid, and then any of three legacy
    documents that holds the same email is deleted. Every failure is caught
    per email and the loop moves on. */
module Sync {
  import opened Values
  import opened Store

  /** The collection the job reads and writes. */
  const Users: string := "usuarios"

  /** The legacy document keys the job may retire, in the order it checks them. */
  const LegacyKeys: seq<string> := ["admin_001", "gestor_001", "contribuinte_001"]

  /** The fields of the record written for a user. */
  const Whitelist: set<string> := {"nome", "email", "role", "ativo", "localizacao", "telefone", "criadoEm", "atualizadoEm"}

  /** `auth.getUserByEmail(email)`: the user's uid, the `auth/user-not-found`
      error, or any other error. */
  datatype AuthLookup = Found(uid: string) | UserNotFound | AuthFailed

  type IdentityProvider = string -> AuthLookup

  // ---------------------------------------------------------------------
  // The email map

  /** A plain JavaScript object used as a map: its properties in insertion
      order. */
  type JsObject = seq<(string, Record)>

  /** The position of property `k`, or the number of properties if absent. */
  function KeyIndex(obj: JsObject, k: string): (i: nat)
    ensures i <= |obj|
    ensures i < |obj| ==> obj[i].0 == k
    ensures forall j :: 0 <= j < i ==> obj[j].0 != k
    decreases |obj|
  {
    if obj == [] then 0
    else if obj[0].0 == k then 0
    else 1 + KeyIndex(obj[1..], k)
  }

  /** No property name occurs twice. */
  predicate KeysDistinct(obj: JsObject)
  {
    forall p, q :: 0 <= p < q < |obj| ==> obj[p].0 != obj[q].0
  }

  /** `obj[k] = v`: afterwards `k` holds `v`; an existing property keeps its
      place (and takes the new value when it is `k`), a new one goes last,
      and no name comes to occur twice. */
  function Assign(obj: JsObject, k: string, v: Record): (r: JsObject)
    ensures (k, v) in r
    ensures |obj| <= |r| <= |obj| + 1
    ensures forall p :: 0 <= p < |obj| ==> r[p].0 == obj[p].0 && (obj[p].0 != k ==> r[p] == obj[p])
    ensures forall p :: |obj| <= p < |r| ==> r[p].0 == k
    ensures KeysDistinct(obj) ==> KeysDistinct(r)
  {
    var i := KeyIndex(obj, k);
    if i < |obj| then
      var r := obj[i := (k, v)];
      assert r[i] == (k, v);
      r
    else
      var r := obj + [(k, v)];
      assert r[|obj|] == (k, v);
      r
  }

  /** The key a user record is filed under: `usersMap[userData.email]`. */
  function EmailKey(userData: Record): string
  {
    ToJsString(Field(userData, "email"))
  }

  /** `usersMap` after the loop over `data.usuarios`. */
  function UsersMap(usuarios: Entries): JsObject
    decreases |usuarios|
  {
    if usuarios == [] then []
    else
      var userData := usuarios[|usuarios| - 1].1;
      Assign(UsersMap(usuarios[..|usuarios| - 1]), EmailKey(userData), userData)
  }

  /** Entry `i` is the last user record filed under its email. */
  predicate LastOfItsEmail(usuarios: Entries, i: nat)
    requires i < |usuarios|
  {
    forall j :: i < j < |usuarios| ==> EmailKey(usuarios[j].1) != EmailKey(usuarios[i].1)
  }

  /** Each email is a key of the email map at most once, so the main loop
      visits each distinct email exactly once. */
  lemma {:induction false} UsersMapKeysDistinct(usuarios: Entries)
    ensures KeysDistinct(UsersMap(usuarios))
    decreases |usuarios|
  {
    if usuarios != [] {
      UsersMapKeysDistinct(usuarios[..|usuarios| - 1]);
    }
  }

  /** `k` is the email of some user record. */
  predicate IsEmailOf(usuarios: Entries, k: string)
  {
    exists i :: 0 <= i < |usuarios| && EmailKey(usuarios[i].1) == k
  }

  /** `k` is a property of `obj`. */
  predicate IsKeyOf(obj: JsObject, k: string)
  {
    exists p :: 0 <= p < |obj| && obj[p].0 == k
  }

  lemma AssignKeys(obj: JsObject, kn: string, v: Record, k: string)
    ensures IsKeyOf(Assign(obj, kn, v), k) <==> IsKeyOf(obj, k) || k == kn
  {
    var m := Assign(obj, kn, v);
    if IsKeyOf(obj, k) {
      var p :| 0 <= p < |obj| && obj[p].0 == k;
      assert m[p].0 == k;
    }
    if k == kn {
      var p :| 0 <= p < |m| && m[p] == (kn, v);
    }
    if IsKeyOf(m, k) {
      var p :| 0 <= p < |m| && m[p].0 == k;
      if p < |obj| {
        assert obj[p].0 == k;
      }
    }
  }

  lemma EmailsSnoc(usuarios: Entries, k: string)
    requires usuarios != []
    ensures IsEmailOf(usuarios, k) <==>
              IsEmailOf(usuarios[..|usuarios| - 1], k) || k == EmailKey(usuarios[|usuarios| - 1].1)
  {
    var n := |usuarios| - 1;
    var prefix := usuarios[..n];
    if IsEmailOf(prefix, k) {
      var i :| 0 <= i < |prefix| && EmailKey(prefix[i].1) == k;
      assert usuarios[i] == prefix[i];
    }
    if IsEmailOf(usuarios, k) {
      var i :| 0 <= i < |usuarios| && EmailKey(usuarios[i].1) == k;
      if i < n {
        assert usuarios[i] == prefix[i];
      }
    }
  }

  /** The keys of the email map are exactly the emails of the user records. */
  lemma {:induction false} UsersMapKeys(usuarios: Entries, k: string)
    ensures IsKeyOf(UsersMap(usuarios), k) <==> IsEmailOf(usuarios, k)
    decreases |usuarios|
  {
    if usuarios != [] {
      var n := |usuarios| - 1;
      UsersMapKeys(usuarios[..n], k);
      AssignKeys(UsersMap(usuarios[..n]), EmailKey(usuarios[n].1), usuarios[n].1, k);
      EmailsSnoc(usuarios, k);
    }
  }

  /** Under each email the map holds the LAST record with that email: a later
      record replaces an earlier one. */
  lemma {:induction false} UsersMapLastWins(usuarios: Entries)
    ensures forall i :: 0 <= i < |usuarios| && LastOfItsEmail(usuarios, i) ==>
              (EmailKey(usuarios[i].1), usuarios[i].1) in UsersMap(usuarios)
    decreases |usuarios|
  {
    if usuarios != [] {
      var n := |usuarios| - 1;
      var prefix := usuarios[..n];
      UsersMapLastWins(prefix);
      var m0 := UsersMap(prefix);
      var k := EmailKey(usuarios[n].1);
      var m := UsersMap(usuarios);
      assert m == Assign(m0, k, usuarios[n].1);
      forall i | 0 <= i < |usuarios| && LastOfItsEmail(usuarios, i)
        ensures (EmailKey(usuarios[i].1), usuarios[i].1) in m
      {
        if i < n {
          assert usuarios[i] == prefix[i];
          assert LastOfItsEmail(prefix, i) by {
            forall j | i < j < |prefix|
              ensures EmailKey(prefix[j].1) != EmailKey(prefix[i].1)
            {
              assert prefix[j] == usuarios[j];
            }
          }
          var p :| 0 <= p < |m0| && m0[p] == (EmailKey(prefix[i].1), prefix[i].1);
          assert EmailKey(usuarios[i].1) != k;
          assert m[p] == m0[p];
        }
      }
    }
  }

  /** The loop that fills `usersMap`. */
  method BuildUsersMap(usuarios: Entries) returns (usersMap: JsObject)
    ensures usersMap == UsersMap(usuarios)
  {
    usersMap := [];
    for i := 0 to |usuarios|
      invariant usersMap == UsersMap(usuarios[..i])
    {
      assert usuarios[..i + 1][..i] == usuarios[..i];
      var userData := usuarios[i].1;
      usersMap := Assign(usersMap, EmailKey(userData), userData);
    }
    assert usuarios[..|usuarios|] == usuarios;
  }

  // ---------------------------------------------------------------------
  // The record written for one user

  /** `userDocData`: only the whitelisted fields, with `ativo ?? true` and
      `localizacao || null`, `telefone || null`, and the two timestamps. */
  function MigrationRecord(userData: Record, created: int, updated: int): Record
  {
    map[
      "nome" := Field(userData, "nome"),
      "email" := Field(userData, "email"),
      "role" := Field(userData, "role"),
      "ativo" := OrIfNullish(Field(userData, "ativo"), Bool(true)),
      "localizacao" := OrIfFalsy(Field(userData, "localizacao"), Null),
      "telefone" := OrIfFalsy(Field(userData, "telefone"), Null),
      "criadoEm" := Time(created),
      "atualizadoEm" := Time(updated)
    ]
  }

  /** Building `userDocData`, whose two timestamp conversions may throw. */
  function BuildMigration(userData: Record, parse: DateParser): (r: Result<Record, string>)
    ensures r.Ok? <==> parse(Field(userData, "criadoEm")).Some? && parse(Field(userData, "atualizadoEm")).Some?
    ensures r.Err? ==> r.error in {"criadoEm", "atualizadoEm"} && parse(Field(userData, r.error)).None?
    ensures r.Ok? ==> r.value == MigrationRecord(userData, parse(Field(userData, "criadoEm")).value,
                                                 parse(Field(userData, "atualizadoEm")).value)
  {
    match parse(Field(userData, "criadoEm"))
    case None => Err("criadoEm")
    case Some(created) =>
      match parse(Field(userData, "atualizadoEm"))
      case None => Err("atualizadoEm")
      case Some(updated) => Ok(MigrationRecord(userData, created, updated))
  }

  /** The written record has exactly the whitelisted fields, so neither the
      password nor any other source field is copied. */
  lemma MigrationWhitelist(userData: Record, created: int, updated: int)
    ensures var r := MigrationRecord(userData, created, updated);
            && r.Keys == Whitelist
            && "password" !in r
            && (forall f :: f in userData && f !in Whitelist ==> f !in r)
  {
  }

  /** Name, email and role are copied as read; `ativo` defaults to true only
      when null or undefined; `localizacao` and `telefone` become null
      whenever falsy; the dates are the converted instants. */
  lemma MigrationDefaults(userData: Record, created: int, updated: int)
    ensures var r := MigrationRecord(userData, created, updated);
            && r["nome"] == Field(userData, "nome")
            && r["email"] == Field(userData, "email")
            && r["role"] == Field(userData, "role")
            && (Field(userData, "ativo") in {Undefined, Null} ==> r["ativo"] == Bool(true))
            && (Field(userData, "ativo") !in {Undefined, Null} ==> r["ativo"] == userData["ativo"])
            && (forall f :: f in {"localizacao", "telefone"} ==>
                  r[f] == if Truthy(Field(userData, f)) then userData[f] else Null)
            && r["criadoEm"] == Time(created)
            && r["atualizadoEm"] == Time(updated)
  {
  }

  // ---------------------------------------------------------------------
  // One email: upsert under the uid, then the guarded legacy deletes

  /** What the `catch` of one iteration saw, if anything. */
  datatype Failure =
    | AuthError
    | BadDate(field: string)
    | SetRefused
    | GetRefused(key: string)
    | DeleteRefused(key: string)

  /** How one email ends: migrated under its uid, not registered in the
      identity provider, or failed. */
  datatype Migration = Migrated(uid: string) | NotInAuth | Failed(why: Failure)

  /** Legacy document `k` exists and its stored `email` is `email`. */
  predicate Matches(db: Db, k: string, email: string)
  {
    Lookup(db, Users, k).Some? && Field(Lookup(db, Users, k).value, "email") == Str(email)
  }

  /** The loop over the legacy keys: `get`, then `delete` when the document
      exists and its email is the one being migrated; a refused call ends the
      loop (the error reaches the iteration's catch). */
  function Retire(db: Db, email: string, keys: seq<string>, faults: Faults): (Db, Option<Failure>)
    decreases |keys|
  {
    if keys == [] then (db, None)
    else
      var k := keys[0];
      if Rejected(faults, GetOp(Users, k)) then (db, Some(GetRefused(k)))
      else if !Matches(db, k, email) then Retire(db, email, keys[1..], faults)
      else if Rejected(faults, DeleteOp(Users, k)) then (db, Some(DeleteRefused(k)))
      else Retire(Remove(db, Users, k), email, keys[1..], faults)
  }

  /** The collision guard: only the listed keys of the users collection can
      disappear, and one disappears only if it existed and held the email
      being migrated; nothing else changes. If the loop runs to its end, no
      listed key still holds that email; and it does run to its end when no
      `get` or `delete` is refused. */
  lemma {:induction false} RetireSpec(db: Db, email: string, keys: seq<string>, faults: Faults)
    ensures forall c, k :: c != Users || k !in keys ==>
              Lookup(Retire(db, email, keys, faults).0, c, k) == Lookup(db, c, k)
    ensures forall k :: k in keys ==>
              Lookup(Retire(db, email, keys, faults).0, Users, k) == Lookup(db, Users, k) ||
              (Lookup(Retire(db, email, keys, faults).0, Users, k) == None && Matches(db, k, email))
    ensures Retire(db, email, keys, faults).1 == None ==>
              forall k :: k in keys ==> !Matches(Retire(db, email, keys, faults).0, k, email)
    ensures (forall k :: k in keys ==> !Rejected(faults, GetOp(Users, k)) && !Rejected(faults, DeleteOp(Users, k))) ==>
              Retire(db, email, keys, faults).1 == None
    decreases |keys|
  {
    if keys != [] {
      var k, rest := keys[0], keys[1..];
      assert forall j :: j in keys <==> j == k || j in rest;
      if Rejected(faults, GetOp(Users, k)) {
      } else if !Matches(db, k, email) {
        RetireSpec(db, email, rest, faults);
      } else if Rejected(faults, DeleteOp(Users, k)) {
      } else {
        var db1 := Remove(db, Users, k);
        RetireSpec(db1, email, rest, faults);
        assert forall j :: j != k ==> Matches(db1, j, email) == Matches(db, j, email);
      }
    }
  }

  /** The iteration reaches the `set` under the uid: the lookup found the
      user, both dates converted, and the store accepted the write. */
  predicate Written(email: string, userData: Record, auth: IdentityProvider, parse: DateParser, faults: Faults)
  {
    && auth(email).Found?
    && BuildMigration(userData, parse).Ok?
    && !Rejected(faults, SetOp(Users, auth(email).uid, BuildMigration(userData, parse).value))
  }

  /** One iteration of the main loop, with its catch. */
  function MigrateStep(db: Db, email: string, userData: Record, auth: IdentityProvider, parse: DateParser, faults: Faults): (Db, Migration)
  {
    match auth(email)
    case UserNotFound => (db, NotInAuth)
    case AuthFailed => (db, Failed(AuthError))
    case Found(uid) =>
      match BuildMigration(userData, parse)
      case Err(f) => (db, Failed(BadDate(f)))
      case Ok(rec) =>
        if Rejected(faults, SetOp(Users, uid, rec)) then (db, Failed(SetRefused))
        else
          var retired := Retire(Put(db, Users, uid, rec), email, LegacyKeys, faults);
          (retired.0, if retired.1.Some? then Failed(retired.1.value) else Migrated(uid))
  }

  /** Write before delete: when the lookup, a date conversion or the `set`
      fails, nothing at all changes (no delete is tried) and the email is not
      migrated; a user unknown to the provider is reported as such, and a
      migrated one under the uid the provider returned. */
  lemma MigrateStepOutcome(db: Db, email: string, userData: Record, auth: IdentityProvider, parse: DateParser, faults: Faults)
    ensures var (db', m) := MigrateStep(db, email, userData, auth, parse, faults);
            && (m == NotInAuth <==> auth(email) == UserNotFound)
            && (m.Migrated? ==> auth(email) == Found(m.uid) && Written(email, userData, auth, parse, faults))
            && (!Written(email, userData, auth, parse, faults) ==> db' == db && !m.Migrated?)
  {
  }

  /** The store changes only in the users collection, at the uid and the
      legacy keys: the uid holds the migration record (unless it is itself a
      legacy key, see UidIsLegacyKey), a legacy key disappears only if it
      held this email, and a migration that succeeds leaves no legacy key
      holding this email. */
  lemma MigrateStepSpec(db: Db, email: string, userData: Record, auth: IdentityProvider, parse: DateParser, faults: Faults)
    ensures var db' := MigrateStep(db, email, userData, auth, parse, faults).0;
            forall c, k :: c != Users || (k !in LegacyKeys && !(auth(email).Found? && k == auth(email).uid)) ==>
              Lookup(db', c, k) == Lookup(db, c, k)
    ensures var db' := MigrateStep(db, email, userData, auth, parse, faults).0;
            Written(email, userData, auth, parse, faults) && auth(email).uid !in LegacyKeys ==>
              Lookup(db', Users, auth(email).uid) == Some(BuildMigration(userData, parse).value)
    ensures var db' := MigrateStep(db, email, userData, auth, parse, faults).0;
            forall k :: k in LegacyKeys && !(auth(email).Found? && k == auth(email).uid) ==>
              Lookup(db', Users, k) == Lookup(db, Users, k) || (Lookup(db', Users, k) == None && Matches(db, k, email))
    ensures var (db', m) := MigrateStep(db, email, userData, auth, parse, faults);
            m.Migrated? ==> forall k :: k in LegacyKeys ==> !Matches(db', k, email)
  {
    if Written(email, userData, auth, parse, faults) {
      var uid := auth(email).uid;
      var rec := BuildMigration(userData, parse).value;
      RetireSpec(Put(db, Users, uid, rec), email, LegacyKeys, faults);
    }
  }

  /** The edge case of the guarded delete: when the uid the provider returns
      is itself one of the legacy keys and the record's email is the email
      looked up, the delete loop removes the document the same iteration has
      just written, and the iteration still reports success. */
  lemma UidIsLegacyKey(db: Db, email: string, userData: Record, auth: IdentityProvider, parse: DateParser, faults: Faults)
    requires auth(email).Found? && auth(email).uid in LegacyKeys
    requires Field(userData, "email") == Str(email)
    requires Written(email, userData, auth, parse, faults)
    requires forall k :: k in LegacyKeys ==> !Rejected(faults, GetOp(Users, k)) && !Rejected(faults, DeleteOp(Users, k))
    ensures MigrateStep(db, email, userData, auth, parse, faults).1 == Migrated(auth(email).uid)
    ensures Lookup(MigrateStep(db, email, userData, auth, parse, faults).0, Users, auth(email).uid) == None
  {
    var uid := auth(email).uid;
    var rec := BuildMigration(userData, parse).value;
    var mid := Put(db, Users, uid, rec);
    MigrationDefaults(userData, parse(Field(userData, "criadoEm")).value, parse(Field(userData, "atualizadoEm")).value);
    assert Matches(mid, uid, email);
    RetireSpec(mid, email, LegacyKeys, faults);
  }

  /** `syncUsers()` as a function of the store: each email of the email map
      once, in the map's order. */
  function SyncAll(db: Db, usersMap: JsObject, auth: IdentityProvider, parse: DateParser, faults: Faults): Db
  {
    SyncUpTo(db, usersMap, |usersMap|, auth, parse, faults)
  }

  /** The store after the first `n` emails of the email map. */
  function SyncUpTo(db: Db, usersMap: JsObject, n: nat, auth: IdentityProvider, parse: DateParser, faults: Faults): Db
    requires n <= |usersMap|
    decreases n
  {
    if n == 0 then db
    else MigrateStep(SyncUpTo(db, usersMap, n - 1, auth, parse, faults), usersMap[n - 1].0, usersMap[n - 1].1, auth, parse, faults).0
  }

  /** The whole job: nothing at all when the dataset has no `usuarios`. */
  function SyncResult(db: Db, data: Dataset, auth: IdentityProvider, parse: DateParser, faults: Faults): Db
  {
    if Users !in data then db else SyncAll(db, UsersMap(data[Users]), auth, parse, faults)
  }

  /** Over the first `n` emails: collections other than the users collection
      are untouched; in it, a document changes only at a legacy key or at a
      uid the provider returned for one of those emails; and the only
      documents that can disappear are the legacy ones. */
  lemma {:induction false} SyncUpToSpec(db: Db, usersMap: JsObject, n: nat, auth: IdentityProvider, parse: DateParser, faults: Faults)
    requires n <= |usersMap|
    ensures var db' := SyncUpTo(db, usersMap, n, auth, parse, faults);
            forall c, k :: Lookup(db', c, k) != Lookup(db, c, k) ==>
              c == Users && (k in LegacyKeys || exists j :: 0 <= j < n && auth(usersMap[j].0) == Found(k))
    ensures var db' := SyncUpTo(db, usersMap, n, auth, parse, faults);
            forall c, k :: Lookup(db, c, k).Some? && Lookup(db', c, k).None? ==> c == Users && k in LegacyKeys
    decreases n
  {
    if n > 0 {
      SyncUpToSpec(db, usersMap, n - 1, auth, parse, faults);
      var mid := SyncUpTo(db, usersMap, n - 1, auth, parse, faults);
      MigrateStepSpec(mid, usersMap[n - 1].0, usersMap[n - 1].1, auth, parse, faults);
      var db' := SyncUpTo(db, usersMap, n, auth, parse, faults);
      forall c, k | Lookup(db', c, k) != Lookup(db, c, k)
        ensures c == Users && (k in LegacyKeys || exists j :: 0 <= j < n && auth(usersMap[j].0) == Found(k))
      {
        if Lookup(mid, c, k) == Lookup(db, c, k) && k !in LegacyKeys {
          assert auth(usersMap[n - 1].0) == Found(k);
        }
      }
    }
  }

  /** Over the whole run: collections other than the users collection are
      untouched; in it, a document changes only at a legacy key or at a uid
      the provider returned for one of the emails; and the only documents that
      can disappear are the legacy ones. */
  lemma SyncAllSpec(db: Db, usersMap: JsObject, auth: IdentityProvider, parse: DateParser, faults: Faults)
    ensures var db' := SyncAll(db, usersMap, auth, parse, faults);
            forall c, k :: Lookup(db', c, k) != Lookup(db, c, k) ==>
              c == Users && (k in LegacyKeys || exists p :: p in usersMap && auth(p.0) == Found(k))
    ensures var db' := SyncAll(db, usersMap, auth, parse, faults);
            forall c, k :: Lookup(db, c, k).Some? && Lookup(db', c, k).None? ==> c == Users && k in LegacyKeys
  {
    SyncUpToSpec(db, usersMap, |usersMap|, auth, parse, faults);
    var db' := SyncAll(db, usersMap, auth, parse, faults);
    forall c, k | Lookup(db', c, k) != Lookup(db, c, k) && k !in LegacyKeys
      ensures exists p :: p in usersMap && auth(p.0) == Found(k)
    {
      var j :| 0 <= j < |usersMap| && auth(usersMap[j].0) == Found(k);
      assert usersMap[j] in usersMap;
    }
  }

  /** The whole job: a dataset without `usuarios` leaves the store as it was;
      otherwise only the users collection changes, at a legacy key or at a
      uid the provider returned for the email of some user record, and the
      only documents that can disappear are the legacy ones. */
  lemma SyncResultSpec(db: Db, data: Dataset, auth: IdentityProvider, parse: DateParser, faults: Faults)
    ensures Users !in data ==> SyncResult(db, data, auth, parse, faults) == db
    ensures var db' := SyncResult(db, data, auth, parse, faults);
            forall c, k :: Lookup(db', c, k) != Lookup(db, c, k) ==>
              c == Users && Users in data &&
              (k in LegacyKeys || exists e :: IsEmailOf(data[Users], e) && auth(e) == Found(k))
    ensures var db' := SyncResult(db, data, auth, parse, faults);
            forall c, k :: Lookup(db, c, k).Some? && Lookup(db', c, k).None? ==> c == Users && k in LegacyKeys
  {
    if Users in data {
      var usersMap := UsersMap(data[Users]);
      SyncAllSpec(db, usersMap, auth, parse, faults);
      var db' := SyncResult(db, data, auth, parse, faults);
      forall c, k | Lookup(db', c, k) != Lookup(db, c, k) && k !in LegacyKeys
        ensures exists e :: IsEmailOf(data[Users], e) && auth(e) == Found(k)
      {
        var p :| p in usersMap && auth(p.0) == Found(k);
        var j :| 0 <= j < |usersMap| && usersMap[j] == p;
        UsersMapKeys(data[Users], p.0);
      }
    }
  }

  // ---------------------------------------------------------------------
  // The job itself, against the store

  /** The inner loop over `oldDocIds`. */
  method RetireLegacy(fs: Firestore, email: string) returns (err: Option<Failure>)
    modifies fs
    ensures (fs.db, err) == Retire(old(fs.db), email, LegacyKeys, fs.faults)
  {
    var oldDocIds := LegacyKeys;
    var i := 0;
    while i < |oldDocIds|
      invariant 0 <= i <= |oldDocIds|
      invariant Retire(old(fs.db), email, oldDocIds, fs.faults) == Retire(fs.db, email, oldDocIds[i..], fs.faults)
    {
      var oldDocId := oldDocIds[i];
      assert oldDocIds[i..][1..] == oldDocIds[i + 1..];
      var oldDoc := fs.Get(Users, oldDocId);
      if oldDoc.FetchFailed? {
        return Some(GetRefused(oldDocId));
      }
      if oldDoc.snapshot.Some? && Field(oldDoc.snapshot.value, "email") == Str(email) {
        var ok := fs.Delete(Users, oldDocId);
        if !ok {
          return Some(DeleteRefused(oldDocId));
        }
      }
      i := i + 1;
    }
    err := None;
  }

  /** One iteration of the main loop, its `try` and its `catch`. */
  method MigrateUser(fs: Firestore, email: string, userData: Record, auth: IdentityProvider, parse: DateParser) returns (m: Migration)
    modifies fs
    ensures (fs.db, m) == MigrateStep(old(fs.db), email, userData, auth, parse, fs.faults)
  {
    var userRecord := auth(email);
    if userRecord.UserNotFound? {
      return NotInAuth;
    } else if userRecord.AuthFailed? {
      return Failed(AuthError);
    }
    var userDocData := BuildMigration(userData, parse);
    if userDocData.Err? {
      return Failed(BadDate(userDocData.error));
    }
    var ok := fs.Set(Users, userRecord.uid, userDocData.value);
    if !ok {
      return Failed(SetRefused);
    }
    var err := RetireLegacy(fs, email);
    m := if err.Some? then Failed(err.value) else Migrated(userRecord.uid);
  }

  /** `syncUsers()`. */
  method SyncUsers(fs: Firestore, data: Dataset, auth: IdentityProvider, parse: DateParser)
    modifies fs
    ensures fs.db == SyncResult(old(fs.db), data, auth, parse, fs.faults)
  {
    if Users !in data {
      return;
    }
    var usersMap := BuildUsersMap(data[Users]);
    MigrateAll(fs, usersMap, auth, parse);
  }

  /** The main loop of `syncUsers()`, over the entries of the email map. */
  method MigrateAll(fs: Firestore, usersMap: JsObject, auth: IdentityProvider, parse: DateParser)
    modifies fs
    ensures fs.db == SyncAll(old(fs.db), usersMap, auth, parse, fs.faults)
  {
    ghost var db0, faults := fs.db, fs.faults;
    for i := 0 to |usersMap|
      invariant fs.db == SyncUpTo(db0, usersMap, i, auth, parse, faults)
    {
      var email, userData := usersMap[i].0, usersMap[i].1;
      var outcome := MigrateUser(fs, email, userData, auth, parse);
    }
  }
}
