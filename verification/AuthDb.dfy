/** Erasing a user from auth.db: the tables that refer to users, their foreign keys, and the
    one transaction that takes a user out. */
module AuthDb {
  import opened Wrappers

  type UserId = int

  datatype User = User(createdBy: Option<UserId>, rest: string)
  datatype Session = Session(userId: UserId, rest: string)
  datatype Permission = Permission(grantedBy: Option<UserId>, rest: string)
  datatype Config = Config(updatedBy: Option<UserId>, rest: string)
  datatype PlayerGrant = PlayerGrant(grantedBy: Option<UserId>, rest: string)

  /** Every table with a column that means a user. Channel permissions are keyed by user and
      channel, player grants by user, scope and place. */
  datatype Tables = Tables(
    users: map<UserId, User>, sessions: map<int, Session>, permissions: map<(UserId, int), Permission>,
    ldap: Option<Config>, smtp: Option<Config>, resets: map<UserId, string>,
    playerGrants: map<(UserId, string, int), PlayerGrant>)

  // ---- foreign keys -----------------------------------------------------------------------

  predicate Names(x: Option<UserId>, u: UserId) {
    x == Some(u)
  }

  /** Some row refers to this user through a foreign key. The granter of a player grant is not
      one. */
  predicate Referenced(t: Tables, u: UserId) {
    || (exists k | k in t.users :: Names(t.users[k].createdBy, u))
    || (exists k | k in t.sessions :: t.sessions[k].userId == u)
    || (exists k | k in t.permissions :: k.0 == u || Names(t.permissions[k].grantedBy, u))
    || (t.ldap.Some? && Names(t.ldap.value.updatedBy, u))
    || (t.smtp.Some? && Names(t.smtp.value.updatedBy, u))
    || u in t.resets
    || (exists k | k in t.playerGrants :: k.0 == u)
  }

  /** Some other row keeps the user from being deleted. Player grants do not: they go with him;
      nor does his own row, if it names him as its creator. */
  predicate Held(t: Tables, u: UserId) {
    || (exists k | k in t.users && k != u :: Names(t.users[k].createdBy, u))
    || (exists k | k in t.sessions :: t.sessions[k].userId == u)
    || (exists k | k in t.permissions :: k.0 == u || Names(t.permissions[k].grantedBy, u))
    || (t.ldap.Some? && Names(t.ldap.value.updatedBy, u))
    || (t.smtp.Some? && Names(t.smtp.value.updatedBy, u))
    || u in t.resets
  }

  /** What the schema enforces. */
  ghost predicate Integrity(t: Tables) {
    forall u :: Referenced(t, u) ==> u in t.users
  }

  predicate Exists(t: Tables, x: Option<UserId>) {
    x.Some? ==> x.value in t.users
  }

  /** Column by column: whoever is named is there. The granter of a player grant may be gone. */
  lemma IntegrityMeans(t: Tables)
    ensures Integrity(t) <==>
              && (forall k | k in t.users :: Exists(t, t.users[k].createdBy))
              && (forall k | k in t.sessions :: t.sessions[k].userId in t.users)
              && (forall k | k in t.permissions :: k.0 in t.users && Exists(t, t.permissions[k].grantedBy))
              && (t.ldap.Some? ==> Exists(t, t.ldap.value.updatedBy))
              && (t.smtp.Some? ==> Exists(t, t.smtp.value.updatedBy))
              && (forall u | u in t.resets :: u in t.users)
              && (forall k | k in t.playerGrants :: k.0 in t.users)
  {
    if Integrity(t) {
      forall k | k in t.users && t.users[k].createdBy.Some? ensures t.users[k].createdBy.value in t.users {
        assert Names(t.users[k].createdBy, t.users[k].createdBy.value);
        assert Referenced(t, t.users[k].createdBy.value);
      }
      forall k | k in t.sessions ensures t.sessions[k].userId in t.users {
        assert Referenced(t, t.sessions[k].userId);
      }
      forall k | k in t.permissions ensures k.0 in t.users && Exists(t, t.permissions[k].grantedBy) {
        assert Referenced(t, k.0);
        if t.permissions[k].grantedBy.Some? {
          assert Names(t.permissions[k].grantedBy, t.permissions[k].grantedBy.value);
          assert Referenced(t, t.permissions[k].grantedBy.value);
        }
      }
      assert t.ldap.Some? && t.ldap.value.updatedBy.Some? ==> Referenced(t, t.ldap.value.updatedBy.value);
      assert t.smtp.Some? && t.smtp.value.updatedBy.Some? ==> Referenced(t, t.smtp.value.updatedBy.value);
      forall u | u in t.resets ensures u in t.users {
        assert Referenced(t, u);
      }
      forall k | k in t.playerGrants ensures k.0 in t.users {
        assert Referenced(t, k.0);
      }
    }
  }

  // ---- the statements ---------------------------------------------------------------------

  function Without(x: Option<UserId>, u: UserId): Option<UserId> {
    if Names(x, u) then None else x
  }

  function DropSessions(t: Tables, u: UserId): Tables {
    t.(sessions := map k | k in t.sessions && t.sessions[k].userId != u :: t.sessions[k])
  }

  function DropPermissions(t: Tables, u: UserId): Tables {
    t.(permissions := map k | k in t.permissions && k.0 != u :: t.permissions[k])
  }

  function DropPlayerGrants(t: Tables, u: UserId): Tables {
    t.(playerGrants := map k | k in t.playerGrants && k.0 != u :: t.playerGrants[k])
  }

  function DropResets(t: Tables, u: UserId): Tables {
    t.(resets := t.resets - {u})
  }

  function ClearCreator(t: Tables, u: UserId): Tables {
    t.(users := map k | k in t.users :: t.users[k].(createdBy := Without(t.users[k].createdBy, u)))
  }

  function ClearUpdater(c: Option<Config>, u: UserId): Option<Config> {
    if c.Some? then Some(c.value.(updatedBy := Without(c.value.updatedBy, u))) else None
  }

  function Children(t: Tables, u: UserId): Tables {
    var t1 := ClearCreator(DropResets(DropPlayerGrants(DropPermissions(DropSessions(t, u), u), u), u), u);
    t1.(ldap := ClearUpdater(t1.ldap, u), smtp := ClearUpdater(t1.smtp, u))
  }

  /** The user's row gone, and his player grants with it. */
  function Deleted(t: Tables, u: UserId): Tables {
    if u !in t.users then t
    else
      var t1 := DropPlayerGrants(t, u);
      t1.(users := t1.users - {u})
  }

  /** Everything of the user gone. */
  function Purged(t: Tables, u: UserId): Tables {
    var t1 := Children(t, u);
    t1.(users := t1.users - {u})
  }

  // ---- what stands in the way -------------------------------------------------------------

  /** Another user's channel permission was granted by this one. */
  predicate GrantedToOthers(t: Tables, u: UserId) {
    exists k | k in t.permissions :: k.0 != u && Names(t.permissions[k].grantedBy, u)
  }

  lemma NoneGranted(t: Tables, u: UserId)
    ensures !GrantedToOthers(t, u)
            <==> forall k | k in t.permissions :: k.0 == u || t.permissions[k].grantedBy != Some(u)
  {
  }

  /** Of all references only that one survives the deletes and updates before the last, and it
      holds the user back. */
  lemma ChildrenReferenced(t: Tables, u: UserId)
    ensures Referenced(Children(t, u), u) <==> GrantedToOthers(t, u)
    ensures Held(Children(t, u), u) <==> GrantedToOthers(t, u)
  {
    var c := Children(t, u);
    assert forall k | k in c.users :: !Names(c.users[k].createdBy, u);
    assert forall k | k in c.permissions :: k in t.permissions && c.permissions[k] == t.permissions[k];
    if GrantedToOthers(t, u) {
      var k :| k in t.permissions && k.0 != u && Names(t.permissions[k].grantedBy, u);
      assert k in c.permissions;
    }
  }

  /** Deleting a user who is not held back, at any time, leaves nothing that refers to him. */
  lemma DeletedKeepsIntegrity(t: Tables, u: UserId)
    requires Integrity(t) && u in t.users
    ensures Integrity(Deleted(t, u)) <==> !Held(t, u)
  {
    var p := Deleted(t, u);
    assert forall k | k in p.users :: k in t.users && k != u && p.users[k] == t.users[k];
    assert forall k | k in p.playerGrants :: k in t.playerGrants && k.0 != u;
    if Held(t, u) {
      if k :| k in t.users && k != u && Names(t.users[k].createdBy, u) {
        assert k in p.users;
      }
      assert Referenced(p, u);
    } else {
      forall v | Referenced(p, v) ensures v in p.users {
        assert Referenced(t, v);
        assert v != u;
      }
    }
  }

  /** With a user's row go his player grants, and nothing else. */
  lemma DeletedMeans(t: Tables, u: UserId)
    requires u in t.users
    ensures var p := Deleted(t, u);
            && p.users == t.users - {u}
            && (forall k :: k in p.playerGrants <==> k in t.playerGrants && k.0 != u)
            && (forall k | k in p.playerGrants :: p.playerGrants[k] == t.playerGrants[k])
            && p.(users := t.users, playerGrants := t.playerGrants) == t
  {
  }

  /** The children being gone, the last statement takes the user alone. */
  lemma LastStatement(t: Tables, u: UserId)
    requires u in t.users
    ensures Deleted(Children(t, u), u) == Purged(t, u)
  {
    var c := Children(t, u);
    assert DropPlayerGrants(c, u).playerGrants == c.playerGrants;
  }

  /** After a purge no foreign key refers to the user, and the foreign keys of everybody else
      still hold. */
  lemma PurgedKeepsIntegrity(t: Tables, u: UserId)
    requires Integrity(t) && !GrantedToOthers(t, u)
    ensures Integrity(Purged(t, u)) && !Referenced(Purged(t, u), u) && u !in Purged(t, u).users
  {
    hide Referenced, Children;
    var p := Purged(t, u);
    ChildrenReferenced(t, u);
    UsersLeft(t, u);
    forall v | Referenced(p, v) ensures v in p.users {
      FewerReferences(t, u, v);
    }
    if Referenced(p, u) {
      FewerReferences(t, u, u);
    }
  }

  lemma UsersLeft(t: Tables, u: UserId)
    ensures Children(t, u).users.Keys == t.users.Keys
  {
  }

  lemma FewerReferences(t: Tables, u: UserId, v: UserId)
    requires Referenced(Purged(t, u), v)
    ensures Referenced(t, v) && Referenced(Children(t, u), v)
  {
    var c, p := Children(t, u), Purged(t, u);
    assert forall k | k in p.users :: k in c.users && k in t.users && p.users[k] == c.users[k];
    assert forall k | k in c.users :: c.users[k].createdBy == Without(t.users[k].createdBy, u);
    assert forall k | k in p.sessions :: k in t.sessions && p.sessions[k] == t.sessions[k];
    assert forall k | k in p.permissions :: k in t.permissions && p.permissions[k] == t.permissions[k];
    assert forall k | k in p.playerGrants :: k in t.playerGrants;
  }

  /** The user's own rows are gone, and nobody else's, and nothing is added: rows that have nothing
      to do with him are as they were, and one that merely names him keeps all but that name. */
  lemma UnrelatedStay(t: Tables, u: UserId)
    ensures var p := Purged(t, u);
            && p.users.Keys == t.users.Keys - {u}
            && (forall k | k in p.users ::
                  && p.users[k].rest == t.users[k].rest
                  && p.users[k].createdBy == if t.users[k].createdBy == Some(u) then None else t.users[k].createdBy)
            && (forall k :: k in p.sessions <==> k in t.sessions && t.sessions[k].userId != u)
            && (forall k | k in p.sessions :: p.sessions[k] == t.sessions[k])
            && (forall k :: k in p.permissions <==> k in t.permissions && k.0 != u)
            && (forall k | k in p.permissions :: p.permissions[k] == t.permissions[k])
            && (forall k :: k in p.playerGrants <==> k in t.playerGrants && k.0 != u)
            && (forall k | k in p.playerGrants :: p.playerGrants[k] == t.playerGrants[k])
            && (forall k :: k in p.resets <==> k in t.resets && k != u)
            && (forall k | k in p.resets :: p.resets[k] == t.resets[k])
            && SameButFor(t.ldap, p.ldap, u) && SameButFor(t.smtp, p.smtp, u)
  {
  }

  predicate SameButFor(was: Option<Config>, now: Option<Config>, u: UserId) {
    && (was.None? <==> now.None?)
    && (was.Some? ==> now.value.rest == was.value.rest
                      && now.value.updatedBy == if was.value.updatedBy == Some(u) then None else was.value.updatedBy)
  }

  /** What is left behind all the same: a player grant of another user that this one gave goes
      on naming him, since that column is no foreign key. */
  lemma GranterMayDangle(t: Tables, u: UserId, k: (UserId, string, int))
    ensures var p := Purged(t, u);
            (k in p.playerGrants && Names(p.playerGrants[k].grantedBy, u))
            <==> (k in t.playerGrants && k.0 != u && Names(t.playerGrants[k].grantedBy, u))
  {
  }

  // ---- the transaction as it runs --------------------------------------------------------------

  class Database {
    var tables: Tables

    constructor (tables: Tables)
      ensures this.tables == tables
    {
      this.tables := tables;
    }

    /** The children: seven statements, stopping at the first that fails. */
    method RunStatements(u: UserId, works: nat -> bool) returns (ok: bool)
      modifies this
      ensures ok <==> forall i: nat | 1 <= i <= 7 :: works(i)
      ensures ok ==> tables == Children(old(tables), u)
    {
      if !works(1) {
        return false;
      }
      tables := DropSessions(tables, u);
      if !works(2) {
        return false;
      }
      tables := DropPermissions(tables, u);
      if !works(3) {
        return false;
      }
      tables := DropPlayerGrants(tables, u);
      if !works(4) {
        return false;
      }
      tables := DropResets(tables, u);
      if !works(5) {
        return false;
      }
      tables := ClearCreator(tables, u);
      if !works(6) {
        return false;
      }
      tables := tables.(ldap := ClearUpdater(tables.ldap, u));
      if !works(7) {
        return false;
      }
      tables := tables.(smtp := ClearUpdater(tables.smtp, u));
      ok := true;
    }

    /** DELETE FROM users: refused by the schema while another row holds the user back. */
    method DeleteUser(u: UserId, works: bool) returns (ok: bool, changes: nat)
      modifies this
      ensures ok <==> works && (u in old(tables).users ==> !Held(old(tables), u))
      ensures changes == (if ok && u in old(tables).users then 1 else 0)
      ensures tables == if ok then Deleted(old(tables), u) else old(tables)
    {
      hide Held;
      if !works || (u in tables.users && Held(tables, u)) {
        return false, 0;
      }
      if u !in tables.users {
        return true, 0;
      }
      tables := DropPlayerGrants(tables, u);
      tables := tables.(users := tables.users - {u});
      return true, 1;
    }

    /** All of it or nothing. `works` is which storage steps do: 0 begins the transaction, 1 to 8
        are the statements, 9 commits. Apart from failures of the storage the one thing that stops it
        is a channel permission the user gave to somebody else. */
    method PurgeUser(u: UserId, works: nat -> bool) returns (ok: bool)
      modifies this
      ensures ok <==> && (forall i: nat | i < 10 :: works(i)) && u in old(tables).users
                      && (forall k | k in old(tables).permissions ::
                            k.0 == u || old(tables).permissions[k].grantedBy != Some(u))
      ensures tables == if ok then Purged(old(tables), u) else old(tables)
    {
      hide Referenced, Held, Deleted, GrantedToOthers;
      var before := tables;
      NoneGranted(tables, u);
      ChildrenReferenced(tables, u);
      UsersLeft(tables, u);
      if u in tables.users {
        LastStatement(tables, u);
      }
      if !works(0) {
        return false;
      }
      ok := RunStatements(u, works);
      if !ok {
        tables := before;
        return false;
      }
      var changes;
      ok, changes := DeleteUser(u, works(8));
      if !ok {
        tables := before;
        return false;
      }
      if changes != 1 {
        tables := before;
        return false;
      }
      if !works(9) {
        tables := before;
        return false;
      }
    }
  }
}
