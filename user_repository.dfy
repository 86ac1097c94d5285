/**
 * The users table (m_user, each row with its roles and their permissions preloaded) and the
 * model_has_roles pivot table whose rows link a model to a role.
 */
module UserRepository {
  import opened Base
  import opened Domain
  import Pivot

  /** The database's error for a second row with an address already in the table. */
  const DuplicateEmail := "Error 1062 (23000): Duplicate entry for key 'email'"

  /** The first row with that e-mail address (the auth repository's FindByEmail). */
  function ByEmail(rows: seq<User>, email: string): (u: Option<User>)
    ensures u.Some? ==> u.value in rows && u.value.email == email
    ensures u.None? ==> forall i :: 0 <= i < |rows| ==> rows[i].email != email
  {
    if rows == [] then None
    else if rows[0].email == email then Some(rows[0])
    else ByEmail(rows[1..], email)
  }

  /** The row ByEmail finds is the first with that address. */
  lemma {:induction false} ByEmailAt(rows: seq<User>, email: string, i: nat)
    requires i < |rows| && rows[i].email == email
    requires forall j :: 0 <= j < i ==> rows[j].email != email
    ensures ByEmail(rows, email) == Some(rows[i])
  {
    if i > 0 {
      ByEmailAt(rows[1..], email, i - 1);
    }
  }

  /** The row ByEmail finds has a primary key FindByID finds. */
  lemma ByEmailIndex(rows: seq<User>, email: string)
    requires ByEmail(rows, email).Some?
    ensures IndexOfId(rows, ByEmail(rows, email).value.id) < |rows|
  {
    var u := ByEmail(rows, email).value;
    var k :| 0 <= k < |rows| && rows[k] == u;
    assert rows[k].id == u.id;
  }

  /** The position of the first row with primary key `id`, |rows| when there is none. */
  function IndexOfId(rows: seq<User>, id: string): (i: nat)
    ensures i <= |rows|
    ensures i < |rows| ==> rows[i].id == id
    ensures forall j :: 0 <= j < i ==> rows[j].id != id
  {
    if rows == [] then 0
    else if rows[0].id == id then 0
    else 1 + IndexOfId(rows[1..], id)
  }

  /** The primary key column. */
  predicate UniqueIds(rows: seq<User>) {
    forall i, j :: 0 <= i < j < |rows| ==> rows[i].id != rows[j].id
  }

  /** The `unique` e-mail column. */
  predicate UniqueEmails(rows: seq<User>) {
    forall i, j :: 0 <= i < j < |rows| ==> rows[i].email != rows[j].email
  }

  /**
   * With the e-mail column unique, the row found does not depend on the table's order: it is
   * the one row with that address, whatever order `First` reads the rows in.
   */
  lemma ByEmailUnique(rows: seq<User>, email: string, u: User)
    requires UniqueEmails(rows)
    ensures ByEmail(rows, email) == Some(u) <==> u in rows && u.email == email
  {
    if u in rows && u.email == email {
      var i :| 0 <= i < |rows| && rows[i] == u;
      ByEmailAt(rows, email, i);
    }
  }

  /** In a valid table the row found by e-mail sits at its id's position, and no other row has that address. */
  lemma ByEmailSole(rows: seq<User>, email: string)
    requires UniqueIds(rows) && UniqueEmails(rows)
    requires ByEmail(rows, email).Some?
    ensures var u := ByEmail(rows, email).value; var i := IndexOfId(rows, u.id);
      i < |rows| && rows[i] == u && forall j :: 0 <= j < |rows| && j != i ==> rows[j].email != email
  {
    var u := ByEmail(rows, email).value;
    var k :| 0 <= k < |rows| && rows[k] == u;
    var i := IndexOfId(rows, u.id);
    assert rows[k].id == u.id;
    assert i < |rows|;
    assert i == k;
  }

  /** The rows of `modelType` whose model is not `id`: what the delete in UpdateRoles keeps. */
  function KeepOthers(id: string, modelType: string): ModelHasRole -> bool {
    (r: ModelHasRole) => !(r.modelUuid == id && r.modelType == modelType)
  }

  /** The id's role links of that model type, in table order. */
  function RoleLinks(pivots: seq<ModelHasRole>, id: string, modelType: string): seq<ModelHasRole> {
    Pivot.Filter(pivots, (r: ModelHasRole) => r.modelUuid == id && r.modelType == modelType)
  }

  class Users {
    var rows: seq<User>
    var pivots: seq<ModelHasRole>
    /** The model type recorded for users in model_has_roles. */
    const modelType: string

    /** Primary keys and e-mail addresses are unique. */
    ghost predicate Valid()
      reads this
    {
      UniqueIds(rows) && UniqueEmails(rows)
    }

    constructor(rows: seq<User>, pivots: seq<ModelHasRole>, modelType: string)
      ensures this.rows == rows && this.pivots == pivots && this.modelType == modelType
    {
      this.rows := rows;
      this.pivots := pivots;
      this.modelType := modelType;
    }

    function FindByEmail(email: string): (u: Option<User>)
      reads this
      ensures u == ByEmail(rows, email)
    {
      ByEmail(rows, email)
    }

    /** FindByID: the row with that primary key. */
    function FindByID(id: string): (u: Option<User>)
      reads this
      ensures u.Some? ==> u.value in rows && u.value.id == id
      ensures u.None? ==> forall i :: 0 <= i < |rows| ==> rows[i].id != id
    {
      var i := IndexOfId(rows, id);
      if i < |rows| then Some(rows[i]) else None
    }

    /**
     * Update(id, user): look the row up, then write the user's fields into it. `err` is the
     * error the database returns, if any; a missing row is gorm's "record not found", and an
     * address another row already has violates the unique e-mail column.
     */
    method Update(id: string, user: User, err: Option<string>) returns (r: Result<User>)
      modifies this
      ensures pivots == old(pivots)
      ensures var i := IndexOfId(old(rows), id);
        if err.Some? then r == Err(err.value) && rows == old(rows)
        else if i == |old(rows)| then r == Err("record not found") && rows == old(rows)
        else if exists j :: 0 <= j < |old(rows)| && j != i && old(rows)[j].email == user.email then
          r == Err(DuplicateEmail) && rows == old(rows)
        else r == Ok(user.(id := id)) && rows == old(rows)[i := user.(id := id)]
      ensures old(Valid()) ==> Valid()
    {
      if err.Some? {
        return Err(err.value);
      }
      var i := IndexOfId(rows, id);
      if i == |rows| {
        return Err("record not found");
      }
      if exists j :: 0 <= j < |rows| && j != i && rows[j].email == user.email {
        return Err(DuplicateEmail);
      }
      rows := rows[i := user.(id := id)];
      r := Ok(user.(id := id));
    }

    /**
     * UpdateRoles, one transaction: the user must exist; its role links are deleted and one
     * link per given role is inserted, in the given order. `deleteErr` and `insertErr` are the
     * errors those statements return; any failure rolls everything back.
     */
    method UpdateRoles(id: string, roles: seq<Role>, deleteErr: Option<string>, insertErr: Option<string>)
      returns (r: Option<string>)
      modifies this
      ensures rows == old(rows)
      ensures var links := RoleRows(id, roles, modelType);
        if IndexOfId(old(rows), id) == |old(rows)| then r == Some("record not found") && pivots == old(pivots)
        else if deleteErr.Some? then r == deleteErr && pivots == old(pivots)
        else if roles != [] && insertErr.Some? then r == insertErr && pivots == old(pivots)
        else r.None? && pivots == Pivot.Replace(old(pivots), KeepOthers(id, modelType), links)
    {
      if IndexOfId(rows, id) == |rows| {
        return Some("record not found");
      }
      if deleteErr.Some? {
        return deleteErr;
      }
      var kept := Pivot.Filter(pivots, KeepOthers(id, modelType));
      if |roles| == 0 {
        assert kept + [] == kept;
        pivots := kept;
        return None;
      }
      var links := BuildLinks(id, roles, modelType);
      if insertErr.Some? {
        return insertErr;
      }
      pivots := kept + links;
      r := None;
    }
  }

  /** The link rows UpdateRoles inserts: one per role, in order. */
  function RoleRows(id: string, roles: seq<Role>, modelType: string): (links: seq<ModelHasRole>)
    ensures |links| == |roles|
  {
    seq(|roles|, i requires 0 <= i < |roles| => ModelHasRole(roles[i].id, id, modelType))
  }

  /** The loop that builds the rows to insert. */
  method BuildLinks(id: string, roles: seq<Role>, modelType: string) returns (links: seq<ModelHasRole>)
    ensures |links| == |roles|
    ensures forall i :: 0 <= i < |roles| ==>
      links[i].roleId == roles[i].id && links[i].modelUuid == id && links[i].modelType == modelType
  {
    links := [];
    var k := 0;
    while k < |roles|
      invariant 0 <= k <= |roles|
      invariant |links| == k
      invariant forall i :: 0 <= i < k ==>
        links[i].roleId == roles[i].id && links[i].modelUuid == id && links[i].modelType == modelType
    {
      links := links + [ModelHasRole(roles[k].id, id, modelType)];
      k := k + 1;
    }
  }

  /**
   * After a successful UpdateRoles the user's links are exactly one per given role, in order,
   * and every other model's links are untouched.
   */
  lemma UpdateRolesReplaces(pivots: seq<ModelHasRole>, id: string, modelType: string, roles: seq<Role>)
    ensures var after := Pivot.Replace(pivots, KeepOthers(id, modelType), RoleRows(id, roles, modelType));
      RoleLinks(after, id, modelType) == RoleRows(id, roles, modelType) &&
      Pivot.Filter(after, KeepOthers(id, modelType)) == Pivot.Filter(pivots, KeepOthers(id, modelType))
  {
    var owned := (r: ModelHasRole) => r.modelUuid == id && r.modelType == modelType;
    Pivot.ReplaceSelects(pivots, KeepOthers(id, modelType), owned, RoleRows(id, roles, modelType));
  }

  /** Setting the same roles twice leaves the table as setting them once. */
  lemma UpdateRolesIdempotent(pivots: seq<ModelHasRole>, id: string, modelType: string, roles: seq<Role>)
    ensures var once := Pivot.Replace(pivots, KeepOthers(id, modelType), RoleRows(id, roles, modelType));
      Pivot.Replace(once, KeepOthers(id, modelType), RoleRows(id, roles, modelType)) == once
  {
    Pivot.ReplaceIdempotent(pivots, KeepOthers(id, modelType), RoleRows(id, roles, modelType));
  }
}
