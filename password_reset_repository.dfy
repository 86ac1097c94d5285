/**
 * The password_reset_tokens table: one row per e-mail address (its primary key) holding the
 * current reset token and when it was made.
 */
module PasswordResetRepository {
  import opened Base
  import opened Domain
  import Pivot

  /** The error the database reports for a second row with the same primary key. */
  const DuplicateKey := "duplicate primary key"

  /** FindByTokenAndEmail's query: the first row with both that token and that address. */
  function FindReset(rows: seq<PasswordReset>, token: string, email: string): (r: Option<PasswordReset>)
    ensures r.Some? ==> r.value in rows && r.value.token == token && r.value.email == email
    ensures r.None? ==> forall i :: 0 <= i < |rows| ==> !(rows[i].token == token && rows[i].email == email)
  {
    if rows == [] then None
    else if rows[0].token == token && rows[0].email == email then Some(rows[0])
    else FindReset(rows[1..], token, email)
  }

  function OtherEmail(email: string): PasswordReset -> bool {
    (p: PasswordReset) => p.email != email
  }

  function OtherToken(token: string): PasswordReset -> bool {
    (p: PasswordReset) => p.token != token
  }

  /** At most one row per address. */
  ghost predicate UniqueEmails(rows: seq<PasswordReset>) {
    forall i, j :: 0 <= i < j < |rows| ==> rows[i].email != rows[j].email
  }

  class PasswordResets {
    var rows: seq<PasswordReset>

    constructor(rows: seq<PasswordReset>)
      ensures this.rows == rows
    {
      this.rows := rows;
    }

    function FindByTokenAndEmail(token: string, email: string): (r: Option<PasswordReset>)
      reads this
      ensures r == FindReset(rows, token, email)
    {
      FindReset(rows, token, email)
    }

    /**
     * Create: delete the address's rows (an error there is ignored; `deleteFault` says the
     * delete failed), then insert the new row. The two statements are not one transaction:
     * an insert that fails leaves the delete done. `insertErr` is the insert's own error.
     */
    method Create(pr: PasswordReset, deleteFault: bool, insertErr: Option<string>) returns (r: Result<PasswordReset>)
      modifies this
      ensures var afterDelete := if deleteFault then old(rows) else Pivot.Filter(old(rows), OtherEmail(pr.email));
        if insertErr.Some? then r == Err(insertErr.value) && rows == afterDelete
        else if deleteFault && exists i :: 0 <= i < |old(rows)| && old(rows)[i].email == pr.email then
          r == Err(DuplicateKey) && rows == old(rows)
        else r == Ok(pr) && rows == afterDelete + [pr]
      ensures UniqueEmails(old(rows)) ==> UniqueEmails(rows)
    {
      if !deleteFault {
        if UniqueEmails(rows) {
          FilterKeepsUnique(rows, OtherEmail(pr.email));
        }
        Pivot.FilterSelects(rows, OtherEmail(pr.email));
        rows := Pivot.Filter(rows, OtherEmail(pr.email));
      }
      if insertErr.Some? {
        return Err(insertErr.value);
      }
      if exists i :: 0 <= i < |rows| && rows[i].email == pr.email {
        return Err(DuplicateKey);
      }
      rows := rows + [pr];
      r := Ok(pr);
    }

    /** Delete(token): remove every row with that token; `err` is the database's error, if any. */
    method Delete(token: string, err: Option<string>) returns (r: Option<string>)
      modifies this
      ensures r == err
      ensures rows == if err.Some? then old(rows) else Pivot.Filter(old(rows), OtherToken(token))
      ensures UniqueEmails(old(rows)) ==> UniqueEmails(rows)
    {
      if err.Some? {
        return err;
      }
      if UniqueEmails(rows) {
        FilterKeepsUnique(rows, OtherToken(token));
      }
      rows := Pivot.Filter(rows, OtherToken(token));
      r := None;
    }
  }

  lemma {:induction false} FilterKeepsUnique(rows: seq<PasswordReset>, keep: PasswordReset -> bool)
    requires UniqueEmails(rows)
    ensures UniqueEmails(Pivot.Filter(rows, keep))
  {
    if rows != [] {
      FilterKeepsUnique(rows[1..], keep);
      var rest := Pivot.Filter(rows[1..], keep);
      Pivot.FilterSelects(rows[1..], keep);
      forall i | 0 <= i < |rest| ensures rest[i].email != rows[0].email {
        assert rest[i] in rows[1..];
      }
    }
  }

  /** A new reset supersedes the address's earlier tokens: only the new one is found afterwards. */
  lemma CreateSupersedes(rows: seq<PasswordReset>, pr: PasswordReset, oldToken: string)
    requires oldToken != pr.token
    ensures var after := Pivot.Filter(rows, OtherEmail(pr.email)) + [pr];
      FindReset(after, oldToken, pr.email).None? && FindReset(after, pr.token, pr.email) == Some(pr)
  {
    var kept := Pivot.Filter(rows, OtherEmail(pr.email));
    Pivot.FilterSelects(rows, OtherEmail(pr.email));
    FindAfter(kept, pr);
  }

  lemma {:induction false} FindAfter(kept: seq<PasswordReset>, pr: PasswordReset)
    requires forall i :: 0 <= i < |kept| ==> kept[i].email != pr.email
    ensures forall t :: t != pr.token ==> FindReset(kept + [pr], t, pr.email).None?
    ensures FindReset(kept + [pr], pr.token, pr.email) == Some(pr)
  {
    if kept != [] {
      FindAfter(kept[1..], pr);
      assert (kept + [pr])[1..] == kept[1..] + [pr];
    }
  }

  /** A deleted token is never found again, for any address. */
  lemma DeletedTokenGone(rows: seq<PasswordReset>, token: string, email: string)
    ensures FindReset(Pivot.Filter(rows, OtherToken(token)), token, email).None?
  {
  }
}
