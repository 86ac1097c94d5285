/**
 * The authentication use cases: password and Google login, logout by blacklisting the token,
 * e-mail verification, password reset, and the cached profile of the signed-in user.
 * The stores are the users table, the reset-token table, the key-value store and an outbox
 * standing for the e-mail service. Every dependency that can fail takes the error it returns
 * as a parameter (None: it succeeded).
 */
module AuthUseCase {
  import opened Base
  import opened Domain
  import Strs
  import Dto
  import Jwt
  import Kv
  import Global
  import UR = UserRepository
  import PR = PasswordResetRepository
  import Pivot

  // ---------------------------------------------------------------------------
  // Outbox

  datatype MailBody =
    | ResetPasswordLink(name: string, link: string, logoUrl: string)
    | VerifyEmailLink(link: string)

  datatype Mail = Mail(to: string, subject: string, body: MailBody)

  /** The e-mail service: what it has accepted, in order. */
  class Mailer {
    var sent: seq<Mail>

    constructor()
      ensures sent == []
    {
      sent := [];
    }

    method Send(m: Mail, err: Option<string>) returns (r: Option<string>)
      modifies this
      ensures r == err
      ensures sent == if err.Some? then old(sent) else old(sent) + [m]
    {
      r := err;
      if err.None? {
        sent := sent + [m];
      }
    }
  }

  // ---------------------------------------------------------------------------
  // Constants

  const VerifyTtl := 900
  const ResetLifetime := 3600
  const ProfileTtl := 600
  const VerifyLinkBase := "http://your-backend-app.com/api/v1/auth/email/verify/"

  function VerifyKey(token: string): string {
    "verify_email:" + token
  }

  function CacheKey(userId: string): string {
    "user_info:" + userId
  }

  // ---------------------------------------------------------------------------
  // Roles and permissions of a user

  function RoleNames(roles: seq<Role>): (names: seq<string>)
    ensures |names| == |roles| && forall i :: 0 <= i < |roles| ==> names[i] == roles[i].name
  {
    seq(|roles|, i requires 0 <= i < |roles| => roles[i].name)
  }

  function NamesOf(perms: seq<Permission>): set<string> {
    set j | 0 <= j < |perms| :: perms[j].name
  }

  /** The names of every permission of every role. */
  function PermissionSet(roles: seq<Role>): set<string>
    decreases |roles|
  {
    if roles == [] then {} else PermissionSet(roles[..|roles| - 1]) + NamesOf(roles[|roles| - 1].permissions)
  }

  predicate NoDuplicates(xs: seq<string>) {
    forall i, j :: 0 <= i < j < |xs| ==> xs[i] != xs[j]
  }

  /** A permission any role of the user carries is in the user's permission set. */
  lemma {:induction false} RolePermissionGranted(roles: seq<Role>, i: nat, j: nat)
    requires i < |roles| && j < |roles[i].permissions|
    ensures roles[i].permissions[j].name in PermissionSet(roles)
    decreases |roles|
  {
    if i < |roles| - 1 {
      RolePermissionGranted(roles[..|roles| - 1], i, j);
    }
  }

  /** Every name in the permission set comes from some role. */
  lemma {:induction false} PermissionFromSomeRole(roles: seq<Role>, p: string)
    requires p in PermissionSet(roles)
    ensures exists i, j :: 0 <= i < |roles| && 0 <= j < |roles[i].permissions| && roles[i].permissions[j].name == p
    decreases |roles|
  {
    var last := |roles| - 1;
    if p !in NamesOf(roles[last].permissions) {
      PermissionFromSomeRole(roles[..last], p);
      var i, j :| 0 <= i < last && 0 <= j < |roles[..last][i].permissions| && roles[..last][i].permissions[j].name == p;
      assert roles[i] == roles[..last][i];
    } else {
      var j :| 0 <= j < |roles[last].permissions| && roles[last].permissions[j].name == p;
    }
  }

  /**
   * The loops of Login, LoginWithGoogle and Me: the role names in order, and the permission
   * names collected in a map and read back in the map's (unspecified) iteration order.
   */
  method AggregateRoles(roles: seq<Role>) returns (roleNames: seq<string>, permissionNames: seq<string>)
    ensures roleNames == RoleNames(roles)
    ensures forall p :: p in permissionNames <==> p in PermissionSet(roles)
    ensures NoDuplicates(permissionNames)
  {
    roleNames := [];
    var permissionSet: set<string> := {};
    var i := 0;
    while i < |roles|
      invariant 0 <= i <= |roles|
      invariant roleNames == RoleNames(roles[..i])
      invariant permissionSet == PermissionSet(roles[..i])
    {
      roleNames := roleNames + [roles[i].name];
      var perms := roles[i].permissions;
      var j := 0;
      while j < |perms|
        invariant 0 <= j <= |perms|
        invariant permissionSet == PermissionSet(roles[..i]) + NamesOf(perms[..j])
      {
        permissionSet := permissionSet + {perms[j].name};
        assert NamesOf(perms[..j + 1]) == NamesOf(perms[..j]) + {perms[j].name} by {
          assert perms[..j + 1][j] == perms[j];
          forall q | q in NamesOf(perms[..j + 1]) ensures q in NamesOf(perms[..j]) + {perms[j].name} {
            var k :| 0 <= k <= j && perms[..j + 1][k].name == q;
            if k < j { assert perms[..j][k] == perms[..j + 1][k]; }
          }
          forall q | q in NamesOf(perms[..j]) ensures q in NamesOf(perms[..j + 1]) {
            var k :| 0 <= k < j && perms[..j][k].name == q;
            assert perms[..j + 1][k] == perms[..j][k];
          }
        }
        j := j + 1;
      }
      assert perms[..j] == perms;
      assert roles[..i + 1][..i] == roles[..i];
      i := i + 1;
    }
    assert roles[..i] == roles;
    permissionNames := [];
    var rest := permissionSet;
    while rest != {}
      invariant rest <= permissionSet
      invariant forall p :: p in permissionNames <==> p in permissionSet && p !in rest
      invariant NoDuplicates(permissionNames)
      decreases |rest|
    {
      var p :| p in rest;
      permissionNames := permissionNames + [p];
      rest := rest - {p};
    }
  }

  // ---------------------------------------------------------------------------
  // Profile

  /**
   * The profile Me builds: a student (a user with the role "student") gets the student
   * record found for it, or an empty one, and an empty employee record; anyone else gets
   * the employee record found, or an empty one, and an empty student record.
   */
  function BuildProfile(u: User, roleNames: seq<string>, permissionNames: seq<string>,
                        student: Option<Student>, employee: Option<Employee>): (p: Dto.Profile)
    ensures p.id == u.id && p.email == u.email && p.roles == roleNames && p.permissions == permissionNames
    ensures "student" in roleNames ==> p.employee == Dto.ZeroEmployeeDetail
    ensures "student" !in roleNames ==> p.student == Dto.ZeroStudentDetail
  {
    var emp := if "student" in roleNames then Dto.ZeroEmployeeDetail
               else match employee
                 case Some(e) => Dto.EmployeeDetail(e.id, e.nip, e.position)
                 case None => Dto.ZeroEmployeeDetail;
    var stu := if "student" !in roleNames then Dto.ZeroStudentDetail
               else match student
                 case Some(s) => Dto.StudentDetail(s.id, s.nim, s.semesters)
                 case None => Dto.ZeroStudentDetail;
    Dto.Profile(u.id, u.name, u.email, u.emailVerifiedAt, u.status, u.isChangePassword,
                roleNames, permissionNames, emp, stu)
  }

  /** The cache entry Me serves without reading the database: a non-empty string that decodes. */
  function CachedProfile(db: Kv.Db, userId: string, now: int, getFault: bool): (p: Option<Dto.Profile>)
    ensures p.Some? ==> !getFault
  {
    if getFault then None
    else match Kv.GetSpec(db, CacheKey(userId), now)
      case Hit(s) => if s != "" then Dto.DecodeProfile(s) else None
      case _ => None
  }

  /** A profile Me stored is served from the cache until it lapses. */
  lemma CacheServesStoredProfile(db: Kv.Db, p: Dto.Profile, userId: string, now: int, later: int)
    requires now <= later < now + ProfileTtl
    ensures CachedProfile(Kv.SetSpec(db, CacheKey(userId), Dto.EncodeProfile(p), ProfileTtl, now), userId, later, false) == Some(p)
  {
    Kv.SetThenGet(db, CacheKey(userId), Dto.EncodeProfile(p), ProfileTtl, now, later);
    Dto.ProfileRoundTrip(p);
    assert Dto.EncodeProfile(p)[0] == '{';
  }

  // ---------------------------------------------------------------------------
  // The use cases

  class AuthUseCase {
    const users: UR.Users
    const resets: PR.PasswordResets
    const kv: Kv.Store
    const mailer: Mailer
    /** The HMAC the JWT service signs with, its key, and the token lifetime in hours. */
    const mac: Jwt.Mac
    const jwtKey: string
    const jwtHours: int
    /** bcrypt.CompareHashAndPassword(hash, password) == nil. */
    const checkPassword: (string, string) -> bool
    const frontendUrl: string
    const storageEndpoint: string
    const bucket: string

    constructor(users: UR.Users, resets: PR.PasswordResets, kv: Kv.Store, mailer: Mailer,
                mac: Jwt.Mac, jwtKey: string, jwtHours: int, checkPassword: (string, string) -> bool,
                frontendUrl: string, storageEndpoint: string, bucket: string)
      ensures this.users == users && this.resets == resets && this.kv == kv && this.mailer == mailer
      ensures this.mac == mac && this.jwtKey == jwtKey && this.jwtHours == jwtHours && this.checkPassword == checkPassword
      ensures this.frontendUrl == frontendUrl && this.storageEndpoint == storageEndpoint && this.bucket == bucket
    {
      this.users := users;
      this.resets := resets;
      this.kv := kv;
      this.mailer := mailer;
      this.mac := mac;
      this.jwtKey := jwtKey;
      this.jwtHours := jwtHours;
      this.checkPassword := checkPassword;
      this.frontendUrl := frontendUrl;
      this.storageEndpoint := storageEndpoint;
      this.bucket := bucket;
    }

    /** A login response for `u` at `now`: the user's fields, role names, permissions, and a token over them. */
    ghost predicate IssuedFor(r: Dto.LoginResponse, u: User, now: int) {
      r.user.id == u.id && r.user.name == u.name && r.user.email == u.email
      && r.user.isChangePassword == u.isChangePassword
      && r.user.roles == RoleNames(u.roles)
      && (forall p :: p in r.user.permissions <==> p in PermissionSet(u.roles))
      && NoDuplicates(r.user.permissions)
      && r.token == Jwt.GenerateToken(mac, jwtKey, jwtHours, now, u.id, r.user.roles, r.user.permissions)
    }

    /** The response both logins build once the user is accepted. */
    method Issue(u: User, now: int) returns (r: Dto.LoginResponse)
      ensures IssuedFor(r, u, now)
    {
      var roleNames, permissionNames := AggregateRoles(u.roles);
      var token := Jwt.GenerateToken(mac, jwtKey, jwtHours, now, u.id, roleNames, permissionNames);
      r := Dto.LoginResponse(token, Dto.LoginInfo(u.id, u.name, u.email, u.isChangePassword, roleNames, permissionNames));
    }

    /**
     * Login: an unknown address and a wrong password give the same error; an unverified
     * address is refused after a new verification link is requested (the source does this
     * on a goroutine; here it happens before the refusal, with its own failures ignored).
     */
    method Login(email: string, password: string, now: int, random: Result<seq<byte>>,
                 storeErr: Option<string>, mailErr: Option<string>) returns (r: Result<Dto.LoginResponse>)
      requires random.Ok? ==> |random.value| == 32
      modifies kv, mailer
      ensures users.rows == old(users.rows)
      ensures var u := UR.ByEmail(users.rows, email);
        if u.None? || !checkPassword(u.value.password, password) then
          r == Err(WrongCredentials) && kv.data == old(kv.data) && mailer.sent == old(mailer.sent)
        else if u.value.emailVerifiedAt.None? then
          r == Err(UnverifiedEmail)
          && VerificationRequested(u.value, now, random, storeErr, mailErr, old(kv.data), old(mailer.sent), kv.data, mailer.sent)
        else r.Ok? && IssuedFor(r.value, u.value, now) && kv.data == old(kv.data) && mailer.sent == old(mailer.sent)
    {
      var u := users.FindByEmail(email);
      if u.None? || !checkPassword(u.value.password, password) {
        return Err(WrongCredentials);
      }
      if u.value.emailVerifiedAt.None? {
        var _ := ResendVerificationEmail(u.value.email, now, random, storeErr, mailErr);
        return Err(UnverifiedEmail);
      }
      var resp := Issue(u.value, now);
      r := Ok(resp);
    }

    /** LoginWithGoogle: any registered address is signed in; neither password nor verification is checked. */
    method LoginWithGoogle(email: string, now: int) returns (r: Result<Dto.LoginResponse>)
      ensures var u := UR.ByEmail(users.rows, email);
        (u.None? ==> r == Err("email not registered"))
        && (u.Some? ==> r.Ok? && IssuedFor(r.value, u.value, now))
    {
      var u := users.FindByEmail(email);
      if u.None? {
        return Err("email not registered");
      }
      var resp := Issue(u.value, now);
      r := Ok(resp);
    }

    /**
     * Logout: a token that does not validate is ignored; a valid one is blacklisted under
     * its own text until it expires.
     */
    method Logout(token: string, now: int, storeFault: bool) returns (err: Option<string>)
      modifies kv
      ensures match Jwt.Validate(mac, jwtKey, token, now)
        case Valid(c) =>
          (c.expiresAt.None? ==> err.None? && kv.data == old(kv.data))
          && (c.expiresAt.Some? ==>
                (err.Some? <==> storeFault) && (err.Some? ==> err.value == "failed to blacklist token")
                && kv.data == if storeFault then old(kv.data)
                              else Kv.SetSpec(old(kv.data), token, "blacklisted", c.expiresAt.value - now, now))
        case _ => err.None? && kv.data == old(kv.data)
    {
      var v := Jwt.Validate(mac, jwtKey, token, now);
      if !v.Valid? {
        return None;
      }
      if v.claims.expiresAt.None? {
        return None;
      }
      Jwt.ValidIsCurrent(mac, jwtKey, token, now);
      var remaining := v.claims.expiresAt.value - now;
      assert remaining > 0;
      var ok := kv.Set(token, "blacklisted", remaining, now, storeFault);
      if !ok {
        return Some("failed to blacklist token");
      }
      err := None;
    }

    /**
     * ForgotPassword: an unknown address is answered with success and nothing happens;
     * otherwise a reset token of 32 random octets in hex replaces the address's earlier one
     * and the reset link is mailed.
     */
    method ForgotPassword(email: string, now: int, random: Result<seq<byte>>,
                          deleteFault: bool, insertErr: Option<string>, mailErr: Option<string>) returns (err: Option<string>)
      requires random.Ok? ==> |random.value| == 32
      modifies resets, mailer
      ensures var u := UR.ByEmail(users.rows, email);
        if u.None? then err.None? && resets.rows == old(resets.rows) && mailer.sent == old(mailer.sent)
        else if random.Err? then err == Some(random.error) && resets.rows == old(resets.rows) && mailer.sent == old(mailer.sent)
        else
          var token := Strs.Hex(random.value);
          var pr := PasswordReset(u.value.email, token, now);
          var afterDelete := if deleteFault then old(resets.rows) else Pivot.Filter(old(resets.rows), PR.OtherEmail(u.value.email));
          var stored := insertErr.None? && !(deleteFault && exists i :: 0 <= i < |old(resets.rows)| && old(resets.rows)[i].email == u.value.email);
          (stored ==> resets.rows == afterDelete + [pr]
                      && mailer.sent == old(mailer.sent) + (if mailErr.None? then [ResetMail(u.value, token)] else [])
                      && err == mailErr)
          && (!stored ==> mailer.sent == old(mailer.sent)
                          && resets.rows == (if insertErr.Some? then afterDelete else old(resets.rows))
                          && err == Some(if insertErr.Some? then insertErr.value else PR.DuplicateKey))
    {
      var u := users.FindByEmail(email);
      if u.None? {
        return None;
      }
      if random.Err? {
        return Some(random.error);
      }
      var token := Strs.Hex(random.value);
      var created := resets.Create(PasswordReset(u.value.email, token, now), deleteFault, insertErr);
      if created.Err? {
        return Some(created.error);
      }
      err := mailer.Send(ResetMail(u.value, token), mailErr);
    }

    /** The reset mail: the frontend's reset page with the token, and the default avatar as logo. */
    function ResetMail(u: User, token: string): Mail {
      Mail(u.email, "Reset Your Password",
           ResetPasswordLink(u.name, frontendUrl + "/reset-password?token=" + token,
                             Global.GetUrlFile(storageEndpoint, bucket, Global.EmployeePath, Global.DefaultAvatar)))
    }

    /**
     * ResetPassword: the token must belong to the address and be at most an hour old (an
     * older one is deleted); then the new password's hash is stored, the user is marked as
     * having changed it, and the token is deleted. `hash` is bcrypt with this call's salt.
     */
    method ResetPassword(email: string, token: string, password: string, now: int, hash: string -> Result<string>,
                         updateErr: Option<string>, deleteErr: Option<string>) returns (err: Option<string>)
      requires users.Valid()
      modifies users, resets
      ensures users.Valid() && users.pivots == old(users.pivots)
      ensures var pr := PR.FindReset(old(resets.rows), token, email);
        var u := UR.ByEmail(old(users.rows), email);
        var dropped := if deleteErr.Some? then old(resets.rows) else Pivot.Filter(old(resets.rows), PR.OtherToken(token));
        if pr.None? then err == Some("invalid or expired token") && unchanged(users, resets)
        else if now - pr.value.createdAt > ResetLifetime then
          err == Some("invalid or expired token") && users.rows == old(users.rows) && resets.rows == dropped
        else if u.None? then err == Some("user not found") && unchanged(users, resets)
        else if hash(password).Err? then err == Some(hash(password).error) && unchanged(users, resets)
        else
          var changed := u.value.(password := hash(password).value, isChangePassword := true);
          var i := UR.IndexOfId(old(users.rows), u.value.id);
          if updateErr.Some? then err == updateErr && users.rows == old(users.rows) && resets.rows == old(resets.rows)
          else err.None? && resets.rows == dropped && i < |old(users.rows)| && users.rows == old(users.rows)[i := changed]
    {
      var pr := resets.FindByTokenAndEmail(token, email);
      if pr.None? {
        return Some("invalid or expired token");
      }
      if now - pr.value.createdAt > ResetLifetime {
        var _ := resets.Delete(token, deleteErr);
        return Some("invalid or expired token");
      }
      var u := users.FindByEmail(email);
      if u.None? {
        return Some("user not found");
      }
      var hashed := hash(password);
      if hashed.Err? {
        return Some(hashed.error);
      }
      var changed := u.value.(password := hashed.value, isChangePassword := true);
      UR.ByEmailSole(users.rows, email);
      var updated := users.Update(changed.id, changed, updateErr);
      if updated.Err? {
        return Some(updated.error);
      }
      var _ := resets.Delete(token, deleteErr);
      err := None;
    }

    /**
     * VerifyEmail: the token must be a live "verify_email:" key; the address it holds is
     * marked verified now and the key is deleted (a failed delete is ignored).
     */
    method VerifyEmail(token: string, now: int, getFault: bool, updateErr: Option<string>, delFault: bool)
      returns (err: Option<string>)
      requires users.Valid()
      modifies users, kv
      ensures users.Valid() && users.pivots == old(users.pivots)
      ensures var g := if getFault then Kv.Failed else Kv.GetSpec(old(kv.data), VerifyKey(token), now);
        if !g.Hit? then err == Some("invalid or expired token") && unchanged(users, kv)
        else
          var u := UR.ByEmail(old(users.rows), g.s);
          if u.None? then err == Some("record not found") && unchanged(users, kv)
          else if updateErr.Some? then err == updateErr && users.rows == old(users.rows) && kv.data == old(kv.data)
          else
            var i := UR.IndexOfId(old(users.rows), u.value.id);
            err.None? && i < |old(users.rows)| && users.rows == old(users.rows)[i := u.value.(emailVerifiedAt := Some(now))]
            && kv.data == if delFault then old(kv.data) else Kv.DelSpec(old(kv.data), VerifyKey(token), now).0
    {
      var g := kv.Get(VerifyKey(token), now, getFault);
      if !g.Hit? {
        return Some("invalid or expired token");
      }
      var u := users.FindByEmail(g.s);
      if u.None? {
        return Some("record not found");
      }
      var verified := u.value.(emailVerifiedAt := Some(now));
      UR.ByEmailSole(users.rows, g.s);
      var updated := users.Update(verified.id, verified, updateErr);
      if updated.Err? {
        return Some(updated.error);
      }
      var _ := kv.Del(VerifyKey(token), now, delFault);
      err := None;
    }

    /**
     * ResendVerificationEmail: for a known, unverified address, a token of 32 random octets
     * in hex is stored under "verify_email:<token>" for fifteen minutes and the link is mailed.
     */
    method ResendVerificationEmail(email: string, now: int, random: Result<seq<byte>>,
                                   storeErr: Option<string>, mailErr: Option<string>) returns (err: Option<string>)
      requires random.Ok? ==> |random.value| == 32
      modifies kv, mailer
      ensures var u := UR.ByEmail(users.rows, email);
        (u.None? ==> err == Some("user not found") && unchanged(kv, mailer))
        && (u.Some? && u.value.emailVerifiedAt.Some? ==> err == Some("email already verified") && unchanged(kv, mailer))
        && (u.Some? && u.value.emailVerifiedAt.None? ==>
              VerificationRequested(u.value, now, random, storeErr, mailErr, old(kv.data), old(mailer.sent), kv.data, mailer.sent)
              && err == (if random.Err? then Some(random.error) else if storeErr.Some? then storeErr else mailErr))
    {
      var u := users.FindByEmail(email);
      if u.None? {
        return Some("user not found");
      }
      if u.value.emailVerifiedAt.Some? {
        return Some("email already verified");
      }
      if random.Err? {
        return Some(random.error);
      }
      var token := Strs.Hex(random.value);
      var ok := kv.Set(VerifyKey(token), u.value.email, VerifyTtl, now, storeErr.Some?);
      if !ok {
        return storeErr;
      }
      err := mailer.Send(VerifyMail(u.value.email, token), mailErr);
    }

    /**
     * Me: the cached profile when there is one; otherwise the profile built from the user's
     * row and the student or employee record found for it, which is then cached for ten
     * minutes (a failed write is ignored).
     */
    method Me(userId: string, now: int, getFault: bool, student: Option<Student>, employee: Option<Employee>,
              setFault: bool) returns (r: Result<Dto.Profile>)
      modifies kv
      ensures var cached := CachedProfile(old(kv.data), userId, now, getFault);
        var u := users.FindByID(userId);
        if cached.Some? then r == Ok(cached.value) && kv.data == old(kv.data)
        else if u.None? then r == Err("user not found") && kv.data == old(kv.data)
        else
          r.Ok? && r.value.roles == RoleNames(u.value.roles)
          && (forall p :: p in r.value.permissions <==> p in PermissionSet(u.value.roles))
          && r.value == BuildProfile(u.value, r.value.roles, r.value.permissions, student, employee)
          && kv.data == if setFault then old(kv.data)
                        else Kv.SetSpec(old(kv.data), CacheKey(userId), Dto.EncodeProfile(r.value), ProfileTtl, now)
    {
      var g := kv.Get(CacheKey(userId), now, getFault);
      if g.Hit? && g.s != "" {
        var decoded := Dto.DecodeProfile(g.s);
        if decoded.Some? {
          return Ok(decoded.value);
        }
      }
      var u := users.FindByID(userId);
      if u.None? {
        return Err("user not found");
      }
      var roleNames, permissionNames := AggregateRoles(u.value.roles);
      var p := BuildProfile(u.value, roleNames, permissionNames, student, employee);
      var _ := kv.Set(CacheKey(userId), Dto.EncodeProfile(p), ProfileTtl, now, setFault);
      r := Ok(p);
    }
  }

  function VerifyMail(email: string, token: string): Mail {
    Mail(email, "Verify Your Email Address", VerifyEmailLink(VerifyLinkBase + token))
  }

  /** Login's two refusals. */
  const WrongCredentials := "invalid email or password"
  const UnverifiedEmail := "please verify your email address, a new verification link has been sent"

  /**
   * What asking for a new verification link did to the store and the outbox: with random
   * octets, the hex token is stored for the address (unless the store failed) and then, if
   * that worked, the link is mailed (unless the mail service failed).
   */
  predicate VerificationRequested(u: User, now: int, random: Result<seq<byte>>, storeErr: Option<string>, mailErr: Option<string>,
                                  db: Kv.Db, outbox: seq<Mail>, db': Kv.Db, outbox': seq<Mail>) {
    if random.Err? then db' == db && outbox' == outbox
    else
      var token := Strs.Hex(random.value);
      if storeErr.Some? then db' == db && outbox' == outbox
      else db' == Kv.SetSpec(db, VerifyKey(token), u.email, VerifyTtl, now)
           && outbox' == outbox + (if mailErr.None? then [VerifyMail(u.email, token)] else [])
  }

  /** The link mailed for a stored token verifies that address until it lapses, and only once. */
  lemma VerificationLinkWorksOnce(db: Kv.Db, random: seq<byte>, email: string, now: int, later: int)
    requires now <= later < now + VerifyTtl
    ensures var token := Strs.Hex(random);
      var db' := Kv.SetSpec(db, VerifyKey(token), email, VerifyTtl, now);
      Kv.GetSpec(db', VerifyKey(token), later) == Kv.Hit(email)
      && Kv.GetSpec(Kv.DelSpec(db', VerifyKey(token), later).0, VerifyKey(token), later) == Kv.Miss
  {
    var token := Strs.Hex(random);
    Kv.SetThenGet(db, VerifyKey(token), email, VerifyTtl, now, later);
  }

  /** Distinct random octets give distinct verification keys, so one request cannot verify through another's link. */
  lemma VerifyKeysDistinct(a: seq<byte>, b: seq<byte>)
    requires a != b
    ensures VerifyKey(Strs.Hex(a)) != VerifyKey(Strs.Hex(b))
  {
    if VerifyKey(Strs.Hex(a)) == VerifyKey(Strs.Hex(b)) {
      assert Strs.Hex(a) == VerifyKey(Strs.Hex(a))[|"verify_email:"|..];
      assert Strs.Hex(b) == VerifyKey(Strs.Hex(b))[|"verify_email:"|..];
      Strs.HexInjective(a, b);
    }
  }

  /**
   * After a successful reset the new password passes the login check, whatever bcrypt's salt:
   * every hash it makes verifies the password it was made from.
   */
  lemma ResetPasswordThenLogin(rows: seq<User>, i: nat, u: User, hashed: string, password: string,
                               checkPassword: (string, string) -> bool)
    requires i < |rows| && rows[i].id == u.id
    requires forall j :: 0 <= j < i ==> rows[j].email != u.email
    requires checkPassword(hashed, password)
    ensures var after := rows[i := u.(password := hashed, isChangePassword := true)];
      UR.ByEmail(after, u.email).Some? && checkPassword(UR.ByEmail(after, u.email).value.password, password)
      && UR.ByEmail(after, u.email).value.isChangePassword
  {
    var after := rows[i := u.(password := hashed, isChangePassword := true)];
    UR.ByEmailAt(after, u.email, i);
  }
}
