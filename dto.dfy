/**
 * The JSON payloads the gateway stores in the key-value store: the login response kept
 * for an SSO session, the authorization-code record, and the cached user profile.
 * Each has a writer (json.Marshal) and a reader (json.Unmarshal into a fresh value),
 * and each reader gives back what the writer wrote.
 */
module Dto {
  import opened Base
  import opened Json
  import opened Domain

  // ---------------------------------------------------------------------------
  // Login response (the SSO session payload and the OAuth token response)

  datatype LoginInfo = LoginInfo(
    id: string,
    name: string,
    email: string,
    isChangePassword: bool,
    roles: seq<string>,
    permissions: seq<string>)

  datatype LoginResponse = LoginResponse(token: string, user: LoginInfo)

  const ZeroLoginInfo := LoginInfo("", "", "", false, [], [])
  const ZeroLoginResponse := LoginResponse("", ZeroLoginInfo)

  function LoginInfoJson(x: LoginInfo): Json {
    Obj([Field("id", Str(x.id)), Field("name", Str(x.name)), Field("email", Str(x.email)),
         Field("is_change_password", Bool(x.isChangePassword)),
         Field("roles", FromStrings(x.roles)), Field("permissions", FromStrings(x.permissions))])
  }

  /** Unmarshal into a fresh UserLoginInfo: null leaves it zero, any other non-object is an error. */
  function LoginInfoOf(j: Json): Option<LoginInfo> {
    match j
    case Null => Some(ZeroLoginInfo)
    case Obj(fs) =>
      var m := FieldsMap(fs);
      var id, name, email := AsString(Lookup(m, "id")), AsString(Lookup(m, "name")), AsString(Lookup(m, "email"));
      var chg := AsBool(Lookup(m, "is_change_password"));
      var roles, perms := AsStrings(Lookup(m, "roles")), AsStrings(Lookup(m, "permissions"));
      if id.Some? && name.Some? && email.Some? && chg.Some? && roles.Some? && perms.Some? then
        Some(LoginInfo(id.value, name.value, email.value, chg.value, roles.value, perms.value))
      else None
    case _ => None
  }

  function LoginResponseJson(x: LoginResponse): Json {
    Obj([Field("token", Str(x.token)), Field("user", LoginInfoJson(x.user))])
  }

  function LoginResponseOf(j: Json): Option<LoginResponse> {
    match j
    case Null => Some(ZeroLoginResponse)
    case Obj(fs) =>
      var m := FieldsMap(fs);
      var token := AsString(Lookup(m, "token"));
      var user := if "user" in m then LoginInfoOf(m["user"]) else Some(ZeroLoginInfo);
      if token.Some? && user.Some? then Some(LoginResponse(token.value, user.value)) else None
    case _ => None
  }

  /** json.Marshal of the struct: an object. */
  function EncodeLoginResponse(x: LoginResponse): (s: string)
    ensures s != [] && s[0] == '{'
  {
    Serialize(LoginResponseJson(x))
  }

  /** json.Unmarshal into a fresh value: only an object or null is read, and null leaves the value zero. */
  function DecodeLoginResponse(s: string): (r: Option<LoginResponse>)
    ensures r.Some? ==> Parse(s).Some? && (Parse(s).value.Obj? || Parse(s).value.Null?)
    ensures Parse(s) == Some(Null) ==> r == Some(ZeroLoginResponse)
  {
    match Parse(s)
    case None => None
    case Some(j) => LoginResponseOf(j)
  }

  lemma LoginInfoFields(x: LoginInfo)
    ensures LoginInfoOf(LoginInfoJson(x)) == Some(x)
  {
    LoginInfoMap(x);
    StringsRoundTrip(x.roles);
    StringsRoundTrip(x.permissions);
  }

  lemma LoginInfoMap(x: LoginInfo)
    ensures FieldsMap(LoginInfoJson(x).fields)
      == map[]["id" := Str(x.id)]["name" := Str(x.name)]["email" := Str(x.email)]
              ["is_change_password" := Bool(x.isChangePassword)]
              ["roles" := FromStrings(x.roles)]["permissions" := FromStrings(x.permissions)]
  {
    var fs := LoginInfoJson(x).fields;
    assert fs == [] + [fs[0]] + [fs[1]] + [fs[2]] + [fs[3]] + [fs[4]] + [fs[5]];
    FieldsMapSnoc([], fs[0]);
    FieldsMapSnoc([] + [fs[0]], fs[1]);
    FieldsMapSnoc([] + [fs[0]] + [fs[1]], fs[2]);
    FieldsMapSnoc([] + [fs[0]] + [fs[1]] + [fs[2]], fs[3]);
    FieldsMapSnoc([] + [fs[0]] + [fs[1]] + [fs[2]] + [fs[3]], fs[4]);
    FieldsMapSnoc([] + [fs[0]] + [fs[1]] + [fs[2]] + [fs[3]] + [fs[4]], fs[5]);
  }

  lemma LoginResponseFields(x: LoginResponse)
    ensures LoginResponseOf(LoginResponseJson(x)) == Some(x)
  {
    var fs := LoginResponseJson(x).fields;
    assert fs == [] + [fs[0]] + [fs[1]];
    FieldsMapSnoc([], fs[0]);
    FieldsMapSnoc([] + [fs[0]], fs[1]);
    LoginInfoFields(x.user);
  }

  /** The stored SSO payload reads back as the login response that was written. */
  lemma LoginResponseRoundTrip(x: LoginResponse)
    ensures DecodeLoginResponse(EncodeLoginResponse(x)) == Some(x)
  {
    RoundTrip(LoginResponseJson(x));
    LoginResponseFields(x);
  }

  /**
   * A string of hexadecimal digits and dashes, such as a UUID user id, is not a login
   * response: json.Unmarshal into the struct fails on it.
   */
  lemma HexStringIsNoLoginResponse(s: string)
    requires forall i :: 0 <= i < |s| ==> IsHexOrDash(s[i])
    ensures DecodeLoginResponse(s).None?
  {
    HexDocumentIsNoObject(s);
  }

  // ---------------------------------------------------------------------------
  // Authorization-code record (StoreOauthCodeDTO; its fields have no json tags)

  datatype CodeRecord = CodeRecord(
    code: string,
    clientId: string,
    userSub: LoginResponse,
    redirectUri: string,
    expiresAt: int)

  const ZeroCodeRecord := CodeRecord("", "", ZeroLoginResponse, "", 0)

  function CodeRecordJson(x: CodeRecord): Json {
    Obj([Field("Code", Str(x.code)), Field("ClientID", Str(x.clientId)),
         Field("UserSub", LoginResponseJson(x.userSub)), Field("RedirectURI", Str(x.redirectUri)),
         Field("ExpiresAt", Num(x.expiresAt))])
  }

  function CodeRecordOf(j: Json): Option<CodeRecord> {
    match j
    case Null => Some(ZeroCodeRecord)
    case Obj(fs) =>
      var m := FieldsMap(fs);
      var code, client := AsString(Lookup(m, "Code")), AsString(Lookup(m, "ClientID"));
      var sub := if "UserSub" in m then LoginResponseOf(m["UserSub"]) else Some(ZeroLoginResponse);
      var uri, exp := AsString(Lookup(m, "RedirectURI")), AsInt(Lookup(m, "ExpiresAt"));
      if code.Some? && client.Some? && sub.Some? && uri.Some? && exp.Some? then
        Some(CodeRecord(code.value, client.value, sub.value, uri.value, exp.value))
      else None
    case _ => None
  }

  /** json.Marshal of the struct: an object. */
  function EncodeCodeRecord(x: CodeRecord): (s: string)
    ensures s != [] && s[0] == '{'
  {
    Serialize(CodeRecordJson(x))
  }

  /** json.Unmarshal into a fresh value: only an object or null is read, and null leaves the value zero. */
  function DecodeCodeRecord(s: string): (r: Option<CodeRecord>)
    ensures r.Some? ==> Parse(s).Some? && (Parse(s).value.Obj? || Parse(s).value.Null?)
    ensures Parse(s) == Some(Null) ==> r == Some(ZeroCodeRecord)
  {
    match Parse(s)
    case None => None
    case Some(j) => CodeRecordOf(j)
  }

  /** The stored code record reads back as the record that was written. */
  lemma CodeRecordFieldsMap(x: CodeRecord)
    ensures FieldsMap(CodeRecordJson(x).fields) == map[
      "Code" := Str(x.code), "ClientID" := Str(x.clientId), "UserSub" := LoginResponseJson(x.userSub),
      "RedirectURI" := Str(x.redirectUri), "ExpiresAt" := Num(x.expiresAt)]
  {
    var fs := CodeRecordJson(x).fields;
    assert fs == [] + [fs[0]] + [fs[1]] + [fs[2]] + [fs[3]] + [fs[4]];
    FieldsMapSnoc([], fs[0]);
    FieldsMapSnoc([] + [fs[0]], fs[1]);
    FieldsMapSnoc([] + [fs[0]] + [fs[1]], fs[2]);
    FieldsMapSnoc([] + [fs[0]] + [fs[1]] + [fs[2]], fs[3]);
    FieldsMapSnoc([] + [fs[0]] + [fs[1]] + [fs[2]] + [fs[3]], fs[4]);
  }

  lemma CodeRecordFields(x: CodeRecord)
    ensures CodeRecordOf(CodeRecordJson(x)) == Some(x)
  {
    var m := FieldsMap(CodeRecordJson(x).fields);
    assert "UserSub" in m && m["UserSub"] == LoginResponseJson(x.userSub)
      && AsString(Lookup(m, "Code")) == Some(x.code) && AsString(Lookup(m, "ClientID")) == Some(x.clientId)
      && AsString(Lookup(m, "RedirectURI")) == Some(x.redirectUri) && AsInt(Lookup(m, "ExpiresAt")) == Some(x.expiresAt)
    by {
      CodeRecordFieldsMap(x);
    }
    assert LoginResponseOf(m["UserSub"]) == Some(x.userSub) by {
      LoginResponseFields(x.userSub);
    }
    CodeRecordOfFieldsOk(CodeRecordJson(x).fields, x);
  }

  lemma CodeRecordOfFieldsOk(fs: seq<Field>, x: CodeRecord)
    requires var m := FieldsMap(fs);
      "UserSub" in m && LoginResponseOf(m["UserSub"]) == Some(x.userSub)
      && AsString(Lookup(m, "Code")) == Some(x.code) && AsString(Lookup(m, "ClientID")) == Some(x.clientId)
      && AsString(Lookup(m, "RedirectURI")) == Some(x.redirectUri) && AsInt(Lookup(m, "ExpiresAt")) == Some(x.expiresAt)
    ensures CodeRecordOf(Obj(fs)) == Some(x)
  {
  }

  lemma CodeRecordRoundTrip(x: CodeRecord)
    ensures DecodeCodeRecord(EncodeCodeRecord(x)) == Some(x)
  {
    CodeRecordFields(x);
    RoundTrip(CodeRecordJson(x));
  }

  // ---------------------------------------------------------------------------
  // Cached user profile (the part of UserDetailInfoDTO this model keeps)

  datatype EmployeeDetail = EmployeeDetail(id: string, nip: string, position: string)

  datatype StudentDetail = StudentDetail(id: string, nim: string, semesters: seq<StudentSemester>)

  datatype Profile = Profile(
    id: string,
    name: string,
    email: string,
    emailVerifiedAt: Option<int>,
    status: string,
    isChangePassword: bool,
    roles: seq<string>,
    permissions: seq<string>,
    employee: EmployeeDetail,
    student: StudentDetail)

  const ZeroEmployeeDetail := EmployeeDetail("", "", "")
  const ZeroStudentDetail := StudentDetail("", "", [])
  const ZeroProfile := Profile("", "", "", None, "", false, [], [], ZeroEmployeeDetail, ZeroStudentDetail)

  function EmployeeDetailJson(x: EmployeeDetail): Json {
    Obj([Field("id", Str(x.id)), Field("nip", Str(x.nip)), Field("position", Str(x.position))])
  }

  function EmployeeDetailOf(j: Json): Option<EmployeeDetail> {
    match j
    case Null => Some(ZeroEmployeeDetail)
    case Obj(fs) =>
      var m := FieldsMap(fs);
      var id, nip, pos := AsString(Lookup(m, "id")), AsString(Lookup(m, "nip")), AsString(Lookup(m, "position"));
      if id.Some? && nip.Some? && pos.Some? then Some(EmployeeDetail(id.value, nip.value, pos.value)) else None
    case _ => None
  }

  function SemesterJson(x: StudentSemester): Json {
    Obj([Field("id", Str(x.id)), Field("semester_id", Str(x.semesterId)), Field("student_id", Str(x.studentId)),
         Field("class", Str(x.className)), Field("is_active", Bool(x.isActive))])
  }

  function SemesterOf(j: Json): Option<StudentSemester> {
    match j
    case Null => Some(StudentSemester("", "", "", "", false))
    case Obj(fs) =>
      var m := FieldsMap(fs);
      var id, sem, stu := AsString(Lookup(m, "id")), AsString(Lookup(m, "semester_id")), AsString(Lookup(m, "student_id"));
      var cls, act := AsString(Lookup(m, "class")), AsBool(Lookup(m, "is_active"));
      if id.Some? && sem.Some? && stu.Some? && cls.Some? && act.Some? then
        Some(StudentSemester(id.value, sem.value, stu.value, cls.value, act.value))
      else None
    case _ => None
  }

  function SemestersJson(xs: seq<StudentSemester>): (j: Json)
    ensures j.Arr? && |j.items| == |xs|
  {
    Arr(seq(|xs|, i requires 0 <= i < |xs| => SemesterJson(xs[i])))
  }

  function SemesterItems(items: seq<Json>): (r: Option<seq<StudentSemester>>)
    decreases |items|
  {
    if items == [] then Some([])
    else
      match (SemesterOf(items[0]), SemesterItems(items[1..]))
      case (Some(x), Some(xs)) => Some([x] + xs)
      case _ => None
  }

  function SemestersOf(o: Option<Json>): Option<seq<StudentSemester>> {
    match o
    case None => Some([])
    case Some(Null) => Some([])
    case Some(Arr(items)) => SemesterItems(items)
    case _ => None
  }

  function StudentDetailJson(x: StudentDetail): Json {
    Obj([Field("id", Str(x.id)), Field("nim", Str(x.nim)), Field("student_semesters", SemestersJson(x.semesters))])
  }

  function StudentDetailOf(j: Json): Option<StudentDetail> {
    match j
    case Null => Some(ZeroStudentDetail)
    case Obj(fs) =>
      var m := FieldsMap(fs);
      var id, nim, sems := AsString(Lookup(m, "id")), AsString(Lookup(m, "nim")), SemestersOf(Lookup(m, "student_semesters"));
      if id.Some? && nim.Some? && sems.Some? then Some(StudentDetail(id.value, nim.value, sems.value)) else None
    case _ => None
  }

  function ProfileJson(x: Profile): Json {
    Obj([Field("id", Str(x.id)), Field("name", Str(x.name)), Field("email", Str(x.email)),
         Field("email_verified_at", FromOptInt(x.emailVerifiedAt)), Field("status", Str(x.status)),
         Field("is_change_password", Bool(x.isChangePassword)),
         Field("roles", FromStrings(x.roles)), Field("permissions", FromStrings(x.permissions)),
         Field("employee_detail", EmployeeDetailJson(x.employee)),
         Field("student_detail", StudentDetailJson(x.student))])
  }

  function ProfileOf(j: Json): Option<Profile> {
    match j
    case Null => Some(ZeroProfile)
    case Obj(fs) => ProfileOfFields(FieldsMap(fs))
    case _ => None
  }

  function ProfileOfFields(m: map<string, Json>): Option<Profile> {
    var id, name, email := AsString(Lookup(m, "id")), AsString(Lookup(m, "name")), AsString(Lookup(m, "email"));
    var verified, status := AsOptInt(Lookup(m, "email_verified_at")), AsString(Lookup(m, "status"));
    var chg := AsBool(Lookup(m, "is_change_password"));
    var roles, perms := AsStrings(Lookup(m, "roles")), AsStrings(Lookup(m, "permissions"));
    var emp := if "employee_detail" in m then EmployeeDetailOf(m["employee_detail"]) else Some(ZeroEmployeeDetail);
    var stu := if "student_detail" in m then StudentDetailOf(m["student_detail"]) else Some(ZeroStudentDetail);
    if id.Some? && name.Some? && email.Some? && verified.Some? && status.Some? && chg.Some?
       && roles.Some? && perms.Some? && emp.Some? && stu.Some? then
      Some(Profile(id.value, name.value, email.value, verified.value, status.value, chg.value,
                   roles.value, perms.value, emp.value, stu.value))
    else None
  }

  /** json.Marshal of the struct: an object. */
  function EncodeProfile(x: Profile): (s: string)
    ensures s != [] && s[0] == '{'
  {
    Serialize(ProfileJson(x))
  }

  /** json.Unmarshal into a fresh value: only an object or null is read, and null leaves the value zero. */
  function DecodeProfile(s: string): (r: Option<Profile>)
    ensures r.Some? ==> Parse(s).Some? && (Parse(s).value.Obj? || Parse(s).value.Null?)
    ensures Parse(s) == Some(Null) ==> r == Some(ZeroProfile)
  {
    match Parse(s)
    case None => None
    case Some(j) => ProfileOf(j)
  }

  lemma EmployeeDetailFields(x: EmployeeDetail)
    ensures EmployeeDetailOf(EmployeeDetailJson(x)) == Some(x)
  {
    var fs := EmployeeDetailJson(x).fields;
    assert fs == [] + [fs[0]] + [fs[1]] + [fs[2]];
    FieldsMapSnoc([], fs[0]);
    FieldsMapSnoc([] + [fs[0]], fs[1]);
    FieldsMapSnoc([] + [fs[0]] + [fs[1]], fs[2]);
  }

  lemma SemesterFields(x: StudentSemester)
    ensures SemesterOf(SemesterJson(x)) == Some(x)
  {
    SemesterMap(x);
  }

  lemma SemesterMap(x: StudentSemester)
    ensures FieldsMap(SemesterJson(x).fields)
      == map[]["id" := Str(x.id)]["semester_id" := Str(x.semesterId)]["student_id" := Str(x.studentId)]
              ["class" := Str(x.className)]["is_active" := Bool(x.isActive)]
  {
    var fs := SemesterJson(x).fields;
    assert fs == [] + [fs[0]] + [fs[1]] + [fs[2]] + [fs[3]] + [fs[4]];
    FieldsMapSnoc([], fs[0]);
    FieldsMapSnoc([] + [fs[0]], fs[1]);
    FieldsMapSnoc([] + [fs[0]] + [fs[1]], fs[2]);
    FieldsMapSnoc([] + [fs[0]] + [fs[1]] + [fs[2]], fs[3]);
    FieldsMapSnoc([] + [fs[0]] + [fs[1]] + [fs[2]] + [fs[3]], fs[4]);
  }

  lemma {:induction false} SemestersRoundTrip(xs: seq<StudentSemester>)
    ensures SemestersOf(Some(SemestersJson(xs))) == Some(xs)
    decreases |xs|
  {
    var items := SemestersJson(xs).items;
    if xs != [] {
      SemesterFields(xs[0]);
      SemestersRoundTrip(xs[1..]);
      assert items[1..] == SemestersJson(xs[1..]).items;
      assert [xs[0]] + xs[1..] == xs;
    }
  }

  lemma StudentDetailFields(x: StudentDetail)
    ensures StudentDetailOf(StudentDetailJson(x)) == Some(x)
  {
    var fs := StudentDetailJson(x).fields;
    assert fs == [] + [fs[0]] + [fs[1]] + [fs[2]];
    FieldsMapSnoc([], fs[0]);
    FieldsMapSnoc([] + [fs[0]], fs[1]);
    FieldsMapSnoc([] + [fs[0]] + [fs[1]], fs[2]);
    SemestersRoundTrip(x.semesters);
  }

  lemma ProfileFieldsMap(x: Profile)
    ensures FieldsMap(ProfileJson(x).fields) == map[
      "id" := Str(x.id), "name" := Str(x.name), "email" := Str(x.email),
      "email_verified_at" := FromOptInt(x.emailVerifiedAt), "status" := Str(x.status),
      "is_change_password" := Bool(x.isChangePassword),
      "roles" := FromStrings(x.roles), "permissions" := FromStrings(x.permissions),
      "employee_detail" := EmployeeDetailJson(x.employee), "student_detail" := StudentDetailJson(x.student)]
  {
    var fs := ProfileJson(x).fields;
    assert fs == [] + [fs[0]] + [fs[1]] + [fs[2]] + [fs[3]] + [fs[4]] + [fs[5]] + [fs[6]] + [fs[7]] + [fs[8]] + [fs[9]];
    var p0: seq<Field> := [];
    var p1 := p0 + [fs[0]];
    var p2 := p1 + [fs[1]];
    var p3 := p2 + [fs[2]];
    var p4 := p3 + [fs[3]];
    var p5 := p4 + [fs[4]];
    var p6 := p5 + [fs[5]];
    var p7 := p6 + [fs[6]];
    var p8 := p7 + [fs[7]];
    var p9 := p8 + [fs[8]];
    FieldsMapSnoc(p0, fs[0]);
    FieldsMapSnoc(p1, fs[1]);
    FieldsMapSnoc(p2, fs[2]);
    FieldsMapSnoc(p3, fs[3]);
    FieldsMapSnoc(p4, fs[4]);
    FieldsMapSnoc(p5, fs[5]);
    FieldsMapSnoc(p6, fs[6]);
    FieldsMapSnoc(p7, fs[7]);
    FieldsMapSnoc(p8, fs[8]);
    FieldsMapSnoc(p9, fs[9]);
    assert fs == p9 + [fs[9]];
  }

  /** The cached profile reads back as the profile that was written. */
  lemma ProfileOfFieldsOk(m: map<string, Json>, x: Profile)
    requires Lookup(m, "id") == Some(Str(x.id)) && Lookup(m, "name") == Some(Str(x.name))
    requires Lookup(m, "email") == Some(Str(x.email)) && Lookup(m, "status") == Some(Str(x.status))
    requires Lookup(m, "email_verified_at") == Some(FromOptInt(x.emailVerifiedAt))
    requires Lookup(m, "is_change_password") == Some(Bool(x.isChangePassword))
    requires Lookup(m, "roles") == Some(FromStrings(x.roles))
    requires Lookup(m, "permissions") == Some(FromStrings(x.permissions))
    requires "employee_detail" in m && m["employee_detail"] == EmployeeDetailJson(x.employee)
    requires "student_detail" in m && m["student_detail"] == StudentDetailJson(x.student)
    ensures ProfileOfFields(m) == Some(x)
  {
    assert AsStrings(Lookup(m, "roles")) == Some(x.roles) by {
      StringsRoundTrip(x.roles);
    }
    assert AsStrings(Lookup(m, "permissions")) == Some(x.permissions) by {
      StringsRoundTrip(x.permissions);
    }
    assert EmployeeDetailOf(m["employee_detail"]) == Some(x.employee) by {
      EmployeeDetailFields(x.employee);
    }
    assert StudentDetailOf(m["student_detail"]) == Some(x.student) by {
      StudentDetailFields(x.student);
    }
    assert AsOptInt(Lookup(m, "email_verified_at")) == Some(x.emailVerifiedAt);
    ProfileOfDecoded(m, x);
  }

  /** ProfileOfFields once every field has decoded to the profile's own. */
  lemma ProfileOfDecoded(m: map<string, Json>, x: Profile)
    requires AsString(Lookup(m, "id")) == Some(x.id) && AsString(Lookup(m, "name")) == Some(x.name)
    requires AsString(Lookup(m, "email")) == Some(x.email) && AsString(Lookup(m, "status")) == Some(x.status)
    requires AsOptInt(Lookup(m, "email_verified_at")) == Some(x.emailVerifiedAt)
    requires AsBool(Lookup(m, "is_change_password")) == Some(x.isChangePassword)
    requires AsStrings(Lookup(m, "roles")) == Some(x.roles)
    requires AsStrings(Lookup(m, "permissions")) == Some(x.permissions)
    requires "employee_detail" in m && EmployeeDetailOf(m["employee_detail"]) == Some(x.employee)
    requires "student_detail" in m && StudentDetailOf(m["student_detail"]) == Some(x.student)
    ensures ProfileOfFields(m) == Some(x)
  {
  }

  lemma ProfileFields(x: Profile)
    ensures ProfileOf(ProfileJson(x)) == Some(x)
  {
    ProfileFieldsMap(x);
    ProfileOfFieldsOk(FieldsMap(ProfileJson(x).fields), x);
  }

  lemma ProfileRoundTrip(x: Profile)
    ensures DecodeProfile(EncodeProfile(x)) == Some(x)
  {
    ProfileFields(x);
    RoundTrip(ProfileJson(x));
  }
}
