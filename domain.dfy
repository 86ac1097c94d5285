/** The stored entities of the authentication core: users with their roles, reset tokens, OAuth clients, and pivot rows. */
module Domain {
  import opened Base

  datatype Permission = Permission(id: string, name: string)

  datatype Role = Role(id: string, name: string, permissions: seq<Permission>)

  /** A row of m_user with its roles preloaded; times are Unix seconds. */
  datatype User = User(
    id: string,
    name: string,
    email: string,
    emailVerifiedAt: Option<int>,
    password: string,
    status: string,
    isChangePassword: bool,
    roles: seq<Role>)

  /** A row of password_reset_tokens; the email is its primary key. */
  datatype PasswordReset = PasswordReset(email: string, token: string, createdAt: int)

  /** A row of m_oauth_client: the secret is a bcrypt hash, the redirect an exact URI. */
  datatype OauthClient = OauthClient(id: string, name: string, secret: string, redirect: string)

  datatype Employee = Employee(id: string, nip: string, position: string)

  datatype StudentSemester = StudentSemester(id: string, semesterId: string, studentId: string, className: string, isActive: bool)

  datatype Student = Student(id: string, nim: string, semesters: seq<StudentSemester>)

  /** A row of model_has_roles. */
  datatype ModelHasRole = ModelHasRole(roleId: string, modelUuid: string, modelType: string)

  /** A row of m_subject_semester. */
  datatype SubjectSemester = SubjectSemester(id: string, subjectId: string, semesterId: string)

  /** A row of m_subject_lecture. */
  datatype SubjectLecture = SubjectLecture(id: string, subjectSemesterId: string, employeeId: string)
}
