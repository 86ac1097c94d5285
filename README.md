# JTI Super App gateway: a verified model

This Dafny project models the sign-in core of the JTI Super App backend, a Go service built on
gin, GORM and Redis. The core covers:

- the authentication use case: password and Google sign-in, logout by token blacklisting,
  forgotten and reset passwords, e-mail verification, and the cached `Me` profile;
- the API guards: the bearer-token guard, the cookie-based SSO guard for web pages, and the
  `role:x|permission:y` requirement matcher;
- the OAuth authorization-code provider (section 4.1 of RFC 6749): authorize, token, the
  provider's login form and logout;
- the CSRF token manager (a Redis set of single-use tokens per CSRF session) and its
  middleware;
- the SSO cookie bridge;
- the fixed-window login rate limiter;
- the password-reset table;
- the pagination-query, URL and validation-message helpers;
- the three transactional "replace the pivot rows" repository operations.

The model is built as follows:

- **Redis** is `Kv.Store`. Its one field is `data`, a map from key to a value (a string or a
  set of members) and an optional deadline. Each command is a method, backed by a pure step
  function on the map (`Kv.SetSpec`, `Kv.SRemSpec`, ...), so that lemmas can reason about
  several commands in a row.
- **The gin request context** is `Http.Context`. Its fields are the values set with `c.Set`,
  the cookies and headers written, the responses written, and the `aborted` flag.
  - `c.JSON` and `c.Redirect` write a response but do not abort.
  - `helper.ErrorResponse` writes a response and aborts.
- **Tables** the core changes (users with their role pivots, password resets, the
  semester–subject pivots, the subject–lecturer pivots) are classes whose rows are `seq`
  fields. Each repository method states the whole new table.
- **JSON** has a concrete encoder and a strict decoder, over the subset the system writes,
  with round-trip lemmas.
- **Base64url** without padding (section 5 of RFC 4648) is modelled on octets.
- **JWT** signing and validation cover the HMAC algorithms of section 3.2 of RFC 7518 and the
  `exp`/`nbf` checks of section 4.1 of RFC 7519. The keyed hash is a function parameter.
- **Values of the environment** are parameters: the clock (whole seconds), random octets,
  UUIDs, bcrypt's verdict and hash, the e-mail validator, and whether each Redis or SQL call
  failed.

Each operation states its outcome as a relation between the old and new state. The
properties that span several calls are lemmas about the step functions, for example:

- a code read back until it lapses;
- a CSRF token redeemed exactly once;
- a blacklisted token refused;
- the eleventh login attempt in a minute refused;
- a pivot replace that touches nothing else and is idempotent.

## Model

| member | source | states |
|---|---|---|
| Strs.Split | delivery/middleware/auth.go:143 | strings.Split yields at least one part and no part contains the separator |
| Strs.JoinSplit | delivery/middleware/auth.go:26-31 | joining the parts of a split with the separator gives the input back |
| Strs.SplitJoin | pkg/helper/validate_json.go:37-38 | splitting a join of separator-free parts gives those parts back |
| Strs.Cut | delivery/middleware/auth.go:147-152 | strings.SplitN(item, ":", 2): no result exactly when there is no ':'; otherwise the item is the part before the first ':', the ':', and the rest |
| Strs.ReplaceCharIsSplitJoin | pkg/helper/validate_json.go:37-38 | replacing every space by ", " is the same as splitting on spaces and joining with ", " |
| Strs.ToLower | pkg/helper/validate_json.go:18 | strings.ToLower keeps the length and lowers each ASCII letter in place |
| Strs.ToLowerIdempotent | pkg/helper/validate_json.go:18 | lowering twice is lowering once, and no upper-case letter is left |
| Strs.TrimSpace | pkg/helper/global.go:14-16 | strings.TrimSpace gives an infix of the input that neither starts nor ends with white space, and every character cut off before or after it is white space |
| Strs.TrimSpaceIdempotent | pkg/helper/global.go:14-16 | trimming twice is trimming once |
| Strs.EscapeHtml | pkg/helper/global.go:14-16 | html.EscapeString: each of <, >, &, ' and " becomes its entity and every other character stays; its contract is stated by EscapeRoundTrip, EscapeHasNoMarkup and EscapePlain |
| Strs.EscapeRoundTrip | pkg/helper/global.go:14-16 | html.EscapeString loses nothing: unescaping its output gives the input |
| Strs.EscapeHasNoMarkup | pkg/helper/global.go:14-16 | escaped text holds no <, >, quote or apostrophe, and '&' only where an entity starts |
| Strs.Atoi | pkg/helper/query_parser.go:24-32 | strconv.Atoi only accepts values inside the int64 range |
| Strs.AtoiRoundTrip | pkg/helper/query_parser.go:24-32 | Atoi reads the decimal text of every int64 back as that integer |
| Strs.NegativeDecimalAtoi | pkg/helper/query_parser.go:24-32 | a '-' followed by digits reads as the negated value |
| Strs.IntToDecimalInjective | delivery/middleware/rate_limiter.go:31-35 | different integers have different decimal texts |
| Strs.Hex | internal/usecase/auth_usecase.go:169-173 | hex.EncodeToString writes two lower-case hex digits per octet |
| Strs.HexRoundTrip | internal/usecase/auth_usecase.go:169-173 | hex decoding gives the octets back |
| Strs.HexInjective | internal/usecase/auth_usecase.go:268-275 | different random octets give different hex tokens |
| Base64Url.Encode | pkg/helper/global.go:38-40 | base64.RawURLEncoding writes ceil(8n/6) characters, all from the URL-safe alphabet |
| Base64Url.RoundTrip | pkg/helper/sso.go:41-51 | decoding an encoding gives the octets back |
| Base64Url.EncodeInjective | pkg/helper/sso.go:27 | different octets give different encodings |
| Base64Url.ThirtyTwoOctets | pkg/helper/global.go:42-46 | 32 octets encode to 43 characters without padding |
| Base64Url.Decode | pkg/helper/sso.go:46-49 | base64.RawURLEncoding.DecodeString: once line breaks are dropped, it fails exactly on a character outside the alphabet or a length of 1 modulo 4, and otherwise gives 6n/8 octets (DecodedLen) |
| Json.Serialize | pkg/helper/sso.go:18 | json.Marshal: a non-empty text whose first character tells the kind of value: '{' exactly for an object, '[' for an array, '"' for a string, a digit or '-' for a number |
| Json.Parse | delivery/middleware/auth.go:79 | json.Unmarshal of a whole document: an empty or blank text is an error, and the value is an object, array or string exactly when the first non-blank character opens one |
| Json.RoundTrip | pkg/helper/sso.go:18-21 | parsing a serialized JSON value gives the value back |
| Json.SerializeInjective | pkg/helper/sso.go:18-21 | different values serialize to different texts |
| Json.StringsRoundTrip | internal/service/jwt_service.go:11-16 | a []string encoded as a JSON array reads back as the same list |
| Json.FieldsMapKeys | pkg/helper/query_parser.go:38-41 | an object's decoded map has exactly the keys of its members |
| Json.HexDocumentIsNoObject | internal/handler/oauth_handler.go:60-68 | a text of hex digits and dashes (a UUID) is at most a number, never an object |
| Json.SurrogatePair | pkg/helper/query_parser.go:39 | a high surrogate followed by the \u escape of a low one stands for one character above U+FFFF |
| Json.PairedSurrogates | pkg/helper/query_parser.go:39 | the escape pair \ud83d\ude00 reads as U+1F600, a lone high or low surrogate escape as U+FFFD, so a filter holding either is accepted |
| Jwt.HmacAlg | internal/service/jwt_service.go:59-61 | only names of HMAC algorithms are accepted, each for its own algorithm |
| Jwt.TokenClaims | internal/service/jwt_service.go:36-45 | GenerateToken's claims expire `hours`*3600 seconds after `now`, are issued at `now` and carry no nbf |
| Jwt.CheckTimes | internal/service/jwt_service.go:65-71 | claims are valid exactly when not at or past exp and not before nbf, and the claims are returned unchanged |
| Jwt.Sign | internal/service/jwt_service.go:47-48 | SignedString: the base64url header and claims and the base64url keyed hash of both, joined by dots; SignParts, SignedHeaderAndClaims and SignValidate state what it promises |
| Jwt.GenerateToken | internal/service/jwt_service.go:36-49 | HS256 over TokenClaims; GenerateValidate states that it validates until it expires |
| Jwt.Validate | internal/service/jwt_service.go:56-74 | ValidateToken: parse, HMAC check, signature, then times; ValidIsSigned, ValidIsCurrent, NotThreeSegments and SignValidate state what it promises |
| Jwt.ValidIsSigned | internal/service/jwt_service.go:56-63 | an accepted token has three segments and its signature is the keyed hash, under some HMAC algorithm, of the first two |
| Jwt.ValidIsCurrent | internal/service/jwt_service.go:65-71 | the claims of an accepted token are current |
| Jwt.ClaimsRoundTrip | internal/service/jwt_service.go:11-16 | the claims object reads back as the claims written |
| Jwt.ClaimsKeysAbsent | internal/service/jwt_service.go:37-45 | the token carries no iss, sub, jti or aud claim |
| Jwt.SignParts | internal/service/jwt_service.go:47-48 | a signed token splits into header, claims and signature segments |
| Jwt.SignedHeaderAndClaims | internal/service/jwt_service.go:47-48 | the unverified header and claims of a signed token are the algorithm's name and the claims signed |
| Jwt.SignValidate | internal/service/jwt_service.go:56-74 | validating a token signed with the same key is exactly the time check of its claims |
| Jwt.GenerateValidate | internal/service/jwt_service.go:36-74 | a generated token validates, with the claims generated, before its expiry, and is rejected as expired from then on |
| Jwt.NotThreeSegments | internal/service/jwt_service.go:56-67 | a token without exactly three segments is malformed |
| Kv.Visible | delivery/middleware/rate_limiter.go:40-42 | a key is visible exactly when it is present and its deadline has not passed |
| Kv.Deadline | pkg/helper/sso.go:21 | a TTL gives a deadline `now + ttl` only when it is positive; otherwise the key never expires |
| Kv.GetSpec | internal/handler/oauth_handler.go:122-127 | GET hits exactly the visible string keys and returns their value; an absent or lapsed key is a miss |
| Kv.SetSpec | pkg/helper/sso.go:21 | SET stores the value with its deadline and leaves every other key as it was |
| Kv.DelSpec | internal/usecase/auth_usecase.go:254 | DEL removes the key, touches no other key, and counts 1 only for a visible key |
| Kv.SAddSpec | delivery/middleware/csrf.go:40-45 | SADD fails on a string key; otherwise the set afterwards holds the member |
| Kv.SRemSpec | pkg/helper/csrf.go:34-40 | SREM fails on a string key; otherwise it counts 1 exactly when the member was in the visible set, and the member is gone |
| Kv.ExpireSpec | delivery/middleware/csrf.go:46-51 | EXPIRE succeeds exactly on a visible key and moves its deadline; a non-positive TTL deletes the key; a missing key is left alone |
| Kv.AsInteger | delivery/middleware/rate_limiter.go:40-42 | a counter value is read only from the canonical decimal of an int64 |
| Kv.Store.Get | internal/handler/oauth_handler.go:122 | GET on the store: a failure or the step function's result; the store is unchanged |
| Kv.Store.Set | pkg/helper/sso.go:21 | SET on the store: success exactly without a fault, and the new map is SetSpec's |
| Kv.Store.Del | internal/usecase/auth_usecase.go:254 | DEL on the store, as DelSpec |
| Kv.Store.SAdd | delivery/middleware/csrf.go:40 | SADD on the store, as SAddSpec; a failure changes nothing |
| Kv.Store.SRem | pkg/helper/csrf.go:34 | SREM on the store, as SRemSpec; a failure changes nothing |
| Kv.Store.Expire | delivery/middleware/csrf.go:46 | EXPIRE on the store, as ExpireSpec |
| Kv.Store.Incr | delivery/middleware/rate_limiter.go:40 | INCR on the store, as IncrSpec; a failure or a non-integer value changes nothing |
| Kv.SetThenGet | internal/usecase/oauth_usecase.go:40 | a value SET with a TTL reads back until the TTL runs out and is a miss afterwards; with no TTL it stays |
| Kv.SetOtherKey | internal/usecase/oauth_usecase.go:40 | SET leaves every other key as seen at any time |
| Kv.AddThenRemoveOnce | pkg/helper/csrf.go:34-40 | a member just added is removed once (count 1); a second removal counts 0 and changes nothing |
| Kv.RemoveAbsent | pkg/helper/csrf.go:34-40 | removing a member that is not in the set counts 0 and changes nothing |
| Kv.SetCommandsOtherKey | pkg/helper/csrf.go:34 | SADD and SREM on one key leave every other key as it was |
| Kv.IncrSpec | delivery/middleware/rate_limiter.go:40 | INCR fails exactly on a set or a value that is not an int64 below the maximum; otherwise an absent key becomes 1 and n becomes n + 1, stored as decimal with its deadline kept, and every other key is untouched |
| Kv.IncrCounts | delivery/middleware/rate_limiter.go:40 | INCR on a live counter n (or an absent key, n = 0) stores and returns n + 1 |
| Kv.ExpireMovesDeadline | delivery/middleware/csrf.go:46 | after EXPIRE with a positive TTL the key is seen as before until the new deadline and is gone from then on |
| Pivot.Filter | internal/repository/user_repository.go:95-99 | a DELETE ... WHERE leaves no more rows than the table had; FilterSelects states which rows |
| Pivot.FilterSelects | internal/repository/user_repository.go:95-99 | the rows left are rows of the table the condition spares, and every row it spares is left |
| Pivot.FilterAppend | internal/repository/user_repository.go:95-99 | deleting from two tables joined is deleting from each |
| Pivot.FilterAll | internal/repository/user_repository.go:95-99 | a delete that matches no row changes nothing |
| Pivot.FilterNone | internal/repository/user_repository.go:95-99 | a delete that matches every row empties the table |
| Pivot.FilterTwice | internal/repository/user_repository.go:95-99 | the same delete twice is the delete once |
| Pivot.ReplaceSelects | internal/repository/user_repository.go:95-117 | after delete-then-insert, the owner's rows are exactly the inserted ones and every other row is as before |
| Pivot.ReplaceIdempotent | internal/repository/user_repository.go:86-121 | replacing with the same rows twice is replacing once |
| Pivot.ReplaceOverwrites | internal/repository/user_repository.go:86-121 | a second replace undoes the first entirely |
| UserRepository.ByEmail | internal/repository/auth_repository.go:17-24 | FindByEmail returns a row with that e-mail, and none only when no row has it |
| UserRepository.ByEmailAt | internal/repository/auth_repository.go:17-24 | the row found is the first with that e-mail |
| UserRepository.ByEmailUnique | internal/domain/auth.go:10 | with the unique e-mail column the row found is the one row with that address, whatever the table's order |
| UserRepository.ByEmailSole | internal/domain/auth.go:8-10 | in a valid table the row found by e-mail sits at its id's position and no other row has the address |
| UserRepository.ByEmailIndex | internal/repository/user_repository.go:66-76 | the user found by e-mail is found again by its id |
| UserRepository.IndexOfId | internal/repository/user_repository.go:66-76 | the position of the first row with the id, or the table's length when there is none |
| UserRepository.Users.FindByEmail | internal/repository/auth_repository.go:17-24 | the table's lookup by e-mail is ByEmail |
| UserRepository.Users.FindByID | internal/repository/user_repository.go:78-84 | returns a row with the id, and none only when no row has it |
| UserRepository.Users.Update | internal/repository/user_repository.go:66-76 | fails and changes nothing on an SQL error, a missing id or an e-mail another row has (the unique column); otherwise replaces that row, keeping its id, and nothing else; the pivots stay, and unique ids and e-mails are kept |
| UserRepository.Users.UpdateRoles | internal/repository/user_repository.go:86-121 | a missing user, a failed delete or a failed insert returns the error with the pivots unchanged; otherwise the user's pivots are replaced by one row per role |
| UserRepository.RoleRows | internal/repository/user_repository.go:106-114 | one pivot row per role |
| UserRepository.BuildLinks | internal/repository/user_repository.go:106-114 | the loop builds {RoleID, id, model type} for each role in order |
| UserRepository.UpdateRolesReplaces | internal/repository/user_repository.go:95-117 | afterwards the user's role rows are exactly the list, in order, and other users' rows are untouched |
| UserRepository.UpdateRolesIdempotent | internal/repository/user_repository.go:86-121 | setting the same roles twice is setting them once |
| PasswordResetRepository.FindReset | internal/repository/password_reset_repository.go:26-32 | returns a row matching both token and e-mail, and none only when no row matches both |
| PasswordResetRepository.PasswordResets.FindByTokenAndEmail | internal/repository/password_reset_repository.go:26-32 | the table's lookup is FindReset |
| PasswordResetRepository.PasswordResets.Create | internal/repository/password_reset_repository.go:17-24 | rows of the address are deleted (a failed delete is ignored), then the row is inserted and returned; a failed insert leaves the delete done; the table keeps one row per address |
| PasswordResetRepository.PasswordResets.Delete | internal/repository/password_reset_repository.go:34-36 | removes every row of the token and no other; keeps one row per address |
| PasswordResetRepository.FilterKeepsUnique | internal/repository/password_reset_repository.go:17-24 | deleting rows keeps at most one row per address |
| PasswordResetRepository.CreateSupersedes | internal/repository/password_reset_repository.go:17-24 | after Create only the new token is found for the address; any earlier token is not |
| PasswordResetRepository.FindAfter | internal/repository/password_reset_repository.go:17-32 | after Create, a lookup with the address finds the new row for its token and nothing for any other |
| PasswordResetRepository.DeletedTokenGone | internal/repository/password_reset_repository.go:34-36 | after Delete the token is found for no address |
| SemesterRepository.SubjectRows | internal/repository/semester_repository.go:129-136 | one pivot row per subject id |
| SemesterRepository.SubjectsOf | internal/repository/semester_repository.go:129-136 | the subject ids of the rows, one per row |
| SemesterRepository.Semesters.SettingSubjectSemester | internal/repository/semester_repository.go:114-142 | a missing semester, a failed delete or a failed insert returns the error with the pivots unchanged; otherwise the semester's pivots are replaced by one row per subject id |
| SemesterRepository.BuildPivots | internal/repository/semester_repository.go:129-136 | the loop builds {uuid, subject, semester} for each subject id in order |
| SemesterRepository.SettingReplaces | internal/repository/semester_repository.go:121-139 | afterwards the semester's subjects are exactly the list (duplicates kept), and other semesters' rows are untouched |
| SemesterRepository.SettingOverwrites | internal/repository/semester_repository.go:114-142 | a second setting of the semester undoes the first entirely |
| SubjectSemesterRepository.LectureRows | internal/repository/subject_semester_repository.go:45-51 | one lecturer row per lecture id of the item |
| SubjectSemesterRepository.LecturersOf | internal/repository/subject_semester_repository.go:45-51 | the lecturer ids of the rows, one per row |
| SubjectSemesterRepository.Step | internal/repository/subject_semester_repository.go:31-56 | a successful item replaces that subject-semester's lecturer rows by the item's |
| SubjectSemesterRepository.SubjectSemesters.StoreLectureOnSubject | internal/repository/subject_semester_repository.go:29-60 | the items run in order inside one transaction: the first error is returned with the table as before; otherwise the table is the result of every item's step |
| SubjectSemesterRepository.RunItems | internal/repository/subject_semester_repository.go:30-57 | the transaction's loop ends with Run's outcome: the first item's error, or the table after every item |
| SubjectSemesterRepository.StoreItem | internal/repository/subject_semester_repository.go:31-56 | one item: existence check, delete, skip when empty, insert, each failure reported |
| SubjectSemesterRepository.BuildLectures | internal/repository/subject_semester_repository.go:45-51 | the loop builds {uuid, subject-semester, employee} for each lecture id in order |
| SubjectSemesterRepository.StepReplaces | internal/repository/subject_semester_repository.go:37-55 | after an item its subject-semester's lecturers are exactly the item's, and other subject-semesters are untouched |
| SubjectSemesterRepository.LaterItemWins | internal/repository/subject_semester_repository.go:31-56 | two items for the same subject-semester end as the later one alone |
| SubjectSemesterRepository.FirstFailureReported | internal/repository/subject_semester_repository.go:29-60 | once an item fails, the later items change neither the error nor the table |
| Dto.LoginInfoFields | internal/dto/auth_dto.go:16-22 | the user info object reads back as the info written |
| Dto.LoginResponseFields | internal/dto/auth_dto.go:10-13 | the login response object reads back as the response written |
| Dto.LoginResponseRoundTrip | pkg/helper/sso.go:18-21 | the SSO record stored as JSON decodes to the login response |
| Dto.EncodeLoginResponse | pkg/helper/sso.go:18 | json.Marshal of the login response is an object text; LoginResponseRoundTrip reads it back |
| Dto.DecodeLoginResponse | delivery/middleware/auth.go:79 | json.Unmarshal into a fresh LoginResponseDTO: only an object or null is read, and null leaves the zero value |
| Dto.HexStringIsNoLoginResponse | internal/handler/oauth_handler.go:60-62 | a bare user id (hex digits and dashes) never decodes as a login response |
| Dto.CodeRecordFields | internal/dto/oauth_dto.go:5-11 | the authorization code object reads back as the record written |
| Dto.EncodeCodeRecord | internal/usecase/oauth_usecase.go:35 | json.Marshal of the code record is an object text |
| Dto.DecodeCodeRecord | internal/handler/oauth_handler.go:130 | json.Unmarshal into a fresh StoreOauthCodeDTO: only an object or null is read, and null leaves the zero value |
| Dto.CodeRecordRoundTrip | internal/usecase/oauth_usecase.go:35-40 | the stored code record decodes to the record |
| Dto.EmployeeDetailFields | internal/dto/employee_dto.go:84-95 | the employee detail reads back as written |
| Dto.SemesterFields | internal/usecase/auth_usecase.go:340-347 | a student semester reads back as written |
| Dto.SemestersRoundTrip | internal/usecase/auth_usecase.go:338-350 | the list of student semesters reads back as written |
| Dto.StudentDetailFields | internal/usecase/auth_usecase.go:396-407 | the student detail reads back as written |
| Dto.ProfileFields | internal/usecase/auth_usecase.go:364-408 | the profile object reads back as the profile written |
| Dto.EncodeProfile | internal/usecase/auth_usecase.go:411 | json.Marshal of the profile is an object text |
| Dto.DecodeProfile | internal/usecase/auth_usecase.go:308 | json.Unmarshal into a fresh profile: only an object or null is read, and null leaves the zero value |
| Dto.ProfileRoundTrip | internal/usecase/auth_usecase.go:411-412 | the cached profile decodes to the profile that was cached |
| Global.SanitizeInput | pkg/helper/global.go:14-16 | escaping then trimming is the same as trimming then escaping |
| Global.SanitizeCommutes | pkg/helper/global.go:14-16 | TrimSpace and html.EscapeString commute |
| Global.SanitizeRoundTrip | pkg/helper/global.go:14-16 | unescaping the sanitized text gives the trimmed input |
| Global.SanitizeHasNoMarkup | pkg/helper/global.go:14-16 | sanitized text has no markup characters and no surrounding white space |
| Global.GetUrlFile | pkg/helper/global.go:18-36 | "" exactly when path and file name are both empty; otherwise endpoint/bucket then the path, with exactly one '/' before a non-empty file name and none between bucket and path |
| Global.GenCode | pkg/helper/global.go:38-46 | a code is 43 URL-safe characters that decode to the 32 random octets |
| Global.LoginQuery | pkg/helper/global.go:48-60 | the query carries return_to; error is absent for an empty message and is the message's base64url otherwise; keys in sorted order |
| Global.LoginError | internal/handler/oauth_handler.go:156-161 | the login page's error text from the query: empty when absent or undecodable |
| Global.LoginErrorRoundTrip | internal/handler/oauth_handler.go:156-161 | the message put in the query by RedirectBackToLogin is the one the login page shows |
| Global.RedirectBackToLogin | pkg/helper/global.go:48-60 | one 302 redirect to the login path with that query; nothing else changes and the chain is not aborted |
| Csrf.CsrfToken | pkg/helper/csrf.go:12-20 | a token exactly when the random source worked: 43 characters decoding to the 32 random octets; the session id plays no part |
| Csrf.ValidateCSRF | pkg/helper/csrf.go:22-44 | true exactly when the token and session are sent and SREM removed the token from this session's set; the new store is then that SREM's (Csrf.Redeemed), with the set's deadline moved thirty minutes on unless EXPIRE failed (its error is ignored), so the token cannot be redeemed again and no other key changes; false leaves the store as it was |
| Csrf.RedeemKeepsOtherTokens | pkg/helper/csrf.go:34-43 | after a redemption and the TTL refresh every other token of the session is redeemable exactly when it was before, for thirty minutes from the redemption |
| Csrf.CSRFTokenMiddleware | delivery/middleware/csrf.go:14-56 | reuses or mints the session cookie; each failure ends the request with a 500 and its message; on success the token is added to the session's set, the set gets thirty minutes and the context's csrf_token is that token |
| Csrf.IssueThenRedeemOnce | pkg/helper/csrf.go:34-40 | an issued token is redeemable within thirty minutes, exactly once |
| Csrf.TokensLapse | delivery/middleware/csrf.go:46 | thirty minutes after the last issue no token of the session is redeemable |
| Csrf.SessionsIsolated | pkg/helper/csrf.go:34 | issuing or redeeming in one session changes nothing another session can redeem |
| Http.Context.ErrorResponse | pkg/helper/response.go:25-33 | appends one error response with that status and message and marks the context aborted; values, cookies and headers stay as they were |
| Http.QueryUnescape | pkg/helper/csrf.go:27 | url.QueryUnescape succeeds exactly when every '%' is followed by two hex digits, and never lengthens the text |
| Http.UnescapePlain | pkg/helper/sso.go:42 | a value with no '%' and no '+' (a base64url SSO cookie or a UUID session id) is read as written |
| Http.UnescapeSpace | pkg/helper/csrf.go:27 | a csrf_sid of a%20b or a+b is read as "a b" |
| Http.UnescapeLetter | pkg/helper/sso.go:42 | %41 is read as A, while %4 and %zz fail to unescape |
| Http.Cookie | pkg/helper/csrf.go:27 | c.Cookie: present exactly when the request carries the cookie; its query-unescaped value, or "" when unescaping fails |
| Sso.SetSSO | pkg/helper/sso.go:17-39 | stores the login response's JSON under sso:<id> for maxAge (a failed write changes nothing), and sets a Secure, HttpOnly cookie holding base64url(id) for maxAge |
| Sso.GetSSO | pkg/helper/sso.go:41-51 | no id for an absent or empty cookie; an id found is what the cookie value, once gin has query-unescaped it, decodes to |
| Sso.ClearSSO | pkg/helper/sso.go:53-56 | sets the cookie empty with MaxAge -1 and leaves the stored session record |
| Sso.GetAfterSet | pkg/helper/sso.go:27-51 | a browser holding the cookie SetSSO wrote gives back the user id |
| Sso.GetAfterClear | pkg/helper/sso.go:41-56 | a browser holding the cookie ClearSSO wrote has no session |
| RateLimiter.Quot | delivery/middleware/rate_limiter.go:31-35 | Go's truncating int64 division, equal to Dafny's for non-negative operands |
| RateLimiter.Rem | delivery/middleware/rate_limiter.go:45-51 | Go's truncating remainder: within (-b, b), non-positive for a negative dividend |
| RateLimiter.RetryAfter | delivery/middleware/rate_limiter.go:45-51 | Retry-After is positive; for a real clock it is at most 60 and ends exactly at the next minute |
| RateLimiter.RateLimiter | delivery/middleware/rate_limiter.go:20-59 | other requests pass untouched; a login POST increments rl:login:<ip>:<minute> (a failure counts as 0), refreshes its TTL, and is refused with 429 and Retry-After exactly when the count exceeds 10 |
| RateLimiter.CounterKeyInjective | delivery/middleware/rate_limiter.go:31-35 | different IPs or minutes never share a counter |
| RateLimiter.AttemptCounts | delivery/middleware/rate_limiter.go:40-42 | each attempt within the counter's TTL adds exactly one to the count |
| RateLimiter.AttemptsCount | delivery/middleware/rate_limiter.go:40-42 | a run of attempts within one TTL leaves the count increased by their number |
| RateLimiter.TenPerMinute | delivery/middleware/rate_limiter.go:15-44 | within one minute and a fresh counter, the last of a run of attempts is refused exactly when there are more than 10 |
| AuthMiddleware.BearerToken | delivery/middleware/auth.go:26-31 | a token only from a header that is "Bearer ", then a token without spaces |
| AuthMiddleware.BearerOf | delivery/middleware/auth.go:26-31 | "Bearer " followed by a space-free token yields that token |
| AuthMiddleware.Authenticate | delivery/middleware/auth.go:17-54 | admitted only with a bearer header, a token not stored as "blacklisted" (unless that lookup failed) and a token that validates to the claims |
| AuthMiddleware.AuthMiddleware | delivery/middleware/auth.go:17-54 | a refusal is a 401 with its message and aborts; admission sets user_id, roles, permissions and token in the context and does not abort |
| AuthMiddleware.SignedHasNoSpace | delivery/middleware/auth.go:26-31 | a signed token holds no space, so it survives the header split |
| AuthMiddleware.IssuedTokenAdmitted | delivery/middleware/auth.go:17-54 | a generated, unexpired, non-blacklisted token is admitted with the claims it was generated with |
| AuthMiddleware.BlacklistedRefused | delivery/middleware/auth.go:33-39 | a token blacklisted, for as long as the blacklist entry lives, is refused whatever its signature |
| AuthMiddleware.WebCheck | delivery/middleware/auth.go:57-111 | admits only a request with an SSO cookie, a stored session that decodes, a token not blacklisted and a token that validates |
| AuthMiddleware.AuthMiddlewareWeb | delivery/middleware/auth.go:57-111 | no session: cookie cleared, return_to stored without expiry, 303 to /login, abort; undecodable session: cookie cleared, redirect, no abort; revoked: cookie cleared, redirect, abort; expired: redirect, abort, cookie kept; admitted: user_id, email, roles, permissions set |
| AuthMiddleware.CheckSessionToken | delivery/middleware/auth.go:87-109 | blacklist before validation: a blacklisted token clears the cookie and redirects, an invalid one redirects keeping the cookie, a valid one fills the context |
| AuthMiddleware.SendToLogin | delivery/middleware/auth.go:59-75 | clears the cookie, stores return_to with no expiry, redirects to /login with 303 and aborts |
| AuthMiddleware.AuthMiddlewareWebCorrected | delivery/middleware/auth.go:77-85 | corrected guard: the chain goes on exactly when the request is admitted |
| AuthMiddleware.UndecodableSessionRunsNextHandler | delivery/middleware/auth.go:77-85 | a concrete request whose stored session does not decode ends with a redirect but not aborted, with nothing in the context |
| AuthMiddleware.StoredTextUndecodable | delivery/middleware/auth.go:77-85 | a stored session text that is no JSON object is classed undecodable |
| AuthMiddleware.SignedInSessionAdmitted | delivery/middleware/auth.go:57-111 | after SetSSO with a freshly generated token, the web guard admits the stored session until cookie or token lapses |
| AuthMiddleware.AnyGrantsCons | delivery/middleware/auth.go:146-162 | some item of a list grants exactly when the first does or some later one does |
| AuthMiddleware.SliceContains | delivery/middleware/auth.go:113-120 | true exactly when the item is in the slice |
| AuthMiddleware.Meets | delivery/middleware/auth.go:143-162 | the loop with its flag and break decides exactly Satisfied: some '|'-item is role:r with r a role, or permission:p with p a permission |
| AuthMiddleware.Authorize | delivery/middleware/auth.go:124-172 | 403 and abort when roles or permissions are missing or not lists, 403 and abort when the requirement is not met, otherwise the chain goes on; the context is not changed |
| AuthMiddleware.SatisfiedAlternatives | delivery/middleware/auth.go:143-162 | "a\|b" is met exactly when a grants or b is met |
| AuthMiddleware.UntypedAlternativeIgnored | delivery/middleware/auth.go:147-150 | an item without ':' never grants: "kind:name\|other" is met exactly by the typed item |
| AuthMiddleware.CutAt | delivery/middleware/auth.go:147-152 | an item splits at its first ':' into kind and name |
| AuthUseCase.Mailer.Send | internal/usecase/auth_usecase.go:194 | the mail is recorded as sent exactly when the mail service did not fail, whose error is returned |
| AuthUseCase.RoleNames | internal/usecase/auth_usecase.go:76-77 | the role names in the user's role order |
| AuthUseCase.RolePermissionGranted | internal/usecase/auth_usecase.go:76-81 | every permission of every role is in the permission set |
| AuthUseCase.PermissionFromSomeRole | internal/usecase/auth_usecase.go:76-81 | every permission in the set comes from some role |
| AuthUseCase.AggregateRoles | internal/usecase/auth_usecase.go:72-85 | the loops give the role names in order and a duplicate-free list of exactly the permissions of the roles |
| AuthUseCase.BuildProfile | internal/usecase/auth_usecase.go:333-408 | the profile carries the user's id, e-mail, roles and permissions; a student's employee detail and a non-student's student detail are the empty ones |
| AuthUseCase.CachedProfile | internal/usecase/auth_usecase.go:306-311 | a cached profile is used only when GET worked |
| AuthUseCase.CacheServesStoredProfile | internal/usecase/auth_usecase.go:306-311 | a profile cached under user_info:<id> is served as it was for ten minutes |
| AuthUseCase.AuthUseCase.Issue | internal/usecase/auth_usecase.go:72-102 | the response carries the user's identity, role names in order, the duplicate-free permission set, and a token generated for those same lists |
| AuthUseCase.AuthUseCase.Login | internal/usecase/auth_usecase.go:55-103 | unknown e-mail and wrong password give the same error with nothing written; an unverified user gets the verification error after a new link is requested; otherwise the issued response; the user table is untouched |
| AuthUseCase.AuthUseCase.LoginWithGoogle | internal/usecase/auth_usecase.go:105-142 | an unregistered e-mail is refused; any registered user is issued a response, with no password or verification check |
| AuthUseCase.AuthUseCase.Logout | internal/usecase/auth_usecase.go:144-161 | an invalid or expired token gives no error and writes nothing; otherwise the token is SET to "blacklisted" for exactly its remaining lifetime, and only a failed SET is an error |
| AuthUseCase.AuthUseCase.ForgotPassword | internal/usecase/auth_usecase.go:163-199 | an unknown e-mail returns nil with nothing written; otherwise the row {e-mail, hex token, now} replaces the address's rows before the reset mail is sent; each failure is returned |
| AuthUseCase.AuthUseCase.ResetPassword | internal/usecase/auth_usecase.go:201-231 | no matching row: error, nothing changes; older than an hour: error and the token deleted; otherwise the new hash is stored with IsChangePassword set, then the token is deleted |
| AuthUseCase.AuthUseCase.VerifyEmail | internal/usecase/auth_usecase.go:234-256 | a missing key is an error; otherwise the user's EmailVerifiedAt is set to now and the key deleted |
| AuthUseCase.AuthUseCase.ResendVerificationEmail | internal/usecase/auth_usecase.go:258-297 | an unknown or already verified user is refused before any write; otherwise verify_email:<hex token> holds the address for 15 minutes and the link is mailed |
| AuthUseCase.AuthUseCase.Me | internal/usecase/auth_usecase.go:299-416 | a decodable cached profile is returned without the user table; otherwise the profile is built from the user's roles and permissions and cached under user_info:<id> for ten minutes |
| AuthUseCase.VerificationLinkWorksOnce | internal/usecase/auth_usecase.go:237-254 | a stored verification key reads back the address for 15 minutes and is gone once deleted |
| AuthUseCase.VerifyKeysDistinct | internal/usecase/auth_usecase.go:268-275 | different random octets give different verification keys |
| AuthUseCase.ResetPasswordThenLogin | internal/usecase/auth_usecase.go:217-226 | after the reset's update the new password signs in and the user is marked as having changed it |
| OauthUseCase.NewCodeRecord | internal/usecase/oauth_usecase.go:25-33 | the record's code is 43 characters decoding to the random octets, it names the client, redirect URI and user given, and it expires ten minutes from now |
| OauthUseCase.Authorize | internal/usecase/oauth_usecase.go:24-46 | a failed store returns the zero record and the error with the store unchanged; otherwise the record is stored under its code for ten minutes and returned; the response type is ignored |
| OauthUseCase.StoredCodeReadsBack | internal/usecase/oauth_usecase.go:40 | the stored record reads back as the record for ten minutes and is unknown afterwards |
| OauthUseCase.OtherCodesKept | internal/usecase/oauth_usecase.go:40 | storing a code leaves every other key as it was |
| OauthHandler.Gate | internal/handler/oauth_handler.go:33-58 | a request passing the parameter and client checks without a sign-in redirect has an SSO cookie |
| OauthHandler.ClientCheck | internal/handler/oauth_handler.go:100-120 | the client checks pass only for a registered client |
| OauthHandler.OauthHandler.Reject | internal/handler/oauth_handler.go:35-37 | ClearSSO then RedirectBackToLogin with the message |
| OauthHandler.OauthHandler.Answer | internal/handler/oauth_handler.go:60-91 | carries out the reply for a step: cookie clearing, the one response, and the code stored |
| OauthHandler.OauthHandler.Authorize | internal/handler/oauth_handler.go:28-92 | as written: each check's reply; a granted user's code is stored and 303'd to the redirect URI |
| OauthHandler.OauthHandler.AuthorizeCorrected | internal/handler/oauth_handler.go:50-68 | corrected: the session is read from the store under sso:<id> rather than parsed from the cookie |
| OauthHandler.TokenCheck | internal/handler/oauth_handler.go:94-151 | the client checks decide first; a user is handed out only for a live record stored under the posted code that decodes, is not expired, and was issued to this client, for this redirect URI and with this code |
| OauthHandler.OauthHandler.Token | internal/handler/oauth_handler.go:94-151 | each refusal is its status and message, with abort; an exchange answers 200 with the code's user |
| OauthHandler.OauthHandler.LoginPage | internal/handler/oauth_handler.go:153-173 | with an SSO cookie a 303 to return_to; otherwise the form with return_to, the CSRF token and the decoded error |
| OauthHandler.OauthHandler.LoginPost | internal/handler/oauth_handler.go:175-206 | form, then CSRF, then credentials, each failure a redirect back to login with no SSO cookie; a bad form or a failed CSRF check leaves the store and the outbox as they were; past the check, the store the redeemed token leaves (Csrf.Redeemed) is where the login's own effects start: unchanged for bad credentials, a requested verification link for an unverified address, and on success the session stored under the user's key for JWTExpirationHours*3600 seconds, no-cache headers, the SSO cookie and a 303 to return_to |
| OauthHandler.OauthHandler.LoginChecked | internal/handler/oauth_handler.go:194-206 | after the CSRF check: an unknown address or wrong password redirects back with the use case's message, no cookie, store and outbox untouched; an unverified address redirects back with its message, the store and outbox being those of a requested verification link; otherwise the SSO cookie, and the store gains the encoded login response issued to that user under its session key for the JWT lifetime (untouched if the store failed) |
| OauthHandler.OauthHandler.KeepSession | internal/handler/oauth_handler.go:201-205 | the success tail: no-cache headers, the SSO cookie, the 303; the new store is the old one with the encoded response set under the session key for JWTExpirationHours*3600 seconds (unchanged when SET fails), so reading it back now gives that response |
| OauthHandler.OauthHandler.Logout | internal/handler/oauth_handler.go:208-212 | clears the SSO cookie and 303s to the redirect parameter |
| OauthHandler.CodeOnlyAfterChecks | internal/handler/oauth_handler.go:28-77 | a code is stored only for valid parameters, a registered client with that exact redirect, and an SSO cookie; and it is the record NewCodeRecord makes |
| OauthHandler.NoSessionSignsIn | internal/handler/oauth_handler.go:50-58 | without an SSO cookie: no code, no clearing, a 303 to the login page with return_to = the request URI |
| OauthHandler.SignedInCookieNotParsed | internal/handler/oauth_handler.go:60-68 | a cookie written by SetSSO for a UUID user id always takes the parse-failure branch |
| OauthHandler.SignedInSessionGranted | internal/handler/oauth_handler.go:50-70 | with the corrected check, a browser signed in by SetSSO is granted its stored login response |
| OauthHandler.ClientChecksFirst | internal/handler/oauth_handler.go:100-120 | a client check failure refuses whatever the store holds and whatever the time |
| OauthHandler.IssuedCodeExchanged | internal/handler/oauth_handler.go:122-150 | a code minted for this client and redirect is exchanged for its user before it lapses |
| OauthHandler.CodeReplayable | internal/handler/oauth_handler.go:122-123 | the same code is exchanged twice for the same user: it is never deleted |
| OauthHandler.LapsedCodeRefused | internal/handler/oauth_handler.go:122-127 | ten minutes after minting the code is unknown |
| OauthHandler.OtherClientRefused | internal/handler/oauth_handler.go:135-138 | a code presented by another client is an invalid grant |
| QueryParser.StringValues | pkg/helper/query_parser.go:38-41 | a decoded filter has exactly the keys of the JSON object |
| QueryParser.PositiveInt | pkg/helper/query_parser.go:24-32 | a value exactly when Atoi succeeds with at least 1, and then that value |
| QueryParser.ParamsOf | pkg/helper/query_parser.go:50-57 | the parameters of a request without errors: page and per_page are the decimal values read, both at least 1, and the order is asc or desc |
| QueryParser.ValidationErrors | pkg/helper/query_parser.go:22-41 | page, per_page, order and filter each have an entry, with its fixed message, exactly when they break their rule; no other key |
| QueryParser.ParsePaginationQuery | pkg/helper/query_parser.go:14-59 | with any error one 422 listing all of them and no parameters; otherwise the parameters with no response; never aborts |
| QueryParser.DefaultsAccepted | pkg/helper/query_parser.go:15-20 | a request without the parameters gets page 1, 10 per page, no search or sort, "asc" and no filter |
| QueryParser.PageRoundTrip | pkg/helper/query_parser.go:24-27 | a page written in decimal is an error exactly when below 1, and otherwise is the page returned |
| QueryParser.FilterRoundTrip | pkg/helper/query_parser.go:38-41 | a filter written as a JSON object of strings is accepted and applied as that map |
| QueryParser.SearchSanitized | pkg/helper/query_parser.go:51-58 | search reaches the caller escaped and trimmed: unescaping gives the trimmed input, and no markup is left |
| ValidateJson.Template | pkg/helper/validate_json.go:20-50 | the default "is invalid" is used exactly for a tag without a template of its own, and a oneof message lists the values after its fixed text |
| ValidateJson.Message | pkg/helper/validate_json.go:18-50 | every message starts with the field's name and a space |
| ValidateJson.CollectErrors | pkg/helper/validate_json.go:15-54 | the loop leaves the map ErrorsOf describes: one entry per lower-cased field, the last error of a field winning |
| ValidateJson.ValidationErrorJSON | pkg/helper/validate_json.go:13-67 | validator errors give one 422 with the error map; any other error a 400 with its text under details; no abort |
| ValidateJson.ErrorsKeys | pkg/helper/validate_json.go:16-54 | the map has an entry for exactly the lower-cased names of the failed fields |
| ValidateJson.LastErrorWins | pkg/helper/validate_json.go:53 | a field's message is the one for its last error |
| ValidateJson.KeysLowerCase | pkg/helper/validate_json.go:18 | every key is lower case |
| ValidateJson.OneOfListsValues | pkg/helper/validate_json.go:37-38 | a oneof rule lists its space-separated values separated by ", " |
| ValidateJson.UnknownTagIsInvalid | pkg/helper/validate_json.go:49-50 | a tag without its own template says "<field> is invalid" |

## Left out

- Redis, SQL, SMTP and the random source are not run. Their results are parameters: a fault flag or error per call, the random octets, and the UUIDs drawn by `BeforeCreate` hooks.
- Time is whole Unix seconds. Go's `time.Time`, `time.Until` and nanosecond durations are not modelled. Nor is a JSON marshal error for an out-of-range time.
- bcrypt's `CompareHashAndPassword` and `GenerateFromPassword` are parameters. So is the JWT keyed hash: HMAC itself is not modelled.
- Jwt.HmacAlg: only knows HS256, HS384 and HS512. Other golang-jwt algorithms and the library's parser leniencies (extra claims, audience or issuer checks) are not modelled.
- JSON is modelled only for what the system writes and reads: the DTOs, the claims and filter maps. The reader accepts integers only as numbers. A `null` member value in a filter reads as "".
- Strs.ToLower: models `strings.ToLower` on ASCII letters only; Unicode case mapping is not modelled.
- `url.Parse` of the redirect URI, and URL encoding of query strings, are not modelled. Whether the parse succeeds is a parameter, and a query is a list of key/value pairs.
- Response shapes are gin.H in Go; here they are a small `Http.Response` datatype. SameSite is not modelled: every cookie of the gateway is SameSite=Lax. Cookie deadlines in the browser are not modelled.
- The gin validator: `ShouldBind` of the login form is reduced to its required and email rules, with the e-mail check as a parameter. Binding from the query string is not modelled. What other validators check is not modelled; ValidationErrorJSON takes its errors as input.
- AuthUseCase.AuthUseCase.Login: the `go uc.ResendVerificationEmail` goroutine is modelled as a call made before Login returns. Login's own error does not depend on it.
- AuthUseCase.AuthUseCase.Login: the "could not generate token" branch is unreachable, because signing in the model cannot fail.
- AuthUseCase.AuthUseCase.LoginWithGoogle: the same "could not generate token" branch is unreachable here too.
- AuthUseCase.AuthUseCase.Login: the order in which Go iterates over `permissionSet` is not fixed. The contract states the set and the absence of duplicates, not the order.
- AuthUseCase.AuthUseCase.Logout: a valid token with no `exp` claim would panic in Go (a nil `ExpiresAt`). The model returns nil and writes nothing.
- AuthUseCase.AuthUseCase.Me: the student and employee records are parameters: `StudentRepository.FindByUserID` and `EmployeeRepository.FindByUserID` are not part of this model. Timestamps, optional profile fields and the preloaded major and study-program names are left out.
- AuthUseCase.AuthUseCase.Me: the cache entry is not invalidated by later profile changes. This matches the source.
- The debug `fmt.Println` of the verification token is left out. So are the mails' HTML bodies: a mail is recorded as its recipient, its subject and the data filled into its template.
- UserRepository.Users.Update: stands for GORM `Updates` with a whole struct. GORM skips zero-valued fields there; the model replaces the row. It treats every SQL error of `FindByID` as "record not found".
- The `UserModelType` constant is not part of this model: it is a constructor parameter of `UserRepository.Users`. The inserted role rows are not linked back to the preloaded `Roles` of the user.
- Transactions are modelled by their outcome: all of a call's changes, or none. Concurrency, isolation and the atomicity of Redis commands are assumed, not modelled.
- Registered OAuth clients are a map from id to client, the oauth client use case's `FindByID`.
- `GetUrlFile`'s storage endpoint and bucket come from the configuration; here they are parameters.
- `GetLectureOnSubject` and the repositories' other queries (FindAll, FindByID with preloads, LIKE search, ordering, offset) are SQL query chains and are not modelled.
- The Redis context timeouts of the middleware, and the debug output of `SetSSO`'s ignored error, are not modelled.
- Base.Octets: text is modelled as ASCII and UTF-8 is not modelled; a character of 128 or more becomes one octet modulo 256, so the token and cookie octets differ from Go's for non-ASCII input, and Strs.IsSpace and the JSON escapes read characters as code points where Go decodes UTF-8 (Go keeps a lone byte 0xA0 that TrimSpace here removes).
- Dto.EncodeCodeRecord: the code record's ExpiresAt is written as Unix seconds, a JSON number, where Go writes a time.Time as RFC 3339 text; only the round trip through the store matters to the gateway.
- Dto.DecodeLoginResponse, Dto.DecodeCodeRecord, Dto.DecodeProfile: member names are matched exactly, where json.Unmarshal also accepts a name that differs only in case.
- Dto.LoginInfoJson: the member name "is_change_password" is assumed. The UserLoginInfo struct in internal/dto/auth_dto.go:16-22 has no such field, while internal/usecase/auth_usecase.go:98 and :137 set one, so its JSON tag is not in the source.
- Dto.ProfileJson: the member names of the cached profile are assumed. The definition of UserDetailInfoDTO is not part of this model.
- Http.Cookie: the request's cookies are given already split into names and values; net/http's parsing of the Cookie header (quotes, invalid characters) is not modelled. An escape such as %C3%A9 unescapes to one character per octet, as in the rest of the byte model.
- Http.Context.ErrorResponse: the response carries the status and message but not the `errors` member holding `{"error": err.Error()}`.
- The existence checks before UpdateRoles, SettingSubjectSemester and StoreLectureOnSubject treat every SQL error of that lookup as "record not found"; other database errors are not told apart there.

## Findings

| source | as written | input that shows it | evidently intended | confidence | as-written member | corrected member |
|---|---|---|---|---|---|---|
| delivery/middleware/auth.go:77-85 | when the stored SSO session does not unmarshal, the guard clears the cookie and redirects but returns without `c.Abort()`, so gin runs the protected handler after the redirect | an `sso_session` cookie for id "u1" whose record `sso:u1` holds the text "ab" | abort like every other refusal of the guard | not executed | AuthMiddleware.AuthMiddlewareWeb (witness AuthMiddleware.UndecodableSessionRunsNextHandler) | AuthMiddleware.AuthMiddlewareWebCorrected |
| internal/handler/oauth_handler.go:60-68 | Authorize JSON-parses the decoded SSO cookie as a login response, but SetSSO (pkg/helper/sso.go:27) puts only the base64url of the user id in the cookie, so every signed-in browser takes the parse-failure branch and no code is ever minted | any user whose id is a UUID, signed in through LoginPost, then sent to authorize with a registered client | read the login response stored under `sso:<id>`, as the web guard does | not executed | OauthHandler.OauthHandler.Authorize (witness OauthHandler.SignedInCookieNotParsed) | OauthHandler.OauthHandler.AuthorizeCorrected (with OauthHandler.SignedInSessionGranted) |

The token endpoint reads the authorization code with `GET` and never deletes it
(internal/handler/oauth_handler.go:122-123). Section 4.1.2 of RFC 6749 requires a code to be
used only once. The model keeps the source's behaviour, and `OauthHandler.CodeReplayable`
proves that a code can be exchanged again until it lapses.
