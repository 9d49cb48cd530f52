/**
 * Input checks of registration and login: the "all fields are required"
 * test of registration (a field that trims to the empty string), the
 * lower-casing of the stored username and the "username or email" test of
 * login. Lookups, uploads, password hashing and tokens are not modelled;
 * their outcomes arrive as parameters.
 */
module Registration {
  import opened Wrappers
  import opened Api

  /** The characters `String.prototype.trim` removes: white space and line terminators. */
  predicate IsJsWhitespace(c: char)
  {
    c == '\U{0009}' || c == '\U{000A}' || c == '\U{000B}' || c == '\U{000C}' || c == '\U{000D}' ||
    c == '\U{0020}' || c == '\U{00A0}' || c == '\U{1680}' || ('\U{2000}' <= c <= '\U{200A}') ||
    c == '\U{2028}' || c == '\U{2029}' || c == '\U{202F}' || c == '\U{205F}' || c == '\U{3000}' ||
    c == '\U{FEFF}'
  }

  predicate AllWhitespace(s: string)
  {
    forall i :: 0 <= i < |s| ==> IsJsWhitespace(s[i])
  }

  /** `s` without its leading white space. */
  function TrimStart(s: string): (r: string)
    ensures |r| <= |s| && r == s[|s| - |r|..]
    ensures r != [] ==> !IsJsWhitespace(r[0])
    ensures AllWhitespace(s[..|s| - |r|])
  {
    if s != [] && IsJsWhitespace(s[0]) then
      var r := TrimStart(s[1..]);
      assert s[..|s| - |r|] == [s[0]] + s[1..][..|s[1..]| - |r|];
      r
    else s
  }

  /** `s` without its trailing white space. */
  function TrimEnd(s: string): (r: string)
    ensures |r| <= |s| && r == s[..|r|]
    ensures r != [] ==> !IsJsWhitespace(r[|r| - 1])
    ensures AllWhitespace(s[|r|..])
  {
    if s != [] && IsJsWhitespace(s[|s| - 1]) then
      var r := TrimEnd(s[..|s| - 1]);
      assert s[|r|..] == s[..|s| - 1][|r|..] + [s[|s| - 1]];
      r
    else s
  }

  /** `s.trim()`. */
  function Trim(s: string): (r: string)
    ensures r != [] ==> !IsJsWhitespace(r[0]) && !IsJsWhitespace(r[|r| - 1])
    ensures exists i :: 0 <= i <= |s| - |r| && s[i..i + |r|] == r &&
                        AllWhitespace(s[..i]) && AllWhitespace(s[i + |r|..])
  {
    var t := TrimStart(s);
    var r := TrimEnd(t);
    var i := |s| - |t|;
    assert s[i..i + |r|] == r;
    assert s[i + |r|..] == t[|r|..];
    r
  }

  /** A string trims to the empty string exactly when it is all white space. */
  lemma TrimEmptyIff(s: string)
    ensures Trim(s) == "" <==> AllWhitespace(s)
  {
  }

  /** The registration body; `None` is a field the request does not carry. */
  datatype RegistrationForm = RegistrationForm(username: Option<string>, fullname: Option<string>,
                                               password: Option<string>, email: Option<string>)

  /** `field?.trim() === ""`: only a present field can be blank. */
  predicate Blank(field: Option<string>)
  {
    field.Some? && Trim(field.value) == ""
  }

  lemma BlankIff(field: Option<string>)
    ensures Blank(field) <==> field.Some? && AllWhitespace(field.value)
  {
    if field.Some? {
      TrimEmptyIff(field.value);
    }
  }

  const AllFieldsRequired: ApiError := ApiError(400, "All fields are required!!")

  /**
   * The validation of `registerUser`, `.some(field => field?.trim() === "")`
   * over username, fullname, password and email: rejected exactly when a
   * present field consists of white space only; absent fields pass.
   */
  function ValidateRegistration(form: RegistrationForm): (r: Result<(), ApiError>)
    ensures r.Failure? <==>
              (form.username.Some? && AllWhitespace(form.username.value)) ||
              (form.fullname.Some? && AllWhitespace(form.fullname.value)) ||
              (form.password.Some? && AllWhitespace(form.password.value)) ||
              (form.email.Some? && AllWhitespace(form.email.value))
    ensures r.Failure? ==> r.error == AllFieldsRequired
  {
    BlankIff(form.username);
    BlankIff(form.fullname);
    BlankIff(form.password);
    BlankIff(form.email);
    if Blank(form.username) || Blank(form.fullname) || Blank(form.password) || Blank(form.email) then
      Failure(AllFieldsRequired)
    else
      Success(())
  }

  /** `toLowerCase` on the ASCII letters; other characters are kept. */
  function LowerChar(c: char): (d: char)
    ensures 'A' <= c <= 'Z' ==> d as int == c as int + 32
    ensures !('A' <= c <= 'Z') ==> d == c
  {
    if 'A' <= c <= 'Z' then (c as int + 32) as char else c
  }

  function ToLower(s: string): (r: string)
    ensures |r| == |s|
    ensures forall i :: 0 <= i < |s| ==> r[i] == LowerChar(s[i])
  {
    if s == [] then [] else [LowerChar(s[0])] + ToLower(s[1..])
  }

  /** The lower-cased form holds no upper-case ASCII letter, and lower-casing it again changes nothing. */
  lemma ToLowerNormalizes(s: string)
    ensures forall i :: 0 <= i < |s| ==> !('A' <= ToLower(s)[i] <= 'Z')
    ensures ToLower(ToLower(s)) == ToLower(s)
  {
  }

  /** The user document `User.create` receives. */
  datatype UserRecord = UserRecord(username: string, fullname: Option<string>, password: Option<string>,
                                   email: Option<string>, avatar: string, coverImage: string)

  const UserExists: ApiError := ApiError(409, "user already existed")
  const AvatarMissing: ApiError := ApiError(400, "Avatar file is required!")
  const AvatarUploadFailed: ApiError := ApiError(400, "Avatar file is required!!")

  /** What `username.toLowerCase()` throws when the body has no username. */
  const UsernameUndefined: ApiError := ApiError(500, "Cannot read properties of undefined (reading 'toLowerCase')")

  /**
   * `registerUser` up to `User.create`. The lookup of an existing user and
   * the uploads are outside the model: `userExists`, `avatarLocalPath` and the
   * uploaded URLs are their outcomes.
   */
  function RegisterUser(form: RegistrationForm, userExists: bool, avatarLocalPath: Option<string>,
                        avatarUrl: Option<string>, coverImageUrl: Option<string>): (r: Result<UserRecord, ApiError>)
    ensures ValidateRegistration(form).Failure? ==> r == Failure(AllFieldsRequired)
    ensures ValidateRegistration(form).Success? && userExists ==> r == Failure(UserExists)
    ensures (ValidateRegistration(form).Success? && !userExists && !Falsy(avatarLocalPath) &&
             avatarUrl.Some? && form.username.Some?) ==> r.Success?
    ensures r.Success? ==>
              && form.username.Some? && !userExists && !Falsy(avatarLocalPath) && avatarUrl.Some?
              && r.value.username == ToLower(form.username.value)
              && r.value.fullname == form.fullname && r.value.password == form.password
              && r.value.email == form.email && r.value.avatar == avatarUrl.value
              && (coverImageUrl.Some? ==> r.value.coverImage == coverImageUrl.value)
              && (coverImageUrl.None? ==> r.value.coverImage == "")
  {
    if ValidateRegistration(form).Failure? then Failure(AllFieldsRequired)
    else if userExists then Failure(UserExists)
    else if Falsy(avatarLocalPath) then Failure(AvatarMissing)
    else if avatarUrl.None? then Failure(AvatarUploadFailed)
    else if form.username.None? then Failure(UsernameUndefined)
    else Success(UserRecord(ToLower(form.username.value), form.fullname, form.password, form.email,
                            avatarUrl.value, match coverImageUrl case Some(u) => u case None => ""))
  }

  const UsernameOrEmailRequired: ApiError := ApiError(400, "username or email are required!")

  /** The first check of `loginUser`: it needs a username or an email. */
  function CheckLogin(username: Option<string>, email: Option<string>): (r: Result<(), ApiError>)
    ensures r.Failure? <==> (username.None? || username.value == "") && (email.None? || email.value == "")
    ensures r.Failure? ==> r.error == UsernameOrEmailRequired
  {
    if Falsy(username) && Falsy(email) then Failure(UsernameOrEmailRequired) else Success(())
  }
}
