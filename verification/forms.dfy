/**
 The registration and login forms and their field validators, as pure
 predicates. `DataRequired`, `Length` and `EqualTo` follow the WTForms
 validators of those names: DataRequired rejects a value that is empty or made
 only of whitespace (what Python's `str.strip` removes), Length bounds the
 number of characters, EqualTo compares with another field.
 */
module Forms {
  import opened Models

  const UsernameMinLength: nat := 4
  const UsernameMaxLength: nat := 25
  const PasswordMinLength: nat := 6

  /** The characters Python's `str.strip()` removes. */
  predicate IsWhitespace(c: char)
  {
    var n := c as int;
    || 0x09 <= n <= 0x0D
    || 0x1C <= n <= 0x20
    || n == 0x85 || n == 0xA0 || n == 0x1680
    || 0x2000 <= n <= 0x200A
    || n == 0x2028 || n == 0x2029 || n == 0x202F || n == 0x205F || n == 0x3000
  }

  predicate Blank(s: string)
  {
    forall i :: 0 <= i < |s| ==> IsWhitespace(s[i])
  }

  /** WTForms `DataRequired()`. */
  predicate DataRequired(s: string)
    ensures DataRequired(s) ==> |s| > 0
  {
    !Blank(s)
  }

  datatype RegistrationForm = RegistrationForm(username: string, password: string, confirmPassword: string)
  datatype RegistrationField = UsernameField | PasswordField | ConfirmPasswordField

  datatype LoginForm = LoginForm(username: string, password: string)
  datatype LoginField = LoginUsernameField | LoginPasswordField

  /** `validate_username`: no user row carries this name yet. */
  predicate UsernameAvailable(users: UserTable, name: string)
    ensures UsernameAvailable(users, name) <==> !HasUsername(users, name)
  {
    FindByUsername(users, name).None?
  }

  /** The fields of a submitted registration form that fail their validators. */
  function RegistrationErrors(form: RegistrationForm, users: UserTable): (errs: set<RegistrationField>)
    ensures UsernameField !in errs <==>
              && UsernameMinLength <= |form.username| <= UsernameMaxLength
              && !Blank(form.username)
              && !HasUsername(users, form.username)
    ensures PasswordField !in errs <==> |form.password| >= PasswordMinLength && !Blank(form.password)
    ensures ConfirmPasswordField !in errs <==> form.confirmPassword == form.password && !Blank(form.confirmPassword)
  {
    var usernameOk := DataRequired(form.username)
                      && UsernameMinLength <= |form.username| <= UsernameMaxLength
                      && UsernameAvailable(users, form.username);
    var passwordOk := DataRequired(form.password) && |form.password| >= PasswordMinLength;
    var confirmOk := DataRequired(form.confirmPassword) && form.confirmPassword == form.password;
    (if usernameOk then {} else {UsernameField})
    + (if passwordOk then {} else {PasswordField})
    + (if confirmOk then {} else {ConfirmPasswordField})
  }

  predicate RegistrationValid(form: RegistrationForm, users: UserTable)
  {
    RegistrationErrors(form, users) == {}
  }

  /** The fields of a submitted login form that fail their validators. */
  function LoginErrors(form: LoginForm): (errs: set<LoginField>)
    ensures LoginUsernameField !in errs <==>
              UsernameMinLength <= |form.username| <= UsernameMaxLength && !Blank(form.username)
    ensures LoginPasswordField !in errs <==> !Blank(form.password)
  {
    var usernameOk := DataRequired(form.username)
                      && UsernameMinLength <= |form.username| <= UsernameMaxLength;
    var passwordOk := DataRequired(form.password);
    (if usernameOk then {} else {LoginUsernameField})
    + (if passwordOk then {} else {LoginPasswordField})
  }

  predicate LoginValid(form: LoginForm)
  {
    LoginErrors(form) == {}
  }

  /** An accepted registration satisfies every field constraint, and the name is new. */
  lemma RegistrationAcceptedOnlyIf(form: RegistrationForm, users: UserTable)
    requires RegistrationValid(form, users)
    ensures 4 <= |form.username| <= 25 && form.username != []
    ensures 6 <= |form.password| && form.password != []
    ensures form.confirmPassword == form.password
    ensures !HasUsername(users, form.username)
  {
  }

  /** A name that is already taken is always rejected, whatever else is submitted. */
  lemma TakenUsernameRejected(form: RegistrationForm, users: UserTable, u: User)
    requires u in users && u.username == form.username
    ensures UsernameField in RegistrationErrors(form, users)
    ensures !RegistrationValid(form, users)
  {
  }

  /** An accepted login form has a username of 4 to 25 characters and a non-empty password. */
  lemma LoginAcceptedOnlyIf(form: LoginForm)
    requires LoginValid(form)
    ensures 4 <= |form.username| <= 25
    ensures form.password != []
  {
  }

  /** A registration that passes validation also passes the login form's validation
      with the same credentials: the login form's constraints are weaker. */
  lemma RegisteredCredentialsPassLoginForm(form: RegistrationForm, users: UserTable)
    requires RegistrationValid(form, users)
    ensures LoginValid(LoginForm(form.username, form.password))
  {
  }
}
