/** The two sign-in pages: registration of the first administrator and
    login. Each submit clears the error and disables the button, checks the
    form in order, and either shows the first failed check's message or
    sends the request; a failed request shows the server's message and
    enables the button again. */
module SignIn {
  import opened Common

  /** What a submit decides before any request: go on, or the message
      shown. */
  datatype Check = Pass | Fail(msg: string)

  /** The register form's checks: every field filled in, then a password of
      six characters at least. An empty password fails the first check. */
  function RegisterCheck(name: string, email: string, password: string): (c: Check)
    ensures c.Pass? <==> name != "" && email != "" && |password| >= 6
    ensures name == "" || email == "" || password == "" ==> c == Fail("Please fill in all fields")
    ensures name != "" && email != "" && 0 < |password| < 6 ==> c == Fail("Password must be at least 6 characters")
  {
    if name == "" || email == "" || password == "" then Fail("Please fill in all fields")
    else if |password| < 6 then Fail("Password must be at least 6 characters")
    else Pass
  }

  /** The login form's check: both fields filled in. */
  function LoginCheck(email: string, password: string): (c: Check)
    ensures c.Pass? <==> email != "" && password != ""
    ensures c.Fail? ==> c.msg == "Please fill in all fields"
  {
    if email == "" || password == "" then Fail("Please fill in all fields") else Pass
  }

  /** The arguments of `register`, and of `login`. */
  datatype Registration = Registration(name: string, email: string, password: string, role: string)
  datatype Credentials = Credentials(email: string, password: string)

  /** The inputs of the register form; the role input is hidden. */
  datatype RegisterInput = NameInput | EmailInput | PasswordInput | RoleInput

  class RegisterPage {
    var name: string
    var email: string
    var password: string
    var role: string
    var error: string
    var isSubmitting: bool

    /** An empty form whose role is SuperAdmin. */
    constructor ()
      ensures name == "" && email == "" && password == "" && role == "SuperAdmin"
      ensures error == "" && !isSubmitting
    {
      name, email, password, role := "", "", "", "SuperAdmin";
      error, isSubmitting := "", false;
    }

    /** `onChange`: the named input takes the typed value. */
    method Change(input: RegisterInput, value: string)
      modifies this
      ensures name == (if input == NameInput then value else old(name))
      ensures email == (if input == EmailInput then value else old(email))
      ensures password == (if input == PasswordInput then value else old(password))
      ensures role == (if input == RoleInput then value else old(role))
      ensures error == old(error) && isSubmitting == old(isSubmitting)
    {
      match input {
        case NameInput => name := value;
        case EmailInput => email := value;
        case PasswordInput => password := value;
        case RoleInput => role := value;
      }
    }

    /** `onSubmit` up to the request: `request` is the call to `register`,
      made only when both checks pass, with the role as it stands. */
    method Submit() returns (request: Option<Registration>)
      modifies this
      ensures name == old(name) && email == old(email) && password == old(password) && role == old(role)
      ensures RegisterCheck(name, email, password).Pass? ==>
        request == Some(Registration(name, email, password, role)) && error == "" && isSubmitting
      ensures RegisterCheck(name, email, password).Fail? ==>
        request == None && error == RegisterCheck(name, email, password).msg && !isSubmitting
    {
      error := "";
      isSubmitting := true;
      if name == "" || email == "" || password == "" {
        error := "Please fill in all fields";
        isSubmitting := false;
        return None;
      }
      if |password| < 6 {
        error := "Password must be at least 6 characters";
        isSubmitting := false;
        return None;
      }
      request := Some(Registration(name, email, password, role));
    }

    /** The rest of `onSubmit` once `register` has answered: on success the
      page moves to the dashboard (`navigate`), otherwise it shows `msg`. */
    method Finish(success: bool, msg: string) returns (navigate: bool)
      modifies this
      ensures navigate == success
      ensures success ==> error == old(error) && isSubmitting == old(isSubmitting)
      ensures !success ==> error == msg && !isSubmitting
      ensures name == old(name) && email == old(email) && password == old(password) && role == old(role)
    {
      if success {
        return true;
      }
      error := msg;
      isSubmitting := false;
      navigate := false;
    }
  }

  /** The inputs of the login form. */
  datatype LoginInput = LoginEmail | LoginPassword

  class LoginPage {
    var email: string
    var password: string
    var error: string
    var isSubmitting: bool

    constructor ()
      ensures email == "" && password == "" && error == "" && !isSubmitting
    {
      email, password := "", "";
      error, isSubmitting := "", false;
    }

    method Change(input: LoginInput, value: string)
      modifies this
      ensures email == (if input == LoginEmail then value else old(email))
      ensures password == (if input == LoginPassword then value else old(password))
      ensures error == old(error) && isSubmitting == old(isSubmitting)
    {
      if input == LoginEmail {
        email := value;
      } else {
        password := value;
      }
    }

    /** `onSubmit` up to the request: `login` is called with exactly the
      two fields, and only when both are filled in. */
    method Submit() returns (request: Option<Credentials>)
      modifies this
      ensures email == old(email) && password == old(password)
      ensures LoginCheck(email, password).Pass? ==>
        request == Some(Credentials(email, password)) && error == "" && isSubmitting
      ensures LoginCheck(email, password).Fail? ==>
        request == None && error == LoginCheck(email, password).msg && !isSubmitting
    {
      error := "";
      isSubmitting := true;
      if email == "" || password == "" {
        error := "Please fill in all fields";
        isSubmitting := false;
        return None;
      }
      request := Some(Credentials(email, password));
    }

    /** The rest of `onSubmit` once `login` has answered. */
    method Finish(success: bool, msg: string) returns (navigate: bool)
      modifies this
      ensures navigate == success
      ensures success ==> error == old(error) && isSubmitting == old(isSubmitting)
      ensures !success ==> error == msg && !isSubmitting
      ensures email == old(email) && password == old(password)
    {
      if success {
        return true;
      }
      error := msg;
      isSubmitting := false;
      navigate := false;
    }
  }

  /** A failed submit followed by a passing one: the old message is gone as
      soon as the new submit starts. */
  method ResubmitClearsError() returns (first: string, second: string)
    ensures first == "Please fill in all fields" && second == ""
  {
    var page := new LoginPage();
    var r1 := page.Submit();
    first := page.error;
    page.Change(LoginEmail, "treasurer@church.org");
    page.Change(LoginPassword, "secret");
    var r2 := page.Submit();
    second := page.error;
  }
}
