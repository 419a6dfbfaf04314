/** The login form of pages/LoginPage.tsx: where a role lands, the check of
    the typed credentials, and what `submit` does with the server's reply. */
module Login {
  import opened Wrappers
  import Text
  import Roles

  /** `firstPathByRole`: the landing page for the role named in a login
      reply, which may be missing or unknown. */
  function FirstPathByRole(role: Option<string>): (p: string)
    ensures p in {"/manager", "/hr", "/employee"}
    ensures p == "/manager" <==> role == Some("manager")
    ensures p == "/hr" <==> role == Some("hr")
  {
    if role == Some("manager") then "/manager"
    else if role == Some("hr") then "/hr"
    else "/employee"
  }

  /** For every role it agrees with `defaultPathForRole`; without a role it
      gives /employee where that gives /login. */
  lemma FirstPathAgreesWithDefault(r: Roles.Role)
    ensures FirstPathByRole(Some(Roles.RoleName(r))) == Roles.DefaultPathForRole(Some(r))
    ensures FirstPathByRole(None) == "/employee" && Roles.DefaultPathForRole(None) == "/login"
  {
  }

  /** An unknown role name lands on /employee. */
  lemma UnknownRoleLandsOnEmployee(name: string)
    requires forall r: Roles.Role :: Roles.RoleName(r) != name
    ensures FirstPathByRole(Some(name)) == "/employee"
  {
    assert Roles.RoleName(Roles.Manager) == "manager" && Roles.RoleName(Roles.Hr) == "hr";
  }

  const MissingCredentials: string := "아이디/비밀번호를 입력하세요."
  const LoginFailed: string := "로그인 실패"

  /** The fields of the reply's JSON that the form reads; `ok` is its
      truthiness. */
  datatype LoginBody = LoginBody(ok: bool, token: Option<string>, error: Option<string>, role: Option<string>)

  /** The reply to `POST /api/login`: a response whose text parsed as JSON
      (`body` is `None` when it did not), or a request that failed with an
      error message. */
  datatype LoginReply = Response(httpOk: bool, status: int, body: Option<LoginBody>) | NetworkError(message: string)

  /** A text that is not JSON is read as `{}`. */
  function Parsed(body: Option<LoginBody>): LoginBody
  {
    match body
    case Some(b) => b
    case None => LoginBody(false, None, None, None)
  }

  /** The typed credentials may be sent: a username that is not blank once
      trimmed, and a password that is not empty (it is not trimmed). */
  predicate CredentialsGiven(username: string, password: string)
  {
    Text.Trim(username) != "" && password != ""
  }

  /** The message of the error raised when the reply is not a login. */
  function ReplyError(status: int, j: LoginBody): (m: string)
    ensures m != ""
    ensures Text.Truthy(j.error) ==> m == j.error.value
    ensures !Text.Truthy(j.error) ==> m == "로그인 실패 (HTTP " + Text.IntToString(status) + ")"
  {
    if Text.Truthy(j.error) then j.error.value else "로그인 실패 (HTTP " + Text.IntToString(status) + ")"
  }

  /** `from || to`: back to the page a guard sent the user away from, else
      the role's landing page. */
  function Destination(from: Option<string>, role: Option<string>): (p: string)
    ensures p != ""
    ensures (from.Some? && p == from.value) || p in {"/manager", "/hr", "/employee"}
  {
    if Text.Truthy(from) then from.value else FirstPathByRole(role)
  }

  datatype Outcome =
    | NotSent(error: string)
    | Refused(error: string)
    | LoggedIn(token: string, to: string)

  /** What `submit` ends with once the credentials were sent: `reply` is what
      the request gave, `from` the location state's `from.pathname`. */
  function ReplyOutcome(reply: LoginReply, from: Option<string>): (o: Outcome)
    ensures !o.NotSent?
    ensures o.Refused? ==> o.error != ""
    ensures o.LoggedIn? <==>
      reply.Response? && reply.httpOk && Parsed(reply.body).ok && Text.Truthy(Parsed(reply.body).token)
    ensures o.LoggedIn? ==>
      o.token == Parsed(reply.body).token.value && o.to == Destination(from, Parsed(reply.body).role)
  {
    match reply
    case NetworkError(m) => Refused(if m != "" then m else LoginFailed)
    case Response(httpOk, status, body) =>
      var j := Parsed(body);
      if !httpOk || !j.ok || !Text.Truthy(j.token) then Refused(ReplyError(status, j))
      else LoggedIn(j.token.value, Destination(from, j.role))
  }

  /** What `submit` ends with, given the typed credentials as well. */
  function SubmitOutcome(username: string, password: string, reply: LoginReply, from: Option<string>): (o: Outcome)
    ensures o.NotSent? <==> !CredentialsGiven(username, password)
    ensures o.NotSent? ==> o.error == MissingCredentials
    ensures o.Refused? ==> o.error != ""
    ensures o.LoggedIn? <==>
      && CredentialsGiven(username, password)
      && reply.Response? && reply.httpOk && Parsed(reply.body).ok && Text.Truthy(Parsed(reply.body).token)
    ensures o.LoggedIn? ==>
      o.token == Parsed(reply.body).token.value && o.to == Destination(from, Parsed(reply.body).role)
  {
    if !CredentialsGiven(username, password) then NotSent(MissingCredentials)
    else ReplyOutcome(reply, from)
  }

  /** A username of one space is blank once trimmed; a word is not. */
  lemma BlankUsername()
    ensures CredentialsGiven("kim", " ") && !CredentialsGiven(" ", "pw")
  {
    assert Text.Trim("kim") == "kim" by {
      assert !Text.IsJsSpace('k') && !Text.IsJsSpace('m');
    }
    assert Text.Trim(" ") == "" by {
      assert " "[1..] == "";
    }
  }

  /** A password of spaces is sent as it is; a username of spaces is not. */
  lemma PasswordNotTrimmed(reply: LoginReply, from: Option<string>)
    ensures !SubmitOutcome("kim", " ", reply, from).NotSent?
    ensures SubmitOutcome(" ", "pw", reply, from).NotSent?
  {
    BlankUsername();
  }

  /** A reply that is not JSON never logs in, and its error names the HTTP
      status. */
  lemma HtmlReplyFails(username: string, password: string, httpOk: bool, status: int, from: Option<string>)
    requires CredentialsGiven(username, password)
    ensures SubmitOutcome(username, password, Response(httpOk, status, None), from)
      == Refused("로그인 실패 (HTTP " + Text.IntToString(status) + ")")
  {
  }

  class LoginForm {
    var username: string
    var password: string
    var error: Option<string>
    var busy: bool
    /** The bodies posted to /api/login: username and password. */
    var sent: seq<(string, string)>
    /** The token handed to the authentication context's `login`, if any. */
    var loggedInWith: Option<string>
    /** Where the form navigated to, if anywhere. */
    var navigatedTo: Option<string>

    constructor()
      ensures username == "" && password == "" && error.None? && !busy
      ensures sent == [] && loggedInWith.None? && navigatedTo.None?
    {
      username := "";
      password := "";
      error := None;
      busy := false;
      sent := [];
      loggedInWith := None;
      navigatedTo := None;
    }

    /** `submit`. */
    method Submit(reply: LoginReply, from: Option<string>)
      modifies this
      ensures username == old(username) && password == old(password)
      ensures SubmitOutcome(old(username), old(password), reply, from).NotSent? ==>
        && error == Some(MissingCredentials) && busy == old(busy) && sent == old(sent)
        && loggedInWith == old(loggedInWith) && navigatedTo == old(navigatedTo)
      ensures !SubmitOutcome(old(username), old(password), reply, from).NotSent? ==>
        !busy && sent == old(sent) + [(Text.Trim(old(username)), old(password))]
      ensures SubmitOutcome(old(username), old(password), reply, from).Refused? ==>
        && error == Some(SubmitOutcome(old(username), old(password), reply, from).error)
        && loggedInWith == old(loggedInWith) && navigatedTo == old(navigatedTo)
      ensures SubmitOutcome(old(username), old(password), reply, from).LoggedIn? ==>
        && error.None?
        && loggedInWith == Some(SubmitOutcome(old(username), old(password), reply, from).token)
        && navigatedTo == Some(SubmitOutcome(old(username), old(password), reply, from).to)
    {
      var user := Text.Trim(username);
      error := None;
      if user == "" || password == "" {
        error := Some(MissingCredentials);
        return;
      }
      busy := true;
      sent := sent + [(user, password)];
      HandleReply(reply, from);
      busy := false;
    }

    /** The `try` block of `submit` after the request was sent. */
    method HandleReply(reply: LoginReply, from: Option<string>)
      requires error.None?
      modifies this
      ensures username == old(username) && password == old(password)
      ensures busy == old(busy) && sent == old(sent)
      ensures ReplyOutcome(reply, from).Refused? ==>
        && error == Some(ReplyOutcome(reply, from).error)
        && loggedInWith == old(loggedInWith) && navigatedTo == old(navigatedTo)
      ensures ReplyOutcome(reply, from).LoggedIn? ==>
        && error.None?
        && loggedInWith == Some(ReplyOutcome(reply, from).token)
        && navigatedTo == Some(ReplyOutcome(reply, from).to)
    {
      match reply {
        case NetworkError(m) =>
          error := Some(if m != "" then m else LoginFailed);
        case Response(httpOk, status, body) =>
          var j := Parsed(body);
          if !httpOk || !j.ok || !Text.Truthy(j.token) {
            error := Some(ReplyError(status, j));
          } else {
            loggedInWith := Some(j.token.value);
            var to := FirstPathByRole(j.role);
            navigatedTo := Some(if Text.Truthy(from) then from.value else to);
          }
      }
    }
  }
}
