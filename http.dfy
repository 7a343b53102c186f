/** What the poller makes of the modem's HTTP replies: `get_credential` and
    `get_html` of the current poller, and `start_session` / `get_html` of
    the older script. The network is the `get` argument; only the outcome
    of each request is modelled. */
module Http {
  import opened Common
  import opened Text
  import opened Base64

  /** The outcome of one request: an exception from `requests`, or a
      response with its status, `resp.text`, and `resp.content` decoded as
      UTF-8 (None when the bytes are not valid UTF-8). */
  datatype Reply = Raised | Replied(status: int, text: string, utf8: Option<string>)

  /** `'Password:' in body`: the modem sent its login page instead. */
  predicate IsLoginPage(body: string) {
    Contains(body, "Password:")
  }

  /** `get_credential`: the auth URL is built outside the `try`, so a
      password of None or a non-ASCII character raises; a failed request,
      a status other than 200 or a login page gives None; otherwise the
      response text is the credential. */
  function Credential(url: string, username: string, password: Option<string>, get: string -> Reply): (r: Result<Option<string>>)
    ensures AuthUrl(url, username, password).Err? ==> r == Err(AuthUrl(url, username, password).fault)
    ensures AuthUrl(url, username, password).Ok? ==> r.Ok?
    ensures r.Ok? && r.value.Some? <==>
      AuthUrl(url, username, password).Ok?
      && get(AuthUrl(url, username, password).value).Replied?
      && get(AuthUrl(url, username, password).value).status == 200
      && !IsLoginPage(get(AuthUrl(url, username, password).value).text)
    ensures r.Ok? && r.value.Some? ==> r.value.value == get(AuthUrl(url, username, password).value).text
  {
    var authUrl :- AuthUrl(url, username, password);
    match get(authUrl)
    case Raised => Ok(None)
    case Replied(status, text, _) =>
      if status != 200 then Ok(None)
      else if IsLoginPage(text) then Ok(None)
      else Ok(Some(text))
  }

  /** The cookies `get_html` sends: none, or `{'credential': credential}`. */
  datatype Cookies = NoCookies | CredentialCookie(value: Option<string>)

  /** The status page of a reply: None for a failed request, a status
      other than 200, content that is not UTF-8, or a login page. */
  function StatusPage(reply: Reply): (r: Option<string>)
    ensures r.Some? <==> reply.Replied? && reply.status == 200 && reply.utf8.Some? && !IsLoginPage(reply.utf8.value)
    ensures r.Some? ==> r.value == reply.utf8.value
  {
    match reply
    case Raised => None
    case Replied(status, _, utf8) =>
      if status != 200 then None
      else match utf8
        case None => None
        case Some(body) => if IsLoginPage(body) then None else Some(body)
  }

  /** `get_html(config, credential)`: the credential cookie is sent only
      when the modem requires authentication. */
  function Html(url: string, authRequired: bool, credential: Option<string>,
                get: (string, Cookies) -> Reply): (r: Option<string>)
    ensures authRequired ==> r == StatusPage(get(url, CredentialCookie(credential)))
    ensures !authRequired ==> r == StatusPage(get(url, NoCookies))
  {
    var cookies := if authRequired then CredentialCookie(credential) else NoCookies;
    StatusPage(get(url, cookies))
  }

  /** Without authentication the credential does not reach the modem: the
      page fetched is the same whatever credential the poller holds. */
  lemma {:induction false} HtmlIgnoresCredential(url: string, c1: Option<string>, c2: Option<string>, get: (string, Cookies) -> Reply)
    ensures Html(url, false, c1, get) == Html(url, false, c2, get)
  {
  }

  /** A page fetched successfully is never the login page, and is the
      decoded body unchanged. */
  lemma {:induction false} HtmlIsStatusPage(url: string, authRequired: bool, credential: Option<string>, get: (string, Cookies) -> Reply)
    requires Html(url, authRequired, credential, get).Some?
    ensures !IsLoginPage(Html(url, authRequired, credential, get).value)
    ensures get(url, if authRequired then CredentialCookie(credential) else NoCookies).Replied?
    ensures get(url, if authRequired then CredentialCookie(credential) else NoCookies).utf8
            == Html(url, authRequired, credential, get)
  {
  }

  /** The part of a `requests` session `start_session` sets up. The cookie
      jar is a map; `auth` is the basic-auth pair. */
  class Session {
    var verify: bool
    var auth: Option<(string, string)>
    var cookies: map<string, string>

    constructor (verify: bool)
      ensures this.verify == verify && auth == None && cookies == map[]
    {
      this.verify := verify;
      auth := None;
      cookies := map[];
    }
  }

  /** The cookie jar `start_session` leaves: with authentication, the
      `credential` cookie holds the text of the reply to the auth URL,
      whatever its status; a request that raises, or an auth URL that
      cannot be built, raises out of `start_session`. */
  function SessionCookies(url: string, authRequired: bool, username: string, password: string,
                          get: string -> Reply): (r: Result<map<string, string>>)
    ensures !authRequired ==> r == Ok(map[])
    ensures authRequired && r.Ok? ==> r.value.Keys == {"credential"}
    ensures authRequired && AuthUrl(url, username, Some(password)).Ok?
            && get(AuthUrl(url, username, Some(password)).value).Replied?
            ==> r == Ok(map["credential" := get(AuthUrl(url, username, Some(password)).value).text])
  {
    if !authRequired then Ok(map[])
    else
      var authUrl :- AuthUrl(url, username, Some(password));
      match get(authUrl)
      case Raised => Err(RequestError)
      case Replied(_, text, _) => Ok(map["credential" := text])
  }

  /** `start_session(config)`: a new session; with authentication it also
      carries the basic-auth pair and the credential cookie. */
  method StartSession(url: string, verify: bool, authRequired: bool, username: string, password: string,
                      get: string -> Reply) returns (r: Result<Session>)
    ensures r.Ok? <==> SessionCookies(url, authRequired, username, password, get).Ok?
    ensures r.Err? ==> r.fault == SessionCookies(url, authRequired, username, password, get).fault
    ensures r.Ok? ==> fresh(r.value) && r.value.verify == verify
                      && r.value.cookies == SessionCookies(url, authRequired, username, password, get).value
                      && r.value.auth == (if authRequired then Some((username, password)) else None)
  {
    var session := new Session(verify);
    if authRequired {
      var authUrl := AuthUrl(url, username, Some(password));
      if authUrl.Err? {
        return Err(authUrl.fault);
      }
      session.auth := Some((username, password));
      var result := get(authUrl.value);
      if result.Raised? {
        return Err(RequestError);
      }
      session.cookies := session.cookies["credential" := result.text];
    }
    r := Ok(session);
  }

  /** The older script's `get_html(config, session)`: the session's cookies
      go with the request. */
  method ScriptHtml(url: string, session: Session, get: (string, map<string, string>) -> Reply) returns (r: Option<string>)
    ensures r == StatusPage(get(url, session.cookies))
  {
    var reply := get(url, session.cookies);
    if reply.Raised? {
      return None;
    }
    if reply.status != 200 {
      return None;
    }
    if reply.utf8.None? {
      return None;
    }
    var statusHtml := reply.utf8.value;
    if IsLoginPage(statusHtml) {
      return None;
    }
    r := Some(statusHtml);
  }

  /** The credential the script sends is the auth reply's text even when
      that reply was an error page: `start_session` checks nothing. */
  lemma {:induction false} SessionKeepsErrorReply(url: string, username: string, password: string, get: string -> Reply, status: int, text: string)
    requires AuthUrl(url, username, Some(password)).Ok?
    requires get(AuthUrl(url, username, Some(password)).value) == Replied(status, text, None)
    ensures SessionCookies(url, true, username, password, get) == Ok(map["credential" := text])
  {
  }
}
