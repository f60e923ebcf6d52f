/** The custom HTTP server's internal push endpoint: which secret it starts with, and
    how it answers a request to `/internal/socket-push`. The request body is given
    already parsed, one JSON field at a time; the socket emit and the HTTP response
    become the recorded outcome. */
module SocketPush {
  import opened Common

  const DevDefaultSecret: string := "dev-socket-secret-not-for-production"
  const PushPath: string := "/internal/socket-push"

  /** Development unless `NODE_ENV` is exactly "production". */
  predicate IsDev(nodeEnv: Option<string>) {
    nodeEnv != Some("production")
  }

  /** How the server starts: with a secret, warning when it is the development default,
      or not at all. */
  datatype Startup = Start(secret: string, warnsDefault: bool) | Abort

  /** `SOCKET_PUSH_SECRET || (dev ? default : undefined)`, then the fatal check. An
      empty environment value counts as unset. */
  function ResolveSecret(envSecret: Option<string>, nodeEnv: Option<string>): (r: Startup)
    ensures envSecret.Some? && envSecret.value != "" ==> r.Start? && r.secret == envSecret.value
    ensures (envSecret.None? || envSecret.value == "") && IsDev(nodeEnv) ==> r == Start(DevDefaultSecret, true)
    ensures (envSecret.None? || envSecret.value == "") && !IsDev(nodeEnv) ==> r == Abort
    ensures r.Start? ==> r.secret != ""
    ensures r.Start? && r.warnsDefault <==> r.Start? && IsDev(nodeEnv) && r.secret == DevDefaultSecret
  {
    var dev := IsDev(nodeEnv);
    var secret := if envSecret.Some? && envSecret.value != "" then Some(envSecret.value)
      else if dev then Some(DevDefaultSecret) else None;
    match secret
    case None => Abort
    case Some(s) => Start(s, dev && s == DevDefaultSecret)
  }

  /** A JSON field as read from the body; `Absent` is a missing key. Numbers are
      integers here. */
  datatype Field = Absent | Null | Bool(b: bool) | Num(n: int) | Str(s: string) | Arr | Obj

  /** JavaScript truthiness of a field. */
  predicate Truthy(f: Field) {
    match f
    case Absent => false
    case Null => false
    case Bool(b) => b
    case Num(n) => n != 0
    case Str(s) => s != ""
    case Arr => true
    case Obj => true
  }

  datatype Body = Unparsable | Parsed(secret: Field, userId: Field, payload: Field)

  datatype Emit = Emit(userId: Field, payload: Field)

  /** `false` for a request the endpoint does not take; otherwise the status written
      and the emit, if any. */
  datatype Outcome = NotHandled | Handled(status: int, emitted: Option<Emit>)

  /** `handleInternalPush`. */
  function HandleInternalPush(verb: string, url: Option<string>, body: Body, secret: string): (r: Outcome)
    ensures r.NotHandled? <==> verb != "POST" || url.None? || !StartsWith(url.value, PushPath)
    ensures r.Handled? ==> r.status in {200, 400, 401, 500}
    ensures r.Handled? ==> (body.Unparsable? <==> r.status == 500)
    ensures r.Handled? && body.Parsed? && body.secret != Str(secret) ==> r == Handled(401, None)
    ensures r.Handled? && body.Parsed? && body.secret == Str(secret) && !Truthy(body.userId) ==> r == Handled(400, None)
    ensures r.Handled? && body.Parsed? && body.secret == Str(secret) && !Truthy(body.payload) ==> r == Handled(400, None)
    ensures r.Handled? && r.emitted.Some? <==> r.Handled? && r.status == 200
    ensures r.Handled? && r.emitted.Some? ==>
      && body.Parsed? && body.secret == Str(secret) && Truthy(body.userId) && Truthy(body.payload)
      && r.emitted.value == Emit(body.userId, body.payload)
  {
    if verb != "POST" || url.None? || !StartsWith(url.value, PushPath) then NotHandled
    else
      match body
      case Unparsable => Handled(500, None)
      case Parsed(s, userId, payload) =>
        if s != Str(secret) then Handled(401, None)
        else if !Truthy(userId) || !Truthy(payload) then Handled(400, None)
        else Handled(200, Some(Emit(userId, payload)))
  }

  /** A push reaches the user exactly when the request is a POST to the endpoint with
      the server's secret, a user and a payload. */
  lemma EmitsExactlyWhenAuthorized(verb: string, url: Option<string>, body: Body, secret: string)
    ensures var r := HandleInternalPush(verb, url, body, secret);
      (r.Handled? && r.emitted.Some?) <==>
        && verb == "POST" && url.Some? && StartsWith(url.value, PushPath)
        && body.Parsed? && body.secret == Str(secret) && Truthy(body.userId) && Truthy(body.payload)
  {
  }

  /** Without the secret nothing is learnt about the other fields: the answer is 401
      whatever they hold. */
  lemma WrongSecretIgnoresFields(url: string, s: Field, secret: string, u1: Field, p1: Field, u2: Field, p2: Field)
    requires StartsWith(url, PushPath) && s != Str(secret)
    ensures HandleInternalPush("POST", Some(url), Parsed(s, u1, p1), secret)
      == HandleInternalPush("POST", Some(url), Parsed(s, u2, p2), secret)
      == Handled(401, None)
  {
  }

  /** A production server that starts uses the configured secret: a production server
      never falls back to the development default. */
  lemma ProductionNeverUsesDefault(envSecret: Option<string>)
    ensures var st := ResolveSecret(envSecret, Some("production"));
      st.Start? ==> envSecret == Some(st.secret) && !st.warnsDefault
  {
  }
}
