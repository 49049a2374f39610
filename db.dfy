/**
 * The backend client's pure parts: which server it talks to, the JSON bodies
 * it posts for users and logs, the numeric log levels, and when a failed
 * user creation is reported as a log. The requests themselves are network
 * I/O: a response arrives as a parameter.
 */
module Db {
  import opened Wrappers
  import opened Json

  const ProdDomain: string := "https://magnusbackend.azurewebsites.net"
  const LocalDomain: string := "http://localhost:3000"

  /**
   * `DOMAIN`, from the environment value `IS_PROD`; `None` stands for a
   * variable that is unset or not valid Unicode (`env::var` fails).
   */
  function Domain(isProd: Option<string>): (r: string)
    ensures r == ProdDomain <==> isProd == Some("true")
    ensures r == LocalDomain <==> isProd.Some? && isProd.value != "true"
    ensures r == "" <==> isProd.None?
  {
    match isProd
    case None => ""
    case Some(value) => if value == "true" then ProdDomain else LocalDomain
  }

  /** `User`: the id, name and e-mail of an account. */
  datatype User = User(userId: string, username: string, email: string)

  /** The body `add_user` posts: the name and the e-mail, and not the id. */
  function UserPayload(user: User): (r: Json)
    ensures r.Object? && r.fields.Keys == {"username", "email"}
    ensures r.fields["username"] == Str(user.username) && r.fields["email"] == Str(user.email)
  {
    Object(map["username" := Str(user.username), "email" := Str(user.email)])
  }

  /** Two users differing only in their id post the same body. */
  lemma UserPayloadIgnoresId(a: User, b: User)
    requires a.username == b.username && a.email == b.email
    ensures UserPayload(a) == UserPayload(b)
  {
  }

  /** The name and the e-mail can be read back from the body. */
  lemma UserPayloadRoundTrip(user: User)
    ensures Index(UserPayload(user), "username") == Str(user.username)
    ensures Index(UserPayload(user), "email") == Str(user.email)
    ensures Index(UserPayload(user), "userId") == Null
  {
  }

  /** `LogLevels`, with the discriminants the declaration gives them. */
  datatype LogLevel = Info | Warning | Error

  /** The discriminant declared for each variant. */
  function Discriminant(level: LogLevel): (r: int)
    ensures 0 <= r <= 2
    ensures r == 0 <==> level.Info?
    ensures r == 2 <==> level.Error?
  {
    match level
    case Info => 0
    case Warning => 1
    case Error => 2
  }

  /** `Log::convert_log_level`: the level as the integer the backend stores. */
  function ConvertLogLevel(level: LogLevel): (r: int)
    ensures r == Discriminant(level)
  {
    if level.Info? then 0 else if level.Warning? then 1 else 2
  }

  /** The integer from `convert_log_level` names the level it came from. */
  function LevelOfNumber(n: int): (r: Option<LogLevel>)
    ensures r.Some? <==> 0 <= n <= 2
    ensures r.Some? ==> ConvertLogLevel(r.value) == n
  {
    if n == 0 then Some(Info) else if n == 1 then Some(Warning) else if n == 2 then Some(Error) else None
  }

  /** Distinct levels are stored as distinct integers. */
  lemma ConvertLogLevelRoundTrip(level: LogLevel)
    ensures LevelOfNumber(ConvertLogLevel(level)) == Some(level)
  {
  }

  /** The name serde writes and reads for a variant (a derived unit-variant encoding). */
  function VariantName(level: LogLevel): string
  {
    match level
    case Info => "Info"
    case Warning => "Warning"
    case Error => "Error"
  }

  /** Deserialising a level from its name: only the three variant names are accepted. */
  function ParseVariantName(name: string): (r: Option<LogLevel>)
    ensures r.Some? <==> name in {"Info", "Warning", "Error"}
    ensures r.Some? ==> VariantName(r.value) == name
  {
    if name == "Info" then Some(Info)
    else if name == "Warning" then Some(Warning)
    else if name == "Error" then Some(Error)
    else None
  }

  lemma VariantNameRoundTrip(level: LogLevel)
    ensures ParseVariantName(VariantName(level)) == Some(level)
  {
  }

  /** `Log`: a record for the backend's log table. */
  datatype Log = Log(userId: string, logLevel: LogLevel, message: string, source: Option<string>)

  /** `Option<String>` as serde writes it: `null` or a string. */
  function OptionalString(s: Option<string>): (r: Json)
    ensures r == Null <==> s.None?
    ensures s.Some? ==> r == Str(s.value)
  {
    if s.None? then Null else Str(s.value)
  }

  /** The body `Log::log` posts: four fields, the level as its integer. */
  function LogPayload(log: Log): (r: Json)
    ensures r.Object? && r.fields.Keys == {"userId", "logLevel", "message", "source"}
    ensures r.fields["logLevel"] == Number(ConvertLogLevel(log.logLevel))
    ensures r.fields["userId"] == Str(log.userId) && r.fields["message"] == Str(log.message)
    ensures r.fields["source"] == OptionalString(log.source)
  {
    Object(map["userId" := Str(log.userId), "logLevel" := Number(ConvertLogLevel(log.logLevel)),
               "message" := Str(log.message), "source" := OptionalString(log.source)])
  }

  /** Reading a log back from a body: `None` unless every field has the expected shape. */
  function ParseLogPayload(body: Json): Option<Log>
  {
    var userId := Index(body, "userId");
    var level := Index(body, "logLevel");
    var message := Index(body, "message");
    var source := Index(body, "source");
    if !userId.Str? || !level.Number? || !message.Str? || !(source.Null? || source.Str?) then None
    else
      var l := LevelOfNumber(level.n);
      if l.None? then None
      else Some(Log(userId.s, l.value, message.s, if source.Null? then None else Some(source.s)))
  }

  /** The body loses nothing: the log can be recovered from it. */
  lemma LogPayloadRoundTrip(log: Log)
    ensures ParseLogPayload(LogPayload(log)) == Some(log)
  {
    var body := LogPayload(log);
    assert Index(body, "logLevel") == Number(ConvertLogLevel(log.logLevel));
    ConvertLogLevelRoundTrip(log.logLevel);
  }

  /** `add_user` reports a response unless its status is 200 (created) or 409 (already exists). */
  function AddUserFailed(status: nat): (r: bool)
    ensures r <==> status !in {200, 409}
  {
    status != 200 && status != 409
  }

  /** The decimal digit `d`. */
  function Digit(d: nat): (c: char)
    requires d < 10
    ensures '0' <= c <= '9'
  {
    (48 + d) as char
  }

  /** `{}` applied to an unsigned integer: its decimal digits, most significant first. */
  function Decimal(n: nat): (r: string)
    ensures r != [] && forall k :: 0 <= k < |r| ==> '0' <= r[k] <= '9'
    decreases n
  {
    if n < 10 then [Digit(n)] else Decimal(n / 10) + [Digit(n % 10)]
  }

  /** The number a string of decimal digits denotes. */
  function DecimalValue(s: string): nat
    requires forall k :: 0 <= k < |s| ==> '0' <= s[k] <= '9'
  {
    if s == [] then 0 else 10 * DecimalValue(s[..|s| - 1]) + (s[|s| - 1] as int - 48)
  }

  /** Formatting a status in decimal loses nothing. */
  lemma {:induction false} DecimalRoundTrip(n: nat)
    ensures DecimalValue(Decimal(n)) == n
    decreases n
  {
    var s := Decimal(n);
    if n >= 10 {
      DecimalRoundTrip(n / 10);
      assert s[..|s| - 1] == Decimal(n / 10);
    }
  }

  const FailurePrefix: string := "Failed to create user. Status: "
  const FailureSeparator: string := ", Error: "

  /** A response to the user request: its status and `{:?}` of its body text. */
  datatype Response = Response(status: nat, bodyDebug: string)

  /** The log `add_user` writes for a failed response. */
  function FailureLog(authUserId: string, response: Response): (r: Log)
    ensures r.userId == authUserId && r.logLevel == Info && r.source == Some("assistant.rs")
    ensures |r.message| >= |FailurePrefix| && r.message[..|FailurePrefix|] == FailurePrefix
  {
    Log(authUserId, Info, FailurePrefix + Decimal(response.status) + FailureSeparator + response.bodyDebug,
        Some("assistant.rs"))
  }

  /** The status can be read back from the failure message: the digits right after the prefix. */
  lemma FailureLogStatus(authUserId: string, response: Response)
    ensures var m := FailureLog(authUserId, response).message;
            var d := Decimal(response.status);
            |m| > |FailurePrefix| + |d|
            && m[|FailurePrefix|..|FailurePrefix| + |d|] == d
            && m[|FailurePrefix| + |d|] == ','
            && DecimalValue(m[|FailurePrefix|..|FailurePrefix| + |d|]) == response.status
  {
    var m := FailureLog(authUserId, response).message;
    var d := Decimal(response.status);
    assert m == FailurePrefix + d + FailureSeparator + response.bodyDebug;
    assert m[|FailurePrefix|..|FailurePrefix| + |d|] == d;
    assert m[|FailurePrefix| + |d|] == FailureSeparator[0];
    DecimalRoundTrip(response.status);
  }

  /**
   * `User::add_user`, given what the request yielded (`None` when sending
   * it failed): the error is returned, nothing is logged; otherwise `Ok` is
   * returned and the logs it posted are given, whatever became of them.
   */
  function AddUser(authUserId: string, response: Option<Response>): (r: Option<seq<Log>>)
    ensures r.None? <==> response.None?
    ensures r.Some? ==> (r.value != [] <==> AddUserFailed(response.value.status))
    ensures r.Some? && r.value != [] ==> r.value == [FailureLog(authUserId, response.value)]
  {
    match response
    case None => None
    case Some(resp) => Some(if AddUserFailed(resp.status) then [FailureLog(authUserId, resp)] else [])
  }
}
