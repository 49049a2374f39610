/**
 * The front end's log helper: a numeric level turned into the name the
 * back end deserialises, and the record handed to the `create_log` command.
 * The command call itself is a foreign call and is not modelled.
 */
module LogUtils {
  import opened Wrappers
  import Db

  /** `LogLevels`, a numeric enum. */
  datatype LogLevels = Info | Warning | Error

  /** The number each member stands for. */
  function Value(level: LogLevels): real
  {
    match level
    case Info => 0.0
    case Warning => 1.0
    case Error => 2.0
  }

  /**
   * `_convertLogLevel`: a `switch` on a number, so only exactly 0, 1 and 2
   * have a name. NaN and the infinities are not reals and are not modelled.
   */
  function ConvertLogLevel(level: real): (r: string)
    ensures r == "Info" <==> level == 0.0
    ensures r == "Warning" <==> level == 1.0
    ensures r == "Error" <==> level == 2.0
    ensures r == "Unknown" <==> level !in {0.0, 1.0, 2.0}
  {
    if level == 0.0 then "Info"
    else if level == 1.0 then "Warning"
    else if level == 2.0 then "Error"
    else "Unknown"
  }

  /** Every member has a name of its own. */
  lemma MembersAreKnown(level: LogLevels)
    ensures ConvertLogLevel(Value(level)) != "Unknown"
  {
  }

  lemma ConvertLogLevelInjective(a: LogLevels, b: LogLevels)
    requires ConvertLogLevel(Value(a)) == ConvertLogLevel(Value(b))
    ensures a == b
  {
  }

  /** The same level on the Rust side. */
  function ToDb(level: LogLevels): (r: Db.LogLevel)
    ensures Db.ConvertLogLevel(r) as real == Value(level)
  {
    match level
    case Info => Db.Info
    case Warning => Db.Warning
    case Error => Db.Error
  }

  /**
   * The name sent for a member is the one the Rust enum deserialises to the
   * same level; any other number's name, "Unknown", is refused.
   */
  lemma NameDeserialises(level: LogLevels)
    ensures Db.ParseVariantName(ConvertLogLevel(Value(level))) == Some(ToDb(level))
  {
  }

  lemma UnknownRefused(level: real)
    requires level !in {0.0, 1.0, 2.0}
    ensures Db.ParseVariantName(ConvertLogLevel(level)) == None
  {
  }

  /** `Log`, with `null` written `None`. */
  datatype Log = Log(userId: string, logLevel: string, message: string, source: Option<string>)

  /**
   * The record `log` builds; a caller that leaves `source` out passes `None`
   * (the default `null`).
   */
  function MakeLog(userId: string, logLevel: LogLevels, message: string, source: Option<string>): (r: Log)
    ensures r.userId == userId && r.message == message && r.source == source
    ensures Db.ParseVariantName(r.logLevel) == Some(ToDb(logLevel))
  {
    NameDeserialises(logLevel);
    Log(userId, ConvertLogLevel(Value(logLevel)), message, source)
  }
}
