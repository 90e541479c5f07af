/**
 * The fixed command table that the RobotMqtt constructor registers with the host:
 * seven zero-argument commands, each bound to one canned payload that is published
 * on invocation.
 */
module Commands {
  import opened Wrappers

  datatype Command = GoForward | GoBack | TurnLeft | TurnRight | Dance | Catch | Release

  /** The name under which the command is registered with the host. */
  function Name(c: Command): (r: string)
    ensures r != []
  {
    match c
    case GoForward => "GoForward"
    case GoBack => "GoBack"
    case TurnLeft => "TurnLeft"
    case TurnRight => "TurnRight"
    case Dance => "Dance"
    case Catch => "Catch"
    case Release => "Release"
  }

  /** The payload the command's handler hands to SendMqttMessage; it holds no NUL, so c_str() carries all of it. */
  function Payload(c: Command): (p: string)
    ensures p != [] && '\0' !in p
  {
    match c
    case GoForward => "前进"
    case GoBack => "后退"
    case TurnLeft => "左转"
    case TurnRight => "右转"
    case Dance => "跳舞"
    case Catch => "抓起"
    case Release => "释放"
  }

  /** Resolution of a registered name, as the host's method table does it. */
  function Lookup(name: string): (r: Option<Command>)
    ensures r.Some? ==> Name(r.value) == name
    ensures r.None? ==> forall c: Command :: Name(c) != name
  {
    if name == "GoForward" then Some(GoForward)
    else if name == "GoBack" then Some(GoBack)
    else if name == "TurnLeft" then Some(TurnLeft)
    else if name == "TurnRight" then Some(TurnRight)
    else if name == "Dance" then Some(Dance)
    else if name == "Catch" then Some(Catch)
    else if name == "Release" then Some(Release)
    else None
  }

  /** Every registered name resolves back to its own command. */
  lemma LookupName(c: Command)
    ensures Lookup(Name(c)) == Some(c)
  {
  }

  /** No two commands share a payload, and no payload is empty. */
  lemma PayloadsDistinct(c: Command, d: Command)
    ensures Payload(c) == Payload(d) <==> c == d
    ensures Payload(c) != []
  {
  }
}
