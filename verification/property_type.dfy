/** The property categories the path scheme names: each category is one
    constant of Helix's `PropertyType` enum, and its path segment is the
    constant's name, which is what `toString()` renders. Only the constants
    the path helpers use are listed. */
module PropertyTypes {
  import opened Wrappers
  import opened JavaStrings

  datatype PropertyType =
    | Instances
    | IdealStates
    | LiveInstances
    | ExternalView
    | StateModelDefs
    | Messages
    | CurrentStates
    | Errors
    | StatusUpdates
    | HealthReport
    | PersistentStats
    | Alerts
    | AlertStatus
    | Controller

  /** The segment a category contributes to a path: never empty, never more
      than one segment. */
  function Token(t: PropertyType): (r: string)
    ensures r != "" && SlashFree(r)
  {
    match t
    case Instances => "INSTANCES"
    case IdealStates => "IDEALSTATES"
    case LiveInstances => "LIVEINSTANCES"
    case ExternalView => "EXTERNALVIEW"
    case StateModelDefs => "STATEMODELDEFS"
    case Messages => "MESSAGES"
    case CurrentStates => "CURRENTSTATES"
    case Errors => "ERRORS"
    case StatusUpdates => "STATUSUPDATES"
    case HealthReport => "HEALTHREPORT"
    case PersistentStats => "PERSISTENTSTATS"
    case Alerts => "ALERTS"
    case AlertStatus => "ALERT_STATUS"
    case Controller => "CONTROLLER"
  }

  /** Reads a segment back as a category, if it is one: `Enum.valueOf`
      without the exception. */
  function ParseToken(s: string): (r: Option<PropertyType>)
    ensures r.Some? ==> Token(r.value) == s
  {
    if s == "INSTANCES" then Some(Instances)
    else if s == "IDEALSTATES" then Some(IdealStates)
    else if s == "LIVEINSTANCES" then Some(LiveInstances)
    else if s == "EXTERNALVIEW" then Some(ExternalView)
    else if s == "STATEMODELDEFS" then Some(StateModelDefs)
    else if s == "MESSAGES" then Some(Messages)
    else if s == "CURRENTSTATES" then Some(CurrentStates)
    else if s == "ERRORS" then Some(Errors)
    else if s == "STATUSUPDATES" then Some(StatusUpdates)
    else if s == "HEALTHREPORT" then Some(HealthReport)
    else if s == "PERSISTENTSTATS" then Some(PersistentStats)
    else if s == "ALERTS" then Some(Alerts)
    else if s == "ALERT_STATUS" then Some(AlertStatus)
    else if s == "CONTROLLER" then Some(Controller)
    else None
  }

  /** Every category's segment reads back as that category. */
  lemma TokenRoundTrip(t: PropertyType)
    ensures ParseToken(Token(t)) == Some(t)
  {
  }

  /** Distinct categories contribute distinct segments. */
  lemma TokenInjective(a: PropertyType, b: PropertyType)
    ensures Token(a) == Token(b) <==> a == b
  {
    TokenRoundTrip(a);
    TokenRoundTrip(b);
  }
}
