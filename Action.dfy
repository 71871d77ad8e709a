/**
 * The miner's user-facing action record (network/miner/action.py) and its
 * dictionary form. A `datetime` is an `Instant`; `datetime.now()` is the
 * `now` parameter and the ISO text form is an abstract codec `iso`/`fromIso`
 * in which `fromIso` fails (`None`) on text it cannot parse.
 */
module MinerAction {
  import opened Wrappers

  type Instant = int

  /**
   * The `details` value: `None`, a string, a plain dict, or an object that
   * has its own `to_dict` (whose result is `fields`).
   */
  datatype Details =
    | NoDetails
    | Text(text: string)
    | Fields(fields: seq<(string, string)>)
    | Convertible(fields: seq<(string, string)>)

  /** The JSON-side value under the "details" key. */
  datatype DetailsJson = JNull | JText(text: string) | JFields(fields: seq<(string, string)>)

  datatype Action = Action(id: string, kind: string, amount: real, status: string, timestamp: Instant, details: Details)

  /** The dict form; `None` is a missing key. */
  datatype ActionDict = ActionDict(
    id: string, kind: string, amount: real, status: string,
    timestamp: Option<string>, details: Option<DetailsJson>)

  /** `Action(...)`: a missing timestamp is the current time (a `datetime` is always truthy). */
  function NewAction(id: string, kind: string, amount: real, status: string, details: Details,
                     timestamp: Option<Instant>, now: Instant): (a: Action)
    ensures a.id == id && a.kind == kind && a.amount == amount && a.status == status && a.details == details
    ensures timestamp.Some? ==> a.timestamp == timestamp.value
    ensures timestamp.None? ==> a.timestamp == now
  {
    Action(id, kind, amount, status, if timestamp.Some? then timestamp.value else now, details)
  }

  /** The "details" entry of `to_dict`: an object with `to_dict` is converted, anything else is kept. */
  function DetailsToJson(d: Details): (j: DetailsJson)
    ensures d.NoDetails? <==> j.JNull?
    ensures d.Text? <==> j.JText?
  {
    match d
    case NoDetails => JNull
    case Text(s) => JText(s)
    case Fields(f) => JFields(f)
    case Convertible(f) => JFields(f)
  }

  /** `data.get("details")`: a missing key and a JSON null are both `None`. */
  function DetailsFromJson(j: Option<DetailsJson>): Details
  {
    if j.None? then NoDetails
    else match j.value
      case JNull => NoDetails
      case JText(s) => Text(s)
      case JFields(f) => Fields(f)
  }

  function ToDict(a: Action, iso: Instant -> string): (d: ActionDict)
    ensures d.id == a.id && d.kind == a.kind && d.amount == a.amount && d.status == a.status
    ensures d.timestamp == Some(iso(a.timestamp)) && d.details.Some?
  {
    ActionDict(a.id, a.kind, a.amount, a.status, Some(iso(a.timestamp)), Some(DetailsToJson(a.details)))
  }

  /** `Action.from_dict`; `None` when the timestamp text does not parse. */
  function FromDict(d: ActionDict, fromIso: string -> Option<Instant>, now: Instant): (r: Option<Action>)
    ensures d.timestamp.None? ==> r == Some(NewAction(d.id, d.kind, d.amount, d.status, DetailsFromJson(d.details), None, now))
    ensures d.timestamp.Some? ==> (r.None? <==> fromIso(d.timestamp.value).None?)
    ensures r.Some? ==> r.value.id == d.id && r.value.kind == d.kind && r.value.amount == d.amount && r.value.status == d.status
  {
    if d.timestamp.None? then
      Some(NewAction(d.id, d.kind, d.amount, d.status, DetailsFromJson(d.details), None, now))
    else
      var t := fromIso(d.timestamp.value);
      if t.None? then None
      else Some(NewAction(d.id, d.kind, d.amount, d.status, DetailsFromJson(d.details), t, now))
  }

  /** For details without their own `to_dict`, the dict form reproduces every field. */
  lemma RoundTrip(a: Action, iso: Instant -> string, fromIso: string -> Option<Instant>, now: Instant)
    requires forall t :: fromIso(iso(t)) == Some(t)
    requires !a.details.Convertible?
    ensures FromDict(ToDict(a, iso), fromIso, now) == Some(a)
  {
    assert fromIso(iso(a.timestamp)) == Some(a.timestamp);
  }

  /** An object with its own `to_dict` comes back as the plain dict it produced. */
  lemma RoundTripConvertible(a: Action, iso: Instant -> string, fromIso: string -> Option<Instant>, now: Instant)
    requires forall t :: fromIso(iso(t)) == Some(t)
    requires a.details.Convertible?
    ensures FromDict(ToDict(a, iso), fromIso, now) == Some(a.(details := Fields(a.details.fields)))
  {
    assert fromIso(iso(a.timestamp)) == Some(a.timestamp);
  }

  /** A dict without "timestamp" gives an action stamped with the current time. */
  lemma MissingTimestampIsNow(d: ActionDict, fromIso: string -> Option<Instant>, now: Instant)
    requires d.timestamp.None?
    ensures FromDict(d, fromIso, now).Some? && FromDict(d, fromIso, now).value.timestamp == now
  {
  }
}
