/**
 * The seven day names a stored course may carry (the `days` enumeration of
 * the course schema). Day strings are compared case-sensitively.
 */
module Weekdays {
  import opened Wrappers

  datatype Weekday = Monday | Tuesday | Wednesday | Thursday | Friday | Saturday | Sunday

  function Name(w: Weekday): string
  {
    match w
    case Monday => "Monday"
    case Tuesday => "Tuesday"
    case Wednesday => "Wednesday"
    case Thursday => "Thursday"
    case Friday => "Friday"
    case Saturday => "Saturday"
    case Sunday => "Sunday"
  }

  /** Recognises exactly the seven canonical names and gives back their day. */
  function Parse(s: string): (r: Option<Weekday>)
    ensures r.Some? ==> Name(r.value) == s
  {
    if s == "Monday" then Some(Monday)
    else if s == "Tuesday" then Some(Tuesday)
    else if s == "Wednesday" then Some(Wednesday)
    else if s == "Thursday" then Some(Thursday)
    else if s == "Friday" then Some(Friday)
    else if s == "Saturday" then Some(Saturday)
    else if s == "Sunday" then Some(Sunday)
    else None
  }

  /** The schema enumeration, in its declared order. */
  const SchemaDayNames: seq<string> :=
    ["Monday", "Tuesday", "Wednesday", "Thursday", "Friday", "Saturday", "Sunday"]

  /** Every day has a name that parses back to it, and the names are the schema's. */
  lemma ParseName(w: Weekday)
    ensures Parse(Name(w)) == Some(w)
    ensures Name(w) in SchemaDayNames
  {
  }

  /** A string is a valid day exactly when the schema enumeration lists it. */
  lemma ParseSchema(s: string)
    ensures Parse(s).Some? <==> s in SchemaDayNames
  {
  }
}
