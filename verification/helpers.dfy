/** The frontend's display helpers: badge colours for statuses and
    difficulties, and the empty-input guard in front of the date formatters. */
module Helpers {
  import opened Models

  const Green := "bg-green-100 text-green-800"
  const Yellow := "bg-yellow-100 text-yellow-800"
  const Red := "bg-red-100 text-red-800"
  const Blue := "bg-blue-100 text-blue-800"
  const Gray := "bg-gray-100 text-gray-800"

  /** The object literal of getStatusColor. */
  const StatusColors: map<string, string> := map[
    "Active" := Green, "Suspended" := Yellow, "Expired" := Red,
    "Confirmed" := Blue, "Cancelled" := Gray,
    "Completed" := Green, "Pending" := Yellow, "Failed" := Red]

  /** The object literal of getDifficultyColor. */
  const DifficultyColors: map<string, string> := map[
    "Beginner" := Green, "Intermediate" := Yellow, "Advanced" := Red]

  /** `colors[key] || fallback`: every listed colour is a non-empty string,
      so the fallback applies exactly to keys the literal does not list. */
  function Lookup(colors: map<string, string>, key: string): (r: string)
    ensures key in colors && colors[key] != "" ==> r == colors[key]
    ensures key !in colors ==> r == Gray
  {
    if key in colors && colors[key] != "" then colors[key] else Gray
  }

  /** getStatusColor: total on strings. */
  function GetStatusColor(status: string): (r: string)
    ensures r in {Green, Yellow, Red, Blue, Gray}
    ensures r == Green <==> status == "Active" || status == "Completed"
    ensures r == Yellow <==> status == "Suspended" || status == "Pending"
    ensures r == Red <==> status == "Expired" || status == "Failed"
    ensures r == Blue <==> status == "Confirmed"
    ensures r == Gray <==> status !in {"Active", "Suspended", "Expired", "Confirmed", "Completed", "Pending", "Failed"}
  {
    Lookup(StatusColors, status)
  }

  /** getDifficultyColor: total on strings. */
  function GetDifficultyColor(difficulty: string): (r: string)
    ensures r == Green <==> difficulty == "Beginner"
    ensures r == Yellow <==> difficulty == "Intermediate"
    ensures r == Red <==> difficulty == "Advanced"
    ensures r == Gray <==> difficulty !in {"Beginner", "Intermediate", "Advanced"}
  {
    Lookup(DifficultyColors, difficulty)
  }

  /** Member statuses: green, yellow, red in schema order. */
  lemma MemberStatusColor(ms: MemberStatus)
    ensures GetStatusColor(MemberStatusName(ms)) == match ms case Active => Green case Suspended => Yellow case Expired => Red
  {
    match ms {
      case Active => assert MemberStatusName(ms) == "Active";
      case Suspended => assert MemberStatusName(ms) == "Suspended";
      case Expired => assert MemberStatusName(ms) == "Expired";
    }
  }

  /** Payment statuses: green, yellow, red in schema order. */
  lemma PaymentStatusColor(ps: PaymentStatus)
    ensures GetStatusColor(PaymentStatusName(ps)) == match ps case Completed => Green case Pending => Yellow case Failed => Red
  {
    match ps {
      case Completed => assert PaymentStatusName(ps) == "Completed";
      case Pending => assert PaymentStatusName(ps) == "Pending";
      case Failed => assert PaymentStatusName(ps) == "Failed";
    }
  }

  /** Booking statuses: Confirmed blue, Completed green, and Cancelled
      gray, the same colour as the fallback for unknown statuses. */
  lemma BookingStatusColor(bs: BookingStatus)
    ensures GetStatusColor(BookingStatusName(bs)) == match bs case Confirmed => Blue case Cancelled => Gray case Completed => Green
  {
    match bs {
      case Confirmed => assert BookingStatusName(bs) == "Confirmed";
      case Cancelled => assert BookingStatusName(bs) == "Cancelled";
      case Completed => assert BookingStatusName(bs) == "Completed";
    }
  }

  /** Each difficulty the class schema allows has a colour of its own. */
  lemma DifficultyColorsDistinct(a: Difficulty, b: Difficulty)
    ensures GetDifficultyColor(DifficultyName(a)) != Gray
    ensures GetDifficultyColor(DifficultyName(a)) == GetDifficultyColor(DifficultyName(b)) <==> a == b
  {
  }

  /** What a caller may pass as a date: nothing (undefined or null), a
      string, or a number of milliseconds. */
  datatype DateArg = Missing | Text(s: string) | Millis(ms: int)

  /** JavaScript falsiness for those values. */
  predicate Falsy(d: DateArg) {
    d.Missing? || d == Text("") || d == Millis(0)
  }

  const DatePattern := "MMM dd, yyyy"
  const DateTimePattern := "MMM dd, yyyy hh:mm a"

  /** formatDate: '' for a falsy argument; otherwise the date library's
      formatting, here the parameter `format`. */
  function FormatDate(date: DateArg, format: (DateArg, string) -> string): (r: string)
  {
    if Falsy(date) then "" else format(date, DatePattern)
  }

  /** formatDateTime: the same guard with the date-and-time pattern. */
  function FormatDateTime(date: DateArg, format: (DateArg, string) -> string): (r: string)
  {
    if Falsy(date) then "" else format(date, DateTimePattern)
  }

  /** The guard never consults the formatter: on a falsy argument both
      helpers give '' whatever the formatter does. */
  lemma FalsyIgnoresFormatter(date: DateArg, f: (DateArg, string) -> string, g: (DateArg, string) -> string)
    requires Falsy(date)
    ensures FormatDate(date, f) == FormatDate(date, g) == ""
    ensures FormatDateTime(date, f) == FormatDateTime(date, g) == ""
  {
  }
}
