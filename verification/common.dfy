/** Shared vocabulary of the timetable model: the optional-value wrapper,
    wall-clock times, and the dynamically typed values that records are
    converted to and from (the keyword-argument dictionaries of the source). */
module Common {

  /** An optional value; usable with `:-` to propagate a missing value. */
  datatype Option<+T> = None | Some(value: T) {

    predicate IsFailure() {
      None?
    }

    function PropagateFailure<U>(): Option<U>
      requires None?
    {
      None
    }

    function Extract(): T
      requires Some?
    {
      value
    }
  }

  /** A time of day as the hour and minute fields the source formats as
      "HH:MM". Nothing forces the minute into 0..59: the arithmetic of the
      time-slot generators is modelled field by field, and which of their
      outputs are canonical is a property proved about them. */
  datatype Clock = Clock(hour: int, minute: int)

  /** Minutes since midnight denoted by a clock. */
  function Minutes(c: Clock): int {
    c.hour * 60 + c.minute
  }

  /** The minute field lies in 0..59, as in a well-formed "HH:MM" text. */
  predicate Canonical(c: Clock) {
    0 <= c.minute < 60
  }

  /** The five teaching days, in the order both generators walk them. */
  const Weekdays: seq<string> := ["MONDAY", "TUESDAY", "WEDNESDAY", "THURSDAY", "FRIDAY"]

  /** A dynamically typed value, as stored in the dictionaries the records
      are serialised to. `VClock` stands for an "HH:MM" text and `VNull`
      for Python's None. */
  datatype Value =
    | VInt(i: int)
    | VStr(s: string)
    | VBool(b: bool)
    | VStrs(items: seq<string>)
    | VClock(clock: Clock)
    | VNull
    | VDict(fields: map<string, Value>)

  type Dict = map<string, Value>

  /** Reads an integer keyword argument, falling back to `default` when the
      key is absent; a value of another type is refused. */
  function GetInt(d: Dict, key: string, default: int): Option<int> {
    if key !in d then Some(default)
    else match d[key]
      case VInt(i) => Some(i)
      case _ => None
  }

  function GetStr(d: Dict, key: string, default: string): Option<string> {
    if key !in d then Some(default)
    else match d[key]
      case VStr(s) => Some(s)
      case _ => None
  }

  function GetBool(d: Dict, key: string, default: bool): Option<bool> {
    if key !in d then Some(default)
    else match d[key]
      case VBool(b) => Some(b)
      case _ => None
  }

  function GetStrs(d: Dict, key: string, default: seq<string>): Option<seq<string>> {
    if key !in d then Some(default)
    else match d[key]
      case VStrs(xs) => Some(xs)
      case _ => None
  }

  function GetClock(d: Dict, key: string, default: Clock): Option<Clock> {
    if key !in d then Some(default)
    else match d[key]
      case VClock(c) => Some(c)
      case _ => None
  }

  /** A required (positional) integer argument: absent means the
      constructor call fails. */
  function NeedInt(d: Dict, key: string): Option<int> {
    if key in d && d[key].VInt? then Some(d[key].i) else None
  }

  function NeedStr(d: Dict, key: string): Option<string> {
    if key in d && d[key].VStr? then Some(d[key].s) else None
  }

  function NeedClock(d: Dict, key: string): Option<Clock> {
    if key in d && d[key].VClock? then Some(d[key].clock) else None
  }

  /** The `created_at` argument: absent, None and "" all read as "". */
  function GetCreatedAt(d: Dict): Option<string> {
    if "created_at" !in d then Some("")
    else match d["created_at"]
      case VStr(s) => Some(s)
      case VNull => Some("")
      case _ => None
  }

  /** The `__post_init__` rule every record shares: an empty creation stamp
      is replaced by the current time, a non-empty one is kept. */
  function Stamp(createdAt: string, now: string): (r: string)
    ensures createdAt != "" ==> r == createdAt
    ensures createdAt == "" ==> r == now
  {
    if createdAt == "" then now else createdAt
  }

  /** Decimal text of a natural number, as `f"{n}"` prints it. */
  function NatText(n: nat): (r: string)
    ensures |r| >= 1
    ensures forall i :: 0 <= i < |r| ==> '0' <= r[i] <= '9'
  {
    if n < 10 then [DigitChar(n)] else NatText(n / 10) + [DigitChar(n % 10)]
  }

  function DigitChar(d: nat): (c: char)
    requires d < 10
    ensures '0' <= c <= '9'
  {
    ['0', '1', '2', '3', '4', '5', '6', '7', '8', '9'][d]
  }

  /** Day e of d, each n long, ends no later than the d days do. */
  lemma MulStep(e: int, d: int, n: int)
    requires 0 <= e < d && n > 0
    ensures e * n + n <= d * n
    decreases d - e
  {
    assert (e + 1) * n == e * n + n;
    if e + 1 < d {
      MulStep(e + 1, d, n);
    }
  }
}
