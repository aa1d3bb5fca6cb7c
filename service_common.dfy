/** What models/service_models.py shares between Jobs, Service Tickets and
    the user model: the four `CommonInfo` statuses and the employee work
    block with its duration and its own `clean`.

    Times are whole seconds on one timeline (the `DateTimeField`s of a work
    block); dates are day numbers. */
module ServiceCommon {
  import opened Wrappers
  import opened Text

  /** CommonInfo.OPEN, PENDING_FOR_APPROVAL, REJECTED and APPROVED. */
  datatype Status = Open | Pending | Rejected | Approved

  /** The integer stored in the `status` column. */
  function Code(s: Status): (n: nat)
    ensures 1 <= n <= 4
  {
    match s
    case Open => 1
    case Pending => 2
    case Rejected => 3
    case Approved => 4
  }

  /** The status an integer column value names, if any. */
  function FromCode(n: int): (r: Option<Status>)
    ensures r.Some? <==> 1 <= n <= 4
    ensures r.Some? ==> Code(r.value) == n
  {
    if n == 1 then Some(Open)
    else if n == 2 then Some(Pending)
    else if n == 3 then Some(Rejected)
    else if n == 4 then Some(Approved)
    else None
  }

  /** Every status survives a trip through its column value. */
  lemma CodeRoundTrip(s: Status)
    ensures FromCode(Code(s)) == Some(s)
  {
  }

  /** The display names of `CommonInfo.STATUSES`. */
  function Display(s: Status): (r: string)
    ensures r != []
  {
    match s
    case Open => "Open"
    case Pending => "Pending for Approval"
    case Rejected => "Rejected"
    case Approved => "Approved"
  }

  /** An EmployeeWorkBlock: its id once stored, the mechanic, and the
      optional start and end times. */
  datatype WorkBlock = WorkBlock(id: Option<nat>, employee: nat, start: Option<int>, end: Option<int>)

  /** EmployeeWorkBlock.hours_worked: end minus start, or `None` when either
      time is missing. */
  function HoursWorked(b: WorkBlock): (r: Option<int>)
    ensures r.None? <==> b.start.None? || b.end.None?
    ensures r.Some? ==> b.start.value + r.value == b.end.value
  {
    if b.start.None? || b.end.None? then None else Some(b.end.value - b.start.value)
  }

  /** EmployeeWorkBlock.clean: a block whose two times are both set must not
      start after it ends. */
  function CleanWorkBlock(b: WorkBlock): (r: Outcome)
    ensures r.Fail? <==> b.start.Some? && b.end.Some? && b.start.value > b.end.value
    ensures r.Fail? ==> r.error == Invalid("start_time", "Start Time can not be ahead of the End Time")
  {
    if b.start.Some? && b.end.Some? && b.start.value > b.end.value then
      Fail(Invalid("start_time", "Start Time can not be ahead of the End Time"))
    else Pass
  }

  /** A block that passed its `clean` never has a negative duration. */
  lemma CleanBlockDuration(b: WorkBlock)
    requires CleanWorkBlock(b).Pass? && HoursWorked(b).Some?
    ensures HoursWorked(b).value >= 0
  {
  }
}
