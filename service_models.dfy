/** models/service_models.py: the approval workflow of Jobs and Service
    Tickets.

    The status checks and `clean` rules are functions of the record's
    values; `save`, `generate_number` and `total_worked_hours` work on a
    record in place. The user of the current request and the clock are
    parameters; the ORM lookups the code makes (the connected tickets, the
    last Job, the settings row) arrive as arguments. */
module ServiceModels {
  import opened Wrappers
  import opened Text
  import opened ServiceCommon
  import opened UserModels

  // ---------------------------------------------------------------------
  // CommonInfo: status transitions

  /** CommonInfo._status_validation_check(s): the record started in `s` and
      now holds neither `s` nor PENDING_FOR_APPROVAL. */
  predicate StatusValidationCheck(original: Status, status: Status, s: Status)
  {
    original == s && status != s && status != Pending
  }

  /** The message of CommonInfo._error_message. */
  function TransferMessage(original: Status): string
  {
    Display(original) + " status can only be transferred to " + Display(Pending)
  }

  /** CommonInfo.validate_status: out of OPEN, REJECTED or APPROVED a record
      may only stay where it is or move to PENDING_FOR_APPROVAL; out of
      PENDING_FOR_APPROVAL it may move anywhere. */
  function ValidateStatus(original: Status, status: Status): (r: Outcome)
    ensures r.Pass? <==> original == Pending || status == original || status == Pending
    ensures r.Fail? ==> r.error == Invalid("status", TransferMessage(original))
  {
    if StatusValidationCheck(original, status, Open) then Fail(Invalid("status", TransferMessage(original)))
    else if StatusValidationCheck(original, status, Rejected) then Fail(Invalid("status", TransferMessage(original)))
    else if StatusValidationCheck(original, status, Approved) then Fail(Invalid("status", TransferMessage(original)))
    else Pass
  }

  /** The transitions the Job tests walk through: from OPEN, REJECTED and
      APPROVED the record cannot reach another of those three, and every
      status can go to PENDING_FOR_APPROVAL. */
  lemma TransitionTable()
    ensures ValidateStatus(Open, Rejected).Fail? && ValidateStatus(Open, Approved).Fail?
    ensures ValidateStatus(Rejected, Approved).Fail? && ValidateStatus(Approved, Rejected).Fail?
    ensures forall s :: ValidateStatus(s, Pending).Pass?
    ensures forall s :: ValidateStatus(Pending, s).Pass?
  {
  }

  // ---------------------------------------------------------------------
  // CommonInfo.save: who requested, who approved

  datatype Signers = Signers(requester: Option<User>, approval: Option<User>)

  /** The bookkeeping of CommonInfo.save, given the current request's user. */
  function CommonSave(original: Status, status: Status, before: Signers, user: User): (r: Signers)
    ensures original == Open && status == Pending ==> r.requester == Some(user)
    ensures status == Open ==> r.requester == None
    ensures !(original == Open && status == Pending) && status != Open ==> r.requester == before.requester
    ensures original == Pending && status == Approved ==> r.approval == Some(user)
    ensures status == Pending ==> r.approval == None
    ensures !(original == Pending && status == Approved) && status != Pending ==> r.approval == before.approval
  {
    var requester :=
      if status == Open then None
      else if original == Open && status == Pending then Some(user)
      else before.requester;
    var approval :=
      if original == Pending && status == Approved then Some(user)
      else if status == Pending then None
      else before.approval;
    Signers(requester, approval)
  }

  /** The life of a record through two requests: submitted by `u1`, then
      approved by `u2`. The submitter stays the requester and the approver
      is recorded (the requester and approval tests). */
  lemma SubmitThenApprove(before: Signers, u1: User, u2: User)
    ensures var submitted := CommonSave(Open, Pending, before, u1);
      && submitted == Signers(Some(u1), None)
      && CommonSave(Pending, Approved, submitted, u2) == Signers(Some(u1), Some(u2))
  {
  }

  /** Moving back to OPEN forgets the requester, whatever came before. */
  lemma ReopenForgetsRequester(original: Status, before: Signers, user: User)
    ensures CommonSave(original, Open, before, user).requester == None
    ensures CommonSave(original, Open, before, user).approval == before.approval
  {
  }

  // ---------------------------------------------------------------------
  // Job

  /** Job._is_status_check(s): the Job is entering `s`. */
  predicate JobEntering(original: Status, status: Status, s: Status)
  {
    status == s && original != s
  }

  /** ServiceTicket._is_status_check(s): the ticket was and still is in `s`. */
  predicate TicketStaying(original: Status, status: Status, s: Status)
  {
    status == s && original == s
  }

  /** The two `_is_status_check` variants never hold together: a Job asks
      whether it is entering a status, a ticket whether it is staying. */
  lemma EnteringIsNotStaying(original: Status, status: Status, s: Status)
    ensures !(JobEntering(original, status, s) && TicketStaying(original, status, s))
    ensures status == s ==> (JobEntering(original, status, s) <==> !TicketStaying(original, status, s))
  {
  }

  const NotAllApproved: string := "Not all \"Service ticket\" are Approved yet"
  const ClosedStatusDenied: string := "You do not have permissions to set Closed status."

  /** Job._if_all_service_tickets_in_status_aproved over the statuses of
      the connected tickets. */
  function AllTicketsApproved(tickets: seq<Status>): (r: Outcome)
    ensures r.Pass? <==> forall i :: 0 <= i < |tickets| ==> tickets[i] == Approved
    ensures r.Fail? ==> r.error == Invalid(NonField, NotAllApproved)
  {
    if forall i :: 0 <= i < |tickets| ==> tickets[i] == Approved then Pass
    else Fail(Invalid(NonField, NotAllApproved))
  }

  /** Job._if_can_a_role_change_status: a Job requested by a biller may be
      closed only by a manager, an admin or a superuser; one requested by a
      manager only by an admin, a biller or a superuser. A Job with no
      requester makes the code read an attribute of `None`. */
  function RoleMayClose(jobRequester: Option<User>, user: User): (r: Outcome)
    ensures jobRequester.None? ==> r.Fail? && r.error.Fault?
    ensures jobRequester.Some? ==> (r.Pass? <==>
      && (IsBiller(jobRequester.value) && !user.isSuperuser ==> IsManager(user) || IsAdmin(user))
      && (IsManager(jobRequester.value) && !user.isSuperuser ==> IsAdmin(user) || IsBiller(user)))
    ensures jobRequester.Some? && r.Fail? ==> r.error == Invalid(NonField, ClosedStatusDenied)
  {
    match jobRequester
    case None => Fail(Fault("'NoneType' object has no attribute 'is_biller'"))
    case Some(req) =>
      if IsBiller(req) && !user.isSuperuser && !IsManager(user) && !IsAdmin(user) then
        Fail(Invalid(NonField, ClosedStatusDenied))
      else if IsManager(req) && !user.isSuperuser && !IsAdmin(user) && !IsBiller(user) then
        Fail(Invalid(NonField, ClosedStatusDenied))
      else Pass
  }

  /** A superuser may close any Job that has a requester, and a Job
      requested by someone who is neither biller nor manager may be closed
      by anyone. */
  lemma WhoMayClose(req: User, user: User)
    ensures user.isSuperuser ==> RoleMayClose(Some(req), user).Pass?
    ensures !IsBiller(req) && !IsManager(req) ==> RoleMayClose(Some(req), user).Pass?
    ensures (IsBiller(req) && !user.isSuperuser && IsMechanic(user) && !IsManager(user) && !IsAdmin(user))
      ==> RoleMayClose(Some(req), user).Fail?
  {
  }

  /** Job.clean_status: the transition check, then, when entering
      PENDING_FOR_APPROVAL, every ticket approved; when entering APPROVED,
      the role check and then every ticket approved. */
  function JobCleanStatus(original: Status, status: Status, jobRequester: Option<User>, user: User, tickets: seq<Status>)
    : (r: Result<Status>)
    ensures r.Ok? ==> r.value == status
    ensures r.Ok? <==>
      && ValidateStatus(original, status).Pass?
      && (JobEntering(original, status, Pending) || JobEntering(original, status, Approved)
          ==> forall i :: 0 <= i < |tickets| ==> tickets[i] == Approved)
      && (JobEntering(original, status, Approved) ==> RoleMayClose(jobRequester, user).Pass?)
    ensures ValidateStatus(original, status).Fail? ==> r == Err(ValidateStatus(original, status).error)
  {
    var v := ValidateStatus(original, status);
    if v.Fail? then Err(v.error)
    else if JobEntering(original, status, Pending) && AllTicketsApproved(tickets).Fail? then
      Err(AllTicketsApproved(tickets).error)
    else if JobEntering(original, status, Approved) && RoleMayClose(jobRequester, user).Fail? then
      Err(RoleMayClose(jobRequester, user).error)
    else if JobEntering(original, status, Approved) && AllTicketsApproved(tickets).Fail? then
      Err(AllTicketsApproved(tickets).error)
    else Ok(status)
  }

  /** A Job with a ticket that is not approved cannot be submitted, whoever
      asks. */
  lemma UnapprovedTicketBlocksSubmission(jobRequester: Option<User>, user: User, tickets: seq<Status>, k: nat)
    requires k < |tickets| && tickets[k] != Approved
    ensures JobCleanStatus(Open, Pending, jobRequester, user, tickets).Err?
    ensures JobCleanStatus(Pending, Approved, jobRequester, user, tickets).Err?
  {
  }

  /** Job.clean: a new Job must start OPEN. */
  function JobClean(isNew: bool, status: Status): (r: Outcome)
    ensures r.Fail? <==> isNew && status != Open
    ensures r.Fail? ==> r.error == Invalid(NonField, "You cannot create a Job with this status")
  {
    if isNew && status != Open then Fail(Invalid(NonField, "You cannot create a Job with this status"))
    else Pass
  }

  /** What Job.generate_number learns from the last Job row. */
  datatype LastJob = NoJob | LastJob(numberId: Option<nat>)

  /** `f'{yymm}-{number:04d}'` */
  function JobNumberText(year: nat, month: nat, numberId: nat): string
  {
    PadNat(year % 100, 2) + PadNat(month, 2) + "-" + PadNat(numberId, 4)
  }

  /** Slicing `yymm-nnnn` back into its three fields. */
  lemma JobNumberSlices(yy: string, mm: string, nn: string)
    requires |yy| == 2 && |mm| == 2
    ensures var t := yy + mm + "-" + nn;
      && |t| == 5 + |nn| && t[..2] == yy && t[2..4] == mm && t[..4] == yy + mm
      && t[4] == '-' && t[5..] == nn
  {
  }

  /** A job number is four digits of year and month, a dash, and at least
      four digits that read back as the number id. */
  lemma JobNumberRoundTrip(year: nat, month: nat, numberId: nat)
    requires 1 <= month <= 12
    ensures var t := JobNumberText(year, month, numberId);
      && |t| >= 9 && AllDigits(t[..4]) && t[4] == '-'
      && AllDigits(t[5..]) && ParseNat(t[5..]) == numberId
      && ParseNat(t[2..4]) == month && ParseNat(t[..2]) == year % 100
  {
    var yy, mm, nn := PadNat(year % 100, 2), PadNat(month, 2), PadNat(numberId, 4);
    TwoDigitPad(year % 100);
    TwoDigitPad(month);
    JobNumberSlices(yy, mm, nn);
    assert AllDigits(yy + mm) by {
      forall i | 0 <= i < 4
        ensures IsDigit((yy + mm)[i])
      {
        if i >= 2 {
          assert (yy + mm)[i] == mm[i - 2];
        }
      }
    }
  }

  /** The fields of a Job that its own methods update. */
  class Job {
    var status: Status
    var originalStatus: Status
    var signers: Signers
    var numberId: Option<nat>

    /** A Job as loaded: `_original_status` is the status read. */
    constructor(status: Status, signers: Signers, numberId: Option<nat>)
      ensures this.status == status && originalStatus == status
      ensures this.signers == signers && this.numberId == numberId
    {
      this.status := status;
      originalStatus := status;
      this.signers := signers;
      this.numberId := numberId;
    }

    /** CommonInfo.save as a Job inherits it. */
    method Save(user: User)
      modifies this
      ensures signers == CommonSave(old(originalStatus), old(status), old(signers), user)
      ensures status == old(status) && originalStatus == old(originalStatus) && numberId == old(numberId)
    {
      signers := CommonSave(originalStatus, status, signers, user);
    }

    /** Job.generate_number: the number id settles as NextNumberId says,
        and the number is rendered with today's year and month. A Job without
        a number id reads the starting point from the one Settings row
        (`settingsRows` holds each row's starting point); `get()` raises,
        leaving the number id unset, unless there is exactly one row. */
    method GenerateNumber(last: LastJob, settingsRows: seq<nat>, year: nat, month: nat) returns (r: Result<string>)
      requires 1 <= month <= 12
      modifies this
      ensures old(numberId).Some? ==> numberId == old(numberId)
      ensures old(numberId).None? && |settingsRows| == 1 ==>
        numberId == NextNumberId(None, last, settingsRows[0])
      ensures old(numberId).None? && |settingsRows| != 1 ==>
        numberId == None && r == Err(SettingsFault(|settingsRows|))
      ensures numberId.Some? ==> r == Ok(JobNumberText(year, month, numberId.value))
      ensures numberId.None? ==> r.Err?
      ensures status == old(status) && originalStatus == old(originalStatus) && signers == old(signers)
    {
      if numberId.None? {
        if |settingsRows| != 1 {
          return Err(SettingsFault(|settingsRows|));
        }
        var startingPoint := settingsRows[0];
        match last
        case NoJob =>
          numberId := Some(startingPoint);
        case LastJob(None) =>
          return Err(Fault(NoneComparison));
        case LastJob(Some(lastId)) =>
          if startingPoint > lastId {
            numberId := Some(startingPoint);
          } else {
            numberId := Some(lastId + 1);
          }
      }
      r := Ok(JobNumberText(year, month, numberId.value));
    }
  }

  /** What `Settings.objects.get()` raises on a table that does not hold
      exactly one row. */
  function SettingsFault(rows: nat): Error
    requires rows != 1
  {
    if rows == 0 then Fault("Settings matching query does not exist.")
    else Fault("get() returned more than one Settings -- it returned " + NatToString(rows) + "!")
  }

  /** The TypeError comparing the starting point with a missing id raises. */
  const NoneComparison := "'>' not supported between instances of 'int' and 'NoneType'"

  /** The number id Job.generate_number settles on: an existing one is
      kept; otherwise the configured starting point when there is no Job
      yet or when it is ahead of the last Job's id, else the last id plus
      one. A last Job without a number id makes the comparison raise. */
  function NextNumberId(current: Option<nat>, last: LastJob, startingPoint: nat): Option<nat>
  {
    if current.Some? then current
    else match last
      case NoJob => Some(startingPoint)
      case LastJob(None) => None
      case LastJob(Some(lastId)) => Some(if startingPoint > lastId then startingPoint else lastId + 1)
  }

  /** A new number id is never below the starting point and always above
      the last Job's; only a last Job without one leaves none. */
  lemma NewNumberIdAhead(last: LastJob, startingPoint: nat)
    ensures var n := NextNumberId(None, last, startingPoint);
      && (n.None? <==> last == LastJob(None))
      && (n.Some? ==> n.value >= startingPoint && (last.LastJob? ==> n.value > last.numberId.value))
      && (last.NoJob? ==> n == Some(startingPoint))
  {
  }

  /** An existing number id is kept whatever the table holds. */
  lemma NumberIdKept(current: nat, last: LastJob, startingPoint: nat)
    ensures NextNumberId(Some(current), last, startingPoint) == Some(current)
  {
  }

  // ---------------------------------------------------------------------
  // Service Ticket: checks

  /** The header block (ServicABC) of a ticket. */
  datatype Header = Header(
    date: Option<int>,
    unit: string,
    leaseName: string,
    state: Option<nat>,
    whoCalled: string,
    engineModel: string,
    compModel: string)

  /** The header fields, each as its name and its verbose name. */
  const DateField := ("date", "Date")
  const UnitField := ("unit", "Unit")
  const LeaseNameField := ("lease_name", "Lease Name")
  const StateField := ("state", "State")
  const WhoCalledField := ("who_called", "Who Called?")
  const EngineModelField := ("engine_model", "Engine Model")
  const CompModelField := ("comp_model", "Comp Model")

  /** ServicABC.is_nones_and_fields: the header fields holding a falsy value
      (no date, an empty text, no state or state 0), in field order, each
      with its verbose name. */
  function MissingHeaderFields(h: Header): (r: seq<(string, string)>)
    ensures r == [] <==> (h.date.Some? && h.unit != [] && h.leaseName != [] && h.state.Some? && h.state.value != 0
                          && h.whoCalled != [] && h.engineModel != [] && h.compModel != [])
    ensures |r| <= 7
  {
    (if h.date.None? then [DateField] else [])
    + (if h.unit == [] then [UnitField] else [])
    + (if h.leaseName == [] then [LeaseNameField] else [])
    + (if h.state.None? || h.state.value == 0 then [StateField] else [])
    + (if h.whoCalled == [] then [WhoCalledField] else [])
    + (if h.engineModel == [] then [EngineModelField] else [])
    + (if h.compModel == [] then [CompModelField] else [])
  }

  /** One "<verbose name> is required." error per missing field. */
  function RequiredErrors(fields: seq<(string, string)>): (r: seq<(string, string)>)
    ensures |r| == |fields|
    ensures forall i :: 0 <= i < |r| ==> r[i] == (fields[i].0, fields[i].1 + " is required.")
  {
    if fields == [] then [] else [(fields[0].0, fields[0].1 + " is required.")] + RequiredErrors(fields[1..])
  }

  /** ServiceTicket.clean_status: the transition check; then an approved
      ticket that stays approved may be changed only by an admin; then a
      ticket in PENDING_FOR_APPROVAL needs a complete header and at least
      one work block. */
  function TicketCleanStatus(original: Status, status: Status, user: User, header: Header, hasWorkBlock: bool)
    : (r: Result<Status>)
    ensures r.Ok? ==> r.value == status
    ensures r.Ok? <==>
      && ValidateStatus(original, status).Pass?
      && (TicketStaying(original, status, Approved) ==> IsAdmin(user))
      && (status == Pending ==> MissingHeaderFields(header) == [] && hasWorkBlock)
    ensures ValidateStatus(original, status).Pass? && status == Pending && MissingHeaderFields(header) != [] ==>
      r == Err(InvalidFields(RequiredErrors(MissingHeaderFields(header))))
  {
    var v := ValidateStatus(original, status);
    if v.Fail? then Err(v.error)
    else if TicketStaying(original, status, Approved) && !IsAdmin(user) then
      Err(Invalid(NonField, "In status " + Display(status) + " you cannot change data"))
    else if status == Pending && MissingHeaderFields(header) != [] then
      Err(InvalidFields(RequiredErrors(MissingHeaderFields(header))))
    else if status == Pending && !hasWorkBlock then
      Err(Invalid("employee_works", "Service Ticket must have at least one employee."))
    else Ok(status)
  }

  /** The Job a ticket points at, as far as the ticket's checks read it. */
  datatype JobRef = JobRef(id: nat, status: Status)

  /** What ServiceTicket.clean reads of a ticket. `originalJob` is the id of
      the Job the ticket was loaded with. */
  datatype TicketDraft = TicketDraft(
    isNew: bool,
    status: Status,
    originalStatus: Status,
    job: Option<JobRef>,
    originalJob: Option<nat>,
    requester: Option<User>,
    rejectDescription: string)

  const JobRequired: string := "Job is required field"
  const JobApproved: string := "You cannot change this service ticket. The connected job is approved already."
  const CreateDenied: string := "You cannot create a Service Ticket with this status"
  const JobPending: string := "You cannot add a Service Ticket to a Job when it has a status - Pending for Approval"
  const RejectReasonNeeded: string := "Please write the reason for Service Ticket rejection"
  const NoReassign: string := "Service Ticket can not be reassigned to another Job."

  /** The request's user is not the ticket's requester (`None` is nobody). */
  predicate NotRequester(t: TicketDraft, user: User)
  {
    t.requester.None? || t.requester.value.id != user.id
  }

  /** ServiceTicket.clean, check by check in the code's order. */
  function TicketClean(t: TicketDraft, user: User): (r: Outcome)
    ensures t.job.None? ==> r == Fail(Invalid("connected_job", JobRequired))
    ensures t.job.Some? && t.job.value.status == Approved ==> r == Fail(Invalid("connected_job", JobApproved))
    ensures t.job.Some? && t.job.value.status != Approved && t.isNew && t.status != Open ==>
      r == Fail(Invalid("status", CreateDenied))
    ensures t.job.Some? && t.isNew && t.status == Open && t.job.value.status == Pending ==>
      r == Fail(Invalid("status", JobPending))
    ensures r.Pass? <==>
      && t.job.Some? && t.job.value.status != Approved
      && (t.isNew ==> t.status == Open && t.job.value.status != Pending)
      && (t.originalStatus != Open ==> !(NotRequester(t, user) && IsMechanic(user)))
      && (t.status == Rejected && !IsMechanic(user) ==> !IsBlank(t.rejectDescription))
      && (t.originalJob.Some? ==> t.originalJob.value == t.job.value.id)
  {
    match t.job
    case None => Fail(Invalid("connected_job", JobRequired))
    case Some(job) =>
      if job.status == Approved then Fail(Invalid("connected_job", JobApproved))
      else if t.isNew && t.status != Open then Fail(Invalid("status", CreateDenied))
      else if t.isNew && job.status == Pending then Fail(Invalid("status", JobPending))
      else if t.originalStatus != Open && NotRequester(t, user) && IsMechanic(user) then
        match t.requester
        case None => Fail(Fault("'NoneType' object has no attribute 'first_name'"))
        case Some(req) =>
          Fail(Invalid(NonField,
            "You are not allowed to update or submit this ticket. The Main Mechanic of the ticket is "
            + req.firstName + " " + req.lastName + "."))
      else if t.status == Rejected && !IsMechanic(user) && IsBlank(t.rejectDescription) then
        Fail(Invalid("reject_description", RejectReasonNeeded))
      else if t.originalJob.Some? && t.originalJob.value != job.id then
        Fail(Invalid("connected_job", NoReassign))
      else Pass
  }

  /** A rejection by a manager, biller or admin needs a reason: a blank
      description (only whitespace) is refused. */
  lemma RejectionNeedsReason(t: TicketDraft, user: User)
    requires t.status == Rejected && !IsMechanic(user) && IsBlank(t.rejectDescription)
    ensures TicketClean(t, user).Fail?
  {
  }

  /** Once loaded with a Job, a ticket cannot be moved to another one. */
  lemma NoReassignment(t: TicketDraft, user: User)
    requires t.originalJob.Some? && t.job.Some? && t.job.value.id != t.originalJob.value
    ensures TicketClean(t, user).Fail?
  {
  }

  // ---------------------------------------------------------------------
  // Service Ticket: save and totals

  /** The fields of a Service Ticket that its own methods update. Times are
      seconds. */
  class ServiceTicket {
    var status: Status
    var originalStatus: Status
    var signers: Signers
    var submittedAt: Option<int>
    var approvedAt: Option<int>

    /** A ticket as loaded: `_original_status` is the status read. */
    constructor(status: Status, signers: Signers, submittedAt: Option<int>, approvedAt: Option<int>)
      ensures this.status == status && originalStatus == status && this.signers == signers
      ensures this.submittedAt == submittedAt && this.approvedAt == approvedAt
    {
      this.status := status;
      originalStatus := status;
      this.signers := signers;
      this.submittedAt := submittedAt;
      this.approvedAt := approvedAt;
    }

    /** ServiceTicket.save: PENDING_FOR_APPROVAL stamps the submission time
        (and forgets an earlier approval time when the ticket was approved
        before); a change into APPROVED stamps the approval time; then the
        CommonInfo bookkeeping runs. */
    method Save(user: User, now: int)
      modifies this
      ensures status == Pending ==>
        (submittedAt == Some(now) && approvedAt == (if originalStatus == Approved then None else old(approvedAt)))
      ensures status == Approved && originalStatus != Approved ==>
        approvedAt == Some(now) && submittedAt == old(submittedAt)
      ensures status != Pending && !(status == Approved && originalStatus != Approved) ==>
        submittedAt == old(submittedAt) && approvedAt == old(approvedAt)
      ensures signers == CommonSave(old(originalStatus), old(status), old(signers), user)
      ensures status == old(status) && originalStatus == old(originalStatus)
    {
      if status == Pending {
        submittedAt := Some(now);
        if originalStatus == Approved {
          approvedAt := None;
        }
      } else if status == Approved && originalStatus != status {
        approvedAt := Some(now);
      }
      signers := CommonSave(originalStatus, status, signers, user);
    }
  }

  /** Seconds worked over the blocks whose two times are set. */
  function WorkedSeconds(blocks: seq<WorkBlock>): int
  {
    if blocks == [] then 0
    else
      var last := blocks[|blocks| - 1];
      WorkedSeconds(blocks[..|blocks| - 1]) + (if HoursWorked(last).Some? then HoursWorked(last).value else 0)
  }

  /** `'%dh %02dm'` of the whole minutes in `total` seconds, or `''` for
      zero. Minutes and hours are floored, as Python's `divmod` does. */
  function HoursText(total: int): string
  {
    if total == 0 then ""
    else
      var minutes := total / 60;
      IntToString(minutes / 60) + "h " + PadNat(minutes % 60, 2) + "m"
  }

  /** ServiceTicket.total_worked_hours: add up the durations that are set
      and not zero, then render them. */
  method TotalWorkedHours(blocks: seq<WorkBlock>) returns (r: string)
    ensures r == HoursText(WorkedSeconds(blocks))
  {
    var total := 0;
    var i := 0;
    while i < |blocks|
      invariant 0 <= i <= |blocks|
      invariant total == WorkedSeconds(blocks[..i])
    {
      assert blocks[..i + 1][..i] == blocks[..i];
      var hours := HoursWorked(blocks[i]);
      if hours.Some? && hours.value != 0 {
        total := total + hours.value;
      }
      i := i + 1;
    }
    assert blocks[..i] == blocks;
    r := HoursText(total);
  }

  /** A non-negative total renders as hours, `h `, two digits of minutes
      below 60, and `m`, and the two numbers give back the whole minutes. */
  lemma HoursTextRoundTrip(total: nat)
    requires total > 0
    ensures var t := HoursText(total); var h := NatToString(total / 60 / 60);
      && t == h + "h " + PadNat(total / 60 % 60, 2) + "m"
      && |t| == |h| + 5
      && ParseNat(h) * 60 + ParseNat(t[|h| + 2..|h| + 4]) == total / 60
  {
    var h := NatToString(total / 60 / 60);
    var mm := PadNat(total / 60 % 60, 2);
    TwoDigitPad(total / 60 % 60);
    ParseNatToString(total / 60 / 60);
    var t := HoursText(total);
    assert t == h + "h " + mm + "m";
    assert t[|h| + 2..|h| + 4] == mm;
  }

  lemma NinetyMinutesText()
    ensures HoursText(5400) == "1h 30m"
  {
    var minutes := 5400 / 60;
    assert minutes / 60 == 1 && minutes % 60 == 30;
    assert NatToString(3) == "3";
    assert NatToString(30) == "30" by {
      assert NatToString(30) == NatToString(3) + [DigitChar(0)];
    }
    assert ZeroPad("30", 2) == "30";
    assert PadNat(30, 2) == "30";
    assert IntToString(1) == "1";
    assert "1" + "h " + "30" + "m" == "1h 30m";
  }

  /** The worked-hours test: blocks missing a time are skipped, and an hour
      plus half an hour give `1h 30m`. */
  lemma OneHourThirty(t0: int, t1: int)
    ensures var blocks := [
        WorkBlock(None, 0, None, None), WorkBlock(None, 0, Some(t0), None),
        WorkBlock(None, 0, None, Some(t0)), WorkBlock(None, 0, Some(t0), Some(t0 + 3600)),
        WorkBlock(None, 0, Some(t1), Some(t1 + 1800))];
      HoursText(WorkedSeconds(blocks)) == "1h 30m"
  {
    var blocks := [
        WorkBlock(None, 0, None, None), WorkBlock(None, 0, Some(t0), None),
        WorkBlock(None, 0, None, Some(t0)), WorkBlock(None, 0, Some(t0), Some(t0 + 3600)),
        WorkBlock(None, 0, Some(t1), Some(t1 + 1800))];
    assert WorkedSeconds(blocks[..1]) == 0 by {
      assert blocks[..1][..0] == [];
    }
    assert WorkedSeconds(blocks[..2]) == 0 by {
      assert blocks[..2][..1] == blocks[..1];
    }
    assert WorkedSeconds(blocks[..3]) == 0 by {
      assert blocks[..3][..2] == blocks[..2];
    }
    assert WorkedSeconds(blocks[..4]) == 3600 by {
      assert blocks[..4][..3] == blocks[..3];
    }
    assert WorkedSeconds(blocks) == 5400 by {
      assert blocks[..4] == blocks[..|blocks| - 1];
    }
    NinetyMinutesText();
  }

  // ---------------------------------------------------------------------
  // Location

  class Location {
    var name: string

    constructor(name: string)
      ensures this.name == name
    {
      this.name := name;
    }

    /** Location.save stores the code name in upper case. */
    method Save()
      modifies this
      ensures name == Upper(old(name))
    {
      name := Upper(name);
    }
  }

  /** Saving a location twice stores the same name as saving it once. */
  lemma {:induction false} UpperIdempotent(s: string)
    ensures Upper(Upper(s)) == Upper(s)
  {
    if s != [] {
      assert Upper(s)[1..] == Upper(s[1..]);
      UpperIdempotent(s[1..]);
    }
  }
}
