/** models/user_models.py: users, their roles, the admin proxy's `save`, and
    the two aggregations a mechanic offers over indirect hours and work
    blocks.

    Group membership is a set of group names. Indirect hours are a `Decimal`
    with two decimal places, kept here as integer hundredths. */
module UserModels {
  import opened Wrappers
  import opened ServiceCommon

  const Active: nat := 1
  const Archived: nat := 2

  datatype User = User(
    id: nat,
    firstName: string,
    lastName: string,
    groups: set<string>,
    isSuperuser: bool,
    status: nat)

  predicate IsAdmin(u: User) { "admin" in u.groups }
  predicate IsManager(u: User) { "Manager" in u.groups }
  predicate IsBiller(u: User) { "Biller" in u.groups }
  predicate IsMechanic(u: User) { "Mechanic" in u.groups }

  /** get_full_name: first name, one space, last name. Both names can be
      read back from the result. */
  function FullName(u: User): (r: string)
    ensures |r| == |u.firstName| + 1 + |u.lastName|
    ensures r[..|u.firstName|] == u.firstName
    ensures r[|u.firstName|] == ' '
    ensures r[|u.firstName| + 1..] == u.lastName
  {
    u.firstName + " " + u.lastName
  }

  /** The role tests read the group names exactly as stored, `admin` in
      lower case and the other three capitalised. They are independent: a
      user in no group has no role, and one user can hold several. */
  lemma RoleTests(u: User)
    ensures u.groups == {} ==> !IsAdmin(u) && !IsManager(u) && !IsBiller(u) && !IsMechanic(u)
    ensures u.groups == {"Admin", "mechanic"} ==> !IsAdmin(u) && !IsMechanic(u)
    ensures u.groups == {"Manager", "Mechanic"} ==> IsManager(u) && IsMechanic(u) && !IsAdmin(u) && !IsBiller(u)
  {
  }

  /** is_status_archived */
  predicate IsStatusArchived(u: User)
  {
    u.status == Archived
  }

  /** The status column's two choices, ACTIVE and ARCHIVED. */
  predicate HasStatusChoice(u: User)
  {
    u.status == Active || u.status == Archived
  }

  /** `is_status_archived` is a plain test of the status column; on a user
      holding one of its two choices it is true exactly when the user is
      not active. */
  lemma ArchivedIffNotActive(u: User)
    requires HasStatusChoice(u)
    ensures IsStatusArchived(u) <==> u.status != Active
  {
  }

  /** The Admin proxy: `save` grants superuser rights to a new record only. */
  class AdminAccount {
    var pk: Option<nat>
    var isSuperuser: bool

    constructor(isSuperuser: bool)
      ensures pk == None && this.isSuperuser == isSuperuser
    {
      pk := None;
      this.isSuperuser := isSuperuser;
    }

    /** Admin.save; `assignedPk` is the key the database gives a new row. */
    method Save(assignedPk: nat)
      modifies this
      ensures old(pk).None? ==> isSuperuser && pk == Some(assignedPk)
      ensures old(pk).Some? ==> isSuperuser == old(isSuperuser) && pk == old(pk)
    {
      if pk.None? {
        isSuperuser := true;
        pk := Some(assignedPk);
      }
    }
  }

  // ---------------------------------------------------------------------
  // get_unique_indirect_hours

  /** One row of the indirect-hours queryset: its time code's name and its
      hours in hundredths. */
  datatype HourRow = HourRow(timeCode: string, hours: int)

  /** The distinct time-code names of the rows. */
  function Codes(rows: seq<HourRow>): set<string>
  {
    set i | 0 <= i < |rows| :: rows[i].timeCode
  }

  /** Hours of the rows with the given code. */
  function HoursFor(rows: seq<HourRow>, code: string): int
  {
    if rows == [] then 0
    else HoursFor(rows[..|rows| - 1], code) + (if rows[|rows| - 1].timeCode == code then rows[|rows| - 1].hours else 0)
  }

  /** Hours of all the rows. */
  function TotalHours(rows: seq<HourRow>): int
  {
    if rows == [] then 0 else TotalHours(rows[..|rows| - 1]) + rows[|rows| - 1].hours
  }

  /** Mechanic.get_unique_indirect_hours: one entry per distinct time code,
      starting at zero and accumulating the hours of every row with that
      code. */
  method GetUniqueIndirectHours(rows: seq<HourRow>) returns (totals: map<string, int>)
    ensures totals.Keys == Codes(rows)
    ensures forall code :: code in totals ==> totals[code] == HoursFor(rows, code)
  {
    totals := map code | code in Codes(rows) :: 0;
    var i := 0;
    while i < |rows|
      invariant 0 <= i <= |rows|
      invariant totals.Keys == Codes(rows)
      invariant forall code :: code in totals ==> totals[code] == HoursFor(rows[..i], code)
    {
      var row := rows[i];
      assert rows[..i + 1][..i] == rows[..i];
      totals := totals[row.timeCode := totals[row.timeCode] + row.hours];
      i := i + 1;
    }
    assert rows[..i] == rows;
  }

  /** Hours of the rows whose code is in `cs`. */
  function HoursIn(rows: seq<HourRow>, cs: set<string>): int
  {
    if rows == [] then 0
    else HoursIn(rows[..|rows| - 1], cs) + (if rows[|rows| - 1].timeCode in cs then rows[|rows| - 1].hours else 0)
  }

  /** The sum of the per-code totals over a set of codes. */
  ghost function SumOverCodes(rows: seq<HourRow>, cs: set<string>): int
    decreases |cs|
  {
    if cs == {} then 0
    else
      var c :| c in cs;
      HoursFor(rows, c) + SumOverCodes(rows, cs - {c})
  }

  lemma {:induction false} HoursInSplit(rows: seq<HourRow>, cs: set<string>, c: string)
    requires c in cs
    ensures HoursIn(rows, cs) == HoursFor(rows, c) + HoursIn(rows, cs - {c})
  {
    if rows != [] {
      HoursInSplit(rows[..|rows| - 1], cs, c);
    }
  }

  lemma {:induction false} SumOverCodesIsHoursIn(rows: seq<HourRow>, cs: set<string>)
    ensures SumOverCodes(rows, cs) == HoursIn(rows, cs)
    decreases |cs|
  {
    if cs == {} {
      HoursInEmpty(rows);
    } else {
      var c :| c in cs && SumOverCodes(rows, cs) == HoursFor(rows, c) + SumOverCodes(rows, cs - {c});
      SumOverCodesIsHoursIn(rows, cs - {c});
      HoursInSplit(rows, cs, c);
    }
  }

  lemma {:induction false} HoursInEmpty(rows: seq<HourRow>)
    ensures HoursIn(rows, {}) == 0
  {
    if rows != [] {
      HoursInEmpty(rows[..|rows| - 1]);
    }
  }

  lemma {:induction false} HoursInAllCodes(rows: seq<HourRow>, cs: set<string>)
    requires Codes(rows) <= cs
    ensures HoursIn(rows, cs) == TotalHours(rows)
  {
    if rows != [] {
      var front := rows[..|rows| - 1];
      assert Codes(front) <= Codes(rows) by {
        forall code | code in Codes(front)
          ensures code in Codes(rows)
        {
          var i :| 0 <= i < |front| && front[i].timeCode == code;
          assert rows[i] == front[i];
        }
      }
      assert rows[|rows| - 1].timeCode in Codes(rows);
      HoursInAllCodes(front, cs);
    }
  }

  /** The per-code totals add up to the hours of all the rows: no row is
      lost or counted twice. */
  lemma UniqueHoursSumToTotal(rows: seq<HourRow>)
    ensures SumOverCodes(rows, Codes(rows)) == TotalHours(rows)
  {
    SumOverCodesIsHoursIn(rows, Codes(rows));
    HoursInAllCodes(rows, Codes(rows));
  }

  // ---------------------------------------------------------------------
  // get_total_working_time

  /** A mechanic's work block together with what the query filters on: the
      status, date and archive flag of its service ticket. */
  datatype TicketBlock = TicketBlock(block: WorkBlock, ticketStatus: Status, ticketDate: Option<int>, ticketArchived: bool)

  /** The filter of get_total_working_time: an approved, non-archived ticket
      dated within [startDate, endDate], and both times set. */
  predicate Counted(b: TicketBlock, startDate: int, endDate: int)
  {
    && b.ticketStatus == Approved
    && b.ticketDate.Some? && startDate <= b.ticketDate.value <= endDate
    && !b.ticketArchived
    && b.block.start.Some? && b.block.end.Some?
  }

  /** Seconds worked over the counted blocks. */
  function WorkingSeconds(bs: seq<TicketBlock>, startDate: int, endDate: int): int
  {
    if bs == [] then 0
    else
      var last := bs[|bs| - 1];
      WorkingSeconds(bs[..|bs| - 1], startDate, endDate)
        + (if Counted(last, startDate, endDate) then HoursWorked(last.block).value else 0)
  }

  /** Mechanic.get_total_working_time in seconds: the filter, then the sum
      of `hours_worked` over what it keeps. */
  method GetTotalWorkingTime(bs: seq<TicketBlock>, startDate: int, endDate: int) returns (total: int)
    ensures total == WorkingSeconds(bs, startDate, endDate)
  {
    total := 0;
    var i := 0;
    while i < |bs|
      invariant 0 <= i <= |bs|
      invariant total == WorkingSeconds(bs[..i], startDate, endDate)
    {
      assert bs[..i + 1][..i] == bs[..i];
      if Counted(bs[i], startDate, endDate) {
        var hours := HoursWorked(bs[i].block);
        total := total + hours.value;
      }
      i := i + 1;
    }
    assert bs[..i] == bs;
  }

  /** An empty date range counts nothing. */
  lemma {:induction false} EmptyRangeCountsNothing(bs: seq<TicketBlock>, startDate: int, endDate: int)
    requires startDate > endDate
    ensures WorkingSeconds(bs, startDate, endDate) == 0
  {
    if bs != [] {
      EmptyRangeCountsNothing(bs[..|bs| - 1], startDate, endDate);
    }
  }

  /** The range is inclusive on both ends, so splitting it after day `mid`
      splits the total: no day is counted twice or dropped. */
  lemma {:induction false} WorkingSecondsSplit(bs: seq<TicketBlock>, startDate: int, mid: int, endDate: int)
    requires startDate <= mid < endDate
    ensures WorkingSeconds(bs, startDate, endDate)
      == WorkingSeconds(bs, startDate, mid) + WorkingSeconds(bs, mid + 1, endDate)
  {
    if bs != [] {
      WorkingSecondsSplit(bs[..|bs| - 1], startDate, mid, endDate);
    }
  }

  /** Blocks that passed their own `clean` never make the total negative. */
  lemma {:induction false} WorkingSecondsNonNegative(bs: seq<TicketBlock>, startDate: int, endDate: int)
    requires forall i :: 0 <= i < |bs| ==> CleanWorkBlock(bs[i].block).Pass?
    ensures WorkingSeconds(bs, startDate, endDate) >= 0
  {
    if bs != [] {
      WorkingSecondsNonNegative(bs[..|bs| - 1], startDate, endDate);
      var last := bs[|bs| - 1].block;
      if HoursWorked(last).Some? {
        CleanBlockDuration(last);
      }
    }
  }
}
