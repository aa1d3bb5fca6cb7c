/** serializers/service_serializers.py: the write-side rules of Jobs,
    Service Tickets and their work blocks.

    A many-to-many relation is a sequence of distinct ids in the order the
    database returns them. The work-block table is a map from block id to
    row. The user of the current request is a parameter. */
module ServiceSerializers {
  import opened Wrappers
  import opened Text
  import opened ServiceCommon
  import opened UserModels
  import opened ServiceModels

  // ---------------------------------------------------------------------
  // Sequence helpers for the many-to-many diff

  predicate Distinct(s: seq<nat>)
  {
    forall i, j :: 0 <= i < j < |s| ==> s[i] != s[j]
  }

  /** The ids of a sequence, as a set. */
  function Elems(s: seq<nat>): set<nat>
  {
    set x | x in s
  }

  lemma ElemsSnoc(s: seq<nat>, x: nat)
    ensures Elems(s + [x]) == Elems(s) + {x}
  {
  }

  /** The elements of `s` that are not in `ex`, in the order of `s`. */
  function Without(s: seq<nat>, ex: seq<nat>): seq<nat>
  {
    if s == [] then []
    else Without(s[..|s| - 1], ex) + (if s[|s| - 1] in ex then [] else [s[|s| - 1]])
  }

  /** What is left is what `s` holds and `ex` does not, and no more
      entries than `s` has. */
  lemma {:induction false} WithoutElems(s: seq<nat>, ex: seq<nat>)
    ensures forall x :: x in Without(s, ex) <==> x in s && x !in ex
    ensures |Without(s, ex)| <= |s|
  {
    if s != [] {
      var front := s[..|s| - 1];
      WithoutElems(front, ex);
      assert s == front + [s[|s| - 1]];
    }
  }

  /** `OrderedDict.fromkeys(s)`: first occurrences, in order. */
  function Dedup(s: seq<nat>): (r: seq<nat>)
    ensures Distinct(r)
    ensures forall x :: x in r <==> x in s
  {
    if s == [] then []
    else
      var front := Dedup(s[..|s| - 1]);
      if s[|s| - 1] in front then front else front + [s[|s| - 1]]
  }

  /** `list.remove(x)`: drop the first occurrence. */
  function RemoveFirst(s: seq<nat>, x: nat): (r: seq<nat>)
    requires x in s
    ensures |r| == |s| - 1
  {
    if s[0] == x then s[1..] else [s[0]] + RemoveFirst(s[1..], x)
  }

  lemma {:induction false} RemoveFirstDistinct(s: seq<nat>, x: nat)
    requires x in s && Distinct(s)
    ensures RemoveFirst(s, x) == Without(s, [x])
  {
    if s[0] == x {
      WithoutAbsent(s[1..], [x]);
      WithoutFront(s, [x]);
    } else {
      RemoveFirstDistinct(s[1..], x);
      WithoutFront(s, [x]);
    }
  }

  /** Filtering from the front gives the same result as from the back. */
  lemma {:induction false} WithoutFront(s: seq<nat>, ex: seq<nat>)
    requires s != []
    ensures Without(s, ex) == (if s[0] in ex then [] else [s[0]]) + Without(s[1..], ex)
  {
    if |s| > 1 {
      var front, last, rest := s[..|s| - 1], s[|s| - 1], s[1..];
      var h := if s[0] in ex then [] else [s[0]];
      var t := if last in ex then [] else [last];
      WithoutFront(front, ex);
      assert front[0] == s[0] && front[1..] == rest[..|rest| - 1] && rest[|rest| - 1] == last;
      calc {
        Without(s, ex);
        Without(front, ex) + t;
        (h + Without(front[1..], ex)) + t;
        h + (Without(rest[..|rest| - 1], ex) + t);
        h + Without(rest, ex);
      }
    } else {
      assert s[..|s| - 1] == [];
      assert s[1..] == [];
    }
  }

  lemma {:induction false} WithoutAbsent(s: seq<nat>, ex: seq<nat>)
    requires forall x :: x in s ==> x !in ex
    ensures Without(s, ex) == s
  {
    if s != [] {
      WithoutAbsent(s[..|s| - 1], ex);
      assert s[..|s| - 1] + [s[|s| - 1]] == s;
    }
  }

  lemma {:induction false} WithoutSnoc(s: seq<nat>, ex: seq<nat>, y: nat)
    ensures Without(s, ex + [y]) == Without(Without(s, ex), [y])
  {
    if s != [] {
      var front, last := s[..|s| - 1], s[|s| - 1];
      WithoutSnoc(front, ex, y);
      var w := Without(front, ex);
      assert last in ex + [y] <==> last in ex || last == y;
      if last in ex {
        assert Without(s, ex) == w + [];
        assert w + [] == w;
      } else {
        var wl := w + [last];
        assert Without(s, ex) == wl;
        assert wl[..|wl| - 1] == w;
        assert Without(wl, [y]) == Without(w, [y]) + (if last in [y] then [] else [last]);
      }
    }
  }

  lemma {:induction false} WithoutDistinct(s: seq<nat>, ex: seq<nat>)
    requires Distinct(s)
    ensures Distinct(Without(s, ex))
  {
    if s != [] {
      assert Distinct(s[..|s| - 1]);
      WithoutDistinct(s[..|s| - 1], ex);
      WithoutElems(s[..|s| - 1], ex);
    }
  }

  lemma {:induction false} DedupPrefix(s: seq<nat>, i: nat)
    requires i < |s|
    ensures Dedup(s[..i + 1]) == if s[i] in Dedup(s[..i]) then Dedup(s[..i]) else Dedup(s[..i]) + [s[i]]
  {
    assert s[..i + 1][..i] == s[..i];
  }

  // ---------------------------------------------------------------------
  // JobWriteSerializer._new_list

  /** The ids to add: requested (first occurrences, in order) and not yet
      related. */
  function ToAdd(requested: seq<nat>, current: seq<nat>): seq<nat>
  {
    Without(Dedup(requested), current)
  }

  /** The ids to remove: related and no longer requested, in relation order. */
  function ToRemove(requested: seq<nat>, current: seq<nat>): seq<nat>
  {
    Without(current, requested)
  }

  /** `list(OrderedDict.fromkeys(ids))` */
  method FromKeys(ids: seq<nat>) returns (keys: seq<nat>)
    ensures keys == Dedup(ids)
  {
    keys := [];
    var i := 0;
    while i < |ids|
      invariant 0 <= i <= |ids|
      invariant keys == Dedup(ids[..i])
    {
      DedupPrefix(ids, i);
      if ids[i] !in keys {
        keys := keys + [ids[i]];
      }
      i := i + 1;
    }
    assert ids[..i] == ids;
  }

  /** `[i for i in new_obj if i not in old_obj or old_obj.remove(i)]`:
      returns the list built and what is left of `old_obj`. */
  method AddPass(newObj: seq<nat>, current: seq<nat>) returns (add: seq<nat>, oldObj: seq<nat>)
    requires Distinct(current) && Distinct(newObj)
    ensures add == Without(newObj, current)
    ensures oldObj == Without(current, newObj)
  {
    oldObj := current;
    add := [];
    var k := 0;
    WithoutAbsent(current, []);
    while k < |newObj|
      invariant 0 <= k <= |newObj|
      invariant oldObj == Without(current, newObj[..k])
      invariant add == Without(newObj[..k], current)
    {
      var x := newObj[k];
      AddPassStep(newObj, current, k);
      if x !in oldObj {
        add := add + [x];
      } else {
        oldObj := RemoveFirst(oldObj, x);
      }
      k := k + 1;
    }
    assert newObj[..k] == newObj;
  }

  /** One round of the first comprehension, stated on the filtered lists. */
  lemma AddPassStep(newObj: seq<nat>, current: seq<nat>, k: nat)
    requires Distinct(current) && Distinct(newObj) && k < |newObj|
    ensures var x, left := newObj[k], Without(current, newObj[..k]);
      && (x in left <==> x in current)
      && Without(current, newObj[..k + 1]) == (if x in left then RemoveFirst(left, x) else left)
      && Without(newObj[..k + 1], current) == Without(newObj[..k], current) + (if x in current then [] else [x])
  {
    var x, done := newObj[k], newObj[..k];
    var left := Without(current, done);
    assert newObj[..k + 1] == done + [x];
    assert newObj[..k + 1][..k] == done;
    WithoutSnoc(current, done, x);
    WithoutDistinct(current, done);
    assert x !in done by {
      forall j | 0 <= j < k
        ensures done[j] != x
      {
        assert done[j] == newObj[j];
      }
    }
    if x in left {
      RemoveFirstDistinct(left, x);
    } else {
      WithoutAbsent(left, [x]);
    }
  }

  /** `[i for i in old_obj if i not in new_obj or new_obj.remove(i)]` on
      what the first pass left of `old_obj`: none of it is in `new_obj`, so
      everything is kept and `new_obj` is never shortened. */
  method RemovePass(oldObj: seq<nat>, newObj: seq<nat>) returns (remove: seq<nat>)
    requires forall x :: x in oldObj ==> x !in newObj
    ensures remove == oldObj
  {
    var newLeft := newObj;
    remove := [];
    var m := 0;
    while m < |oldObj|
      invariant 0 <= m <= |oldObj|
      invariant newLeft == newObj
      invariant remove == oldObj[..m]
    {
      var x := oldObj[m];
      if x !in newLeft {
        remove := remove + [x];
      } else {
        // `new_obj.remove(i)`: unreachable, every id left is unrequested
        assert false;
      }
      assert oldObj[..m + 1] == oldObj[..m] + [x];
      m := m + 1;
    }
    assert oldObj[..m] == oldObj;
  }

  /** JobWriteSerializer._new_list, including the `list.remove` calls the
      two comprehensions make on the lists they read. */
  method NewList(requested: seq<nat>, current: seq<nat>) returns (add: seq<nat>, remove: seq<nat>)
    requires Distinct(current)
    ensures add == ToAdd(requested, current)
    ensures remove == ToRemove(requested, current)
  {
    var newObj := FromKeys(requested);
    var oldObj;
    add, oldObj := AddPass(newObj, current);
    WithoutElems(current, newObj);
    remove := RemovePass(oldObj, newObj);
    WithoutSameMembers(current, newObj, requested);
  }

  lemma {:induction false} WithoutSameMembers(s: seq<nat>, a: seq<nat>, b: seq<nat>)
    requires forall x :: x in a <==> x in b
    ensures Without(s, a) == Without(s, b)
  {
    if s != [] {
      WithoutSameMembers(s[..|s| - 1], a, b);
    }
  }

  /** The two lists never share an id, and applying them (remove, then add)
      to the relation leaves exactly the requested ids. */
  lemma NewListReconciles(requested: seq<nat>, current: seq<nat>)
    ensures forall x :: !(x in ToAdd(requested, current) && x in ToRemove(requested, current))
    ensures Elems(current) - Elems(ToRemove(requested, current))
            + Elems(ToAdd(requested, current)) == Elems(requested)
  {
    WithoutElems(Dedup(requested), current);
    WithoutElems(current, requested);
  }

  /** A many-to-many relation of a Job (its managers or its mechanics). */
  class Relation {
    var ids: seq<nat>

    constructor(ids: seq<nat>)
      requires Distinct(ids)
      ensures this.ids == ids
    {
      this.ids := ids;
    }

    /** `relation.remove(x)` */
    method Remove(x: nat)
      requires Distinct(ids)
      modifies this
      ensures ids == Without(old(ids), [x])
      ensures Distinct(ids)
    {
      WithoutDistinct(ids, [x]);
      ids := Without(ids, [x]);
    }

    /** `relation.add(x)`: adding an id that is already related changes
        nothing. */
    method Add(x: nat)
      requires Distinct(ids)
      modifies this
      ensures ids == if x in old(ids) then old(ids) else old(ids) + [x]
      ensures Distinct(ids)
    {
      if x !in ids {
        ids := ids + [x];
      }
    }

    /** JobWriteSerializer._del_and_add_m2m_obj */
    method DelAndAdd(add: seq<nat>, remove: seq<nat>)
      requires Distinct(ids)
      modifies this
      ensures Distinct(ids)
      ensures Elems(ids) == Elems(old(ids)) - Elems(remove) + Elems(add)
    {
      var i := 0;
      while i < |remove|
        invariant 0 <= i <= |remove|
        invariant Distinct(ids)
        invariant Elems(ids) == Elems(old(ids)) - Elems(remove[..i])
      {
        assert remove[..i + 1] == remove[..i] + [remove[i]];
        ElemsSnoc(remove[..i], remove[i]);
        ghost var before := ids;
        Remove(remove[i]);
        WithoutElems(before, [remove[i]]);
        assert Elems(ids) == Elems(before) - {remove[i]};
        i := i + 1;
      }
      assert remove[..i] == remove;
      var j := 0;
      while j < |add|
        invariant 0 <= j <= |add|
        invariant Distinct(ids)
        invariant Elems(ids) == Elems(old(ids)) - Elems(remove) + Elems(add[..j])
      {
        assert add[..j + 1] == add[..j] + [add[j]];
        ElemsSnoc(add[..j], add[j]);
        ghost var before := ids;
        Add(add[j]);
        assert Elems(ids) == Elems(before) + {add[j]};
        j := j + 1;
      }
      assert add[..j] == add;
    }

    /** One relation's part of JobWriteSerializer.update: `None` leaves the
        relation alone, a list makes the related ids exactly the listed
        ones. */
    method Replace(data: Option<seq<nat>>)
      requires Distinct(ids)
      modifies this
      ensures Distinct(ids)
      ensures data.None? ==> ids == old(ids)
      ensures data.Some? ==> Elems(ids) == Elems(data.value)
    {
      if data.Some? {
        var add, remove := NewList(data.value, ids);
        NewListReconciles(data.value, ids);
        DelAndAdd(add, remove);
      }
    }
  }

  /** JobWriteSerializer.update for the two relations: managers first, then
      mechanics. */
  method UpdateJobRelations(managers: Relation, mechanics: Relation,
                            managersData: Option<seq<nat>>, mechanicsData: Option<seq<nat>>)
    requires managers != mechanics
    requires Distinct(managers.ids) && Distinct(mechanics.ids)
    modifies managers, mechanics
    ensures managersData.None? ==> managers.ids == old(managers.ids)
    ensures managersData.Some? ==> Elems(managers.ids) == Elems(managersData.value)
    ensures mechanicsData.None? ==> mechanics.ids == old(mechanics.ids)
    ensures mechanicsData.Some? ==> Elems(mechanics.ids) == Elems(mechanicsData.value)
  {
    managers.Replace(managersData);
    mechanics.Replace(mechanicsData);
  }

  /** JobWriteSerializer.validate: a mechanic may neither create nor update
      a Job; otherwise the Job's own `clean` decides, and DRF files its
      message-only refusal under the non-field key. */
  function JobWriteValidate(user: User, isNew: bool, status: Status): (r: Outcome)
    ensures IsMechanic(user) ==> r == Fail(Invalid("created_by", "You do not have permissions to create or update Job."))
    ensures !IsMechanic(user) && isNew && status != Open ==>
      r == Fail(Invalid(NonFieldErrors, "You cannot create a Job with this status"))
    ensures r.Pass? <==> !IsMechanic(user) && !(isNew && status != Open)
  {
    if IsMechanic(user) then Fail(Invalid("created_by", "You do not have permissions to create or update Job."))
    else AsSerializerOutcome(JobClean(isNew, status))
  }

  // ---------------------------------------------------------------------
  // EmployeeWorkBlockSerializer

  /** A stored work block: the ticket it belongs to, the mechanic and the
      two times. */
  datatype StoredBlock = StoredBlock(ticket: nat, employee: nat, start: Option<int>, end: Option<int>)

  /** The block data a request sends: an id when it updates a block. */
  datatype BlockData = BlockData(id: Option<nat>, employee: nat, start: Option<int>, end: Option<int>)

  /** The query `start_time < out and end_time > in`: strict on both sides,
      and false for a stored block missing either time. */
  predicate Overlaps(b: StoredBlock, start: int, end: int)
  {
    b.start.Some? && b.end.Some? && b.start.value < end && b.end.value > start
  }

  /** A stored block that the new data collides with: same mechanic,
      overlapping hours, and not the block being updated. */
  predicate Conflicts(table: map<nat, StoredBlock>, k: nat, d: BlockData)
    requires k in table && d.start.Some? && d.end.Some?
  {
    table[k].employee == d.employee && Overlaps(table[k], d.start.value, d.end.value)
    && (d.id.None? || k != d.id.value)
  }

  /** The error message of EmployeeWorkBlockSerializer's `employee` field
      when it is missing or null. */
  const EmployeeNameRequired := "Employee name is required."

  /** EmployeeWorkBlockSerializer.validate against the work-block table. */
  function ValidateWorkBlock(d: BlockData, table: map<nat, StoredBlock>): (r: Outcome)
    ensures d.start.None? || d.end.None? ==> r == Fail(Invalid("time", "Enter both start and end time for the work"))
    ensures d.start.Some? && d.end.Some? && d.start.value > d.end.value ==>
      r == Fail(Invalid("start_time", "Start Time can not be ahead of the End Time"))
    ensures r.Pass? <==>
      && d.start.Some? && d.end.Some? && d.start.value <= d.end.value
      && forall k :: k in table ==> !Conflicts(table, k, d)
  {
    if d.start.None? || d.end.None? then Fail(Invalid("time", "Enter both start and end time for the work"))
    else if d.start.value > d.end.value then Fail(Invalid("start_time", "Start Time can not be ahead of the End Time"))
    else if exists k :: k in table && Conflicts(table, k, d) then
      Fail(Invalid("time", "One or more mechanics were working during these hours"))
    else Pass
  }

  /** Overlap is symmetric: which block is stored and which is new does
      not matter. */
  lemma OverlapSymmetric(s1: int, e1: int, s2: int, e2: int)
    ensures Overlaps(StoredBlock(0, 0, Some(s1), Some(e1)), s2, e2)
        <==> Overlaps(StoredBlock(0, 0, Some(s2), Some(e2)), s1, e1)
  {
  }

  /** A block that passes validation shares no moment with any other block
      of the same mechanic; blocks that only touch (one ends when the other
      starts) are accepted. */
  lemma AcceptedBlockIsDisjoint(d: BlockData, table: map<nat, StoredBlock>, k: nat)
    requires ValidateWorkBlock(d, table).Pass?
    requires k in table && table[k].employee == d.employee && table[k].start.Some? && table[k].end.Some?
    requires d.id.None? || k != d.id.value
    ensures table[k].end.value <= d.start.value || table[k].start.value >= d.end.value
  {
    assert !Conflicts(table, k, d);
  }

  /** Touching blocks are accepted: a block starting exactly when the
      mechanic's only other block ends. */
  lemma TouchingBlocksAccepted(k: nat, b: StoredBlock, d: BlockData)
    requires b.start.Some? && b.end.Some? && b.start.value <= b.end.value
    requires d.start == b.end && d.end.Some? && b.end.value <= d.end.value
    ensures ValidateWorkBlock(d, map[k := b]).Pass?
  {
  }

  /** EmployeeWorkBlockSerializer.get_hours_worked: `'%d:%02d'` of the whole
      hours and minutes, or nothing for a missing or zero duration. */
  function HoursWorkedText(b: WorkBlock): (r: Option<string>)
    ensures r.None? <==> HoursWorked(b).None? || HoursWorked(b).value == 0
  {
    match HoursWorked(b)
    case None => None
    case Some(seconds) =>
      if seconds == 0 then None
      else
        var minutes := seconds / 60;
        Some(IntToString(minutes / 60) + ":" + PadNat(minutes % 60, 2))
  }

  /** For a block of non-negative length the text reads back as the whole
      minutes worked. */
  lemma HoursWorkedTextRoundTrip(b: WorkBlock)
    requires HoursWorked(b).Some? && HoursWorked(b).value > 0
    ensures var t := HoursWorkedText(b).value; var h := NatToString(HoursWorked(b).value / 60 / 60);
      && |t| == |h| + 3 && t[..|h|] == h && t[|h|] == ':'
      && ParseNat(h) * 60 + ParseNat(t[|h| + 1..]) == HoursWorked(b).value / 60
  {
    var minutes := HoursWorked(b).value / 60;
    var h := NatToString(minutes / 60);
    var mm := PadNat(minutes % 60, 2);
    TwoDigitPad(minutes % 60);
    ParseNatToString(minutes / 60);
    var t := HoursWorkedText(b).value;
    assert t == h + ":" + mm;
    assert t[..|h|] == h && t[|h| + 1..] == mm;
  }

  // ---------------------------------------------------------------------
  // ServiceTicketWriteSerializer.validate_status

  /** ServiceTicketWriteSerializer.validate_status: managers and billers do
      not submit, mechanics neither approve nor reject. */
  function SubmitRoleCheck(status: Status, user: User): (r: Result<Status>)
    ensures r.Ok? ==> r.value == status
    ensures r.Err? <==>
      || (status == Pending && (IsBiller(user) || IsManager(user)))
      || (status == Approved && IsMechanic(user))
      || (status == Rejected && IsMechanic(user))
    ensures r.Err? ==> r.error.Invalid? && r.error.field == "status"
  {
    if status == Pending && (IsBiller(user) || IsManager(user)) then
      Err(Invalid("status", "Manager and Biller cannot submit Service Ticket for approval."))
    else if status == Approved && IsMechanic(user) then
      Err(Invalid("status", "Mechanic cannot approve Service Ticket."))
    else if status == Rejected && IsMechanic(user) then
      Err(Invalid("status", "Mechanic cannot reject Service Ticket."))
    else Ok(status)
  }

  /** Only the request's status decides for an admin who holds no other
      role: every status passes. An OPEN status passes for everybody. */
  lemma SubmitRoleCheckFacts(status: Status, user: User)
    ensures SubmitRoleCheck(Open, user).Ok?
    ensures !IsBiller(user) && !IsManager(user) && !IsMechanic(user) ==> SubmitRoleCheck(status, user).Ok?
  {
  }

  // ---------------------------------------------------------------------
  // ServiceTicketWriteSerializer.validate

  const LockRowMissing := "DBLockDate matching query does not exist."
  const LockRowsMany := "get() returned more than one DBLockDate"

  /** The DB-lock check over the rows of the lock table, each row's
      nullable lock date. A ticket without a date is never checked. A dated
      one makes `DBLockDate.objects.get()` run, which raises unless the
      table holds exactly one row; then a ticket dated strictly before a set
      lock date is refused. */
  function DbLockCheck(date: Option<int>, lockRows: seq<Option<int>>): (r: Outcome)
    ensures date.None? ==> r == Pass
    ensures date.Some? && |lockRows| == 0 ==> r == Fail(Fault(LockRowMissing))
    ensures date.Some? && |lockRows| > 1 ==> r.Fail? && r.error.Fault? && StartsWith(r.error.reason, LockRowsMany)
    ensures date.Some? && |lockRows| == 1 ==>
      (r.Fail? <==> lockRows[0].Some? && date.value < lockRows[0].value)
    ensures date.Some? && |lockRows| == 1 && r.Fail? ==> r.error == DBLocked
  {
    if date.None? then Pass
    else if |lockRows| == 0 then Fail(Fault(LockRowMissing))
    else if |lockRows| > 1 then
      Fail(Fault(LockRowsMany + " -- it returned " + NatToString(|lockRows|) + "!"))
    else if lockRows[0].Some? && date.value < lockRows[0].value then Fail(DBLocked)
    else Pass
  }

  /** ServiceTicketWriteSerializer.validate: the lock check, then the
      ticket's own `clean` on the record as the request would leave it,
      whose message-only refusal DRF files under the non-field key. */
  function TicketWriteValidate(date: Option<int>, lockRows: seq<Option<int>>, t: TicketDraft, user: User): (r: Outcome)
    ensures DbLockCheck(date, lockRows).Fail? ==> r == DbLockCheck(date, lockRows)
    ensures DbLockCheck(date, lockRows).Pass? ==> (r.Pass? <==> TicketClean(t, user).Pass?)
    ensures DbLockCheck(date, lockRows).Pass? && TicketClean(t, user).Fail? ==>
      r.error == AsSerializerError(TicketClean(t, user).error)
    ensures r.Fail? && r.error.Invalid? ==> r.error.field != NonField
  {
    var lock := DbLockCheck(date, lockRows);
    if lock.Fail? then lock else AsSerializerOutcome(TicketClean(t, user))
  }

  /** With one row in the lock table, a ticket dated on the lock date itself
      is not locked and one dated the day before is. */
  lemma LockDateItselfIsOpen(d: int)
    ensures DbLockCheck(Some(d), [Some(d)]).Pass?
    ensures DbLockCheck(Some(d - 1), [Some(d)]) == Fail(DBLocked)
  {
  }

  // ---------------------------------------------------------------------
  // ServiceTicketWriteSerializer.update_employee_works

  /** One work-block entry of the request: the id of the block it updates
      (none for a new block), the mechanic and the two times. */
  datatype WorkEntry = WorkEntry(id: Option<nat>, employee: Option<nat>, start: Option<int>, end: Option<int>)

  /** The `employee_works` field of the request: the empty string, missing,
      or a list of entries. */
  datatype WorksPayload = Blank | Absent | Entries(entries: seq<WorkEntry>)

  /** What the entry loop carries: the work-block table, the key the next
      created block gets, and `ids_to_update`. */
  datatype WorksState = WorksState(rows: map<nat, StoredBlock>, nextId: nat, touched: set<nat>)

  /** Where the entry loop stopped: its state, and the error it raised, if
      any. */
  datatype WorksRun = WorksRun(st: WorksState, err: Option<Error>)

  const EmployeeRequired := "Employee is required for creating Service Ticket."
  const NoSuchBlock := "EmployeeWorkBlock matching query does not exist."

  /** The ids of the blocks of one ticket. */
  function TicketIds(rows: map<nat, StoredBlock>, ticket: nat): (r: set<nat>)
    ensures forall k :: k in r <==> k in rows && rows[k].ticket == ticket
  {
    set k | k in rows && rows[k].ticket == ticket
  }

  /** The table with the given blocks deleted. */
  function Prune(rows: map<nat, StoredBlock>, ids: set<nat>): (r: map<nat, StoredBlock>)
    ensures r.Keys == rows.Keys - ids
    ensures forall k :: k in r ==> r[k] == rows[k]
  {
    map k | k in rows && k !in ids :: rows[k]
  }

  /** The ids the entries name. */
  function PayloadIds(es: seq<WorkEntry>): set<nat>
  {
    set j | 0 <= j < |es| && es[j].id.Some? :: es[j].id.value
  }

  /** How many entries create a block. */
  function NewCount(es: seq<WorkEntry>): nat
  {
    if es == [] then 0 else NewCount(es[..|es| - 1]) + (if es[|es| - 1].id.None? then 1 else 0)
  }

  /** The keys from `lo` up to, not including, `hi`. */
  function KeyRange(lo: nat, hi: nat): (r: set<nat>)
    ensures forall k :: k in r <==> lo <= k < hi
    decreases hi
  {
    if hi <= lo then {} else KeyRange(lo, hi - 1) + {hi - 1}
  }

  /** One round of the entry loop: the mechanic is required, the block
      serializer's `validate` runs against the table as it stands, then a
      new block is created or the named block of this ticket is updated. */
  function EntryStep(ticket: nat, st: WorksState, e: WorkEntry): (r: Result<WorksState>)
    ensures e.employee.None? ==> r == Err(Invalid("employee", EmployeeRequired))
    ensures r.Ok? ==> e.employee.Some? && ValidateWorkBlock(BlockData(e.id, e.employee.value, e.start, e.end), st.rows).Pass?
  {
    if e.employee.None? then Err(Invalid("employee", EmployeeRequired))
    else
      match ValidateWorkBlock(BlockData(e.id, e.employee.value, e.start, e.end), st.rows)
      case Fail(err) => Err(err)
      case Pass =>
        var row := StoredBlock(ticket, e.employee.value, e.start, e.end);
        if e.id.None? then Ok(WorksState(st.rows[st.nextId := row], st.nextId + 1, st.touched))
        else if e.id.value in st.rows && st.rows[e.id.value].ticket == ticket then
          Ok(WorksState(st.rows[e.id.value := row], st.nextId, st.touched + {e.id.value}))
        else Err(Fault(NoSuchBlock))
  }

  /** The entry loop over `es`: it stops at the first error, keeping what
      it wrote before. */
  function RunEntries(ticket: nat, st: WorksState, es: seq<WorkEntry>): WorksRun
  {
    if es == [] then WorksRun(st, None)
    else
      var run := RunEntries(ticket, st, es[..|es| - 1]);
      if run.err.Some? then run
      else
        match EntryStep(ticket, run.st, es[|es| - 1])
        case Ok(next) => WorksRun(next, None)
        case Err(e) => WorksRun(run.st, Some(e))
  }

  /** A run that stopped keeps its result whatever entries follow. */
  lemma {:induction false} RunStops(ticket: nat, st: WorksState, es: seq<WorkEntry>, i: nat)
    requires i <= |es| && RunEntries(ticket, st, es[..i]).err.Some?
    ensures RunEntries(ticket, st, es) == RunEntries(ticket, st, es[..i])
    decreases |es| - i
  {
    if i < |es| {
      assert es[..i + 1][..i] == es[..i];
      RunStops(ticket, st, es, i + 1);
    } else {
      assert es[..i] == es;
    }
  }

  lemma PayloadIdsSnoc(es: seq<WorkEntry>, e: WorkEntry)
    ensures PayloadIds(es + [e]) == PayloadIds(es) + (if e.id.Some? then {e.id.value} else {})
  {
    var t := es + [e];
    forall x | x in PayloadIds(t)
      ensures x in PayloadIds(es) + (if e.id.Some? then {e.id.value} else {})
    {
      var j :| 0 <= j < |t| && t[j].id.Some? && t[j].id.value == x;
      if j < |es| {
        assert t[j] == es[j];
      }
    }
    forall x | x in PayloadIds(es)
      ensures x in PayloadIds(t)
    {
      var j :| 0 <= j < |es| && es[j].id.Some? && es[j].id.value == x;
      assert t[j] == es[j];
    }
    if e.id.Some? {
      assert t[|es|] == e;
    }
  }

  /** A run that raised nothing: every table key below the next key before
      stays below it after; no row is deleted; rows of other tickets are
      untouched; the new keys are exactly those handed out, one per entry
      without an id; and the ids recorded for update are exactly the ids the
      entries name. */
  lemma {:induction false} RunFacts(ticket: nat, st: WorksState, es: seq<WorkEntry>)
    requires forall k :: k in st.rows ==> k < st.nextId
    requires RunEntries(ticket, st, es).err.None?
    ensures var out := RunEntries(ticket, st, es).st;
      && (forall k :: k in out.rows ==> k < out.nextId)
      && out.nextId == st.nextId + NewCount(es)
      && out.rows.Keys == st.rows.Keys + KeyRange(st.nextId, out.nextId)
      && (forall k :: k in st.rows && st.rows[k].ticket != ticket ==> out.rows[k] == st.rows[k])
      && out.touched == st.touched + PayloadIds(es)
  {
    if es == [] {
      assert KeyRange(st.nextId, st.nextId) == {};
      assert PayloadIds(es) == {};
    } else {
      var front, e := es[..|es| - 1], es[|es| - 1];
      assert es == front + [e];
      RunFacts(ticket, st, front);
      PayloadIdsSnoc(front, e);
      var mid := RunEntries(ticket, st, front).st;
      EntryStepFacts(ticket, mid, e);
      var next := EntryStep(ticket, mid, e).value;
      assert RunEntries(ticket, st, es) == WorksRun(next, None);
      assert NewCount(es) == NewCount(front) + (if e.id.None? then 1 else 0);
      if e.id.None? {
        assert KeyRange(st.nextId, next.nextId) == KeyRange(st.nextId, mid.nextId) + {mid.nextId};
      }
    }
  }

  /** One successful round hands out at most one new key, deletes nothing,
      leaves other tickets' rows alone and records the id it updated. */
  lemma EntryStepFacts(ticket: nat, st: WorksState, e: WorkEntry)
    requires forall k :: k in st.rows ==> k < st.nextId
    requires EntryStep(ticket, st, e).Ok?
    ensures var next := EntryStep(ticket, st, e).value;
      && (forall k :: k in next.rows ==> k < next.nextId)
      && next.nextId == st.nextId + (if e.id.None? then 1 else 0)
      && next.rows.Keys == st.rows.Keys + (if e.id.None? then {st.nextId} else {})
      && (forall k :: k in st.rows && st.rows[k].ticket != ticket ==> next.rows[k] == st.rows[k])
      && next.touched == st.touched + (if e.id.Some? then {e.id.value} else {})
  {
  }

  /** The work-block table of the database, with the key its next insert
      gets. */
  class WorkBlockTable {
    var rows: map<nat, StoredBlock>
    var nextId: nat

    /** Every stored key was handed out before. */
    ghost predicate Valid()
      reads this
    {
      forall k :: k in rows ==> k < nextId
    }

    constructor()
      ensures rows == map[] && nextId == 0 && Valid()
    {
      rows := map[];
      nextId := 0;
    }

    /** The entry loop of update_employee_works; it returns the error it
        stopped on, if any, and `ids_to_update`. */
    method ApplyEntries(ticket: nat, es: seq<WorkEntry>) returns (err: Option<Error>, touched: set<nat>)
      requires Valid()
      modifies this
      ensures Valid()
      ensures RunEntries(ticket, WorksState(old(rows), old(nextId), {}), es)
        == WorksRun(WorksState(rows, nextId, touched), err)
    {
      ghost var start := WorksState(rows, nextId, {});
      touched := {};
      var i := 0;
      while i < |es|
        invariant 0 <= i <= |es|
        invariant RunEntries(ticket, start, es[..i]) == WorksRun(WorksState(rows, nextId, touched), None)
        invariant Valid()
      {
        var e := es[i];
        assert es[..i + 1][..i] == es[..i];
        assert es[..i + 1][i] == e;
        var step := ApplyEntry(ticket, touched, e);
        if step.Some? {
          RunStops(ticket, start, es, i + 1);
          return step, touched;
        }
        if e.id.Some? {
          touched := touched + {e.id.value};
        }
        i := i + 1;
      }
      assert es[..i] == es;
      err := None;
    }

    /** One round of the entry loop; on an error nothing is written. */
    method ApplyEntry(ticket: nat, touched: set<nat>, e: WorkEntry) returns (err: Option<Error>)
      requires Valid()
      modifies this
      ensures Valid()
      ensures var step := EntryStep(ticket, WorksState(old(rows), old(nextId), touched), e);
        && (step.Err? ==> err == Some(step.error) && rows == old(rows) && nextId == old(nextId))
        && (step.Ok? ==> err.None? && step.value == WorksState(rows, nextId,
              if e.id.Some? then touched + {e.id.value} else touched))
    {
      if e.employee.None? {
        return Some(Invalid("employee", EmployeeRequired));
      }
      var check := ValidateWorkBlock(BlockData(e.id, e.employee.value, e.start, e.end), rows);
      if check.Fail? {
        return Some(check.error);
      }
      var row := StoredBlock(ticket, e.employee.value, e.start, e.end);
      if e.id.None? {
        rows := rows[nextId := row];
        nextId := nextId + 1;
      } else if e.id.value in rows && rows[e.id.value].ticket == ticket {
        rows := rows[e.id.value := row];
      } else {
        return Some(Fault(NoSuchBlock));
      }
      err := None;
    }

    /** `employee_works.get(id=k).delete()` for every `k` of `ids`. */
    method DeleteBlocks(ids: set<nat>)
      requires Valid()
      modifies this
      ensures Valid()
      ensures rows == Prune(old(rows), ids) && nextId == old(nextId)
    {
      var left := ids;
      while left != {}
        invariant left <= ids
        invariant rows == Prune(old(rows), ids - left)
        invariant Valid() && nextId == old(nextId)
        decreases |left|
      {
        var k :| k in left;
        rows := rows - {k};
        left := left - {k};
      }
    }

    /** ServiceTicketWriteSerializer.update_employee_works for the ticket
        `ticket`. Rows written before an error stay written. */
    method UpdateEmployeeWorks(ticket: nat, payload: WorksPayload) returns (r: Outcome)
      requires Valid()
      modifies this
      ensures Valid()
      ensures payload == Blank ==>
        (r == Pass && nextId == old(nextId) && rows == Prune(old(rows), TicketIds(old(rows), ticket)))
      ensures payload == Absent ==> (r == Pass && rows == old(rows) && nextId == old(nextId))
      ensures payload.Entries? ==>
        var run := RunEntries(ticket, WorksState(old(rows), old(nextId), {}), payload.entries);
        && nextId == run.st.nextId
        && (run.err.Some? ==> r == Fail(run.err.value) && rows == run.st.rows)
        && (run.err.None? ==> r == Pass && rows == Prune(run.st.rows, TicketIds(old(rows), ticket) - run.st.touched))
    {
      if payload == Blank {
        DeleteBlocks(TicketIds(rows, ticket));
        return Pass;
      }
      if payload == Absent {
        return Pass;
      }
      var allIds := TicketIds(rows, ticket);
      var err, touched := ApplyEntries(ticket, payload.entries);
      if err.Some? {
        return Fail(err.value);
      }
      DeleteBlocks(allIds - touched);
      r := Pass;
    }
  }

  /** Pruning the ticket's blocks that the entries did not name, after a
      run that kept every key, handed out one new key per entry without an
      id, left other tickets' rows alone and recorded the named ids. */
  lemma PruneUnnamed(ticket: nat, rows: map<nat, StoredBlock>, nextId: nat, out: WorksState, es: seq<WorkEntry>)
    requires forall k :: k in rows ==> k < nextId
    requires out.rows.Keys == rows.Keys + KeyRange(nextId, nextId + NewCount(es))
    requires forall k :: k in rows && rows[k].ticket != ticket ==> out.rows[k] == rows[k]
    requires out.touched == {} + PayloadIds(es)
    ensures var final := Prune(out.rows, TicketIds(rows, ticket) - out.touched);
      && (forall k :: k in rows && rows[k].ticket == ticket ==> (k in final <==> k in PayloadIds(es)))
      && (forall k :: k in rows && rows[k].ticket != ticket ==> k in final && final[k] == rows[k])
      && final.Keys - rows.Keys == KeyRange(nextId, nextId + NewCount(es))
  {
    var gone := TicketIds(rows, ticket) - out.touched;
    var final := Prune(out.rows, gone);
    forall k | k in rows && rows[k].ticket == ticket
      ensures k in final <==> k in PayloadIds(es)
    {
      assert k in out.rows;
    }
    forall k | k in rows && rows[k].ticket != ticket
      ensures k in final && final[k] == rows[k]
    {
      assert k !in gone;
    }
    forall k | k in KeyRange(nextId, nextId + NewCount(es))
      ensures k in final.Keys - rows.Keys
    {
      assert k !in rows && k !in gone;
    }
  }

  /** What a request with a list of work blocks leaves behind when it
      succeeds: the ticket's old blocks stay exactly when the request names
      their id; blocks of other tickets are untouched; and one new block is
      created, under a fresh key, per entry without an id. */
  lemma WorksReconcile(ticket: nat, rows: map<nat, StoredBlock>, nextId: nat, es: seq<WorkEntry>)
    requires forall k :: k in rows ==> k < nextId
    requires RunEntries(ticket, WorksState(rows, nextId, {}), es).err.None?
    ensures var out := RunEntries(ticket, WorksState(rows, nextId, {}), es).st;
      var final := Prune(out.rows, TicketIds(rows, ticket) - out.touched);
      && (forall k :: k in rows && rows[k].ticket == ticket ==> (k in final <==> k in PayloadIds(es)))
      && (forall k :: k in rows && rows[k].ticket != ticket ==> k in final && final[k] == rows[k])
      && final.Keys - rows.Keys == KeyRange(nextId, nextId + NewCount(es))
  {
    var st := WorksState(rows, nextId, {});
    RunFacts(ticket, st, es);
    PruneUnnamed(ticket, rows, nextId, RunEntries(ticket, st, es).st, es);
  }

  // ---------------------------------------------------------------------
  // The nested `employee_works` field of ServiceTicketWriteSerializer

  /** One entry of the `employee_works` field, which is an
      EmployeeWorkBlockSerializer with `many=True`: before `validate` and the
      update run, each entry goes through that serializer on its own. Its
      `employee` field is required and not null, so an entry without a
      mechanic is refused on that field; any other entry goes through the
      serializer's `validate` against the table as stored. */
  function EntryFieldCheck(e: WorkEntry, table: map<nat, StoredBlock>): (r: Outcome)
    ensures e.employee.None? ==> r == Fail(Invalid("employee", EmployeeNameRequired))
    ensures e.employee.Some? ==> r == ValidateWorkBlock(BlockData(e.id, e.employee.value, e.start, e.end), table)
  {
    match e.employee
    case Some(m) => ValidateWorkBlock(BlockData(e.id, m, e.start, e.end), table)
    case None => Fail(Invalid("employee", EmployeeNameRequired))
  }

  /** The per-entry errors of a list of entries, each entry checked against
      the same stored table: slot `i` is entry `i`'s error, `None` where it
      passed. */
  function EntrySlots(es: seq<WorkEntry>, table: map<nat, StoredBlock>): (slots: seq<Option<Error>>)
    ensures |slots| == |es|
    ensures forall i :: 0 <= i < |es| ==> slots[i] == ErrorOf(EntryFieldCheck(es[i], table))
  {
    if es == [] then []
    else
      var rest := EntrySlots(es[1..], table);
      assert forall i :: 1 <= i < |es| ==> es[i] == es[1..][i - 1];
      [ErrorOf(EntryFieldCheck(es[0], table))] + rest
  }

  /** The field-level check of `employee_works`: the list passes when every
      slot is empty, and otherwise the field's error is the whole list of
      slots, so every refused entry is reported in its own place. */
  function WorksFieldCheck(es: seq<WorkEntry>, table: map<nat, StoredBlock>): (r: Outcome)
    ensures r.Pass? <==> forall i :: 0 <= i < |es| ==> EntryFieldCheck(es[i], table).Pass?
    ensures r.Fail? ==> r.error.InvalidEntries? && r.error.field == "employee_works" && |r.error.slots| == |es|
    ensures r.Fail? ==> forall i :: 0 <= i < |es| ==> r.error.slots[i] == ErrorOf(EntryFieldCheck(es[i], table))
  {
    var slots := EntrySlots(es, table);
    if forall i | 0 <= i < |slots| :: slots[i].None? then Pass
    else Fail(InvalidEntries("employee_works", slots))
  }

  /** A list that moves block 5 away and puts a new block of the same
      mechanic in its old hours: the entry loop alone accepts it, since block
      5 has moved by the time the new entry is checked, but the field-level
      check refuses it, because the new entry overlaps block 5 as stored. */
  lemma FieldCheckSeesStoredTable()
    ensures var table := map[5 := StoredBlock(1, 7, Some(10), Some(20))];
      var es := [WorkEntry(Some(5), Some(7), Some(30), Some(40)), WorkEntry(None, Some(7), Some(10), Some(20))];
      && WorksFieldCheck(es, table) == Fail(InvalidEntries("employee_works", [None, Some(Invalid("time", "One or more mechanics were working during these hours"))]))
      && RunEntries(1, WorksState(table, 6, {}), es).err.None?
  {
    var table := map[5 := StoredBlock(1, 7, Some(10), Some(20))];
    var es := [WorkEntry(Some(5), Some(7), Some(30), Some(40)), WorkEntry(None, Some(7), Some(10), Some(20))];
    assert Conflicts(table, 5, BlockData(None, 7, Some(10), Some(20)));
    assert EntryFieldCheck(es[1], table).Fail?;
    var st := WorksState(table, 6, {});
    var moved := map[5 := StoredBlock(1, 7, Some(30), Some(40))];
    assert es[..1] == [es[0]] && es[..1][..0] == [];
    assert forall k :: k in table ==> !Conflicts(table, k, BlockData(Some(5), 7, Some(30), Some(40)));
    assert ValidateWorkBlock(BlockData(Some(5), 7, Some(30), Some(40)), table).Pass?;
    assert 5 in st.rows && st.rows[5].ticket == 1;
    assert table[5 := StoredBlock(1, 7, Some(30), Some(40))] == moved;
    var e0 := WorkEntry(Some(5), Some(7), Some(30), Some(40));
    assert es[0] == e0;
    assert EntryStep(1, st, e0).Ok?;
    assert EntryStep(1, st, e0).value.rows == moved;
    assert EntryStep(1, st, e0).value.touched == {5};
    assert EntryStep(1, st, es[0]) == Ok(WorksState(moved, 6, {5}));
    assert RunEntries(1, st, es[..1]) == WorksRun(WorksState(moved, 6, {5}), None);
    assert es[..|es| - 1] == es[..1];
    assert forall k :: k in moved ==> !Conflicts(moved, k, BlockData(None, 7, Some(10), Some(20)));
  }
}
