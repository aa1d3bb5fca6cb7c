/** serializers/time_tracker_serializers.py: the write serializer of
    indirect hours -- who may send which keys for a record in which status,
    the check on the mechanic list, and `validate`, which takes the
    `mechanic` entry out of the request data, runs the checks and the
    record's `clean`, and puts the entry back.

    The request's user is a parameter. The request data is a dictionary
    object that `validate` changes in place, so it is a class here, as is
    the stored record that `validate` assigns the request's values to. */
module TimeTrackerSerializers {
  import opened Wrappers
  import opened UserModels
  import opened TimeTrackerModels

  /** A value of the request data once DRF's field validation has run. */
  datatype Value =
    | StatusValue(status: HoursStatus)
    | MechanicsValue(ids: seq<nat>)
    | FieldValue(text: string)

  /** The keys of the request data `validate` reads. */
  const StatusKey := "status"
  const MechanicKey := "mechanic"

  const CreateOrUpdateDenied := "You do not have permissions to create or update Indirect Hours."
  const UpdateDenied := "You do not have permissions to update Indirect Hours."

  /** What DRF's field validation guarantees of the data `validate` gets:
      `status` holds a status and `mechanic` a list of ids. */
  predicate WellTyped(entries: map<string, Value>)
  {
    && (StatusKey in entries ==> entries[StatusKey].StatusValue?)
    && (MechanicKey in entries ==> entries[MechanicKey].MechanicsValue?)
  }

  /** raise_if_not_status: the data must consist of the `status` key alone. */
  function RaiseIfNotStatus(keys: set<string>, msg: string): (r: Outcome)
    ensures r.Pass? <==> keys == {StatusKey}
    ensures r.Fail? ==> r.error == Invalid(NonFieldErrors, msg)
  {
    if |keys| > 1 || StatusKey !in keys then Fail(Invalid(NonFieldErrors, msg))
    else
      assert keys == {StatusKey} by {
        forall k | k in keys ensures k == StatusKey {
          if k != StatusKey {
            assert {k, StatusKey} <= keys;
            assert |{k, StatusKey}| == 2;
            SubsetSize({k, StatusKey}, keys);
          }
        }
      }
      Pass
  }

  lemma SubsetSize(a: set<string>, b: set<string>)
    requires a <= b
    ensures |a| <= |b|
  {
    assert b == a + (b - a);
  }

  /** validate_mechanic: a mechanic who creates hours must be the first of
      the listed mechanics. An empty list from a mechanic reaches `value[0]`
      and fails there. */
  function ValidateMechanic(createdBy: User, ids: seq<nat>): (r: Result<seq<nat>>)
    ensures r.Ok? ==> r.value == ids
    ensures r.Ok? <==> !IsMechanic(createdBy) || (|ids| > 0 && ids[0] == createdBy.id)
    ensures r.Err? && |ids| > 0 ==> r.error == Invalid(MechanicKey, "Invalid id")
    ensures r.Err? && |ids| == 0 ==> r.error.Fault?
  {
    if IsMechanic(createdBy) then
      if |ids| == 0 then Err(Fault("IndexError: list index out of range"))
      else if ids[0] != createdBy.id then Err(Invalid(MechanicKey, "Invalid id"))
      else Ok(ids)
    else Ok(ids)
  }

  /** A stored record as `validate` sees it: its key and its status. */
  datatype Stored = Stored(pk: Option<nat>, status: HoursStatus)

  /** The permission part of `validate`, on the keys left once `mechanic`
      is taken out: managers and billers may send only `status`; then, for
      a stored record, what its status allows the user. */
  function Permission(u: User, stored: Option<Stored>, keys: set<string>): (r: Outcome)
  {
    if (IsManager(u) || IsBiller(u)) && RaiseIfNotStatus(keys, CreateOrUpdateDenied).Fail? then
      RaiseIfNotStatus(keys, CreateOrUpdateDenied)
    else if stored.None? then Pass
    else match stored.value.status
      case HoursPending =>
        if IsAdmin(u) || IsManager(u) || IsBiller(u) then RaiseIfNotStatus(keys, UpdateDenied) else Pass
      case HoursRejected =>
        if IsManager(u) || IsBiller(u) then Fail(Invalid(NonFieldErrors, UpdateDenied)) else Pass
      case HoursApproved =>
        if !IsAdmin(u) then RaiseIfNotStatus(keys, UpdateDenied) else Pass
  }

  /** The status the record has when `clean` runs: the request's, else the
      stored record's, else the default. */
  function StatusAfter(stored: Option<Stored>, entries: map<string, Value>): HoursStatus
  {
    if StatusKey in entries && entries[StatusKey].StatusValue? then entries[StatusKey].status
    else if stored.Some? then stored.value.status
    else DefaultStatus
  }

  /** The verdict of `validate`: the permission checks, then `clean` on the
      record as the request leaves it, whose message-only refusal DRF files
      under its non-field key. */
  function Decision(u: User, stored: Option<Stored>, entries: map<string, Value>): (r: Outcome)
    ensures r.Fail? && r.error.Invalid? ==> r.error.field != NonField
  {
    var keys := entries.Keys - {MechanicKey};
    if Permission(u, stored, keys).Fail? then Permission(u, stored, keys)
    else AsSerializerOutcome(Clean(if stored.Some? then stored.value.pk else None, StatusAfter(stored, entries)))
  }

  /** Managers and billers send `status` alone, on creation and on update;
      anything else is refused with the create-or-update message. */
  lemma ManagerOrBillerSendsStatusOnly(u: User, stored: Option<Stored>, keys: set<string>)
    requires IsManager(u) || IsBiller(u)
    ensures keys != {StatusKey} ==> Permission(u, stored, keys) == Fail(Invalid(NonFieldErrors, CreateOrUpdateDenied))
    ensures stored.None? ==> (Permission(u, stored, keys).Pass? <==> keys == {StatusKey})
  {
  }

  /** On a pending record, admins, managers and billers send `status`
      alone; a user with none of those roles (a mechanic) is not held back
      by the record's status. */
  lemma PendingRecord(u: User, pk: Option<nat>, keys: set<string>)
    ensures var r := Permission(u, Some(Stored(pk, HoursPending)), keys);
      r.Pass? <==> keys == {StatusKey} || (!IsAdmin(u) && !IsManager(u) && !IsBiller(u))
  {
  }

  /** A rejected record is closed to managers and billers whatever they
      send, and open to everybody else. */
  lemma RejectedRecord(u: User, pk: Option<nat>, keys: set<string>)
    ensures Permission(u, Some(Stored(pk, HoursRejected)), keys).Pass? <==> !IsManager(u) && !IsBiller(u)
  {
  }

  /** On an approved record only an admin who is neither manager nor biller
      may send more than `status`. */
  lemma ApprovedRecord(u: User, pk: Option<nat>, keys: set<string>)
    ensures Permission(u, Some(Stored(pk, HoursApproved)), keys).Pass?
      <==> keys == {StatusKey} || (IsAdmin(u) && !IsManager(u) && !IsBiller(u))
  {
  }

  /** Creating a record in a status other than pending is refused by
      `clean`, whoever asks; a stored record is never refused on its
      status once the permission checks pass. */
  lemma CreationStatus(u: User, entries: map<string, Value>, s: HoursStatus)
    requires StatusKey in entries && entries[StatusKey] == StatusValue(s)
    requires Permission(u, None, entries.Keys - {MechanicKey}).Pass?
    ensures Decision(u, None, entries).Pass? <==> s == HoursPending
    ensures Decision(u, None, entries).Fail? ==>
      Decision(u, None, entries).error == Invalid(NonFieldErrors, HoursCreateDeniedText)
  {
  }

  lemma StoredNeverRefusedOnStatus(u: User, pk: nat, status: HoursStatus, entries: map<string, Value>)
    requires Permission(u, Some(Stored(Some(pk), status)), entries.Keys - {MechanicKey}).Pass?
    ensures Decision(u, Some(Stored(Some(pk), status)), entries) == Pass
  {
  }

  /** The request data dictionary `validate` receives and returns. */
  class RequestData {
    var entries: map<string, Value>

    constructor(entries: map<string, Value>)
      ensures this.entries == entries
    {
      this.entries := entries;
    }
  }

  /** A stored indirect-hours record: its key, its status and its other
      attributes. */
  class HoursRecord {
    var pk: Option<nat>
    var status: HoursStatus
    var attrs: map<string, Value>

    constructor(pk: Option<nat>, status: HoursStatus, attrs: map<string, Value>)
      ensures this.pk == pk && this.status == status && this.attrs == attrs
    {
      this.pk := pk;
      this.status := status;
      this.attrs := attrs;
    }

    /** The `setattr` loop of `validate`: every key of the data is assigned
        to the record. */
    method SetAttrs(entries: map<string, Value>)
      requires WellTyped(entries)
      modifies this
      ensures pk == old(pk)
      ensures status == (if StatusKey in entries then entries[StatusKey].status else old(status))
      ensures attrs == old(attrs) + map k | k in entries.Keys - {StatusKey} :: entries[k]
    {
      var todo := entries.Keys;
      ghost var done: set<string> := {};
      while todo != {}
        invariant todo + done == entries.Keys && todo !! done
        invariant status == (if StatusKey in done then entries[StatusKey].status else old(status))
        invariant attrs == old(attrs) + map k | k in done - {StatusKey} :: entries[k]
        invariant pk == old(pk)
        decreases todo
      {
        var key :| key in todo;
        var value := entries[key];
        if key == StatusKey {
          status := value.status;
        } else {
          attrs := attrs[key := value];
        }
        todo := todo - {key};
        done := done + {key};
      }
    }
  }

  /** IndirectHoursWriteSerializer, bound to the record it updates (`null`
      when it creates one). */
  class IndirectHoursWriteSerializer {
    const instance: HoursRecord?

    constructor(instance: HoursRecord?)
      ensures this.instance == instance
    {
      this.instance := instance;
    }

    /** The permission checks of `validate` on the keys of the data once
        `mechanic` is taken out. */
    method CheckPermission(createdBy: User, keys: set<string>) returns (check: Outcome)
      ensures check == Permission(createdBy, if instance == null then None else Some(Stored(instance.pk, instance.status)), keys)
    {
      check := Pass;
      if (IsManager(createdBy) || IsBiller(createdBy)) && RaiseIfNotStatus(keys, CreateOrUpdateDenied).Fail? {
        return RaiseIfNotStatus(keys, CreateOrUpdateDenied);
      }
      if instance != null {
        match instance.status {
          case HoursPending =>
            if IsAdmin(createdBy) || IsManager(createdBy) || IsBiller(createdBy) {
              check := RaiseIfNotStatus(keys, UpdateDenied);
            }
          case HoursRejected =>
            if IsManager(createdBy) || IsBiller(createdBy) {
              check := Fail(Invalid(NonFieldErrors, UpdateDenied));
            }
          case HoursApproved =>
            if !IsAdmin(createdBy) {
              check := RaiseIfNotStatus(keys, UpdateDenied);
            }
        }
      }
    }

    /** IndirectHoursWriteSerializer.validate. The verdict is `Decision`;
        `mechanic` is back in the data when the checks pass and stays out
        when they raise; the record takes the request's values once the
        permission checks pass. */
    method Validate(createdBy: User, data: RequestData) returns (r: Outcome)
      requires WellTyped(data.entries)
      requires instance != null ==> instance.pk.Some?
      modifies data, instance
      ensures var stored := if instance == null then None else Some(Stored(old(instance.pk), old(instance.status)));
        r == Decision(createdBy, stored, old(data.entries))
      ensures r.Pass? ==> data.entries == old(data.entries)
      ensures r.Fail? ==> data.entries == old(data.entries) - {MechanicKey}
      ensures instance != null ==> instance.pk == old(instance.pk)
      ensures instance != null && Permission(createdBy, Some(Stored(old(instance.pk), old(instance.status))), old(data.entries).Keys - {MechanicKey}).Pass? ==>
        && instance.status == StatusAfter(Some(Stored(old(instance.pk), old(instance.status))), old(data.entries))
        && instance.attrs == old(instance.attrs) + map k | k in old(data.entries).Keys - {StatusKey, MechanicKey} :: old(data.entries)[k]
      ensures instance != null && Permission(createdBy, Some(Stored(old(instance.pk), old(instance.status))), old(data.entries).Keys - {MechanicKey}).Fail? ==>
        instance.status == old(instance.status) && instance.attrs == old(instance.attrs)
    {
      var original := data.entries;
      ghost var stored := if instance == null then None else Some(Stored(instance.pk, instance.status));
      var mechanics: Option<Value> := None;
      if MechanicKey in data.entries {
        mechanics := Some(data.entries[MechanicKey]);
        data.entries := data.entries - {MechanicKey};
      }
      var keys := data.entries.Keys;
      assert keys == original.Keys - {MechanicKey};
      var check := CheckPermission(createdBy, keys);
      if check.Fail? {
        return check;
      }
      var pk: Option<nat>;
      var status: HoursStatus;
      if instance != null {
        instance.SetAttrs(data.entries);
        assert data.entries.Keys - {StatusKey} == original.Keys - {StatusKey, MechanicKey};
        pk, status := instance.pk, instance.status;
      } else {
        pk := None;
        status := if StatusKey in data.entries then data.entries[StatusKey].status else DefaultStatus;
      }
      r := AsSerializerOutcome(Clean(pk, status));
      if r.Fail? {
        return;
      }
      if mechanics.Some? {
        data.entries := data.entries[MechanicKey := mechanics.value];
      }
      assert data.entries == original;
    }
  }
}
