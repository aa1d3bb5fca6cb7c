/** Failure-carrying datatypes shared by every module of the model.

    The Python code signals failure by raising. A raised DRF or Django
    `ValidationError` becomes `Invalid`/`InvalidFields`, the serializer's
    `DBLockedException` becomes `DBLocked`, and any other exception the code
    would run into (an attribute of `None`, an index into an empty list, a
    missing row) becomes `Fault`. */
module Wrappers {

  datatype Option<+T> = None | Some(value: T)

  /** The key Django uses for errors that belong to no single field. */
  const NonField: string := "__all__"

  /** The key DRF files errors that belong to no single field under. */
  const NonFieldErrors: string := "non_field_errors"

  datatype Error =
    | Invalid(field: string, message: string)
    | InvalidFields(items: seq<(string, string)>)
      /** A `many=True` field's error: one slot per entry, `None` where the
          entry passed (DRF's `{}`). */
    | InvalidEntries(field: string, slots: seq<Option<Error>>)
    | DBLocked
    | Fault(reason: string)

  datatype Result<+T> = Ok(value: T) | Err(error: Error)

  datatype Outcome = Pass | Fail(error: Error)

  /** `as_serializer_error`: a Django `ValidationError` raised inside a
      serializer's `validate` that carries only a message is filed under
      DRF's non-field key; one keyed by fields keeps its fields. */
  function AsSerializerError(e: Error): (r: Error)
    ensures r.Invalid? ==> r.field != NonField
    ensures e.Invalid? ==> r.Invalid? && r.message == e.message
    ensures e.Invalid? && e.field != NonField ==> r == e
    ensures !e.Invalid? ==> r == e
  {
    if e.Invalid? && e.field == NonField then Invalid(NonFieldErrors, e.message) else e
  }

  /** The verdict of a model check as the serializer reports it. */
  function AsSerializerOutcome(o: Outcome): (r: Outcome)
    ensures r.Pass? <==> o.Pass?
    ensures o.Fail? ==> r == Fail(AsSerializerError(o.error))
  {
    if o.Fail? then Fail(AsSerializerError(o.error)) else o
  }

  /** The error an outcome carries, `None` when it passed. */
  function ErrorOf(o: Outcome): (r: Option<Error>)
    ensures r.None? <==> o.Pass?
    ensures r.Some? ==> o == Fail(r.value)
  {
    if o.Pass? then None else Some(o.error)
  }
}
