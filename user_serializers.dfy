/** serializers/user_serializers.py: the password pair every password form
    shares, the change-of-password form, and the single-use check of the
    hash in an e-mailed link.

    DRF runs each field first (a `CharField` trims white space, refuses a
    missing or blank value, then checks its minimum length), collects the
    field errors in declaration order, and calls `validate` only when there
    are none. The password check of the current user, the base64 decoding
    of a link and the rendering of a non-scalar id are parameters. */
module UserSerializers {
  import opened Wrappers
  import opened Text
  import opened JsonValue

  const Required := "This field is required."
  const Blank := "This field may not be blank."
  const TooShort := "Ensure this field has at least 8 characters."

  /** What one field makes of its raw value: the value it hands on, or its
      error message. */
  datatype FieldResult = Valid(value: string) | Rejected(message: string)

  /** The minimum length of both password fields. */
  const MinPasswordLength: nat := 8

  /** A `CharField(required=True)` with an optional minimum length: the
      trimmed value, or the field's error message. */
  function CharField(v: Option<string>, minLength: nat): (r: FieldResult)
  {
    if v.None? then Rejected(Required)
    else if IsBlank(v.value) then Rejected(Blank)
    else if |Strip(v.value)| < minLength then Rejected(TooShort)
    else Valid(Strip(v.value))
  }

  /** A password field accepts exactly the values that are present and at
      least eight characters long once trimmed, and hands on the trimmed
      value. */
  lemma PasswordFieldAccepts(v: Option<string>)
    ensures CharField(v, MinPasswordLength).Valid? <==> v.Some? && |Strip(v.value)| >= MinPasswordLength
    ensures CharField(v, MinPasswordLength).Valid? ==> CharField(v, MinPasswordLength).value == Strip(v.value)
  {
    if v.Some? {
      StripBlank(v.value);
    }
  }

  /** The errors of the fields, in declaration order, each under its name. */
  function FieldErrors(names: seq<string>, results: seq<FieldResult>): (r: seq<(string, string)>)
    requires |names| == |results|
    ensures r == [] <==> forall i :: 0 <= i < |results| ==> results[i].Valid?
  {
    if names == [] then []
    else
      (if results[0].Rejected? then [(names[0], results[0].message)] else [])
        + FieldErrors(names[1..], results[1..])
  }

  datatype Passwords = Passwords(password: string, passwordCheck: string)

  const NoMatch := "Passwords don't match!"
  const SameAsOld := "New password cannot be the same as your old password"
  const WrongCurrent := "Current password is incorrect"

  /** BasePasswordSerializer.validate: the data passes through unchanged
      when the two passwords agree. */
  function PasswordValidate(d: Passwords): (r: Result<Passwords>)
    ensures r.Ok? <==> d.password == d.passwordCheck
    ensures r.Ok? ==> r.value == d
    ensures r.Err? ==> r.error == Invalid("password_check", NoMatch)
  {
    if d.password != d.passwordCheck then Err(Invalid("password_check", NoMatch)) else Ok(d)
  }

  /** BasePasswordSerializer on raw request values: the two fields, then
      `validate`. */
  function PasswordForm(password: Option<string>, passwordCheck: Option<string>): Result<Passwords>
  {
    var p := CharField(password, MinPasswordLength);
    var c := CharField(passwordCheck, MinPasswordLength);
    if p.Rejected? || c.Rejected? then Err(InvalidFields(FieldErrors(["password", "password_check"], [p, c])))
    else PasswordValidate(Passwords(p.value, c.value))
  }

  /** The form accepts exactly two present passwords that are equal and at
      least eight characters long once trimmed. */
  lemma PasswordFormAccepts(password: Option<string>, passwordCheck: Option<string>)
    ensures PasswordForm(password, passwordCheck).Ok? <==>
      && password.Some? && passwordCheck.Some?
      && |Strip(password.value)| >= MinPasswordLength
      && Strip(password.value) == Strip(passwordCheck.value)
    ensures PasswordForm(password, passwordCheck).Ok? ==>
      PasswordForm(password, passwordCheck).value == Passwords(Strip(password.value), Strip(passwordCheck.value))
  {
    PasswordFieldAccepts(password);
    PasswordFieldAccepts(passwordCheck);
  }

  /** UpdatePasswordSerializer.validate: a new password equal to the old one
      is refused before the pair is compared. */
  function UpdatePasswordValidate(oldPassword: string, d: Passwords): (r: Result<Passwords>)
    ensures r.Ok? <==> oldPassword != d.password && d.password == d.passwordCheck
    ensures r.Ok? ==> r.value == d
    ensures oldPassword == d.password ==> r == Err(Invalid("old_password", SameAsOld))
    ensures oldPassword != d.password ==> r == PasswordValidate(d)
  {
    if oldPassword == d.password then Err(Invalid("old_password", SameAsOld)) else PasswordValidate(d)
  }

  /** UpdatePasswordSerializer.validate_old_password, with the user's
      password check as a parameter. */
  function ValidateOldPassword(value: string, checkPassword: string -> bool): (r: FieldResult)
    ensures r.Valid? <==> checkPassword(value)
    ensures r.Valid? ==> r.value == value
    ensures r.Rejected? ==> r.message == WrongCurrent
  {
    if !checkPassword(value) then Rejected(WrongCurrent) else Valid(value)
  }

  /** UpdatePasswordSerializer on raw request values: the two inherited
      fields, then `old_password` with its own validator, then `validate`. */
  function UpdatePasswordForm(oldPassword: Option<string>, password: Option<string>, passwordCheck: Option<string>,
                              checkPassword: string -> bool): Result<Passwords>
  {
    var p := CharField(password, MinPasswordLength);
    var c := CharField(passwordCheck, MinPasswordLength);
    var o := CharField(oldPassword, 0);
    var o' := if o.Valid? then ValidateOldPassword(o.value, checkPassword) else o;
    if p.Rejected? || c.Rejected? || o'.Rejected? then
      Err(InvalidFields(FieldErrors(["password", "password_check", "old_password"], [p, c, o'])))
    else UpdatePasswordValidate(o'.value, Passwords(p.value, c.value))
  }

  /** The current password field accepts a non-blank value the user's
      check accepts once trimmed. */
  lemma OldPasswordFieldValid(oldPassword: string, checkPassword: string -> bool)
    requires !IsBlank(oldPassword) && checkPassword(Strip(oldPassword))
    ensures CharField(Some(oldPassword), 0) == Valid(Strip(oldPassword))
    ensures ValidateOldPassword(Strip(oldPassword), checkPassword) == Valid(Strip(oldPassword))
  {
    StripBlank(oldPassword);
  }

  /** With every field valid, the form is `validate` on the trimmed
      values. */
  lemma UpdatePasswordFieldsValid(oldPassword: string, password: string, passwordCheck: string, checkPassword: string -> bool)
    requires !IsBlank(oldPassword) && checkPassword(Strip(oldPassword))
    requires |Strip(password)| >= MinPasswordLength && |Strip(passwordCheck)| >= MinPasswordLength
    ensures UpdatePasswordForm(Some(oldPassword), Some(password), Some(passwordCheck), checkPassword)
      == UpdatePasswordValidate(Strip(oldPassword), Passwords(Strip(password), Strip(passwordCheck)))
  {
    PasswordFieldAccepts(Some(password));
    PasswordFieldAccepts(Some(passwordCheck));
    OldPasswordFieldValid(oldPassword, checkPassword);
  }

  /** With every field valid, reusing the current password is the error
      reported, even when the two new passwords also differ; otherwise the
      form accepts exactly a matching pair. */
  lemma UpdatePasswordOrder(oldPassword: string, password: string, passwordCheck: string, checkPassword: string -> bool)
    requires !IsBlank(oldPassword) && checkPassword(Strip(oldPassword))
    requires |Strip(password)| >= MinPasswordLength && |Strip(passwordCheck)| >= MinPasswordLength
    ensures Strip(oldPassword) == Strip(password) ==>
      UpdatePasswordForm(Some(oldPassword), Some(password), Some(passwordCheck), checkPassword) == Err(Invalid("old_password", SameAsOld))
    ensures Strip(oldPassword) != Strip(password) ==>
      (UpdatePasswordForm(Some(oldPassword), Some(password), Some(passwordCheck), checkPassword).Ok? <==> Strip(password) == Strip(passwordCheck))
  {
    UpdatePasswordFieldsValid(oldPassword, password, passwordCheck, checkPassword);
  }

  // ---------------------------------------------------------------------
  // HashSerializer.validate_hash

  const LinkInvalid := "Link is invalid. Please, try again."
  const ConfirmationInvalid := "Email confirmation link is not valid. Please try again."

  /** Python's `str()` of the `id` the decoded link carries (`None` when it
      has none); a container is rendered by `showOther`. */
  function IdText(id: Option<Json>, showOther: Json -> string): string
  {
    if id.None? then "None"
    else match id.value
      case JString(s) => s
      case JNumber(text, _) => text
      case JBool(b) => if b then "True" else "False"
      case JNull => "None"
      case _ => showOther(id.value)
  }

  /** The cache key of a link: the action, then the text of its id. */
  function CacheKey(action: string, decoded: map<string, Json>, showOther: Json -> string): (r: string)
    ensures StartsWith(r, action)
  {
    action + IdText(if "id" in decoded then Some(decoded["id"]) else None, showOther)
  }

  /** The verdict of `validate_hash` on a cache in state `entries`. */
  function HashCheck(entries: map<string, map<string, Json>>, action: Option<string>,
                     decoded: Option<map<string, Json>>, showOther: Json -> string): (r: Result<map<string, Json>>)
    ensures decoded.None? ==> r == Err(Invalid("hash", LinkInvalid))
    ensures r.Ok? ==> decoded.Some? && r.value == decoded.value
  {
    if decoded.None? then Err(Invalid("hash", LinkInvalid))
    else if action.Some? then
      var key := CacheKey(action.value, decoded.value, showOther);
      if key !in entries || entries[key] != decoded.value then Err(Invalid("hash", ConfirmationInvalid))
      else Ok(decoded.value)
    else Ok(decoded.value)
  }

  /** The cache after `validate_hash`: a successful check with an action
      deletes the link's key; nothing else touches it. */
  function CacheAfter(entries: map<string, map<string, Json>>, action: Option<string>,
                      decoded: Option<map<string, Json>>, showOther: Json -> string): map<string, map<string, Json>>
  {
    if HashCheck(entries, action, decoded, showOther).Ok? && action.Some? then
      entries - {CacheKey(action.value, decoded.value, showOther)}
    else entries
  }

  /** With an action, a link passes only while the cache holds its own
      decoded data under its key, and then it never passes again: the
      second use finds the key gone. */
  lemma HashSingleUse(entries: map<string, map<string, Json>>, action: string,
                      decoded: Option<map<string, Json>>, showOther: Json -> string)
    ensures var r := HashCheck(entries, Some(action), decoded, showOther);
      r.Ok? <==>
        (&& decoded.Some?
         && CacheKey(action, decoded.value, showOther) in entries
         && entries[CacheKey(action, decoded.value, showOther)] == decoded.value)
    ensures HashCheck(entries, Some(action), decoded, showOther).Ok? ==>
      HashCheck(CacheAfter(entries, Some(action), decoded, showOther), Some(action), decoded, showOther)
        == Err(Invalid("hash", ConfirmationInvalid))
  {
  }

  /** Without an action the cache is neither read nor changed: any decodable
      link passes, whatever the cache holds. */
  lemma HashWithoutAction(entries: map<string, map<string, Json>>, other: map<string, map<string, Json>>,
                          decoded: Option<map<string, Json>>, showOther: Json -> string)
    ensures HashCheck(entries, None, decoded, showOther) == HashCheck(other, None, decoded, showOther)
    ensures HashCheck(entries, None, decoded, showOther).Ok? <==> decoded.Some?
    ensures CacheAfter(entries, None, decoded, showOther) == entries
  {
  }

  /** Django's cache, as the serializer uses it. */
  class Cache {
    var entries: map<string, map<string, Json>>

    constructor(entries: map<string, map<string, Json>>)
      ensures this.entries == entries
    {
      this.entries := entries;
    }

    /** `cache.get(key)`: `None` when the key is missing. */
    method Get(key: string) returns (v: Option<map<string, Json>>)
      ensures v.Some? <==> key in entries
      ensures v.Some? ==> v.value == entries[key]
    {
      v := if key in entries then Some(entries[key]) else None;
    }

    /** `cache.delete(key)` */
    method Delete(key: string)
      modifies this
      ensures entries == old(entries) - {key}
    {
      entries := entries - {key};
    }
  }

  /** HashSerializer, with its optional cache-key action and the cache. */
  class HashSerializer {
    const cacheKeyAction: Option<string>
    const cache: Cache

    constructor(cacheKeyAction: Option<string>, cache: Cache)
      ensures this.cacheKeyAction == cacheKeyAction && this.cache == cache
    {
      this.cacheKeyAction := cacheKeyAction;
      this.cache := cache;
    }

    /** HashSerializer.validate_hash; `decode` is the base64 decoding of the
        link, `None` where it raises. */
    method ValidateHash(value: string, decode: string -> Option<map<string, Json>>, showOther: Json -> string)
      returns (r: Result<map<string, Json>>)
      modifies cache
      ensures r == HashCheck(old(cache.entries), cacheKeyAction, decode(value), showOther)
      ensures cache.entries == CacheAfter(old(cache.entries), cacheKeyAction, decode(value), showOther)
    {
      var decoded := decode(value);
      if decoded.None? {
        return Err(Invalid("hash", LinkInvalid));
      }
      if cacheKeyAction.Some? {
        var key := CacheKey(cacheKeyAction.value, decoded.value, showOther);
        var fromCache := cache.Get(key);
        if fromCache != Some(decoded.value) {
          return Err(Invalid("hash", ConfirmationInvalid));
        }
        cache.Delete(key);
      }
      r := Ok(decoded.value);
    }
  }
}
