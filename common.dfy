/**
 * Values shared by every model and controller: document ids, optional
 * request-body fields with JavaScript truthiness, ASCII lower-casing, and the
 * reply a handler sends.
 */
module Common {

  /** A document id (a Mongo ObjectId); ids are only ever compared. */
  type Id = nat

  datatype Option<+T> = None | Some(value: T)

  /** `if (field)` on an optional string of a request body: absent and "" are falsy. */
  predicate Present(o: Option<string>) {
    o.Some? && o.value != ""
  }

  /** `if (field)` on an optional number of a request body: absent and 0 are falsy. */
  predicate NonZero(o: Option<int>) {
    o.Some? && o.value != 0
  }

  /** `field || fallback` for an optional string. */
  function OrElse(o: Option<string>, fallback: string): string {
    if Present(o) then o.value else fallback
  }

  /** `field || null` for an optional string. */
  function OrNull(o: Option<string>): Option<string> {
    if Present(o) then o else None
  }

  /** A `$set` of an optional value: present values overwrite, absent ones keep. */
  function Override<T>(patch: Option<T>, current: T): T {
    if patch.Some? then patch.value else current
  }

  /** `after` is what a `$set` of `patch` over `before` leaves. */
  predicate Sets<T(==)>(patch: Option<T>, before: T, after: T) {
    if patch.Some? then after == patch.value else after == before
  }

  /** `String.prototype.toLowerCase` restricted to ASCII letters. */
  function LowerChar(c: char): char {
    if 'A' <= c <= 'Z' then (c as int + 32) as char else c
  }

  predicate IsLower(s: string) {
    forall i :: 0 <= i < |s| ==> LowerChar(s[i]) == s[i]
  }

  function ToLower(s: string): (r: string)
    ensures |r| == |s|
    ensures forall i :: 0 <= i < |s| ==> r[i] == LowerChar(s[i])
    ensures IsLower(r)
  {
    if s == [] then [] else [LowerChar(s[0])] + ToLower(s[1..])
  }

  /** Lower-casing changes nothing in a string that is already lower-case. */
  lemma LowerIsFixed(s: string)
    requires IsLower(s)
    ensures ToLower(s) == s
  {
  }

  /** Lower-casing is idempotent, so a stored (lower-cased) e-mail is its own key. */
  lemma ToLowerIdempotent(s: string)
    ensures ToLower(ToLower(s)) == ToLower(s)
  {
    LowerIsFixed(ToLower(s));
  }

  /** The message of a handler's explicit error response. */
  datatype Rejection = Rejection(code: int, message: string)

  /** Errors a handler passes to `next(err)` (the error middleware is not part of this model). */
  datatype ErrorKind =
    | ValidationError   // a schema validator refused the document or the update
    | DuplicateKey      // a unique index refused the write

  /** What a handler answers: a success with its data, an explicit error response, or a thrown error. */
  datatype Reply<T> =
    | Ok(code: int, data: T)
    | Refused(why: Rejection)
    | Thrown(error: ErrorKind)
}
