/** Duck-typed identifier resolution, written once: the ticket service and the
    history service carry two identical copies of it. */
module Ids {
  import opened Common

  /** What an object's `_id` holds: a string, or a value with a `toString()`
      (an ObjectId) whose result is `text`. */
  datatype RawId = RawText(s: string) | RawObject(text: string)

  /** A reference as the services receive it: a falsy value, a string, or an
      object. For an object, `id` is its `id` property when that is a string,
      `rawId` its `_id` when that has a `toString`, and `toText` the result
      of its own `toString()` (None for an object without one). */
  datatype IdRef =
    | Absent
    | Text(s: string)
    | Record(id: Option<string>, rawId: Option<RawId>, toText: Option<string>)

  /** What `Object.prototype.toString` yields for a plain object. */
  const ObjectTag: string := "[object Object]"

  /** JavaScript truthiness of a reference (an object is always truthy). */
  predicate IsTruthy(v: IdRef)
  {
    v.Record? || (v.Text? && v.s != "")
  }

  /** resolveId: a string as itself, an object by its `id`, then its `_id`,
      then its own `toString()` unless that is the plain-object tag. */
  function ResolveId(v: IdRef): (r: Option<string>)
    ensures !IsTruthy(v) ==> r == None
    ensures v.Text? && v.s != "" ==> r == Some(v.s)
    ensures v.Record? && v.id.Some? ==> r == v.id
    ensures v.Record? && v.id.None? && v.rawId.Some? ==>
              r == Some(match v.rawId.value case RawText(s) => s case RawObject(t) => t)
    ensures v.Record? && v.id.None? && v.rawId.None? ==>
              r == (if v.toText.Some? && v.toText.value != ObjectTag then v.toText else None)
  {
    match v
    case Absent => None
    case Text(s) => if s == "" then None else Some(s)
    case Record(id, rawId, toText) =>
      if id.Some? then id
      else if rawId.Some? then
        (match rawId.value
         case RawText(s) => Some(s)
         case RawObject(t) => Some(t))
      else if toText.Some? && toText.value != ObjectTag then toText
      else None
  }
}
