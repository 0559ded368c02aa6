/**
 * The JavaScript values that reach the request handlers, and the handful of
 * JavaScript operations the handlers apply to them: truthiness, property
 * reads on a plain object, `Object.assign` and `String.prototype.toLowerCase`.
 */
module Js {

  datatype Option<T> = None | Some(value: T)

  /** A document id, compared through its string form. */
  type Id = string

  /** A value read from `req.body`, `req.query` or `req.params`. */
  datatype JsValue =
    | Undefined
    | Null
    | Bool(b: bool)
    | Num(n: int)
    | Str(s: string)
    | Arr(items: seq<JsValue>)
    | Obj

  /** JavaScript truthiness, `!!v` (NaN is not representable here). */
  predicate Truthy(v: JsValue) {
    match v
    case Undefined => false
    case Null => false
    case Bool(b) => b
    case Num(n) => n != 0
    case Str(s) => s != ""
    case Arr(_) => true
    case Obj => true
  }

  /** Reading `obj[key]` on a plain object: an absent key reads as `undefined`. */
  function Get(obj: map<string, JsValue>, key: string): JsValue {
    if key in obj then obj[key] else Undefined
  }

  /**
   * The result of a store lookup by id: the document (here, what the caller
   * needs of it), no document, or an exception (a malformed id makes the
   * store's cast throw, which the handler's `catch` turns into a 500).
   */
  datatype Lookup<T> = Found(value: T) | Absent | Threw

  /** What a validation middleware does with a request. */
  datatype Outcome =
    | Next           // calls `next()`
    | BadRequest     // responds 400
    | NotFound       // responds 404
    | Conflict       // responds 409
    | InternalError  // responds 500 from the `catch` block
    | NoResponse     // returns without responding and without calling `next()`

  /** The guard that opens most middlewares: a 400 without the route parameter. */
  function RequireId(id: JsValue): (o: Outcome)
    ensures o == Next <==> Truthy(id)
    ensures o != Next ==> o == BadRequest
  {
    if !Truthy(id) then BadRequest else Next
  }

  /**
   * The guard followed by the lookup of the document the id names: a 400
   * without an id, a 500 when the lookup throws, a 404 when there is no
   * such document, and otherwise on.
   */
  function RequireFound<T>(id: JsValue, doc: Lookup<T>): (o: Outcome)
    ensures !Truthy(id) ==> o == BadRequest
    ensures Truthy(id) && doc.Absent? ==> o == NotFound
    ensures Truthy(id) && doc.Threw? ==> o == InternalError
    ensures o == Next <==> Truthy(id) && doc.Found?
  {
    if !Truthy(id) then BadRequest
    else if doc.Threw? then InternalError
    else if doc.Absent? then NotFound
    else Next
  }

  function LowerChar(c: char): (d: char)
    ensures !('A' <= d <= 'Z')
    ensures !('A' <= c <= 'Z') ==> d == c
  {
    if 'A' <= c <= 'Z' then (c as int - 'A' as int + 'a' as int) as char else c
  }

  /** `s.toLowerCase()`, restricted to the ASCII letters. */
  function Lower(s: string): (r: string)
    ensures |r| == |s|
    ensures forall i :: 0 <= i < |s| ==> r[i] == LowerChar(s[i])
  {
    if s == [] then [] else [LowerChar(s[0])] + Lower(s[1..])
  }

  /** Lower-casing an already lower-cased string changes nothing. */
  lemma LowerIdempotent(s: string)
    ensures Lower(Lower(s)) == Lower(s)
  {
    var once := Lower(s);
    var twice := Lower(once);
    forall i | 0 <= i < |s|
      ensures twice[i] == once[i]
    {
      assert once[i] == LowerChar(s[i]);
      assert twice[i] == LowerChar(once[i]);
    }
  }

  /** Lower-casing keeps the empty string empty and a non-empty one non-empty. */
  lemma LowerKeepsTruthiness(s: string)
    ensures Truthy(Str(Lower(s))) == Truthy(Str(s))
  {
  }

  /** The request body, which some middlewares rewrite in place. */
  class RequestBody {
    var fields: map<string, JsValue>

    constructor (fields: map<string, JsValue>)
      ensures this.fields == fields
    {
      this.fields := fields;
    }

    /** `req.body[key]`. */
    function Field(key: string): JsValue
      reads this
    {
      Get(fields, key)
    }

    /** `Object.assign(req.body, updates)`: the keys of `updates` overwrite. */
    method Assign(updates: map<string, JsValue>)
      modifies this
      ensures fields == old(fields) + updates
    {
      fields := fields + updates;
    }
  }
}
