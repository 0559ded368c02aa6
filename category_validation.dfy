/** The middlewares that screen the category routes. */
module CategoryValidation {
  import opened Js

  /** `getChildren`: on only with a non-empty string `filter`, a 400 otherwise. */
  function GetChildren(query: map<string, JsValue>): (o: Outcome)
    ensures o == Next <==> exists s :: s != "" && Get(query, "filter") == Str(s)
    ensures o != Next ==> o == BadRequest
  {
    var filter := Get(query, "filter");
    if Truthy(filter) && filter.Str? then Next else BadRequest
  }

  /** `getCategoryByBrand`: on only with a non-empty string `brand`, a 400 otherwise. */
  function GetCategoryByBrand(query: map<string, JsValue>): (o: Outcome)
    ensures o == Next <==> exists s :: s != "" && Get(query, "brand") == Str(s)
    ensures o != Next ==> o == BadRequest
  {
    var brand := Get(query, "brand");
    if Truthy(brand) && brand.Str? then Next else BadRequest
  }

  /** The body after `create` has replaced `name` by its lower-case form. */
  function LowerName(body: map<string, JsValue>): (r: map<string, JsValue>)
    requires Get(body, "name").Str?
    ensures r.Keys == body.Keys + {"name"}
    ensures forall k :: k in body && k != "name" ==> r[k] == body[k]
  {
    body["name" := Str(Lower(Get(body, "name").s))]
  }

  /**
   * The decision `create` takes, given the names already in the store:
   * a 400 without a name, a 500 when the name is not a string (its
   * `toLowerCase` throws), a 409 when the lower-cased name is taken, and
   * otherwise on.
   */
  function CreateOutcome(body: map<string, JsValue>, existing: set<string>): (o: Outcome)
    ensures !Truthy(Get(body, "name")) ==> o == BadRequest
    ensures Truthy(Get(body, "name")) && !Get(body, "name").Str? ==> o == InternalError
    ensures o == Conflict <==> exists s :: s != "" && Get(body, "name") == Str(s) && Lower(s) in existing
    ensures o == Next <==> exists s :: s != "" && Get(body, "name") == Str(s) && Lower(s) !in existing
  {
    var name := Get(body, "name");
    if !Truthy(name) then BadRequest
    else if !name.Str? then InternalError
    else if Lower(name.s) in existing then Conflict
    else Next
  }

  /**
   * `create`: takes the decision above and, when the request goes on,
   * lower-cases `body.name` in place; otherwise the body is untouched.
   */
  method Create(body: RequestBody, existing: set<string>) returns (o: Outcome)
    modifies body
    ensures o == CreateOutcome(old(body.fields), existing)
    ensures o == Next ==> Get(old(body.fields), "name").Str? && body.fields == LowerName(old(body.fields))
    ensures o != Next ==> body.fields == old(body.fields)
  {
    var name := body.Field("name");
    if !Truthy(name) {
      return BadRequest;
    }
    if !name.Str? {
      return InternalError;
    }
    if Lower(name.s) in existing {
      return Conflict;
    }
    body.Assign(map["name" := Str(Lower(name.s))]);
    assert body.fields == LowerName(old(body.fields));
    return Next;
  }

  /**
   * Rewriting the name twice is rewriting it once, and a body `create`
   * let through is let through again, unchanged, once rewritten.
   */
  lemma CreateRewriteIdempotent(body: map<string, JsValue>, existing: set<string>)
    requires CreateOutcome(body, existing) == Next
    ensures Get(LowerName(body), "name").Str?
    ensures LowerName(LowerName(body)) == LowerName(body)
    ensures CreateOutcome(LowerName(body), existing) == Next
  {
    var s := Get(body, "name").s;
    LowerIdempotent(s);
    assert Get(LowerName(body), "name") == Str(Lower(s));
  }

  /** `parentNames` mapped through `toLowerCase`; non-strings never reach it. */
  function LowerValue(v: JsValue): JsValue {
    if v.Str? then Str(Lower(v.s)) else v
  }

  /** Whether `update`'s rewrite throws: a truthy non-array `parentNames` has
      no `map`, a non-string element or a truthy non-string `name` has no
      `toLowerCase`. */
  predicate UpdateRewriteThrows(body: map<string, JsValue>) {
    var names := Get(body, "parentNames");
    var name := Get(body, "name");
    || (Truthy(names) && !(names.Arr? && forall i :: 0 <= i < |names.items| ==> names.items[i].Str?))
    || (Truthy(name) && !name.Str?)
  }

  /** `parentNames` lower-cased element by element, as `update` computes it. */
  function LowerEach(items: seq<JsValue>): (r: seq<JsValue>)
    ensures |r| == |items|
    ensures forall i :: 0 <= i < |items| ==> r[i] == LowerValue(items[i])
  {
    seq(|items|, i requires 0 <= i < |items| => LowerValue(items[i]))
  }

  /**
   * What `update` passes to `Object.assign`: `name` lower-cased, or
   * `undefined` when it was falsy; every element of a truthy `parentNames`
   * lower-cased, a falsy one kept as it was.
   */
  function UpdateAssignment(body: map<string, JsValue>): (r: map<string, JsValue>)
    requires !UpdateRewriteThrows(body)
    ensures r.Keys == {"name", "parentNames"}
    ensures Truthy(r["name"]) == Truthy(Get(body, "name"))
    ensures Truthy(r["parentNames"]) == Truthy(Get(body, "parentNames"))
  {
    var name := Get(body, "name");
    var names := Get(body, "parentNames");
    map["name" := (if Truthy(name) then Str(Lower(name.s)) else Undefined),
        "parentNames" := (if Truthy(names) then Arr(LowerEach(names.items)) else names)]
  }

  /** The body after `update`'s `Object.assign`. */
  function UpdateRewrite(body: map<string, JsValue>): (r: map<string, JsValue>)
    requires !UpdateRewriteThrows(body)
    ensures r.Keys == body.Keys + {"name", "parentNames"}
    ensures forall k :: k in body && k != "name" && k != "parentNames" ==> r[k] == body[k]
  {
    body + UpdateAssignment(body)
  }

  /**
   * The decision `update` takes: a 400 without an id, a 404 for an unknown
   * category (a 500 when the lookup throws), a 500 when the rewrite
   * throws, and then on iff the rewritten `name` or `parentNames` is
   * truthy, which is iff the original one was.
   */
  function UpdateOutcome<C>(id: JsValue, category: Lookup<C>, body: map<string, JsValue>): (o: Outcome)
    ensures !Truthy(id) ==> o == BadRequest
    ensures Truthy(id) && category.Absent? ==> o == NotFound
    ensures Truthy(id) && category.Threw? ==> o == InternalError
    ensures o == Next <==>
      && Truthy(id) && category.Found? && !UpdateRewriteThrows(body)
      && (Truthy(Get(body, "name")) || Truthy(Get(body, "parentNames")))
    ensures Truthy(id) && category.Found? && UpdateRewriteThrows(body) ==> o == InternalError
    ensures Truthy(id) && category.Found? && !UpdateRewriteThrows(body) && o != Next ==> o == BadRequest
  {
    var guard := RequireFound(id, category);
    if guard != Next then guard
    else if UpdateRewriteThrows(body) then InternalError
    else
      var rewritten := UpdateRewrite(body);
      if Truthy(Get(rewritten, "name")) || Truthy(Get(rewritten, "parentNames")) then Next else BadRequest
  }

  /**
   * `update`: takes the decision above; once the id and the category are
   * good and nothing throws, the body is rewritten in place, whether the
   * request then goes on or is refused with a 400.
   */
  method Update<C>(id: JsValue, category: Lookup<C>, body: RequestBody) returns (o: Outcome)
    modifies body
    ensures o == UpdateOutcome(id, category, old(body.fields))
    ensures Truthy(id) && category.Found? && !UpdateRewriteThrows(old(body.fields)) ==>
      body.fields == UpdateRewrite(old(body.fields))
    ensures !(Truthy(id) && category.Found? && !UpdateRewriteThrows(old(body.fields))) ==>
      body.fields == old(body.fields)
  {
    var guard := RequireFound(id, category);
    if guard != Next {
      return guard;
    }
    if UpdateRewriteThrows(body.fields) {
      return InternalError;
    }
    body.Assign(UpdateAssignment(body.fields));
    if Truthy(body.Field("name")) || Truthy(body.Field("parentNames")) {
      return Next;
    }
    return BadRequest;
  }

  /** `update`'s rewrite applied to its own output changes nothing. */
  lemma UpdateRewriteIdempotent(body: map<string, JsValue>)
    requires !UpdateRewriteThrows(body)
    ensures !UpdateRewriteThrows(UpdateRewrite(body))
    ensures UpdateRewrite(UpdateRewrite(body)) == UpdateRewrite(body)
  {
    var once := UpdateRewrite(body);
    var name := Get(body, "name");
    if Truthy(name) {
      LowerIdempotent(name.s);
    }
    var names := Get(body, "parentNames");
    if Truthy(names) {
      var ps := LowerEach(names.items);
      assert Get(once, "parentNames") == Arr(ps);
      forall i | 0 <= i < |ps|
        ensures LowerValue(ps[i]) == ps[i]
      {
        LowerIdempotent(names.items[i].s);
      }
      assert LowerEach(ps) == ps;
    }
    assert UpdateAssignment(once) == UpdateAssignment(body);
  }

  /** `delete`: a 400 without an id, a 404 for an unknown category, else on. */
  function Delete<C>(id: JsValue, category: Lookup<C>): (o: Outcome)
    ensures !Truthy(id) ==> o == BadRequest
    ensures Truthy(id) && category.Absent? ==> o == NotFound
    ensures Truthy(id) && category.Threw? ==> o == InternalError
    ensures o == Next <==> Truthy(id) && category.Found?
  {
    RequireFound(id, category)
  }
}
