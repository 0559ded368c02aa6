/** The middlewares that screen the user address and cart routes. */
module UserValidation {
  import opened Js

  /** The address fields `addAddress` requires; `recipientName` is not among them. */
  const AddressFields: set<string> :=
    {"city", "country", "district", "name", "phone", "postalCode", "province", "street"}

  /**
   * The decision `addAddress` takes: a 400 without an id, a 404 for an
   * unknown user (a 500 when the lookup throws), then on only when all
   * eight address fields are truthy, and a 400 otherwise.
   */
  function AddAddressOutcome(id: JsValue, user: Lookup<string>, body: map<string, JsValue>): (o: Outcome)
    ensures !Truthy(id) ==> o == BadRequest
    ensures Truthy(id) && user.Absent? ==> o == NotFound
    ensures Truthy(id) && user.Threw? ==> o == InternalError
    ensures o == Next <==> Truthy(id) && user.Found? && forall f :: f in AddressFields ==> Truthy(Get(body, f))
    ensures Truthy(id) && user.Found? && o != Next ==> o == BadRequest
  {
    var guard := RequireFound(id, user);
    if guard != Next then guard
    else if Truthy(Get(body, "city")) && Truthy(Get(body, "country")) && Truthy(Get(body, "district"))
      && Truthy(Get(body, "name")) && Truthy(Get(body, "phone")) && Truthy(Get(body, "postalCode"))
      && Truthy(Get(body, "province")) && Truthy(Get(body, "street"))
    then
      Next
    else
      BadRequest
  }

  /**
   * `addAddress`: takes the decision above and, when the request goes on,
   * stamps the id of the user found into the body's `user` field; on every
   * other outcome the body is left as it was.
   */
  method AddAddress(id: JsValue, user: Lookup<string>, body: RequestBody) returns (o: Outcome)
    modifies body
    ensures o == AddAddressOutcome(id, user, old(body.fields))
    ensures o == Next ==> user.Found? && body.fields == old(body.fields)["user" := Str(user.value)]
    ensures o != Next ==> body.fields == old(body.fields)
  {
    var guard := RequireFound(id, user);
    if guard != Next {
      return guard;
    }
    if Truthy(body.Field("city")) && Truthy(body.Field("country")) && Truthy(body.Field("district"))
      && Truthy(body.Field("name")) && Truthy(body.Field("phone")) && Truthy(body.Field("postalCode"))
      && Truthy(body.Field("province")) && Truthy(body.Field("street"))
    {
      body.Assign(map["user" := Str(user.value)]);
      assert body.fields == old(body.fields)["user" := Str(user.value)];
      return Next;
    }
    return BadRequest;
  }

  /** `getAddress`: a 400 without an id, a 404 for an unknown user, else on. */
  function GetAddress(id: JsValue, user: Lookup<string>): (o: Outcome)
    ensures !Truthy(id) ==> o == BadRequest
    ensures Truthy(id) && user.Absent? ==> o == NotFound
    ensures Truthy(id) && user.Threw? ==> o == InternalError
    ensures o == Next <==> Truthy(id) && user.Found?
  {
    RequireFound(id, user)
  }

  /**
   * `updateCart`: `action`, `combination` and `quantity` must be truthy and
   * `action` must be "add" or "update"; "update" also needs the cart-line
   * `id` and "add" also needs the `product`. Every refusal is a 400.
   */
  function UpdateCart(body: map<string, JsValue>): (o: Outcome)
    ensures o == Next <==>
      && (Get(body, "action") == Str("add") || Get(body, "action") == Str("update"))
      && Truthy(Get(body, "combination"))
      && Truthy(Get(body, "quantity"))
      && (Get(body, "action") == Str("update") ==> Truthy(Get(body, "id")))
      && (Get(body, "action") == Str("add") ==> Truthy(Get(body, "product")))
    ensures o != Next ==> o == BadRequest
  {
    var action := Get(body, "action");
    if !Truthy(action) || !Truthy(Get(body, "combination")) || !Truthy(Get(body, "quantity"))
      || !(action in [Str("add"), Str("update")])
    then
      BadRequest
    else if action == Str("update") && !Truthy(Get(body, "id")) then
      BadRequest
    else if action == Str("add") && !Truthy(Get(body, "product")) then
      BadRequest
    else
      Next
  }

  /** `deleteCart`: a 400 without an id, else on. */
  function DeleteCart(id: JsValue): (o: Outcome)
    ensures o == Next <==> Truthy(id)
    ensures o != Next ==> o == BadRequest
  {
    RequireId(id)
  }

  /** A cart update of quantity 0 is refused, whatever else the body holds. */
  lemma ZeroQuantityRefused(body: map<string, JsValue>)
    requires Get(body, "quantity") == Num(0)
    ensures UpdateCart(body) == BadRequest
  {
  }

  /**
   * The actions "plus" and "minus" that the cart payload type declares are
   * refused: only "add" and "update" get through.
   */
  lemma DeclaredPlusMinusRefused(body: map<string, JsValue>)
    requires Get(body, "action") in {Str("plus"), Str("minus")}
    ensures UpdateCart(body) == BadRequest
  {
  }
}
