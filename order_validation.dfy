/** The `createOrder` middleware that screens `POST /orders` bodies. */
module OrderValidation {
  import opened Js

  /**
   * `createOrder`: the request goes on only when `cartId` is an array and
   * `totalPrice` is truthy. An array is always truthy, so the separate
   * truthiness test on `cartId` adds nothing and an empty array passes.
   * Otherwise the middleware neither responds nor calls `next()`.
   */
  function CreateOrder(body: map<string, JsValue>): (o: Outcome)
    ensures o == Next <==> Get(body, "cartId").Arr? && Truthy(Get(body, "totalPrice"))
    ensures o != Next ==> o == NoResponse
  {
    var cartId := Get(body, "cartId");
    if Truthy(cartId) && cartId.Arr? && Truthy(Get(body, "totalPrice")) then Next else NoResponse
  }

  /** An empty cart-id list passes validation; a zero total price does not. */
  lemma EmptyCartPassesZeroTotalFallsThrough(total: int)
    ensures CreateOrder(map["cartId" := Arr([]), "totalPrice" := Num(total)]) == (if total == 0 then NoResponse else Next)
  {
  }
}
