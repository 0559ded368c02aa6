/**
 * The part of the document store that checkout reads and writes: the cart,
 * combination, address and order collections, and a client session whose
 * transaction stages the writes that are passed the session.
 */
module OrderStore {
  import opened Js

  /** `OrderState`; checkout only ever produces `AwaitingShipment`. */
  datatype OrderState = Pending | OrderConfirmed | Failed | AwaitingShipment | Shipped | Completed

  /** A cart line: who owns it, which product and combination, how many. */
  datatype Cart = Cart(user: Id, product: Id, combination: Id, quantity: int)

  /** The fields of a combination (a product variant) that checkout uses. */
  datatype Combination = Combination(price: int, stock: int)

  /** An address, with its default flag and its soft-delete flag. */
  datatype Address = Address(id: Id, isDefault: bool, isDeleted: bool)

  /** One ordered line: a snapshot of product, combination, quantity and price. */
  datatype ProductItem = ProductItem(product: Id, combinations: Id, quantity: int, price: int)

  /** An order as the checkout hands it to the store. */
  datatype Order = Order(
    user: Id,
    products: seq<ProductItem>,
    totalPrice: int,
    shipping: Id,
    deliveredDate: int,
    state: OrderState)

  /** The committed contents of the four collections; addresses are listed per user. */
  datatype StoreState = StoreState(
    carts: map<Id, Cart>,
    combinations: map<Id, Combination>,
    addresses: map<Id, seq<Address>>,
    orders: seq<Order>)

  /** `addressService.getByUserId(user)`: every address of the user, soft-deleted ones included. */
  function AddressesOf(s: StoreState, user: Id): seq<Address> {
    if user in s.addresses then s.addresses[user] else []
  }

  /**
   * The combinations once the stock writes `stock` are committed: each
   * write replaces the stock of its combination and leaves the price; a
   * write to a combination that is not there matches nothing.
   */
  function WithStock(combinations: map<Id, Combination>, stock: map<Id, int>): (r: map<Id, Combination>)
    ensures r.Keys == combinations.Keys
    ensures forall id :: id in combinations ==>
      r[id].price == combinations[id].price
      && r[id].stock == (if id in stock then stock[id] else combinations[id].stock)
  {
    map id | id in combinations :: if id in stock then combinations[id].(stock := stock[id]) else combinations[id]
  }

  /** The store, holding what is committed. */
  class Store {
    var carts: map<Id, Cart>
    var combinations: map<Id, Combination>
    var addresses: map<Id, seq<Address>>
    var orders: seq<Order>

    function State(): StoreState
      reads this
    {
      StoreState(carts, combinations, addresses, orders)
    }

    constructor (s: StoreState)
      ensures State() == s
    {
      carts, combinations, addresses, orders := s.carts, s.combinations, s.addresses, s.orders;
    }

    /** `cartService.deleteOne(id)`, called without a session: it takes effect at once. */
    method DeleteCart(id: Id)
      modifies this
      ensures State() == old(State()).(carts := old(carts) - {id})
    {
      carts := carts - {id};
    }

    /** Makes a committed transaction's writes visible. */
    method Apply(stock: map<Id, int>, inserted: seq<Order>)
      modifies this
      ensures State() == old(State()).(combinations := WithStock(old(combinations), stock), orders := old(orders) + inserted)
    {
      combinations := WithStock(combinations, stock);
      orders := orders + inserted;
    }
  }

  /**
   * A client session (`startSession()`). While a transaction is open, the
   * writes passed the session are staged here: stock updates by
   * combination (a later write to the same combination replaces an
   * earlier one) and inserted orders. Commit applies them to the store;
   * abort drops them.
   */
  class Session {
    const store: Store
    var inTransaction: bool
    var stockWrites: map<Id, int>
    var orderInserts: seq<Order>

    constructor (store: Store)
      ensures this.store == store
      ensures !inTransaction && stockWrites == map[] && orderInserts == []
    {
      this.store := store;
      inTransaction := false;
      stockWrites := map[];
      orderInserts := [];
    }

    /** `session.startTransaction()`. */
    method StartTransaction()
      requires !inTransaction
      modifies this
      ensures inTransaction && stockWrites == map[] && orderInserts == []
    {
      inTransaction := true;
      stockWrites := map[];
      orderInserts := [];
    }

    /** `combinationService.update(id, { stock }, session)`. */
    method UpdateStock(id: Id, stock: int)
      requires inTransaction
      modifies this
      ensures inTransaction && orderInserts == old(orderInserts)
      ensures stockWrites == old(stockWrites)[id := stock]
    {
      stockWrites := stockWrites[id := stock];
    }

    /** `orderService.createOrder(order, session)`. */
    method InsertOrder(order: Order)
      requires inTransaction
      modifies this
      ensures inTransaction && stockWrites == old(stockWrites)
      ensures orderInserts == old(orderInserts) + [order]
    {
      orderInserts := orderInserts + [order];
    }

    /** `session.commitTransaction()`: the staged writes reach the store. */
    method Commit()
      requires inTransaction
      modifies this, store
      ensures !inTransaction && stockWrites == map[] && orderInserts == []
      ensures store.State() == old(store.State()).(
        combinations := WithStock(old(store.combinations), old(stockWrites)),
        orders := old(store.orders) + old(orderInserts))
    {
      store.Apply(stockWrites, orderInserts);
      inTransaction := false;
      stockWrites := map[];
      orderInserts := [];
    }

    /** `session.abortTransaction()`: the staged writes are dropped. */
    method Abort()
      requires inTransaction
      modifies this
      ensures !inTransaction && stockWrites == map[] && orderInserts == []
    {
      inTransaction := false;
      stockWrites := map[];
      orderInserts := [];
    }
  }
}
