/**
 * The order controller: `createOrder`, the checkout that turns cart lines
 * into an order inside a store transaction, and the user gate of
 * `getOrder`.
 */
module OrderController {
  import opened Js
  import opened OrderStore

  /** The authenticated caller, `context.user`; only its id matters here. */
  datatype UserContext = UserContext(id: Id)

  /** The response a handler sends. */
  datatype Response =
    | Created(order: Order)      // 201
    | Orders(orders: seq<Order>) // 200
    | NotFound                   // 404
    | InternalError              // 500

  /**
   * A cart line as `getManyByCartId` returns it, with its combination
   * populated: `None` when the referenced combination document is gone.
   */
  datatype Line = Line(id: Id, product: Id, combinationId: Id, combination: Option<Combination>, quantity: int)

  /** The cart line `id` of the store with its combination populated. */
  function LineOf(id: Id, carts: map<Id, Cart>, combinations: map<Id, Combination>): Line
    requires id in carts
  {
    var c := carts[id];
    Line(id, c.product, c.combination,
         if c.combination in combinations then Some(combinations[c.combination]) else None,
         c.quantity)
  }

  /** The ids of some cart lines. */
  function LineIds(lines: seq<Line>): set<Id> {
    set l | l in lines :: l.id
  }

  /**
   * `cartService.getManyByCartId(ids)`: the cart lines whose id is among
   * `ids`, each once, in the order of their first mention in `ids`.
   */
  function Resolve(ids: seq<Id>, carts: map<Id, Cart>, combinations: map<Id, Combination>): (lines: seq<Line>)
    ensures forall l :: l in lines ==> l.id in carts && l == LineOf(l.id, carts, combinations)
    ensures LineIds(lines) == set id | id in ids && id in carts
    ensures forall i, j :: 0 <= i < j < |lines| ==> lines[i].id != lines[j].id
  {
    if ids == [] then []
    else
      var earlier := ids[..|ids| - 1];
      var id := ids[|ids| - 1];
      var lines := Resolve(earlier, carts, combinations);
      assert forall x :: x in ids <==> x in earlier || x == id;
      if id in carts && id !in earlier then
        assert id !in LineIds(lines);
        var r := lines + [LineOf(id, carts, combinations)];
        assert forall l :: l in r <==> l in lines || l == LineOf(id, carts, combinations);
        assert LineIds(r) == LineIds(lines) + {id};
        r
      else
        assert (set x | x in ids && x in carts) == (set x | x in earlier && x in carts);
        lines
  }

  /** The position of the first line whose combination is gone, or `|lines|`. */
  function Unresolved(lines: seq<Line>): (k: nat)
    ensures k <= |lines|
    ensures forall i :: 0 <= i < k ==> lines[i].combination.Some?
    ensures k < |lines| ==> lines[k].combination.None?
    ensures k == |lines| <==> AllResolved(lines)
  {
    if lines == [] || lines[0].combination.None? then 0 else 1 + Unresolved(lines[1..])
  }

  predicate AllResolved(lines: seq<Line>) {
    forall i :: 0 <= i < |lines| ==> lines[i].combination.Some?
  }

  /** The order items built from the lines, one per line, as the loop pushes them. */
  function Items(lines: seq<Line>): seq<ProductItem>
    requires AllResolved(lines)
  {
    if lines == [] then []
    else
      var last := lines[|lines| - 1];
      var c := last.combination.value;
      Items(lines[..|lines| - 1]) + [ProductItem(last.product, last.combinationId, last.quantity, c.price * last.quantity)]
  }

  /**
   * One item per line, in order, copying the line's product, combination
   * and quantity and priced at the combination's price times the quantity.
   */
  lemma {:induction false} ItemsSnapshot(lines: seq<Line>)
    requires AllResolved(lines)
    ensures |Items(lines)| == |lines|
    ensures forall i :: 0 <= i < |lines| ==>
      && Items(lines)[i].product == lines[i].product
      && Items(lines)[i].combinations == lines[i].combinationId
      && Items(lines)[i].quantity == lines[i].quantity
      && Items(lines)[i].price == lines[i].combination.value.price * lines[i].quantity
  {
    if lines != [] {
      var init := lines[..|lines| - 1];
      assert AllResolved(init) by {
        forall i | 0 <= i < |init| ensures init[i].combination.Some? {
          assert init[i] == lines[i];
        }
      }
      ItemsSnapshot(init);
      forall i | 0 <= i < |init|
        ensures Items(lines)[i] == Items(init)[i] && init[i] == lines[i]
      {
      }
    }
  }

  /**
   * The stock writes the lines stage, in order: each line writes its
   * combination's stock as read at lookup minus its quantity, so a later
   * line on the same combination overwrites an earlier one.
   */
  function StockWrites(lines: seq<Line>): map<Id, int>
    requires AllResolved(lines)
  {
    if lines == [] then map[]
    else
      var last := lines[|lines| - 1];
      StockWrites(lines[..|lines| - 1])[last.combinationId := last.combination.value.stock - last.quantity]
  }

  /** The position of the last line on combination `id`. */
  function LastOn(lines: seq<Line>, id: Id): (j: nat)
    requires exists i :: 0 <= i < |lines| && lines[i].combinationId == id
    ensures j < |lines| && lines[j].combinationId == id
    ensures forall i :: j < i < |lines| ==> lines[i].combinationId != id
  {
    if lines[|lines| - 1].combinationId == id then |lines| - 1
    else
      var init := lines[..|lines| - 1];
      assert exists i :: 0 <= i < |init| && init[i].combinationId == id by {
        var i :| 0 <= i < |lines| && lines[i].combinationId == id;
        assert init[i] == lines[i];
      }
      LastOn(init, id)
  }

  /**
   * A combination gets a stock write iff some line is on it, and the value
   * written last is the last such line's stock-at-lookup minus its
   * quantity, with no floor at zero.
   */
  lemma {:induction false} StockWritesLastWins(lines: seq<Line>, id: Id)
    requires AllResolved(lines)
    ensures id in StockWrites(lines) <==> exists i :: 0 <= i < |lines| && lines[i].combinationId == id
    ensures id in StockWrites(lines) ==>
      var j := LastOn(lines, id);
      StockWrites(lines)[id] == lines[j].combination.value.stock - lines[j].quantity
  {
    if lines != [] {
      var init := lines[..|lines| - 1];
      var last := lines[|lines| - 1];
      assert AllResolved(init) by {
        forall i | 0 <= i < |init| ensures init[i].combination.Some? {
          assert init[i] == lines[i];
        }
      }
      StockWritesLastWins(init, id);
      if last.combinationId != id {
        assert (exists i :: 0 <= i < |lines| && lines[i].combinationId == id)
          <==> (exists i :: 0 <= i < |init| && init[i].combinationId == id) by {
          if exists i :: 0 <= i < |lines| && lines[i].combinationId == id {
            var i :| 0 <= i < |lines| && lines[i].combinationId == id;
            assert init[i] == lines[i];
          }
          if exists i :: 0 <= i < |init| && init[i].combinationId == id {
            var i :| 0 <= i < |init| && init[i].combinationId == id;
            assert lines[i] == init[i];
          }
        }
      }
    }
  }

  /** The first unresolved line is the first one after a resolved prefix. */
  lemma UnresolvedAt(lines: seq<Line>, i: nat)
    requires i < |lines| && AllResolved(lines[..i]) && lines[i].combination.None?
    ensures Unresolved(lines) == i
  {
    forall j | 0 <= j < i
      ensures lines[j].combination.Some?
    {
      assert lines[..i][j] == lines[j];
    }
  }

  /** Extending a processed prefix by one resolved line. */
  lemma PrefixStep(lines: seq<Line>, i: nat)
    requires i < |lines| && AllResolved(lines[..i]) && lines[i].combination.Some?
    ensures AllResolved(lines[..i + 1])
    ensures StockWrites(lines[..i + 1])
      == StockWrites(lines[..i])[lines[i].combinationId := lines[i].combination.value.stock - lines[i].quantity]
    ensures Items(lines[..i + 1]) == Items(lines[..i])
      + [ProductItem(lines[i].product, lines[i].combinationId, lines[i].quantity, lines[i].combination.value.price * lines[i].quantity)]
    ensures LineIds(lines[..i + 1]) == LineIds(lines[..i]) + {lines[i].id}
  {
    var next := lines[..i + 1];
    assert next[..i] == lines[..i];
    assert next == lines[..i] + [lines[i]];
    assert forall l :: l in next <==> l in lines[..i] || l == lines[i];
  }

  /** `address.filter(i => i.isDefault)`: the default addresses, in order. */
  function DefaultAddresses(addresses: seq<Address>): (r: seq<Address>)
    ensures forall a :: a in r <==> a in addresses && a.isDefault
    ensures addresses != [] && addresses[0].isDefault ==> r != [] && r[0] == addresses[0]
  {
    if addresses == [] then []
    else
      assert forall a :: a in addresses <==> a == addresses[0] || a in addresses[1..];
      (if addresses[0].isDefault then [addresses[0]] else []) + DefaultAddresses(addresses[1..])
  }

  /**
   * What `createOrder` does to the store and what it answers. Without a
   * user, or when no requested cart line exists, a 404 and nothing
   * changes. Otherwise the lines are processed in order: each line's cart
   * document is deleted at once (outside the transaction) and its stock
   * write and order item are staged. A line whose combination is gone
   * throws when its stock is read; a user without a default address
   * throws when the shipping address is read. Either throw aborts: the
   * staged writes are dropped but the carts deleted so far stay deleted,
   * and the answer is a 500. Otherwise the order, in state
   * `AwaitingShipment` with the caller's total price, and the stock
   * writes are committed, and the answer is a 201 with the order.
   */
  function Checkout(s: StoreState, user: Option<UserContext>, cartIds: seq<Id>, totalPrice: int, deliveredDate: int)
    : (Response, StoreState)
  {
    if user.None? then (Response.NotFound, s)
    else Place(s, user.value, Resolve(cartIds, s.carts, s.combinations), totalPrice, deliveredDate)
  }

  /** The checkout of the cart lines `lines` by `user`, as `Checkout` describes it. */
  function Place(s: StoreState, user: UserContext, lines: seq<Line>, totalPrice: int, deliveredDate: int)
    : (Response, StoreState)
  {
    if |lines| == 0 then (Response.NotFound, s)
    else
      var k := Unresolved(lines);
      var afterDeletes := s.(carts := s.carts - LineIds(lines[..k]));
      if k < |lines| then (Response.InternalError, afterDeletes)
      else
        var shipping := DefaultAddresses(AddressesOf(s, user.id));
        if |shipping| == 0 then (Response.InternalError, afterDeletes)
        else
          var order := Order(user.id, Items(lines), totalPrice, shipping[0].id, deliveredDate, AwaitingShipment);
          (Created(order),
           afterDeletes.(combinations := WithStock(s.combinations, StockWrites(lines)),
                         orders := s.orders + [order]))
  }

  /** A checkout succeeds only with some lines, all resolved, and a default address. */
  lemma PlaceCreated(s: StoreState, user: UserContext, lines: seq<Line>, totalPrice: int, deliveredDate: int)
    requires Place(s, user, lines, totalPrice, deliveredDate).0.Created?
    ensures |lines| > 0 && AllResolved(lines)
    ensures |DefaultAddresses(AddressesOf(s, user.id))| > 0
  {
  }

  /** The outcome of a checkout whose every line resolves and whose user has a default address. */
  lemma PlaceCommits(s: StoreState, user: UserContext, lines: seq<Line>, totalPrice: int, deliveredDate: int)
    requires |lines| > 0 && AllResolved(lines)
    requires |DefaultAddresses(AddressesOf(s, user.id))| > 0
    ensures var order := Order(user.id, Items(lines), totalPrice, DefaultAddresses(AddressesOf(s, user.id))[0].id, deliveredDate, AwaitingShipment);
      Place(s, user, lines, totalPrice, deliveredDate)
      == (Created(order),
          StoreState(s.carts - LineIds(lines), WithStock(s.combinations, StockWrites(lines)), s.addresses, s.orders + [order]))
  {
    assert lines[..|lines|] == lines;
  }

  /**
   * The `for (const cart of carts)` loop of `createOrder`: for each line in
   * turn, stages its stock write in the session, deletes its cart document
   * at once and builds its order item, until a line whose combination is
   * gone throws. Returns the items and the position `k` of the line that
   * threw (`|lines|` when none did).
   */
  method StageLines(store: Store, session: Session, lines: seq<Line>) returns (products: seq<ProductItem>, k: nat)
    requires session.store == store && session.inTransaction
    requires session.orderInserts == [] && session.stockWrites == map[]
    modifies store, session
    ensures k == Unresolved(lines)
    ensures session.inTransaction && session.orderInserts == []
    ensures AllResolved(lines[..k]) && session.stockWrites == StockWrites(lines[..k]) && products == Items(lines[..k])
    ensures k == |lines| ==> AllResolved(lines) && session.stockWrites == StockWrites(lines) && products == Items(lines)
    ensures store.State() == old(store.State()).(carts := old(store.carts) - LineIds(lines[..k]))
  {
    products := [];
    k := 0;
    while k < |lines|
      invariant k <= |lines|
      invariant session.store == store && session.inTransaction && session.orderInserts == []
      invariant AllResolved(lines[..k])
      invariant session.stockWrites == StockWrites(lines[..k])
      invariant products == Items(lines[..k])
      invariant store.carts == old(store.carts) - LineIds(lines[..k])
      invariant store.combinations == old(store.combinations)
      invariant store.addresses == old(store.addresses)
      invariant store.orders == old(store.orders)
    {
      var cart := lines[k];
      if cart.combination.None? {
        // reading the stock of a missing combination throws
        UnresolvedAt(lines, k);
        return;
      }
      var combination := cart.combination.value;
      var stock := combination.stock - cart.quantity;
      session.UpdateStock(cart.combinationId, stock);
      store.DeleteCart(cart.id);
      products := products + [ProductItem(cart.product, cart.combinationId, cart.quantity, combination.price * cart.quantity)];
      PrefixStep(lines, k);
      k := k + 1;
    }
    assert lines[..k] == lines;
  }

  /** `orderController.createOrder`, step by step over the store and a session. */
  method CreateOrder(store: Store, user: Option<UserContext>, cartIds: seq<Id>, totalPrice: int, deliveredDate: int)
    returns (res: Response)
    modifies store
    ensures (res, store.State()) == Checkout(old(store.State()), user, cartIds, totalPrice, deliveredDate)
  {
    ghost var s0 := store.State();
    var session := new Session(store);
    if user.None? {
      return Response.NotFound;
    }
    session.StartTransaction();
    var carts := Resolve(cartIds, store.carts, store.combinations);
    if |carts| > 0 {
      var products, k := StageLines(store, session, carts);
      if k < |carts| {
        session.Abort();
        return Response.InternalError;
      }
      var shipping := DefaultAddresses(AddressesOf(store.State(), user.value.id));
      if |shipping| == 0 {
        // `shipping[0].id` on an empty list throws
        session.Abort();
        return Response.InternalError;
      }
      var order := Order(user.value.id, products, totalPrice, shipping[0].id, deliveredDate, AwaitingShipment);
      session.InsertOrder(order);
      session.Commit();
      PlaceCommits(s0, user.value, carts, totalPrice, deliveredDate);
      assert store.State() == StoreState(s0.carts - LineIds(carts), WithStock(s0.combinations, StockWrites(carts)), s0.addresses, s0.orders + [order]);
      return Created(order);
    }
    return Response.NotFound;
  }

  /** `orderController.getOrder`: a 404 without a user, else the user's orders. */
  function GetOrder(user: Option<UserContext>, orders: seq<Order>): (r: Response)
    ensures user.None? <==> r == Response.NotFound
    ensures user.Some? ==> r.Orders? && forall o :: o in r.orders <==> o in orders && o.user == user.value.id
  {
    if user.None? then Response.NotFound
    else Orders(OrdersOf(orders, user.value.id))
  }

  /** `orderService.getByUserId(user)`: the user's orders, in store order. */
  function OrdersOf(orders: seq<Order>, user: Id): (r: seq<Order>)
    ensures forall o :: o in r <==> o in orders && o.user == user
  {
    if orders == [] then []
    else
      assert forall o :: o in orders <==> o == orders[0] || o in orders[1..];
      (if orders[0].user == user then [orders[0]] else []) + OrdersOf(orders[1..], user)
  }

  /** The first default address is the earliest address flagged default; soft-deleted ones are not skipped. */
  lemma {:induction false} FirstDefault(addresses: seq<Address>)
    requires DefaultAddresses(addresses) != []
    ensures exists j ::
      (&& 0 <= j < |addresses|
       && addresses[j] == DefaultAddresses(addresses)[0]
       && addresses[j].isDefault
       && forall i :: 0 <= i < j ==> !addresses[i].isDefault)
  {
    if !addresses[0].isDefault {
      var rest := addresses[1..];
      assert DefaultAddresses(addresses) == DefaultAddresses(rest);
      FirstDefault(rest);
      var j :| 0 <= j < |rest| && rest[j] == DefaultAddresses(rest)[0]
        && rest[j].isDefault
        && forall i :: 0 <= i < j ==> !rest[i].isDefault;
      assert addresses[j + 1] == rest[j];
      forall i | 0 <= i < j + 1
        ensures !addresses[i].isDefault
      {
        if i > 0 {
          assert addresses[i] == rest[i - 1];
        }
      }
    }
  }

  /**
   * What `createOrder` answers, in terms of the store: a 404 exactly when
   * there is no user or none of the requested cart lines exists, and then
   * nothing changes; a 201 exactly when there is a user, some requested
   * line exists, every requested line's combination exists and the user
   * has a default address; a 500 otherwise.
   */
  lemma CheckoutResponse(s: StoreState, user: Option<UserContext>, cartIds: seq<Id>, totalPrice: int, deliveredDate: int)
    ensures var (res, after) := Checkout(s, user, cartIds, totalPrice, deliveredDate);
      && (res == Response.NotFound <==> user.None? || forall id :: id in cartIds ==> id !in s.carts)
      && (res == Response.NotFound ==> after == s)
      && (res.Created? <==>
            && user.Some?
            && (exists id :: id in cartIds && id in s.carts)
            && (forall id :: id in cartIds && id in s.carts ==> s.carts[id].combination in s.combinations)
            && (exists a :: a in AddressesOf(s, user.value.id) && a.isDefault))
      && (res.Created? || res == Response.NotFound || res == Response.InternalError)
  {
    if user.Some? {
      var lines := Resolve(cartIds, s.carts, s.combinations);
      assert |lines| == 0 <==> LineIds(lines) == {} by {
        if |lines| > 0 {
          assert lines[0].id in LineIds(lines);
        }
      }
      assert LineIds(lines) == {} <==> forall id :: id in cartIds ==> id !in s.carts by {
        if exists id :: id in cartIds && id in s.carts {
          var id :| id in cartIds && id in s.carts;
          assert id in LineIds(lines);
        }
      }
      assert AllResolved(lines) <==>
        forall id :: id in cartIds && id in s.carts ==> s.carts[id].combination in s.combinations
      by {
        if AllResolved(lines) {
          forall id | id in cartIds && id in s.carts
            ensures s.carts[id].combination in s.combinations
          {
            assert id in LineIds(lines);
            var l :| l in lines && l.id == id;
            var i :| 0 <= i < |lines| && lines[i] == l;
          }
        }
        if forall id :: id in cartIds && id in s.carts ==> s.carts[id].combination in s.combinations {
          forall i | 0 <= i < |lines|
            ensures lines[i].combination.Some?
          {
            assert lines[i] in lines;
            assert lines[i].id in LineIds(lines);
          }
        }
      }
      var shipping := DefaultAddresses(AddressesOf(s, user.value.id));
      assert |shipping| > 0 <==> exists a :: a in AddressesOf(s, user.value.id) && a.isDefault by {
        if |shipping| > 0 {
          assert shipping[0] in shipping;
        }
      }
    }
  }

  /**
   * A successful checkout: the order belongs to the caller, carries the
   * caller's total price and delivery date unchanged and the state
   * `AwaitingShipment`; it has one item per resolved cart line, in order,
   * copying the line's product, combination and quantity and priced at
   * the combination's price times the quantity; its shipping address is
   * the user's first default address. The order is appended, every
   * requested cart line is gone and every other one is untouched.
   */
  lemma CheckoutCreates(s: StoreState, user: UserContext, cartIds: seq<Id>, totalPrice: int, deliveredDate: int)
    requires Checkout(s, Some(user), cartIds, totalPrice, deliveredDate).0.Created?
    ensures var (res, after) := Checkout(s, Some(user), cartIds, totalPrice, deliveredDate);
      var o := res.order;
      var lines := Resolve(cartIds, s.carts, s.combinations);
      && o.user == user.id && o.totalPrice == totalPrice && o.deliveredDate == deliveredDate
      && o.state == AwaitingShipment
      && |o.products| == |lines|
      && (forall i :: 0 <= i < |lines| ==>
            var cart := s.carts[lines[i].id];
            && cart.combination in s.combinations
            && o.products[i] == ProductItem(cart.product, cart.combination, cart.quantity,
                                            s.combinations[cart.combination].price * cart.quantity))
      && (exists j ::
            (&& 0 <= j < |AddressesOf(s, user.id)|
             && AddressesOf(s, user.id)[j].id == o.shipping
             && AddressesOf(s, user.id)[j].isDefault
             && forall i :: 0 <= i < j ==> !AddressesOf(s, user.id)[i].isDefault))
      && after.orders == s.orders + [o]
      && after.addresses == s.addresses
      && (forall id :: id in after.carts <==> id in s.carts && id !in cartIds)
      && (forall id :: id in after.carts ==> after.carts[id] == s.carts[id])
  {
    var lines := Resolve(cartIds, s.carts, s.combinations);
    PlaceCreated(s, user, lines, totalPrice, deliveredDate);
    PlaceCommits(s, user, lines, totalPrice, deliveredDate);
    ItemsSnapshot(lines);
    FirstDefault(AddressesOf(s, user.id));
    forall i | 0 <= i < |lines|
      ensures s.carts[lines[i].id].combination in s.combinations
    {
      assert lines[i] in lines;
    }
  }

  /**
   * The stock a successful checkout leaves: every combination keeps its
   * price; one that no line is on keeps its stock; one that lines are on
   * gets the stock read when the lines were looked up minus the quantity
   * of the LAST such line only, with no floor at zero.
   */
  lemma CheckoutStock(s: StoreState, user: UserContext, cartIds: seq<Id>, totalPrice: int, deliveredDate: int, c: Id)
    requires Checkout(s, Some(user), cartIds, totalPrice, deliveredDate).0.Created?
    ensures var after := Checkout(s, Some(user), cartIds, totalPrice, deliveredDate).1;
      c in after.combinations <==> c in s.combinations
    ensures var after := Checkout(s, Some(user), cartIds, totalPrice, deliveredDate).1;
      c in s.combinations ==> after.combinations[c].price == s.combinations[c].price
    ensures var after := Checkout(s, Some(user), cartIds, totalPrice, deliveredDate).1;
      var lines := Resolve(cartIds, s.carts, s.combinations);
      c in s.combinations && (forall i :: 0 <= i < |lines| ==> lines[i].combinationId != c) ==>
        after.combinations[c].stock == s.combinations[c].stock
    ensures var after := Checkout(s, Some(user), cartIds, totalPrice, deliveredDate).1;
      var lines := Resolve(cartIds, s.carts, s.combinations);
      c in s.combinations && (exists i :: 0 <= i < |lines| && lines[i].combinationId == c) ==>
        after.combinations[c].stock == s.combinations[c].stock - lines[LastOn(lines, c)].quantity
  {
    var lines := Resolve(cartIds, s.carts, s.combinations);
    PlaceCreated(s, user, lines, totalPrice, deliveredDate);
    PlaceCommits(s, user, lines, totalPrice, deliveredDate);
    forall l | l in lines
      ensures l.combinationId in s.combinations && l.combination == Some(s.combinations[l.combinationId])
    {
      var i :| 0 <= i < |lines| && lines[i] == l;
    }
    CommittedStock(s.combinations, lines, c);
  }

  /** The stock the staged writes of resolved lines leave on combination `c`. */
  lemma CommittedStock(combinations: map<Id, Combination>, lines: seq<Line>, c: Id)
    requires AllResolved(lines)
    requires forall l :: l in lines ==> l.combinationId in combinations && l.combination == Some(combinations[l.combinationId])
    ensures var after := WithStock(combinations, StockWrites(lines));
      && (c in after <==> c in combinations)
      && (c in combinations ==> after[c].price == combinations[c].price)
      && (c in combinations && (forall i :: 0 <= i < |lines| ==> lines[i].combinationId != c) ==>
            after[c].stock == combinations[c].stock)
      && (c in combinations && (exists i :: 0 <= i < |lines| && lines[i].combinationId == c) ==>
            after[c].stock == combinations[c].stock - lines[LastOn(lines, c)].quantity)
  {
    StockWritesLastWins(lines, c);
    if c in StockWrites(lines) {
      var j := LastOn(lines, c);
      assert lines[j] in lines;
    }
  }

  /**
   * A failed checkout (a 500): stock and orders are as they were, since
   * the transaction was aborted, but cart lines deleted before the throw
   * stay deleted; only requested lines can be gone, and when every line
   * resolved (the throw came from the missing default address) all the
   * requested lines are gone.
   */
  lemma CheckoutFailure(s: StoreState, user: Option<UserContext>, cartIds: seq<Id>, totalPrice: int, deliveredDate: int)
    requires Checkout(s, user, cartIds, totalPrice, deliveredDate).0 == Response.InternalError
    ensures var after := Checkout(s, user, cartIds, totalPrice, deliveredDate).1;
      && after.combinations == s.combinations
      && after.orders == s.orders
      && after.addresses == s.addresses
      && (forall id :: id in after.carts ==> id in s.carts && after.carts[id] == s.carts[id])
      && (forall id :: id in s.carts && id !in cartIds ==> id in after.carts)
      && ((forall id :: id in cartIds && id in s.carts ==> s.carts[id].combination in s.combinations) ==>
            forall id :: id in cartIds ==> id !in after.carts)
    ensures var after := Checkout(s, user, cartIds, totalPrice, deliveredDate).1;
      var lines := Resolve(cartIds, s.carts, s.combinations);
      && (forall i :: 0 <= i < Unresolved(lines) ==> lines[i].id !in after.carts)
      && (forall i :: Unresolved(lines) <= i < |lines| ==> lines[i].id in after.carts)
  {
    var lines := Resolve(cartIds, s.carts, s.combinations);
    var k := Unresolved(lines);
    assert LineIds(lines[..k]) <= LineIds(lines) by {
      forall l | l in lines[..k] ensures l in lines { }
    }
    if forall id :: id in cartIds && id in s.carts ==> s.carts[id].combination in s.combinations {
      forall i | 0 <= i < |lines|
        ensures lines[i].combination.Some?
      {
        assert lines[i] in lines;
        assert lines[i].id in LineIds(lines);
      }
      assert lines[..k] == lines;
    }
    PrefixIds(lines, k);
  }

  /** With distinct ids, the ids of a prefix are exactly those of its lines. */
  lemma PrefixIds(lines: seq<Line>, k: nat)
    requires k <= |lines|
    requires forall i, j :: 0 <= i < j < |lines| ==> lines[i].id != lines[j].id
    ensures forall i :: 0 <= i < k ==> lines[i].id in LineIds(lines[..k])
    ensures forall i :: k <= i < |lines| ==> lines[i].id !in LineIds(lines[..k])
  {
    forall i | 0 <= i < k
      ensures lines[i].id in LineIds(lines[..k])
    {
      assert lines[..k][i] == lines[i];
    }
    forall i | k <= i < |lines|
      ensures lines[i].id !in LineIds(lines[..k])
    {
      forall l | l in lines[..k]
        ensures l.id != lines[i].id
      {
        var j :| 0 <= j < k && lines[..k][j] == l;
        assert l == lines[j];
      }
    }
  }

  /**
   * Sending the same request again after a successful checkout finds none
   * of its cart lines and answers 404 without changing anything.
   */
  lemma RetryAfterSuccess(s: StoreState, user: UserContext, cartIds: seq<Id>, totalPrice: int, deliveredDate: int)
    requires Checkout(s, Some(user), cartIds, totalPrice, deliveredDate).0.Created?
    ensures var after := Checkout(s, Some(user), cartIds, totalPrice, deliveredDate).1;
      Checkout(after, Some(user), cartIds, totalPrice, deliveredDate) == (Response.NotFound, after)
  {
    var after := Checkout(s, Some(user), cartIds, totalPrice, deliveredDate).1;
    CheckoutCreates(s, user, cartIds, totalPrice, deliveredDate);
    CheckoutResponse(after, Some(user), cartIds, totalPrice, deliveredDate);
  }

  /** Looking up one existing cart line yields that line, populated. */
  lemma ResolveOne(id: Id, carts: map<Id, Cart>, combinations: map<Id, Combination>)
    requires id in carts
    ensures Resolve([id], carts, combinations) == [LineOf(id, carts, combinations)]
  {
    assert [id][..0] == [];
  }

  /** Looking up two distinct existing cart lines yields both, in request order. */
  lemma ResolveTwo(a: Id, b: Id, carts: map<Id, Cart>, combinations: map<Id, Combination>)
    requires a in carts && b in carts && a != b
    ensures Resolve([a, b], carts, combinations) == [LineOf(a, carts, combinations), LineOf(b, carts, combinations)]
  {
    ResolveOne(a, carts, combinations);
    assert [a, b][..1] == [a];
  }

  /** The stock writes of two resolved lines: the second applied over the first. */
  lemma StockWritesTwo(l1: Line, l2: Line)
    requires l1.combination.Some? && l2.combination.Some?
    ensures StockWrites([l1, l2])
      == map[l1.combinationId := l1.combination.value.stock - l1.quantity][l2.combinationId := l2.combination.value.stock - l2.quantity]
  {
    assert [l1][..0] == [];
    assert StockWrites([l1]) == map[l1.combinationId := l1.combination.value.stock - l1.quantity];
    assert [l1, l2][..1] == [l1];
  }

  /**
   * A worked example: user `u` has lines `l1` (two of
   * combination `c1` at 10, stock 5) and `l2` (one of `c2` at 25, stock
   * 4) and default address `a`, and sends total 45: a 201 with items
   * priced 20 and 25, shipping to `a`, both stocks reduced by their
   * quantities and both cart lines gone.
   */
  lemma TwoLineCheckout(u: Id, l1: Id, l2: Id, p1: Id, p2: Id, c1: Id, c2: Id, a: Id, date: int)
    requires l1 != l2 && c1 != c2
    ensures var s := StoreState(
              map[l1 := Cart(u, p1, c1, 2), l2 := Cart(u, p2, c2, 1)],
              map[c1 := Combination(10, 5), c2 := Combination(25, 4)],
              map[u := [Address(a, true, false)]],
              []);
      var order := Order(u, [ProductItem(p1, c1, 2, 20), ProductItem(p2, c2, 1, 25)], 45, a, date, AwaitingShipment);
      Checkout(s, Some(UserContext(u)), [l1, l2], 45, date)
      == (Created(order), StoreState(map[], map[c1 := Combination(10, 3), c2 := Combination(25, 3)], s.addresses, [order]))
  {
    var s := StoreState(
              map[l1 := Cart(u, p1, c1, 2), l2 := Cart(u, p2, c2, 1)],
              map[c1 := Combination(10, 5), c2 := Combination(25, 4)],
              map[u := [Address(a, true, false)]],
              []);
    var line1 := Line(l1, p1, c1, Some(Combination(10, 5)), 2);
    var line2 := Line(l2, p2, c2, Some(Combination(25, 4)), 1);
    var lines := [line1, line2];
    ResolveTwo(l1, l2, s.carts, s.combinations);
    StockWritesTwo(line1, line2);
    assert Items(lines) == [ProductItem(p1, c1, 2, 20), ProductItem(p2, c2, 1, 25)] by {
      assert [line1][..0] == [];
      assert Items([line1]) == [ProductItem(p1, c1, 2, 20)];
      assert lines[..1] == [line1];
    }
    assert WithStock(s.combinations, StockWrites(lines)) == map[c1 := Combination(10, 3), c2 := Combination(25, 3)];
    assert s.carts - LineIds(lines) == map[] by {
      assert LineIds(lines) == {l1, l2};
    }
    assert DefaultAddresses(AddressesOf(s, u)) == [Address(a, true, false)];
    PlaceCommits(s, UserContext(u), lines, 45, date);
    var order := Order(u, [ProductItem(p1, c1, 2, 20), ProductItem(p2, c2, 1, 25)], 45, a, date, AwaitingShipment);
    assert s.orders + [order] == [order];
  }

  /**
   * Two lines on one combination `c` with stock 10, for 2 and then 3
   * units: the stock left is 7, not 5, because each write is the stock
   * read at lookup minus that line's quantity and the second write
   * replaces the first.
   */
  lemma SameCombinationLastWriteWins(u: Id, l1: Id, l2: Id, p: Id, c: Id, a: Id, date: int)
    requires l1 != l2
    ensures var s := StoreState(
              map[l1 := Cart(u, p, c, 2), l2 := Cart(u, p, c, 3)],
              map[c := Combination(4, 10)],
              map[u := [Address(a, true, false)]],
              []);
      Checkout(s, Some(UserContext(u)), [l1, l2], 20, date).1.combinations == map[c := Combination(4, 7)]
  {
    var s := StoreState(
              map[l1 := Cart(u, p, c, 2), l2 := Cart(u, p, c, 3)],
              map[c := Combination(4, 10)],
              map[u := [Address(a, true, false)]],
              []);
    var line1 := Line(l1, p, c, Some(Combination(4, 10)), 2);
    var line2 := Line(l2, p, c, Some(Combination(4, 10)), 3);
    var lines := [line1, line2];
    ResolveTwo(l1, l2, s.carts, s.combinations);
    StockWritesTwo(line1, line2);
    assert StockWrites(lines) == map[c := 7];
    assert WithStock(s.combinations, map[c := 7]) == map[c := Combination(4, 7)];
    assert DefaultAddresses(AddressesOf(s, u)) == [Address(a, true, false)];
    PlaceCommits(s, UserContext(u), lines, 20, date);
  }

  /**
   * Ordering 3 units of a combination with 1 in stock still succeeds, and
   * leaves the stock at -2; the total price sent (here 1, against an item
   * sum of 12) is stored as given.
   */
  lemma OversellAndAnyTotal(u: Id, l: Id, p: Id, c: Id, a: Id, date: int)
    ensures var s := StoreState(
              map[l := Cart(u, p, c, 3)],
              map[c := Combination(4, 1)],
              map[u := [Address(a, true, false)]],
              []);
      var (res, after) := Checkout(s, Some(UserContext(u)), [l], 1, date);
      && res == Created(Order(u, [ProductItem(p, c, 3, 12)], 1, a, date, AwaitingShipment))
      && after.combinations == map[c := Combination(4, -2)]
  {
    var s := StoreState(
              map[l := Cart(u, p, c, 3)],
              map[c := Combination(4, 1)],
              map[u := [Address(a, true, false)]],
              []);
    var line := Line(l, p, c, Some(Combination(4, 1)), 3);
    ResolveOne(l, s.carts, s.combinations);
    assert [line][..0] == [];
    assert StockWrites([line]) == map[c := -2];
    assert Items([line]) == [ProductItem(p, c, 3, 12)];
    assert WithStock(s.combinations, map[c := -2]) == map[c := Combination(4, -2)];
    assert DefaultAddresses(AddressesOf(s, u)) == [Address(a, true, false)];
    PlaceCommits(s, UserContext(u), [line], 1, date);
  }

  /**
   * A user whose only address is not a default one: a 500, the stock is
   * as it was, no order is stored, and the cart line is gone all the same.
   */
  lemma NoDefaultAddressLosesCart(u: Id, l: Id, p: Id, c: Id, a: Id, date: int)
    ensures var s := StoreState(
              map[l := Cart(u, p, c, 1)],
              map[c := Combination(4, 5)],
              map[u := [Address(a, false, false)]],
              []);
      Checkout(s, Some(UserContext(u)), [l], 4, date) == (Response.InternalError, s.(carts := map[]))
  {
    var s := StoreState(
              map[l := Cart(u, p, c, 1)],
              map[c := Combination(4, 5)],
              map[u := [Address(a, false, false)]],
              []);
    var line := Line(l, p, c, Some(Combination(4, 5)), 1);
    ResolveOne(l, s.carts, s.combinations);
    assert Unresolved([line]) == 1;
    assert DefaultAddresses([Address(a, false, false)]) == [];
    assert [line][..1] == [line];
    assert s.carts - LineIds([line]) == map[] by {
      assert LineIds([line]) == {l};
    }
  }
}
