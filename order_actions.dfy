/**
 * The order server actions: create an order from the caller's cart, list the
 * caller's orders, read one order with its items, and change an order's
 * status (the payment confirmation). As for the cart, each state-changing
 * action is a method on the store proved equal to a specification function
 * of the old tables, and the lemmas state what those functions promise.
 */
module OrderActions {
  import opened Wrappers
  import opened ShopTypes
  import opened Store
  import Newest
  import OrderValidation
  import CartActions
  import NumberText

  datatype OrderError =
    | ValidationFailed(issue: OrderValidation.Issue)
    | AuthRequired
    | EmptyCart
    | ProductNotFound(productId: ProductId)
    | ProductInactive(productName: string)
    | InsufficientStock(productName: string, stock: int)
    | OrderItemsCreationFailed
    | OrderNotFound

  datatype CreateResult = Created(orderId: OrderId) | CreateFailed(error: OrderError)

  datatype StatusResult = StatusUpdated | StatusFailed(error: OrderError)

  /**
   * The error text the action returns. A cart line whose product row is
   * gone is joined with `null`, and building its message reads `name` of
   * `null`; the exception is caught and its own text is returned.
   */
  function Message(e: OrderError): string {
    match e
    case ValidationFailed(issue) => OrderValidation.Message(issue)
    case AuthRequired => "인증이 필요합니다."
    case EmptyCart => "장바구니가 비어있습니다."
    case ProductNotFound(_) => "Cannot read properties of null (reading 'name')"
    case ProductInactive(name) => "판매 중인 상품이 아닙니다: " + name
    case InsufficientStock(name, stock) => "재고가 부족합니다: " + name + " (현재 재고: " + NumberText.IntToString(stock) + "개)"
    case OrderItemsCreationFailed => "주문 아이템 생성에 실패했습니다."
    case OrderNotFound => "주문을 찾을 수 없습니다."
  }

  // -------------------------------------------------------------- createOrder

  /** The re-check of one cart line against the current product row, and its order item. */
  function LineCheck(products: map<ProductId, Product>, line: CartItemWithProduct): Result<OrderItem, OrderError> {
    var pid := line.item.productId;
    if pid !in products then Err(ProductNotFound(pid))
    else
      var p := products[pid];
      if !p.isActive then Err(ProductInactive(p.name))
      else if p.stockQuantity < line.item.quantity then Err(InsufficientStock(p.name, p.stockQuantity))
      else Ok(OrderItem(p.id, p.name, line.item.quantity, p.price))
  }

  /** The loop over the cart: the first failing line's error, or one order item per line. */
  function Snapshot(products: map<ProductId, Product>, lines: seq<CartItemWithProduct>): Result<seq<OrderItem>, OrderError> {
    if lines == [] then Ok([])
    else
      match Snapshot(products, lines[..|lines| - 1])
      case Err(e) => Err(e)
      case Ok(items) =>
        match LineCheck(products, lines[|lines| - 1])
        case Err(e) => Err(e)
        case Ok(item) => Ok(items + [item])
  }

  /** `orderNote || null`: an empty note is stored as no note. */
  function StoredNote(note: Option<string>): (r: Option<string>)
    ensures r.None? <==> note.None? || note.value == ""
    ensures r.Some? ==> r == note
  {
    if note == Some("") then None else note
  }

  /**
   * The effect of `createOrder(request)`. `freshOrderId` is the id the store
   * gives the new order; `itemsInsertFails` says whether the order-items
   * insert is refused, in which case the order just inserted is deleted.
   */
  ghost function AfterCreateOrder(t: Tables, caller: Option<UserId>, request: CreateOrderRequest,
                                  freshOrderId: OrderId, itemsInsertFails: bool): Step<CreateResult>
  {
    var v := OrderValidation.Validate(request);
    if v.Err? then Step(CreateFailed(ValidationFailed(v.error)), t)
    else if caller.None? then Step(CreateFailed(AuthRequired), t)
    else
      var listing := CartListing(t, caller);
      if listing == [] then Step(CreateFailed(EmptyCart), t)
      else
        match Snapshot(t.products, listing)
        case Err(e) => Step(CreateFailed(e), t)
        case Ok(items) =>
          if itemsInsertFails then Step(CreateFailed(OrderItemsCreationFailed), t)
          else
            var order := Order(freshOrderId, caller.value, ItemsTotal(items), Pending,
                               Some(request.shippingAddress), StoredNote(request.orderNote), t.clock);
            Step(Created(freshOrderId), t.(orders := t.orders[freshOrderId := order],
                                           orderItems := t.orderItems[freshOrderId := items],
                                           clock := t.clock + 1))
  }

  /** Once a prefix of the lines fails, the whole loop fails with that error. */
  lemma {:induction false} SnapshotKeepsFirstError(products: map<ProductId, Product>, lines: seq<CartItemWithProduct>, j: nat)
    requires j <= |lines| && Snapshot(products, lines[..j]).Err?
    ensures Snapshot(products, lines) == Snapshot(products, lines[..j])
    decreases |lines|
  {
    if j < |lines| {
      var pre := lines[..|lines| - 1];
      assert pre[..j] == lines[..j];
      SnapshotKeepsFirstError(products, pre, j);
    } else {
      assert lines[..j] == lines;
    }
  }

  /** The loop succeeds iff every line passes, and then yields exactly one item per line, in cart order. */
  lemma {:induction false} SnapshotSucceedsExactly(products: map<ProductId, Product>, lines: seq<CartItemWithProduct>)
    ensures Snapshot(products, lines).Ok? <==> forall i :: 0 <= i < |lines| ==> LineCheck(products, lines[i]).Ok?
    ensures Snapshot(products, lines).Ok? ==>
      var items := Snapshot(products, lines).value;
      && |items| == |lines|
      && forall i :: 0 <= i < |lines| ==> items[i] == LineCheck(products, lines[i]).value
    decreases |lines|
  {
    if lines != [] {
      var pre := lines[..|lines| - 1];
      SnapshotSucceedsExactly(products, pre);
      assert forall i :: 0 <= i < |pre| ==> pre[i] == lines[i];
    }
  }

  /** The first line that fails decides the error. */
  lemma SnapshotFirstFailure(products: map<ProductId, Product>, lines: seq<CartItemWithProduct>, i: nat)
    requires i < |lines| && LineCheck(products, lines[i]).Err?
    requires forall j :: 0 <= j < i ==> LineCheck(products, lines[j]).Ok?
    ensures Snapshot(products, lines) == Err(LineCheck(products, lines[i]).error)
  {
    var pre := lines[..i];
    SnapshotSucceedsExactly(products, pre);
    assert lines[..i + 1][..i] == pre;
    SnapshotKeepsFirstError(products, lines, i + 1);
  }

  /**
   * Σ price × quantity over the snapshot equals the amount the cart summary
   * shows for the same lines, when each line is joined with its product.
   */
  lemma {:induction false} SnapshotTotalIsCartAmount(products: map<ProductId, Product>, lines: seq<CartItemWithProduct>)
    requires Snapshot(products, lines).Ok?
    requires forall i :: 0 <= i < |lines| ==> lines[i] == Join(products, lines[i].item)
    ensures CartActions.AllJoined(lines)
    ensures CartActions.AmountSum(lines) == ItemsTotal(Snapshot(products, lines).value)
    decreases |lines|
  {
    if lines != [] {
      var pre := lines[..|lines| - 1];
      var last := lines[|lines| - 1];
      assert Snapshot(products, pre).Ok? && LineCheck(products, last).Ok?;
      assert forall i :: 0 <= i < |pre| ==> pre[i] == lines[i];
      SnapshotTotalIsCartAmount(products, pre);
      var items := Snapshot(products, pre).value;
      var item := LineCheck(products, last).value;
      assert Snapshot(products, lines).value == items + [item];
      assert lines == pre + [last];
      TotalStep(pre, last, items, item);
    }
  }

  /** One more line adds the same amount to both sums. */
  lemma TotalStep(pre: seq<CartItemWithProduct>, last: CartItemWithProduct, items: seq<OrderItem>, item: OrderItem)
    requires CartActions.AllJoined(pre) && CartActions.AmountSum(pre) == ItemsTotal(items)
    requires last.product.Some? && item.price == last.product.value.price && item.quantity == last.item.quantity
    ensures CartActions.AllJoined(pre + [last])
    ensures CartActions.AmountSum(pre + [last]) == ItemsTotal(items + [item])
  {
    assert (pre + [last])[..|pre|] == pre;
    assert (items + [item])[..|items|] == items;
  }

  /** An invalid request, a missing caller or an empty cart is refused and nothing changes. */
  lemma CreateRejectsBadRequestOrEmptyCart(t: Tables, caller: Option<UserId>, request: CreateOrderRequest,
                                           freshOrderId: OrderId, itemsInsertFails: bool)
    requires !OrderValidation.ValidRequest(request) || caller.None? || CartListing(t, caller) == []
    ensures var s := AfterCreateOrder(t, caller, request, freshOrderId, itemsInsertFails);
      && s.tables == t
      && s.result == CreateFailed(
           if !OrderValidation.ValidRequest(request) then ValidationFailed(OrderValidation.Validate(request).error)
           else if caller.None? then AuthRequired
           else EmptyCart)
  {
  }

  /**
   * If some cart line's product is missing, inactive or short of stock, the
   * first such line's error is returned and no order or order item exists.
   */
  lemma CreateRejectsUnavailableLine(t: Tables, user: UserId, request: CreateOrderRequest, freshOrderId: OrderId,
                                     itemsInsertFails: bool, i: nat)
    requires OrderValidation.ValidRequest(request)
    requires i < |CartListing(t, Some(user))|
    requires LineCheck(t.products, CartListing(t, Some(user))[i]).Err?
    requires forall j :: 0 <= j < i ==> LineCheck(t.products, CartListing(t, Some(user))[j]).Ok?
    ensures var s := AfterCreateOrder(t, Some(user), request, freshOrderId, itemsInsertFails);
      && s.tables == t
      && s.result == CreateFailed(LineCheck(t.products, CartListing(t, Some(user))[i]).error)
  {
    SnapshotFirstFailure(t.products, CartListing(t, Some(user)), i);
  }

  /** A refused order-items insert leaves no order behind: the tables are as before. */
  lemma CreateItemsFailureChangesNothing(t: Tables, caller: Option<UserId>, request: CreateOrderRequest, freshOrderId: OrderId)
    ensures var s := AfterCreateOrder(t, caller, request, freshOrderId, true);
      && s.tables == t && s.result.CreateFailed?
  {
  }

  /** What a successful `createOrder` required: a valid request, a non-empty cart whose every line passed, and no insert failure. */
  lemma CreatedOnlyFromAvailableCart(t: Tables, user: UserId, request: CreateOrderRequest, freshOrderId: OrderId,
                                     itemsInsertFails: bool)
    requires AfterCreateOrder(t, Some(user), request, freshOrderId, itemsInsertFails).result.Created?
    ensures var listing := CartListing(t, Some(user));
      && OrderValidation.ValidRequest(request) && !itemsInsertFails && listing != []
      && Snapshot(t.products, listing).Ok?
      && AfterCreateOrder(t, Some(user), request, freshOrderId, itemsInsertFails)
         == Step(Created(freshOrderId), CreatedTables(t, user, request, freshOrderId, Snapshot(t.products, listing).value))
  {
    var listing := CartListing(t, Some(user));
    assert OrderValidation.Validate(request).Ok? && listing != [];
    assert Snapshot(t.products, listing).Ok? && !itemsInsertFails;
    CreateFromAvailableCart(t, user, request, freshOrderId);
  }

  /** Conversely, a valid request over a non-empty cart whose every line passes creates the order. */
  lemma CreateFromAvailableCart(t: Tables, user: UserId, request: CreateOrderRequest, freshOrderId: OrderId)
    requires OrderValidation.ValidRequest(request) && CartListing(t, Some(user)) != []
    requires Snapshot(t.products, CartListing(t, Some(user))).Ok?
    ensures AfterCreateOrder(t, Some(user), request, freshOrderId, false)
         == Step(Created(freshOrderId), CreatedTables(t, user, request, freshOrderId,
                                                      Snapshot(t.products, CartListing(t, Some(user))).value))
  {
  }

  /** The tables after an order has been created from `items`. */
  ghost function CreatedTables(t: Tables, user: UserId, request: CreateOrderRequest, freshOrderId: OrderId,
                               items: seq<OrderItem>): Tables
  {
    var order := Order(freshOrderId, user, ItemsTotal(items), Pending,
                       Some(request.shippingAddress), StoredNote(request.orderNote), t.clock);
    t.(orders := t.orders[freshOrderId := order],
       orderItems := t.orderItems[freshOrderId := items],
       clock := t.clock + 1)
  }

  /**
   * A created order is pending, belongs to the caller, keeps the address and
   * note, and its total is the sum over its items; no other order, no stock
   * and no cart line changes.
   */
  lemma CreatedOrderIsPendingAndLeavesStockAndCart(t: Tables, user: UserId, request: CreateOrderRequest,
                                                   freshOrderId: OrderId, itemsInsertFails: bool)
    requires AfterCreateOrder(t, Some(user), request, freshOrderId, itemsInsertFails).result.Created?
    ensures var s := AfterCreateOrder(t, Some(user), request, freshOrderId, itemsInsertFails);
      && s.result == Created(freshOrderId)
      && s.tables.products == t.products && s.tables.cartItems == t.cartItems
      && freshOrderId in s.tables.orders && freshOrderId in s.tables.orderItems
      && s.tables.orders == t.orders[freshOrderId := s.tables.orders[freshOrderId]]
      && var o := s.tables.orders[freshOrderId];
         && o.id == freshOrderId && o.owner == user && o.status == Pending
         && o.shippingAddress == Some(request.shippingAddress) && o.orderNote == StoredNote(request.orderNote)
         && o.totalAmount == ItemsTotal(s.tables.orderItems[freshOrderId])
  {
    CreatedOnlyFromAvailableCart(t, user, request, freshOrderId, itemsInsertFails);
  }

  /**
   * A created order has one item per cart line, in cart order, with the
   * product's id, name and price as read now and the line's quantity; every
   * line's product was active and had the stock for it.
   */
  lemma CreatedOrderItemsSnapshotCart(t: Tables, user: UserId, request: CreateOrderRequest,
                                      freshOrderId: OrderId, itemsInsertFails: bool)
    requires AfterCreateOrder(t, Some(user), request, freshOrderId, itemsInsertFails).result.Created?
    ensures var s := AfterCreateOrder(t, Some(user), request, freshOrderId, itemsInsertFails);
      var listing := CartListing(t, Some(user));
      && freshOrderId in s.tables.orderItems
      && var items := s.tables.orderItems[freshOrderId];
         && |items| == |listing|
         && forall i :: 0 <= i < |listing| ==>
              && listing[i].item.productId in t.products
              && var p := t.products[listing[i].item.productId];
                 && p.isActive && listing[i].item.quantity <= p.stockQuantity
                 && items[i] == OrderItem(p.id, p.name, listing[i].item.quantity, p.price)
  {
    CreatedOnlyFromAvailableCart(t, user, request, freshOrderId, itemsInsertFails);
    SnapshotSucceedsExactly(t.products, CartListing(t, Some(user)));
  }

  /** A created order's total is the amount the cart summary showed for the same cart. */
  lemma CreatedOrderTotalIsCartAmount(t: Tables, user: UserId, request: CreateOrderRequest,
                                      freshOrderId: OrderId, itemsInsertFails: bool)
    requires AfterCreateOrder(t, Some(user), request, freshOrderId, itemsInsertFails).result.Created?
    ensures var s := AfterCreateOrder(t, Some(user), request, freshOrderId, itemsInsertFails);
      && freshOrderId in s.tables.orders
      && s.tables.orders[freshOrderId].totalAmount == CartActions.Summarize(CartListing(t, Some(user))).totalAmount
  {
    CreatedOnlyFromAvailableCart(t, user, request, freshOrderId, itemsInsertFails);
    var listing := CartListing(t, Some(user));
    CartActions.CartListingJoinsCartLines(t, Some(user));
    assert forall i :: 0 <= i < |listing| ==> listing[i] == Join(t.products, listing[i].item);
    SnapshotTotalIsCartAmount(t.products, listing);
  }

  lemma CreateKeepsConsistent(t: Tables, caller: Option<UserId>, request: CreateOrderRequest, freshOrderId: OrderId,
                              itemsInsertFails: bool)
    requires Consistent(t) && freshOrderId !in t.orders
    ensures Consistent(AfterCreateOrder(t, caller, request, freshOrderId, itemsInsertFails).tables)
  {
    var s := AfterCreateOrder(t, caller, request, freshOrderId, itemsInsertFails);
    if s.result.Created? {
      var user := caller.value;
      CreatedOnlyFromAvailableCart(t, user, request, freshOrderId, itemsInsertFails);
      var listing := CartListing(t, caller);
      SnapshotSucceedsExactly(t.products, listing);
      var items := Snapshot(t.products, listing).value;
      var order := Order(freshOrderId, user, ItemsTotal(items), Pending,
                         Some(request.shippingAddress), StoredNote(request.orderNote), t.clock);
      CreatedOrderHasDistinctProducts(t, user, request, freshOrderId, itemsInsertFails);
      OrderAddKeepsConsistent(t, order, items);
    }
  }

  /**
   * A created order names each product once: its items follow the caller's
   * cart lines, and a user has at most one line per product.
   */
  lemma CreatedOrderHasDistinctProducts(t: Tables, user: UserId, request: CreateOrderRequest,
                                        freshOrderId: OrderId, itemsInsertFails: bool)
    requires Consistent(t)
    requires AfterCreateOrder(t, Some(user), request, freshOrderId, itemsInsertFails).result.Created?
    ensures var s := AfterCreateOrder(t, Some(user), request, freshOrderId, itemsInsertFails);
      freshOrderId in s.tables.orderItems && DistinctProducts(s.tables.orderItems[freshOrderId])
  {
    var s := AfterCreateOrder(t, Some(user), request, freshOrderId, itemsInsertFails);
    CreatedOrderItemsSnapshotCart(t, user, request, freshOrderId, itemsInsertFails);
    var listing := CartListing(t, Some(user));
    ListingNamesEachProductOnce(t, user, listing);
    var items := s.tables.orderItems[freshOrderId];
    forall i, j | 0 <= i < j < |items| ensures items[i].productId != items[j].productId {
      assert items[i].productId == t.products[listing[i].item.productId].id;
      assert items[j].productId == t.products[listing[j].item.productId].id;
    }
  }

  /** The caller's cart listing names each product at most once. */
  lemma ListingNamesEachProductOnce(t: Tables, user: UserId, listing: seq<CartItemWithProduct>)
    requires Consistent(t) && listing == CartListing(t, Some(user))
    ensures forall i, j :: 0 <= i < j < |listing| ==> listing[i].item.productId != listing[j].item.productId
  {
    CartActions.CartListingJoinsCartLines(t, Some(user));
    CartLinesNameEachProductOnce(t, user, CartLines(t, user));
  }

  /** The caller's cart lines name each product at most once. */
  lemma CartLinesNameEachProductOnce(t: Tables, user: UserId, lines: seq<CartItem>)
    requires Consistent(t) && lines == CartLines(t, user)
    ensures forall i, j :: 0 <= i < j < |lines| ==> lines[i].productId != lines[j].productId
  {
    CartActions.CartLinesAreCallersLinesNewestFirst(t, user);
    forall i, j | 0 <= i < j < |lines| ensures lines[i].productId != lines[j].productId {
      var a, b := lines[i].id, lines[j].id;
      assert a in t.cartItems && b in t.cartItems && a != b;
      assert t.cartItems[a].owner == user == t.cartItems[b].owner;
    }
  }

  /** Adding one order with its (non-empty, summed, one per product) items under a fresh id and a new stamp keeps the invariant. */
  lemma OrderAddKeepsConsistent(t: Tables, o: Order, items: seq<OrderItem>)
    requires Consistent(t) && o.id !in t.orders
    requires o.createdAt == t.clock && |items| > 0 && DistinctProducts(items) && o.totalAmount == ItemsTotal(items)
    ensures Consistent(t.(orders := t.orders[o.id := o], orderItems := t.orderItems[o.id := items], clock := t.clock + 1))
  {
    LaterClockKeepsInvariants(t, t.clock + 1);
    OrderAddKeepsOrdersOk(t.orders, t.orderItems, t.clock, o, items);
  }

  lemma OrderAddKeepsOrdersOk(orders: map<OrderId, Order>, orderItems: map<OrderId, seq<OrderItem>>, clock: nat,
                              o: Order, items: seq<OrderItem>)
    requires OrdersOk(orders, orderItems, clock) && o.id !in orders
    requires o.createdAt == clock && |items| > 0 && DistinctProducts(items) && o.totalAmount == ItemsTotal(items)
    ensures OrdersOk(orders[o.id := o], orderItems[o.id := items], clock + 1)
  {
    OrderAddKeepsRows(orders, orderItems, clock, o, items, orders[o.id := o], orderItems[o.id := items]);
    OrderAddKeepsStamps(orders, clock, o);
  }

  lemma OrderAddKeepsRows(orders: map<OrderId, Order>, orderItems: map<OrderId, seq<OrderItem>>, clock: nat,
                          o: Order, items: seq<OrderItem>,
                          newOrders: map<OrderId, Order>, newItems: map<OrderId, seq<OrderItem>>)
    requires orderItems.Keys == orders.Keys
    requires forall k :: k in orders ==>
               orders[k].id == k && orders[k].createdAt < clock && |orderItems[k]| > 0
               && DistinctProducts(orderItems[k]) && orders[k].totalAmount == ItemsTotal(orderItems[k])
    requires o.createdAt == clock && |items| > 0 && DistinctProducts(items) && o.totalAmount == ItemsTotal(items)
    requires newOrders == orders[o.id := o] && newItems == orderItems[o.id := items]
    ensures newItems.Keys == newOrders.Keys
    ensures forall k :: k in newOrders ==>
              newOrders[k].id == k && newOrders[k].createdAt < clock + 1
              && |newItems[k]| > 0 && DistinctProducts(newItems[k])
              && newOrders[k].totalAmount == ItemsTotal(newItems[k])
  {
  }

  lemma OrderAddKeepsStamps(orders: map<OrderId, Order>, clock: nat, o: Order)
    requires Newest.DistinctStamps(OrderStamps(orders)) && o.id !in orders
    requires forall k :: k in orders ==> orders[k].createdAt < clock
    requires o.createdAt == clock
    ensures Newest.DistinctStamps(OrderStamps(orders[o.id := o]))
  {
    assert OrderStamps(orders[o.id := o]) == OrderStamps(orders)[o.id := clock];
    Newest.StampNewRow(OrderStamps(orders), o.id, clock);
  }

  /** `AfterCreateOrder` once the request is valid, the caller known and the cart non-empty: the loop decides. */
  lemma CreateDecidedBySnapshot(t: Tables, user: UserId, request: CreateOrderRequest, freshOrderId: OrderId,
                                itemsInsertFails: bool)
    requires OrderValidation.Validate(request).Ok? && CartListing(t, Some(user)) != []
    ensures var s := AfterCreateOrder(t, Some(user), request, freshOrderId, itemsInsertFails);
      var snapshot := Snapshot(t.products, CartListing(t, Some(user)));
      && (snapshot.Err? ==> s == Step(CreateFailed(snapshot.error), t))
      && (snapshot.Ok? && itemsInsertFails ==> s == Step(CreateFailed(OrderItemsCreationFailed), t))
      && (snapshot.Ok? && !itemsInsertFails ==>
            s == Step(Created(freshOrderId), CreatedTables(t, user, request, freshOrderId, snapshot.value)))
  {
  }

  /**
   * The re-check loop: each cart line's product must exist, be active and
   * have the stock for the line, and yields an order item; the running total
   * is Σ price × quantity.
   */
  method CheckCartLines(products: map<ProductId, Product>, cartItems: seq<CartItemWithProduct>)
    returns (snapshot: Result<seq<OrderItem>, OrderError>, totalAmount: int)
    ensures snapshot == Snapshot(products, cartItems)
    ensures snapshot.Ok? ==> totalAmount == ItemsTotal(snapshot.value)
  {
    totalAmount := 0;
    var orderItemsData: seq<OrderItem> := [];
    var i := 0;
    while i < |cartItems|
      invariant 0 <= i <= |cartItems|
      invariant Snapshot(products, cartItems[..i]) == Ok(orderItemsData)
      invariant totalAmount == ItemsTotal(orderItemsData)
    {
      assert cartItems[..i + 1][..i] == cartItems[..i];
      var line := cartItems[i];
      var productId := line.item.productId;
      if productId !in products {
        SnapshotKeepsFirstError(products, cartItems, i + 1);
        return Err(ProductNotFound(productId)), totalAmount;
      }
      var product := products[productId];
      if !product.isActive {
        SnapshotKeepsFirstError(products, cartItems, i + 1);
        return Err(ProductInactive(product.name)), totalAmount;
      }
      if product.stockQuantity < line.item.quantity {
        SnapshotKeepsFirstError(products, cartItems, i + 1);
        return Err(InsufficientStock(product.name, product.stockQuantity)), totalAmount;
      }
      var item := OrderItem(product.id, product.name, line.item.quantity, product.price);
      totalAmount := totalAmount + product.price * line.item.quantity;
      assert (orderItemsData + [item])[..|orderItemsData|] == orderItemsData;
      orderItemsData := orderItemsData + [item];
      i := i + 1;
    }
    assert cartItems[..i] == cartItems;
    snapshot := Ok(orderItemsData);
  }

  method CreateOrder(db: Db, caller: Option<UserId>, request: CreateOrderRequest, freshOrderId: OrderId,
                     itemsInsertFails: bool) returns (r: CreateResult)
    requires db.Valid() && freshOrderId !in db.orders
    modifies db
    ensures Step(r, db.State()) == AfterCreateOrder(old(db.State()), caller, request, freshOrderId, itemsInsertFails)
    ensures db.Valid()
  {
    ghost var t := db.State();
    CreateKeepsConsistent(t, caller, request, freshOrderId, itemsInsertFails);
    var validation := OrderValidation.Validate(request);
    if validation.Err? {
      return CreateFailed(ValidationFailed(validation.error));
    }
    if caller.None? {
      return CreateFailed(AuthRequired);
    }
    var cartItems := CartActions.GetCartItems(db, caller);
    if |cartItems| == 0 {
      return CreateFailed(EmptyCart);
    }
    CreateDecidedBySnapshot(t, caller.value, request, freshOrderId, itemsInsertFails);
    var snapshot, totalAmount := CheckCartLines(db.products, cartItems);
    if snapshot.Err? {
      return CreateFailed(snapshot.error);
    }
    r := InsertOrder(db, caller.value, request, freshOrderId, snapshot.value, totalAmount, itemsInsertFails);
  }

  /**
   * The two inserts of `createOrder`: the order row first, then its items;
   * a refused items insert deletes the order again.
   */
  method InsertOrder(db: Db, user: UserId, request: CreateOrderRequest, freshOrderId: OrderId,
                     items: seq<OrderItem>, totalAmount: int, itemsInsertFails: bool) returns (r: CreateResult)
    requires freshOrderId !in db.orders && totalAmount == ItemsTotal(items)
    modifies db
    ensures itemsInsertFails ==> r == CreateFailed(OrderItemsCreationFailed) && db.State() == old(db.State())
    ensures !itemsInsertFails ==>
      r == Created(freshOrderId) && db.State() == CreatedTables(old(db.State()), user, request, freshOrderId, items)
  {
    var order := Order(freshOrderId, user, totalAmount, Pending, Some(request.shippingAddress),
                       StoredNote(request.orderNote), db.clock);
    InsertThenDeleteRestores(db.orders, freshOrderId, order);
    db.orders := db.orders[freshOrderId := order];
    if itemsInsertFails {
      db.orders := db.orders - {freshOrderId};
      return CreateFailed(OrderItemsCreationFailed);
    }
    db.orderItems := db.orderItems[freshOrderId := items];
    db.clock := db.clock + 1;
    r := Created(freshOrderId);
  }

  // ---------------------------------------------------------------- getOrders

  /** The ids of the orders `user` owns. */
  function OrdersOf(orders: map<OrderId, Order>, user: UserId): set<OrderId> {
    set k | k in orders && orders[k].owner == user
  }

  /** What `getOrders` lists for `caller`: their orders, newest first; nothing without a caller. */
  ghost function OrderListing(t: Tables, caller: Option<UserId>): seq<Order> {
    if caller.None? then []
    else
      var ids := Newest.NewestFirst(OrderStamps(t.orders), OrdersOf(t.orders, caller.value));
      seq(|ids|, i requires 0 <= i < |ids| => t.orders[ids[i]])
  }

  /** The listing holds each of the caller's orders exactly once, with non-increasing creation times. */
  lemma OrderListingIsCallersOrdersNewestFirst(t: Tables, user: UserId)
    requires Consistent(t)
    ensures var orders := OrderListing(t, Some(user));
      && (forall i :: 0 <= i < |orders| ==> orders[i].id in OrdersOf(t.orders, user) && orders[i] == t.orders[orders[i].id])
      && (forall k :: k in OrdersOf(t.orders, user) ==> exists i :: 0 <= i < |orders| && orders[i].id == k)
      && (forall i, j :: 0 <= i < j < |orders| ==> orders[i].id != orders[j].id && orders[j].createdAt <= orders[i].createdAt)
  {
    assert forall o :: o in t.orders ==> t.orders[o].id == o;
    OrderListingRows(t, user);
    OrderListingComplete(t, user);
    OrderListingOrdered(t, user);
  }

  /** The `i`-th listed order is the row of the `i`-th id of the newest-first listing. */
  lemma OrderListingRows(t: Tables, user: UserId)
    requires forall o :: o in t.orders ==> t.orders[o].id == o
    ensures var ids := Newest.NewestFirst(OrderStamps(t.orders), OrdersOf(t.orders, user));
      forall i :: 0 <= i < |OrderListing(t, Some(user))| ==>
        ids[i] in OrdersOf(t.orders, user) && OrderListing(t, Some(user))[i] == t.orders[ids[i]]
        && OrderListing(t, Some(user))[i].id == ids[i]
  {
  }

  lemma OrderListingComplete(t: Tables, user: UserId)
    requires forall o :: o in t.orders ==> t.orders[o].id == o
    ensures forall k :: k in OrdersOf(t.orders, user) ==>
              exists i :: 0 <= i < |OrderListing(t, Some(user))| && OrderListing(t, Some(user))[i].id == k
  {
    var keys := OrdersOf(t.orders, user);
    var ids := Newest.NewestFirst(OrderStamps(t.orders), keys);
    Newest.NewestFirstListsEachOnce(OrderStamps(t.orders), keys);
    OrderListingRows(t, user);
    forall k | k in keys ensures exists i :: 0 <= i < |OrderListing(t, Some(user))| && OrderListing(t, Some(user))[i].id == k {
      var i :| 0 <= i < |ids| && ids[i] == k;
      assert OrderListing(t, Some(user))[i].id == k;
    }
  }

  lemma OrderListingOrdered(t: Tables, user: UserId)
    requires forall o :: o in t.orders ==> t.orders[o].id == o
    ensures forall i, j :: 0 <= i < j < |OrderListing(t, Some(user))| ==>
              OrderListing(t, Some(user))[i].id != OrderListing(t, Some(user))[j].id
              && OrderListing(t, Some(user))[j].createdAt <= OrderListing(t, Some(user))[i].createdAt
  {
    var stamps := OrderStamps(t.orders);
    var keys := OrdersOf(t.orders, user);
    var ids := Newest.NewestFirst(stamps, keys);
    Newest.NewestFirstListsEachOnce(stamps, keys);
    OrderListingRows(t, user);
    var orders := OrderListing(t, Some(user));
    forall i, j | 0 <= i < j < |orders| ensures orders[i].id != orders[j].id && orders[j].createdAt <= orders[i].createdAt {
      assert stamps[ids[j]] <= stamps[ids[i]];
    }
  }

  method GetOrders(db: Db, caller: Option<UserId>) returns (orders: seq<Order>)
    requires db.Valid()
    ensures orders == OrderListing(db.State(), caller)
  {
    if caller.None? {
      return [];
    }
    var all := db.orders;
    var ids := Newest.SortNewestFirst(OrderStamps(all), OrdersOf(all, caller.value));
    orders := seq(|ids|, i requires 0 <= i < |ids| => all[ids[i]]);
  }

  // ------------------------------------------------------------- getOrderById

  /**
   * `getOrderById`: the order with its items when it exists and belongs to
   * the caller, and nothing otherwise. Items keep the order they were
   * inserted in.
   */
  function OrderById(t: Tables, caller: Option<UserId>, orderId: OrderId): (r: Option<OrderWithItems>)
    requires Consistent(t)
    ensures r.Some? <==> caller.Some? && orderId in t.orders && t.orders[orderId].owner == caller.value
    ensures r.Some? ==> r.value.order == t.orders[orderId] && r.value.items == t.orderItems[orderId]
                        && r.value.order.totalAmount == ItemsTotal(r.value.items)
  {
    if caller.None? || orderId !in t.orders || t.orders[orderId].owner != caller.value then None
    else Some(OrderWithItems(t.orders[orderId], t.orderItems[orderId]))
  }

  // -------------------------------------------------------- updateOrderStatus

  /** One step of the stock loop: a present product's stock drops by the quantity, never below 0. */
  function TakeStock(products: map<ProductId, Product>, item: OrderItem): map<ProductId, Product> {
    if item.productId in products then
      var p := products[item.productId];
      products[item.productId := p.(stockQuantity := Max(0, p.stockQuantity - item.quantity))]
    else products
  }

  /** The stock loop over the order's items, first to last; missing products are skipped. */
  function DecrementStock(products: map<ProductId, Product>, items: seq<OrderItem>): map<ProductId, Product> {
    if items == [] then products
    else TakeStock(DecrementStock(products, items[..|items| - 1]), items[|items| - 1])
  }

  /** Σ quantity over the items for one product. */
  function QuantityOf(items: seq<OrderItem>, pid: ProductId): int {
    if items == [] then 0
    else QuantityOf(items[..|items| - 1], pid) + (if items[|items| - 1].productId == pid then items[|items| - 1].quantity else 0)
  }

  /** The cart after `delete().eq("clerk_id", user)`. */
  function ClearCart(cart: map<CartItemId, CartItem>, user: UserId): (r: map<CartItemId, CartItem>)
    ensures LinesOf(r, user) == {}
    ensures forall k :: k in r <==> k in cart && cart[k].owner != user
    ensures forall k :: k in r ==> r[k] == cart[k]
  {
    map k | k in cart && cart[k].owner != user :: cart[k]
  }

  /** The effect of `updateOrderStatus(orderId, status)`. */
  ghost function AfterStatusUpdate(t: Tables, caller: Option<UserId>, orderId: OrderId, status: OrderStatus): Step<StatusResult> {
    if caller.None? then Step(StatusFailed(AuthRequired), t)
    else if orderId !in t.orders || t.orders[orderId].owner != caller.value then Step(StatusFailed(OrderNotFound), t)
    else
      var o := t.orders[orderId];
      var written := t.(orders := t.orders[orderId := o.(status := status)]);
      if status == Confirmed && o.status == Pending then
        var items := if orderId in t.orderItems then t.orderItems[orderId] else [];
        Step(StatusUpdated, written.(products := DecrementStock(t.products, items),
                                     cartItems := ClearCart(t.cartItems, caller.value)))
      else Step(StatusUpdated, written)
  }

  /** The stock loop keeps the product keys and ids and never makes stock negative. */
  lemma {:induction false} DecrementStockKeepsProducts(products: map<ProductId, Product>, items: seq<OrderItem>)
    requires forall p :: p in products ==> products[p].id == p && products[p].stockQuantity >= 0
    ensures var r := DecrementStock(products, items);
      && r.Keys == products.Keys
      && forall p :: p in r ==> r[p].id == p && r[p].stockQuantity >= 0
                                 && r[p] == products[p].(stockQuantity := r[p].stockQuantity)
    decreases |items|
  {
    if items != [] {
      DecrementStockKeepsProducts(products, items[..|items| - 1]);
    }
  }

  /**
   * With non-negative quantities, each product ends at max(0, stock − the
   * quantity ordered of it), as if the whole quantity were taken at once.
   */
  lemma {:induction false} DecrementStockTakesOrderedQuantity(products: map<ProductId, Product>, items: seq<OrderItem>,
                                                            pid: ProductId)
    requires pid in products && products[pid].stockQuantity >= 0
    requires forall i :: 0 <= i < |items| ==> items[i].quantity >= 0
    ensures pid in DecrementStock(products, items)
    ensures DecrementStock(products, items)[pid].stockQuantity == Max(0, products[pid].stockQuantity - QuantityOf(items, pid))
    decreases |items|
  {
    if items != [] {
      DecrementStockTakesOrderedQuantity(products, items[..|items| - 1], pid);
    }
  }

  /** A product no item names is ordered zero times. */
  lemma {:induction false} QuantityOfAbsent(items: seq<OrderItem>, pid: ProductId)
    requires forall i :: 0 <= i < |items| ==> items[i].productId != pid
    ensures QuantityOf(items, pid) == 0
    decreases |items|
  {
    if items != [] {
      QuantityOfAbsent(items[..|items| - 1], pid);
    }
  }

  /**
   * When no two items name the same product, whatever the sign of the
   * quantities, each product ends at max(0, stock − the quantity ordered of it).
   */
  lemma {:induction false} DecrementStockTakesEachOnce(products: map<ProductId, Product>, items: seq<OrderItem>,
                                                     pid: ProductId)
    requires pid in products && products[pid].stockQuantity >= 0 && DistinctProducts(items)
    ensures pid in DecrementStock(products, items)
    ensures DecrementStock(products, items)[pid].stockQuantity == Max(0, products[pid].stockQuantity - QuantityOf(items, pid))
    decreases |items|
  {
    if items != [] {
      var pre := items[..|items| - 1];
      assert DistinctProducts(pre) by {
        forall i, j | 0 <= i < j < |pre| ensures pre[i].productId != pre[j].productId {
          assert pre[i] == items[i] && pre[j] == items[j];
        }
      }
      var last := items[|items| - 1];
      var before := DecrementStock(products, pre);
      assert DecrementStock(products, items) == TakeStock(before, last);
      assert QuantityOf(items, pid) == QuantityOf(pre, pid) + (if last.productId == pid then last.quantity else 0);
      if last.productId == pid {
        forall i | 0 <= i < |pre| ensures pre[i].productId != pid {
          assert pre[i] == items[i];
        }
        DecrementStockSkipsOthers(products, pre, pid);
        QuantityOfAbsent(pre, pid);
        assert before[pid] == products[pid];
        assert TakeStock(before, last)[pid].stockQuantity == Max(0, before[pid].stockQuantity - last.quantity);
      } else {
        DecrementStockTakesEachOnce(products, pre, pid);
        assert TakeStock(before, last)[pid] == before[pid];
      }
    }
  }

  /** A product no item names keeps its row. */
  lemma {:induction false} DecrementStockSkipsOthers(products: map<ProductId, Product>, items: seq<OrderItem>, pid: ProductId)
    requires forall i :: 0 <= i < |items| ==> items[i].productId != pid
    ensures pid in DecrementStock(products, items) <==> pid in products
    ensures pid in products ==> DecrementStock(products, items)[pid] == products[pid]
    decreases |items|
  {
    if items != [] {
      DecrementStockSkipsOthers(products, items[..|items| - 1], pid);
    }
  }

  /** Another user's order, or a missing one, is "not found" and nothing changes. */
  lemma StatusUpdateIsScoped(t: Tables, user: UserId, orderId: OrderId, status: OrderStatus)
    requires orderId !in t.orders || t.orders[orderId].owner != user
    ensures AfterStatusUpdate(t, Some(user), orderId, status) == Step(StatusFailed(OrderNotFound), t)
  {
  }

  /**
   * On the caller's own order any status is written, with no check that the
   * transition is allowed; unless it is the pending → confirmed edge, the
   * status is the only thing that changes.
   */
  lemma StatusUpdateWritesAnyStatus(t: Tables, user: UserId, orderId: OrderId, status: OrderStatus)
    requires orderId in t.orders && t.orders[orderId].owner == user
    ensures var s := AfterStatusUpdate(t, Some(user), orderId, status);
      && s.result == StatusUpdated
      && s.tables.orders == t.orders[orderId := t.orders[orderId].(status := status)]
      && s.tables.orderItems == t.orderItems && s.tables.clock == t.clock
      && (!(status == Confirmed && t.orders[orderId].status == Pending) ==>
            s.tables.products == t.products && s.tables.cartItems == t.cartItems)
  {
  }

  /**
   * Confirming a pending order takes each ordered product's quantity out of
   * stock (floored at 0, missing products skipped) and empties the caller's
   * whole cart, leaving other users' lines alone.
   */
  lemma ConfirmTakesStockAndClearsCart(t: Tables, user: UserId, orderId: OrderId, pid: ProductId)
    requires Consistent(t)
    requires orderId in t.orders && t.orders[orderId].owner == user && t.orders[orderId].status == Pending
    ensures var s := AfterStatusUpdate(t, Some(user), orderId, Confirmed);
      && s.tables.orders[orderId].status == Confirmed
      && LinesOf(s.tables.cartItems, user) == {}
      && (forall k :: k in t.cartItems && t.cartItems[k].owner != user ==> k in s.tables.cartItems && s.tables.cartItems[k] == t.cartItems[k])
      && (pid in s.tables.products <==> pid in t.products)
      && (pid in t.products ==>
            s.tables.products[pid].stockQuantity
              == Max(0, t.products[pid].stockQuantity - QuantityOf(t.orderItems[orderId], pid)))
  {
    var items := t.orderItems[orderId];
    DecrementStockKeepsProducts(t.products, items);
    if pid in t.products {
      DecrementStockTakesEachOnce(t.products, items, pid);
    }
  }

  /** Confirming an order a second time changes neither stock nor cart: the side effects happen at most once. */
  lemma ConfirmTwiceChangesNothing(t: Tables, user: UserId, orderId: OrderId)
    requires AfterStatusUpdate(t, Some(user), orderId, Confirmed).result == StatusUpdated
    ensures var t1 := AfterStatusUpdate(t, Some(user), orderId, Confirmed).tables;
      AfterStatusUpdate(t1, Some(user), orderId, Confirmed) == Step(StatusUpdated, t1)
  {
    var t1 := AfterStatusUpdate(t, Some(user), orderId, Confirmed).tables;
    assert t1.orders[orderId].status == Confirmed;
    assert t1.orders[orderId := t1.orders[orderId].(status := Confirmed)] == t1.orders;
  }

  lemma StatusUpdateKeepsConsistent(t: Tables, caller: Option<UserId>, orderId: OrderId, status: OrderStatus)
    requires Consistent(t)
    ensures Consistent(AfterStatusUpdate(t, caller, orderId, status).tables)
  {
    if caller.Some? && orderId in t.orders && t.orders[orderId].owner == caller.value {
      var o := t.orders[orderId];
      StatusWriteKeepsOrdersOk(t.orders, t.orderItems, t.clock, orderId, status);
      if status == Confirmed && o.status == Pending {
        DecrementStockKeepsProducts(t.products, t.orderItems[orderId]);
        ClearCartKeepsCartOk(t.cartItems, t.clock, caller.value);
      }
    }
  }

  /** Writing an order's status keeps the order invariant. */
  lemma StatusWriteKeepsOrdersOk(orders: map<OrderId, Order>, orderItems: map<OrderId, seq<OrderItem>>, clock: nat,
                                 orderId: OrderId, status: OrderStatus)
    requires OrdersOk(orders, orderItems, clock) && orderId in orders
    ensures OrdersOk(orders[orderId := orders[orderId].(status := status)], orderItems, clock)
  {
    assert OrderStamps(orders[orderId := orders[orderId].(status := status)]) == OrderStamps(orders);
  }

  /** Deleting a user's lines keeps the cart invariant. */
  lemma ClearCartKeepsCartOk(cart: map<CartItemId, CartItem>, clock: nat, user: UserId)
    requires CartOk(cart, clock)
    ensures CartOk(ClearCart(cart, user), clock)
  {
    var r := ClearCart(cart, user);
    assert CartStamps(r) == map k | k in r :: cart[k].createdAt;
  }

  /** The stock loop of `updateOrderStatus`: each ordered product loses its quantity, floored at zero. */
  method TakeOrderedStock(db: Db, orderItems: seq<OrderItem>)
    modifies db
    ensures db.products == DecrementStock(old(db.products), orderItems)
    ensures db.cartItems == old(db.cartItems) && db.orders == old(db.orders)
    ensures db.orderItems == old(db.orderItems) && db.clock == old(db.clock)
  {
    ghost var products := db.products;
    var i := 0;
    while i < |orderItems|
      invariant 0 <= i <= |orderItems|
      invariant db.products == DecrementStock(products, orderItems[..i])
      invariant db.cartItems == old(db.cartItems) && db.orders == old(db.orders)
      invariant db.orderItems == old(db.orderItems) && db.clock == old(db.clock)
    {
      assert orderItems[..i + 1][..i] == orderItems[..i];
      var item := orderItems[i];
      if item.productId in db.products {
        var newStock := db.products[item.productId].stockQuantity - item.quantity;
        db.products := db.products[item.productId := db.products[item.productId].(stockQuantity := Max(0, newStock))];
      }
      i := i + 1;
    }
    assert orderItems[..i] == orderItems;
  }

  method UpdateOrderStatus(db: Db, caller: Option<UserId>, orderId: OrderId, status: OrderStatus)
    returns (r: StatusResult)
    requires db.Valid()
    modifies db
    ensures Step(r, db.State()) == AfterStatusUpdate(old(db.State()), caller, orderId, status)
    ensures db.Valid()
  {
    ghost var t := db.State();
    StatusUpdateKeepsConsistent(t, caller, orderId, status);
    if caller.None? {
      return StatusFailed(AuthRequired);
    }
    var user := caller.value;
    if orderId !in db.orders || db.orders[orderId].owner != user {
      return StatusFailed(OrderNotFound);
    }
    var order := db.orders[orderId];
    db.orders := db.orders[orderId := order.(status := status)];
    if status == Confirmed && order.status == Pending {
      var orderItems := if orderId in db.orderItems then db.orderItems[orderId] else [];
      TakeOrderedStock(db, orderItems);
      db.cartItems := map k | k in db.cartItems && db.cartItems[k].owner != user :: db.cartItems[k];
    }
    r := StatusUpdated;
  }
}
