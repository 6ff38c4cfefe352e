/**
 * The cart server actions: add, change quantity, remove, list, summarise and
 * count. Each state-changing action is a method on the store proved equal to
 * a specification function of the old tables (`AfterAdd`, ...); the lemmas
 * below state what those functions promise.
 */
module CartActions {
  import opened Wrappers
  import opened ShopTypes
  import opened Store
  import Newest
  import NumberText

  datatype CartError =
    | AuthRequired              // no signed-in caller
    | ProductNotFound
    | ProductInactive
    | InsufficientStock(stock: int)
    | InvalidQuantity           // a new quantity of 0 or less
    | CartItemNotFound          // no such line, or not the caller's

  datatype CartResult = Success | Failure(error: CartError)

  /** The error text each action returns. */
  function Message(e: CartError): string {
    match e
    case AuthRequired => "인증이 필요합니다."
    case ProductNotFound => "상품을 찾을 수 없습니다."
    case ProductInactive => "판매 중인 상품이 아닙니다."
    case InsufficientStock(stock) => "재고가 부족합니다. (현재 재고: " + NumberText.IntToString(stock) + "개)"
    case InvalidQuantity => "수량은 1개 이상이어야 합니다."
    case CartItemNotFound => "장바구니 아이템을 찾을 수 없습니다."
  }

  // ---------------------------------------------------------------- addToCart

  /** The effect of `addToCart(productId, quantity)`; `freshId` is the id the store gives a new line. */
  ghost function AfterAdd(t: Tables, caller: Option<UserId>, productId: ProductId, quantity: int,
                          freshId: CartItemId): Step<CartResult>
  {
    if caller.None? then Step(Failure(AuthRequired), t)
    else if productId !in t.products then Step(Failure(ProductNotFound), t)
    else
      var p := t.products[productId];
      if !p.isActive then Step(Failure(ProductInactive), t)
      else if p.stockQuantity < quantity then Step(Failure(InsufficientStock(p.stockQuantity)), t)
      else
        match LineFor(t.cartItems, caller.value, productId)
        case Some(k) =>
          var newQuantity := t.cartItems[k].quantity + quantity;
          if newQuantity > p.stockQuantity then Step(Failure(InsufficientStock(p.stockQuantity)), t)
          else Step(Success, t.(cartItems := t.cartItems[k := t.cartItems[k].(quantity := newQuantity)]))
        case None =>
          var line := CartItem(freshId, caller.value, productId, quantity, t.clock);
          Step(Success, t.(cartItems := t.cartItems[freshId := line], clock := t.clock + 1))
  }

  /** A missing, inactive or under-stocked product makes addToCart fail and change nothing. */
  lemma AddRejectsUnavailableProduct(t: Tables, user: UserId, productId: ProductId, quantity: int, freshId: CartItemId)
    requires productId !in t.products || !t.products[productId].isActive
             || t.products[productId].stockQuantity < quantity
    ensures var s := AfterAdd(t, Some(user), productId, quantity, freshId);
      && s.tables == t
      && s.result == Failure(
           if productId !in t.products then ProductNotFound
           else if !t.products[productId].isActive then ProductInactive
           else InsufficientStock(t.products[productId].stockQuantity))
  {
  }

  /**
   * Adding a product the caller already has in the cart adds the requested
   * amount to that line, is refused if the sum exceeds the stock, and never
   * creates a second line.
   */
  lemma AddToExistingLine(t: Tables, user: UserId, productId: ProductId, quantity: int,
                          freshId: CartItemId, k: CartItemId)
    requires Consistent(t) && IsLineFor(t.cartItems, user, productId, k)
    requires productId in t.products && t.products[productId].isActive
    requires quantity <= t.products[productId].stockQuantity
    ensures var s := AfterAdd(t, Some(user), productId, quantity, freshId);
      var sum := t.cartItems[k].quantity + quantity;
      && (s.result == Success <==> sum <= t.products[productId].stockQuantity)
      && (s.result == Success ==> s.tables.cartItems == t.cartItems[k := t.cartItems[k].(quantity := sum)])
      && (s.result != Success ==> s.tables == t)
      && LinesOf(s.tables.cartItems, user) == LinesOf(t.cartItems, user)
  {
    LineForUnique(t.cartItems, user, productId, k);
  }

  /** Adding a product with no line yet inserts exactly one line owned by the caller. */
  lemma AddInsertsOneLine(t: Tables, user: UserId, productId: ProductId, quantity: int, freshId: CartItemId)
    requires freshId !in t.cartItems
    requires forall k :: !IsLineFor(t.cartItems, user, productId, k)
    requires productId in t.products && t.products[productId].isActive
    requires quantity <= t.products[productId].stockQuantity
    ensures var s := AfterAdd(t, Some(user), productId, quantity, freshId);
      && s.result == Success
      && s.tables.cartItems == t.cartItems[freshId := CartItem(freshId, user, productId, quantity, t.clock)]
      && LinesOf(s.tables.cartItems, user) == LinesOf(t.cartItems, user) + {freshId}
      && |LinesOf(s.tables.cartItems, user)| == |LinesOf(t.cartItems, user)| + 1
  {
    var s := AfterAdd(t, Some(user), productId, quantity, freshId);
    assert LinesOf(s.tables.cartItems, user) == LinesOf(t.cartItems, user) + {freshId};
  }

  /** After a successful add, the caller's line for the product holds no more than the stock. */
  lemma AddKeepsLineWithinStock(t: Tables, caller: Option<UserId>, productId: ProductId, quantity: int,
                                freshId: CartItemId)
    requires Consistent(t) && freshId !in t.cartItems
    ensures var s := AfterAdd(t, caller, productId, quantity, freshId);
      s.result == Success ==>
        && caller.Some? && productId in t.products
        && LineFor(s.tables.cartItems, caller.value, productId).Some?
        && forall k :: IsLineFor(s.tables.cartItems, caller.value, productId, k) ==>
             s.tables.cartItems[k].quantity <= t.products[productId].stockQuantity
  {
    var s := AfterAdd(t, caller, productId, quantity, freshId);
    if s.result == Success {
      var user := caller.value;
      var c := s.tables.cartItems;
      AddKeepsConsistent(t, caller, productId, quantity, freshId);
      match LineFor(t.cartItems, user, productId)
      case Some(k) =>
        assert IsLineFor(c, user, productId, k);
        forall j | IsLineFor(c, user, productId, j) ensures c[j].quantity <= t.products[productId].stockQuantity {
          assert j == k;
        }
      case None =>
        assert IsLineFor(c, user, productId, freshId);
    }
  }

  lemma AddKeepsConsistent(t: Tables, caller: Option<UserId>, productId: ProductId, quantity: int,
                           freshId: CartItemId)
    requires Consistent(t) && freshId !in t.cartItems
    ensures Consistent(AfterAdd(t, caller, productId, quantity, freshId).tables)
  {
    var s := AfterAdd(t, caller, productId, quantity, freshId);
    AddSuccessTables(t, caller, productId, quantity, freshId);
    if s.result == Success {
      var user := caller.value;
      var line := LineFor(t.cartItems, user, productId);
      if line.Some? {
        QuantityChangeKeepsConsistent(t, line.value, t.cartItems[line.value].quantity + quantity);
      } else {
        NewLineKeepsConsistent(t, user, productId, quantity, freshId);
      }
    }
  }

  /** The tables after a successful add: one line's quantity grows, or a new line comes in under `freshId`. */
  lemma AddSuccessTables(t: Tables, caller: Option<UserId>, productId: ProductId, quantity: int, freshId: CartItemId)
    ensures var s := AfterAdd(t, caller, productId, quantity, freshId);
      s.result == Success ==>
        && caller.Some?
        && var line := LineFor(t.cartItems, caller.value, productId);
        && (line.Some? ==> s.tables == t.(cartItems := t.cartItems[line.value := t.cartItems[line.value].(
                                            quantity := t.cartItems[line.value].quantity + quantity)]))
        && (line.None? ==> s.tables == t.(cartItems := t.cartItems[freshId := CartItem(freshId, caller.value, productId, quantity, t.clock)],
                                          clock := t.clock + 1))
  {
  }

  /** Changing the quantity of an existing line keeps the invariant. */
  lemma QuantityChangeKeepsConsistent(t: Tables, k: CartItemId, newQuantity: int)
    requires Consistent(t) && k in t.cartItems
    ensures Consistent(t.(cartItems := t.cartItems[k := t.cartItems[k].(quantity := newQuantity)]))
  {
    var c := t.cartItems[k := t.cartItems[k].(quantity := newQuantity)];
    assert CartStamps(c) == CartStamps(t.cartItems);
    CartChangeKeepsConsistent(t, c, t.clock);
    assert t.(cartItems := c, clock := t.clock) == t.(cartItems := c);
  }

  /** Inserting a new line for a product the caller has no line for, stamped with the clock, keeps the invariant. */
  lemma NewLineKeepsConsistent(t: Tables, user: UserId, productId: ProductId, quantity: int, freshId: CartItemId)
    requires Consistent(t) && freshId !in t.cartItems
    requires LineFor(t.cartItems, user, productId).None?
    ensures Consistent(t.(cartItems := t.cartItems[freshId := CartItem(freshId, user, productId, quantity, t.clock)],
                          clock := t.clock + 1))
  {
    var c := t.cartItems[freshId := CartItem(freshId, user, productId, quantity, t.clock)];
    NewLineKeepsCartInvariant(t, user, productId, quantity, freshId);
    CartChangeKeepsConsistent(t, c, t.clock + 1);
  }

  lemma NewLineKeepsCartInvariant(t: Tables, user: UserId, productId: ProductId, quantity: int, freshId: CartItemId)
    requires Consistent(t) && freshId !in t.cartItems
    requires LineFor(t.cartItems, user, productId).None?
    ensures var c := t.cartItems[freshId := CartItem(freshId, user, productId, quantity, t.clock)];
      && OneLinePerProduct(c) && Newest.DistinctStamps(CartStamps(c))
  {
    var c := t.cartItems[freshId := CartItem(freshId, user, productId, quantity, t.clock)];
    assert CartStamps(c) == CartStamps(t.cartItems)[freshId := t.clock];
    forall a, b | a in c && b in c && a != b && c[a].owner == c[b].owner
      ensures c[a].productId != c[b].productId
    {
      if a == freshId { assert !IsLineFor(t.cartItems, user, productId, b); }
      if b == freshId { assert !IsLineFor(t.cartItems, user, productId, a); }
    }
  }

  method AddToCart(db: Db, caller: Option<UserId>, productId: ProductId, quantity: int, freshId: CartItemId)
    returns (r: CartResult)
    requires db.Valid() && freshId !in db.cartItems
    modifies db
    ensures db.Valid()
    ensures Step(r, db.State()) == AfterAdd(old(db.State()), caller, productId, quantity, freshId)
  {
    AddKeepsConsistent(db.State(), caller, productId, quantity, freshId);
    AddSuccessTables(db.State(), caller, productId, quantity, freshId);
    if caller.None? {
      return Failure(AuthRequired);
    }
    var user := caller.value;
    if productId !in db.products {
      return Failure(ProductNotFound);
    }
    var product := db.products[productId];
    if !product.isActive {
      return Failure(ProductInactive);
    }
    if product.stockQuantity < quantity {
      return Failure(InsufficientStock(product.stockQuantity));
    }
    if k :| k in db.cartItems && db.cartItems[k].owner == user && db.cartItems[k].productId == productId {
      LineForUnique(db.cartItems, user, productId, k);
      var newQuantity := db.cartItems[k].quantity + quantity;
      if newQuantity > product.stockQuantity {
        return Failure(InsufficientStock(product.stockQuantity));
      }
      db.cartItems := db.cartItems[k := db.cartItems[k].(quantity := newQuantity)];
    } else {
      db.cartItems := db.cartItems[freshId := CartItem(freshId, user, productId, quantity, db.clock)];
      db.clock := db.clock + 1;
    }
    r := Success;
  }

  // --------------------------------------------------- updateCartItemQuantity

  /** The effect of `updateCartItemQuantity(cartItemId, quantity)`. */
  ghost function AfterUpdateQuantity(t: Tables, caller: Option<UserId>, cartItemId: CartItemId,
                                     quantity: int): Step<CartResult>
  {
    if quantity <= 0 then Step(Failure(InvalidQuantity), t)
    else if caller.None? then Step(Failure(AuthRequired), t)
    else if cartItemId !in t.cartItems || t.cartItems[cartItemId].owner != caller.value then
      Step(Failure(CartItemNotFound), t)
    else
      var line := t.cartItems[cartItemId];
      if line.productId !in t.products then Step(Failure(ProductNotFound), t)
      else
        var p := t.products[line.productId];
        if !p.isActive then Step(Failure(ProductInactive), t)
        else if quantity > p.stockQuantity then Step(Failure(InsufficientStock(p.stockQuantity)), t)
        else Step(Success, t.(cartItems := t.cartItems[cartItemId := line.(quantity := quantity)]))
  }

  /** A quantity of 0 or less is refused before anything is looked up, whoever calls. */
  lemma UpdateRejectsNonPositive(t: Tables, caller: Option<UserId>, cartItemId: CartItemId, quantity: int)
    requires quantity <= 0
    ensures AfterUpdateQuantity(t, caller, cartItemId, quantity) == Step(Failure(InvalidQuantity), t)
  {
  }

  /**
   * A successful update touches only the caller's own line with that id: it
   * sets that line's quantity exactly (within the stock) and leaves every other
   * line and every other table as it was. A line that is not the caller's is
   * reported as not found.
   */
  lemma UpdateTouchesOnlyOwnLine(t: Tables, caller: Option<UserId>, cartItemId: CartItemId, quantity: int)
    ensures var s := AfterUpdateQuantity(t, caller, cartItemId, quantity);
      && (s.result == Success ==>
            && caller.Some? && cartItemId in t.cartItems && t.cartItems[cartItemId].owner == caller.value
            && t.cartItems[cartItemId].productId in t.products
            && 1 <= quantity <= t.products[t.cartItems[cartItemId].productId].stockQuantity
            && s.tables == t.(cartItems := t.cartItems[cartItemId := t.cartItems[cartItemId].(quantity := quantity)])
            && forall k :: k in t.cartItems && k != cartItemId ==> s.tables.cartItems[k] == t.cartItems[k])
      && (s.result != Success ==> s.tables == t)
      && (quantity > 0 && caller.Some?
          && (cartItemId !in t.cartItems || t.cartItems[cartItemId].owner != caller.value) ==>
            s.result == Failure(CartItemNotFound))
  {
  }

  lemma UpdateKeepsConsistent(t: Tables, caller: Option<UserId>, cartItemId: CartItemId, quantity: int)
    requires Consistent(t)
    ensures Consistent(AfterUpdateQuantity(t, caller, cartItemId, quantity).tables)
  {
    var s := AfterUpdateQuantity(t, caller, cartItemId, quantity);
    if s.result == Success {
      QuantityChangeKeepsConsistent(t, cartItemId, quantity);
    }
  }

  method UpdateCartItemQuantity(db: Db, caller: Option<UserId>, cartItemId: CartItemId, quantity: int)
    returns (r: CartResult)
    requires db.Valid()
    modifies db
    ensures db.Valid()
    ensures Step(r, db.State()) == AfterUpdateQuantity(old(db.State()), caller, cartItemId, quantity)
  {
    UpdateKeepsConsistent(db.State(), caller, cartItemId, quantity);
    if quantity <= 0 {
      return Failure(InvalidQuantity);
    }
    if caller.None? {
      return Failure(AuthRequired);
    }
    if cartItemId !in db.cartItems || db.cartItems[cartItemId].owner != caller.value {
      return Failure(CartItemNotFound);
    }
    var line := db.cartItems[cartItemId];
    if line.productId !in db.products {
      return Failure(ProductNotFound);
    }
    var product := db.products[line.productId];
    if !product.isActive {
      return Failure(ProductInactive);
    }
    if quantity > product.stockQuantity {
      return Failure(InsufficientStock(product.stockQuantity));
    }
    db.cartItems := db.cartItems[cartItemId := line.(quantity := quantity)];
    r := Success;
  }

  // ----------------------------------------------------------- removeFromCart

  /** The effect of `removeFromCart(cartItemId)`: delete where id and owner both match. */
  ghost function AfterRemove(t: Tables, caller: Option<UserId>, cartItemId: CartItemId): Step<CartResult> {
    if caller.None? then Step(Failure(AuthRequired), t)
    else if cartItemId in t.cartItems && t.cartItems[cartItemId].owner == caller.value then
      Step(Success, t.(cartItems := t.cartItems - {cartItemId}))
    else Step(Success, t)
  }

  /**
   * Removal deletes only the caller's line with that id, succeeds also when
   * there is no such line, and removing twice is the same as removing once.
   */
  lemma RemoveIsScopedAndIdempotent(t: Tables, user: UserId, cartItemId: CartItemId)
    ensures var s := AfterRemove(t, Some(user), cartItemId);
      && s.result == Success
      && s.tables.cartItems.Keys
           == t.cartItems.Keys - (if cartItemId in LinesOf(t.cartItems, user) then {cartItemId} else {})
      && (forall k :: k in s.tables.cartItems ==> s.tables.cartItems[k] == t.cartItems[k])
      && s.tables == t.(cartItems := s.tables.cartItems)
      && AfterRemove(s.tables, Some(user), cartItemId) == Step(Success, s.tables)
  {
  }

  lemma RemoveKeepsConsistent(t: Tables, caller: Option<UserId>, cartItemId: CartItemId)
    requires Consistent(t)
    ensures Consistent(AfterRemove(t, caller, cartItemId).tables)
  {
    var s := AfterRemove(t, caller, cartItemId);
    assert Newest.DistinctStamps(CartStamps(s.tables.cartItems)) by {
      assert forall k :: k in CartStamps(s.tables.cartItems) ==> k in CartStamps(t.cartItems);
    }
  }

  method RemoveFromCart(db: Db, caller: Option<UserId>, cartItemId: CartItemId) returns (r: CartResult)
    requires db.Valid()
    modifies db
    ensures db.Valid()
    ensures Step(r, db.State()) == AfterRemove(old(db.State()), caller, cartItemId)
  {
    RemoveKeepsConsistent(db.State(), caller, cartItemId);
    if caller.None? {
      return Failure(AuthRequired);
    }
    if cartItemId in db.cartItems && db.cartItems[cartItemId].owner == caller.value {
      db.cartItems := db.cartItems - {cartItemId};
    }
    r := Success;
  }

  // ------------------------------------------------------------- getCartItems

  /** `user`'s lines, newest first: each exactly once, timestamps non-increasing. */
  lemma CartLinesAreCallersLinesNewestFirst(t: Tables, user: UserId)
    requires Consistent(t)
    ensures var lines := CartLines(t, user);
      && (forall i :: 0 <= i < |lines| ==> lines[i].id in LinesOf(t.cartItems, user) && lines[i] == t.cartItems[lines[i].id])
      && (forall k :: k in LinesOf(t.cartItems, user) ==> exists i :: 0 <= i < |lines| && lines[i].id == k)
      && (forall i, j :: 0 <= i < j < |lines| ==> lines[i].id != lines[j].id && lines[j].createdAt <= lines[i].createdAt)
  {
    assert forall c :: c in t.cartItems ==> t.cartItems[c].id == c;
    CartLinesAreLineRows(t, user);
    CartLinesAreComplete(t, user);
    CartLinesAreOrdered(t, user);
  }

  /** The `i`-th listed line is the row of the `i`-th id of the newest-first listing. */
  lemma CartLinesAreLineRows(t: Tables, user: UserId)
    requires forall c :: c in t.cartItems ==> t.cartItems[c].id == c
    ensures var ids := Newest.NewestFirst(CartStamps(t.cartItems), LinesOf(t.cartItems, user));
      forall i :: 0 <= i < |CartLines(t, user)| ==>
        ids[i] in LinesOf(t.cartItems, user) && CartLines(t, user)[i] == t.cartItems[ids[i]] && CartLines(t, user)[i].id == ids[i]
  {
  }

  lemma CartLinesAreComplete(t: Tables, user: UserId)
    requires forall c :: c in t.cartItems ==> t.cartItems[c].id == c
    ensures forall k :: k in LinesOf(t.cartItems, user) ==> exists i :: 0 <= i < |CartLines(t, user)| && CartLines(t, user)[i].id == k
  {
    var keys := LinesOf(t.cartItems, user);
    var ids := Newest.NewestFirst(CartStamps(t.cartItems), keys);
    Newest.NewestFirstListsEachOnce(CartStamps(t.cartItems), keys);
    CartLinesAreLineRows(t, user);
    forall k | k in keys ensures exists i :: 0 <= i < |CartLines(t, user)| && CartLines(t, user)[i].id == k {
      var i :| 0 <= i < |ids| && ids[i] == k;
      assert CartLines(t, user)[i].id == k;
    }
  }

  lemma CartLinesAreOrdered(t: Tables, user: UserId)
    requires forall c :: c in t.cartItems ==> t.cartItems[c].id == c
    ensures forall i, j :: 0 <= i < j < |CartLines(t, user)| ==>
              CartLines(t, user)[i].id != CartLines(t, user)[j].id && CartLines(t, user)[j].createdAt <= CartLines(t, user)[i].createdAt
  {
    var stamps := CartStamps(t.cartItems);
    var keys := LinesOf(t.cartItems, user);
    var ids := Newest.NewestFirst(stamps, keys);
    Newest.NewestFirstListsEachOnce(stamps, keys);
    CartLinesAreLineRows(t, user);
    var lines := CartLines(t, user);
    forall i, j | 0 <= i < j < |lines| ensures lines[i].id != lines[j].id && lines[j].createdAt <= lines[i].createdAt {
      assert stamps[ids[j]] <= stamps[ids[i]];
    }
  }

  /** `getCartItems` lists the caller's lines in that order, each joined with its current product. */
  lemma CartListingJoinsCartLines(t: Tables, caller: Option<UserId>)
    ensures caller.None? ==> CartListing(t, caller) == []
    ensures caller.Some? ==>
      var lines := CartLines(t, caller.value);
      && |CartListing(t, caller)| == |lines|
      && forall i :: 0 <= i < |lines| ==>
           CartListing(t, caller)[i] == CartItemWithProduct(lines[i],
             if lines[i].productId in t.products then Some(t.products[lines[i].productId]) else None)
  {
  }

  method GetCartItems(db: Db, caller: Option<UserId>) returns (items: seq<CartItemWithProduct>)
    requires db.Valid()
    ensures items == CartListing(db.State(), caller)
  {
    if caller.None? {
      return [];
    }
    assert Newest.DistinctStamps(CartStamps(db.cartItems));
    items := ListCart(db.State(), caller.value);
  }

  /** The select behind `getCartItems`: the caller's lines newest first, each joined with its product. */
  method ListCart(t: Tables, user: UserId) returns (items: seq<CartItemWithProduct>)
    requires Newest.DistinctStamps(CartStamps(t.cartItems))
    ensures items == CartListing(t, Some(user))
  {
    var cart, products := t.cartItems, t.products;
    var ids := Newest.SortNewestFirst(CartStamps(cart), LinesOf(cart, user));
    items := seq(|ids|, i requires 0 <= i < |ids| => Join(products, cart[ids[i]]));
    ghost var lines := CartLines(t, user);
    assert |items| == |lines|;
    assert forall i :: 0 <= i < |items| ==> items[i] == Join(products, lines[i]);
  }

  // ----------------------------------------------------------- getCartSummary

  /** Σ quantity over the listing (the first `reduce`). */
  function QuantitySum(items: seq<CartItemWithProduct>): int {
    if items == [] then 0
    else QuantitySum(items[..|items| - 1]) + items[|items| - 1].item.quantity
  }

  predicate AllJoined(items: seq<CartItemWithProduct>) {
    forall i :: 0 <= i < |items| ==> items[i].product.Some?
  }

  /** Σ price × quantity over the listing (the second `reduce`). */
  function AmountSum(items: seq<CartItemWithProduct>): int
    requires AllJoined(items)
  {
    if items == [] then 0
    else
      var last := items[|items| - 1];
      AmountSum(items[..|items| - 1]) + last.product.value.price * last.item.quantity
  }

  /**
   * The summary of a listing. A line whose product is gone makes the second
   * fold dereference a missing product; the exception is caught and the
   * summary is all zeros.
   */
  function Summarize(items: seq<CartItemWithProduct>): CartSummary {
    if AllJoined(items) then CartSummary(QuantitySum(items), AmountSum(items), items)
    else CartSummary(0, 0, [])
  }

  method GetCartSummary(db: Db, caller: Option<UserId>) returns (summary: CartSummary)
    requires db.Valid()
    ensures summary == Summarize(CartListing(db.State(), caller))
  {
    var items := GetCartItems(db, caller);
    summary := Summarize(items);
  }

  /**
   * The line count never exceeds the item total when every line holds at
   * least one unit: `getCartItemCount` counts lines, `totalItems` units.
   */
  lemma {:induction false} LineCountAtMostTotalItems(items: seq<CartItemWithProduct>)
    requires forall i :: 0 <= i < |items| ==> items[i].item.quantity >= 1
    ensures |items| <= QuantitySum(items)
  {
    if items != [] {
      LineCountAtMostTotalItems(items[..|items| - 1]);
    }
  }

  method GetCartItemCount(db: Db, caller: Option<UserId>) returns (n: int)
    requires db.Valid()
    ensures n == |CartListing(db.State(), caller)|
  {
    if caller.None? {
      return 0;
    }
    n := |LinesOf(db.cartItems, caller.value)|;
  }
}
