/**
 * The backing tables of the shop as one in-memory store. `Tables` is the
 * value of all four tables plus the clock that stands in for `created_at`;
 * `Db` is the mutable store object the actions work on.
 */
module Store {
  import opened Wrappers
  import opened ShopTypes
  import Newest

  datatype Tables = Tables(
    products: map<ProductId, Product>,
    cartItems: map<CartItemId, CartItem>,
    orders: map<OrderId, Order>,
    orderItems: map<OrderId, seq<OrderItem>>,
    clock: nat)

  /** What an action returns together with the tables it leaves behind. */
  datatype Step<R> = Step(result: R, tables: Tables)

  /** The ids of the cart lines `user` owns (`.eq("clerk_id", clerkId)`). */
  function LinesOf(cart: map<CartItemId, CartItem>, user: UserId): set<CartItemId> {
    set k | k in cart && cart[k].owner == user
  }

  /** `k` is `user`'s line for product `pid`. */
  predicate IsLineFor(cart: map<CartItemId, CartItem>, user: UserId, pid: ProductId, k: CartItemId) {
    k in cart && cart[k].owner == user && cart[k].productId == pid
  }

  /** A user has at most one line per product. */
  ghost predicate OneLinePerProduct(cart: map<CartItemId, CartItem>) {
    forall a, b :: a in cart && b in cart && a != b && cart[a].owner == cart[b].owner ==>
      cart[a].productId != cart[b].productId
  }

  /** `user`'s line for product `pid`, if there is one. */
  ghost function LineFor(cart: map<CartItemId, CartItem>, user: UserId, pid: ProductId): (r: Option<CartItemId>)
    ensures r.Some? ==> IsLineFor(cart, user, pid, r.value)
    ensures r.None? ==> forall k :: !IsLineFor(cart, user, pid, k)
  {
    if exists k :: IsLineFor(cart, user, pid, k) then
      Some(var k :| IsLineFor(cart, user, pid, k); k)
    else None
  }

  /** With one line per product, the line for a (user, product) pair is determined. */
  lemma LineForUnique(cart: map<CartItemId, CartItem>, user: UserId, pid: ProductId, k: CartItemId)
    requires OneLinePerProduct(cart) && IsLineFor(cart, user, pid, k)
    ensures LineFor(cart, user, pid) == Some(k)
  {
  }

  function CartStamps(cart: map<CartItemId, CartItem>): map<CartItemId, nat> {
    map k | k in cart :: cart[k].createdAt
  }

  function OrderStamps(orders: map<OrderId, Order>): map<OrderId, nat> {
    map k | k in orders :: orders[k].createdAt
  }

  /** Σ price × quantity over order items, accumulated left to right. */
  function ItemsTotal(items: seq<OrderItem>): int {
    if items == [] then 0
    else ItemsTotal(items[..|items| - 1]) + items[|items| - 1].price * items[|items| - 1].quantity
  }

  /** No two items name the same product. */
  predicate DistinctProducts(items: seq<OrderItem>) {
    forall i, j :: 0 <= i < j < |items| ==> items[i].productId != items[j].productId
  }

  /** Keys agree with ids and stock is never negative. */
  ghost predicate ProductsOk(products: map<ProductId, Product>) {
    forall p :: p in products ==> products[p].id == p && products[p].stockQuantity >= 0
  }

  /** Keys agree with ids, one line per (user, product), distinct timestamps below the clock. */
  ghost predicate CartOk(cart: map<CartItemId, CartItem>, clock: nat) {
    && (forall c :: c in cart ==> cart[c].id == c && cart[c].createdAt < clock)
    && OneLinePerProduct(cart)
    && Newest.DistinctStamps(CartStamps(cart))
  }

  /**
   * Every order has its items, at least one, no two for the same product,
   * and a total equal to their sum; keys agree with ids and timestamps are
   * distinct and below the clock.
   */
  ghost predicate OrdersOk(orders: map<OrderId, Order>, orderItems: map<OrderId, seq<OrderItem>>, clock: nat) {
    && orderItems.Keys == orders.Keys
    && (forall o :: o in orders ==>
          && orders[o].id == o
          && orders[o].createdAt < clock
          && |orderItems[o]| > 0
          && DistinctProducts(orderItems[o])
          && orders[o].totalAmount == ItemsTotal(orderItems[o]))
    && Newest.DistinctStamps(OrderStamps(orders))
  }

  /** The invariant every action keeps. */
  ghost predicate Consistent(t: Tables) {
    ProductsOk(t.products) && CartOk(t.cartItems, t.clock) && OrdersOk(t.orders, t.orderItems, t.clock)
  }

  /** The cart and order invariants survive the clock moving forward. */
  lemma LaterClockKeepsInvariants(t: Tables, clock: nat)
    requires Consistent(t) && clock >= t.clock
    ensures CartOk(t.cartItems, clock) && OrdersOk(t.orders, t.orderItems, clock)
  {
  }

  /** Replacing the cart (and advancing the clock) keeps the invariant when the new cart satisfies its part. */
  lemma CartChangeKeepsConsistent(t: Tables, cart: map<CartItemId, CartItem>, clock: nat)
    requires Consistent(t) && clock >= t.clock
    requires forall c :: c in cart ==> cart[c].id == c && cart[c].createdAt < clock
    requires OneLinePerProduct(cart) && Newest.DistinctStamps(CartStamps(cart))
    ensures Consistent(t.(cartItems := cart, clock := clock))
  {
    LaterClockKeepsInvariants(t, clock);
  }

  /** Inserting a row under a fresh key and deleting it again restores the table. */
  lemma InsertThenDeleteRestores<K, V>(m: map<K, V>, k: K, v: V)
    requires k !in m
    ensures m[k := v] - {k} == m
  {
  }

  /** A cart line joined with its product (`product:products(*)`). */
  function Join(products: map<ProductId, Product>, item: CartItem): (j: CartItemWithProduct)
    ensures j.item == item
    ensures j.product.Some? <==> item.productId in products
    ensures j.product.Some? ==> j.product.value == products[item.productId]
  {
    CartItemWithProduct(item, if item.productId in products then Some(products[item.productId]) else None)
  }

  /** `user`'s cart lines, newest first. */
  ghost function CartLines(t: Tables, user: UserId): (lines: seq<CartItem>)
    ensures |lines| == |LinesOf(t.cartItems, user)|
  {
    var ids := Newest.NewestFirst(CartStamps(t.cartItems), LinesOf(t.cartItems, user));
    seq(|ids|, i requires 0 <= i < |ids| => t.cartItems[ids[i]])
  }

  /** What `getCartItems` lists for `caller`: nothing without a caller. */
  ghost function CartListing(t: Tables, caller: Option<UserId>): seq<CartItemWithProduct> {
    if caller.None? then []
    else
      var lines := CartLines(t, caller.value);
      seq(|lines|, i requires 0 <= i < |lines| => Join(t.products, lines[i]))
  }

  /** The mutable store: one map per table, and the clock. */
  class Db {
    var products: map<ProductId, Product>
    var cartItems: map<CartItemId, CartItem>
    var orders: map<OrderId, Order>
    var orderItems: map<OrderId, seq<OrderItem>>
    var clock: nat

    function State(): Tables
      reads this
    {
      Tables(products, cartItems, orders, orderItems, clock)
    }

    ghost predicate Valid()
      reads this
    {
      Consistent(State())
    }

    constructor (t: Tables)
      requires Consistent(t)
      ensures Valid() && State() == t
    {
      products, cartItems, orders, orderItems, clock := t.products, t.cartItems, t.orders, t.orderItems, t.clock;
    }
  }
}
