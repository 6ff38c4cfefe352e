/**
 * The record shapes of the shop's tables: products, cart_items, orders and
 * order_items. Timestamps are positions on a monotone clock (`createdAt`);
 * `updated_at` is not modelled.
 */
module ShopTypes {
  import opened Wrappers

  type UserId = string
  type ProductId = string
  type CartItemId = string
  type OrderId = string

  /** A row of `products`. */
  datatype Product = Product(
    id: ProductId,
    name: string,
    description: Option<string>,
    price: int,
    category: Option<string>,
    stockQuantity: int,
    isActive: bool,
    createdAt: nat)

  /** A row of `cart_items`; `owner` is the row's `clerk_id`. */
  datatype CartItem = CartItem(
    id: CartItemId,
    owner: UserId,
    productId: ProductId,
    quantity: int,
    createdAt: nat)

  /** A cart line joined with its product; the join yields `None` for a product that is gone. */
  datatype CartItemWithProduct = CartItemWithProduct(item: CartItem, product: Option<Product>)

  datatype CartSummary = CartSummary(totalItems: int, totalAmount: int, items: seq<CartItemWithProduct>)

  datatype ShippingAddress = ShippingAddress(
    name: string,
    phone: string,
    address: string,
    addressDetail: Option<string>,
    postalCode: string)

  /** The five order statuses. */
  datatype OrderStatus = Pending | Confirmed | Shipped | Delivered | Cancelled

  /** A row of `orders`; `owner` is the row's `clerk_id`. */
  datatype Order = Order(
    id: OrderId,
    owner: UserId,
    totalAmount: int,
    status: OrderStatus,
    shippingAddress: Option<ShippingAddress>,
    orderNote: Option<string>,
    createdAt: nat)

  /**
   * A row of `order_items`. Its `order_id` is the key under which the store
   * keeps the order's items, so it is not repeated here.
   */
  datatype OrderItem = OrderItem(productId: ProductId, productName: string, quantity: int, price: int)

  datatype OrderWithItems = OrderWithItems(order: Order, items: seq<OrderItem>)

  datatype CreateOrderRequest = CreateOrderRequest(shippingAddress: ShippingAddress, orderNote: Option<string>)
}
