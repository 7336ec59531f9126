/** The rows of the store: products, categories, cart lines, orders and their items,
    addresses and payment methods. Money is a whole number of currency units. */
module Entities {
  import opened Wrappers

  type ProductId = int        // autoincrement integer key
  type CategoryId = string    // UUID
  type UserId = string
  type CartId = string
  type OrderId = string
  type RecordId = string      // UUID of an address or a payment method

  /** No element occurs twice in `s`: a scan of a table lists each key once. */
  predicate Distinct<T(==)>(s: seq<T>) {
    forall i, j :: 0 <= i < j < |s| ==> s[i] != s[j]
  }

  datatype Product = Product(
    name: string,
    price: int,
    oldPrice: Option<int>,
    description: string,
    image: string,
    images: seq<string>,
    brand: string,
    categoryId: CategoryId,
    stock: int,
    featured: bool,
    isNewArrival: bool,
    isBestSeller: bool,
    specifications: map<string, string>)

  datatype Category = Category(
    name: string,
    slug: string,
    description: Option<string>,
    image: Option<string>,
    parentId: Option<CategoryId>)

  /** A row of the cart-item table; (cartId, productId) is its unique key. */
  datatype CartItem = CartItem(cartId: CartId, productId: ProductId, quantity: int)

  datatype OrderStatus = PROCESSING | SHIPPED | COMPLETED | CANCELLED
  datatype PaymentStatus = PENDING | PAID | FAILED

  function OrderStatusName(s: OrderStatus): string {
    match s
    case PROCESSING => "PROCESSING"
    case SHIPPED => "SHIPPED"
    case COMPLETED => "COMPLETED"
    case CANCELLED => "CANCELLED"
  }

  /** The denormalised copy of the shipping address kept on an order. */
  datatype ShippingAddress = ShippingAddress(name: string, address: string, city: string, zipCode: string)

  /** A purchased line, frozen at checkout. */
  datatype OrderItem = OrderItem(productId: ProductId, productName: string, productImage: string, price: int, quantity: int)

  datatype Order = Order(
    userId: UserId,
    subtotal: int,
    shipping: int,
    total: int,
    status: OrderStatus,
    shippingAddress: ShippingAddress,
    paymentMethod: string,
    paymentStatus: PaymentStatus,
    items: seq<OrderItem>)

  datatype Role = USER | ADMIN

  /** A record owned by one user that may be that user's default: an address or a
      payment method. */
  datatype Owned<T> = Owned(userId: UserId, isDefault: bool, data: T)

  datatype AddressData = AddressData(name: string, address: string, city: string, zipCode: string)

  /** `type` and the free-form `details` value of a payment method. */
  datatype PaymentData = PaymentData(methodType: string, details: string)

  /** A nullable field of an update body: absent (left as it is), `null` (cleared) or
      a value. */
  datatype Patch<T> = Keep | Clear | Set(value: T)

  function Patched<T>(current: Option<T>, p: Patch<T>): Option<T> {
    match p
    case Keep => current
    case Clear => None
    case Set(v) => Some(v)
  }
}
