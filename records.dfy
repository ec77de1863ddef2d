/**
 * The stored entities, one datatype per table. Ids are positive; a
 * nullable foreign key that is missing is written 0, which is how the
 * handlers treat it anyway (`if order_id:`, `ch.order_id or 0`). A missing
 * text column is "" and a missing number is None.
 */
module Records {
  import opened Common

  /** An order; `created` is the day number of its `created_at`, and later orders have larger ids. */
  datatype Order = Order(title: string, status: string, created: int)

  datatype Customer = Customer(name: string)

  datatype Product = Product(name: string, defaultUnit: string)

  /** A product variant; `name` is "kivi" for the house variant. */
  datatype Variant = Variant(productId: int, name: string)

  /** A quantity-break price of a product, optionally tied to one variant. */
  datatype PriceTier = PriceTier(
    productId: int, variantId: Option<int>, minQty: real, unit: string, salePrice: real)

  /** A catalog (sale) price row; `date` is a day number. */
  datatype CatalogPrice = CatalogPrice(productId: int, date: int, salePrice: real, unit: string)

  /** A cost/sale observation, written when something is bought; `date` is a day number. */
  datatype PriceRecord = PriceRecord(productId: int, date: int, cost: Option<real>, sale: Option<real>, unit: string)

  /**
   * One customer's request for a product inside an order. `chargedUnit`
   * and `chargedQty` are the unit and quantity the line is billed in.
   */
  datatype OrderItem = OrderItem(
    orderId: int, customerId: int, productId: int,
    qty: real, unit: string,
    chargedUnit: string, chargedQty: Option<real>,
    variantId: Option<int>, saleUnitPrice: Option<real>)

  /** An amount owed by a customer, usually for one order line. */
  datatype Charge = Charge(
    customerId: int, orderId: int, originalOrderId: int, orderItemId: int, productId: int,
    qty: real, chargedQty: Option<real>, unit: string,
    unitPrice: real, discount: real, status: string, total: real)

  /** A supplier buy, optionally against an order. */
  datatype Purchase = Purchase(
    orderId: int, productId: int,
    qtyKg: Option<real>, qtyUnit: Option<real>, chargedUnit: string,
    eqQtyKg: Option<real>, eqQtyUnit: Option<real>,
    priceTotal: Option<real>, pricePerUnit: Option<real>, customers: string)

  /** Part of a purchase assigned to one order line. */
  datatype Allocation = Allocation(purchaseId: int, orderItemId: int, qty: real, unit: string)

  /** Surplus stock produced by a purchase. */
  datatype InventoryLot = InventoryLot(
    productId: int, sourcePurchaseId: int, orderId: int,
    qtyKg: Option<real>, qtyUnit: Option<real>, status: string)

  datatype Payment = Payment(customerId: int, amount: real)

  /** Part of a payment credited to one charge. */
  datatype PaymentApplication = PaymentApplication(paymentId: int, chargeId: int, amount: real)

  /** A supplier's price for a product, with the markup that gives the resale price. */
  datatype VendorPrice = VendorPrice(
    vendorId: int, productId: int, variantId: Option<int>,
    pricePerKg: Option<real>, pricePerUnit: Option<real>, unit: string,
    markup: real, finalPrice: real, isAvailable: bool, lastUpdated: int, source: string)

  /** A competitor's observed price for a product; `date` is a day number. */
  datatype CompetitorPrice = CompetitorPrice(productId: int, competitor: string, date: int, price: Option<real>)

  datatype MerchantUser = MerchantUser(isActive: bool)

  datatype MerchantOrder = MerchantOrder(
    merchantUserId: int, orderNumber: string, status: string,
    subtotal: real, deliveryFee: real, total: real)

  datatype MerchantOrderItem = MerchantOrderItem(
    merchantOrderId: int, productId: int, variantId: Option<int>,
    qty: real, unit: string, pricePerUnit: real, subtotal: real)
}
