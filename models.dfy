/** Records, choice lists and table constraints of the water-and-gas delivery
    back office (core/models.py). Money is held in integer cents; row ids are
    the ORM's integer primary keys. */
module Models {

  datatype Option<+T> = None | Some(value: T)

  type CustomerId = nat
  type ProductId = nat
  type DriverId = nat
  type DeliveryId = nat
  type PaymentId = nat

  /** An instant as the framework clock returns it; never inspected. */
  type Timestamp = int

  /** An amount of money in cents: a DecimalField with two decimal places. */
  type Cents = int

  /** Both money columns are DecimalField(max_digits=10, decimal_places=2):
      at most ten digits in all, so the value in cents is below 10^10 in size. */
  const CentsBound: int := 10_000_000_000

  predicate FitsMoneyColumn(c: Cents) {
    -CentsBound < c < CentsBound
  }

  /** Entrega.STATUS_CHOICES */
  datatype DeliveryStatus = Pending | InTransit | Delivered | Cancelled {
    /** The code stored in the column. */
    function Code(): string {
      match this
      case Pending => "PENDENTE"
      case InTransit => "EM_TRANSITO"
      case Delivered => "ENTREGUE"
      case Cancelled => "CANCELADA"
    }
  }

  /** Pagamento.METODO_CHOICES; Fiado is sale on the customer's tab. */
  datatype PaymentMethod = Cash | Card | Pix | Boleto | Fiado {
    function Code(): string {
      match this
      case Cash => "DINHEIRO"
      case Card => "CARTAO"
      case Pix => "PIX"
      case Boleto => "BOLETO"
      case Fiado => "FIADO"
    }
  }

  /** Pagamento.STATUS_CHOICES */
  datatype PaymentStatus = Pending | Paid | Failed {
    function Code(): string {
      match this
      case Pending => "PENDENTE"
      case Paid => "PAGO"
      case Failed => "FALHA"
    }

    function Label(): string {
      match this
      case Pending => "Pendente"
      case Paid => "Pago"
      case Failed => "Falha"
    }
  }

  /** Reads a stored status code back; exactly the listed codes are accepted. */
  function ParseDeliveryStatus(code: string): (r: Option<DeliveryStatus>)
    ensures r.Some? ==> r.value.Code() == code
    ensures r.None? <==> forall st: DeliveryStatus :: st.Code() != code
  {
    if code == "PENDENTE" then Some(DeliveryStatus.Pending)
    else if code == "EM_TRANSITO" then Some(InTransit)
    else if code == "ENTREGUE" then Some(Delivered)
    else if code == "CANCELADA" then Some(Cancelled)
    else None
  }

  function ParsePaymentMethod(code: string): (r: Option<PaymentMethod>)
    ensures r.Some? ==> r.value.Code() == code
    ensures r.None? <==> forall m: PaymentMethod :: m.Code() != code
  {
    if code == "DINHEIRO" then Some(Cash)
    else if code == "CARTAO" then Some(Card)
    else if code == "PIX" then Some(Pix)
    else if code == "BOLETO" then Some(Boleto)
    else if code == "FIADO" then Some(Fiado)
    else None
  }

  function ParsePaymentStatus(code: string): (r: Option<PaymentStatus>)
    ensures r.Some? ==> r.value.Code() == code
    ensures r.None? <==> forall st: PaymentStatus :: st.Code() != code
  {
    if code == "PENDENTE" then Some(PaymentStatus.Pending)
    else if code == "PAGO" then Some(Paid)
    else if code == "FALHA" then Some(Failed)
    else None
  }

  /** Every stored code reads back as the value it was written from. */
  lemma CodesRoundTrip(st: DeliveryStatus, m: PaymentMethod, ps: PaymentStatus)
    ensures ParseDeliveryStatus(st.Code()) == Some(st)
    ensures ParsePaymentMethod(m.Code()) == Some(m)
    ensures ParsePaymentStatus(ps.Code()) == Some(ps)
  {
  }

  datatype Customer = Customer(name: string, address: string, phone: string, email: string,
                               registeredAt: Timestamp)

  /** stock is a PositiveIntegerField; it is an int here so that keeping it
      non-negative is an invariant to prove rather than a type to assume. */
  datatype Product = Product(name: string, description: string, price: Cents, stock: int,
                             createdAt: Timestamp)

  datatype Driver = Driver(name: string, phone: string, vehicle: string)

  datatype Delivery = Delivery(customer: CustomerId, driver: Option<DriverId>, orderedAt: Timestamp,
                               expectedAt: Timestamp, status: DeliveryStatus, address: string)

  /** EntregaProduto: quantity is a PositiveIntegerField, which admits 0. */
  datatype LineItem = LineItem(delivery: DeliveryId, product: ProductId, quantity: nat)

  /** Pagamento; the delivery it belongs to is its key in Store.payments. */
  datatype Payment = Payment(id: PaymentId, amount: Cents, paidWith: PaymentMethod,
                             paidAt: Option<Timestamp>, status: PaymentStatus)

  /** A new product starts with no stock. */
  function NewProduct(name: string, description: string, price: Cents, now: Timestamp): (p: Product)
    ensures p.stock == 0 && p.price == price && p.createdAt == now
  {
    Product(name, description, price, 0, now)
  }

  /** A new delivery starts PENDENTE. */
  function NewDelivery(customer: CustomerId, driver: Option<DriverId>, now: Timestamp,
                       expectedAt: Timestamp, address: string): (d: Delivery)
    ensures d.status == DeliveryStatus.Pending && d.customer == customer && d.orderedAt == now
  {
    Delivery(customer, driver, now, expectedAt, DeliveryStatus.Pending, address)
  }

  /** A new line item orders one unit. */
  function NewLineItem(delivery: DeliveryId, product: ProductId): (it: LineItem)
    ensures it.quantity == 1 && it.delivery == delivery && it.product == product
  {
    LineItem(delivery, product, 1)
  }

  /** A new payment starts PENDENTE with no payment date. */
  function NewPayment(id: PaymentId, amount: Cents, m: PaymentMethod): (p: Payment)
    ensures p.status == PaymentStatus.Pending && p.paidAt == None
    ensures p.id == id && p.amount == amount && p.paidWith == m
  {
    Payment(id, amount, m, None, PaymentStatus.Pending)
  }

  /** The rows the delivery workflow works on. Payments are keyed by their
      delivery (a OneToOneField) so a delivery has at most one; nextPaymentId
      is the key the next created payment row receives. */
  datatype Store = Store(customers: map<CustomerId, Customer>,
                         drivers: map<DriverId, Driver>,
                         products: map<ProductId, Product>,
                         deliveries: map<DeliveryId, Delivery>,
                         lineItems: seq<LineItem>,
                         payments: map<DeliveryId, Payment>,
                         nextPaymentId: PaymentId)

  /** Cliente.email is unique. */
  predicate UniqueEmails(customers: map<CustomerId, Customer>) {
    forall c1, c2 :: c1 in customers && c2 in customers && c1 != c2 ==>
      customers[c1].email != customers[c2].email
  }

  /** The PositiveIntegerField check on Produto.estoque. */
  predicate StockNonNegative(products: map<ProductId, Product>) {
    forall p :: p in products ==> products[p].stock >= 0
  }

  predicate PricesFit(products: map<ProductId, Product>) {
    forall p :: p in products ==> FitsMoneyColumn(products[p].price)
  }

  /** unique_together = ('entrega', 'produto') */
  predicate UniqueLineItems(items: seq<LineItem>) {
    forall i, j :: 0 <= i < j < |items| ==>
      items[i].delivery != items[j].delivery || items[i].product != items[j].product
  }

  predicate DeliveriesLinked(s: Store) {
    forall d :: d in s.deliveries ==>
      s.deliveries[d].customer in s.customers &&
      (s.deliveries[d].driver.Some? ==> s.deliveries[d].driver.value in s.drivers)
  }

  predicate LineItemsLinked(s: Store) {
    forall i :: 0 <= i < |s.lineItems| ==>
      s.lineItems[i].delivery in s.deliveries && s.lineItems[i].product in s.products
  }

  /** Each payment belongs to an existing delivery and was created before nextPaymentId. */
  predicate PaymentsLinked(s: Store) {
    forall d :: d in s.payments ==> d in s.deliveries && s.payments[d].id < s.nextPaymentId
  }

  /** Distinct deliveries never share a payment row. */
  predicate PaymentIdsUnique(payments: map<DeliveryId, Payment>) {
    forall d1, d2 :: d1 in payments && d2 in payments && d1 != d2 ==>
      payments[d1].id != payments[d2].id
  }

  /** The constraints the schema declares, as one store invariant. */
  predicate Valid(s: Store) {
    && UniqueEmails(s.customers)
    && StockNonNegative(s.products)
    && PricesFit(s.products)
    && UniqueLineItems(s.lineItems)
    && DeliveriesLinked(s)
    && LineItemsLinked(s)
    && PaymentsLinked(s)
    && PaymentIdsUnique(s.payments)
  }
}
