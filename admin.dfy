/** The delivery back office's admin layer (core/admin.py): the change-form
    handler that runs the delivery workflow against the store, and the pure
    helpers behind the list columns. */
module Admin {
  import opened Models
  import opened Workflow

  // ---------------------------------------------------------------------
  // The delivery change form (EntregaAdmin.changeform_view)
  // ---------------------------------------------------------------------

  /** The store's tables as the admin sees them; ChangeformView updates them in
      place the way the handler saves rows through the ORM. */
  class DeliveryAdmin {
    var customers: map<CustomerId, Customer>
    var drivers: map<DriverId, Driver>
    var products: map<ProductId, Product>
    var deliveries: map<DeliveryId, Delivery>
    var lineItems: seq<LineItem>
    var payments: map<DeliveryId, Payment>
    var nextPaymentId: PaymentId

    /** The tables as one value. */
    function Db(): Store
      reads this
    {
      Store(customers, drivers, products, deliveries, lineItems, payments, nextPaymentId)
    }

    ghost predicate Valid()
      reads this
    {
      Models.Valid(Db())
    }

    constructor (s: Store)
      requires Models.Valid(s)
      ensures Db() == s && Valid()
    {
      customers, drivers, products, deliveries := s.customers, s.drivers, s.products, s.deliveries;
      lineItems, payments, nextPaymentId := s.lineItems, s.payments, s.nextPaymentId;
    }

    /** Step 1: walk the items in order and stop at the first whose product has
        too little stock. */
    method CheckStock(items: seq<LineItem>) returns (shortfall: Option<nat>)
      requires Stocked(products, items)
      ensures shortfall == FirstShortfall(products, items)
      ensures shortfall.Some? ==> shortfall.value < |items|
                                  && products[items[shortfall.value].product].stock < items[shortfall.value].quantity
    {
      var i := 0;
      while i < |items|
        invariant 0 <= i <= |items|
        invariant forall j :: 0 <= j < i ==> !Short(products, items[j])
      {
        var it := items[i];
        if products[it.product].stock < it.quantity {
          return Some(i);
        }
        i := i + 1;
      }
      return None;
    }

    /** Step 2: take each item's quantity out of its product's stock. A step of
        MarkDelivered only: on its own, without the stock check, it can leave a
        stock below zero and so break Valid(). */
    method DecrementStock(items: seq<LineItem>)
      requires Stocked(products, items)
      modifies this`products
      ensures products == Decrement(old(products), items)
    {
      var i := 0;
      while i < |items|
        invariant 0 <= i <= |items|
        invariant Stocked(old(products), items[..i])
        invariant products == Decrement(old(products), items[..i])
      {
        var it := items[i];
        products := products[it.product := products[it.product].(stock := products[it.product].stock - it.quantity)];
        assert items[..i + 1][..i] == items[..i];
        i := i + 1;
      }
      assert items[..i] == items;
    }

    /** Step 4: sum price times quantity, starting from zero. */
    method ComputeTotal(items: seq<LineItem>) returns (total: Cents)
      requires Stocked(products, items)
      ensures total == Total(products, items)
    {
      total := 0;
      var i := 0;
      while i < |items|
        invariant 0 <= i <= |items|
        invariant Stocked(products, items[..i])
        invariant total == Total(products, items[..i])
      {
        var it := items[i];
        total := total + products[it.product].price * it.quantity;
        assert items[..i + 1][..i] == items[..i];
        i := i + 1;
      }
      assert items[..i] == items;
    }

    /** One POST to a delivery's change form: the action flags are tested in
        the order in transit, cancelled, delivered; the tables end up as
        Handle says and keep the schema's constraints. */
    method ChangeformView(req: Request) returns (out: Outcome)
      requires Valid()
      modifies this
      ensures (Db(), out) == Handle(old(Db()), req)
      ensures Valid()
    {
      ghost var s := Db();
      HandlePreservesValid(s, req);
      if !req.isPost || req.objectId.None? {
        return DefaultView;
      }
      var d := req.objectId.value;
      if req.inTransit {
        if d !in deliveries {
          return NoSuchDelivery;
        }
        deliveries := deliveries[d := deliveries[d].(status := InTransit)];
        return StatusSet(InTransit);
      }
      if req.cancel {
        if d !in deliveries {
          return NoSuchDelivery;
        }
        deliveries := deliveries[d := deliveries[d].(status := Cancelled)];
        return StatusSet(Cancelled);
      }
      if !req.delivered {
        return DefaultView;
      }
      if req.metodo.None? {
        return MissingMethod;
      }
      if d !in deliveries {
        return NoSuchDelivery;
      }
      out := MarkDelivered(d, req.metodo.value, req.now);
    }

    /** The delivered action with a method chosen, on an existing delivery:
        check, decrement, set ENTREGUE, total, and upsert the payment. */
    method MarkDelivered(d: DeliveryId, m: PaymentMethod, now: Timestamp) returns (out: Outcome)
      requires Valid()
      requires d in deliveries
      modifies this
      ensures (Db(), out) == Workflow.MarkDelivered(old(Db()), d, m, now)
      ensures Valid()
    {
      ghost var s := Db();
      MarkDeliveredPreservesValid(s, d, m, now);
      var items := ItemsOf(lineItems, d);
      ItemsOfStocked(s, d);
      var shortfall := CheckStock(items);
      if shortfall.Some? {
        var it := items[shortfall.value];
        return InsufficientStock(it.product, products[it.product].stock, it.quantity);
      }
      out := CompleteDelivery(d, m, now, items);
    }

    /** Steps 2 to 5, once the stock check has passed: decrement, set
        ENTREGUE, total, and upsert the payment. A step of MarkDelivered only:
        without the stock check before it, it can break Valid(). */
    method CompleteDelivery(d: DeliveryId, m: PaymentMethod, now: Timestamp, items: seq<LineItem>)
      returns (out: Outcome)
      requires d in deliveries
      requires Stocked(products, items)
      modifies this
      ensures (Db(), out) == Workflow.CompleteDelivery(old(Db()), d, m, now, items)
    {
      DecrementStock(items);
      // Step 3: the delivery is ENTREGUE.
      deliveries := deliveries[d := deliveries[d].(status := Delivered)];
      var total := ComputeTotal(items);
      var st := PaymentStatusFor(m);
      SavePayment(d, m, total, st, PaidAtFor(m, now));
      return Confirmed(total, m, st);
    }

    /** Step 5: update the delivery's payment in place, or create it. A step of
        MarkDelivered only: on its own it does not check that d is a delivery
        and so can break Valid(). */
    method SavePayment(d: DeliveryId, m: PaymentMethod, amount: Cents, st: PaymentStatus,
                       paidAt: Option<Timestamp>)
      modifies this`payments, this`nextPaymentId
      ensures (payments, nextPaymentId) == UpsertPayment(old(payments), old(nextPaymentId), d, m, amount, st, paidAt)
    {
      if d in payments {
        payments := payments[d := payments[d].(paidWith := m, amount := amount, status := st, paidAt := paidAt)];
      } else {
        payments := payments[d := Payment(nextPaymentId, amount, m, paidAt, st)];
        nextPaymentId := nextPaymentId + 1;
      }
    }
  }

  // ---------------------------------------------------------------------
  // List columns
  // ---------------------------------------------------------------------

  const SummaryLength: nat := 40
  const Ellipsis: string := "..."

  /** A list-column summary: text of at most 40 characters is shown as it is,
      longer text as its first 40 characters followed by "...". */
  function Summarize(text: string): (r: string)
    ensures |text| <= SummaryLength ==> r == text
    ensures |text| > SummaryLength ==> |r| == SummaryLength + |Ellipsis|
                                       && r[..SummaryLength] == text[..SummaryLength]
                                       && r[SummaryLength..] == Ellipsis
  {
    if |text| > SummaryLength then text[..SummaryLength] + Ellipsis else text
  }

  /** A summary is never longer than 43 characters and always starts with the
      text's own first characters. */
  lemma SummarizeBounded(text: string)
    ensures |Summarize(text)| <= SummaryLength + |Ellipsis|
    ensures var n := if |text| < SummaryLength then |text| else SummaryLength;
            Summarize(text)[..n] == text[..n]
  {
  }

  /** Summarizing a summary changes nothing. */
  lemma SummarizeIdempotent(text: string)
    ensures Summarize(Summarize(text)) == Summarize(text)
  {
    var r := Summarize(text);
    if |text| > SummaryLength {
      assert r[..SummaryLength] + Ellipsis == r;
    }
  }

  /** ClienteAdmin.endereco_resumido */
  function AddressSummary(c: Customer): (r: string)
    ensures |r| <= SummaryLength + |Ellipsis|
    ensures |c.address| <= SummaryLength <==> r == c.address && |r| <= SummaryLength
  {
    Summarize(c.address)
  }

  /** ProdutoAdmin.descricao_resumida */
  function DescriptionSummary(p: Product): (r: string)
    ensures |r| <= SummaryLength + |Ellipsis|
    ensures |p.description| <= SummaryLength <==> r == p.description && |r| <= SummaryLength
  {
    Summarize(p.description)
  }

  /** EntregaAdmin.get_status_pagamento: "-" without a payment, otherwise an
      icon, a space and the payment status's label. */
  function PaymentStatusColumn(payment: Option<Payment>): (r: string)
    ensures r == "-" <==> payment.None?
    ensures payment.Some? ==> |r| >= 2 && r[1] == ' ' && r[2..] == payment.value.status.Label()
    ensures payment.Some? ==> r[0] == (match payment.value.status
                                        case Paid => '✅'
                                        case Pending => '⏳'
                                        case Failed => '❌')
  {
    match payment
    case None => "-"
    case Some(p) =>
      match p.status
      case Paid => "✅ Pago"
      case Pending => "⏳ Pendente"
      case Failed => "❌ Falha"
  }

  /** Different payment states never show the same column text. */
  lemma PaymentStatusColumnInjective(a: Option<Payment>, b: Option<Payment>)
    requires PaymentStatusColumn(a) == PaymentStatusColumn(b)
    ensures a.None? <==> b.None?
    ensures a.Some? ==> a.value.status == b.value.status
  {
    if a.Some? && b.Some? {
      assert a.value.status.Label() == b.value.status.Label();
    }
  }

  /** EntregaAdmin.get_situacao: a tick exactly for delivered deliveries. */
  function DeliveredColumn(d: Delivery): (r: string)
    ensures r == "✅" <==> d.status == Delivered
    ensures r == "❌" <==> d.status != Delivered
  {
    if d.status == Delivered then "✅" else "❌"
  }
}
