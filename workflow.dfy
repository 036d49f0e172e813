/** The delivery-completion workflow of the delivery change form
    (EntregaAdmin.changeform_view, core/admin.py) as a function from a store
    and a request to the new store and the outcome reported to the operator,
    with the properties the workflow promises proved about it. */
module Workflow {
  import opened Models

  /** A POST to a delivery's change form: which action buttons were pressed,
      the payment method chosen (None when absent or empty) and the clock. */
  datatype Request = Request(isPost: bool, objectId: Option<DeliveryId>,
                             inTransit: bool, cancel: bool, delivered: bool,
                             metodo: Option<PaymentMethod>, now: Timestamp)

  /** What the operator is told; the message text itself is not modelled. */
  datatype Outcome =
    | DefaultView                     // handed to the framework's own change form
    | NoSuchDelivery                  // the object id names no delivery
    | StatusSet(status: DeliveryStatus)
    | MissingMethod                   // "select a payment method"
    | InsufficientStock(product: ProductId, available: int, required: nat)
    | Confirmed(total: Cents, paidWith: PaymentMethod, paymentStatus: PaymentStatus)

  // ---------------------------------------------------------------------
  // Line items of one delivery
  // ---------------------------------------------------------------------

  /** The line items of delivery d, in table order (obj.entrega_produtos.all()). */
  function ItemsOf(items: seq<LineItem>, d: DeliveryId): (r: seq<LineItem>)
    ensures forall x :: x in r <==> x in items && x.delivery == d
  {
    if items == [] then []
    else (if items[0].delivery == d then [items[0]] else []) + ItemsOf(items[1..], d)
  }

  predicate DistinctProducts(items: seq<LineItem>) {
    forall i, j :: 0 <= i < j < |items| ==> items[i].product != items[j].product
  }

  /** Every item of items names a product of the table. */
  predicate Stocked(products: map<ProductId, Product>, items: seq<LineItem>) {
    forall i :: 0 <= i < |items| ==> items[i].product in products
  }

  /** unique_together on (delivery, product) means one delivery never lists a product twice. */
  lemma {:induction false} ItemsOfDistinct(items: seq<LineItem>, d: DeliveryId)
    requires UniqueLineItems(items)
    ensures DistinctProducts(ItemsOf(items, d))
  {
    if items != [] {
      var rest := ItemsOf(items[1..], d);
      assert UniqueLineItems(items[1..]) by {
        forall i, j | 0 <= i < j < |items[1..]|
          ensures items[1..][i].delivery != items[1..][j].delivery || items[1..][i].product != items[1..][j].product
        {
          assert items[1..][i] == items[i + 1] && items[1..][j] == items[j + 1];
        }
      }
      ItemsOfDistinct(items[1..], d);
      if items[0].delivery == d {
        forall k | 0 <= k < |rest| ensures rest[k].product != items[0].product {
          assert rest[k] in items[1..];
          var j :| 0 <= j < |items[1..]| && items[1..][j] == rest[k];
          assert items[j + 1] == rest[k];
        }
        var r := [items[0]] + rest;
        forall i, j | 0 <= i < j < |r| ensures r[i].product != r[j].product {
          if i == 0 {
            assert r[j] == rest[j - 1];
          } else {
            assert r[i] == rest[i - 1] && r[j] == rest[j - 1];
          }
        }
      } else {
        assert ItemsOf(items, d) == rest;
      }
    }
  }

  /** Foreign keys of the store make every item of a delivery name a stocked product. */
  lemma ItemsOfStocked(s: Store, d: DeliveryId)
    requires LineItemsLinked(s)
    ensures Stocked(s.products, ItemsOf(s.lineItems, d))
  {
    var items := ItemsOf(s.lineItems, d);
    forall k | 0 <= k < |items| ensures items[k].product in s.products {
      assert items[k] in s.lineItems;
      var i :| 0 <= i < |s.lineItems| && s.lineItems[i] == items[k];
    }
  }

  // ---------------------------------------------------------------------
  // 1. Stock check
  // ---------------------------------------------------------------------

  /** The item cannot be served: available stock is below the quantity ordered. */
  predicate Short(products: map<ProductId, Product>, it: LineItem)
    requires it.product in products
  {
    products[it.product].stock < it.quantity
  }

  /** The position of the first item that cannot be served, if any. */
  function FirstShortfall(products: map<ProductId, Product>, items: seq<LineItem>): (r: Option<nat>)
    requires Stocked(products, items)
    ensures r.Some? ==> r.value < |items| && Short(products, items[r.value])
    ensures r.Some? ==> forall j :: 0 <= j < r.value ==> !Short(products, items[j])
    ensures r.None? <==> forall j :: 0 <= j < |items| ==> !Short(products, items[j])
  {
    if items == [] then None
    else if Short(products, items[0]) then Some(0)
    else
      assert Stocked(products, items[1..]) by {
        forall i | 0 <= i < |items[1..]| ensures items[1..][i].product in products {
          assert items[1..][i] == items[i + 1];
        }
      }
      match FirstShortfall(products, items[1..])
      case None => None
      case Some(k) => Some(k + 1)
  }

  // ---------------------------------------------------------------------
  // 2. Stock decrement
  // ---------------------------------------------------------------------

  /** Total quantity of product p ordered across items. */
  function Qty(items: seq<LineItem>, p: ProductId): nat {
    if items == [] then 0
    else Qty(items[..|items| - 1], p)
         + (if items[|items| - 1].product == p then items[|items| - 1].quantity else 0)
  }

  /** The product table after it.product's stock is reduced by it.quantity. */
  function Take(products: map<ProductId, Product>, it: LineItem): map<ProductId, Product>
    requires it.product in products
  {
    products[it.product := products[it.product].(stock := products[it.product].stock - it.quantity)]
  }

  /** The product table after the items are taken out of stock one by one, in order. */
  function Decrement(products: map<ProductId, Product>, items: seq<LineItem>): (r: map<ProductId, Product>)
    requires Stocked(products, items)
    ensures r.Keys == products.Keys
  {
    if items == [] then products
    else
      var before := items[..|items| - 1];
      assert Stocked(products, before) by {
        forall i | 0 <= i < |before| ensures before[i].product in products {
          assert before[i] == items[i];
        }
      }
      Take(Decrement(products, before), items[|items| - 1])
  }

  /** Decrementing subtracts exactly the ordered quantity from each product and
      leaves every other field alone. */
  lemma {:induction false} DecrementExact(products: map<ProductId, Product>, items: seq<LineItem>, p: ProductId)
    requires Stocked(products, items)
    requires p in products
    ensures Decrement(products, items)[p] == products[p].(stock := products[p].stock - Qty(items, p))
  {
    if items != [] {
      var before := items[..|items| - 1];
      assert Stocked(products, before) by {
        forall i | 0 <= i < |before| ensures before[i].product in products {
          assert before[i] == items[i];
        }
      }
      DecrementExact(products, before, p);
    }
  }

  /** With distinct products, the quantity ordered of an item's product is that item's quantity. */
  lemma {:induction false} QtyOfDistinct(items: seq<LineItem>, k: nat)
    requires DistinctProducts(items)
    requires k < |items|
    ensures Qty(items, items[k].product) == items[k].quantity
  {
    var n := |items| - 1;
    var before := items[..n];
    if k == n {
      QtyAbsent(before, items[k].product);
    } else {
      assert before[k] == items[k];
      QtyOfDistinct(before, k);
    }
  }

  /** A product no item names is ordered zero times. */
  lemma {:induction false} QtyAbsent(items: seq<LineItem>, p: ProductId)
    requires forall i :: 0 <= i < |items| ==> items[i].product != p
    ensures Qty(items, p) == 0
  {
    if items != [] {
      var before := items[..|items| - 1];
      assert forall i :: 0 <= i < |before| ==> before[i] == items[i];
      QtyAbsent(before, p);
    }
  }

  /** Per product of a delivery with distinct products: the ordered item's
      quantity is subtracted, and products it does not name are untouched. */
  lemma DecrementPerProduct(products: map<ProductId, Product>, items: seq<LineItem>)
    requires Stocked(products, items)
    requires DistinctProducts(items)
    ensures forall k :: 0 <= k < |items| ==>
      Decrement(products, items)[items[k].product]
        == products[items[k].product].(stock := products[items[k].product].stock - items[k].quantity)
    ensures forall p :: p in products && (forall k :: 0 <= k < |items| ==> items[k].product != p) ==>
      Decrement(products, items)[p] == products[p]
  {
    forall k | 0 <= k < |items|
      ensures Decrement(products, items)[items[k].product]
        == products[items[k].product].(stock := products[items[k].product].stock - items[k].quantity)
    {
      DecrementExact(products, items, items[k].product);
      QtyOfDistinct(items, k);
    }
    forall p | p in products && (forall k :: 0 <= k < |items| ==> items[k].product != p)
      ensures Decrement(products, items)[p] == products[p]
    {
      DecrementExact(products, items, p);
      QtyAbsent(items, p);
    }
  }

  /** The stock check is enough to keep every stock non-negative, because a
      delivery lists each product at most once. */
  lemma DecrementNonNegative(products: map<ProductId, Product>, items: seq<LineItem>)
    requires Stocked(products, items)
    requires DistinctProducts(items)
    requires StockNonNegative(products)
    requires FirstShortfall(products, items) == None
    ensures StockNonNegative(Decrement(products, items))
    ensures PricesFit(products) ==> PricesFit(Decrement(products, items))
  {
    DecrementPerProduct(products, items);
    var r := Decrement(products, items);
    forall p | p in r ensures r[p].stock >= 0 && r[p].price == products[p].price {
      if k :| 0 <= k < |items| && items[k].product == p {
        assert !Short(products, items[k]);
      }
    }
  }

  /** Without the uniqueness constraint the check would not suffice: a product
      listed twice passes the check and is driven below zero. */
  lemma UniquenessNeeded()
    ensures var products := map[7 := Product("Gás 13kg", "", 12000, 1, 0)];
            var items := [LineItem(1, 7, 1), LineItem(1, 7, 1)];
            && !DistinctProducts(items)
            && FirstShortfall(products, items) == None
            && Decrement(products, items)[7].stock == -1
  {
    var products := map[7 := Product("Gás 13kg", "", 12000, 1, 0)];
    var items := [LineItem(1, 7, 1), LineItem(1, 7, 1)];
    assert items[1..] == [LineItem(1, 7, 1)] && items[1..][1..] == [];
    assert FirstShortfall(products, items[1..][1..]) == None;
    assert FirstShortfall(products, items[1..]) == None;
    assert items[..1] == [LineItem(1, 7, 1)] && items[..1][..0] == [];
    assert Decrement(products, items[..1])[7].stock == 0;
  }

  // ---------------------------------------------------------------------
  // 4. Total
  // ---------------------------------------------------------------------

  function LineValue(products: map<ProductId, Product>, it: LineItem): Cents
    requires it.product in products
  {
    products[it.product].price * it.quantity
  }

  /** Price times quantity summed over the items, starting from zero, in exact cents. */
  function Total(products: map<ProductId, Product>, items: seq<LineItem>): (r: Cents)
    requires Stocked(products, items)
    ensures (forall i :: 0 <= i < |items| ==> products[items[i].product].price >= 0) ==> r >= 0
  {
    if items == [] then 0
    else
      var before := items[..|items| - 1];
      assert Stocked(products, before) by {
        forall i | 0 <= i < |before| ensures before[i].product in products {
          assert before[i] == items[i];
        }
      }
      Total(products, before) + LineValue(products, items[|items| - 1])
  }

  /** The total of a concatenation is the sum of the totals. */
  lemma {:induction false} TotalAppend(products: map<ProductId, Product>, a: seq<LineItem>, b: seq<LineItem>)
    requires Stocked(products, a) && Stocked(products, b)
    ensures Stocked(products, a + b)
    ensures Total(products, a + b) == Total(products, a) + Total(products, b)
  {
    assert Stocked(products, a + b) by {
      forall i | 0 <= i < |a + b| ensures (a + b)[i].product in products {
        if i >= |a| { assert (a + b)[i] == b[i - |a|]; }
      }
    }
    if b != [] {
      var b' := b[..|b| - 1];
      assert Stocked(products, b') by {
        forall i | 0 <= i < |b'| ensures b'[i].product in products { assert b'[i] == b[i]; }
      }
      TotalAppend(products, a, b');
      assert (a + b)[..|a + b| - 1] == a + b';
    } else {
      assert a + b == a;
    }
  }

  /** The total depends only on the prices, so taking stock first does not change it. */
  lemma {:induction false} TotalSamePrices(p1: map<ProductId, Product>, p2: map<ProductId, Product>, items: seq<LineItem>)
    requires Stocked(p1, items) && Stocked(p2, items)
    requires forall i :: 0 <= i < |items| ==> p1[items[i].product].price == p2[items[i].product].price
    ensures Total(p1, items) == Total(p2, items)
  {
    if items != [] {
      var before := items[..|items| - 1];
      assert forall i :: 0 <= i < |before| ==> before[i] == items[i];
      TotalSamePrices(p1, p2, before);
    }
  }

  // ---------------------------------------------------------------------
  // 5. Payment upsert, and the payment policy that precedes it
  // ---------------------------------------------------------------------

  /** Fiado leaves the payment pending; every other method is paid at once. */
  function PaymentStatusFor(m: PaymentMethod): (st: PaymentStatus)
    ensures st == PaymentStatus.Pending <==> m == Fiado
    ensures st == Paid <==> m != Fiado
  {
    if m == Fiado then PaymentStatus.Pending else Paid
  }

  /** Fiado records no payment date; every other method is dated now. */
  function PaidAtFor(m: PaymentMethod, now: Timestamp): (t: Option<Timestamp>)
    ensures t.None? <==> m == Fiado
    ensures t.Some? ==> t.value == now
  {
    if m == Fiado then None else Some(now)
  }

  /** Update delivery d's payment in place if it has one, otherwise create one
      under the next payment id. Returns the payments and the next id. */
  function UpsertPayment(payments: map<DeliveryId, Payment>, nextId: PaymentId, d: DeliveryId,
                         m: PaymentMethod, amount: Cents, st: PaymentStatus,
                         paidAt: Option<Timestamp>): (r: (map<DeliveryId, Payment>, PaymentId))
    ensures r.0.Keys == payments.Keys + {d}
    ensures d in r.0 && r.0[d].paidWith == m && r.0[d].amount == amount
    ensures r.0[d].status == st && r.0[d].paidAt == paidAt
    ensures d in payments ==> r.0[d].id == payments[d].id && r.1 == nextId
    ensures d !in payments ==> r.0[d].id == nextId && r.1 == nextId + 1
    ensures forall e :: e in payments && e != d ==> r.0[e] == payments[e]
  {
    if d in payments then
      (payments[d := payments[d].(paidWith := m, amount := amount, status := st, paidAt := paidAt)], nextId)
    else
      (payments[d := Payment(nextId, amount, m, paidAt, st)], nextId + 1)
  }

  // ---------------------------------------------------------------------
  // The change-form handler
  // ---------------------------------------------------------------------

  /** Writing delivery d's status: only that one field of that one row changes. */
  function SetStatus(s: Store, d: DeliveryId, st: DeliveryStatus): (r: Store)
    requires d in s.deliveries
    ensures r.deliveries.Keys == s.deliveries.Keys && r.deliveries[d].status == st
    ensures r.deliveries[d].(status := s.deliveries[d].status) == s.deliveries[d]
    ensures forall e :: e in s.deliveries && e != d ==> r.deliveries[e] == s.deliveries[e]
    ensures r.(deliveries := s.deliveries) == s
  {
    s.(deliveries := s.deliveries[d := s.deliveries[d].(status := st)])
  }

  /** The "delivered" action past its stock check: take the items out of
      stock, set ENTREGUE, total the items and upsert the payment. */
  function CompleteDelivery(s: Store, d: DeliveryId, m: PaymentMethod, now: Timestamp,
                            items: seq<LineItem>): (r: (Store, Outcome))
    requires d in s.deliveries
    requires Stocked(s.products, items)
    ensures r.1.Confirmed? && r.1.paidWith == m
    ensures r.0.deliveries.Keys == s.deliveries.Keys && r.0.deliveries[d].status == Delivered
    ensures d in r.0.payments && r.0.payments[d].amount == r.1.total
            && r.0.payments[d].paidWith == m && r.0.payments[d].status == r.1.paymentStatus
    ensures r.0.customers == s.customers && r.0.drivers == s.drivers && r.0.lineItems == s.lineItems
  {
    var products := Decrement(s.products, items);
    var total := Total(products, items);
    var st := PaymentStatusFor(m);
    var (payments, nextId) := UpsertPayment(s.payments, s.nextPaymentId, d, m, total, st, PaidAtFor(m, now));
    (s.(products := products,
        deliveries := s.deliveries[d := s.deliveries[d].(status := Delivered)],
        payments := payments,
        nextPaymentId := nextId),
     Confirmed(total, m, st))
  }

  /** The "delivered" action with a method chosen, on an existing delivery:
      the stock check refuses the whole action, or the delivery completes. */
  function MarkDelivered(s: Store, d: DeliveryId, m: PaymentMethod, now: Timestamp): (r: (Store, Outcome))
    requires LineItemsLinked(s)
    requires d in s.deliveries
    ensures r.1.InsufficientStock? || r.1.Confirmed?
    ensures r.1.InsufficientStock? ==> r.0 == s
    ensures r.0.deliveries.Keys == s.deliveries.Keys
    ensures r.0.customers == s.customers && r.0.drivers == s.drivers && r.0.lineItems == s.lineItems
    ensures r.1.Confirmed? ==> r.1.paidWith == m && r.0.deliveries[d].status == Delivered
  {
    var items := ItemsOf(s.lineItems, d);
    ItemsOfStocked(s, d);
    match FirstShortfall(s.products, items)
    case Some(k) =>
      (s, InsufficientStock(items[k].product, s.products[items[k].product].stock, items[k].quantity))
    case None =>
      CompleteDelivery(s, d, m, now, items)
  }

  /** One POST to the delivery change form. The action flags are tested in
      order: in transit, then cancelled, then delivered. */
  function Handle(s: Store, req: Request): (r: (Store, Outcome))
    requires Valid(s)
    ensures r.0.deliveries.Keys == s.deliveries.Keys
    ensures (r.1.DefaultView? || r.1.NoSuchDelivery? || r.1.MissingMethod? || r.1.InsufficientStock?) ==> r.0 == s
    ensures (r.1.StatusSet? || r.1.Confirmed?) ==>
              && req.isPost && req.objectId.Some? && req.objectId.value in s.deliveries
              && r.0.deliveries[req.objectId.value].status == (if r.1.StatusSet? then r.1.status else Delivered)
    ensures r.1.StatusSet? ==> r.1.status == (if req.inTransit then InTransit else Cancelled)
    ensures r.1.Confirmed? ==> !req.inTransit && !req.cancel && req.delivered && req.metodo == Some(r.1.paidWith)
    ensures r.0.customers == s.customers && r.0.drivers == s.drivers && r.0.lineItems == s.lineItems
  {
    if !req.isPost || req.objectId.None? then (s, DefaultView)
    else
      var d := req.objectId.value;
      if req.inTransit then
        if d in s.deliveries then (SetStatus(s, d, InTransit), StatusSet(InTransit)) else (s, NoSuchDelivery)
      else if req.cancel then
        if d in s.deliveries then (SetStatus(s, d, Cancelled), StatusSet(Cancelled)) else (s, NoSuchDelivery)
      else if req.delivered then
        if req.metodo.None? then (s, MissingMethod)
        else if d !in s.deliveries then (s, NoSuchDelivery)
        else MarkDelivered(s, d, req.metodo.value, req.now)
      else (s, DefaultView)
  }

  // ---------------------------------------------------------------------
  // Properties of the handler
  // ---------------------------------------------------------------------

  /** A payment the delivered action creates for FIADO is exactly a payment
      with the declared defaults: PENDENTE and no payment date. */
  lemma FiadoCreatesDefaultPayment(payments: map<DeliveryId, Payment>, nextId: PaymentId,
                                   d: DeliveryId, amount: Cents, now: Timestamp)
    requires d !in payments
    ensures UpsertPayment(payments, nextId, d, Fiado, amount, PaymentStatusFor(Fiado),
                          PaidAtFor(Fiado, now)).0[d] == NewPayment(nextId, amount, Fiado)
  {
  }

  /** A request that reaches the delivered branch with a method, on an existing delivery. */
  predicate DeliversWithMethod(s: Store, req: Request) {
    && req.isPost && req.objectId.Some? && !req.inTransit && !req.cancel && req.delivered
    && req.metodo.Some? && req.objectId.value in s.deliveries
  }

  /** A delivered request whose stock check finds no shortfall. */
  predicate DeliversInFull(s: Store, req: Request)
    requires Valid(s)
  {
    DeliversWithMethod(s, req) &&
    (ItemsOfStocked(s, req.objectId.value);
     FirstShortfall(s.products, ItemsOf(s.lineItems, req.objectId.value)) == None)
  }

  /** Writing a delivery's status keeps the store valid. */
  lemma SetStatusPreservesValid(s: Store, d: DeliveryId, st: DeliveryStatus)
    requires Valid(s)
    requires d in s.deliveries
    ensures Valid(SetStatus(s, d, st))
  {
    var t := SetStatus(s, d, st);
    assert t.deliveries.Keys == s.deliveries.Keys;
    assert DeliveriesLinked(t) by {
      forall e | e in t.deliveries
        ensures t.deliveries[e].customer == s.deliveries[e].customer && t.deliveries[e].driver == s.deliveries[e].driver
      {
      }
    }
  }

  /** The payment table after an upsert for d still links payments to
      deliveries and never shares a row between two deliveries. */
  lemma UpsertKeepsPaymentsValid(s: Store, t: Store, d: DeliveryId)
    requires PaymentsLinked(s) && PaymentIdsUnique(s.payments)
    requires d in s.deliveries && t.deliveries.Keys == s.deliveries.Keys
    requires t.payments.Keys == s.payments.Keys + {d}
    requires forall e :: e in s.payments && e != d ==> t.payments[e] == s.payments[e]
    requires d in s.payments ==> t.payments[d].id == s.payments[d].id && t.nextPaymentId == s.nextPaymentId
    requires d !in s.payments ==> t.payments[d].id == s.nextPaymentId && t.nextPaymentId == s.nextPaymentId + 1
    ensures PaymentsLinked(t) && PaymentIdsUnique(t.payments)
  {
    forall d1, d2 | d1 in t.payments && d2 in t.payments && d1 != d2
      ensures t.payments[d1].id != t.payments[d2].id
    {
      if d1 != d && d2 != d {
        assert t.payments[d1] == s.payments[d1] && t.payments[d2] == s.payments[d2];
      }
    }
  }

  /** Completing a delivery keeps the store valid: in particular the stock
      check, with one line item per product, keeps every stock non-negative. */
  lemma MarkDeliveredPreservesValid(s: Store, d: DeliveryId, m: PaymentMethod, now: Timestamp)
    requires Valid(s)
    requires d in s.deliveries
    ensures Valid(MarkDelivered(s, d, m, now).0)
  {
    var items := ItemsOf(s.lineItems, d);
    ItemsOfStocked(s, d);
    if FirstShortfall(s.products, items) == None {
      ItemsOfDistinct(s.lineItems, d);
      DecrementNonNegative(s.products, items);
      var products := Decrement(s.products, items);
      var up := UpsertPayment(s.payments, s.nextPaymentId, d, m, Total(products, items),
                              PaymentStatusFor(m), PaidAtFor(m, now));
      var t := s.(products := products,
                  deliveries := s.deliveries[d := s.deliveries[d].(status := Delivered)],
                  payments := up.0,
                  nextPaymentId := up.1);
      assert MarkDelivered(s, d, m, now).0 == t;
      UpsertKeepsPaymentsValid(s, t, d);
      SetStatusPreservesValid(s, d, Delivered);
      var u := SetStatus(s, d, Delivered);
      assert t == u.(products := products, payments := up.0, nextPaymentId := up.1);
      assert LineItemsLinked(t) by {
        assert LineItemsLinked(u);
      }
      assert DeliveriesLinked(t) by {
        assert DeliveriesLinked(u);
      }
      assert UniqueEmails(t.customers) && UniqueLineItems(t.lineItems);
      assert StockNonNegative(t.products) && PricesFit(t.products);
    }
  }

  /** Every request keeps the schema's constraints, non-negative stock included. */
  lemma HandlePreservesValid(s: Store, req: Request)
    requires Valid(s)
    ensures Valid(Handle(s, req).0)
  {
    if req.isPost && req.objectId.Some? {
      var d := req.objectId.value;
      if req.inTransit || req.cancel {
        if d in s.deliveries {
          SetStatusPreservesValid(s, d, if req.inTransit then InTransit else Cancelled);
        }
      } else if req.delivered && req.metodo.Some? && d in s.deliveries {
        MarkDeliveredPreservesValid(s, d, req.metodo.value, req.now);
      }
    }
  }

  /** In transit and cancel only write the status, from any status, and win
      over the actions tested after them. */
  lemma StatusActions(s: Store, req: Request)
    requires Valid(s)
    requires req.isPost && req.objectId.Some? && req.objectId.value in s.deliveries
    requires req.inTransit || req.cancel
    ensures var d := req.objectId.value;
            var (t, out) := Handle(s, req);
            var st := if req.inTransit then InTransit else Cancelled;
            && out == StatusSet(st)
            && d in t.deliveries && t.deliveries[d].status == st
            && t == s.(deliveries := t.deliveries)
            && t.deliveries == s.deliveries[d := s.deliveries[d].(status := st)]
  {
  }

  /** Delivered with no method chosen changes nothing. */
  lemma MissingMethodNoChange(s: Store, req: Request)
    requires Valid(s)
    requires req.isPost && req.objectId.Some? && !req.inTransit && !req.cancel && req.delivered
    requires req.metodo.None?
    ensures Handle(s, req) == (s, MissingMethod)
  {
  }

  /** A shortfall on any item aborts with nothing changed, and the item
      reported is the first one that cannot be served. */
  lemma ShortfallNoChange(s: Store, req: Request, k: nat)
    requires Valid(s)
    requires DeliversWithMethod(s, req)
    requires k < |ItemsOf(s.lineItems, req.objectId.value)|
    requires var it := ItemsOf(s.lineItems, req.objectId.value)[k];
             it.product in s.products && s.products[it.product].stock < it.quantity
    ensures var items := ItemsOf(s.lineItems, req.objectId.value);
            exists j :: 0 <= j <= k && Handle(s, req) == (s, InsufficientStock(items[j].product,
                                                         s.products[items[j].product].stock, items[j].quantity))
                      && s.products[items[j].product].stock < items[j].quantity
                      && forall i :: 0 <= i < j ==> s.products[items[i].product].stock >= items[i].quantity
  {
    var d := req.objectId.value;
    var items := ItemsOf(s.lineItems, d);
    ItemsOfStocked(s, d);
    var r := FirstShortfall(s.products, items);
    assert r.Some? by { assert Short(s.products, items[k]); }
    assert r.value <= k;
  }

  /** A successful delivery sets status ENTREGUE, reduces each ordered
      product's stock by exactly that item's quantity, touches no other
      product, leaves every stock non-negative and changes no other table. */
  lemma DeliveredStock(s: Store, req: Request)
    requires Valid(s)
    requires DeliversInFull(s, req)
    ensures var d := req.objectId.value;
            var items := ItemsOf(s.lineItems, d);
            var t := Handle(s, req).0;
            && Stocked(s.products, items)
            && t.deliveries == s.deliveries[d := s.deliveries[d].(status := Delivered)]
            && t.products.Keys == s.products.Keys
            && (forall k :: 0 <= k < |items| ==>
                  t.products[items[k].product]
                    == s.products[items[k].product].(stock := s.products[items[k].product].stock - items[k].quantity))
            && (forall p :: p in s.products && (forall k :: 0 <= k < |items| ==> items[k].product != p) ==>
                  t.products[p] == s.products[p])
            && StockNonNegative(t.products)
            && t.lineItems == s.lineItems && t.customers == s.customers && t.drivers == s.drivers
  {
    var d := req.objectId.value;
    var items := ItemsOf(s.lineItems, d);
    ItemsOfStocked(s, d);
    ItemsOfDistinct(s.lineItems, d);
    DecrementPerProduct(s.products, items);
    DecrementNonNegative(s.products, items);
  }

  /** A successful delivery leaves the delivery's payment holding the exact
      total, the chosen method, and the status and date the method calls for:
      Fiado is pending with no date, every other method is paid now. */
  lemma DeliveredPayment(s: Store, req: Request)
    requires Valid(s)
    requires DeliversInFull(s, req)
    ensures var d := req.objectId.value;
            var items := ItemsOf(s.lineItems, d);
            var (t, out) := Handle(s, req);
            var m := req.metodo.value;
            && Stocked(s.products, items)
            && d in t.payments
            && t.payments[d].amount == Total(s.products, items)
            && t.payments[d].paidWith == m
            && t.payments[d].status == (if m == Fiado then PaymentStatus.Pending else Paid)
            && t.payments[d].paidAt == (if m == Fiado then None else Some(req.now))
            && out == Confirmed(t.payments[d].amount, m, t.payments[d].status)
  {
    var d := req.objectId.value;
    var items := ItemsOf(s.lineItems, d);
    ItemsOfStocked(s, d);
    var products := Decrement(s.products, items);
    forall i | 0 <= i < |items| ensures products[items[i].product].price == s.products[items[i].product].price {
      DecrementExact(s.products, items, items[i].product);
    }
    TotalSamePrices(products, s.products, items);
  }

  /** The payment is upserted: a delivery that had a payment keeps that same
      row (same id, no id consumed) and every other delivery's payment is
      untouched; a delivery without one gets a row whose id no other payment has. */
  lemma DeliveredUpsertsOnePayment(s: Store, req: Request)
    requires Valid(s)
    requires DeliversInFull(s, req)
    ensures var d := req.objectId.value;
            var t := Handle(s, req).0;
            && t.payments.Keys == s.payments.Keys + {d}
            && (forall e :: e in s.payments && e != d ==> t.payments[e] == s.payments[e])
            && (d in s.payments ==> t.payments[d].id == s.payments[d].id && t.nextPaymentId == s.nextPaymentId)
            && (d !in s.payments ==> t.payments[d].id == s.nextPaymentId && t.nextPaymentId == s.nextPaymentId + 1)
            && (d !in s.payments ==> forall e :: e in s.payments ==> t.payments[d].id != s.payments[e].id)
  {
  }

  /** Delivering twice is not guarded: the second run takes the stock again,
      while the payment stays the single row the first run left. */
  lemma RepeatedDeliveryTakesStockAgain(s: Store, req: Request, t1: Store, t2: Store)
    requires Valid(s)
    requires DeliversInFull(s, req)
    requires t1 == Handle(s, req).0
    requires (HandlePreservesValid(s, req); DeliversInFull(t1, req))
    requires t2 == Handle(t1, req).0
    ensures var d := req.objectId.value;
            var items := ItemsOf(s.lineItems, d);
            && (forall k :: 0 <= k < |items| ==>
                  items[k].product in s.products && items[k].product in t2.products &&
                  t2.products[items[k].product].stock == s.products[items[k].product].stock - 2 * items[k].quantity)
            && d in t2.deliveries && t2.deliveries[d].status == Delivered
            && d in t1.payments && t2.payments.Keys == t1.payments.Keys
            && t2.payments[d].id == t1.payments[d].id
            && t2.nextPaymentId == t1.nextPaymentId
  {
    HandlePreservesValid(s, req);
    var d := req.objectId.value;
    var items := ItemsOf(s.lineItems, d);
    DeliveredStock(s, req);
    assert ItemsOf(t1.lineItems, d) == items;
    DeliveredStock(t1, req);
    forall k | 0 <= k < |items|
      ensures items[k].product in s.products && items[k].product in t2.products
      ensures t2.products[items[k].product].stock == s.products[items[k].product].stock - 2 * items[k].quantity
    {
      var p := items[k].product;
      assert t1.products[p].stock == s.products[p].stock - items[k].quantity;
      assert t2.products[p].stock == t1.products[p].stock - items[k].quantity;
    }
    DeliveredUpsertsOnePayment(s, req);
    DeliveredUpsertsOnePayment(t1, req);
  }

  /** A customer with one pending delivery of 2 x water at 10.00 (stock 5)
      and 1 x gas at 120.00 (stock 1), and no payment yet. */
  function ExampleStore(): (s: Store)
    ensures Valid(s)
  {
    Store(map[1 := Customer("C1", "Rua das Flores, 123", "11999990001", "c1@example.com", 0)],
          map[],
          map[10 := Product("Água Mineral 20L", "Galão 20 litros", 1000, 5, 0),
              20 := Product("Gás de Cozinha 13kg", "Botijão P13", 12000, 1, 0)],
          map[1 := Delivery(1, None, 0, 0, DeliveryStatus.Pending, "Rua das Flores, 123")],
          [LineItem(1, 10, 2), LineItem(1, 20, 1)],
          map[], 0)
  }

  /** The example delivery's items, as its line items list them: 2 x water
      at 10.00 and 1 x gas at 120.00, both in stock, 140.00 in all. */
  lemma ExampleItems()
    ensures ItemsOf(ExampleStore().lineItems, 1) == [LineItem(1, 10, 2), LineItem(1, 20, 1)]
    ensures (ItemsOfStocked(ExampleStore(), 1);
             && FirstShortfall(ExampleStore().products, ItemsOf(ExampleStore().lineItems, 1)) == None
             && Total(ExampleStore().products, ItemsOf(ExampleStore().lineItems, 1)) == 14000)
  {
    var s := ExampleStore();
    var items := [LineItem(1, 10, 2), LineItem(1, 20, 1)];
    assert ItemsOf(s.lineItems, 1) == items by {
      assert s.lineItems[1..] == [LineItem(1, 20, 1)];
      assert s.lineItems[1..][1..] == [];
    }
    assert items[1..] == [LineItem(1, 20, 1)] && items[1..][1..] == [];
    assert items[..1] == [LineItem(1, 10, 2)] && items[..1][..0] == [];
  }

  /** The worked example: delivered by PIX, stock 5 and 1 becomes 3 and 0, and
      one paid payment of exactly 140.00 is created. */
  lemma DeliveryExample(now: Timestamp, t: Store, out: Outcome)
    requires (t, out) == Handle(ExampleStore(), Request(true, Some(1), false, false, true, Some(Pix), now))
    ensures 10 in t.products && t.products[10].stock == 3
    ensures 20 in t.products && t.products[20].stock == 0
    ensures 1 in t.deliveries && t.deliveries[1].status == Delivered
    ensures t.payments == map[1 := Payment(0, 14000, Pix, Some(now), Paid)]
    ensures out == Confirmed(14000, Pix, Paid)
  {
    var s := ExampleStore();
    var req := Request(true, Some(1), false, false, true, Some(Pix), now);
    var items := [LineItem(1, 10, 2), LineItem(1, 20, 1)];
    ExampleItems();
    assert (t, out) == CompleteDelivery(s, 1, Pix, now, items);
    var products := Decrement(s.products, items);
    assert items[..1] == [LineItem(1, 10, 2)] && items[..1][..0] == [];
    DecrementExact(s.products, items, 10);
    DecrementExact(s.products, items, 20);
    TotalSamePrices(s.products, products, items);
  }
}
