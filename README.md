# Delivery back office: verified model of the delivery-completion workflow

This project models the core of a small back-office application for a water-and-gas
delivery distributor. Staff move a delivery (an *entrega*) through its statuses from
the delivery change form. Marking a delivery as delivered (*entregue*) takes the ordered
quantities out of product stock. It then records the delivery's single payment
(*pagamento*), whose status depends on the payment method.

The model is written in Dafny in three modules:

- `Models` (`models.dfy`, from `core/models.py`): the status and payment-method choice
  lists as datatypes, each with its stored code and a parser; the payment status also
  carries its display label, which the payment-status column shows. It also holds the
  records (customer, product, driver, delivery, line item, payment), constructor functions
  with the declared defaults for product, delivery, line item and payment, and a `Store`
  value for the tables. `Models.Valid` is one store invariant made of the schema's
  constraints:
  - e-mails are unique;
  - stock is non-negative;
  - prices fit `DecimalField(10, 2)`;
  - (delivery, product) is unique among line items;
  - foreign keys point to existing rows;
  - each delivery has at most one payment, because payments are keyed by delivery
    (the `OneToOneField`);
  - no two payments share a row id.
- `Workflow` (`workflow.dfy`): the change-form handler as a pure specification.
  `Workflow.Handle` maps a store and a request to the new store and the outcome shown
  to the operator. The lemmas beside it state what the handler promises.
- `Admin` (`admin.dfy`, from `core/admin.py`): the class `DeliveryAdmin`, which holds
  the tables as mutable fields. Its `ChangeformView` method tests the buttons and writes
  the in-transit and cancelled statuses itself. For the delivered action it calls
  `MarkDelivered`, which runs the stock-check loop (`CheckStock`) and then
  `CompleteDelivery`: the decrement loop (`DecrementStock`), an inline write of the
  ENTREGUE status, the total loop (`ComputeTotal`) and the payment upsert (`SavePayment`).
  The four loop and upsert methods are each proved against the matching `Workflow`
  function; `CompleteDelivery`, `MarkDelivered` and `ChangeformView` are proved to leave
  the tables exactly as `Workflow.CompleteDelivery`, `Workflow.MarkDelivered` and
  `Workflow.Handle` say.
  The module also holds the pure helpers behind the list columns.

Money is held as integer cents, so the total is exact. Stock is an `int` in the model.
That makes "stock never goes negative" a proved invariant rather than a type. The proof
needs the (delivery, product) uniqueness constraint: `Workflow.UniquenessNeeded` shows
a product listed twice would pass the stock check and still go below zero.

The clock (`timezone.now()`) is a `now` parameter of the request. Which buttons were
pressed and the chosen method are fields of the request. A method that is absent or
empty is `None`.

## Model

| member | source | states |
|---|---|---|
| `Models.ParseDeliveryStatus` | core/models.py:36-41 | a stored delivery status code is one of PENDENTE, EM_TRANSITO, ENTREGUE, CANCELADA and reads back as the status with that code; any other code is rejected |
| `Models.ParsePaymentMethod` | core/models.py:65-71 | the method codes are exactly DINHEIRO, CARTAO, PIX, BOLETO, FIADO; a listed code reads back as its method, anything else is rejected |
| `Models.ParsePaymentStatus` | core/models.py:73-77 | the payment status codes are exactly PENDENTE, PAGO, FALHA, with the same reading back |
| `Models.CodesRoundTrip` | core/models.py:36-77 | every status, method and payment status reads back from its own stored code |
| `Models.NewProduct` | core/models.py:14-19 | a new product starts with stock 0 and the given price |
| `Models.NewDelivery` | core/models.py:47 | a new delivery starts PENDENTE |
| `Models.NewLineItem` | core/models.py:56 | a new line item orders quantity 1 |
| `Models.NewPayment` | core/models.py:79-83 | a new payment starts PENDENTE with no payment date, for the given amount and method |
| `Workflow.ItemsOf` | core/admin.py:148 | the delivery's line items are exactly the table's items that belong to that delivery |
| `Workflow.ItemsOfDistinct` | core/models.py:58-59 | with (delivery, product) unique, no product appears twice among one delivery's items |
| `Workflow.ItemsOfStocked` | core/models.py:53-55 | every item of a delivery names an existing product |
| `Workflow.FirstShortfall` | core/admin.py:148-156 | the stock check finds the first item, in order, whose product's stock is below its quantity, and finds none exactly when every item can be served |
| `Workflow.Decrement` | core/admin.py:161-163 | taking the items out of stock keeps the same set of products |
| `Workflow.DecrementExact` | core/admin.py:161-163 | each product's stock drops by the total quantity ordered of it, and no other field of the product changes |
| `Workflow.DecrementPerProduct` | core/admin.py:161-163 | with one item per product, each ordered product's stock drops by exactly that item's quantity and every other product is unchanged |
| `Workflow.DecrementNonNegative` | core/admin.py:148-163 | after a passed stock check on distinct products, every stock is still non-negative and prices still fit their column |
| `Workflow.UniquenessNeeded` | core/models.py:58-59 | without the uniqueness constraint a product listed twice passes the check and reaches stock -1 |
| `Workflow.Total` | core/admin.py:174-176 | the total is the sum of price times quantity from 0 in exact cents; it is non-negative when the prices are |
| `Workflow.TotalAppend` | core/admin.py:174-176 | the total of two runs of items is the sum of their totals |
| `Workflow.TotalSamePrices` | core/admin.py:174-176 | the total depends only on prices, so summing after the decrement gives the total at the old prices |
| `Workflow.PaymentStatusFor` | core/admin.py:179-188 | the payment is PENDENTE exactly for FIADO and PAGO for every other method; it is never FALHA |
| `Workflow.PaidAtFor` | core/admin.py:179-188 | the payment date is unset exactly for FIADO, and otherwise is the current time |
| `Workflow.UpsertPayment` | core/admin.py:193-208 | an existing payment keeps its id and gets the new method, amount, status and date; otherwise a payment is created under the next id; other deliveries' payments do not change |
| `Workflow.SetStatus` | core/admin.py:128-138 | a status write sets that delivery's status; no other field of it, no other delivery and no other table changes |
| `Workflow.CompleteDelivery` | core/admin.py:158-208 | once the check has passed the outcome is a confirmation for the chosen method; the delivery is ENTREGUE and its payment holds the reported total, method and status; customers, drivers and line items are unchanged (the exact stock and payment effects are in `DeliveredStock` and `DeliveredPayment`) |
| `Workflow.MarkDelivered` | core/admin.py:140-213 | the delivered action either reports a shortfall and changes nothing, or confirms for the chosen method and sets ENTREGUE; customers, drivers, line items and the set of deliveries never change |
| `Workflow.Handle` | core/admin.py:123-219 | every outcome other than a status change or a confirmation leaves the store unchanged; a status change or a confirmation needs a POST on an existing delivery and leaves it in the reported status (ENTREGUE for a confirmation); in transit is reported before cancel; a confirmation needs neither earlier button and reports the requested method; customers, drivers, line items and delivery ids never change (per-action detail in `StatusActions`, `MissingMethodNoChange`, `ShortfallNoChange`, `DeliveredStock`, `DeliveredPayment`) |
| `Workflow.FiadoCreatesDefaultPayment` | core/admin.py:202-208 | a payment the delivered action creates for FIADO is exactly `NewPayment`: the declared defaults PENDENTE and no date |
| `Workflow.SetStatusPreservesValid` | core/admin.py:128-138 | writing a delivery's status keeps every constraint of the store |
| `Workflow.UpsertKeepsPaymentsValid` | core/models.py:79 | after the upsert every payment still belongs to a delivery and no two deliveries share a payment row |
| `Workflow.MarkDeliveredPreservesValid` | core/admin.py:140-213 | completing a delivery keeps every constraint of the store, non-negative stock included |
| `Workflow.HandlePreservesValid` | core/admin.py:123-219 | every request to the change form keeps every constraint of the store |
| `Workflow.StatusActions` | core/admin.py:128-138 | in transit and cancel set EM_TRANSITO or CANCELADA from any status, in-transit checked before cancel and both before delivered, and change nothing but that status |
| `Workflow.MissingMethodNoChange` | core/admin.py:140-143 | delivered with no payment method changes nothing and asks for a method |
| `Workflow.ShortfallNoChange` | core/admin.py:148-156 | if any item is short the store is unchanged and the reported product, available stock and required quantity are those of the first short item |
| `Workflow.DeliveredStock` | core/admin.py:161-169 | on success the status is ENTREGUE, each ordered product loses exactly its item's quantity, other products and tables are unchanged, and all stock stays non-negative |
| `Workflow.DeliveredPayment` | core/admin.py:174-208 | on success the delivery's payment holds the exact total and the chosen method, is PENDENTE with no date for FIADO and PAGO dated now otherwise, and the operator is told that total and status |
| `Workflow.DeliveredUpsertsOnePayment` | core/admin.py:193-208 | on success the delivery has exactly one payment: an existing row is updated with the same id and no id used up, otherwise one new row gets a fresh id; other payments are untouched |
| `Workflow.RepeatedDeliveryTakesStockAgain` | core/admin.py:140-208 | delivering the same delivery twice is not refused: stock drops by twice the quantities while the payment stays the one row |
| `Workflow.ExampleItems` | core/admin.py:148-176 | the example delivery lists 2 x water and 1 x gas, passes the stock check and totals 140.00 |
| `Workflow.DeliveryExample` | core/admin.py:140-213 | water 2 x 10.00 (stock 5) and gas 1 x 120.00 (stock 1) delivered by PIX leave stock 3 and 0 and one payment of 140.00, PAGO, dated now |
| `Admin.DeliveryAdmin.CheckStock` | core/admin.py:148-156 | the check loop stops at the first item that cannot be served, which is the one `FirstShortfall` specifies |
| `Admin.DeliveryAdmin.DecrementStock` | core/admin.py:161-163 | the decrement loop leaves the product table as `Decrement` of the old one |
| `Admin.DeliveryAdmin.ComputeTotal` | core/admin.py:174-176 | the summing loop returns `Total` of the items |
| `Admin.DeliveryAdmin.SavePayment` | core/admin.py:193-208 | the payment update-or-create leaves the payments as `UpsertPayment` says |
| `Admin.DeliveryAdmin.MarkDelivered` | core/admin.py:140-213 | the delivered action runs the check loop and then completes the delivery, leaving the tables exactly as `Workflow.MarkDelivered` says and keeping the store invariant |
| `Admin.DeliveryAdmin.CompleteDelivery` | core/admin.py:158-208 | decrement, ENTREGUE write, total and upsert, in source order, leave the tables exactly as `Workflow.CompleteDelivery` says |
| `Admin.DeliveryAdmin.ChangeformView` | core/admin.py:123-219 | the change form updates the tables exactly as `Handle` says and keeps the store invariant |
| `Admin.Summarize` | core/admin.py:49-50 | text of at most 40 characters is returned unchanged; longer text becomes its first 40 characters followed by "..." (43 in all) |
| `Admin.SummarizeBounded` | core/admin.py:49-50 | a summary is at most 43 characters long and starts with the text's own first characters |
| `Admin.SummarizeIdempotent` | core/admin.py:49-50 | summarizing a summary changes nothing |
| `Admin.AddressSummary` | core/admin.py:49-50 | the customer address column is at most 43 characters, and is the address itself with at most 40 characters exactly when the address has at most 40 characters |
| `Admin.DescriptionSummary` | core/admin.py:82-83 | the product description column is at most 43 characters, and is the description itself with at most 40 characters exactly when the description has at most 40 characters |
| `Admin.PaymentStatusColumn` | core/admin.py:238-246 | the payment status column is "-" exactly when there is no payment, and otherwise the status's icon (✅ for PAGO, ⏳ for PENDENTE, ❌ for FALHA), a space and the payment status's label |
| `Admin.PaymentStatusColumnInjective` | core/admin.py:238-246 | two deliveries show the same payment status column only if both have no payment or both have payments of the same status |
| `Admin.DeliveredColumn` | core/admin.py:249-250 | the delivered column shows a tick exactly for ENTREGUE deliveries and a cross otherwise |

## Left out

- The address lookup endpoint (`core/views.py`, `core/urls.py`) is not part of this model. It is an ORM query that returns an empty string for an unknown customer.
- The seed command (`core/management/commands/seed.py`) is not part of this model. It only fills development data and writes progress lines.
- Presentation settings are not modelled: list, search and filter settings, fieldsets, `get_exclude`, `CustomDateFilter`, the HTML of `status_colorido`, `preco_formatado`, `valor_formatado`, `get_produtos`, `get_quantidades`, `get_valor` and `get_metodo_pagamento`.
- Message text is not modelled: the emoji, the wording and the `R$ …:.2f` formatting. The outcome carries the data the messages show.
- A request with no action button, or one that is not a POST, goes to the framework's own change form. That form can edit the delivery and its line items. The model reports `DefaultView` and leaves the tables unchanged.
- In the source, an object id that names no delivery makes `get_object` return nothing. In transit, cancel, and delivered with a method chosen then fail on the missing object. Delivered without a method never touches the object and asks for a method (`MissingMethod`), and a request with no action button goes to the framework's form (`DefaultView`), as in the model. The model reports `NoSuchDelivery` and changes nothing. No table was written before that failure.
- A non-empty method code outside the choice list is not modelled: the request carries a `PaymentMethod` or nothing. In the source such a code is saved unchecked. When no payment exists yet, it then raises a `KeyError` at core/admin.py:209, after stock was already taken.
- Persistence is not modelled: `save()`, cascade and SET_NULL deletes, and `auto_now_add` timestamps. Timestamps are plain fields and the clock is a parameter.
- Concurrency is not modelled. The source takes no lock and opens no transaction around check, decrement and upsert, so two concurrent requests could both pass the stock check. The model runs requests one after another.
- The workflow reads the delivery's line items three times. The model reads them once and assumes all three reads see the same rows in the same order.
- `Workflow.UpsertPayment`: the computed amount is not checked against the ten-digit limit of its column. What the database does with an amount that is too wide is not modelled.
- `__str__` of every model is left out, because it is display text only.

Two choices follow the code:
- Line-item quantity is a `nat`, because `PositiveIntegerField` admits 0.
- In transit and cancel are allowed from any status, ENTREGUE and CANCELADA included. The code does not treat those statuses as final.
