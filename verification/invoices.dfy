/**
  Checkout: whether the order's stored invoice can be reused, how the invoice
  amount and currency are derived, what invoice creation persists, and how
  `process_payment` chooses between redirecting to the stored invoice and
  creating a new one.

  Calls to the payment server are inputs: `InvoiceLookup` is what fetching the
  stored invoice returned (or that it threw), `CreateReply` what invoice
  creation returned.
 */
module Invoices {
  import opened Text
  import opened Decimal
  import opened Orders

  // ---------------------------------------------------------------------------
  // Invoice reuse (`validInvoiceExists`)

  datatype InvoiceLookup = LookupThrew | Fetched(status: string)

  /** Statuses after which an invoice is never reused. */
  predicate Terminal(status: string) {
    status == "Expired" || status == "Invalid"
  }

  datatype Reuse = Reuse(valid: bool, log: seq<Effect>)

  /** `validInvoiceExists`. With separate gateways on, the payment-method
      comparison is disabled in the source, so a live invoice is always marked
      invalid (after a note on the order) and not reused. */
  function ValidInvoiceExists(storedId: string, lookup: InvoiceLookup, separateGateways: bool): Reuse {
    if Falsy(storedId) then Reuse(false, [])
    else match lookup
      case LookupThrew => Reuse(false, [])
      case Fetched(status) =>
        if Terminal(status) then Reuse(false, [])
        else if separateGateways then Reuse(false, [AddNote(GatewayChanged), MarkInvoiceInvalid(storedId)])
        else Reuse(true, [])
  }

  /** The stored invoice is reused exactly when there is one, the server
      returned it, it is not Expired or Invalid, and separate gateways are off.
      The only side effects ever issued are the gateway-change note followed by
      invalidating the stored invoice, and they are issued exactly when a live
      invoice is found with separate gateways on. */
  lemma ReuseDecision(storedId: string, lookup: InvoiceLookup, separateGateways: bool)
    ensures var r := ValidInvoiceExists(storedId, lookup, separateGateways);
      r.valid <==> !Falsy(storedId) && lookup.Fetched? && !Terminal(lookup.status) && !separateGateways
    ensures var r := ValidInvoiceExists(storedId, lookup, separateGateways);
      r.log != [] <==> !Falsy(storedId) && lookup.Fetched? && !Terminal(lookup.status) && separateGateways
    ensures var r := ValidInvoiceExists(storedId, lookup, separateGateways);
      r.log != [] ==> r.log == [AddNote(GatewayChanged), MarkInvoiceInvalid(storedId)] && !r.valid
  {
  }

  // ---------------------------------------------------------------------------
  // Amount and currency (`createInvoice`, `getOrderTotalItemsQuantity`)

  /** The sum of the line-item quantities. */
  function SumQuantities(quantities: seq<int>): int {
    if |quantities| == 0 then 0 else SumQuantities(quantities[..|quantities| - 1]) + quantities[|quantities| - 1]
  }

  /** Non-negative quantities sum to at least each one of them. */
  lemma {:induction false} SumQuantitiesBounds(quantities: seq<int>)
    requires forall i :: 0 <= i < |quantities| ==> quantities[i] >= 0
    ensures SumQuantities(quantities) >= 0
    ensures forall i :: 0 <= i < |quantities| ==> quantities[i] <= SumQuantities(quantities)
  {
    if |quantities| > 0 {
      var prefix := quantities[..|quantities| - 1];
      assert forall i :: 0 <= i < |prefix| ==> prefix[i] == quantities[i];
      SumQuantitiesBounds(prefix);
    }
  }

  /** `getOrderTotalItemsQuantity`: the loop over the order's items. */
  method TotalItemsQuantity(quantities: seq<int>) returns (total: int)
    ensures total == SumQuantities(quantities)
  {
    total := 0;
    var i := 0;
    while i < |quantities|
      invariant 0 <= i <= |quantities|
      invariant total == SumQuantities(quantities[..i])
    {
      assert quantities[..i + 1][..i] == quantities[..i];
      total := total + quantities[i];
      i := i + 1;
    }
    assert quantities[..|quantities|] == quantities;
  }

  /** The gateway's configuration: token type ("payment" or "promotion"), the
      primary payment method (a promotion gateway's token), and the payment
      methods the gateway restricts invoices to. */
  datatype Gateway = Gateway(tokenType: string, primaryPaymentMethod: Option<string>, paymentMethods: seq<string>)

  /** The amount and currency the order is charged in before sats-mode
      conversion: one token per item in promotion mode, the order total and
      currency otherwise. */
  function Charge(gw: Gateway, o: Order): (Dec, Option<string>) {
    if gw.tokenType == "promotion" then (Dec(SumQuantities(o.quantities), 0), gw.primaryPaymentMethod)
    else (o.total, Some(o.currency))
  }

  /** The invoice request `createInvoice` sends. */
  function BuildRequest(gw: Gateway, sendCustomerData: bool, o: Order): InvoiceRequest {
    var (amount, currency) := Charge(gw, o);
    var (serverAmount, serverCurrency) := ToServerMoney(amount, currency);
    InvoiceRequest(
      serverCurrency, serverAmount, o.number, o.billingEmail, o.billingName, sendCustomerData,
      if gw.paymentMethods == [] then None else Some(gw.paymentMethods))
  }

  /** Amount and currency of the invoice request, case by case: promotion mode
      charges the item count in the primary payment method, otherwise the order
      total in the order currency; a SAT currency is sent as BTC with the
      amount divided by 10^8 and truncated at 8 decimals, so a whole number of
      satoshis keeps its digits. Buyer email and name are always sent, the
      payment-method restriction only when the gateway has methods. */
  lemma RequestAmountAndCurrency(gw: Gateway, sendCustomerData: bool, o: Order)
    ensures var r := BuildRequest(gw, sendCustomerData, o);
      gw.tokenType == "promotion" && gw.primaryPaymentMethod != Some("SAT") ==>
        r.amount == Dec(SumQuantities(o.quantities), 0) && r.currency == gw.primaryPaymentMethod
    ensures var r := BuildRequest(gw, sendCustomerData, o);
      gw.tokenType == "promotion" && gw.primaryPaymentMethod == Some("SAT") ==>
        r.amount == Dec(SumQuantities(o.quantities), 8) && r.currency == Some("BTC")
    ensures var r := BuildRequest(gw, sendCustomerData, o);
      gw.tokenType != "promotion" && o.currency != "SAT" ==>
        r.amount == o.total && r.currency == Some(o.currency)
    ensures var r := BuildRequest(gw, sendCustomerData, o);
      gw.tokenType != "promotion" && o.currency == "SAT" ==>
        r.currency == Some("BTC") && r.amount == SatToBtc(o.total) &&
        (Integral(o.total) <==> SameValue(BtcToSat(r.amount), o.total))
    ensures var r := BuildRequest(gw, sendCustomerData, o);
      r.buyerEmail == o.billingEmail && r.buyerName == o.billingName && r.orderNumber == o.number
    ensures var r := BuildRequest(gw, sendCustomerData, o);
      (r.paymentMethods.None? <==> gw.paymentMethods == []) &&
      (r.paymentMethods.Some? ==> r.paymentMethods.value == gw.paymentMethods)
  {
    WholeSatoshisConvertLosslessly(SumQuantities(o.quantities));
    SatToBtcExactIff(o.total);
  }

  // ---------------------------------------------------------------------------
  // Invoice creation (`createInvoice`, `updateOrderMetadata`)

  datatype CreateReply = CreateThrew | Created(id: string, checkoutLink: string)

  datatype Invoice = Invoice(id: string, checkoutLink: string)

  /** What creation issued (the request, then on success the two metadata
      writes) and the invoice it returns (None is PHP's null). */
  datatype Creation = Creation(invoice: Option<Invoice>, log: seq<Effect>)

  /** `createInvoice`: the id and redirect are persisted only on success. */
  function CreateInvoice(gw: Gateway, sendCustomerData: bool, o: Order, reply: CreateReply): Creation {
    var request := RequestInvoice(BuildRequest(gw, sendCustomerData, o));
    match reply
    case CreateThrew => Creation(None, [request])
    case Created(id, link) =>
      Creation(Some(Invoice(id, link)), [request,
        WriteMeta(RedirectKey, Text(link), true),
        WriteMeta(InvoiceIdKey, Text(id), true)])
  }

  /** A failed creation returns null and leaves the order exactly as it was. */
  lemma FailedCreationPersistsNothing(gw: Gateway, sendCustomerData: bool, o: Order, complete: string -> string)
    ensures CreateInvoice(gw, sendCustomerData, o, CreateThrew).invoice.None?
    ensures ApplyAll(o, CreateInvoice(gw, sendCustomerData, o, CreateThrew).log, complete) == o
  {
    var log := CreateInvoice(gw, sendCustomerData, o, CreateThrew).log;
    ApplyAllStep(o, log[0], [], complete);
    assert log == [log[0]] + [];
  }

  /** A successful creation returns the invoice and leaves the order carrying
      its id and redirect (so the next checkout and the webhook handler find
      it), with status and notes untouched; the request is issued first. */
  lemma CreationPersistsOnSuccess(gw: Gateway, sendCustomerData: bool, o: Order, id: string, link: string, complete: string -> string)
    ensures var c := CreateInvoice(gw, sendCustomerData, o, Created(id, link));
      var after := ApplyAll(o, c.log, complete);
      && c.log[0] == RequestInvoice(BuildRequest(gw, sendCustomerData, o))
      && c.invoice == Some(Invoice(id, link))
      && StoredInvoiceId(after) == id
      && CarriesInvoice(after, id)
      && MetaGet(after.meta, RedirectKey) == Some(Text(link))
      && after.status == o.status && after.notes == o.notes
  {
    var c := CreateInvoice(gw, sendCustomerData, o, Created(id, link));
    var w1 := WriteMeta(RedirectKey, Text(link), true);
    var w2 := WriteMeta(InvoiceIdKey, Text(id), true);
    var m1 := UpdateMeta(o.meta, RedirectKey, Text(link));
    var m2 := UpdateMeta(m1, InvoiceIdKey, Text(id));
    assert c.log == [c.log[0]] + ([w1] + ([w2] + []));
    ApplyAllStep(o, c.log[0], [w1] + ([w2] + []), complete);
    ApplyAllStep(o, w1, [w2] + [], complete);
    ApplyAllStep(o.(meta := m1), w2, [], complete);
    assert ApplyAll(o, c.log, complete) == o.(meta := m2);
    UpdateMetaReadsBack(o.meta, RedirectKey, Text(link), InvoiceIdKey);
    UpdateMetaReadsBack(m1, InvoiceIdKey, Text(id), RedirectKey);
  }

  // ---------------------------------------------------------------------------
  // Checkout (`process_payment`)

  datatype PaymentError = NotConfigured | OrderNotLoaded

  /** How `process_payment` ends: an exception, a redirect to the stored
      invoice, a redirect to a new invoice, or falling off the end (null) when
      creation failed. */
  datatype PaymentOutcome =
    | Threw(error: PaymentError)
    | RedirectToStored(invoiceId: string)
    | RedirectToNew(invoice: Invoice)
    | NoResult

  datatype Payment = Payment(outcome: PaymentOutcome, log: seq<Effect>)

  /** `process_payment`, decision path only. */
  function ProcessPayment(
    configured: bool, o: Order, lookup: InvoiceLookup, separateGateways: bool,
    gw: Gateway, sendCustomerData: bool, reply: CreateReply): Payment
  {
    if !configured then Payment(Threw(NotConfigured), [])
    else if o.id == 0 then Payment(Threw(OrderNotLoaded), [])
    else
      var reuse := ValidInvoiceExists(StoredInvoiceId(o), lookup, separateGateways);
      if reuse.valid then Payment(RedirectToStored(StoredInvoiceId(o)), reuse.log)
      else
        var c := CreateInvoice(gw, sendCustomerData, o, reply);
        Payment(if c.invoice.Some? then RedirectToNew(c.invoice.value) else NoResult, reuse.log + c.log)
  }

  /** Count of invoice requests in a log. */
  function Requests(log: seq<Effect>): nat {
    if |log| == 0 then 0 else (if log[0].RequestInvoice? then 1 else 0) + Requests(log[1..])
  }

  lemma {:induction false} RequestsConcat(a: seq<Effect>, b: seq<Effect>)
    ensures Requests(a + b) == Requests(a) + Requests(b)
  {
    if |a| == 0 {
      assert a + b == b;
    } else {
      assert (a + b)[1..] == a[1..] + b;
      RequestsConcat(a[1..], b);
    }
  }

  /** Checkout either redirects to the stored invoice without requesting a new
      one (exactly when the resolver says it is reusable), or requests exactly
      one new invoice and redirects to it, returning null if creation failed. */
  lemma CheckoutReusesOrCreates(
    configured: bool, o: Order, lookup: InvoiceLookup, separateGateways: bool,
    gw: Gateway, sendCustomerData: bool, reply: CreateReply)
    requires configured && o.id != 0
    ensures var p := ProcessPayment(configured, o, lookup, separateGateways, gw, sendCustomerData, reply);
      p.outcome.RedirectToStored? <==>
        !Falsy(StoredInvoiceId(o)) && lookup.Fetched? && !Terminal(lookup.status) && !separateGateways
    ensures var p := ProcessPayment(configured, o, lookup, separateGateways, gw, sendCustomerData, reply);
      p.outcome.RedirectToStored? ==> p.outcome.invoiceId == StoredInvoiceId(o) && Requests(p.log) == 0
    ensures var p := ProcessPayment(configured, o, lookup, separateGateways, gw, sendCustomerData, reply);
      !p.outcome.RedirectToStored? ==>
        && Requests(p.log) == 1
        && (p.outcome.RedirectToNew? <==> reply.Created?)
        && (p.outcome.NoResult? <==> reply.CreateThrew?)
  {
    var reuse := ValidInvoiceExists(StoredInvoiceId(o), lookup, separateGateways);
    ReuseDecision(StoredInvoiceId(o), lookup, separateGateways);
    var c := CreateInvoice(gw, sendCustomerData, o, reply);
    RequestsConcat(reuse.log, c.log);
    assert Requests(reuse.log) == 0;
    assert Requests(c.log) == 1 by {
      if reply.Created? {
        assert c.log[1..][1..][1..] == [];
        assert Requests(c.log[1..][1..]) == 0;
      }
      assert Requests(c.log[1..]) == 0;
    }
  }

  /** Changing gateway at checkout with separate gateways on: the stored live
      invoice is invalidated, a note is left, and a new invoice is created,
      whose id replaces the stored one when creation succeeds. */
  lemma ChangedGatewayReplacesInvoice(
    o: Order, status: string, gw: Gateway, sendCustomerData: bool, id: string, link: string, complete: string -> string)
    requires o.id != 0 && !Falsy(StoredInvoiceId(o)) && !Terminal(status)
    ensures var p := ProcessPayment(true, o, Fetched(status), true, gw, sendCustomerData, Created(id, link));
      && p.outcome == RedirectToNew(Invoice(id, link))
      && p.log[..2] == [AddNote(GatewayChanged), MarkInvoiceInvalid(StoredInvoiceId(o))]
      && StoredInvoiceId(ApplyAll(o, p.log, complete)) == id
  {
    var reuse := ValidInvoiceExists(StoredInvoiceId(o), Fetched(status), true);
    var c := CreateInvoice(gw, sendCustomerData, o, Created(id, link));
    var noted := ApplyAll(o, reuse.log, complete);
    ApplyAllConcat(o, reuse.log, c.log, complete);
    CreationPersistsOnSuccess(gw, sendCustomerData, noted, id, link, complete);
    ApplyAllKeepsOrderData(o, reuse.log, complete);
    assert BuildRequest(gw, sendCustomerData, noted) == BuildRequest(gw, sendCustomerData, o);
  }
}
