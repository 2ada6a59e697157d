/**
  The shop order as the gateway sees it, its metadata rows, the notes the
  gateway appends, and the ordered log of effects each gateway operation
  issues against the order store and the payment server. `ApplyAll` plays the
  log against an order to give the order the host would hold afterwards.
 */
module Orders {
  import opened Text
  import opened Decimal

  /** Metadata keys the gateway writes. */
  const InvoiceIdKey: string := "Coinsnap_id"
  const RedirectKey: string := "Coinsnap_redirect"
  const RefundKey: string := "Coinsnap_refund"

  /** What a refund leaves on the order: payout id, view link, amount with its
      currency, and the merchant's reason. */
  datatype RefundRecord = RefundRecord(payoutId: string, viewLink: string, amount: Dec, currency: string, reason: string)

  datatype MetaValue = Text(text: string) | RefundInfo(record: RefundRecord)

  datatype MetaEntry = MetaEntry(key: string, value: MetaValue)

  /** The notes the gateway appends, one tag per distinct message. */
  datatype Note =
    | PartialPaymentIncoming
    | PaidAfterExpiration
    | PaymentSettled
    | SettledOverpaid
    | ReceivedFully
    | ReceivedFullyOverpaid
    | ExpiredPaidPartially
    | InvoiceExpired
    | BecameInvalid
    | ManuallyMarkedInvalid
    | GatewayChanged
    | RefundCreated(record: RefundRecord)

  /** The invoice creation request sent to the payment server. `currency` is
      absent when a promotion gateway has no primary payment method;
      `paymentMethods` is absent when the gateway restricts nothing. */
  datatype InvoiceRequest = InvoiceRequest(
    currency: Option<string>,
    amount: Dec,
    orderNumber: string,
    buyerEmail: string,
    buyerName: string,
    withCustomerData: bool,
    paymentMethods: Option<seq<string>>)

  /** The pull-payment (refund payout) request sent to the payment server. */
  datatype PayoutRequest = PayoutRequest(description: string, amount: Dec, currency: string, paymentMethods: seq<string>)

  /** One step of a gateway operation, in the order the source performs it. */
  datatype Effect =
    | PaymentComplete
    | AddNote(note: Note)
    | SetStatus(status: string)
    | MarkInvoiceInvalid(invoiceId: string)
    | WriteMeta(key: string, value: MetaValue, unique: bool)
    | RequestInvoice(invoice: InvoiceRequest)
    | CreatePayout(payout: PayoutRequest)

  datatype Order = Order(
    id: int,
    number: string,
    status: string,
    total: Dec,
    currency: string,
    quantities: seq<int>,
    billingEmail: string,
    billingName: string,
    remainingRefund: Dec,
    meta: seq<MetaEntry>,
    notes: seq<Note>,
    completions: nat)

  /** Number of metadata rows under `key`. */
  function CountKey(meta: seq<MetaEntry>, key: string): nat {
    if |meta| == 0 then 0
    else (if meta[0].key == key then 1 else 0) + CountKey(meta[1..], key)
  }

  /** The single-value read (`get_post_meta($id, $key, true)`): the first row
      under `key`, if any. */
  function MetaGet(meta: seq<MetaEntry>, key: string): (r: Option<MetaValue>)
    ensures r.None? <==> CountKey(meta, key) == 0
    ensures r.Some? ==> MetaEntry(key, r.value) in meta
    ensures r.Some? ==> exists i :: FirstRowAt(meta, key, i) && meta[i].value == r.value
  {
    if |meta| == 0 then None
    else if meta[0].key == key then Some(meta[0].value)
    else MetaGet(meta[1..], key)
  }

  /** Row `i` is the first row under `key`. */
  predicate FirstRowAt(meta: seq<MetaEntry>, key: string, i: int) {
    0 <= i < |meta| && meta[i].key == key && forall j :: 0 <= j < i ==> meta[j].key != key
  }

  /** Some row under `key` holds `value` (what a meta query matches). */
  predicate HasMeta(meta: seq<MetaEntry>, key: string, value: MetaValue) {
    MetaEntry(key, value) in meta
  }

  /** `update_post_meta`: every row under `key` takes the new value; a row is
      added when there was none. */
  function UpdateMeta(meta: seq<MetaEntry>, key: string, value: MetaValue): seq<MetaEntry> {
    if CountKey(meta, key) == 0 then meta + [MetaEntry(key, value)]
    else ReplaceValues(meta, key, value)
  }

  function ReplaceValues(meta: seq<MetaEntry>, key: string, value: MetaValue): (r: seq<MetaEntry>)
    ensures |r| == |meta|
  {
    if |meta| == 0 then []
    else [if meta[0].key == key then MetaEntry(key, value) else meta[0]] + ReplaceValues(meta[1..], key, value)
  }

  lemma {:induction false} CountKeyAppend(a: seq<MetaEntry>, b: seq<MetaEntry>, key: string)
    ensures CountKey(a + b, key) == CountKey(a, key) + CountKey(b, key)
  {
    if |a| > 0 {
      assert (a + b)[1..] == a[1..] + b;
      CountKeyAppend(a[1..], b, key);
    } else {
      assert a + b == b;
    }
  }

  lemma {:induction false} MetaGetAppend(a: seq<MetaEntry>, b: seq<MetaEntry>, key: string)
    ensures MetaGet(a + b, key) == if CountKey(a, key) > 0 then MetaGet(a, key) else MetaGet(b, key)
  {
    if |a| > 0 {
      assert (a + b)[1..] == a[1..] + b;
      MetaGetAppend(a[1..], b, key);
    } else {
      assert a + b == b;
    }
  }

  lemma {:induction false} ReplaceValuesFacts(meta: seq<MetaEntry>, key: string, value: MetaValue, other: string)
    requires other != key
    ensures CountKey(ReplaceValues(meta, key, value), key) == CountKey(meta, key)
    ensures CountKey(meta, key) > 0 ==> MetaGet(ReplaceValues(meta, key, value), key) == Some(value)
    ensures CountKey(ReplaceValues(meta, key, value), other) == CountKey(meta, other)
    ensures MetaGet(ReplaceValues(meta, key, value), other) == MetaGet(meta, other)
  {
    if |meta| > 0 {
      ReplaceValuesFacts(meta[1..], key, value, other);
    }
  }

  /** After a unique write the key reads back the written value, no other key
      changes, and the key has at least one row (one if it had none). */
  lemma UpdateMetaReadsBack(meta: seq<MetaEntry>, key: string, value: MetaValue, other: string)
    requires other != key
    ensures MetaGet(UpdateMeta(meta, key, value), key) == Some(value)
    ensures MetaGet(UpdateMeta(meta, key, value), other) == MetaGet(meta, other)
    ensures CountKey(UpdateMeta(meta, key, value), other) == CountKey(meta, other)
    ensures CountKey(UpdateMeta(meta, key, value), key) == if CountKey(meta, key) == 0 then 1 else CountKey(meta, key)
  {
    var tail := [MetaEntry(key, value)];
    if CountKey(meta, key) == 0 {
      MetaGetAppend(meta, tail, key);
      MetaGetAppend(meta, tail, other);
      CountKeyAppend(meta, tail, key);
      CountKeyAppend(meta, tail, other);
      assert tail[1..] == [];
    } else {
      ReplaceValuesFacts(meta, key, value, other);
    }
  }

  /** A non-unique write (`add_meta_data(..., false)`) keeps every earlier row,
      adds one row under the key, and leaves the first value of every other
      key as it was. */
  lemma AddMetaAppends(meta: seq<MetaEntry>, key: string, value: MetaValue, other: string)
    requires other != key
    ensures CountKey(meta + [MetaEntry(key, value)], key) == CountKey(meta, key) + 1
    ensures CountKey(meta + [MetaEntry(key, value)], other) == CountKey(meta, other)
    ensures MetaGet(meta + [MetaEntry(key, value)], other) == MetaGet(meta, other)
    ensures MetaEntry(key, value) in meta + [MetaEntry(key, value)]
  {
    var tail := [MetaEntry(key, value)];
    assert tail[1..] == [];
    CountKeyAppend(meta, tail, key);
    CountKeyAppend(meta, tail, other);
    MetaGetAppend(meta, tail, other);
  }

  /** The invoice id stored on the order, "" when there is none (what
      `get_post_meta($id, 'Coinsnap_id', true)` and `get_meta` return). */
  function StoredInvoiceId(o: Order): string {
    match MetaGet(o.meta, InvoiceIdKey)
    case Some(Text(s)) => s
    case _ => ""
  }

  /** The order carries `invoiceId` under the invoice-id key. */
  predicate CarriesInvoice(o: Order, invoiceId: string) {
    HasMeta(o.meta, InvoiceIdKey, Text(invoiceId))
  }

  /** The host's effect of one step on the order. `complete` is the status the
      host's payment completion moves an order to from a given status. Steps
      addressed to the payment server leave the order as it is. */
  function Apply(o: Order, e: Effect, complete: string -> string): Order {
    match e
    case PaymentComplete => o.(status := complete(o.status), completions := o.completions + 1)
    case AddNote(n) => o.(notes := o.notes + [n])
    case SetStatus(s) => o.(status := s)
    case WriteMeta(k, v, unique) =>
      if unique then o.(meta := UpdateMeta(o.meta, k, v)) else o.(meta := o.meta + [MetaEntry(k, v)])
    case MarkInvoiceInvalid(_) => o
    case RequestInvoice(_) => o
    case CreatePayout(_) => o
  }

  /** Plays a whole log against an order, first step first. */
  function ApplyAll(o: Order, log: seq<Effect>, complete: string -> string): Order
    decreases |log|
  {
    if |log| == 0 then o else ApplyAll(Apply(o, log[0], complete), log[1..], complete)
  }

  /** Playing two logs in turn is playing their concatenation. */
  lemma {:induction false} ApplyAllConcat(o: Order, a: seq<Effect>, b: seq<Effect>, complete: string -> string)
    ensures ApplyAll(o, a + b, complete) == ApplyAll(ApplyAll(o, a, complete), b, complete)
    decreases |a|
  {
    if |a| == 0 {
      assert a + b == b;
    } else {
      assert (a + b)[1..] == a[1..] + b;
      ApplyAllConcat(Apply(o, a[0], complete), a[1..], b, complete);
    }
  }

  /** Count of note steps in a log. */
  function NoteCount(log: seq<Effect>): nat {
    if |log| == 0 then 0 else (if log[0].AddNote? then 1 else 0) + NoteCount(log[1..])
  }

  lemma {:induction false} NoteCountConcat(a: seq<Effect>, b: seq<Effect>)
    ensures NoteCount(a + b) == NoteCount(a) + NoteCount(b)
  {
    if |a| == 0 {
      assert a + b == b;
    } else {
      assert (a + b)[1..] == a[1..] + b;
      NoteCountConcat(a[1..], b);
    }
  }

  /** Playing a log appends exactly its notes. */
  lemma {:induction false} ApplyAllNotes(o: Order, log: seq<Effect>, complete: string -> string)
    ensures |ApplyAll(o, log, complete).notes| == |o.notes| + NoteCount(log)
    ensures ApplyAll(o, log, complete).notes[..|o.notes|] == o.notes
    decreases |log|
  {
    if |log| > 0 {
      var o' := Apply(o, log[0], complete);
      ApplyAllNotes(o', log[1..], complete);
      assert o'.notes[..|o.notes|] == o.notes;
    }
  }

  /** The order's own data (what invoices and refunds are computed from) is
      never changed by playing a log. */
  predicate SameOrderData(a: Order, b: Order) {
    && a.id == b.id && a.number == b.number && a.total == b.total && a.currency == b.currency
    && a.quantities == b.quantities && a.billingEmail == b.billingEmail && a.billingName == b.billingName
    && a.remainingRefund == b.remainingRefund
  }

  lemma {:induction false} ApplyAllKeepsOrderData(o: Order, log: seq<Effect>, complete: string -> string)
    ensures SameOrderData(ApplyAll(o, log, complete), o)
    decreases |log|
  {
    if |log| > 0 {
      ApplyAllKeepsOrderData(Apply(o, log[0], complete), log[1..], complete);
    }
  }

  /** Unfolds a short log one step. */
  lemma ApplyAllStep(o: Order, e: Effect, rest: seq<Effect>, complete: string -> string)
    ensures ApplyAll(o, [e] + rest, complete) == ApplyAll(Apply(o, e, complete), rest, complete)
  {
    assert ([e] + rest)[1..] == rest;
  }
}
