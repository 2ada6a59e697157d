/**
  The webhook dispatcher: finds the signature header, rejects unauthenticated
  requests, decodes the body, looks up the orders carrying the event's invoice
  id, and hands exactly one matching order to the reconciler.

  The HMAC check, the JSON decoding and the order query are the host's and the
  API helper's: the first is a parameter `validSignature(signature, body)`, the
  second the already-decoded payload (None when decoding throws), the third is
  computed over the order store given as a sequence.
 */
module Webhook {
  import opened Text
  import opened OrderStates
  import opened Orders
  import opened Reconciler

  const SignatureHeader: string := "x-coinsnap-sig"

  type Header = (string, string)

  predicate IsSignatureHeader(h: Header) {
    Lower(h.0) == SignatureHeader
  }

  /** The header as the payment server spells it, and its lower-case form,
      are both recognised; a header that differs in a letter is not. */
  lemma CanonicalSignatureHeaderMatches(value: string)
    ensures IsSignatureHeader(("X-Coinsnap-Sig", value))
    ensures IsSignatureHeader(("x-coinsnap-sig", value))
    ensures !IsSignatureHeader(("X-Coinsnap-Sign", value))
  {
    var canonical := "X-Coinsnap-Sig";
    assert Lower(canonical) == SignatureHeader;
    assert |Lower("X-Coinsnap-Sign")| != |SignatureHeader|;
  }

  /** The `foreach` over the request headers: each header whose lower-cased
      name is the signature header overwrites the value found so far. */
  function ScanSignature(headers: seq<Header>, found: Option<string>): Option<string>
    decreases |headers|
  {
    if |headers| == 0 then found
    else ScanSignature(headers[1..], if IsSignatureHeader(headers[0]) then Some(headers[0].1) else found)
  }

  function FindSignature(headers: seq<Header>): Option<string> {
    ScanSignature(headers, None)
  }

  /** Header `i` is the last signature header of the request. */
  predicate LastSignatureAt(headers: seq<Header>, i: int) {
    0 <= i < |headers| && IsSignatureHeader(headers[i]) &&
    forall j :: i < j < |headers| ==> !IsSignatureHeader(headers[j])
  }

  lemma {:induction false} ScanSignatureSpec(headers: seq<Header>, found: Option<string>)
    ensures (forall i :: 0 <= i < |headers| ==> !IsSignatureHeader(headers[i])) ==>
      ScanSignature(headers, found) == found
    ensures forall i :: LastSignatureAt(headers, i) ==> ScanSignature(headers, found) == Some(headers[i].1)
    decreases |headers|
  {
    if |headers| > 0 {
      var next := if IsSignatureHeader(headers[0]) then Some(headers[0].1) else found;
      var rest := headers[1..];
      ScanSignatureSpec(rest, next);
      forall i | LastSignatureAt(headers, i)
        ensures ScanSignature(headers, found) == Some(headers[i].1)
      {
        if i > 0 {
          assert LastSignatureAt(rest, i - 1);
        } else {
          assert forall j :: 0 <= j < |rest| ==> !IsSignatureHeader(rest[j]) by {
            forall j | 0 <= j < |rest|
              ensures !IsSignatureHeader(rest[j])
            {
              assert rest[j] == headers[j + 1];
            }
          }
        }
      }
      if forall i :: 0 <= i < |headers| ==> !IsSignatureHeader(headers[i]) {
        assert !IsSignatureHeader(headers[0]);
        assert forall j :: 0 <= j < |rest| ==> !IsSignatureHeader(rest[j]) by {
          forall j | 0 <= j < |rest|
            ensures !IsSignatureHeader(rest[j])
          {
            assert rest[j] == headers[j + 1];
          }
        }
      }
    }
  }

  /** The signature is absent exactly when no header's lower-cased name is
      `x-coinsnap-sig`; otherwise it is the value of the last such header. */
  lemma SignatureIsLastMatchingHeader(headers: seq<Header>)
    ensures FindSignature(headers).None? <==> forall i :: 0 <= i < |headers| ==> !IsSignatureHeader(headers[i])
    ensures forall i :: LastSignatureAt(headers, i) ==> FindSignature(headers) == Some(headers[i].1)
  {
    ScanSignatureSpec(headers, None);
    if exists i :: 0 <= i < |headers| && IsSignatureHeader(headers[i]) {
      var i := LastIndex(headers);
      assert LastSignatureAt(headers, i);
    }
  }

  /** The index of the last signature header, when there is one. */
  lemma LastIndex(headers: seq<Header>) returns (i: int)
    requires exists k :: 0 <= k < |headers| && IsSignatureHeader(headers[k])
    ensures LastSignatureAt(headers, i)
  {
    i := |headers| - 1;
    while !IsSignatureHeader(headers[i])
      invariant 0 <= i < |headers|
      invariant forall j :: i < j < |headers| ==> !IsSignatureHeader(headers[j])
      invariant exists k :: 0 <= k <= i && IsSignatureHeader(headers[k])
      decreases i
    {
      i := i - 1;
    }
  }

  /** Header names compare case-insensitively: two header lists with the same
      values whose names differ only in letter case yield the same signature. */
  lemma {:induction false} SignatureIgnoresNameCase(a: seq<Header>, b: seq<Header>, found: Option<string>)
    requires |a| == |b|
    requires forall i :: 0 <= i < |a| ==> Lower(a[i].0) == Lower(b[i].0) && a[i].1 == b[i].1
    ensures ScanSignature(a, found) == ScanSignature(b, found)
    decreases |a|
  {
    if |a| > 0 {
      var next := if IsSignatureHeader(a[0]) then Some(a[0].1) else found;
      assert forall i :: 0 <= i < |a[1..]| ==> Lower(a[1..][i].0) == Lower(b[1..][i].0) && a[1..][i].1 == b[1..][i].1 by {
        forall i | 0 <= i < |a[1..]|
          ensures Lower(a[1..][i].0) == Lower(b[1..][i].0) && a[1..][i].1 == b[1..][i].1
        {
          assert a[1..][i] == a[i + 1] && b[1..][i] == b[i + 1];
        }
      }
      SignatureIgnoresNameCase(a[1..], b[1..], next);
    }
  }

  /** The decoded body: the invoice id (None when not set) and the event. */
  datatype Payload = Payload(invoiceId: Option<string>, event: WebhookEvent)

  /** Why the handler stopped the request with `wp_die`. */
  datatype DieReason = BadSignature | MissingInvoiceId | NoOrderFound | MultipleOrders

  /** How the request ends: the handler returns normally, or `wp_die` ends it
      with an HTTP status (500 unless a status is passed). */
  datatype Reply = Returned | Died(reason: DieReason, httpStatus: int)

  const WpDieDefaultStatus: int := 500

  /** The order handed to the reconciler and what the reconciler did to it. */
  datatype Touch = Touch(index: nat, result: Reconciled)

  datatype Dispatch = Dispatch(reply: Reply, touched: Option<Touch>)

  /** The order query `wc_get_orders(meta_key => Coinsnap_id, meta_value => id)`:
      the indices of the orders carrying the id, in store order. */
  function Matching(orders: seq<Order>, invoiceId: string): (r: seq<nat>)
    ensures forall k: int :: k in r <==> 0 <= k < |orders| && CarriesInvoice(orders[k], invoiceId)
    ensures forall a, b :: 0 <= a < b < |r| ==> r[a] < r[b]
    ensures forall a :: 0 <= a < |r| ==> r[a] < |orders|
  {
    if |orders| == 0 then []
    else
      var prefix := orders[..|orders| - 1];
      var p := Matching(prefix, invoiceId);
      assert forall k :: 0 <= k < |prefix| ==> prefix[k] == orders[k];
      if CarriesInvoice(orders[|orders| - 1], invoiceId) then p + [|orders| - 1] else p
  }

  lemma {:induction false} MatchingNone(orders: seq<Order>, invoiceId: string)
    requires forall k :: 0 <= k < |orders| ==> !CarriesInvoice(orders[k], invoiceId)
    ensures Matching(orders, invoiceId) == []
  {
    if |orders| > 0 {
      var prefix := orders[..|orders| - 1];
      assert forall k :: 0 <= k < |prefix| ==> prefix[k] == orders[k];
      MatchingNone(prefix, invoiceId);
    }
  }

  lemma {:induction false} MatchingOne(orders: seq<Order>, invoiceId: string, k: int)
    requires OnlyCarrier(orders, invoiceId, k)
    ensures Matching(orders, invoiceId) == [k]
  {
    var prefix := orders[..|orders| - 1];
    assert forall j :: 0 <= j < |prefix| ==> prefix[j] == orders[j];
    if k == |orders| - 1 {
      MatchingNone(prefix, invoiceId);
    } else {
      MatchingOne(prefix, invoiceId, k);
    }
  }

  /** `processWebhook`. */
  function ProcessWebhook(
    body: string,
    headers: seq<Header>,
    validSignature: (string, string) -> bool,
    decoded: Option<Payload>,
    orders: seq<Order>,
    stored: Option<Mapping>): Dispatch
  {
    if Falsy(body) then Dispatch(Returned, None)
    else
      var signature := FindSignature(headers);
      if signature.None? || !validSignature(signature.value, body) then
        Dispatch(Died(BadSignature, WpDieDefaultStatus), None)
      else if decoded.None? then
        Dispatch(Returned, None)
      else if decoded.value.invoiceId.None? then
        Dispatch(Died(MissingInvoiceId, WpDieDefaultStatus), None)
      else
        var found := Matching(orders, decoded.value.invoiceId.value);
        if |found| == 0 then Dispatch(Died(NoOrderFound, 200), None)
        else if |found| > 1 then Dispatch(Died(MultipleOrders, WpDieDefaultStatus), None)
        else Dispatch(Returned, Some(Touch(found[0], ProcessOrderStatus(decoded.value.event, stored))))
  }

  /** The order store after the request: the touched order has the reconciler's
      log played against it; every other order is as it was. */
  function Commit(orders: seq<Order>, d: Dispatch, complete: string -> string): seq<Order> {
    if d.touched.Some? && d.touched.value.index < |orders| then
      var k := d.touched.value.index;
      orders[k := ApplyAll(orders[k], d.touched.value.result.log, complete)]
    else orders
  }

  /** A missing or invalid signature rejects the request with the same reply
      whatever the body decodes to and whatever the store holds: nothing is
      decoded, looked up or mutated first. */
  lemma BadSignatureRejectsFirst(
    body: string, headers: seq<Header>, validSignature: (string, string) -> bool,
    decoded: Option<Payload>, orders: seq<Order>, stored: Option<Mapping>, complete: string -> string)
    requires !Falsy(body)
    requires FindSignature(headers).None? || !validSignature(FindSignature(headers).value, body)
    ensures ProcessWebhook(body, headers, validSignature, decoded, orders, stored) == Dispatch(Died(BadSignature, 500), None)
    ensures Commit(orders, ProcessWebhook(body, headers, validSignature, decoded, orders, stored), complete) == orders
  {
  }

  /** The request is authentic and carries an invoice id. */
  predicate Authentic(body: string, headers: seq<Header>, validSignature: (string, string) -> bool, decoded: Option<Payload>) {
    && !Falsy(body)
    && FindSignature(headers).Some?
    && validSignature(FindSignature(headers).value, body)
    && decoded.Some?
    && decoded.value.invoiceId.Some?
  }

  /** Order `k` is the only order carrying `invoiceId`. */
  predicate OnlyCarrier(orders: seq<Order>, invoiceId: string, k: int) {
    0 <= k < |orders| && CarriesInvoice(orders[k], invoiceId) &&
    forall j :: 0 <= j < |orders| && CarriesInvoice(orders[j], invoiceId) ==> j == k
  }

  /** Two different orders carry `invoiceId`. */
  predicate SharedInvoice(orders: seq<Order>, invoiceId: string) {
    exists j, k :: 0 <= j < k < |orders| && CarriesInvoice(orders[j], invoiceId) && CarriesInvoice(orders[k], invoiceId)
  }

  /** An authentic request whose invoice id no order carries is acknowledged
      with status 200 (so the server stops redelivering) and changes nothing. */
  lemma NoOrderIsAcknowledged(
    body: string, headers: seq<Header>, validSignature: (string, string) -> bool,
    decoded: Option<Payload>, orders: seq<Order>, stored: Option<Mapping>, complete: string -> string)
    requires Authentic(body, headers, validSignature, decoded)
    requires forall k :: 0 <= k < |orders| ==> !CarriesInvoice(orders[k], decoded.value.invoiceId.value)
    ensures ProcessWebhook(body, headers, validSignature, decoded, orders, stored) == Dispatch(Died(NoOrderFound, 200), None)
    ensures Commit(orders, ProcessWebhook(body, headers, validSignature, decoded, orders, stored), complete) == orders
  {
    MatchingNone(orders, decoded.value.invoiceId.value);
  }

  /** An authentic request whose invoice id two orders carry is rejected
      (status 500, for an operator to look into) and changes nothing. */
  lemma SharedInvoiceIsRejected(
    body: string, headers: seq<Header>, validSignature: (string, string) -> bool,
    decoded: Option<Payload>, orders: seq<Order>, stored: Option<Mapping>, complete: string -> string)
    requires Authentic(body, headers, validSignature, decoded)
    requires SharedInvoice(orders, decoded.value.invoiceId.value)
    ensures ProcessWebhook(body, headers, validSignature, decoded, orders, stored) == Dispatch(Died(MultipleOrders, 500), None)
    ensures Commit(orders, ProcessWebhook(body, headers, validSignature, decoded, orders, stored), complete) == orders
  {
    var id := decoded.value.invoiceId.value;
    var found := Matching(orders, id);
    var j, k :| 0 <= j < k < |orders| && CarriesInvoice(orders[j], id) && CarriesInvoice(orders[k], id);
    var a :| 0 <= a < |found| && found[a] == j;
    var b :| 0 <= b < |found| && found[b] == k;
    assert a != b;
  }

  /** An authentic request whose invoice id exactly one order carries is
      handed to the reconciler for that order; only that order changes. */
  lemma SingleOrderIsReconciled(
    body: string, headers: seq<Header>, validSignature: (string, string) -> bool,
    decoded: Option<Payload>, orders: seq<Order>, stored: Option<Mapping>, complete: string -> string, k: int)
    requires Authentic(body, headers, validSignature, decoded)
    requires OnlyCarrier(orders, decoded.value.invoiceId.value, k)
    ensures ProcessWebhook(body, headers, validSignature, decoded, orders, stored) ==
      Dispatch(Returned, Some(Touch(k, ProcessOrderStatus(decoded.value.event, stored))))
    ensures var after := Commit(orders, ProcessWebhook(body, headers, validSignature, decoded, orders, stored), complete);
      && |after| == |orders|
      && after[k] == ApplyAll(orders[k], ProcessOrderStatus(decoded.value.event, stored).log, complete)
      && forall j :: 0 <= j < |orders| && j != k ==> after[j] == orders[j]
  {
    MatchingOne(orders, decoded.value.invoiceId.value, k);
  }

  /** A decoded body without an invoice id is rejected (500), and a body that
      fails to decode is swallowed with a normal return; neither touches an
      order. */
  lemma MalformedBodies(
    body: string, headers: seq<Header>, validSignature: (string, string) -> bool,
    decoded: Option<Payload>, orders: seq<Order>, stored: Option<Mapping>)
    requires !Falsy(body) && FindSignature(headers).Some? && validSignature(FindSignature(headers).value, body)
    requires decoded.None? || decoded.value.invoiceId.None?
    ensures ProcessWebhook(body, headers, validSignature, decoded, orders, stored).touched.None?
    ensures decoded.None? ==> ProcessWebhook(body, headers, validSignature, decoded, orders, stored).reply == Returned
    ensures decoded.Some? ==> ProcessWebhook(body, headers, validSignature, decoded, orders, stored).reply == Died(MissingInvoiceId, 500)
  {
  }
}
