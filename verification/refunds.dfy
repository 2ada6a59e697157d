/**
  The refund orchestrator (`process_refund`): five ordered preconditions, the
  sats-mode conversion, the payout (pull payment) request without the LNURL-pay
  method, and what a created payout leaves on the order.

  The server-capability and key-permission checks are boolean inputs; the
  payout call's result is the input `PayoutReply`.
 */
module Refunds {
  import opened Text
  import opened Decimal
  import opened Orders

  const LnurlPay: string := "BTC_LNURLPAY"

  datatype RefundError =
    | UnsupportedServer
    | MissingPermission
    | MissingAmount
    | NoInvoiceId
    | ExceedsRemaining
    | EmptyPayout
    | PayoutException(message: string)

  datatype PayoutReply = PayoutThrew(message: string) | PayoutEmpty | PayoutMade(id: string, viewLink: string)

  /** The refund's result (None is `true`, Some an error) and its effects. */
  datatype Refund = Refund(error: Option<RefundError>, log: seq<Effect>)

  // ---------------------------------------------------------------------------
  // Payment methods of the payout

  function Filter(methods: seq<string>, drop: string): seq<string> {
    if |methods| == 0 then []
    else (if methods[0] == drop then [] else [methods[0]]) + Filter(methods[1..], drop)
  }

  /** `array_values(array_diff($methods, ['BTC_LNURLPAY']))`, done only when
      the list holds that method. */
  function WithoutLnurl(methods: seq<string>): seq<string> {
    if LnurlPay in methods then Filter(methods, LnurlPay) else methods
  }

  /** `a` is `b` with some elements deleted, the rest in their order. */
  predicate IsSubsequence(a: seq<string>, b: seq<string>)
    decreases |b|
  {
    if |a| == 0 then true
    else if |b| == 0 then false
    else if a[0] == b[0] then IsSubsequence(a[1..], b[1..])
    else IsSubsequence(a, b[1..])
  }

  function Occurrences(s: seq<string>, x: string): nat {
    if |s| == 0 then 0 else (if s[0] == x then 1 else 0) + Occurrences(s[1..], x)
  }

  lemma {:induction false} FilterSpec(methods: seq<string>, drop: string)
    ensures forall m :: m in Filter(methods, drop) <==> m in methods && m != drop
    ensures IsSubsequence(Filter(methods, drop), methods)
    ensures |Filter(methods, drop)| + Occurrences(methods, drop) == |methods|
  {
    if |methods| > 0 {
      FilterSpec(methods[1..], drop);
      var rest := Filter(methods[1..], drop);
      if methods[0] == drop {
        assert Filter(methods, drop) == rest;
        SubsequenceOfTail(rest, methods);
      } else {
        assert Filter(methods, drop) == [methods[0]] + rest;
        assert ([methods[0]] + rest)[1..] == rest;
      }
    }
  }

  lemma {:induction false} SubsequenceOfTail(a: seq<string>, b: seq<string>)
    requires |b| > 0
    requires IsSubsequence(a, b[1..])
    ensures IsSubsequence(a, b)
    decreases |b|, |a|
  {
    if |a| > 0 && a[0] == b[0] {
      SubsequenceDropHead(a, b[1..]);
    }
  }

  lemma {:induction false} SubsequenceDropHead(a: seq<string>, b: seq<string>)
    requires |a| > 0
    requires IsSubsequence(a, b)
    ensures IsSubsequence(a[1..], b)
    decreases |b|, |a|
  {
    if a[0] == b[0] {
      if |b[1..]| > 0 {
        SubsequenceOfTail(a[1..], b);
      }
    } else {
      SubsequenceDropHead(a, b[1..]);
      SubsequenceOfTail(a[1..], b);
    }
  }

  /** The payout's methods are the gateway's with every LNURL-pay entry
      removed and the others in their original order; a list without it is
      passed unchanged. */
  lemma WithoutLnurlSpec(methods: seq<string>)
    ensures LnurlPay !in WithoutLnurl(methods)
    ensures forall m :: m in methods && m != LnurlPay ==> m in WithoutLnurl(methods)
    ensures IsSubsequence(WithoutLnurl(methods), methods)
    ensures |WithoutLnurl(methods)| == |methods| - Occurrences(methods, LnurlPay)
    ensures LnurlPay !in methods ==> WithoutLnurl(methods) == methods
  {
    FilterSpec(methods, LnurlPay);
    if LnurlPay !in methods {
      NoOccurrences(methods, LnurlPay);
      SubsequenceRefl(methods);
    }
  }

  lemma {:induction false} NoOccurrences(s: seq<string>, x: string)
    requires x !in s
    ensures Occurrences(s, x) == 0
  {
    if |s| > 0 {
      NoOccurrences(s[1..], x);
    }
  }

  lemma {:induction false} SubsequenceRefl(s: seq<string>)
    ensures IsSubsequence(s, s)
    decreases |s|
  {
    if |s| > 0 {
      SubsequenceRefl(s[1..]);
    }
  }

  // ---------------------------------------------------------------------------
  // The refund

  /** The first precondition that fails, in the order the source checks them:
      server support, key permission, an amount, a stored invoice id, and an
      amount within what remains refundable. */
  function FirstFailure(serverSupportsRefunds: bool, keyCanRefund: bool, o: Order, amount: Option<Dec>): Option<RefundError> {
    if !serverSupportsRefunds then Some(UnsupportedServer)
    else if !keyCanRefund then Some(MissingPermission)
    else if amount.None? then Some(MissingAmount)
    else if Falsy(StoredInvoiceId(o)) then Some(NoInvoiceId)
    else if Greater(amount.value, o.remainingRefund) then Some(ExceedsRemaining)
    else None
  }

  function Description(o: Order, reason: string): string {
    "Refund for order no.: " + o.number + " reason: " + reason
  }

  /** The payout request for an amount in the order's currency. */
  function Payout(o: Order, methods: seq<string>, amount: Dec, reason: string): PayoutRequest {
    var (payoutAmount, payoutCurrency) := ToServerMoney(amount, Some(o.currency));
    PayoutRequest(Description(o, reason), payoutAmount, payoutCurrency.value, WithoutLnurl(methods))
  }

  /** The refund record as the source writes it: the amount the merchant
      entered (in the order's currency) next to the payout's currency. */
  function RecordAsWritten(id: string, link: string, requested: Dec, payout: PayoutRequest, reason: string): RefundRecord {
    RefundRecord(id, link, requested, payout.currency, reason)
  }

  /** The refund record with the payout's own amount and currency. */
  function Record(id: string, link: string, payout: PayoutRequest, reason: string): (r: RefundRecord)
    ensures r.amount == payout.amount && r.currency == payout.currency
  {
    RefundRecord(id, link, payout.amount, payout.currency, reason)
  }

  /** `process_refund`, with the refund record built either as the source
      writes it (`intended` false) or with the payout's own amount. */
  function RefundWith(
    serverSupportsRefunds: bool, keyCanRefund: bool, o: Order, methods: seq<string>,
    amount: Option<Dec>, reason: string, reply: PayoutReply, intended: bool): Refund
  {
    var failure := FirstFailure(serverSupportsRefunds, keyCanRefund, o, amount);
    if failure.Some? then Refund(failure, [])
    else
      var payout := Payout(o, methods, amount.value, reason);
      match reply
      case PayoutThrew(message) => Refund(Some(PayoutException(message)), [CreatePayout(payout)])
      case PayoutEmpty => Refund(Some(EmptyPayout), [CreatePayout(payout)])
      case PayoutMade(id, link) =>
        var record := if intended then Record(id, link, payout, reason)
                      else RecordAsWritten(id, link, amount.value, payout, reason);
        Refund(None, [CreatePayout(payout), AddNote(RefundCreated(record)), WriteMeta(RefundKey, RefundInfo(record), false)])
  }

  /** `process_refund` as the source performs it. */
  function ProcessRefund(
    serverSupportsRefunds: bool, keyCanRefund: bool, o: Order, methods: seq<string>,
    amount: Option<Dec>, reason: string, reply: PayoutReply): Refund
  {
    RefundWith(serverSupportsRefunds, keyCanRefund, o, methods, amount, reason, reply, false)
  }

  /** `process_refund` with the record stating the payout actually created. */
  function ProcessRefundIntended(
    serverSupportsRefunds: bool, keyCanRefund: bool, o: Order, methods: seq<string>,
    amount: Option<Dec>, reason: string, reply: PayoutReply): Refund
  {
    RefundWith(serverSupportsRefunds, keyCanRefund, o, methods, amount, reason, reply, true)
  }

  /** Each precondition is checked in turn; the first that fails decides the
      error, and a failed precondition issues no payout and no other effect. */
  lemma PreconditionsInOrder(
    serverSupportsRefunds: bool, keyCanRefund: bool, o: Order, methods: seq<string>,
    amount: Option<Dec>, reason: string, reply: PayoutReply)
    ensures var r := ProcessRefund(serverSupportsRefunds, keyCanRefund, o, methods, amount, reason, reply);
      && (!serverSupportsRefunds ==> r == Refund(Some(UnsupportedServer), []))
      && (serverSupportsRefunds && !keyCanRefund ==> r == Refund(Some(MissingPermission), []))
      && (serverSupportsRefunds && keyCanRefund && amount.None? ==> r == Refund(Some(MissingAmount), []))
      && ((serverSupportsRefunds && keyCanRefund && amount.Some? && Falsy(StoredInvoiceId(o)))
            ==> r == Refund(Some(NoInvoiceId), []))
      && ((serverSupportsRefunds && keyCanRefund && amount.Some? && !Falsy(StoredInvoiceId(o))
            && Greater(amount.value, o.remainingRefund)) ==> r == Refund(Some(ExceedsRemaining), []))
    ensures var r := ProcessRefund(serverSupportsRefunds, keyCanRefund, o, methods, amount, reason, reply);
      (exists i :: 0 <= i < |r.log| && r.log[i].CreatePayout?) <==>
        serverSupportsRefunds && keyCanRefund && amount.Some? && !Falsy(StoredInvoiceId(o)) &&
        !Greater(amount.value, o.remainingRefund)
  {
    var r := ProcessRefund(serverSupportsRefunds, keyCanRefund, o, methods, amount, reason, reply);
    if FirstFailure(serverSupportsRefunds, keyCanRefund, o, amount).None? {
      assert r.log[0].CreatePayout?;
    }
  }

  /** Once the preconditions hold, exactly one payout is requested first, for
      the amount converted as for invoices (SAT becomes BTC, divided by 10^8
      and truncated at 8 decimals) and for the gateway's methods without
      LNURL-pay. */
  lemma RefundPayoutRequest(o: Order, methods: seq<string>, amount: Dec, reason: string, reply: PayoutReply)
    requires FirstFailure(true, true, o, Some(amount)).None?
    ensures var r := ProcessRefund(true, true, o, methods, Some(amount), reason, reply);
      var p := r.log[0].payout;
      && r.log[0].CreatePayout?
      && (forall i :: 1 <= i < |r.log| ==> !r.log[i].CreatePayout?)
      && (o.currency == "SAT" ==> p.currency == "BTC" && p.amount == SatToBtc(amount))
      && (o.currency != "SAT" ==> p.currency == o.currency && p.amount == amount)
      && p.paymentMethods == WithoutLnurl(methods)
      && p.description == Description(o, reason)
  {
  }

  /** The effects a created payout issues, played against any order. */
  lemma PlayCreatedPayout(o: Order, p: PayoutRequest, record: RefundRecord, complete: string -> string)
    ensures var after := ApplyAll(o, [CreatePayout(p), AddNote(RefundCreated(record)), WriteMeta(RefundKey, RefundInfo(record), false)], complete);
      && after.notes == o.notes + [RefundCreated(record)]
      && after.meta == o.meta + [MetaEntry(RefundKey, RefundInfo(record))]
      && after.status == o.status
  {
    var n := AddNote(RefundCreated(record));
    var w := WriteMeta(RefundKey, RefundInfo(record), false);
    assert [CreatePayout(p), n, w] == [CreatePayout(p)] + ([n] + ([w] + []));
    ApplyAllStep(o, CreatePayout(p), [n] + ([w] + []), complete);
    ApplyAllStep(o, n, [w] + [], complete);
    ApplyAllStep(o.(notes := o.notes + [RefundCreated(record)]), w, [], complete);
  }

  /** A created payout returns success, appends one note and one more
      non-unique refund row, both holding the record as the source writes it
      (the requested amount beside the payout's currency), and leaves the
      status and the stored invoice id alone. */
  lemma CreatedPayoutIsRecorded(
    o: Order, methods: seq<string>, amount: Dec, reason: string, id: string, link: string, complete: string -> string)
    requires FirstFailure(true, true, o, Some(amount)).None?
    ensures var r := ProcessRefund(true, true, o, methods, Some(amount), reason, PayoutMade(id, link));
      var after := ApplyAll(o, r.log, complete);
      var written := RecordAsWritten(id, link, amount, Payout(o, methods, amount, reason), reason);
      && r.error.None?
      && written.amount == amount && written.currency == r.log[0].payout.currency
      && after.notes == o.notes + [RefundCreated(written)]
      && after.meta == o.meta + [MetaEntry(RefundKey, RefundInfo(written))]
      && CountKey(after.meta, RefundKey) == CountKey(o.meta, RefundKey) + 1
      && StoredInvoiceId(after) == StoredInvoiceId(o)
      && after.status == o.status
  {
    var p := Payout(o, methods, amount, reason);
    var record := RecordAsWritten(id, link, amount, p, reason);
    var log := [CreatePayout(p), AddNote(RefundCreated(record)), WriteMeta(RefundKey, RefundInfo(record), false)];
    assert ProcessRefund(true, true, o, methods, Some(amount), reason, PayoutMade(id, link)) == Refund(None, log);
    PlayCreatedPayout(o, p, record, complete);
    AddMetaAppends(o.meta, RefundKey, RefundInfo(record), InvoiceIdKey);
  }

  /** An empty payout and an exception are distinct failures that leave the
      order exactly as it was. */
  lemma FailedPayoutChangesNothing(
    o: Order, methods: seq<string>, amount: Dec, reason: string, reply: PayoutReply, complete: string -> string)
    requires FirstFailure(true, true, o, Some(amount)).None?
    requires !reply.PayoutMade?
    ensures var r := ProcessRefund(true, true, o, methods, Some(amount), reason, reply);
      && r.error == Some(if reply.PayoutEmpty? then EmptyPayout else PayoutException(reply.message))
      && ApplyAll(o, r.log, complete) == o
  {
    ApplyAllStep(o, CreatePayout(Payout(o, methods, amount, reason)), [], complete);
  }

  /** With the corrected record, every created payout's note and refund row
      state the amount and currency actually paid out. */
  lemma RefundRecordMatchesPayout(
    o: Order, methods: seq<string>, amount: Dec, reason: string, id: string, link: string)
    requires FirstFailure(true, true, o, Some(amount)).None?
    ensures var r := ProcessRefundIntended(true, true, o, methods, Some(amount), reason, PayoutMade(id, link));
      && r.error.None?
      && r.log[1].AddNote? && r.log[1].note.RefundCreated?
      && r.log[1].note.record.amount == r.log[0].payout.amount
      && r.log[1].note.record.currency == r.log[0].payout.currency
      && r.log[2] == WriteMeta(RefundKey, RefundInfo(r.log[1].note.record), false)
  {
  }

  /** The correction changes nothing but the record, and nothing at all
      outside sats mode, where the payout amount is the requested one. */
  lemma IntendedDiffersOnlyInRecord(
    serverSupportsRefunds: bool, keyCanRefund: bool, o: Order, methods: seq<string>,
    amount: Option<Dec>, reason: string, reply: PayoutReply)
    ensures var a := ProcessRefund(serverSupportsRefunds, keyCanRefund, o, methods, amount, reason, reply);
      var b := ProcessRefundIntended(serverSupportsRefunds, keyCanRefund, o, methods, amount, reason, reply);
      && a.error == b.error && |a.log| == |b.log|
      && (|a.log| > 0 ==> a.log[0] == b.log[0])
    ensures o.currency != "SAT" ==>
      ProcessRefund(serverSupportsRefunds, keyCanRefund, o, methods, amount, reason, reply) ==
      ProcessRefundIntended(serverSupportsRefunds, keyCanRefund, o, methods, amount, reason, reply)
  {
  }

  /** As written, a sats-mode refund is mislabelled: refunding 1000 SAT pays
      out 0.00001000 BTC, but the note and the refund row read "1000 BTC". */
  lemma RecordAsWrittenMislabelsSats(o: Order, methods: seq<string>, reason: string, id: string, link: string)
    requires o.currency == "SAT"
    requires FirstFailure(true, true, o, Some(Dec(1000, 0))).None?
    ensures var r := ProcessRefund(true, true, o, methods, Some(Dec(1000, 0)), reason, PayoutMade(id, link));
      var written := RefundRecord(id, link, Dec(1000, 0), "BTC", reason);
      && r.log[0].payout.amount == Dec(1000, 8) && r.log[0].payout.currency == "BTC"
      && r.log[1] == AddNote(RefundCreated(written))
      && r.log[2] == WriteMeta(RefundKey, RefundInfo(written), false)
      && !SameValue(written.amount, r.log[0].payout.amount)
  {
    WholeSatoshisConvertLosslessly(1000);
  }
}
