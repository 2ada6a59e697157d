# Coinsnap for WooCommerce: payment-gateway core in Dafny

This project models the decision logic of the Coinsnap WooCommerce payment
gateway (`AbstractGateway` and the `OrderStates` helper) as pure functions over
immutable data, and proves what each operation does to the shop order and
what it sends to the Coinsnap payment server.

Every gateway operation returns an ordered log of effects: payment completion,
order notes, status changes, metadata writes, invoice and payout requests,
invoice invalidation. `Orders.ApplyAll` plays such a log against an order,
giving the gateway-relevant part of the order afterwards: status, notes the
gateway adds, metadata rows. Calls to the server and to the host shop become
inputs:
- the HMAC verdict is a function parameter;
- the decoded webhook body, the fetched invoice status, and the
  creation and payout replies are values;
- the status that the shop's payment completion moves an order to is a
  function `complete`.

Modules:

- `Text`: PHP string helpers.
  - Falsy strings are `""` and `"0"`.
  - ASCII `strtolower`.
- `Decimal`: fixed-point amounts.
  - `bcdiv` truncates toward zero.
  - The sats-mode conversion (`SAT` becomes `BTC`, divided by 10^8 at scale 8).
- `OrderStates`: the eight invoice states and their default shop statuses.
  - The Ignore sentinel.
  - The options offered in the settings form, and which option each one
    preselects.
- `Orders`: the order and its metadata rows, notes, the effect log, and how a
  log is played.
- `Reconciler`: `processOrderStatus`, which maps a webhook event to status
  and note effects through the configured mapping.
- `Webhook`: `processWebhook`.
  - Signature header lookup.
  - Rejection paths with their HTTP statuses.
  - The order query.
  - The hand-off of exactly one order to the reconciler.
- `Invoices`: the checkout path.
  - `validInvoiceExists`.
  - The invoice amount and currency.
  - `createInvoice` with what it persists.
  - `process_payment`.
- `Refunds`: `process_refund`.
  - Its ordered preconditions.
  - The payout request without LNURL-pay.
  - The record a created payout leaves on the order.

Where the code and its documented intent differ, the model follows the code:

- The reconciler falls back to the default mapping only when the stored
  option as a whole is falsy, not per key. A stored mapping that lacks a key
  makes PHP read null for it. Passing null as the status raises a TypeError,
  which `processWebhook` catches. The model therefore records that processing
  stopped part-way (`Reconciled.threw`) after the steps already taken. The
  settings form, by contrast, falls back key by key.
- With separate gateways enabled, `validInvoiceExists` has its
  payment-method comparison commented out. A live invoice is therefore always
  noted and marked invalid, and a new one is created.
- A decoded webhook without an invoice id ends in `wp_die` with its default
  status 500, not in an acknowledgement.
- A body that fails to decode is caught and the request returns normally.
- "No order found" is the only `wp_die` that passes status 200. Every other
  `wp_die` uses the default 500. Normal returns are ordinary responses.
- A refund record states the amount the merchant entered beside the payout's
  currency, which is wrong in sats mode (see Findings). `Refunds.ProcessRefund`
  keeps that behaviour. `Refunds.ProcessRefundIntended` is the corrected
  operation, which records the payout's own amount.

## Model

| member | source | states |
|---|---|---|
| Text.Lower | src/Gateway/AbstractGateway.php:358 | `strtolower` keeps the length and every non-letter; A-Z become the letter at the same alphabet position in a-z, so no upper-case letter remains |
| Text.LowerIdempotent | src/Gateway/AbstractGateway.php:358 | lower-casing an already lower-cased name changes nothing |
| Webhook.CanonicalSignatureHeaderMatches | src/Gateway/AbstractGateway.php:358 | the server's spelling `X-Coinsnap-Sig` and the lower-case spelling are both taken as the signature header, and a different name is not |
| Decimal.TruncDiv | src/Gateway/AbstractGateway.php:633 | the quotient is the largest magnitude whose multiple fits under the dividend, with the dividend's sign (truncation toward zero, as bcmath divides) |
| Decimal.BcDiv | src/Gateway/AbstractGateway.php:633 | the result has the requested scale and is the exact quotient truncated toward zero at that scale |
| Decimal.SatToBtcTruncatesSatoshis | src/Gateway/AbstractGateway.php:631-635 | the BTC amount at scale 8 is the satoshi amount cut to a whole number of satoshis |
| Decimal.SatToBtcExactIff | src/Gateway/AbstractGateway.php:631-635 | converting back to satoshis gives the original amount exactly when it was a whole number of satoshis |
| Decimal.WholeSatoshisConvertLosslessly | src/Gateway/AbstractGateway.php:631-635 | n satoshis become the same digits n at scale 8 in BTC |
| Decimal.ToServerMoney | src/Gateway/AbstractGateway.php:631-635 | SAT becomes BTC at scale 8 with the truncated conversion; every other currency, and an absent one, passes unchanged |
| OrderStates.LabelsAndDefaultsShareKeys | src/Helper/OrderStates.php:17-41 | the label table has eight distinct keys, the same as the default mapping |
| OrderStates.IgnoreIsDistinctFromDefaultStatuses | src/Helper/OrderStates.php:7-28 | only Settled defaults to the Ignore sentinel; every other default is a `wc-` status, which the sentinel is not |
| OrderStates.WithoutKey | src/Helper/OrderStates.php:49 | an entry survives exactly when it was in the table and its key differs from the dropped one |
| OrderStates.SelectableOptionsShape | src/Helper/OrderStates.php:48-49 | the array union puts the Ignore option first under its own label, keeps keys distinct and offers every other shop status |
| OrderStates.PreselectionIsPerKey | src/Helper/OrderStates.php:67-71 | what a drop-down preselects depends only on its own key's stored entry (missing, "" or "0" falls back to that key's default, even when other keys are stored) and is never an empty value |
| OrderStates.AtMostOneSelected | src/Helper/OrderStates.php:66-78 | at most one option per key is marked selected, and exactly one when the preselected value is among the options |
| Orders.MetaGet | src/Gateway/AbstractGateway.php:106 | the single-value read is absent exactly when no row has the key, and otherwise returns the value of the first row under the key |
| Orders.UpdateMetaReadsBack | src/Gateway/AbstractGateway.php:700-704 | after `update_post_meta` the key reads back the written value and every other key reads and counts as before |
| Orders.AddMetaAppends | src/Gateway/AbstractGateway.php:219 | a non-unique write adds exactly one row under its key and leaves every other key as it was |
| Orders.ApplyAllNotes | src/Gateway/AbstractGateway.php:406-472 | playing a log appends exactly its notes after the existing ones, which stay as they were |
| Orders.ApplyAllKeepsOrderData | src/Gateway/AbstractGateway.php:82-134 | no effect changes the order's number, total, currency, items, billing data or remaining refundable amount |
| Reconciler.FormShowsAppliedStatusIff | src/Gateway/AbstractGateway.php:414-416 | for every stored option and state key, the status the reconciler applies is the one the settings form shows exactly when the mapping in force holds a non-empty value for the key; with nothing stored both use the defaults |
| Reconciler.UnknownEventIsIgnored | src/Gateway/AbstractGateway.php:407-410 | an event type outside the five known ones issues no effect |
| Reconciler.ThrowsIffKeyMissing | src/Gateway/AbstractGateway.php:418-471 | processing stops part-way exactly when the mapping in force lacks the key the event consults |
| Reconciler.OnlySettledCompletesPayment | src/Gateway/AbstractGateway.php:432-445 | payment completion is issued for Settled and only for Settled, always as the first step |
| Reconciler.NoteFollowsTable | src/Gateway/AbstractGateway.php:418-471 | a completed processing appends the note the transition table prescribes, exactly once; a failed one appends a note only for Settled |
| Reconciler.StatusFollowsTable | src/Gateway/AbstractGateway.php:418-471 | the resulting status is the one the independent transition table and the mapping prescribe (Ignore leaves the status, Settled completes payment first) |
| Reconciler.UpdateStatusEffect | src/Gateway/AbstractGateway.php:535-540 | a status update sets the mapped status unless it is Ignore and changes nothing else |
| Reconciler.DefaultTransitions | src/Gateway/AbstractGateway.php:418-471 | with nothing configured each event/flag combination ends in its default status and never fails |
| Reconciler.NewAndPaidLateNeverRead | src/Gateway/AbstractGateway.php:418-471 | two stored mappings that agree on the six consulted keys give identical effects for every event |
| Reconciler.WholeOptionVersusPerKeyFallback | src/Gateway/AbstractGateway.php:414-416 | a stored mapping lacking Processing shows on-hold in the settings form but makes a Processing event fail before any effect |
| Reconciler.RedeliveryKeepsStatus | src/Gateway/AbstractGateway.php:418-471 | assuming the host's payment completion is idempotent (completing twice gives the status completing once gives), delivering an event twice ends in the same status as delivering it once, with the notes appended twice |
| Webhook.ScanSignatureSpec | src/Gateway/AbstractGateway.php:357-361 | the header scan keeps the value of the last header named `x-coinsnap-sig` in any letter case, and the prior value when there is none |
| Webhook.SignatureIsLastMatchingHeader | src/Gateway/AbstractGateway.php:355-363 | the signature is absent exactly when no header matches, and is otherwise the last matching header's value |
| Webhook.LastIndex | src/Gateway/AbstractGateway.php:357-361 | when some header matches there is a last matching one |
| Webhook.SignatureIgnoresNameCase | src/Gateway/AbstractGateway.php:358 | header lists differing only in the letter case of names give the same signature |
| Webhook.Matching | src/Gateway/AbstractGateway.php:377-380 | the query returns, in store order and without repeats, exactly the orders carrying the invoice id |
| Webhook.BadSignatureRejectsFirst | src/Gateway/AbstractGateway.php:363-366 | a missing or invalid signature ends the request with status 500 whatever the body and store hold, and changes no order |
| Webhook.MalformedBodies | src/Gateway/AbstractGateway.php:368-374 | a body without an invoice id ends with status 500; an undecodable one returns normally; neither touches an order |
| Webhook.NoOrderIsAcknowledged | src/Gateway/AbstractGateway.php:383-388 | an authentic event for an unknown invoice is answered with 200 and changes nothing |
| Webhook.SharedInvoiceIsRejected | src/Gateway/AbstractGateway.php:391-395 | an authentic event whose invoice two orders carry is rejected with 500 and changes nothing |
| Webhook.SingleOrderIsReconciled | src/Gateway/AbstractGateway.php:397 | an authentic event whose invoice exactly one order carries is reconciled on that order and no other order changes |
| Invoices.ReuseDecision | src/Gateway/AbstractGateway.php:482-520 | the stored invoice is reusable exactly when it exists, was fetched, is neither Expired nor Invalid, and separate gateways are off; the note and invalidation happen exactly in the separate-gateways case |
| Invoices.SumQuantitiesBounds | src/Gateway/AbstractGateway.php:709-716 | the item count of non-negative quantities is non-negative and at least each quantity |
| Invoices.TotalItemsQuantity | src/Gateway/AbstractGateway.php:709-716 | the loop returns the sum of all line-item quantities |
| Invoices.RequestAmountAndCurrency | src/Gateway/AbstractGateway.php:583-651 | promotion mode charges the item count in the primary method, otherwise the order total and currency; SAT goes out as BTC with the truncated conversion; buyer data always and payment methods only when configured |
| Invoices.FailedCreationPersistsNothing | src/Gateway/AbstractGateway.php:657-662 | a failed creation returns null and leaves the order unchanged |
| Invoices.CreationPersistsOnSuccess | src/Gateway/AbstractGateway.php:638-655 | a created invoice is returned and its id and redirect link read back from the order, with status and notes untouched |
| Invoices.CheckoutReusesOrCreates | src/Gateway/AbstractGateway.php:82-134 | checkout redirects to the stored invoice without a new request exactly when it is reusable; otherwise it requests exactly one invoice and redirects to it, or returns null on failure |
| Invoices.ChangedGatewayReplacesInvoice | src/Gateway/AbstractGateway.php:495-511 | with separate gateways a live stored invoice is noted, marked invalid, and replaced by the new invoice's id |
| Refunds.WithoutLnurlSpec | src/Gateway/AbstractGateway.php:185-189 | the payout's methods are the gateway's minus every LNURL-pay entry, others kept in order; a list without it is unchanged |
| Refunds.FilterSpec | src/Gateway/AbstractGateway.php:188 | `array_diff` keeps exactly the entries other than the dropped one, in order, and drops each of its occurrences |
| Refunds.PreconditionsInOrder | src/Gateway/AbstractGateway.php:137-174 | the first failing precondition (server support, key permission, amount, invoice id, remaining amount) decides the error, and a payout is requested exactly when all hold |
| Refunds.RefundPayoutRequest | src/Gateway/AbstractGateway.php:176-206 | once the preconditions hold, exactly one payout is requested, first, for the SAT-converted amount and currency, the gateway's methods without LNURL-pay, and the order-number description |
| Refunds.FailedPayoutChangesNothing | src/Gateway/AbstractGateway.php:222-231 | an empty payout and an exception are distinct errors and leave the order exactly as it was |
| Refunds.CreatedPayoutIsRecorded | src/Gateway/AbstractGateway.php:208-221 | a created payout returns success and appends one note and one more non-unique refund row, both holding the record as written (requested amount, payout currency); status and stored invoice id are kept |
| Refunds.RecordAsWrittenMislabelsSats | src/Gateway/AbstractGateway.php:209-212 | as written, a 1000 SAT refund pays 0.00001000 BTC while its note and refund row read 1000 BTC |
| Refunds.RefundRecordMatchesPayout | src/Gateway/AbstractGateway.php:209-212 | corrected definition: the note and refund row of every created payout state the amount and currency actually paid out |
| Refunds.IntendedDiffersOnlyInRecord | src/Gateway/AbstractGateway.php:176-221 | the corrected refund has the same error, payout and number of effects as the one written, and is identical outside sats mode |

## Left out

- The HMAC computation of `validWebhookRequest` is not modelled. Its verdict is the parameter `validSignature`.
- JSON decoding is not modelled. The decoded payload is an input, and None stands for a decode error. Fields of unexpected JSON types are not modelled; absent boolean flags read as false.
- `wc_get_orders` is modelled as an exact string match on the `Coinsnap_id` rows. Database collation rules are not modelled.
- `getallheaders` is given as a sequence of name/value pairs.
- Logging, translation of messages, and the HTML of the settings form are left out. Notes are tags, one per distinct message.
- WooCommerce's own bookkeeping is not modelled. `update_status` stores the status without its `wc-` prefix, and it and `payment_complete` add their own status-change notes. `SetStatus` stores the mapped value as given, and `Orders.ApplyAllNotes` counts only the gateway's notes.
- `updateWCOrderPayments` is commented out in the source, so it is left out.
- WooCommerce's `payment_complete` is not modelled. Its status change is the parameter `complete`, and its other bookkeeping is reduced to a completion counter.
- `CoinsnapApiWebhook::WEBHOOK_EVENTS` is not part of this model. It is taken to be the five event types the switch handles.
- The server-capability check, the key-permission check and `getPaymentMethods` are inputs.
- The global settings page, the REST and API client classes, `get_return_url` and the redirect URL helper are left out. A redirect to the stored invoice is represented by the invoice id.
- Customer and POS metadata of the invoice request are reduced to a flag (`withCustomerData`) together with buyer email and name, because they do not affect any decision.
- Invoices.ValidInvoiceExists: a fetched invoice without payment methods makes the commented-out comparison's preparation throw, which is then caught. That path skips the note and the invalidation. It is not modelled, because the fetched invoice is given by its status only.
- Refunds.FirstFailure: the amount check compares exact decimals. PHP compares the requested amount with the remaining refundable amount as floats, and that rounding is not modelled.
- PHP 64-bit integer overflow of the item-quantity sum is not modelled; integers are unbounded.
- A non-`Coinsnap_id` failure of `wc_get_order` inside `process_refund` is not modelled; the order is given.
- `process_payment` under the modal checkout only adds a log line, which is left out.

## Findings

| source | as written | input that shows it | evidently intended | confidence | as-written member | corrected member |
|---|---|---|---|---|---|---|
| src/Gateway/AbstractGateway.php:209-212 | the refund note and the `Coinsnap_refund` row print the amount the merchant entered next to the payout currency, which sats mode has already switched to BTC | an order in SAT refunded 1000: the payout is 0.00001000 BTC but the record reads "Amount: 1000 BTC" | the record states the amount and currency of the payout actually created | high, not executed | Refunds.RecordAsWrittenMislabelsSats | Refunds.RefundRecordMatchesPayout |
