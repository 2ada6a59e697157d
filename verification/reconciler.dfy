/**
  The order-status reconciler: turns one verified webhook event into the
  ordered effects on the matching order, through the configured state mapping.
 */
module Reconciler {
  import opened Text
  import opened OrderStates
  import opened Orders

  /** The decoded webhook body's event part. Flags absent from the body read as
      false. */
  datatype WebhookEvent = WebhookEvent(
    kind: string,
    afterExpiration: bool,
    overPaid: bool,
    partiallyPaid: bool,
    manuallyMarked: bool)

  /** The event types the reconciler reacts to; any other type is ignored. */
  predicate KnownEvent(kind: string) {
    kind == "New" || kind == "Processing" || kind == "Settled" || kind == "Expired" || kind == "Invalid"
  }

  /** The effects of processing one event. `threw` records that a mapping
      lookup failed part-way (a key missing from a non-empty stored mapping:
      PHP reads null, and passing it as the status string raises a TypeError
      that the webhook handler catches); `log` then holds the steps taken
      before the failure. */
  datatype Reconciled = Reconciled(log: seq<Effect>, threw: bool)

  /** The mapping in force: the stored option, unless the option as a whole is
      falsy (unset or empty), in which case the defaults. There is no per-key
      fallback. */
  function EffectiveMapping(stored: Option<Mapping>): (m: Mapping)
    ensures stored.Some? && stored.value != map[] ==> m == stored.value
    ensures stored.None? || stored.value == map[] ==> m == DefaultMappings()
  {
    if stored.None? || stored.value == map[] then DefaultMappings() else stored.value
  }

  /** `updateWCOrderStatus`: no step for Ignore, otherwise a status change. */
  function UpdateStatus(mapped: string): seq<Effect> {
    if mapped == Ignore then [] else [SetStatus(mapped)]
  }

  /** Playing a status update sets the mapped status unless it is Ignore, and
      changes nothing else about the order. */
  lemma UpdateStatusEffect(o: Order, mapped: string, complete: string -> string)
    ensures ApplyAll(o, UpdateStatus(mapped), complete).status == (if mapped == Ignore then o.status else mapped)
    ensures ApplyAll(o, UpdateStatus(mapped), complete).(status := o.status) == o
  {
  }

  /** `before`, then the status update for `key` when the mapping has it, then
      `after`; a missing key stops the processing right after `before`. */
  function WithStatus(before: seq<Effect>, m: Mapping, key: string, after: seq<Effect>): Reconciled {
    if key in m then Reconciled(before + UpdateStatus(m[key]) + after, false)
    else Reconciled(before, true)
  }

  /** `processOrderStatus`. */
  function ProcessOrderStatus(event: WebhookEvent, stored: Option<Mapping>): Reconciled {
    var m := EffectiveMapping(stored);
    if !KnownEvent(event.kind) then Reconciled([], false)
    else if event.kind == "New" then
      if event.afterExpiration then WithStatus([], m, ExpiredPaidPartial, [AddNote(PaidAfterExpiration)])
      else Reconciled([AddNote(PartialPaymentIncoming)], false)
    else if event.kind == "Settled" then
      if event.overPaid then WithStatus([PaymentComplete, AddNote(SettledOverpaid)], m, SettledPaidOver, [])
      else WithStatus([PaymentComplete, AddNote(PaymentSettled)], m, Settled, [])
    else if event.kind == "Processing" then
      WithStatus([], m, Processing, [AddNote(if event.overPaid then ReceivedFullyOverpaid else ReceivedFully)])
    else if event.kind == "Expired" then
      if event.partiallyPaid then WithStatus([], m, ExpiredPaidPartial, [AddNote(ExpiredPaidPartially)])
      else WithStatus([], m, Expired, [AddNote(InvoiceExpired)])
    else
      WithStatus([], m, Invalid, [AddNote(if event.manuallyMarked then ManuallyMarkedInvalid else BecameInvalid)])
  }

  // ---------------------------------------------------------------------------
  // The transition table, written out independently of ProcessOrderStatus.

  /** The mapping key each (event, flag) combination consults, if any. */
  function TableKey(event: WebhookEvent): Option<string> {
    match event.kind
    case "New" => if event.afterExpiration then Some(ExpiredPaidPartial) else None
    case "Settled" => Some(if event.overPaid then SettledPaidOver else Settled)
    case "Processing" => Some(Processing)
    case "Expired" => Some(if event.partiallyPaid then ExpiredPaidPartial else Expired)
    case "Invalid" => Some(Invalid)
    case _ => None
  }

  /** The note each (event, flag) combination appends. */
  function TableNote(event: WebhookEvent): Option<Note> {
    match event.kind
    case "New" => Some(if event.afterExpiration then PaidAfterExpiration else PartialPaymentIncoming)
    case "Settled" => Some(if event.overPaid then SettledOverpaid else PaymentSettled)
    case "Processing" => Some(if event.overPaid then ReceivedFullyOverpaid else ReceivedFully)
    case "Expired" => Some(if event.partiallyPaid then ExpiredPaidPartially else InvoiceExpired)
    case "Invalid" => Some(if event.manuallyMarked then ManuallyMarkedInvalid else BecameInvalid)
    case _ => None
  }

  /** The order status after the event: the mapped status when the table names
      a key the mapping has and its value is not Ignore; otherwise the status
      payment completion leaves (Settled) or the status as it was. */
  function TableStatus(event: WebhookEvent, m: Mapping, current: string, complete: string -> string): string {
    var key := TableKey(event);
    if key.Some? && key.value in m && m[key.value] != Ignore then m[key.value]
    else if event.kind == "Settled" then complete(current)
    else current
  }

  /** An event type outside the known set yields no effect at all. */
  lemma UnknownEventIsIgnored(event: WebhookEvent, stored: Option<Mapping>)
    requires !KnownEvent(event.kind)
    ensures ProcessOrderStatus(event, stored) == Reconciled([], false)
  {
  }

  /** Processing fails part-way exactly when the table names a key that the
      mapping in force lacks. */
  lemma ThrowsIffKeyMissing(event: WebhookEvent, stored: Option<Mapping>)
    ensures ProcessOrderStatus(event, stored).threw <==>
      TableKey(event).Some? && TableKey(event).value !in EffectiveMapping(stored)
  {
  }

  /** Payment completion is issued for Settled events and only for them, and
      always as the first step, whatever the mapping holds. */
  lemma OnlySettledCompletesPayment(event: WebhookEvent, stored: Option<Mapping>)
    ensures PaymentComplete in ProcessOrderStatus(event, stored).log <==> event.kind == "Settled"
    ensures event.kind == "Settled" ==> ProcessOrderStatus(event, stored).log[0] == PaymentComplete
  {
  }

  /** The notes of a status step are those around the status update. */
  lemma WithStatusNotes(before: seq<Effect>, m: Mapping, key: string, after: seq<Effect>)
    ensures var r := WithStatus(before, m, key, after);
      r.threw ==> r.log == before
    ensures var r := WithStatus(before, m, key, after);
      !r.threw ==> NoteCount(r.log) == NoteCount(before) + NoteCount(after)
    ensures var r := WithStatus(before, m, key, after);
      !r.threw ==> forall e :: e in before + after ==> e in r.log
  {
    if key in m {
      var u := UpdateStatus(m[key]);
      assert NoteCount(u) == 0;
      NoteCountConcat(before, u);
      NoteCountConcat(before + u, after);
    }
  }

  /** A completed processing appends exactly the table's note, once; a failed
      one appends the note only when it precedes the status lookup (Settled). */
  lemma NoteFollowsTable(event: WebhookEvent, stored: Option<Mapping>)
    requires KnownEvent(event.kind)
    ensures var r := ProcessOrderStatus(event, stored);
      !r.threw ==> NoteCount(r.log) == 1 && AddNote(TableNote(event).value) in r.log
    ensures var r := ProcessOrderStatus(event, stored);
      r.threw ==> NoteCount(r.log) == (if event.kind == "Settled" then 1 else 0)
  {
    var m := EffectiveMapping(stored);
    var note := [AddNote(TableNote(event).value)];
    assert NoteCount(note) == 1;
    if event.kind == "Settled" {
      var pre := [PaymentComplete] + note;
      assert NoteCount(pre) == 1 by {
        assert pre[1..] == note;
      }
      assert ProcessOrderStatus(event, stored) == WithStatus(pre, m, TableKey(event).value, []);
      WithStatusNotes(pre, m, TableKey(event).value, []);
      assert note[0] in pre + [];
    } else if TableKey(event).Some? {
      assert ProcessOrderStatus(event, stored) == WithStatus([], m, TableKey(event).value, note);
      WithStatusNotes([], m, TableKey(event).value, note);
      assert note[0] in [] + note;
    }
  }

  /** Settled's shape: completion, a note, then the status update. */
  lemma SettledShapeStatus(o: Order, n: Note, mapped: string, complete: string -> string)
    ensures ApplyAll(o, [PaymentComplete, AddNote(n)] + UpdateStatus(mapped) + [], complete).status ==
      if mapped == Ignore then complete(o.status) else mapped
  {
    var pre := [PaymentComplete, AddNote(n)];
    var u := UpdateStatus(mapped);
    assert pre + u + [] == pre + u;
    ApplyAllConcat(o, pre, u, complete);
    ApplyAllStep(o, PaymentComplete, [AddNote(n)], complete);
    ApplyAllStep(Apply(o, PaymentComplete, complete), AddNote(n), [], complete);
    UpdateStatusEffect(ApplyAll(o, pre, complete), mapped, complete);
  }

  /** Every other shape: the status update, then a note. */
  lemma UpdateThenNoteStatus(o: Order, n: Note, mapped: string, complete: string -> string)
    ensures ApplyAll(o, [] + UpdateStatus(mapped) + [AddNote(n)], complete).status ==
      if mapped == Ignore then o.status else mapped
  {
    var u := UpdateStatus(mapped);
    assert [] + u + [AddNote(n)] == u + [AddNote(n)];
    ApplyAllConcat(o, u, [AddNote(n)], complete);
    UpdateStatusEffect(o, mapped, complete);
    ApplyAllStep(ApplyAll(o, u, complete), AddNote(n), [], complete);
  }

  /** The status the order ends in is the one the transition table and the
      mapping in force prescribe. */
  lemma StatusFollowsTable(event: WebhookEvent, stored: Option<Mapping>, o: Order, complete: string -> string)
    ensures ApplyAll(o, ProcessOrderStatus(event, stored).log, complete).status ==
      TableStatus(event, EffectiveMapping(stored), o.status, complete)
  {
    var m := EffectiveMapping(stored);
    var r := ProcessOrderStatus(event, stored);
    var key := TableKey(event);
    if !KnownEvent(event.kind) {
      assert r.log == [];
    } else if key.None? {
      assert r.log == [AddNote(PartialPaymentIncoming)];
      ApplyAllStep(o, AddNote(PartialPaymentIncoming), [], complete);
    } else if key.value !in m {
      if event.kind == "Settled" {
        var pre := [PaymentComplete, AddNote(TableNote(event).value)];
        assert r.log == pre;
        ApplyAllStep(o, PaymentComplete, [AddNote(TableNote(event).value)], complete);
        ApplyAllStep(Apply(o, PaymentComplete, complete), AddNote(TableNote(event).value), [], complete);
      } else {
        assert r.log == [];
      }
    } else if event.kind == "Settled" {
      assert r.log == [PaymentComplete, AddNote(TableNote(event).value)] + UpdateStatus(m[key.value]) + [];
      SettledShapeStatus(o, TableNote(event).value, m[key.value], complete);
    } else {
      assert r.log == [] + UpdateStatus(m[key.value]) + [AddNote(TableNote(event).value)];
      UpdateThenNoteStatus(o, TableNote(event).value, m[key.value], complete);
    }
  }

  /** The full table under the default mapping (nothing configured). */
  lemma DefaultTransitions(event: WebhookEvent, o: Order, complete: string -> string)
    requires KnownEvent(event.kind)
    ensures var after := ApplyAll(o, ProcessOrderStatus(event, None).log, complete).status;
      && (event.kind == "New" && !event.afterExpiration ==> after == o.status)
      && (event.kind == "New" && event.afterExpiration ==> after == "wc-failed")
      && (event.kind == "Settled" && !event.overPaid ==> after == complete(o.status))
      && (event.kind == "Settled" && event.overPaid ==> after == "wc-processing")
      && (event.kind == "Processing" ==> after == "wc-on-hold")
      && (event.kind == "Expired" && !event.partiallyPaid ==> after == "wc-cancelled")
      && (event.kind == "Expired" && event.partiallyPaid ==> after == "wc-failed")
      && (event.kind == "Invalid" ==> after == "wc-failed")
    ensures !ProcessOrderStatus(event, None).threw
  {
    StatusFollowsTable(event, None, o, complete);
  }

  /** Agreement of two mappings on the six keys the reconciler consults. */
  predicate AgreeOnReadKeys(a: Mapping, b: Mapping) {
    forall k :: k in {Processing, Settled, SettledPaidOver, Invalid, Expired, ExpiredPaidPartial} ==>
      (k in a <==> k in b) && (k in a ==> a[k] == b[k])
  }

  /** The keys New and ExpiredPaidLate are never read: two non-empty stored
      mappings that agree elsewhere give the same effects for every event. */
  lemma NewAndPaidLateNeverRead(event: WebhookEvent, a: Mapping, b: Mapping)
    requires a != map[] && b != map[]
    requires AgreeOnReadKeys(a, b)
    ensures ProcessOrderStatus(event, Some(a)) == ProcessOrderStatus(event, Some(b))
  {
    var ks := {Processing, Settled, SettledPaidOver, Invalid, Expired, ExpiredPaidPartial};
    assert Processing in ks && Settled in ks && SettledPaidOver in ks;
    assert Invalid in ks && Expired in ks && ExpiredPaidPartial in ks;
  }

  /** The reconciler falls back to the defaults only for a falsy option as a
      whole, while the settings selector falls back key by key: a stored
      mapping lacking `Processing` shows the default on-hold status in the
      selector but makes a Processing event fail before any status change. */
  lemma WholeOptionVersusPerKeyFallback(m: Mapping, event: WebhookEvent)
    requires m != map[] && Processing !in m
    requires event.kind == "Processing"
    ensures Preselected(Some(m), Processing) == "wc-on-hold"
    ensures ProcessOrderStatus(event, Some(m)) == Reconciled([], true)
  {
  }

  /** For every stored option and every state key, the settings form
      preselects the status the reconciler applies exactly when the mapping in
      force holds a non-empty value for that key: with nothing stored both use
      the defaults, and a stored mapping whose value for the key is missing,
      "" or "0" makes the form show the default while the reconciler does not
      apply it. */
  lemma FormShowsAppliedStatusIff(stored: Option<Mapping>, k: string)
    requires k in DefaultMappings()
    ensures (k in EffectiveMapping(stored) && Preselected(stored, k) == EffectiveMapping(stored)[k]) <==>
      (k in EffectiveMapping(stored) && !Falsy(EffectiveMapping(stored)[k]))
    ensures stored.None? || stored.value == map[] ==>
      k in EffectiveMapping(stored) && Preselected(stored, k) == EffectiveMapping(stored)[k]
  {
    assert forall d :: d in DefaultMappings() ==> !Falsy(DefaultMappings()[d]);
  }

  /** Delivering the same event twice ends in the same status as delivering it
      once (given that the host's payment completion is itself idempotent);
      the notes, however, are appended again. */
  lemma RedeliveryKeepsStatus(event: WebhookEvent, stored: Option<Mapping>, o: Order, complete: string -> string)
    requires forall s :: complete(complete(s)) == complete(s)
    ensures var log := ProcessOrderStatus(event, stored).log;
      ApplyAll(ApplyAll(o, log, complete), log, complete).status == ApplyAll(o, log, complete).status
    ensures var log := ProcessOrderStatus(event, stored).log;
      |ApplyAll(ApplyAll(o, log, complete), log, complete).notes| == |o.notes| + 2 * NoteCount(log)
  {
    var log := ProcessOrderStatus(event, stored).log;
    var m := EffectiveMapping(stored);
    var once := ApplyAll(o, log, complete);
    StatusFollowsTable(event, stored, o, complete);
    StatusFollowsTable(event, stored, once, complete);
    ApplyAllNotes(o, log, complete);
    ApplyAllNotes(once, log, complete);
  }
}
