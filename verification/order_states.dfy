/**
  The order-state configuration: the eight payment-server state keys, the
  IGNORE sentinel, the default mapping from server state to shop order status,
  and the selection rule of the settings selector (which option each key's
  drop-down shows as selected).
 */
module OrderStates {
  import opened Text

  const New: string := "New"
  const Processing: string := "Processing"
  const Settled: string := "Settled"
  const SettledPaidOver: string := "SettledPaidOver"
  const Invalid: string := "Invalid"
  const Expired: string := "Expired"
  const ExpiredPaidPartial: string := "ExpiredPaidPartial"
  const ExpiredPaidLate: string := "ExpiredPaidLate"

  /** The mapped value meaning "leave the order status alone". */
  const Ignore: string := "COINSNAP_IGNORE"

  /** A stored mapping from state key to shop status (or Ignore). */
  type Mapping = map<string, string>

  /** The default mapping used when no mapping is configured. */
  function DefaultMappings(): Mapping {
    map[
      New := "wc-pending",
      Processing := "wc-on-hold",
      Settled := Ignore,
      SettledPaidOver := "wc-processing",
      Invalid := "wc-failed",
      Expired := "wc-cancelled",
      ExpiredPaidPartial := "wc-failed",
      ExpiredPaidLate := "wc-processing"
    ]
  }

  /** The selector's rows, in display order: state key and its English label. */
  function StateLabels(): seq<(string, string)> {
    [
      (New, "New"),
      (Processing, "Paid"),
      (Settled, "Settled"),
      (SettledPaidOver, "Settled (paid over)"),
      (Invalid, "Invalid"),
      (Expired, "Expired"),
      (ExpiredPaidPartial, "Expired with partial payment"),
      (ExpiredPaidLate, "Expired (paid late)")
    ]
  }

  function Keys<V>(table: seq<(string, V)>): set<string> {
    set i | 0 <= i < |table| :: table[i].0
  }

  /** No key occurs twice, as in any PHP array. */
  predicate DistinctKeys<V>(table: seq<(string, V)>) {
    forall i, j :: 0 <= i < j < |table| ==> table[i].0 != table[j].0
  }

  /** The label table and the default table describe the same eight keys. */
  lemma LabelsAndDefaultsShareKeys()
    ensures DistinctKeys(StateLabels())
    ensures |StateLabels()| == 8
    ensures Keys(StateLabels()) == DefaultMappings().Keys
  {
    var t := StateLabels();
    assert Keys(t) == {t[0].0, t[1].0, t[2].0, t[3].0, t[4].0, t[5].0, t[6].0, t[7].0};
  }

  /** Only the Settled key defaults to Ignore, and every other default is a
      `wc-` status, so Ignore can never be mistaken for one of them. */
  lemma IgnoreIsDistinctFromDefaultStatuses()
    ensures !StartsWith(Ignore, "wc-")
    ensures forall k :: k in DefaultMappings() && k != Settled ==>
      StartsWith(DefaultMappings()[k], "wc-") && DefaultMappings()[k] != Ignore
    ensures DefaultMappings()[Settled] == Ignore
  {
    assert Ignore[..3] != "wc-" by {
      assert Ignore[0] == 'C';
    }
  }

  const IgnoreOptionLabel: string := "- no mapping / defaults -"

  /** The host's statuses with any entry keyed Ignore dropped. */
  function WithoutKey(table: seq<(string, string)>, key: string): (r: seq<(string, string)>)
    ensures forall p :: p in r <==> p in table && p.0 != key
    ensures |r| <= |table|
  {
    if |table| == 0 then []
    else if table[0].0 == key then WithoutKey(table[1..], key)
    else [table[0]] + WithoutKey(table[1..], key)
  }

  /** `[IGNORE => label] + $wcStates`: PHP array union keeps the left-hand
      entry when both sides have the key, and appends the others in order. */
  function SelectableOptions(wcStates: seq<(string, string)>): seq<(string, string)> {
    [(Ignore, IgnoreOptionLabel)] + WithoutKey(wcStates, Ignore)
  }

  lemma WithoutKeyDistinct(table: seq<(string, string)>, key: string)
    requires DistinctKeys(table)
    ensures DistinctKeys(WithoutKey(table, key))
  {
    if |table| > 0 {
      WithoutKeyDistinct(table[1..], key);
      var rest := WithoutKey(table[1..], key);
      forall p | p in rest
        ensures p.0 != table[0].0
      {
        var j :| 0 <= j < |table[1..]| && table[1..][j] == p;
        assert table[j + 1] == p;
      }
    }
  }

  /** The Ignore option comes first, with its own label even if the host lists
      a status under the same key; option keys stay distinct; every host status
      with another key is offered under its own label. */
  lemma SelectableOptionsShape(wcStates: seq<(string, string)>)
    requires DistinctKeys(wcStates)
    ensures SelectableOptions(wcStates)[0] == (Ignore, IgnoreOptionLabel)
    ensures DistinctKeys(SelectableOptions(wcStates))
    ensures forall p :: p in wcStates && p.0 != Ignore ==> p in SelectableOptions(wcStates)
    ensures forall i :: 1 <= i < |SelectableOptions(wcStates)| ==>
      SelectableOptions(wcStates)[i] in wcStates && SelectableOptions(wcStates)[i].0 != Ignore
  {
    var rest := WithoutKey(wcStates, Ignore);
    var r := SelectableOptions(wcStates);
    WithoutKeyDistinct(wcStates, Ignore);
    forall i, j | 0 <= i < j < |r|
      ensures r[i].0 != r[j].0
    {
      if i == 0 {
        assert r[j] == rest[j - 1];
        assert r[j] in rest;
      } else {
        assert r[i] == rest[i - 1] && r[j] == rest[j - 1];
      }
    }
    forall i | 1 <= i < |r|
      ensures r[i] in wcStates && r[i].0 != Ignore
    {
      assert r[i] == rest[i - 1];
      assert r[i] in rest;
    }
  }

  /** PHP `empty()` on a looked-up option value: a missing key, "" or "0". */
  predicate EmptyValue(stored: Option<Mapping>, key: string) {
    stored.None? || key !in stored.value || Falsy(stored.value[key])
  }

  /** The option a key's drop-down preselects: the stored value when it is
      non-empty, otherwise that key's default (a per-key fallback). */
  function Preselected(stored: Option<Mapping>, key: string): (r: string)
    requires key in DefaultMappings()
    ensures EmptyValue(stored, key) ==> r == DefaultMappings()[key]
    ensures !EmptyValue(stored, key) ==> r == stored.value[key] && !Falsy(r)
  {
    if EmptyValue(stored, key) then DefaultMappings()[key] else stored.value[key]
  }

  /** The stored entry for `key`, if the option and the key are present. */
  function StoredEntry(stored: Option<Mapping>, key: string): Option<string> {
    if stored.None? || key !in stored.value then None else Some(stored.value[key])
  }

  /** The fallback is per key: what a drop-down preselects depends only on
      its own key's stored entry, never on other keys or on whether the option
      as a whole is set, and it is never an empty value. */
  lemma PreselectionIsPerKey(a: Option<Mapping>, b: Option<Mapping>, key: string)
    requires key in DefaultMappings()
    ensures StoredEntry(a, key) == StoredEntry(b, key) ==> Preselected(a, key) == Preselected(b, key)
    ensures StoredEntry(a, key).None? ==> Preselected(a, key) == DefaultMappings()[key]
    ensures !Falsy(Preselected(a, key))
  {
    assert forall d :: d in DefaultMappings() ==> !Falsy(DefaultMappings()[d]);
  }

  /** For one key, which options are marked `selected` (strict comparison). */
  function SelectedFlags(stored: Option<Mapping>, key: string, options: seq<(string, string)>): (flags: seq<bool>)
    requires key in DefaultMappings()
    ensures |flags| == |options|
  {
    seq(|options|, i requires 0 <= i < |options| => options[i].0 == Preselected(stored, key))
  }

  /** At most one option per key is selected, and exactly one when the
      preselected value is among the option keys. */
  lemma AtMostOneSelected(stored: Option<Mapping>, key: string, wcStates: seq<(string, string)>)
    requires key in DefaultMappings()
    requires DistinctKeys(wcStates)
    ensures forall i, j :: 0 <= i < j < |SelectableOptions(wcStates)| ==>
      !(SelectedFlags(stored, key, SelectableOptions(wcStates))[i] && SelectedFlags(stored, key, SelectableOptions(wcStates))[j])
    ensures Preselected(stored, key) in Keys(SelectableOptions(wcStates)) ==>
      exists i :: 0 <= i < |SelectableOptions(wcStates)| && SelectedFlags(stored, key, SelectableOptions(wcStates))[i]
  {
    SelectableOptionsShape(wcStates);
    var opts := SelectableOptions(wcStates);
    var sel := Preselected(stored, key);
    if sel in Keys(opts) {
      var i :| 0 <= i < |opts| && opts[i].0 == sel;
      assert SelectedFlags(stored, key, opts)[i];
    }
  }
}
