/**
 * The pure part of `get_teams_status`: the accessible label of the status
 * button is lower-cased and searched for three fixed words, in a fixed order.
 */
module TeamsStatus {
  import opened Wrappers
  import opened Text

  /** The four answers the status poll can give. */
  datatype Status = Available | Busy | Away | Unknown {

    /** The string the poll hands on to the bulb update. */
    function Label(): (s: string)
      ensures s in {"Available", "Busy", "Away", "Unknown"}
      ensures (s == "Available") == (this == Available)
      ensures (s == "Busy") == (this == Busy)
      ensures (s == "Away") == (this == Away)
      ensures (s == "Unknown") == (this == Unknown)
    {
      match this
      case Available => "Available"
      case Busy => "Busy"
      case Away => "Away"
      case Unknown => "Unknown"
    }
  }

  const AvailableKey := "available"
  const BusyKey := "busy"
  const AwayKey := "away"

  /** The three keywords occur (or not) in the lower-cased label. */
  ghost predicate SaysAvailable(ariaLabel: string) {
    IsSubstring(AvailableKey, ToLower(ariaLabel))
  }

  ghost predicate SaysBusy(ariaLabel: string) {
    IsSubstring(BusyKey, ToLower(ariaLabel))
  }

  ghost predicate SaysAway(ariaLabel: string) {
    IsSubstring(AwayKey, ToLower(ariaLabel))
  }

  /**
   * Classifies an accessible label: first "available", then "busy", then
   * "away", else Unknown. An earlier keyword wins whatever else occurs.
   */
  function ClassifyLabel(ariaLabel: string): (st: Status)
    ensures st == Available <==> SaysAvailable(ariaLabel)
    ensures st == Busy <==> SaysBusy(ariaLabel) && !SaysAvailable(ariaLabel)
    ensures st == Away <==> SaysAway(ariaLabel) && !SaysBusy(ariaLabel) && !SaysAvailable(ariaLabel)
    ensures st == Unknown <==> !SaysAvailable(ariaLabel) && !SaysBusy(ariaLabel) && !SaysAway(ariaLabel)
  {
    var lowered := ToLower(ariaLabel);
    if Contains(AvailableKey, lowered) then Available
    else if Contains(BusyKey, lowered) then Busy
    else if Contains(AwayKey, lowered) then Away
    else Unknown
  }

  /**
   * One poll. `extracted` is the label read from the page, or None when
   * locating the element or reading its attribute raised an exception;
   * the poll is Unknown exactly when extraction failed or no keyword occurs.
   */
  function GetTeamsStatus(extracted: Option<string>): (st: Status)
    ensures extracted.Some? ==> st == ClassifyLabel(extracted.value)
    ensures st == Unknown
        <==> extracted.None?
             || (!SaysAvailable(extracted.value) && !SaysBusy(extracted.value) && !SaysAway(extracted.value))
  {
    match extracted
    case None => Unknown
    case Some(ariaLabel) => ClassifyLabel(ariaLabel)
  }

  /** Labels that differ only in the case of ASCII letters classify the same. */
  lemma ClassifyIgnoresCase(a: string, b: string)
    requires |a| == |b|
    requires forall i :: 0 <= i < |a| ==> LowerChar(a[i]) == LowerChar(b[i])
    ensures ClassifyLabel(a) == ClassifyLabel(b)
  {
    assert ToLower(a) == ToLower(b);
  }

  /** Classifying an already lower-cased label gives the same answer. */
  lemma ClassifyLowered(ariaLabel: string)
    ensures ClassifyLabel(ToLower(ariaLabel)) == ClassifyLabel(ariaLabel)
  {
    ToLowerIdempotent(ariaLabel);
  }

  // ----- An independent reference: a first-match search over an ordered key table -----

  /** The keyword table the if/elif chain hard-codes, in priority order. */
  const KeyTable: seq<(string, Status)> := [(AvailableKey, Available), (BusyKey, Busy), (AwayKey, Away)]

  /** The index of the first entry whose key occurs in `text`, or |table| when none does. */
  function FirstHit(table: seq<(string, Status)>, text: string): (k: nat)
    ensures k <= |table|
    ensures forall j :: 0 <= j < k ==> !IsSubstring(table[j].0, text)
    ensures k < |table| ==> IsSubstring(table[k].0, text)
  {
    if table == [] then 0
    else if Contains(table[0].0, text) then 0
    else 1 + FirstHit(table[1..], text)
  }

  /** The answer of the first matching entry, or `fallback` when none matches. */
  function FirstMatch(table: seq<(string, Status)>, text: string, fallback: Status): Status {
    var k := FirstHit(table, text);
    if k < |table| then table[k].1 else fallback
  }

  /** Any search that stops at the first occurring key lands on the same index. */
  lemma FirstHitUnique(table: seq<(string, Status)>, text: string, k: nat)
    requires k <= |table|
    requires forall j :: 0 <= j < k ==> !IsSubstring(table[j].0, text)
    requires k < |table| ==> IsSubstring(table[k].0, text)
    ensures FirstHit(table, text) == k
  {
  }

  /** The hard-coded chain is the first-match search over KeyTable with Unknown as default. */
  lemma ClassifyIsFirstMatch(ariaLabel: string)
    ensures ClassifyLabel(ariaLabel) == FirstMatch(KeyTable, ToLower(ariaLabel), Unknown)
  {
    var text := ToLower(ariaLabel);
    var k := if SaysAvailable(ariaLabel) then 0
             else if SaysBusy(ariaLabel) then 1
             else if SaysAway(ariaLabel) then 2
             else 3;
    FirstHitUnique(KeyTable, text, k);
  }
}
