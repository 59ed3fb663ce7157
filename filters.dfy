/** The filter bar of the laboratory list (components/LaboratoryFilters.tsx):
    which filters count as active, how each input replaces one field of the
    filter record, and the labels of the selection panel. Every update builds
    a new record, as the component passes a fresh spread to `setFilters`. */
module LabFilters {
  import opened Prelude
  import opened Types
  import LaboratoryService

  /** `hasActiveFilters` (line 19): a truthy search, minimum or maximum. */
  predicate HasActiveFilters(f: LaboratoryFilters) {
    TruthyText(f.search) || TruthyNumber(f.minRate) || TruthyNumber(f.maxRate)
  }

  /** The chips under the inputs (lines 111-139), one per truthy criterion. */
  predicate ChipShown(f: LaboratoryFilters, c: LaboratoryService.Criterion): (shown: bool)
    ensures shown ==> HasActiveFilters(f)
  {
    match c
    case Search => TruthyText(f.search)
    case MinRate => TruthyNumber(f.minRate)
    case MaxRate => TruthyNumber(f.maxRate)
  }

  /** The bar and the list request agree: filters are active exactly when
      the request carries a parameter, and a chip is shown exactly for the
      criteria the request carries. */
  lemma ActiveFiltersMatchQuery(f: LaboratoryFilters)
    ensures HasActiveFilters(f) <==> LaboratoryService.ActiveKeys(Some(f)) != []
    ensures forall c :: ChipShown(f, c) <==> c in LaboratoryService.ActiveKeys(Some(f))
  {
    LaboratoryService.ActiveKeysShape(Some(f));
    var keys := LaboratoryService.ActiveKeys(Some(f));
    if keys != [] {
      assert keys[0] in keys;
    }
    if HasActiveFilters(f) {
      var c := if TruthyText(f.search) then LaboratoryService.Search
        else if TruthyNumber(f.minRate) then LaboratoryService.MinRate
        else LaboratoryService.MaxRate;
      assert c in LaboratoryService.ActiveKeys(Some(f));
    }
  }

  /** `clearFilters` (lines 15-17): the empty record, so nothing is active. */
  function ClearFilters(): (f: LaboratoryFilters)
    ensures f.search.None? && f.minRate.None? && f.maxRate.None?
    ensures !HasActiveFilters(f)
  {
    LaboratoryFilters(None, None, None)
  }

  /** The search input (line 62) replaces `search` and only `search`. */
  function SetSearch(f: LaboratoryFilters, text: string): (g: LaboratoryFilters)
    ensures g.search == Some(text)
    ensures g.minRate == f.minRate && g.maxRate == f.maxRate
    ensures HasActiveFilters(g) <==> text != "" || TruthyNumber(f.minRate) || TruthyNumber(f.maxRate)
  {
    f.(search := Some(text))
  }

  /** A rate input's new value: absent when the input is empty, otherwise
      the number `parseFloat` reads from it (supplied as `parsed`). */
  function RateOfInput(input: string, parsed: real): (r: Option<real>)
    ensures r.None? <==> input == ""
    ensures r.Some? ==> r.value == parsed
  {
    if input != "" then Some(parsed) else None
  }

  /** The minimum-rate input (lines 77-80) replaces `minRate` only. */
  function SetMinRate(f: LaboratoryFilters, input: string, parsed: real): (g: LaboratoryFilters)
    ensures g.minRate == RateOfInput(input, parsed)
    ensures g.search == f.search && g.maxRate == f.maxRate
  {
    f.(minRate := RateOfInput(input, parsed))
  }

  /** The maximum-rate input (lines 95-98) replaces `maxRate` only. */
  function SetMaxRate(f: LaboratoryFilters, input: string, parsed: real): (g: LaboratoryFilters)
    ensures g.maxRate == RateOfInput(input, parsed)
    ensures g.search == f.search && g.minRate == f.minRate
  {
    f.(maxRate := RateOfInput(input, parsed))
  }

  /** Emptying every input deactivates the filters, as clearing them does,
      and the two records agree on every criterion the request sends. */
  lemma EmptyInputsDeactivate(f: LaboratoryFilters, p: real, q: real)
    ensures var g := SetMaxRate(SetMinRate(SetSearch(f, ""), "", p), "", q);
      && !HasActiveFilters(g)
      && LaboratoryService.ActiveKeys(Some(g)) == LaboratoryService.ActiveKeys(Some(ClearFilters())) == []
  {
    var g := SetMaxRate(SetMinRate(SetSearch(f, ""), "", p), "", q);
    ActiveFiltersMatchQuery(g);
    ActiveFiltersMatchQuery(ClearFilters());
  }

  datatype SelectAllLabel = SelectEverything | DeselectEverything

  /** The select-all button (lines 162-168). */
  function SelectAllLabelOf(selectedCount: nat, laboratoriesCount: nat): (l: SelectAllLabel)
    ensures l == DeselectEverything <==> selectedCount == laboratoriesCount
  {
    if selectedCount == laboratoriesCount then DeselectEverything else SelectEverything
  }

  /** The text of a label. */
  function LabelText(l: SelectAllLabel): string {
    match l
    case SelectEverything => "Sélectionner tout"
    case DeselectEverything => "Désélectionner tout"
  }

  /** Whether the selection panel is shown (line 144). */
  predicate ShowSelectionPanel(laboratoriesCount: nat, hasSelectAll: bool) {
    laboratoriesCount > 0 && hasSelectAll
  }

  /** The counter badge (lines 172-179): the number of selected
      laboratories and the word after it. */
  datatype Badge = Badge(count: nat, word: string)

  /** Shown only with a selection; "sélectionné" takes an 's' exactly when
      more than one is selected. */
  function SelectionBadge(selectedCount: nat): (badge: Option<Badge>)
    ensures badge.None? <==> selectedCount == 0
    ensures badge.Some? ==> badge.value.count == selectedCount
    ensures badge.Some? ==> badge.value.word == "sélectionné" || badge.value.word == "sélectionnés"
    ensures badge.Some? ==> (badge.value.word == "sélectionnés" <==> selectedCount > 1)
  {
    if selectedCount > 0 then Some(Badge(selectedCount, "sélectionné" + (if selectedCount > 1 then "s" else ""))) else None
  }

  /** The badge's text: the count in decimal, a space and the word. */
  function BadgeText(b: Badge): (text: string)
    ensures |text| > |Decimal(b.count)| && text[..|Decimal(b.count)|] == Decimal(b.count)
    ensures text[|Decimal(b.count)|..] == " " + b.word
  {
    var digits := Decimal(b.count);
    assert (digits + " " + b.word)[..|digits|] == digits;
    digits + " " + b.word
  }

  /** The decimal digits of a number, as JavaScript prints an integer. */
  function Decimal(n: nat): (s: string)
    ensures |s| >= 1 && forall i :: 0 <= i < |s| ==> '0' <= s[i] <= '9'
    ensures s[0] == '0' ==> n == 0
    decreases n
  {
    var d := [(('0' as int) + n % 10) as char];
    if n < 10 then d else Decimal(n / 10) + d
  }

  /** The number a string of decimal digits denotes. */
  function DigitsValue(s: string): nat
    requires forall i :: 0 <= i < |s| ==> '0' <= s[i] <= '9'
    decreases |s|
  {
    if s == [] then 0 else DigitsValue(s[..|s| - 1]) * 10 + ((s[|s| - 1] as int) - ('0' as int))
  }

  /** Reading the digits back gives the number. */
  lemma {:induction false} DecimalValue(n: nat)
    ensures DigitsValue(Decimal(n)) == n
    decreases n
  {
    var d := [(('0' as int) + n % 10) as char];
    if n < 10 {
      assert d[..0] == [];
    } else {
      var s := Decimal(n / 10) + d;
      assert s[..|s| - 1] == Decimal(n / 10);
      DecimalValue(n / 10);
      assert n == (n / 10) * 10 + n % 10;
    }
  }
}
