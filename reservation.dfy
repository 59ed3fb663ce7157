/** The public booking page of a laboratory (lab40/LaboratoryReservation.tsx):
    the duration between two "HH:MM" times, the cost of the booking, the
    materials offered and selected, and the reservation request it sends. */
module Reservation {
  import opened Prelude
  import opened Types
  import Selection

  // ---------------------------------------------------------------------
  // Wall-clock times and the duration in hours (calculateHours)
  // ---------------------------------------------------------------------

  predicate IsDigit(c: char) {
    '0' <= c <= '9'
  }

  function DigitValue(c: char): nat
    requires IsDigit(c)
  {
    (c as int) - ('0' as int)
  }

  function DigitChar(d: nat): char
    requires d < 10
  {
    (('0' as int) + d) as char
  }

  /** An "HH:MM" string, the value format of `<input type="time">`. */
  predicate WellFormedClock(s: string) {
    |s| == 5 && IsDigit(s[0]) && IsDigit(s[1]) && s[2] == ':' && IsDigit(s[3]) && IsDigit(s[4])
  }

  /** A time field of the form: empty until a time is picked. */
  predicate TimeField(s: string) {
    s == "" || WellFormedClock(s)
  }

  /** The number before the colon, as `split(':').map(Number)` reads it. */
  function ClockHours(s: string): nat
    requires WellFormedClock(s)
  {
    DigitValue(s[0]) * 10 + DigitValue(s[1])
  }

  /** The number after the colon. */
  function ClockMinutes(s: string): nat
    requires WellFormedClock(s)
  {
    DigitValue(s[3]) * 10 + DigitValue(s[4])
  }

  /** Minutes since midnight: `hours * 60 + minutes`. */
  function MinutesOfDay(s: string): nat
    requires WellFormedClock(s)
  {
    ClockHours(s) * 60 + ClockMinutes(s)
  }

  /** The zero-padded "HH:MM" form of a time of day. */
  function FormatClock(h: nat, m: nat): (s: string)
    requires h < 24 && m < 60
    ensures WellFormedClock(s)
  {
    [DigitChar(h / 10), DigitChar(h % 10), ':', DigitChar(m / 10), DigitChar(m % 10)]
  }

  /** Reading back a formatted time gives the hours and minutes it was made of. */
  lemma ParseFormat(h: nat, m: nat)
    requires h < 24 && m < 60
    ensures ClockHours(FormatClock(h, m)) == h
    ensures ClockMinutes(FormatClock(h, m)) == m
    ensures MinutesOfDay(FormatClock(h, m)) == h * 60 + m
  {
  }

  /** Every in-range "HH:MM" string is the formatting of what it reads as. */
  lemma FormatParse(s: string)
    requires WellFormedClock(s) && ClockHours(s) < 24 && ClockMinutes(s) < 60
    ensures FormatClock(ClockHours(s), ClockMinutes(s)) == s
  {
    var f := FormatClock(ClockHours(s), ClockMinutes(s));
    assert f[0] == s[0] && f[1] == s[1] && f[2] == s[2] && f[3] == s[3] && f[4] == s[4];
  }

  /** `calculateHours`: 0 when a time is missing, otherwise the elapsed
      minutes divided by 60, clamped at 0 (no wrap past midnight). */
  function Hours(startTime: string, endTime: string): (h: real)
    requires TimeField(startTime) && TimeField(endTime)
    ensures h >= 0.0
    ensures startTime == "" || endTime == "" ==> h == 0.0
    ensures startTime != "" && endTime != "" ==>
      var elapsed := MinutesOfDay(endTime) - MinutesOfDay(startTime);
      && (elapsed >= 0 ==> h * 60.0 == elapsed as real)
      && (elapsed <= 0 ==> h == 0.0)
  {
    if startTime == "" || endTime == "" then 0.0
    else
      var diffMinutes := MinutesOfDay(endTime) - MinutesOfDay(startTime);
      var hours := diffMinutes as real / 60.0;
      if hours > 0.0 then hours else 0.0
  }

  /** For two times of day, the duration is the difference of their
      minutes-since-midnight over 60 when the end is not earlier, else 0. */
  lemma {:induction false} HoursOfTimesOfDay(sh: nat, sm: nat, eh: nat, em: nat)
    requires sh < 24 && sm < 60 && eh < 24 && em < 60
    ensures var start, end := sh * 60 + sm, eh * 60 + em;
      Hours(FormatClock(sh, sm), FormatClock(eh, em))
        == if end >= start then (end - start) as real / 60.0 else 0.0
  {
    ParseFormat(sh, sm);
    ParseFormat(eh, em);
  }

  /** The worked examples: 09:00 to 11:30 is 2.5 hours, a zero-length or
      reversed range is 0, and an unset field gives 0. */
  lemma HoursExamples()
    ensures Hours("09:00", "11:30") == 2.5
    ensures Hours("09:00", "09:00") == 0.0
    ensures Hours("18:00", "08:00") == 0.0
    ensures Hours("", "11:30") == 0.0
  {
    HoursOfTimesOfDay(9, 0, 11, 30);
    HoursOfTimesOfDay(9, 0, 9, 0);
    HoursOfTimesOfDay(18, 0, 8, 0);
    assert FormatClock(9, 0) == "09:00";
    assert FormatClock(11, 30) == "11:30";
    assert FormatClock(18, 0) == "18:00";
    assert FormatClock(8, 0) == "08:00";
  }

  // ---------------------------------------------------------------------
  // Cost (calculateTotalCost)
  // ---------------------------------------------------------------------

  /** What a selected material is billed per hour: its rate when it is not
      free and the rate is truthy, otherwise nothing. */
  function BillableRate(m: Material): real {
    if !m.isFree && TruthyNumber(m.hourlyRate) then m.hourlyRate.value else 0.0
  }

  /** The `reduce` of lines 196-201, a left fold over the selection in order. */
  function MaterialsCost(ms: seq<Material>, hours: real): real
    decreases |ms|
  {
    if ms == [] then 0.0
    else
      var sum := MaterialsCost(ms[..|ms| - 1], hours);
      var material := ms[|ms| - 1];
      if !material.isFree && TruthyNumber(material.hourlyRate)
      then sum + material.hourlyRate.value * hours
      else sum
  }

  /** Reference definition: the sum of the billable rates of a selection. */
  function RateSum(ms: seq<Material>): real
    decreases |ms|
  {
    if ms == [] then 0.0 else BillableRate(ms[0]) + RateSum(ms[1..])
  }

  lemma {:induction false} RateSumSnoc(ms: seq<Material>, m: Material)
    ensures RateSum(ms + [m]) == RateSum(ms) + BillableRate(m)
    decreases |ms|
  {
    if ms == [] {
      assert RateSum([m]) == BillableRate(m) + RateSum([]);
    } else {
      assert (ms + [m])[1..] == ms[1..] + [m];
      RateSumSnoc(ms[1..], m);
    }
  }

  /** The fold charges every billable material its rate for the duration. */
  lemma {:induction false} MaterialsCostIsRateSum(ms: seq<Material>, hours: real)
    ensures MaterialsCost(ms, hours) == hours * RateSum(ms)
    decreases |ms|
  {
    if ms != [] {
      var init, last := ms[..|ms| - 1], ms[|ms| - 1];
      assert ms == init + [last];
      MaterialsCostIsRateSum(init, hours);
      RateSumSnoc(init, last);
    }
  }

  /** Taking one element out of a selection takes its rate out of the sum. */
  lemma {:induction false} RateSumRemove(s: seq<Material>, i: nat)
    requires i < |s|
    ensures RateSum(s) == BillableRate(s[i]) + RateSum(s[..i] + s[i + 1..])
    decreases i
  {
    if i == 0 {
      assert s[..0] + s[1..] == s[1..];
    } else {
      var t := s[1..];
      RateSumRemove(t, i - 1);
      assert t[i - 1] == s[i];
      assert s[..i] + s[i + 1..] == [s[0]] + (t[..i - 1] + t[i..]);
    }
  }

  /** The sum of rates does not depend on the order of the selection. */
  lemma {:induction false} RateSumPermutation(a: seq<Material>, b: seq<Material>)
    requires multiset(a) == multiset(b)
    ensures RateSum(a) == RateSum(b)
    decreases |a|
  {
    if a == [] {
      assert |multiset(b)| == 0;
    } else {
      var x := a[0];
      assert x in multiset(b);
      var j :| 0 <= j < |b| && b[j] == x;
      var b' := b[..j] + b[j + 1..];
      assert b == b[..j] + [x] + b[j + 1..];
      assert a == [x] + a[1..];
      assert multiset(b') == multiset(b) - multiset{x};
      assert multiset(a[1..]) == multiset(a) - multiset{x};
      RateSumPermutation(a[1..], b');
      RateSumRemove(b, j);
    }
  }

  /** `calculateTotalCost`: 0 when the duration is not positive, otherwise
      the laboratory's rate plus the billable materials' rates, all for the
      whole duration. The laboratory rate `hourlyRate || 0` is the rate
      itself once NaN is excluded. */
  function TotalCost(labRate: real, hours: real, selected: seq<Material>): (total: real)
    ensures hours <= 0.0 ==> total == 0.0
    ensures hours > 0.0 ==> total == hours * (labRate + RateSum(selected))
  {
    if hours <= 0.0 then 0.0
    else
      var laboratoryCost := labRate * hours;
      var materialsCost := MaterialsCost(selected, hours);
      MaterialsCostIsRateSum(selected, hours);
      laboratoryCost + materialsCost
  }

  /** Reordering the selected materials does not change the total. */
  lemma TotalCostPermutation(labRate: real, hours: real, a: seq<Material>, b: seq<Material>)
    requires multiset(a) == multiset(b)
    ensures TotalCost(labRate, hours, a) == TotalCost(labRate, hours, b)
  {
    RateSumPermutation(a, b);
  }

  /** A free material adds nothing, whatever its rate and wherever it sits. */
  lemma FreeMaterialCostsNothing(labRate: real, hours: real, ms: seq<Material>, i: nat, m: Material)
    requires m.isFree && i <= |ms|
    ensures TotalCost(labRate, hours, ms[..i] + [m] + ms[i..]) == TotalCost(labRate, hours, ms)
  {
    FreeMaterialAddsNoRate(ms, i, m);
    SameRateSumSameTotal(labRate, hours, ms[..i] + [m] + ms[i..], ms);
  }

  /** A free material inserted anywhere leaves the rate sum as it was. */
  lemma FreeMaterialAddsNoRate(ms: seq<Material>, i: nat, m: Material)
    requires m.isFree && i <= |ms|
    ensures RateSum(ms[..i] + [m] + ms[i..]) == RateSum(ms)
  {
    var s := ms[..i] + [m] + ms[i..];
    InsertThenRemove(ms, i, m);
    RateSumRemove(s, i);
    assert BillableRate(s[i]) == 0.0;
  }

  lemma InsertThenRemove<T>(ms: seq<T>, i: nat, m: T)
    requires i <= |ms|
    ensures var s := ms[..i] + [m] + ms[i..]; i < |s| && s[i] == m && s[..i] + s[i + 1..] == ms
  {
    var s := ms[..i] + [m] + ms[i..];
    assert s[..i] == ms[..i];
    assert s[i + 1..] == ms[i..];
  }

  /** The total depends on the selection only through its rate sum. */
  lemma SameRateSumSameTotal(labRate: real, hours: real, a: seq<Material>, b: seq<Material>)
    requires RateSum(a) == RateSum(b)
    ensures TotalCost(labRate, hours, a) == TotalCost(labRate, hours, b)
  {
  }

  /** Without materials the total is the laboratory's rate for the duration. */
  lemma NoMaterialsCost(labRate: real, hours: real)
    requires hours > 0.0
    ensures TotalCost(labRate, hours, []) == labRate * hours
  {
  }

  lemma {:induction false} RateSumNonNegative(ms: seq<Material>)
    requires forall m :: m in ms ==> m.hourlyRate.GetOr(0.0) >= 0.0
    ensures RateSum(ms) >= 0.0
    decreases |ms|
  {
    if ms != [] {
      assert ms[0] in ms;
      assert forall m :: m in ms[1..] ==> m in ms;
      RateSumNonNegative(ms[1..]);
    }
  }

  /** With non-negative rates the total is never negative. */
  lemma TotalCostNonNegative(labRate: real, hours: real, ms: seq<Material>)
    requires labRate >= 0.0
    requires forall m :: m in ms ==> m.hourlyRate.GetOr(0.0) >= 0.0
    ensures TotalCost(labRate, hours, ms) >= 0.0
  {
    RateSumNonNegative(ms);
  }

  /** The lines the summary shows under a positive duration (lines 621-622):
      one `(hourlyRate || 0) * hours` per selected material that is not free. */
  function BreakdownLines(ms: seq<Material>, hours: real): seq<real>
    decreases |ms|
  {
    if ms == [] then [] else BreakdownLine(ms[0], hours) + BreakdownLines(ms[1..], hours)
  }

  /** The line of one material: none when it is free. */
  function BreakdownLine(m: Material, hours: real): seq<real> {
    if m.isFree then [] else [LineCost(m, hours)]
  }

  /** `materialCost` of line 621: the rate, or 0 when there is none. */
  function LineCost(m: Material, hours: real): real {
    ShownRate(m) * hours
  }

  /** `material.hourlyRate || 0` (a zero rate is 0 either way). */
  function ShownRate(m: Material): real {
    if m.hourlyRate.Some? then m.hourlyRate.value else 0.0
  }

  /** The sum of displayed amounts. */
  function Sum(xs: seq<real>): real
    decreases |xs|
  {
    if xs == [] then 0.0 else xs[0] + Sum(xs[1..])
  }

  lemma {:induction false} SumAppend(xs: seq<real>, ys: seq<real>)
    ensures Sum(xs + ys) == Sum(xs) + Sum(ys)
    decreases |xs|
  {
    if xs == [] {
      assert xs + ys == ys;
    } else {
      assert (xs + ys)[0] == xs[0];
      assert (xs + ys)[1..] == xs[1..] + ys;
      SumAppend(xs[1..], ys);
    }
  }

  /** Lines are listed in selection order: a material added at the end adds
      its line at the end. */
  lemma {:induction false} BreakdownLinesSnoc(ms: seq<Material>, m: Material, hours: real)
    ensures BreakdownLines(ms + [m], hours) == BreakdownLines(ms, hours) + BreakdownLine(m, hours)
    decreases |ms|
  {
    if ms == [] {
      assert BreakdownLines([m], hours) == BreakdownLine(m, hours) + [];
    } else {
      assert (ms + [m])[0] == ms[0];
      assert (ms + [m])[1..] == ms[1..] + [m];
      BreakdownLinesSnoc(ms[1..], m, hours);
    }
  }

  /** A material's line shows exactly what the `reduce` adds for it: its
      rate for the duration when it is billed, and nothing (or a line of 0)
      otherwise. */
  lemma LineIsBilledCost(m: Material, hours: real)
    ensures Sum(BreakdownLine(m, hours))
      == if !m.isFree && TruthyNumber(m.hourlyRate) then m.hourlyRate.value * hours else 0.0
  {
    if !m.isFree {
      var x := LineCost(m, hours);
      assert BreakdownLine(m, hours) == [x];
      assert [x][1..] == [];
      assert Sum([x]) == x;
    }
  }

  /** The material lines of the summary add up to the `reduce` of
      `calculateTotalCost`, although one walks the selection from the front
      rendering lines and the other folds it from the left adding costs. */
  lemma {:induction false} BreakdownMatchesFold(ms: seq<Material>, hours: real)
    ensures Sum(BreakdownLines(ms, hours)) == MaterialsCost(ms, hours)
    decreases |ms|
  {
    if ms == [] {
      assert BreakdownLines(ms, hours) == [];
    } else {
      var init, last := ms[..|ms| - 1], ms[|ms| - 1];
      assert ms == init + [last];
      BreakdownMatchesFold(init, hours);
      BreakdownLinesSnoc(init, last, hours);
      SumAppend(BreakdownLines(init, hours), BreakdownLine(last, hours));
      LineIsBilledCost(last, hours);
    }
  }

  /** Hence the material lines add up to the duration times the rate sum. */
  lemma BreakdownIsRateSum(ms: seq<Material>, hours: real)
    ensures Sum(BreakdownLines(ms, hours)) == hours * RateSum(ms)
  {
    BreakdownMatchesFold(ms, hours);
    MaterialsCostIsRateSum(ms, hours);
  }

  /** The displayed breakdown adds up to the displayed total: the laboratory
      line `(hourlyRate || 0) * hours` plus every material line. */
  lemma BreakdownSumsToTotal(labRate: real, hours: real, ms: seq<Material>)
    requires hours > 0.0
    ensures labRate * hours + Sum(BreakdownLines(ms, hours)) == TotalCost(labRate, hours, ms)
  {
    BreakdownMatchesFold(ms, hours);
  }

  // ---------------------------------------------------------------------
  // Offered and priced materials
  // ---------------------------------------------------------------------

  /** Line 56: only `available` materials are offered, in fetched order. */
  function AvailableMaterials(fetched: seq<Material>): (offered: seq<Material>)
    ensures forall m :: m in offered <==> m in fetched && m.status == Available
    ensures forall m :: multiset(offered)[m] == if m.status == Available then multiset(fetched)[m] else 0
    ensures |offered| <= |fetched|
  {
    FilterCounts(fetched, (m: Material) => m.status == Available);
    Filter(fetched, (m: Material) => m.status == Available)
  }

  /** The offered materials keep the fetched order. */
  lemma AvailableKeepsOrder(a: seq<Material>, b: seq<Material>)
    ensures AvailableMaterials(a + b) == AvailableMaterials(a) + AvailableMaterials(b)
  {
    FilterAppend(a, b, (m: Material) => m.status == Available);
  }

  /** Line 168: the offered materials whose id is selected, in offered order. */
  function PricedMaterials(offered: seq<Material>, selected: seq<string>): (priced: seq<Material>)
    ensures forall m :: m in priced <==> m in offered && m.id in selected
    ensures forall m :: multiset(priced)[m] == if m.id in selected then multiset(offered)[m] else 0
    ensures multiset(priced) <= multiset(offered)
  {
    FilterCounts(offered, (m: Material) => m.id in selected);
    Filter(offered, (m: Material) => m.id in selected)
  }

  /** The priced materials keep the offered order. */
  lemma PricedKeepsOrder(a: seq<Material>, b: seq<Material>, selected: seq<string>)
    ensures PricedMaterials(a + b, selected) == PricedMaterials(a, selected) + PricedMaterials(b, selected)
  {
    FilterAppend(a, b, (m: Material) => m.id in selected);
  }

  // ---------------------------------------------------------------------
  // The booking form and the request it sends
  // ---------------------------------------------------------------------

  datatype BookingForm = BookingForm(
    fullName: string,
    email: string,
    phoneNumber: string,
    notes: string,
    reservationDate: string,
    startTime: string,
    endTime: string)

  const EmptyBookingForm := BookingForm("", "", "", "", "", "", "")

  /** The inputs of the form, each bound to one field. */
  datatype BookingField = FullName | Email | PhoneNumber | Notes | ReservationDate | StartTime | EndTime

  function Get(form: BookingForm, field: BookingField): string {
    match field
    case FullName => form.fullName
    case Email => form.email
    case PhoneNumber => form.phoneNumber
    case Notes => form.notes
    case ReservationDate => form.reservationDate
    case StartTime => form.startTime
    case EndTime => form.endTime
  }

  /** `setFormData({ ...formData, [field]: value })`. */
  function With(form: BookingForm, field: BookingField, value: string): BookingForm {
    match field
    case FullName => form.(fullName := value)
    case Email => form.(email := value)
    case PhoneNumber => form.(phoneNumber := value)
    case Notes => form.(notes := value)
    case ReservationDate => form.(reservationDate := value)
    case StartTime => form.(startTime := value)
    case EndTime => form.(endTime := value)
  }

  /** Editing one input changes that field and leaves every other one. */
  lemma GetWith(form: BookingForm, field: BookingField, value: string, other: BookingField)
    ensures Get(With(form, field, value), other) == if other == field then value else Get(form, other)
  {
  }

  /** CreateLaboratoryReservationDto. */
  datatype ReservationRequest = ReservationRequest(
    fullName: string,
    email: string,
    phoneNumber: string,
    materials: seq<string>,
    reservationDate: string,
    startTime: string,
    endTime: string,
    notes: Option<string>)

  /** Lines 93-102: the form's fields, the selected ids unchanged, and the
      notes left out when empty (`notes || undefined`). */
  function RequestOf(form: BookingForm, selected: seq<string>): (req: ReservationRequest)
    ensures req.materials == selected
    ensures req.notes.None? <==> form.notes == ""
    ensures req.notes.Some? ==> req.notes.value == form.notes
    ensures req.startTime == form.startTime && req.endTime == form.endTime
    ensures req.fullName == form.fullName && req.email == form.email
    ensures req.phoneNumber == form.phoneNumber && req.reservationDate == form.reservationDate
  {
    ReservationRequest(
      form.fullName, form.email, form.phoneNumber, selected,
      form.reservationDate, form.startTime, form.endTime,
      if form.notes != "" then Some(form.notes) else None)
  }

  /** The component's state. */
  class ReservationPage {
    const routeId: Option<string>
    var laboratory: Option<Laboratory>
    var materials: seq<Material>
    var selectedMaterials: seq<string>
    var formData: BookingForm

    /** Time fields hold "" or "HH:MM", and only available materials are offered. */
    ghost predicate Valid()
      reads this
    {
      && TimeField(formData.startTime) && TimeField(formData.endTime)
      && forall m :: m in materials ==> m.status == Available
    }

    constructor (routeId: Option<string>)
      ensures Valid()
      ensures this.routeId == routeId && laboratory == None && materials == []
      ensures selectedMaterials == [] && formData == EmptyBookingForm
    {
      this.routeId := routeId;
      laboratory := None;
      materials := [];
      selectedMaterials := [];
      formData := EmptyBookingForm;
    }

    /** A successful load (lines 55-56). */
    method Loaded(lab: Laboratory, fetched: seq<Material>)
      requires Valid()
      modifies this`laboratory, this`materials
      ensures Valid()
      ensures laboratory == Some(lab) && materials == AvailableMaterials(fetched)
    {
      laboratory := Some(lab);
      materials := AvailableMaterials(fetched);
    }

    /** `handleMaterialToggle`. */
    method ToggleMaterial(materialId: string)
      modifies this`selectedMaterials
      ensures selectedMaterials == Selection.Toggle(old(selectedMaterials), materialId)
      ensures materialId in selectedMaterials <==> materialId !in old(selectedMaterials)
    {
      Selection.ToggleMembership(selectedMaterials, materialId);
      selectedMaterials := Selection.Toggle(selectedMaterials, materialId);
    }

    /** The `onChange` of one input. */
    method Edit(field: BookingField, value: string)
      requires Valid()
      requires field == StartTime || field == EndTime ==> TimeField(value)
      modifies this`formData
      ensures Valid()
      ensures formData == With(old(formData), field, value)
    {
      formData := With(formData, field, value);
    }

    /** `selectedMaterialsData`. */
    function SelectedMaterialsData(): (priced: seq<Material>)
      reads this
      ensures forall m :: m in priced <==> m in materials && m.id in selectedMaterials
      ensures multiset(priced) <= multiset(materials)
    {
      PricedMaterials(materials, selectedMaterials)
    }

    /** `hours`. */
    function CurrentHours(): (h: real)
      reads this
      requires Valid()
      ensures h >= 0.0
      ensures formData.startTime == "" || formData.endTime == "" ==> h == 0.0
    {
      Hours(formData.startTime, formData.endTime)
    }

    /** `totalCost`, computed once the laboratory is loaded. */
    function CurrentTotal(): (total: real)
      reads this
      requires Valid() && laboratory.Some?
      ensures total == 0.0 <== formData.startTime == "" || formData.endTime == ""
    {
      TotalCost(laboratory.value.hourlyRate, CurrentHours(), SelectedMaterialsData())
    }

    /** `handleSubmit`: nothing is sent without a loaded laboratory and a
        route id; otherwise the request is assembled from the form. */
    method Submit() returns (request: Option<ReservationRequest>)
      ensures request.Some? <==> laboratory.Some? && TruthyText(routeId)
      ensures request.Some? ==> request.value == RequestOf(formData, selectedMaterials)
    {
      if laboratory.None? || !TruthyText(routeId) {
        return None;
      }
      request := Some(RequestOf(formData, selectedMaterials));
    }
  }

  /** Every priced material of a valid page is available and offered. */
  lemma PricedAreAvailable(page: ReservationPage)
    requires page.Valid()
    ensures forall m :: m in page.SelectedMaterialsData() ==> m in page.materials && m.status == Available
  {
  }

  /** The example of a laboratory at 50 per hour booked 09:00-12:00 with one
      material at 10 per hour and one free material: 150 + 30 = 180. */
  lemma PricingScenario(m1: Material, m2: Material)
    requires !m1.isFree && m1.hourlyRate == Some(10.0)
    requires m2.isFree && m2.hourlyRate == Some(25.0)
    ensures var hours := Hours("09:00", "12:00");
      && hours == 3.0
      && TotalCost(50.0, hours, [m1, m2]) == 180.0
      && 50.0 * hours + Sum(BreakdownLines([m1, m2], hours)) == 180.0
  {
    HoursOfTimesOfDay(9, 0, 12, 0);
    assert FormatClock(9, 0) == "09:00";
    assert FormatClock(12, 0) == "12:00";
    assert RateSum([m1, m2]) == 10.0 by {
      assert BillableRate(m1) == 10.0 && BillableRate(m2) == 0.0;
      assert [m1, m2][1..] == [m2];
      assert [m2][1..] == [];
      assert RateSum([m2]) == BillableRate(m2) + RateSum([]);
      assert RateSum([m1, m2]) == BillableRate(m1) + RateSum([m2]);
    }
    BreakdownSumsToTotal(50.0, 3.0, [m1, m2]);
  }
}
