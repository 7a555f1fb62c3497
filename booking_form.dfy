/**
 * The four-step booking wizard: the service table, the form's default values, the lawn-size
 * input, the step buttons and the payload it posts.
 */
module BookingForm {
  import opened Wrappers
  import opened Schema
  import JsText
  import Labels

  datatype Service = Service(id: string, title: string, price: real)

  /** The services offered on step 1, in display order. */
  const Services: seq<Service> := [
    Service("standard", "Standard Mowing", 49.0),
    Service("premium", "Premium Mowing", 79.0),
    Service("complete", "Complete Lawn Care", 119.0)
  ]

  datatype TimeSlot = TimeSlot(value: string, caption: string)

  /** The time slots offered on step 3. */
  const TimeSlots: seq<TimeSlot> := [
    TimeSlot("morning", "Morning (8am - 11am)"),
    TimeSlot("afternoon", "Afternoon (12pm - 3pm)"),
    TimeSlot("evening", "Evening (4pm - 7pm)")
  ]

  /** `services.find(s => s.id === value)`. */
  function FindService(value: string): (r: Option<Service>)
    ensures r.Some? ==> r.value in Services && r.value.id == value
    ensures r.None? <==> forall s :: s in Services ==> s.id != value
  {
    FindIn(Services, value)
  }

  function FindIn(ss: seq<Service>, value: string): (r: Option<Service>)
    ensures r.Some? ==> r.value in ss && r.value.id == value
    ensures r.Some? ==> exists k :: 0 <= k < |ss| && ss[k] == r.value && forall j :: 0 <= j < k ==> ss[j].id != value
    ensures r.None? <==> forall s :: s in ss ==> s.id != value
  {
    if ss == [] then None
    else if ss[0].id == value then Some(ss[0])
    else
      var r := FindIn(ss[1..], value);
      assert forall s :: s in ss[1..] ==> s in ss;
      assert r.Some? ==> (exists k :: 0 <= k < |ss[1..]| && ss[1..][k] == r.value && forall j :: 0 <= j < k ==> ss[1..][j].id != value);
      r
  }

  /** The service ids are distinct, so the first match is the only one. */
  lemma ServiceIdsDistinct()
    ensures forall i, j :: 0 <= i < j < |Services| ==> Services[i].id != Services[j].id
  {
  }

  /** The titles on step 1 are the labels the admin pages show for the same service. */
  lemma ServiceTitlesAreLabels()
    ensures forall s :: s in Services ==> Labels.ServiceTypeLabel(s.id) == s.title
  {
  }

  /** The slot labels on step 3 are the labels the admin pages show for the same slot. */
  lemma TimeSlotLabelsAreLabels()
    ensures forall t :: t in TimeSlots ==> Labels.TimeLabel(t.value) == t.caption
  {
  }

  /** The form state: the insert fields plus `termsAccepted`. */
  datatype FormValues = FormValues(booking: InsertBooking, termsAccepted: bool)

  /** `defaultValues`; `today` is the current date formatted `yyyy-MM-dd`. */
  function DefaultValues(today: string): (v: FormValues)
    ensures PriceMatchesService(v.booking) && !v.termsAccepted
    ensures v.booking.serviceDate == today
  {
    FormValues(
      InsertBooking("", "", "", "", "", "", "", "standard", 1000, Some("good"), Some(""), today, "morning", 49.0),
      false)
  }

  /** The price shown and posted is the price of the chosen service. */
  predicate PriceMatchesService(b: InsertBooking) {
    FindService(b.serviceType).Some? && FindService(b.serviceType).value.price == b.price
  }

  /** `parseInt(e.target.value) || 0`: text without a leading number, and a parsed zero, give 0. */
  function LawnSizeInput(text: string): (n: int)
    ensures JsText.ParseInt(text).None? ==> n == 0
    ensures JsText.ParseInt(text).Some? ==> n == JsText.ParseInt(text).value
  {
    match JsText.ParseInt(text)
    case None => 0
    case Some(v) => v
  }

  /** Typing a plain number sets exactly that lawn size. */
  lemma LawnSizeOfNumber(n: nat)
    ensures LawnSizeInput(JsText.NatToString(n)) == n
  {
    JsText.ParseIntNatToString(n);
  }

  /** Digits followed by other text keep the leading number, as `parseInt` does. */
  lemma LawnSizeIgnoresTrailingText(d: string, rest: string)
    requires |d| > 0 && JsText.AllRadixDigits(d, false)
    requires rest == [] || !JsText.IsDecimalDigit(rest[0])
    requires !(d == "0" && rest != [] && (rest[0] == 'x' || rest[0] == 'X'))
    ensures LawnSizeInput(d + rest) == JsText.DigitsValue(d, false)
  {
    JsText.ParseIntDecimalRun(d, rest);
  }

  /** A cleared field, or one starting with a letter, becomes 0 rather than an error. */
  lemma LawnSizeOfNonNumber(text: string)
    requires text == [] || (!JsText.IsJsWhitespace(text[0]) && text[0] != '+' && text[0] != '-'
                            && !JsText.IsDecimalDigit(text[0]))
    ensures LawnSizeInput(text) == 0
  {
    JsText.ParseIntNoDigit(text);
  }

  /** `form.handleSubmit(onSubmit)`: the resolver checks `bookingFormSchema` (the insert schema
      plus `termsAccepted === true`), then `termsAccepted` is stripped and the rest is posted. */
  function SubmitPayload(v: FormValues): (r: Option<InsertBooking>)
    ensures r.Some? <==> v.termsAccepted && IsInt32(v.booking.lawnSize as real) && InDoubleRange(v.booking.price)
    ensures r.Some? ==> r.value == v.booking
  {
    if v.termsAccepted && Encodable(v.booking) then Some(v.booking) else None
  }

  /** Every price the wizard can hold is a listed service price, well inside the column's bounds,
      so on the wizard only the terms and the lawn size decide whether the form submits. */
  lemma WizardPricesInRange(v: FormValues)
    requires PriceMatchesService(v.booking)
    ensures SubmitPayload(v).Some? <==> v.termsAccepted && IsInt32(v.booking.lawnSize as real)
  {
    var s := FindService(v.booking.serviceType).value;
    assert s in Services;
    assert InDoubleRange(v.booking.price);
  }

  /** What the form lets through is exactly what the server's schema accepts, field for field. */
  lemma SubmittedPayloadAccepted(v: FormValues)
    requires v.termsAccepted
    ensures SubmitPayload(v).Some? <==> ParseInsertBooking(ToJson(v.booking)).Some?
    ensures SubmitPayload(v).Some? ==> ParseInsertBooking(ToJson(SubmitPayload(v).value)) == SubmitPayload(v)
  {
    ToJsonAccepted(v.booking);
    if SubmitPayload(v).Some? {
      ParseToJson(v.booking);
    }
  }

  datatype Button = Next | Back | Submit

  /** The buttons each step renders. */
  function Buttons(step: int): (bs: set<Button>)
    ensures Next in bs <==> 1 <= step <= 3
    ensures Back in bs <==> 2 <= step <= 4
    ensures Submit in bs <==> step == 4
  {
    if step == 1 then {Next}
    else if step == 2 || step == 3 then {Back, Next}
    else if step == 4 then {Back, Submit}
    else {}
  }

  /** Pressing any rendered button keeps the step within 1..4, and every step offers a way on. */
  lemma ButtonsKeepStepInRange(step: int, b: Button)
    requires 1 <= step <= 4 && b in Buttons(step)
    ensures b == Next ==> 1 <= step + 1 <= 4
    ensures b == Back ==> 1 <= step - 1 <= 4
    ensures Next in Buttons(step) || Submit in Buttons(step)
  {
  }

  /** The wizard: `step` and the form values, updated in place by its handlers. */
  class BookingWizard {
    var step: int
    var values: FormValues

    ghost predicate Valid()
      reads this
    {
      1 <= step <= 4 && PriceMatchesService(values.booking)
    }

    constructor(today: string)
      ensures Valid()
      ensures step == 1 && values == DefaultValues(today)
    {
      step := 1;
      values := DefaultValues(today);
    }

    /** `handleServiceChange`: an unknown id changes nothing; a known one sets the type and its price. */
    method HandleServiceChange(value: string)
      requires Valid()
      modifies this
      ensures Valid()
      ensures step == old(step)
      ensures FindService(value).None? ==> values == old(values)
      ensures FindService(value).Some? ==>
                values == old(values).(booking := old(values.booking).(serviceType := value, price := FindService(value).value.price))
    {
      var service := FindService(value);
      if service.Some? {
        values := values.(booking := values.booking.(serviceType := value, price := service.value.price));
      }
    }

    /** The lawn-size input's `onChange`. */
    method EnterLawnSize(text: string)
      requires Valid()
      modifies this
      ensures Valid()
      ensures step == old(step)
      ensures values == old(values).(booking := old(values.booking).(lawnSize := LawnSizeInput(text)))
    {
      values := values.(booking := values.booking.(lawnSize := LawnSizeInput(text)));
    }

    /** The terms checkbox. */
    method SetTermsAccepted(checked: bool)
      requires Valid()
      modifies this
      ensures Valid()
      ensures step == old(step)
      ensures values == old(values).(termsAccepted := checked)
    {
      values := values.(termsAccepted := checked);
    }

    /** A click on one of the buttons the current step renders: `nextStep`, `prevStep`, or the
        form's submit, which yields the payload to post (or nothing when validation fails). */
    method Press(b: Button) returns (payload: Option<InsertBooking>)
      requires Valid() && b in Buttons(step)
      modifies this
      ensures Valid()
      ensures values == old(values)
      ensures b == Next ==> step == old(step) + 1 && payload.None?
      ensures b == Back ==> step == old(step) - 1 && payload.None?
      ensures b == Submit ==> step == old(step) == 4 && payload == SubmitPayload(values)
    {
      match b
      case Next =>
        step := step + 1;
        payload := None;
      case Back =>
        step := step - 1;
        payload := None;
      case Submit =>
        payload := SubmitPayload(values);
    }
  }
}
