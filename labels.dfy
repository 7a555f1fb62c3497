/**
 * The display helpers the admin table, the booking detail page and the confirmation page each
 * define identically: the time-slot label, the service label, and the id padded to four digits.
 */
module Labels {
  import JsText
  import opened Wrappers

  /** `getTimeLabel`: the three slot codes get their label, anything else is shown as it is. */
  function TimeLabel(time: string): (r: string)
    ensures time == "morning" ==> r == "Morning (8am - 11am)"
    ensures time == "afternoon" ==> r == "Afternoon (12pm - 3pm)"
    ensures time == "evening" ==> r == "Evening (4pm - 7pm)"
    ensures time !in {"morning", "afternoon", "evening"} ==> r == time
  {
    match time
    case "morning" => "Morning (8am - 11am)"
    case "afternoon" => "Afternoon (12pm - 3pm)"
    case "evening" => "Evening (4pm - 7pm)"
    case _ => time
  }

  /** `getServiceTypeLabel`: the three service codes get their title, anything else is shown as
      it is. */
  function ServiceTypeLabel(serviceType: string): (r: string)
    ensures serviceType == "standard" ==> r == "Standard Mowing"
    ensures serviceType == "premium" ==> r == "Premium Mowing"
    ensures serviceType == "complete" ==> r == "Complete Lawn Care"
    ensures serviceType !in {"standard", "premium", "complete"} ==> r == serviceType
  {
    match serviceType
    case "standard" => "Standard Mowing"
    case "premium" => "Premium Mowing"
    case "complete" => "Complete Lawn Care"
    case _ => serviceType
  }

  /** `id.toString().padStart(4, '0')`: the decimal text of the id, left-padded with '0' to four
      characters; an id of four or more characters is shown as it is. */
  function PadId(id: int): (r: string)
    ensures |r| == if |JsText.IntToString(id)| < 4 then 4 else |JsText.IntToString(id)|
    ensures r[|r| - |JsText.IntToString(id)|..] == JsText.IntToString(id)
    ensures forall i :: 0 <= i < |r| - |JsText.IntToString(id)| ==> r[i] == '0'
    ensures id >= 0 ==> JsText.ParseInt(r) == Some(id)
    ensures 0 <= id < 10000 ==> |r| == 4
    ensures id >= 10000 ==> r == JsText.IntToString(id)
  {
    var t := JsText.IntToString(id);
    PaddedIdFacts(id);
    JsText.PadStart(t, 4, '0')
  }

  lemma PaddedIdFacts(id: int)
    ensures id >= 0 ==> JsText.ParseInt(JsText.PadStart(JsText.IntToString(id), 4, '0')) == Some(id)
    ensures 0 <= id < 10000 ==> |JsText.IntToString(id)| <= 4
    ensures id >= 10000 ==> |JsText.IntToString(id)| >= 5
  {
    if id >= 0 {
      JsText.ParseIntPadded(id, 4);
      NatToStringLength(id);
    }
  }

  lemma {:induction false} NatToStringLength(n: nat)
    ensures n < 10 ==> |JsText.NatToString(n)| <= 1
    ensures n < 100 ==> |JsText.NatToString(n)| <= 2
    ensures n < 1000 ==> |JsText.NatToString(n)| <= 3
    ensures n < 10000 ==> |JsText.NatToString(n)| <= 4
    ensures n >= 10 ==> |JsText.NatToString(n)| >= 2
    ensures n >= 100 ==> |JsText.NatToString(n)| >= 3
    ensures n >= 1000 ==> |JsText.NatToString(n)| >= 4
    ensures n >= 10000 ==> |JsText.NatToString(n)| >= 5
  {
    if n >= 10 {
      NatToStringLength(n / 10);
    }
  }

  /** A label is never the code it stands for, so the label changes the text exactly for the
      three known codes. */
  lemma TimeLabelChanges(time: string)
    ensures TimeLabel(time) != time <==> time in {"morning", "afternoon", "evening"}
  {
  }

  lemma ServiceTypeLabelChanges(serviceType: string)
    ensures ServiceTypeLabel(serviceType) != serviceType <==> serviceType in {"standard", "premium", "complete"}
  {
  }
}
