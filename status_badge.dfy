/**
 * The coloured status pill shown in the admin table and on the detail page.
 */
module StatusBadge {
  import opened Schema
  import JsText

  /** The background and text colour classes of each status. */
  function StatusColours(s: Status): (string, string) {
    match s
    case Pending => ("bg-yellow-100", "text-yellow-800")
    case Approved => ("bg-blue-100", "text-blue-800")
    case Completed => ("bg-green-100", "text-green-800")
    case Cancelled => ("bg-red-100", "text-red-800")
  }

  /** Both colours start empty and the `switch` sets them; a value no case names keeps them empty. */
  method BadgeColours(status: string) returns (bg: string, text: string)
    ensures ParseStatus(status).Some? ==> (bg, text) == StatusColours(ParseStatus(status).value)
    ensures ParseStatus(status).None? ==> bg == "" && text == ""
  {
    bg := "";
    text := "";
    if status == "pending" {
      bg := "bg-yellow-100";
      text := "text-yellow-800";
    } else if status == "approved" {
      bg := "bg-blue-100";
      text := "text-blue-800";
    } else if status == "completed" {
      bg := "bg-green-100";
      text := "text-green-800";
    } else if status == "cancelled" {
      bg := "bg-red-100";
      text := "text-red-800";
    }
  }

  /** Every status gets its own colours, and none of them is the empty fallback. */
  lemma ColoursDistinguishStatuses(s: Status, t: Status)
    ensures StatusColours(s) == StatusColours(t) <==> s == t
    ensures StatusColours(s).0 != "" && StatusColours(s).1 != ""
  {
  }

  /** The pill's text: the status name with its first letter upper-cased. */
  function BadgeLabel(s: Status): (r: string)
    ensures |r| == |StatusName(s)| && r[0] == JsText.UpperChar(StatusName(s)[0])
    ensures r[1..] == StatusName(s)[1..]
  {
    JsText.Capitalize(StatusName(s))
  }

  /** Lower-casing the label gives the status name back, so distinct statuses read differently. */
  lemma BadgeLabelLowersToName(s: Status)
    ensures JsText.ToLower(BadgeLabel(s)) == StatusName(s)
  {
    var n := StatusName(s);
    var r := BadgeLabel(s);
    assert forall i :: 0 <= i < |n| ==> 'a' <= n[i] <= 'z';
    forall i | 0 <= i < |n|
      ensures JsText.LowerChar(r[i]) == n[i]
    {
      if i > 0 {
        assert r[i] == r[1..][i - 1];
      }
    }
  }

  lemma BadgeLabelsDistinct(s: Status, t: Status)
    ensures BadgeLabel(s) == BadgeLabel(t) <==> s == t
  {
    BadgeLabelLowersToName(s);
    BadgeLabelLowersToName(t);
  }
}
