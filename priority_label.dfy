/** `getPriorityLabel` (frontend/src/lib/utils.ts): the Portuguese label shown for a task priority. */
module PriorityLabels {
  import opened Common
  import opened Entities

  /** The name a priority travels under in requests and responses. */
  function PriorityName(p: Priority): string
  {
    match p
    case LOW => "LOW"
    case MEDIUM => "MEDIUM"
    case HIGH => "HIGH"
  }

  /** The switch over the priority name; any other string has an empty label. */
  function PriorityLabel(p: string): (r: string)
    ensures r == "Baixa" <==> p == "LOW"
    ensures r == "Média" <==> p == "MEDIUM"
    ensures r == "Alta" <==> p == "HIGH"
    ensures r == "" <==> p !in {"LOW", "MEDIUM", "HIGH"}
  {
    if p == "LOW" then "Baixa"
    else if p == "MEDIUM" then "Média"
    else if p == "HIGH" then "Alta"
    else ""
  }

  /** Reading a label back: the priority it was shown for, if any. */
  function PriorityOfLabel(text: string): (r: Option<Priority>)
    ensures r.Some? <==> text in {"Baixa", "Média", "Alta"}
  {
    if text == "Baixa" then Some(LOW)
    else if text == "Média" then Some(MEDIUM)
    else if text == "Alta" then Some(HIGH)
    else None
  }

  /** Every priority has a non-empty label, and the label tells the priority back. */
  lemma LabelRoundTrip(p: Priority)
    ensures PriorityLabel(PriorityName(p)) != ""
    ensures PriorityOfLabel(PriorityLabel(PriorityName(p))) == Some(p)
  {
  }

  /** A non-empty label comes from exactly one priority name. */
  lemma LabelNamesPriority(s: string)
    requires PriorityLabel(s) != ""
    ensures exists p :: PriorityName(p) == s && PriorityOfLabel(PriorityLabel(s)) == Some(p)
  {
    var p := if s == "LOW" then LOW else if s == "MEDIUM" then MEDIUM else HIGH;
    assert PriorityName(p) == s;
  }
}
