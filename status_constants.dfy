/**
 * The status lookup tables: display names, badge variants and colour
 * classes of the three stored statuses, with the fall-backs the lookups
 * use for any other string.
 */
module StatusConstants {
  import opened Wrappers
  import opened ProductTypes

  // -------------------------------------------------------------- labels

  /** `PRODUCT_STATUSES`: the display name recorded for a status, if any. */
  function StatusName(status: string): Option<string> {
    if status == Normal then Some("Normal")
    else if status == FirstMarkdown then Some("Rebaixa 1")
    else if status == SecondMarkdown then Some("Rebaixa 2")
    else None
  }

  /** `getStatusLabel`: the recorded display name, or the status itself. */
  function GetStatusLabel(status: string): (r: string)
    ensures IsKnownStatus(status) ==> StatusName(status) == Some(r)
    ensures !IsKnownStatus(status) ==> r == status
  {
    match StatusName(status)
    case Some(name) => if name != "" then name else status
    case None => status
  }

  /** The status a display name stands for: the inverse of the label table. */
  function StatusOfLabel(display: string): Option<string> {
    if display == "Normal" then Some(Normal)
    else if display == "Rebaixa 1" then Some(FirstMarkdown)
    else if display == "Rebaixa 2" then Some(SecondMarkdown)
    else None
  }

  /** The label of a stored status identifies it: the three labels are pairwise distinct. */
  lemma StatusLabelRoundTrip(status: string)
    requires IsKnownStatus(status)
    ensures StatusOfLabel(GetStatusLabel(status)) == Some(status)
  {
  }

  lemma StatusLabelsDistinct(s: string, t: string)
    requires IsKnownStatus(s) && IsKnownStatus(t) && s != t
    ensures GetStatusLabel(s) != GetStatusLabel(t)
  {
    StatusLabelRoundTrip(s);
    StatusLabelRoundTrip(t);
  }

  // ------------------------------------------------------------ variants

  datatype Variant = Success | Warning | Danger

  /** `STATUS_VARIANTS`: the badge variant recorded for a status, if any. */
  function StatusVariant(status: string): Option<Variant> {
    if status == Normal then Some(Success)
    else if status == FirstMarkdown then Some(Warning)
    else if status == SecondMarkdown then Some(Danger)
    else None
  }

  /** `getStatusVariant`: the recorded variant, `success` for anything else. */
  function GetStatusVariant(status: string): (r: Variant)
    ensures r == Danger <==> status == SecondMarkdown
    ensures r == Warning <==> status == FirstMarkdown
    ensures r == Success <==> status != FirstMarkdown && status != SecondMarkdown
  {
    StatusVariant(status).GetOr(Success)
  }

  // -------------------------------------------------------------- colours

  /** The four colour classes of one entry. */
  datatype Element = Background | Foreground | Border | Light

  datatype Palette = Palette(bg: string, text: string, border: string, light: string) {
    function Get(e: Element): string {
      match e
      case Background => bg
      case Foreground => text
      case Border => border
      case Light => light
    }
  }

  const NormalPalette := Palette("bg-green-500", "text-green-700", "border-green-500", "bg-green-50")

  /** `STATUS_COLORS`: the entry for a status or for the two day-based states. */
  function ColorEntry(key: string): Option<Palette> {
    if key == Normal then Some(NormalPalette)
    else if key == FirstMarkdown then Some(Palette("bg-yellow-500", "text-yellow-700", "border-yellow-500", "bg-yellow-50"))
    else if key == SecondMarkdown then Some(Palette("bg-red-500", "text-red-700", "border-red-500", "bg-red-50"))
    else if key == "vencido" then Some(Palette("bg-red-600", "text-red-900", "border-red-600", "bg-red-100"))
    else if key == "vencendo" then Some(Palette("bg-orange-500", "text-orange-700", "border-orange-500", "bg-orange-50"))
    else None
  }

  /** `getStatusColor(status, element)`: the entry's class, falling back to the `normal` entry's. */
  function GetStatusColor(status: string, element: Element := Background): (r: string)
    ensures ColorEntry(status).None? ==> r == NormalPalette.Get(element)
    ensures ColorEntry(status).Some? && ColorEntry(status).value.Get(element) != "" ==>
      r == ColorEntry(status).value.Get(element)
  {
    var entry := ColorEntry(status);
    if entry.Some? && entry.value.Get(element) != "" then entry.value.Get(element)
    else NormalPalette.Get(element)
  }

  /** Every entry has all four classes, so a known key never falls back. */
  lemma ColorEntriesComplete(key: string, element: Element)
    requires ColorEntry(key).Some?
    ensures ColorEntry(key).value.Get(element) != ""
    ensures GetStatusColor(key, element) == ColorEntry(key).value.Get(element)
  {
  }
}
