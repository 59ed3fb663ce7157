/** The card of one material in the admin pages
    (admin/laboratories/components/MaterialCard.tsx): the status badge
    (colour, icon, label), the cover image, the price line and the
    confirm-gated delete. */
module MaterialCard {
  import opened Prelude
  import opened Types

  /** Whether a status is one of the three the card knows. */
  predicate KnownStatus(status: string) {
    status == Available || status == Unavailable || status == Maintenance
  }

  datatype Hue = Green | Red | Yellow | Gray

  /** The hue of `getStatusColor` (lines 19-30). */
  function StatusHue(status: string): (h: Hue)
    ensures h == Gray <==> !KnownStatus(status)
  {
    if status == Available then Green
    else if status == Unavailable then Red
    else if status == Maintenance then Yellow
    else Gray
  }

  function HueName(h: Hue): string {
    match h
    case Green => "green"
    case Red => "red"
    case Yellow => "yellow"
    case Gray => "gray"
  }

  /** The shade of `getStatusColor`: -600 in the dark theme, -500 otherwise. */
  function Shade(dark: bool): string {
    if dark then "-600" else "-500"
  }

  /** `getStatusColor` (lines 19-30): the Tailwind class of the badge, one
      of eight, gray for a status the card does not know. */
  function StatusColor(status: string, dark: bool): (c: string)
    ensures status == Available ==> c == (if dark then "bg-green-600" else "bg-green-500")
    ensures status == Unavailable ==> c == (if dark then "bg-red-600" else "bg-red-500")
    ensures status == Maintenance ==> c == (if dark then "bg-yellow-600" else "bg-yellow-500")
    ensures !KnownStatus(status) ==> c == (if dark then "bg-gray-600" else "bg-gray-500")
  {
    "bg-" + HueName(StatusHue(status)) + Shade(dark)
  }

  /** The theme changes the shade and never the hue: the two classes of a
      status differ only in their last three characters. */
  lemma ThemeChangesOnlyShade(status: string)
    ensures var dark, light := StatusColor(status, true), StatusColor(status, false);
      && |dark| == |light|
      && dark[..|dark| - 3] == light[..|light| - 3]
      && dark[|dark| - 3..] == "600" && light[|light| - 3..] == "500"
  {
    var prefix := "bg-" + HueName(StatusHue(status)) + "-";
    assert StatusColor(status, true) == prefix + "600";
    assert StatusColor(status, false) == prefix + "500";
  }

  datatype Icon = CheckCircle | XCircle | Wrench

  /** `getStatusIcon` (lines 32-43): no icon for an unknown status. */
  function StatusIcon(status: string): (icon: Option<Icon>)
    ensures icon.None? <==> !KnownStatus(status)
    ensures status == Available ==> icon == Some(CheckCircle)
    ensures status == Unavailable ==> icon == Some(XCircle)
    ensures status == Maintenance ==> icon == Some(Wrench)
  {
    if status == Available then Some(CheckCircle)
    else if status == Unavailable then Some(XCircle)
    else if status == Maintenance then Some(Wrench)
    else None
  }

  /** `getStatusLabel` (lines 45-56): French labels, and the raw value of an
      unknown status. */
  function StatusLabel(status: string): (text: string)
    ensures status == Available ==> text == "Disponible"
    ensures status == Unavailable ==> text == "Indisponible"
    ensures status == Maintenance ==> text == "En maintenance"
    ensures !KnownStatus(status) ==> text == status
  {
    if status == Available then "Disponible"
    else if status == Unavailable then "Indisponible"
    else if status == Maintenance then "En maintenance"
    else status
  }

  /** The three mappings agree on what is unknown: a status has no icon
      exactly when it is gray, and then its label is the status itself; the
      three known statuses get three different labels, icons and hues. */
  lemma BadgeConsistent(status: string)
    ensures StatusIcon(status).None? <==> StatusHue(status) == Gray
    ensures StatusIcon(status).None? ==> StatusLabel(status) == status
    ensures var labels := [StatusLabel(Available), StatusLabel(Unavailable), StatusLabel(Maintenance)];
      forall i, j :: 0 <= i < j < 3 ==> labels[i] != labels[j]
    ensures var hues := [StatusHue(Available), StatusHue(Unavailable), StatusHue(Maintenance)];
      forall i, j :: 0 <= i < j < 3 ==> hues[i] != hues[j]
  {
  }

  /** The cover block (lines 67-75): the cover path, else the image URL,
      and no block when neither is set. */
  function CardImage(m: Material): (image: Option<string>)
    ensures image.None? <==> !TruthyText(m.coverImagePath) && !TruthyText(m.imageUrl)
    ensures image.Some? ==> image.value != ""
    ensures TruthyText(m.coverImagePath) ==> image == m.coverImagePath
    ensures !TruthyText(m.coverImagePath) && TruthyText(m.imageUrl) ==> image == m.imageUrl
  {
    if TruthyText(m.coverImagePath) then m.coverImagePath
    else if TruthyText(m.imageUrl) then m.imageUrl
    else None
  }

  /** The price line (lines 114-131). */
  datatype PriceLine = Gratuit | PerHour(rate: Option<real>)

  function PriceLineOf(m: Material): (line: PriceLine)
    ensures line == Gratuit <==> m.isFree
    ensures line.PerHour? ==> line.rate == m.hourlyRate
  {
    if m.isFree then Gratuit else PerHour(m.hourlyRate)
  }

  /** The text of the price line; `renderedRate` is how React prints the
      rate (nothing for an absent one). */
  function PriceText(line: PriceLine, renderedRate: string): (text: string)
    ensures line == Gratuit ==> text == "Gratuit"
    ensures line.PerHour? ==> text == renderedRate + " TND/heure"
  {
    match line
    case Gratuit => "Gratuit"
    case PerHour(_) => renderedRate + " TND/heure"
  }

  /** A free material reads "Gratuit" whatever its rate; a paid one shows
      its own rate, so two paid materials with different rates differ. */
  lemma FreeIgnoresRate(m: Material, rate: Option<real>)
    ensures m.isFree ==> PriceLineOf(m.(hourlyRate := rate)) == PriceLineOf(m) == Gratuit
    ensures !m.isFree && rate != m.hourlyRate ==> PriceLineOf(m.(hourlyRate := rate)) != PriceLineOf(m)
  {
  }

  /** `handleDelete` (lines 13-17): `onDelete` receives the material's id
      only when the confirmation is accepted. */
  function DeleteRequest(confirmed: bool, m: Material): (request: Option<string>)
    ensures request.Some? <==> confirmed
    ensures request.Some? ==> request.value == m.id
  {
    if confirmed then Some(m.id) else None
  }
}
