/** The text and colour `QuakeAdapter.getView` derives from one quake, and
    the two exceptions it can throw on the way. The magnitude text itself and
    the date and time strings are not part of this model. */
module QuakeAdapter {
  import opened Wrappers
  import opened Quakes
  import opened MagnitudeColors
  import opened Locations

  /** What `getView` would throw. Unboxing a null magnitude to pass it to
      `getMagnitudeColor` raises a `NullPointerException`. Otherwise the
      magnitude is written with `DecimalFormat("0.0")`, which uses the
      default locale's decimal separator, and read back with
      `Double.parseDouble`, which accepts only '.': any other separator
      raises a `NumberFormatException`. */
  datatype ViewError = NullMagnitude | UnparsableMagnitude

  /** The decimal separator `parseDouble` understands. */
  const JavaDecimalPoint: char := '.'

  /** The fields of one list row this model derives. */
  datatype ListItemText = ListItemText(colorBucket: int, location: LocationText)

  /** `getView` for one quake on a device whose default locale writes
      decimals with `decimalSeparator`. A null magnitude throws first; then a
      separator other than '.' makes the magnitude text unparsable; only
      then is the row coloured and its location split. */
  function ListItem(q: Quake, decimalSeparator: char): (r: Result<ListItemText, ViewError>)
    ensures r == Failure(NullMagnitude) <==> q.GetMag().None?
    ensures r == Failure(UnparsableMagnitude) <==>
      q.GetMag().Some? && decimalSeparator != JavaDecimalPoint
    ensures r.Success? ==>
      && r.value.colorBucket == MagnitudeColor(q.GetMag().value)
      && r.value.location == SplitLocation(q.GetLocation())
  {
    match q.GetMag()
    case None => Failure(NullMagnitude)
    case Some(m) =>
      if decimalSeparator != JavaDecimalPoint then Failure(UnparsableMagnitude)
      else Success(ListItemText(MagnitudeColor(m), SplitLocation(q.GetLocation())))
  }

  /** The row for a quake with a magnitude is built from the magnitude and
      the place alone: the time and the link do not affect it. */
  lemma ListItemIgnoresTimeAndLink(q1: Quake, q2: Quake, decimalSeparator: char)
    requires q1.GetMag().Some? && q1.GetMag() == q2.GetMag()
    requires q1.GetLocation() == q2.GetLocation()
    ensures ListItem(q1, decimalSeparator) == ListItem(q2, decimalSeparator)
  {
  }

  /** Under a locale that writes decimals with '.', for a place written as a
      separator-free `before`, the separator and `after`, the row shows `before + " of"` over `after`, coloured as
      `getMagnitudeColor` colours the magnitude. */
  lemma ListItemOfJoinedPlace(mag: real, before: string, after: string, time: Int64, link: string)
    requires !ContainsSeparator(before)
    ensures var r := ListItem(NewQuake(Some(mag), before + Separator + after, time, link), JavaDecimalPoint);
      && r.Success?
      && r.value.location == LocationText(before + OffsetTail, after)
      && r.value.colorBucket == MagnitudeColor(mag)
  {
    SplitLocationOfJoin(before, after);
  }
}
