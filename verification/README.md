# QuakeReport presentation core in Dafny

A model of the presentation logic of the QuakeReport Android app: the
immutable `Quake` record that the earthquake feed decodes into, and the two
rules `QuakeAdapter` applies to each quake when it builds a list row. The
first rule picks a colour bucket from the integer floor of the magnitude.
The second splits the place text at the first `"of"` into an offset line and
a primary line.

Modules:

- `Wrappers` (`wrappers.dfy`): `Option` for nullable references and
  `Result` for code that throws.
- `Quakes` (`quake.dfy`): the `Quake` datatype, its constructor and its four
  getters. Java `long` is the subset type `Int64` and the boxed `Double`
  magnitude is `Option<real>`.
- `MagnitudeColors` (`magnitude_color.dfy`): the `getMagnitudeColor`
  switch. A bucket number 1..10 stands for the colour resource it selects.
  Bucket 10 is `magnitude10plus`.
- `Locations` (`location_split.dfy`): `contains`, `split("of", 2)` and the
  offset/primary rule, with a first-occurrence search and lemmas about it.
- `QuakeAdapter` (`quake_adapter.dfy`): the part of `getView` this model
  covers. It combines the two rules and includes the two exceptions the
  code can throw first: on a null magnitude, and when the locale's decimal
  separator is not '.'.

Two details of the code the model keeps as written:

- The offset line is `parts[0] + " " + "of"`, so a part that already ends
  in a space gets a second one: `"5km SW of Example Town"` is shown with the
  offset `"5km SW  of"`.
- A null magnitude has no bucket: unboxing it for `getMagnitudeColor`
  (app/src/main/java/com/example/android/quakereport/QuakeAdapter.java:62)
  throws before any text is set. `QuakeAdapter.ListItem` models this as the
  failure `NullMagnitude`.

## Model

| member | source | states |
|---|---|---|
| `Quakes.NewQuake` | app/src/main/java/com/example/android/quakereport/Quake.java:9-28 | after construction each getter returns exactly the argument it was given: the magnitude (null stays null), the location, the timestamp and the link |
| `Quakes.GettersDetermineQuake` | app/src/main/java/com/example/android/quakereport/Quake.java:4-14 | a quake's observable state is exactly its four getters: as values, two quakes whose getters agree are indistinguishable |
| `Quakes.NewQuakeFromGetters` | app/src/main/java/com/example/android/quakereport/Quake.java:9-28 | rebuilding a quake from its own getters gives back the same quake |
| `MagnitudeColors.MagnitudeBucket` | app/src/main/java/com/example/android/quakereport/QuakeAdapter.java:113-145 | the switch is total and always selects one of the ten buckets 1..10 |
| `MagnitudeColors.BucketIsClamp` | app/src/main/java/com/example/android/quakereport/QuakeAdapter.java:113-145 | the switch agrees with an independent clamp description (outside 0..9 gives 10, otherwise at least 1) on every floor |
| `MagnitudeColors.BucketOneIsLowFloors` | app/src/main/java/com/example/android/quakereport/QuakeAdapter.java:114-117 | bucket 1 is reached exactly by floors 0 and 1 |
| `MagnitudeColors.MiddleFloorsAreTheirOwnBucket` | app/src/main/java/com/example/android/quakereport/QuakeAdapter.java:118-141 | for each k in 2..9, bucket k is reached by floor k and by no other floor |
| `MagnitudeColors.TenPlusIsDefault` | app/src/main/java/com/example/android/quakereport/QuakeAdapter.java:142-144 | the 10plus bucket is reached exactly by negative floors and floors of 10 or more |
| `MagnitudeColors.BucketMonotoneOnNonNegative` | app/src/main/java/com/example/android/quakereport/QuakeAdapter.java:113-145 | over non-negative floors a larger floor never gets a smaller bucket |
| `MagnitudeColors.ToJavaInt` | app/src/main/java/com/example/android/quakereport/QuakeAdapter.java:111 | the `(int)` cast yields a 32-bit value, and no 32-bit value is nearer to the floor than the one it yields (so values outside the range saturate to the nearer bound) |
| `MagnitudeColors.SaturationKeepsBucket` | app/src/main/java/com/example/android/quakereport/QuakeAdapter.java:111-145 | saturating the floor to 32 bits never changes the bucket |
| `MagnitudeColors.MagnitudeColor` | app/src/main/java/com/example/android/quakereport/QuakeAdapter.java:108-146 | a magnitude in [0, 2) gets bucket 1; one in [2, 10) gets the bucket equal to its whole part; a negative magnitude or one of 10 or more gets bucket 10 |
| `MagnitudeColors.SameFloorSameColor` | app/src/main/java/com/example/android/quakereport/QuakeAdapter.java:111-113 | magnitudes with the same floor get the same bucket |
| `MagnitudeColors.MagnitudeColorExamples` | app/src/main/java/com/example/android/quakereport/QuakeAdapter.java:108-146 | 1.2 gets bucket 1, 2.9 gets 2, 9.99 gets 9, and 15.0 and -0.5 get 10 |
| `Locations.IndexOfFrom` | app/src/main/java/com/example/android/quakereport/QuakeAdapter.java:78-79 | the search returns a position where "of" starts with none earlier from the start point, or reports that there is none at or after it |
| `Locations.IndexOf` | app/src/main/java/com/example/android/quakereport/QuakeAdapter.java:78 | `contains("of")` holds exactly when a first occurrence exists, and the index found is that first occurrence |
| `Locations.SplitLimit2` | app/src/main/java/com/example/android/quakereport/QuakeAdapter.java:79 | `split("of", 2)` has two parts exactly when "of" occurs. The parts rejoin to the input around "of", and the first part has no "of" (leading and trailing empty parts kept). Otherwise it is the input alone |
| `Locations.SplitLocation` | app/src/main/java/com/example/android/quakereport/QuakeAdapter.java:74-86 | without "of", the offset is "Near the " and the primary line is the place unchanged. With "of", the offset ends in " of", and the rest of the offset, "of" and the primary line rejoin to the place, with no "of" in the rest of the offset (the join direction of the round trip) |
| `Locations.FirstSplitIsUnique` | app/src/main/java/com/example/android/quakereport/QuakeAdapter.java:77-79 | there is only one way to write a place as an "of"-free prefix, "of" and a rest, so the split is at the first occurrence |
| `Locations.SplitLocationOfJoin` | app/src/main/java/com/example/android/quakereport/QuakeAdapter.java:78-81 | for an "of"-free `before`, the place `before + "of" + after` gets the offset `before + " of"` and the primary line `after` |
| `Locations.OccurrenceAgainstFirstSplit` | app/src/main/java/com/example/android/quakereport/QuakeAdapter.java:77-79 | against a first-occurrence split, every occurrence of "of" is either the split point or lies wholly inside the rest |
| `Locations.LaterOccurrencesStayInPrimary` | app/src/main/java/com/example/android/quakereport/QuakeAdapter.java:77-81 | every occurrence of "of" other than the first stays in the primary line at the shifted position, so the primary line may contain "of" |
| `Locations.PrimaryOccurrencesComeFromPlace` | app/src/main/java/com/example/android/quakereport/QuakeAdapter.java:77-81 | every "of" in the primary line is an occurrence in the place after the first one |
| `Locations.SplitLocationExampleOffset` | app/src/main/java/com/example/android/quakereport/QuakeAdapter.java:80-81 | "5km SW of Example Town" gives the offset "5km SW  of" (two spaces) and the primary line " Example Town" |
| `Locations.SplitLocationExampleLeading` | app/src/main/java/com/example/android/quakereport/QuakeAdapter.java:79-81 | "of Paris" keeps an empty leading part: offset " of", primary " Paris" |
| `Locations.SplitLocationExampleTrailing` | app/src/main/java/com/example/android/quakereport/QuakeAdapter.java:79-81 | "Land of" keeps an empty trailing part: offset "Land  of", primary "" |
| `Locations.SplitLocationExampleTwice` | app/src/main/java/com/example/android/quakereport/QuakeAdapter.java:77-81 | "1km N of Isle of Man" splits at the first "of" only, so the primary line is " Isle of Man" |
| `Locations.SplitLocationExampleNear` | app/src/main/java/com/example/android/quakereport/QuakeAdapter.java:82-86 | "Example Town" gives the offset "Near the " and itself as the primary line |
| `QuakeAdapter.ListItem` | app/src/main/java/com/example/android/quakereport/QuakeAdapter.java:51-88 | a null magnitude throws `NullMagnitude`. Otherwise a locale whose decimal separator is not '.' makes `parseDouble` throw `UnparsableMagnitude`. Otherwise the row is coloured by `getMagnitudeColor` of the magnitude and shows the offset/primary split of the place |
| `QuakeAdapter.ListItemIgnoresTimeAndLink` | app/src/main/java/com/example/android/quakereport/QuakeAdapter.java:62-88 | the colour and location of a row depend only on the magnitude and the place |
| `QuakeAdapter.ListItemOfJoinedPlace` | app/src/main/java/com/example/android/quakereport/QuakeAdapter.java:62-88 | a quake whose place is an "of"-free prefix, "of" and a rest is shown with the offset `prefix + " of"` over the rest, coloured by `getMagnitudeColor` |

## Left out

- `EarthquakeActivity.java`: Android lifecycle, the connectivity check,
  menus, preference reads, URL construction and list updates. These are UI
  and platform code.
- `EarthquakeLoader.java`: a background-thread wrapper whose work is
  `QueryUtils.fetchEarthquakeData`. `QueryUtils` (the HTTP fetch and JSON
  decoding) is not part of this model, so neither is the loader's
  single-flight and cancellation behaviour.
- `Math.floor` on a `double`: the model floors an exact `real`. Double
  rounding, NaN (which Java's `(int)` cast turns into 0) and infinities are
  not modelled.
- MagnitudeColors.MagnitudeColor: returns the bucket number, not the colour
  value. `ContextCompat.getColor` is a resource lookup.
- The `DecimalFormat("0.0")` magnitude text: floating-point formatting.
  Only its one effect on the row's outcome is kept: the exception raised
  when the locale's decimal separator is not '.'.
- QuakeAdapter.ListItem: the default locale is reduced to its decimal
  separator. A locale whose digits or minus sign `parseDouble` cannot read
  would also throw at line 69, and the model does not say so.
- The `SimpleDateFormat` date and time texts: library code that depends on
  locale and time zone.
- View inflation, recycling and `setText`/`setColor` in `getView`: UI.
- A null location string is not modelled. Locations are plain `string`
  values, so the `NullPointerException` that `contains` would throw on null
  cannot arise.
- Object identity: a Java `Quake` is a reference object without an
  `equals` override, so two quakes built from the same arguments are
  distinct objects. The model treats quakes as values.
- A null link is not modelled. The constructor accepts one and `getLink`
  would return it, but links are plain `string` values here.
