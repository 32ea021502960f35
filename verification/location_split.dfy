/** The location rule of `QuakeAdapter.getView`: a place such as
    "5km SW of Town" is shown as an offset line and a primary line, split at
    the first occurrence of `LOCATION_SEPARATOR`. */
module Locations {
  import opened Wrappers

  /** `LOCATION_SEPARATOR`. It has no regular-expression metacharacters, so
      `String.split` matches it as a literal substring. */
  const Separator: string := "of"

  /** The offset shown when the place has no separator. */
  const NearThe: string := "Near the "

  /** `Separator` starts at index `i` of `s`. */
  predicate SeparatorAt(s: string, i: int) {
    0 <= i && i + |Separator| <= |s| && s[i..i + |Separator|] == Separator
  }

  /** `s` contains `Separator` somewhere. */
  predicate ContainsSeparator(s: string) {
    exists i :: 0 <= i <= |s| - |Separator| && SeparatorAt(s, i)
  }

  /** The first index at or after `from` where `Separator` starts, if any. */
  function IndexOfFrom(s: string, from: nat): (r: Option<nat>)
    requires from <= |s|
    ensures r.Some? ==> from <= r.value && SeparatorAt(s, r.value)
    ensures r.Some? ==> forall j :: from <= j < r.value ==> !SeparatorAt(s, j)
    ensures r.None? ==> forall j :: from <= j ==> !SeparatorAt(s, j)
    decreases |s| - from
  {
    if |s| < from + |Separator| then None
    else if s[from..from + |Separator|] == Separator then Some(from)
    else IndexOfFrom(s, from + 1)
  }

  /** `String.indexOf(Separator)`: the first occurrence, or none. */
  function IndexOf(s: string): (r: Option<nat>)
    ensures r.Some? <==> ContainsSeparator(s)
    ensures r.Some? ==> SeparatorAt(s, r.value)
    ensures r.Some? ==> forall j :: 0 <= j < r.value ==> !SeparatorAt(s, j)
  {
    IndexOfFrom(s, 0)
  }

  /** A prefix of `s` that stops before `i` holds only the occurrences of
      `s` that end by `i`. */
  lemma PrefixOccurrences(s: string, i: nat, j: int)
    requires i <= |s|
    ensures SeparatorAt(s[..i], j) <==> j + |Separator| <= i && SeparatorAt(s, j)
  {
  }

  /** A suffix of `s` from `k` holds exactly the occurrences of `s` at or
      after `k`, shifted down by `k`. */
  lemma SuffixOccurrences(s: string, k: nat, m: int)
    requires k <= |s|
    ensures SeparatorAt(s[k..], m) <==> 0 <= m && SeparatorAt(s, m + k)
  {
  }

  /** No occurrence before `i` is the same as a prefix up to `i` free of
      the separator. */
  lemma NoEarlierOccurrence(s: string, i: nat)
    requires i <= |s|
    requires forall j :: 0 <= j < i ==> !SeparatorAt(s, j)
    ensures !ContainsSeparator(s[..i])
  {
    forall j | SeparatorAt(s[..i], j)
      ensures false
    {
      PrefixOccurrences(s, i, j);
    }
  }

  /** A text in which no "o" is directly followed by "f" has no separator. */
  lemma NoSeparatorByChars(s: string)
    requires forall i :: 0 <= i < |s| - 1 ==> s[i] != 'o' || s[i + 1] != 'f'
    ensures !ContainsSeparator(s)
  {
    forall i | 0 <= i <= |s| - |Separator|
      ensures !SeparatorAt(s, i)
    {
      assert s[i] != Separator[0] || s[i + 1] != Separator[1];
    }
  }

  /** `raw == before + Separator + after` with no separator inside `before`:
      `before` and `after` are the two halves of a split at the first
      occurrence. */
  ghost predicate IsFirstSplit(raw: string, before: string, after: string) {
    raw == before + Separator + after && !ContainsSeparator(before)
  }

  /** `s.split(Separator, 2)`. With limit 2 the pattern is applied at most
      once, at its leftmost match: the result is the text before and the text
      after that match, even when either is empty; without a match it is the
      one-element array holding `s`. */
  function SplitLimit2(s: string): (parts: seq<string>)
    ensures |parts| == 1 || |parts| == 2
    ensures |parts| == 2 <==> ContainsSeparator(s)
    ensures |parts| == 1 ==> parts[0] == s
    ensures |parts| == 2 ==> IsFirstSplit(s, parts[0], parts[1])
  {
    match IndexOf(s)
    case None => [s]
    case Some(i) =>
      NoEarlierOccurrence(s, i);
      assert s == s[..i] + Separator + s[i + |Separator|..];
      [s[..i], s[i + |Separator|..]]
  }

  /** The two text lines a place is shown as. */
  datatype LocationText = LocationText(offset: string, primary: string)

  /** The suffix the offset line ends with after a split: a space and the
      separator. */
  const OffsetTail: string := " " + Separator

  /** The offset/primary rule of `getView`: with a separator, the offset
      line is the part before the first one followed by `" " + "of"` (so a
      part that already ends in a space gets a second one) and the primary
      line is the rest; without one, the offset is "Near the " and the primary line is
      the place unchanged. The second clause is also the join direction of
      the round trip: the offset without its " of" tail, the separator and
      the primary line rejoin to the place. */
  function SplitLocation(raw: string): (t: LocationText)
    ensures !ContainsSeparator(raw) ==> t.offset == NearThe && t.primary == raw
    ensures ContainsSeparator(raw) ==>
      && |OffsetTail| <= |t.offset|
      && t.offset[|t.offset| - |OffsetTail|..] == OffsetTail
      && IsFirstSplit(raw, t.offset[..|t.offset| - |OffsetTail|], t.primary)
  {
    if IndexOf(raw).Some? then
      var parts := SplitLimit2(raw);
      var offset := parts[0] + " " + Separator;
      assert offset[..|offset| - |OffsetTail|] == parts[0];
      LocationText(offset, parts[1])
    else
      LocationText(NearThe, raw)
  }

  /** There is only one way to split at the first occurrence. The separator
      cannot overlap itself ("o" is not "f"), so a second candidate split
      would put a separator inside the shorter `before`. */
  lemma {:induction false} FirstSplitIsUnique(raw: string, a: string, b: string, c: string, d: string)
    requires IsFirstSplit(raw, a, b)
    requires IsFirstSplit(raw, c, d)
    ensures a == c && b == d
  {
    if |a| < |c| {
      ShorterBeforeHasSeparator(raw, a, b, c, d);
    } else if |c| < |a| {
      ShorterBeforeHasSeparator(raw, c, d, a, b);
    } else {
      assert a == raw[..|a|] && c == raw[..|c|];
      assert b == raw[|a| + |Separator|..] && d == raw[|c| + |Separator|..];
    }
  }

  /** The step of `FirstSplitIsUnique`: of two candidate splits the one
      with the longer `before` contains the separator. */
  lemma {:induction false} ShorterBeforeHasSeparator(raw: string, a: string, b: string, c: string, d: string)
    requires raw == a + Separator + b
    requires raw == c + Separator + d
    requires |a| < |c|
    ensures ContainsSeparator(c)
  {
    var i := |a|;
    assert raw[i] == 'o' && raw[i + 1] == 'f';
    assert raw[|c|] == 'o';
    assert i + |Separator| <= |c|;
    assert c[i..i + |Separator|] == raw[i..i + |Separator|];
    assert SeparatorAt(c, i);
  }

  /** Splitting is the inverse of joining: a place built from a
      separator-free `before`, the separator and any `after` is shown as
      `before + " of"` over `after`. */
  lemma {:induction false} SplitLocationOfJoin(before: string, after: string)
    requires !ContainsSeparator(before)
    ensures SplitLocation(before + Separator + after) == LocationText(before + OffsetTail, after)
  {
    var raw := before + Separator + after;
    assert SeparatorAt(raw, |before|) by {
      assert raw[|before|..|before| + |Separator|] == Separator;
    }
    var t := SplitLocation(raw);
    var before' := t.offset[..|t.offset| - |OffsetTail|];
    FirstSplitIsUnique(raw, before, after, before', t.primary);
    assert t.offset == t.offset[..|t.offset| - |OffsetTail|] + t.offset[|t.offset| - |OffsetTail|..];
  }

  /** Against a first-occurrence split, an occurrence of the separator is
      either the split point itself or lies wholly inside `after`. */
  lemma {:induction false} OccurrenceAgainstFirstSplit(raw: string, before: string, after: string, j: int)
    requires IsFirstSplit(raw, before, after)
    requires SeparatorAt(raw, j)
    ensures j == |before| || (|before| + |Separator| <= j && SeparatorAt(after, j - |before| - |Separator|))
  {
    var k := |before|;
    assert raw[k] == 'o' && raw[k + 1] == 'f';
    assert raw[j] == 'o' && raw[j + 1] == 'f';
    if j + |Separator| <= k {
      assert before == raw[..k];
      PrefixOccurrences(raw, k, j);
      assert false;
    } else if j == k + 1 || j + 1 == k {
      assert false;
    } else if j != k {
      assert after == raw[k + |Separator|..];
      SuffixOccurrences(raw, k + |Separator|, j - k - |Separator|);
    }
  }

  /** Every occurrence of the separator in the place other than the first
      stays in the primary line, at the matching position; the primary line
      may therefore contain the separator itself. */
  lemma {:induction false} LaterOccurrencesStayInPrimary(raw: string, j: int)
    requires SeparatorAt(raw, j)
    ensures var t := SplitLocation(raw);
      var k := |t.offset| - |OffsetTail|;
      j == k || (k + |Separator| <= j && SeparatorAt(t.primary, j - k - |Separator|))
  {
    assert ContainsSeparator(raw) by {
      assert 0 <= j <= |raw| - |Separator| && SeparatorAt(raw, j);
    }
    var t := SplitLocation(raw);
    var k := |t.offset| - |OffsetTail|;
    OccurrenceAgainstFirstSplit(raw, t.offset[..k], t.primary, j);
  }

  /** Conversely every occurrence in the primary line is one of the place's
      own occurrences, after the first. */
  lemma {:induction false} PrimaryOccurrencesComeFromPlace(raw: string, m: int)
    requires ContainsSeparator(raw)
    requires SeparatorAt(SplitLocation(raw).primary, m)
    ensures var t := SplitLocation(raw);
      SeparatorAt(raw, |t.offset| - |OffsetTail| + |Separator| + m)
  {
    var t := SplitLocation(raw);
    var k := |t.offset| - |OffsetTail|;
    assert t.primary == raw[k + |Separator|..];
    SuffixOccurrences(raw, k + |Separator|, m);
  }

  /** Worked place: an ordinary offset keeps its own trailing space and
      gains a second one. */
  lemma SplitLocationExampleOffset()
    ensures SplitLocation("5km SW of Example Town") == LocationText("5km SW  of", " Example Town")
  {
    NoSeparatorByChars("5km SW ");
    assert "5km SW of Example Town" == "5km SW " + Separator + " Example Town";
    assert "5km SW " + OffsetTail == "5km SW  of";
    SplitLocationOfJoin("5km SW ", " Example Town");
  }

  /** Worked place: the separator at the very start leaves an empty leading
      part. */
  lemma SplitLocationExampleLeading()
    ensures SplitLocation("of Paris") == LocationText(" of", " Paris")
  {
  }

  /** Worked place: the separator at the very end leaves an empty primary
      line. */
  lemma SplitLocationExampleTrailing()
    ensures SplitLocation("Land of") == LocationText("Land  of", "")
  {
    NoSeparatorByChars("Land ");
    assert "Land of" == "Land " + Separator + "";
    assert "Land " + OffsetTail == "Land  of";
    SplitLocationOfJoin("Land ", "");
  }

  /** Worked place: a second separator stays in the primary line. */
  lemma SplitLocationExampleTwice()
    ensures SplitLocation("1km N of Isle of Man") == LocationText("1km N  of", " Isle of Man")
  {
    NoSeparatorByChars("1km N ");
    assert "1km N of Isle of Man" == "1km N " + Separator + " Isle of Man";
    assert "1km N " + OffsetTail == "1km N  of";
    SplitLocationOfJoin("1km N ", " Isle of Man");
  }

  /** Worked place: no separator at all. */
  lemma SplitLocationExampleNear()
    ensures SplitLocation("Example Town") == LocationText("Near the ", "Example Town")
  {
    NoSeparatorByChars("Example Town");
  }
}
