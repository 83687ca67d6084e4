/** Coordinate extraction (`AIAgent._extract_coordinates` in `src/services/ai_agent.py`):
    the numbers after the latitude tag "عرض" and the longitude tag "طول", found the way
    the pattern `<tag>[^:]*:\s*(-?\d+\.?\d*)` is searched for, and accepted only inside a
    bounding box around Iran. Numbers are exact decimals (`real`), not binary floats. */
module Coordinates {
  import opened Wrappers
  import opened Strings

  const LatitudeLabel := "عرض"
  const LongitudeLabel := "طول"

  const MinLatitude: real := 25.0
  const MaxLatitude: real := 40.0
  const MinLongitude: real := 44.0
  const MaxLongitude: real := 64.0

  // ---------------------------------------------------------------------------
  // Numbers: -?\d+\.?\d*
  // ---------------------------------------------------------------------------

  /** A captured number: an optional minus, at least one digit, an optional point and
      the digits after it. */
  datatype Number = Number(negative: bool, whole: string, dot: bool, fraction: string)

  predicate OnlyDigits(s: string) {
    forall i | 0 <= i < |s| :: IsDigit(s[i])
  }

  predicate WellFormedNumber(n: Number) {
    IsDigits(n.whole) && OnlyDigits(n.fraction) && (!n.dot ==> n.fraction == "")
  }

  /** The characters a number was captured from. */
  function Render(n: Number): string {
    (if n.negative then "-" else "") + n.whole + (if n.dot then "." else "") + n.fraction
  }

  function Pow10(k: nat): (p: nat)
    ensures p > 0
  {
    if k == 0 then 1 else 10 * Pow10(k - 1)
  }

  /** The exact value of the decimal numeral, as `float()` reads it before rounding. */
  function Value(n: Number): real {
    var magnitude := DigitsValue(n.whole) as real + DigitsValue(n.fraction) as real / Pow10(|n.fraction|) as real;
    if n.negative then -magnitude else magnitude
  }

  /** The end of the run of digits starting at `i`. */
  function DigitRun(s: string, i: nat): (j: nat)
    requires i <= |s|
    ensures i <= j <= |s|
    ensures forall k | i <= k < j :: IsDigit(s[k])
    ensures j == |s| || !IsDigit(s[j])
    decreases |s| - i
  {
    if i < |s| && IsDigit(s[i]) then DigitRun(s, i + 1) else i
  }

  /** The end of the run of whitespace starting at `i`. */
  function SpaceRun(s: string, i: nat): (j: nat)
    requires i <= |s|
    ensures i <= j <= |s|
    ensures forall k | i <= k < j :: IsSpace(s[k])
    ensures j == |s| || !IsSpace(s[j])
    decreases |s| - i
  {
    if i < |s| && IsSpace(s[i]) then SpaceRun(s, i + 1) else i
  }

  /** A run of digits is determined by where it starts: it ends at the first non-digit. */
  lemma DigitRunOf(s: string, i: nat, j: nat)
    requires i <= j <= |s|
    requires forall k | i <= k < j :: IsDigit(s[k])
    requires j == |s| || !IsDigit(s[j])
    ensures DigitRun(s, i) == j
  {
  }

  /** The width of the sign and of the point in a rendered number. */
  function SignWidth(n: Number): nat {
    if n.negative then 1 else 0
  }

  function PointWidth(n: Number): nat {
    if n.dot then 1 else 0
  }

  lemma RenderLength(n: Number)
    ensures |Render(n)| == SignWidth(n) + |n.whole| + PointWidth(n) + |n.fraction|
  {
  }

  /** The character at each position of a rendered number. */
  lemma RenderIndex(n: Number, k: nat)
    requires k < |Render(n)|
    ensures |Render(n)| == SignWidth(n) + |n.whole| + PointWidth(n) + |n.fraction|
    ensures var w := SignWidth(n) + |n.whole|;
            Render(n)[k] ==
              if k < SignWidth(n) then '-'
              else if k < w then n.whole[k - SignWidth(n)]
              else if k < w + PointWidth(n) then '.'
              else n.fraction[k - w - PointWidth(n)]
  {
  }

  /** The characters of `s` from `i` spell `n`, piece by piece. */
  lemma RenderSlice(s: string, i: nat, n: Number)
    requires i + SignWidth(n) + |n.whole| + PointWidth(n) + |n.fraction| <= |s|
    requires n.negative ==> s[i] == '-'
    requires var start := i + SignWidth(n);
             forall k | 0 <= k < |n.whole| :: s[start + k] == n.whole[k]
    requires var e := i + SignWidth(n) + |n.whole|;
             n.dot ==> s[e] == '.'
    requires var f := i + SignWidth(n) + |n.whole| + PointWidth(n);
             forall k | 0 <= k < |n.fraction| :: s[f + k] == n.fraction[k]
    ensures i + |Render(n)| <= |s| && s[i..i + |Render(n)|] == Render(n)
  {
    var r := Render(n);
    if r != [] {
      RenderLength(n);
    }
    forall k | 0 <= k < |r|
      ensures s[i + k] == r[k]
    {
      RenderIndex(n, k);
    }
  }

  /** Whether the capture at `i` starts with a minus: only when a digit follows it, which
      `NumberAt` checks. */
  predicate MinusAt(s: string, i: nat) {
    i < |s| && s[i] == '-'
  }

  /** Where the digits of the capture at `i` start. */
  function DigitsStart(s: string, i: nat): (start: nat)
    requires i <= |s|
    ensures i <= start <= |s|
  {
    if MinusAt(s, i) then i + 1 else i
  }

  /** Whether a point follows the whole part ending at `e`. */
  predicate PointAt(s: string, e: nat) {
    e < |s| && s[e] == '.'
  }

  /** The digits after the point at `e`, if there is one. */
  function FractionAt(s: string, e: nat): string
    requires e <= |s|
  {
    if PointAt(s, e) then s[e + 1..DigitRun(s, e + 1)] else ""
  }

  /** The number the pattern captures at `i`: the minus if a digit follows it, the
      greedy digit run, and the point with the digits after it if a point follows. */
  function NumberAt(s: string, i: nat): (r: Option<Number>)
    requires i <= |s|
    ensures var start := DigitsStart(s, i);
            r.None? <==> !(start < |s| && IsDigit(s[start]))
  {
    var start := DigitsStart(s, i);
    var e := DigitRun(s, start);
    if e == start then None
    else Some(Number(MinusAt(s, i), s[start..e], PointAt(s, e), FractionAt(s, e)))
  }

  lemma NumberAtWellFormed(s: string, i: nat)
    requires i <= |s| && NumberAt(s, i).Some?
    ensures WellFormedNumber(NumberAt(s, i).value)
  {
  }

  lemma NumberAtText(s: string, i: nat)
    requires i <= |s| && NumberAt(s, i).Some?
    ensures var n := NumberAt(s, i).value;
            i + |Render(n)| <= |s| && s[i..i + |Render(n)|] == Render(n)
  {
    RenderSlice(s, i, NumberAt(s, i).value);
  }

  lemma NumberAtMaximal(s: string, i: nat)
    requires i <= |s| && NumberAt(s, i).Some?
    ensures var n := NumberAt(s, i).value;
            var e := i + |Render(n)|;
            && (e == |s| || !IsDigit(s[e]))
            && (!n.dot ==> e == |s| || s[e] != '.')
  {
  }

  /** The text at `i` spells `n`. */
  predicate Spells(s: string, i: nat, n: Number) {
    i + |Render(n)| <= |s| && s[i..i + |Render(n)|] == Render(n)
  }

  /** The text from `e` on cannot extend a capture of `n` ending there: no digit follows,
      and no point follows a number without one. */
  predicate Ends(s: string, e: nat, n: Number) {
    e < |s| ==> !IsDigit(s[e]) && (!n.dot ==> s[e] != '.')
  }

  /** What the pattern captures is a well-formed number spelled by the text at `i`, and
      the text after it could not extend it. */
  lemma NumberAtSpelled(s: string, i: nat)
    requires i <= |s| && NumberAt(s, i).Some?
    ensures var n := NumberAt(s, i).value;
            WellFormedNumber(n) && Spells(s, i, n) && Ends(s, i + |Render(n)|, n)
  {
    NumberAtWellFormed(s, i);
    NumberAtText(s, i);
    NumberAtMaximal(s, i);
  }

  /** Where a number spelled from `i` ends. */
  function EndOf(n: Number, i: nat): nat {
    i + SignWidth(n) + |n.whole| + PointWidth(n) + |n.fraction|
  }

  /** The text at `i` spells `n` piece by piece: the minus, the whole part, the point and
      the fraction, each at its place. */
  predicate Pieces(s: string, i: nat, n: Number) {
    var start := i + SignWidth(n);
    var e := start + |n.whole|;
    && EndOf(n, i) <= |s|
    && (n.negative ==> s[i] == '-')
    && (forall k | 0 <= k < |n.whole| :: s[start + k] == n.whole[k])
    && (n.dot ==> s[e] == '.')
    && (forall k | 0 <= k < |n.fraction| :: s[e + PointWidth(n) + k] == n.fraction[k])
  }

  /** A spelled number, piece by piece. */
  lemma SpelledPieces(s: string, i: nat, n: Number)
    requires Spells(s, i, n)
    ensures Pieces(s, i, n) && EndOf(n, i) == i + |Render(n)|
  {
    var r := Render(n);
    var start := i + SignWidth(n);
    var e := start + |n.whole|;
    RenderLength(n);
    assert forall k | 0 <= k < |r| :: s[i + k] == r[k];
    if n.negative {
      RenderIndex(n, 0);
    }
    forall k | 0 <= k < |n.whole|
      ensures s[start + k] == n.whole[k]
    {
      RenderIndex(n, SignWidth(n) + k);
    }
    if n.dot {
      RenderIndex(n, e - i);
    }
    forall k | 0 <= k < |n.fraction|
      ensures s[e + PointWidth(n) + k] == n.fraction[k]
    {
      RenderIndex(n, e - i + PointWidth(n) + k);
    }
  }

  /** The text at `i` starts with a minus exactly when the number is negative. */
  lemma PiecesSign(s: string, i: nat, n: Number)
    requires WellFormedNumber(n) && Pieces(s, i, n)
    ensures n.negative <==> MinusAt(s, i)
  {
    assert s[i + SignWidth(n)] == n.whole[0];
  }

  /** The digits of the whole part end where the whole part ends. */
  lemma PiecesDigits(s: string, i: nat, n: Number)
    requires WellFormedNumber(n) && Pieces(s, i, n) && Ends(s, EndOf(n, i), n)
    ensures var start := i + SignWidth(n);
            var e := start + |n.whole|;
            && (forall k | start <= k < e :: IsDigit(s[k]))
            && (e == |s| || !IsDigit(s[e]))
  {
    var start := i + SignWidth(n);
    var e := start + |n.whole|;
    forall k | start <= k < e
      ensures IsDigit(s[k])
    {
      assert s[start + (k - start)] == n.whole[k - start];
    }
    if !n.dot {
      assert e == EndOf(n, i);
    }
  }

  /** The sign and the digit run after it are the number's. */
  lemma PiecesWhole(s: string, i: nat, n: Number)
    requires WellFormedNumber(n) && Pieces(s, i, n) && Ends(s, EndOf(n, i), n)
    ensures var start := i + SignWidth(n);
            var e := start + |n.whole|;
            && (n.negative <==> MinusAt(s, i))
            && e <= |s| && DigitRun(s, start) == e && s[start..e] == n.whole
  {
    var start := i + SignWidth(n);
    var e := start + |n.whole|;
    PiecesSign(s, i, n);
    PiecesRun(s, i, n);
    SliceOf(s, start, n.whole);
  }

  /** The digit run after the sign ends where the whole part does. */
  lemma PiecesRun(s: string, i: nat, n: Number)
    requires WellFormedNumber(n) && Pieces(s, i, n) && Ends(s, EndOf(n, i), n)
    ensures DigitRun(s, i + SignWidth(n)) == i + SignWidth(n) + |n.whole|
  {
    PiecesDigits(s, i, n);
    DigitRunOf(s, i + SignWidth(n), i + SignWidth(n) + |n.whole|);
  }

  /** Text that matches `w` position by position from `start` has `w` as its slice. */
  lemma SliceOf(s: string, start: nat, w: string)
    requires start + |w| <= |s|
    requires forall k | 0 <= k < |w| :: s[start + k] == w[k]
    ensures s[start..start + |w|] == w
  {
  }

  /** A point follows the whole part exactly when the number has one. */
  lemma PiecesPoint(s: string, i: nat, n: Number, e: nat)
    requires WellFormedNumber(n) && Pieces(s, i, n) && Ends(s, EndOf(n, i), n)
    requires e == i + SignWidth(n) + |n.whole|
    ensures PointAt(s, e) <==> n.dot
  {
    if !n.dot {
      assert e == EndOf(n, i);
    }
  }

  /** After the point, the digit run is the fraction. */
  lemma PiecesFraction(s: string, i: nat, n: Number, e: nat, f: nat)
    requires WellFormedNumber(n) && Pieces(s, i, n) && Ends(s, EndOf(n, i), n) && n.dot
    requires e == i + SignWidth(n) + |n.whole| && f == e + 1 + |n.fraction|
    ensures f <= |s| && DigitRun(s, e + 1) == f && s[e + 1..f] == n.fraction
  {
    assert f == EndOf(n, i);
    forall k | e + 1 <= k < f
      ensures IsDigit(s[k])
    {
      assert s[e + 1 + (k - e - 1)] == n.fraction[k - e - 1];
    }
    DigitRunOf(s, e + 1, f);
    SliceOf(s, e + 1, n.fraction);
  }

  /** Reading a number spelled piece by piece, that the text after it cannot extend,
      gives the number. */
  lemma PiecesRoundTrip(s: string, i: nat, n: Number)
    requires WellFormedNumber(n) && Pieces(s, i, n) && Ends(s, EndOf(n, i), n)
    ensures NumberAt(s, i) == Some(n)
  {
    var e := i + SignWidth(n) + |n.whole|;
    PiecesWhole(s, i, n);
    PiecesPoint(s, i, n, e);
    if n.dot {
      PiecesFraction(s, i, n, e, e + 1 + |n.fraction|);
    }
    NumberAtPieces(s, i, n, i + SignWidth(n), i + SignWidth(n) + |n.whole|);
  }

  /** Reading a spelled number that the text after it cannot extend gives the number. */
  lemma NumberRoundTrip(s: string, i: nat, n: Number)
    requires WellFormedNumber(n) && Spells(s, i, n) && Ends(s, i + |Render(n)|, n)
    ensures NumberAt(s, i) == Some(n)
  {
    SpelledPieces(s, i, n);
    PiecesRoundTrip(s, i, n);
  }

  /** The capture at `i` is `n` exactly when the text there spells the well-formed `n`
      and cannot extend it. */
  lemma NumberAtIff(s: string, i: nat, n: Number)
    requires i <= |s|
    ensures NumberAt(s, i) == Some(n) <==>
              WellFormedNumber(n) && Spells(s, i, n) && Ends(s, i + |Render(n)|, n)
  {
    if NumberAt(s, i) == Some(n) {
      NumberAtSpelled(s, i);
    }
    if WellFormedNumber(n) && Spells(s, i, n) && Ends(s, i + |Render(n)|, n) {
      NumberRoundTrip(s, i, n);
    }
  }

  /** `NumberAt` in terms of where its sign, digit runs and point are. */
  lemma NumberAtPieces(s: string, i: nat, n: Number, start: nat, e: nat)
    requires start == i + SignWidth(n) && e == start + |n.whole|
    requires i <= |s| && n.whole != [] && (!n.dot ==> n.fraction == [])
    requires n.negative <==> MinusAt(s, i)
    requires e <= |s| && DigitRun(s, start) == e && s[start..e] == n.whole
    requires n.dot <==> PointAt(s, e)
    requires n.dot ==> e + 1 + |n.fraction| <= |s| && DigitRun(s, e + 1) == e + 1 + |n.fraction| && s[e + 1..e + 1 + |n.fraction|] == n.fraction
    ensures NumberAt(s, i) == Some(n)
  {
  }

  // ---------------------------------------------------------------------------
  // The search: <tag>[^:]*:\s*(number)
  // ---------------------------------------------------------------------------

  /** The match of the pattern starting at `i`: the tag, everything up to the first
      colon after it, the whitespace after the colon, then the number. */
  function MatchAt(s: string, tag: string, i: nat): (r: Option<Number>)
    requires |tag| > 0 && i <= |s|
    ensures r.Some? ==> OccursAt(s, tag, i)
  {
    if !OccursAt(s, tag, i) then None
    else
      match FindFrom(s, ":", i + |tag|)
      case None => None
      case Some(c) => NumberAt(s, SpaceRun(s, c + 1))
  }

  /** The leftmost position from `from` on where the pattern matches. */
  function FirstMatch(s: string, tag: string, from: nat): (r: Option<nat>)
    requires |tag| > 0 && from <= |s|
    ensures r.Some? ==> from <= r.value <= |s| && MatchAt(s, tag, r.value).Some?
    ensures r.Some? ==> forall j | from <= j < r.value :: MatchAt(s, tag, j).None?
    ensures r.None? ==> forall j | from <= j <= |s| :: MatchAt(s, tag, j).None?
    decreases |s| - from
  {
    if MatchAt(s, tag, from).Some? then Some(from)
    else if from == |s| then None
    else FirstMatch(s, tag, from + 1)
  }

  /** `re.search(pattern, text).group(1)` as a number: the capture of the leftmost match. */
  function Search(s: string, tag: string): (r: Option<Number>)
    requires |tag| > 0
    ensures r.Some? <==> exists i | 0 <= i <= |s| :: MatchAt(s, tag, i).Some?
    ensures r.Some? ==> exists i | 0 <= i <= |s| ::
              && MatchAt(s, tag, i) == r
              && forall j | 0 <= j < i :: MatchAt(s, tag, j).None?
  {
    match FirstMatch(s, tag, 0)
    case None => None
    case Some(i) => MatchAt(s, tag, i)
  }

  /** A run of whitespace is determined by where it starts. */
  lemma SpaceRunOf(s: string, i: nat, j: nat)
    requires i <= j <= |s|
    requires forall k | i <= k < j :: IsSpace(s[k])
    requires j == |s| || !IsSpace(s[j])
    ensures SpaceRun(s, i) == j
  {
  }

  /** A number's text is made of minus signs, digits and points, and starts with a
      minus or a digit. */
  lemma RenderChars(n: Number)
    requires WellFormedNumber(n)
    ensures Render(n) != [] && (Render(n)[0] == '-' || IsDigit(Render(n)[0]))
    ensures forall k | 0 <= k < |Render(n)| :: Render(n)[k] == '-' || Render(n)[k] == '.' || IsDigit(Render(n)[k])
  {
    RenderLength(n);
    RenderIndex(n, 0);
    forall k | 0 <= k < |Render(n)|
      ensures Render(n)[k] == '-' || Render(n)[k] == '.' || IsDigit(Render(n)[k])
    {
      RenderIndex(n, k);
    }
  }

  /** A tag, then text without a colon up to the colon at `c`, then whitespace up to `j`,
      then a number the text after cannot extend: the pattern matches at `i` and
      captures that number. */
  lemma MatchAtLine(s: string, tag: string, i: nat, c: nat, j: nat, n: Number)
    requires |tag| > 0 && OccursAt(s, tag, i)
    requires i + |tag| <= c < j <= |s| && s[c] == ':'
    requires forall k | i + |tag| <= k < c :: s[k] != ':'
    requires forall k | c + 1 <= k < j :: IsSpace(s[k])
    requires WellFormedNumber(n) && Spells(s, j, n) && Ends(s, j + |Render(n)|, n)
    ensures MatchAt(s, tag, i) == Some(n)
  {
    FindCharAt(s, ':', i + |tag|, c);
    assert FindFrom(s, ":", i + |tag|) == Some(c);
    RenderChars(n);
    assert s[j] == Render(n)[0];
    SpaceRunOf(s, c + 1, j);
    NumberRoundTrip(s, j, n);
  }

  /** When the tag does not occur before `p` and the pattern matches at `p`, the search
      captures what it matches there. */
  lemma SearchFinds(s: string, tag: string, p: nat)
    requires |tag| > 0 && p <= |s|
    requires forall j | 0 <= j < p :: !OccursAt(s, tag, j)
    requires MatchAt(s, tag, p).Some?
    ensures Search(s, tag) == MatchAt(s, tag, p)
  {
    var r := FirstMatch(s, tag, 0);
    assert r == Some(p);
  }

  // ---------------------------------------------------------------------------
  // _extract_coordinates
  // ---------------------------------------------------------------------------

  /** The location dictionary `{"latitude": ..., "longitude": ...}`. */
  datatype Location = Location(latitude: real, longitude: real)

  /** The bounding box, bounds included. */
  predicate InBox(latitude: real, longitude: real) {
    MinLatitude <= latitude <= MaxLatitude && MinLongitude <= longitude <= MaxLongitude
  }

  /** `_extract_coordinates`: both numbers must be found; a pair outside the box is no
      location. */
  function ExtractCoordinates(text: string): (r: Option<Location>)
    ensures r.Some? ==> InBox(r.value.latitude, r.value.longitude)
    ensures r.Some? <==>
              && Search(text, LatitudeLabel).Some? && Search(text, LongitudeLabel).Some?
              && InBox(Value(Search(text, LatitudeLabel).value), Value(Search(text, LongitudeLabel).value))
    ensures r.Some? ==>
              && r.value.latitude == Value(Search(text, LatitudeLabel).value)
              && r.value.longitude == Value(Search(text, LongitudeLabel).value)
  {
    match (Search(text, LatitudeLabel), Search(text, LongitudeLabel))
    case (Some(lat), Some(lng)) =>
      if InBox(Value(lat), Value(lng)) then Some(Location(Value(lat), Value(lng))) else None
    case _ => None
  }

  // ---------------------------------------------------------------------------
  // The stored coordinate lines
  // ---------------------------------------------------------------------------

  /** The rest of the label in the knowledge base's coordinate lines ("جغرافیایی",
      "geographic"). */
  const Geographic := " جغرافیایی"

  /** A coordinate line as stored: "عرض جغرافیایی: 35.858093". */
  function Line(tag: string, n: Number): string {
    tag + Geographic + ": " + Render(n)
  }

  /** A record holding a latitude line and then a longitude line. */
  function Record(latitude: Number, longitude: Number): string {
    Line(LatitudeLabel, latitude) + "\n" + Line(LongitudeLabel, longitude)
  }

  /** The layout of a line with a three-letter tag: the tag, no colon until position 13,
      the colon and a space, the number from position 15. */
  lemma LineFacts(tag: string, n: Number)
    requires |tag| == 3
    ensures var l := Line(tag, n);
            && |l| == 15 + |Render(n)|
            && l[..3] == tag
            && (forall k | 3 <= k < 13 :: l[k] != ':')
            && l[13] == ':' && l[14] == ' '
            && l[15..] == Render(n)
  {
    var l := Line(tag, n);
    assert l == tag + (Geographic + ": " + Render(n));
    assert forall k | 3 <= k < 13 :: l[k] == Geographic[k - 3];
    assert ':' !in Geographic;
  }

  /** After its tag, a line holds no 'ط', the first letter of the longitude tag. */
  lemma LineNoTa(tag: string, n: Number)
    requires |tag| == 3 && WellFormedNumber(n)
    ensures var l := Line(tag, n);
            forall k | 3 <= k < |l| :: l[k] != 'ط'
  {
    var l := Line(tag, n);
    var r := Render(n);
    assert l == tag + (Geographic + ": " + r);
    assert forall k | 3 <= k < 13 :: l[k] == Geographic[k - 3];
    assert 'ط' !in Geographic;
    RenderChars(n);
    assert forall k | 15 <= k < |l| :: l[k] == r[k - 15];
  }

  /** The characters of `y` keep their order after a prefix. */
  lemma AfterPrefix(x: string, y: string)
    ensures forall k | 0 <= k < |y| :: (x + y)[|x| + k] == y[k]
  {
  }

  /** A tag is absent where the text holds a different first character. */
  lemma NotTagAt(s: string, tag: string, j: nat)
    requires |tag| > 0
    requires j < |s| ==> s[j] != tag[0]
    ensures !OccursAt(s, tag, j)
  {
    if j + |tag| <= |s| {
      assert s[j..j + |tag|][0] == s[j];
    }
  }

  /** A coordinate line laid out from `p` matches there, provided the text after it does
      not extend its number. */
  lemma MatchAtLaidOut(s: string, p: nat, l: string, tag: string, n: Number)
    requires |tag| == 3 && WellFormedNumber(n)
    requires p + |l| <= |s| && forall k | 0 <= k < |l| :: s[p + k] == l[k]
    requires |l| == 15 + |Render(n)| && l[..3] == tag && l[13] == ':' && l[14] == ' ' && l[15..] == Render(n)
    requires forall k | 3 <= k < 13 :: l[k] != ':'
    requires Ends(s, p + |l|, n)
    ensures MatchAt(s, tag, p) == Some(n)
  {
    assert s[p..p + 3] == l[..3];
    assert s[p + 15..p + |l|] == l[15..];
    assert s[p + 13] == l[13] && s[p + 14] == l[14];
    assert forall k | p + 3 <= k < p + 13 :: s[k] == l[k - p];
    MatchAtLine(s, tag, p, p + 13, p + 15, n);
  }

  /** The latitude line at the start of a record is matched at 0. */
  lemma RecordLatitude(latitude: Number, longitude: Number)
    requires WellFormedNumber(latitude) && WellFormedNumber(longitude)
    ensures Search(Record(latitude, longitude), LatitudeLabel) == Some(latitude)
  {
    var s := Record(latitude, longitude);
    var l1 := Line(LatitudeLabel, latitude);
    var rest := "\n" + Line(LongitudeLabel, longitude);
    assert s == l1 + rest;
    LineFacts(LatitudeLabel, latitude);
    assert forall k | 0 <= k < |l1| :: s[k] == l1[k];
    assert s[|l1|] == '\n';
    MatchAtLaidOut(s, 0, l1, LatitudeLabel, latitude);
    SearchFinds(s, LatitudeLabel, 0);
  }

  /** The longitude tag does not occur in the latitude line or the line break. */
  lemma RecordLongitudeFirst(latitude: Number, longitude: Number)
    requires WellFormedNumber(latitude) && WellFormedNumber(longitude)
    ensures var s := Record(latitude, longitude);
            forall j | 0 <= j < |Line(LatitudeLabel, latitude)| + 1 :: !OccursAt(s, LongitudeLabel, j)
  {
    var s := Record(latitude, longitude);
    var l1 := Line(LatitudeLabel, latitude);
    var rest := "\n" + Line(LongitudeLabel, longitude);
    assert s == l1 + rest;
    LineNoTa(LatitudeLabel, latitude);
    forall j | 0 <= j < |l1| + 1
      ensures !OccursAt(s, LongitudeLabel, j)
    {
      if j < 3 {
        assert s[j] == LatitudeLabel[j];
      } else if j < |l1| {
        assert s[j] == l1[j];
      } else {
        assert s[j] == '\n';
      }
      NotTagAt(s, LongitudeLabel, j);
    }
  }

  /** A coordinate line at the end of a text matches where it starts. */
  lemma MatchAtLastLine(front: string, l: string, tag: string, n: Number)
    requires |tag| == 3 && WellFormedNumber(n)
    requires |l| == 15 + |Render(n)| && l[..3] == tag && l[13] == ':' && l[14] == ' ' && l[15..] == Render(n)
    requires forall k | 3 <= k < 13 :: l[k] != ':'
    ensures MatchAt(front + l, tag, |front|) == Some(n)
  {
    AfterPrefix(front, l);
    MatchAtLaidOut(front + l, |front|, l, tag, n);
  }

  /** A coordinate line with a three-letter tag at the end of a text matches where it
      starts. */
  lemma MatchAtEndLine(front: string, tag: string, n: Number)
    requires |tag| == 3 && WellFormedNumber(n)
    ensures MatchAt(front + Line(tag, n), tag, |front|) == Some(n)
  {
    LineFacts(tag, n);
    MatchAtLastLine(front, Line(tag, n), tag, n);
  }

  /** The longitude line after the latitude line is the first place its tag occurs, and
      the pattern matches there. */
  lemma RecordLongitude(latitude: Number, longitude: Number)
    requires WellFormedNumber(latitude) && WellFormedNumber(longitude)
    ensures Search(Record(latitude, longitude), LongitudeLabel) == Some(longitude)
  {
    var front := Line(LatitudeLabel, latitude) + "\n";
    var s := front + Line(LongitudeLabel, longitude);
    assert s == Record(latitude, longitude);
    RecordLongitudeFirst(latitude, longitude);
    MatchAtEndLine(front, LongitudeLabel, longitude);
    SearchFinds(s, LongitudeLabel, |front|);
  }

  /** A record of two coordinate lines yields its two numbers, when they lie in the box:
      the stored format and the extraction agree. */
  lemma RecordCoordinates(latitude: Number, longitude: Number)
    requires WellFormedNumber(latitude) && WellFormedNumber(longitude)
    ensures ExtractCoordinates(Record(latitude, longitude)) ==
              if InBox(Value(latitude), Value(longitude)) then Some(Location(Value(latitude), Value(longitude)))
              else None
  {
    RecordLatitude(latitude, longitude);
    RecordLongitude(latitude, longitude);
  }
}
