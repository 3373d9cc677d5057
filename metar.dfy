/** `parseMETAR` (App.tsx:115-159): a METAR report in, a record with every field filled out. The
    text is upper-cased and trimmed, the six patterns are searched independently (the clouds one
    globally), and the ceiling and the flight category are derived from what was found. */
module Metar {
  import opened Options
  import opened Text
  import opened Js
  import opened Regex
  import opened Patterns

  // ---------------------------------------------------------------------------------------------
  // Normalisation

  /** `input.toUpperCase().trim()`. */
  function Normalize(input: string): (clean: string)
    ensures Trimmed(clean)
    ensures forall k :: 0 <= k < |clean| ==> !IsLower(clean[k])
  {
    var u := UpperCase(input);
    TrimIsTrimmed(u);
    TrimNoLower(u);
    Trim(u)
  }

  /** Normalising a normalised text changes nothing. */
  lemma NormalizeIdempotent(input: string)
    ensures Normalize(Normalize(input)) == Normalize(input)
  {
    var u := UpperCase(input);
    var c := Trim(u);
    assert Normalize(input) == c;
    UpperCaseOfTrim(u);
    UpperCaseIdempotent(input);
    assert UpperCase(c) == c;
    TrimIsTrimmed(u);
    TrimTrimmed(c);
    assert Normalize(c) == Trim(UpperCase(c));
  }

  // ---------------------------------------------------------------------------------------------
  // Numbers read from the captures

  /** `parseInt` of a run of digits is its decimal value. */
  function DigitsNumber(d: string): (v: int)
    requires |d| > 0 && AllDigits(d)
    ensures v == DigitsValue(d) && 0 <= v < Pow10(|d|)
  {
    ParseIntDigits(d, []);
    assert d + [] == d;
    ParseInt(d).value
  }

  /** `parseInt(t.replace('M', '-'))` for a temperature capture: a leading 'M' means minus. */
  function SignedValue(t: string): (v: int)
    requires SignedTwo(t)
    ensures t[0] == 'M' ==> v + DigitsValue(t[1..]) == 0
    ensures t[0] != 'M' ==> v == DigitsValue(t)
    ensures -99 <= v <= 99
    ensures v < 0 ==> t[0] == 'M'
  {
    SignedParses(t);
    ParseInt(ReplaceFirst(t, 'M', "-")).value
  }

  lemma SignedParses(t: string)
    requires SignedTwo(t)
    ensures var r := ParseInt(ReplaceFirst(t, 'M', "-"));
            && r.Some?
            && (t[0] == 'M' ==> r.value + DigitsValue(t[1..]) == 0)
            && (t[0] != 'M' ==> r.value == DigitsValue(t))
  {
    assert Pow10(2) == 100;
    if t[0] == 'M' {
      assert IndexOf(t, 'M') == 0;
      assert ReplaceFirst(t, 'M', "-") == "-" + t[1..];
      ParseIntNegative(t[1..]);
    } else {
      assert IndexOf(t, 'M') == |t|;
      ParseIntDigits(t, []);
      assert t + [] == t;
    }
  }

  /** `parseFloat(v.replace('M', ''))` for a visibility capture: the digits before any '/', so a
      fraction reads as its numerator ("1/2" gives 1, "M1/4" gives 1). */
  function VisNumber(v: string): (n: int)
    requires VisShape(v)
    ensures 1 <= |v| <= 2 && AllDigits(v) ==> n == DigitsValue(v)
    ensures IsFraction(v) ==> n == DigitValue(v[0])
    ensures v[0] == 'M' ==> n == DigitValue(v[1])
    ensures 0 <= n <= 99
  {
    VisParses(v);
    ParseFloat(ReplaceFirst(v, 'M', "")).value
  }

  lemma FractionParses(f: string)
    requires IsFraction(f)
    ensures ParseFloat(f) == Some(DigitValue(f[0]))
  {
    var d := f[..1];
    assert f == d + f[1..];
    ParseIntDigits(d, f[1..]);
    assert DigitsValue(d) == DigitValue(f[0]) by {
      assert d[..|d| - 1] == [];
    }
  }

  lemma VisParses(v: string)
    requires VisShape(v)
    ensures var r := ParseFloat(ReplaceFirst(v, 'M', ""));
            && r.Some?
            && (1 <= |v| <= 2 && AllDigits(v) ==> r.value == DigitsValue(v))
            && (IsFraction(v) ==> r.value == DigitValue(v[0]))
            && (v[0] == 'M' ==> r.value == DigitValue(v[1]))
            && 0 <= r.value <= 99
  {
    assert Pow10(2) == 100;
    if v[0] == 'M' {
      assert IndexOf(v, 'M') == 0;
      assert ReplaceFirst(v, 'M', "") == v[1..];
      FractionParses(v[1..]);
    } else if IsFraction(v) {
      assert IndexOf(v, 'M') == |v|;
      FractionParses(v);
    } else {
      assert IndexOf(v, 'M') == |v|;
      ParseIntDigits(v, []);
      assert v + [] == v;
    }
  }

  // ---------------------------------------------------------------------------------------------
  // The non-global searches: `text.match(pattern)` reports the leftmost match or nothing

  function WindMatch(s: string): (r: Option<(nat, WindGroup)>)
    ensures r.None? <==> NoneMatch(IsWindAt, s)
    ensures forall i: nat, w :: r == Some((i, w)) <==> IsFirst(IsWindAt, s, i, w)
  {
    WindAtSpec(s);
    LeftmostFindsFirst(s, WindAt, IsWindAt);
    Leftmost(s, 0, WindAt)
  }

  function VisMatch(s: string): (r: Option<(nat, string)>)
    ensures r.None? <==> NoneMatch(IsVisAt, s)
    ensures forall i: nat, v :: r == Some((i, v)) <==> IsFirst(IsVisAt, s, i, v)
  {
    VisAtSpec(s);
    LeftmostFindsFirst(s, VisAt, IsVisAt);
    Leftmost(s, 0, VisAt)
  }

  function TempMatch(s: string): (r: Option<(nat, TempGroup)>)
    ensures r.None? <==> NoneMatch(IsTempAt, s)
    ensures forall i: nat, g :: r == Some((i, g)) <==> IsFirst(IsTempAt, s, i, g)
  {
    TempAtSpec(s);
    LeftmostFindsFirst(s, TempAt, IsTempAt);
    Leftmost(s, 0, TempAt)
  }

  function AltimeterMatch(s: string): (r: Option<(nat, string)>)
    ensures r.None? <==> NoneMatch(IsAltimeterAt, s)
    ensures forall i: nat, d :: r == Some((i, d)) <==> IsFirst(IsAltimeterAt, s, i, d)
  {
    AltimeterAtSpec(s);
    LeftmostFindsFirst(s, AltimeterAt, IsAltimeterAt);
    Leftmost(s, 0, AltimeterAt)
  }

  // ---------------------------------------------------------------------------------------------
  // Cloud layers and the ceiling

  /** The strings the global cloud search returns, in order. */
  function HitTexts(hits: seq<CloudHit>): (texts: seq<string>)
    ensures |texts| == |hits|
    ensures forall k :: 0 <= k < |hits| ==> texts[k] == CloudText(hits[k].group)
  {
    seq(|hits|, k requires 0 <= k < |hits| => CloudText(hits[k].group))
  }

  /** A layer: its coverage and its height in feet. */
  datatype Layer = Layer(cover: Coverage, height: int)

  /** What a cloud group stands for: its coverage and its height in hundreds of feet. */
  function GroupLayer(g: CloudGroup): Layer
    requires GroupShape(g)
  {
    Layer(g.cover, DigitsValue(g.height) * 100)
  }

  predicate HeightInRange(h: int)
  {
    h % 100 == 0 && 0 <= h <= 99900
  }

  /** One `cloudMatch.map` step: the pattern matched again on one returned string, read as
      `{ type, height: parseInt(digits) * 100 }`, or nothing when it does not match. */
  function LayerOf(text: string): (l: Option<Layer>)
    ensures l.Some? ==> HeightInRange(l.value.height)
  {
    var r := Leftmost(text, 0, CloudAt);
    if r.None? then None
    else
      CloudSound(text, r.value.0);
      var g := r.value.1;
      Some(Layer(g.cover, HeightOf(g.height)))
  }

  /** `parseInt(digits) * 100` for the three digits of a cloud group. */
  function HeightOf(h: string): (v: int)
    requires |h| == 3 && AllDigits(h)
    ensures v == DigitsValue(h) * 100 && HeightInRange(v)
  {
    assert Pow10(3) == 1000;
    DigitsNumber(h) * 100
  }

  /** A string the global search returned matches again, as the same group. */
  lemma LayerOfCloudText(g: CloudGroup)
    requires GroupShape(g)
    ensures LayerOf(CloudText(g)) == Some(GroupLayer(g))
  {
    var t := CloudText(g);
    assert PrefixAt(t, 0, t);
    CloudComplete(t, 0, g);
  }

  /** `xs.map(f).filter(Boolean)` for a map whose results are objects: the values `f` yields, in order. */
  function SomeValues<T, U>(f: T -> Option<U>, xs: seq<T>): (r: seq<U>)
    ensures |r| <= |xs|
    ensures forall y :: y in r ==> exists x :: x in xs && f(x) == Some(y)
  {
    if xs == [] then []
    else
      var rest := SomeValues(f, xs[1..]);
      assert forall x :: x in xs[1..] ==> x in xs;
      match f(xs[0])
      case Some(y) => [y] + rest
      case None => rest
  }

  /** When `f` yields a value for every element, nothing is filtered out. */
  lemma {:induction false} SomeValuesAll<T, U>(f: T -> Option<U>, xs: seq<T>, ys: seq<U>)
    requires |ys| == |xs|
    requires forall k :: 0 <= k < |xs| ==> f(xs[k]) == Some(ys[k])
    ensures SomeValues(f, xs) == ys
  {
    if xs != [] {
      assert f(xs[0]) == Some(ys[0]);
      forall k | 0 <= k < |xs| - 1 ensures f(xs[1..][k]) == Some(ys[1..][k]) {
        assert xs[1..][k] == xs[k + 1];
      }
      SomeValuesAll(f, xs[1..], ys[1..]);
      assert ys == [ys[0]] + ys[1..];
    }
  }

  /** `cloudMatch.map(...).filter(Boolean)`. */
  function Layers(texts: seq<string>): (ls: seq<Layer>)
    ensures |ls| <= |texts|
    ensures forall k :: 0 <= k < |ls| ==> HeightInRange(ls[k].height)
  {
    var ls := SomeValues(LayerOf, texts);
    assert forall k :: 0 <= k < |ls| ==> ls[k] in ls;
    ls
  }

  /** What the cloud groups of the hits stand for, in order. */
  function HitLayers(hits: seq<CloudHit>): (ls: seq<Layer>)
    requires forall k :: 0 <= k < |hits| ==> GroupShape(hits[k].group)
    ensures |ls| == |hits|
    ensures forall k :: 0 <= k < |hits| ==> ls[k] == GroupLayer(hits[k].group)
  {
    seq(|hits|, k requires 0 <= k < |hits| => GroupLayer(hits[k].group))
  }

  /** Every string of the global search yields its layer: the filter drops nothing. */
  lemma LayersOfHits(hits: seq<CloudHit>)
    requires forall k :: 0 <= k < |hits| ==> GroupShape(hits[k].group)
    ensures Layers(HitTexts(hits)) == HitLayers(hits)
  {
    var texts := HitTexts(hits);
    var ls := HitLayers(hits);
    forall k | 0 <= k < |hits| ensures LayerOf(texts[k]) == Some(ls[k]) {
      LayerOfCloudText(hits[k].group);
    }
    SomeValuesAll(LayerOf, texts, ls);
  }

  predicate IsCeilingCover(c: Coverage)
  {
    c == BKN || c == OVC
  }

  /** `find(l => l.type === 'BKN' || l.type === 'OVC')`: the index of the first broken or overcast layer. */
  function FirstCeiling(ls: seq<Layer>): (r: Option<nat>)
    ensures r.Some? ==> r.value < |ls| && IsCeilingCover(ls[r.value].cover)
    ensures r.Some? ==> forall j :: 0 <= j < r.value ==> !IsCeilingCover(ls[j].cover)
    ensures r.None? <==> forall j :: 0 <= j < |ls| ==> !IsCeilingCover(ls[j].cover)
  {
    if ls == [] then None
    else if IsCeilingCover(ls[0].cover) then Some(0)
    else
      match FirstCeiling(ls[1..])
      case Some(k) => Some(k + 1)
      case None => None
  }

  /** `cloudCeil`: 10000 without any cloud match or without a broken or overcast layer, otherwise
      that layer's height. */
  function Ceiling(hits: seq<CloudHit>): (c: int)
    ensures c == 10000 || HeightInRange(c)
  {
    if hits == [] then 10000
    else
      var ls := Layers(HitTexts(hits));
      var k := FirstCeiling(ls);
      if k.Some? then ls[k.value].height else 10000
  }

  /** `c` is the ceiling the hits describe: the height of the first broken or overcast group, and
      10000 when there is none; few, scattered and vertical-visibility groups never set it. */
  predicate IsCeilingOf(hits: seq<CloudHit>, c: int)
    requires forall k :: 0 <= k < |hits| ==> GroupShape(hits[k].group)
  {
    && ((forall k :: 0 <= k < |hits| ==> !IsCeilingCover(hits[k].group.cover)) ==> c == 10000)
    && (forall k :: 0 <= k < |hits| && IsCeilingCover(hits[k].group.cover)
                    && (forall j :: 0 <= j < k ==> !IsCeilingCover(hits[j].group.cover))
                    ==> c == GroupLayer(hits[k].group).height)
  }

  /** `Ceiling` computes the ceiling the hits describe. */
  lemma CeilingRule(hits: seq<CloudHit>)
    requires forall k :: 0 <= k < |hits| ==> GroupShape(hits[k].group)
    ensures IsCeilingOf(hits, Ceiling(hits))
  {
    if hits != [] {
      LayersOfHits(hits);
      var ls := Layers(HitTexts(hits));
      CoversOfHits(hits, ls);
      forall k | 0 <= k < |hits| && IsCeilingCover(hits[k].group.cover)
                 && (forall j :: 0 <= j < k ==> !IsCeilingCover(hits[j].group.cover))
        ensures Ceiling(hits) == GroupLayer(hits[k].group).height
      {
        FirstCeilingIs(ls, k);
      }
    }
  }

  /** Layer k has the coverage of hit k. */
  lemma CoversOfHits(hits: seq<CloudHit>, ls: seq<Layer>)
    requires forall k :: 0 <= k < |hits| ==> GroupShape(hits[k].group)
    requires |ls| == |hits| && forall k :: 0 <= k < |hits| ==> ls[k] == GroupLayer(hits[k].group)
    ensures forall k :: 0 <= k < |hits| ==> (IsCeilingCover(ls[k].cover) <==> IsCeilingCover(hits[k].group.cover))
  {
  }

  lemma FirstCeilingIs(ls: seq<Layer>, k: nat)
    requires k < |ls| && IsCeilingCover(ls[k].cover)
    requires forall j :: 0 <= j < k ==> !IsCeilingCover(ls[j].cover)
    ensures FirstCeiling(ls) == Some(k)
  {
    assert FirstCeiling(ls).Some?;
  }

  /** `clouds`: the returned strings joined by ", ", or "Clear" when nothing matched. */
  function CloudsText(hits: seq<CloudHit>): string
  {
    if hits == [] then "Clear" else Join(HitTexts(hits), ", ")
  }

  /** "Clear" exactly when there is no cloud group: no group's text reads as "Clear". */
  lemma CloudsClear(hits: seq<CloudHit>)
    ensures CloudsText(hits) == "Clear" <==> hits == []
    ensures |hits| == 1 ==> CloudsText(hits) == CloudText(hits[0].group)
  {
    if hits != [] {
      var texts := HitTexts(hits);
      var code := CoverageCode(hits[0].group.cover);
      assert texts[0] == code + hits[0].group.height;
      assert texts[0][0] == code[0];
      assert code[0] != 'C';
    }
  }

  /** No cloud string holds a comma: it is a coverage code and three digits. */
  lemma CloudTextNoComma(g: CloudGroup)
    requires GroupShape(g)
    ensures ',' !in CloudText(g)
  {
    var code := CoverageCode(g.cover);
    assert ',' !in code;
    forall k | 0 <= k < |g.height| ensures g.height[k] != ',' {
      assert IsDigit(g.height[k]);
    }
  }

  /** For two or more groups, `clouds` lists them: splitting it at ", " gives back every matched string,
      in order. */
  lemma CloudsSplit(hits: seq<CloudHit>)
    requires forall k :: 0 <= k < |hits| ==> GroupShape(hits[k].group)
    ensures hits != [] ==> Split(CloudsText(hits), ", ") == HitTexts(hits)
  {
    if hits != [] {
      var texts := HitTexts(hits);
      forall k | 0 <= k < |texts| ensures ", "[0] !in texts[k] {
        CloudTextNoComma(hits[k].group);
      }
      SplitJoin(texts, ", ");
    }
  }

  // ---------------------------------------------------------------------------------------------
  // Flight category

  /** VFR/MVFR/IFR/LIFR; the display knows MVFR, the parser never produces it. */
  datatype Category = VFR | MVFR | IFR | LIFR

  /** The category starts as VFR, becomes IFR below 3 miles or 1000 feet, then LIFR below 1 mile
      or 500 feet; the second override wins. */
  function Classify(vis: int, ceil: int): (c: Category)
    ensures c == LIFR <==> vis < 1 || ceil < 500
    ensures c == IFR <==> (vis >= 1 && ceil >= 500) && (vis < 3 || ceil < 1000)
    ensures c == VFR <==> vis >= 3 && ceil >= 1000
    ensures c != MVFR
  {
    var category := VFR;
    var category := if vis < 3 || ceil < 1000 then IFR else category;
    if vis < 1 || ceil < 500 then LIFR else category
  }

  function Severity(c: Category): nat
  {
    match c
    case VFR => 0
    case MVFR => 1
    case IFR => 2
    case LIFR => 3
  }

  /** Worse visibility or a lower ceiling never gives a less restrictive category. */
  lemma ClassifyMonotone(vis: int, ceil: int, vis': int, ceil': int)
    requires vis' <= vis && ceil' <= ceil
    ensures Severity(Classify(vis', ceil')) >= Severity(Classify(vis, ceil))
  {
  }

  // ---------------------------------------------------------------------------------------------
  // The parser

  /** The returned record. `altimeter` is in hundredths of an inch of mercury (2992 stands for 29.92);
      `gust` and `dewpoint` are `None` where the source returns `null`. */
  datatype Report = Report(
    station: string,
    windDir: string,
    windSpeed: string,
    gust: Option<string>,
    visibility: string,
    clouds: string,
    temperature: int,
    dewpoint: Option<int>,
    altimeter: int,
    category: Category,
    cloudCeil: int,
    raw: string)

  /** `visValue`: group 1 of the visibility match, or "10". */
  function VisibilityText(s: string): (v: string)
    ensures VisShape(v)
  {
    var m := VisMatch(s);
    if m.Some? then m.value.1 else "10"
  }

  function GustDigits(w: WindGroup): (g: Option<string>)
    requires GustShape(w.gust)
    ensures g.Some? <==> w.gust.Some?
    ensures g.Some? ==> g.value == w.gust.value[1..]
  {
    if w.gust.Some? then
      assert IndexOf(w.gust.value, 'G') == 0;
      Some(ReplaceFirst(w.gust.value, 'G', ""))
    else None
  }

  function Parse(input: string): Report
  {
    var clean := Normalize(input);
    var station := StationAt(clean);
    var wind := WindMatch(clean);
    var hits := CloudScan(clean, 0);
    var td := TempMatch(clean);
    var alt := AltimeterMatch(clean);
    var visValue := VisibilityText(clean);
    var cloudCeil := Ceiling(hits);
    Report(
      station := if station.Some? then station.value else "---",
      windDir := if wind.Some? then wind.value.1.dir else "---",
      windSpeed := if wind.Some? then wind.value.1.speed else "0",
      gust := if wind.Some? then GustDigits(wind.value.1) else None,
      visibility := visValue,
      clouds := CloudsText(hits),
      temperature := if td.Some? then SignedValue(td.value.1.temp) else 15,
      dewpoint := if td.Some? then Some(SignedValue(td.value.1.dew)) else None,
      altimeter := if alt.Some? then DigitsNumber(alt.value.1) else 2992,
      category := Classify(VisNumber(visValue), cloudCeil),
      cloudCeil := cloudCeil,
      raw := clean)
  }

  // ---------------------------------------------------------------------------------------------
  // What each field of the record holds

  /** `station`: the first four characters when they are all capital letters, otherwise '---'. */
  lemma StationRule(input: string)
    ensures var clean := Normalize(input);
            var r := Parse(input);
            && ((|clean| >= 4 && forall k :: 0 <= k < 4 ==> IsUpper(clean[k])) ==> r.station == clean[..4])
            && (!(|clean| >= 4 && forall k :: 0 <= k < 4 ==> IsUpper(clean[k])) ==> r.station == "---")
  {
  }

  /** The wind fields come from the first wind group, and are '---', '0' and no gust without one;
      the gust is there exactly when the group has its `G` part, and is then its digits. */
  lemma WindRule(input: string)
    ensures var clean := Normalize(input);
            var r := Parse(input);
            && (NoneMatch(IsWindAt, clean) ==> r.windDir == "---" && r.windSpeed == "0" && r.gust == None)
            && (forall i: nat, w :: IsFirst(IsWindAt, clean, i, w) ==>
                  && r.windDir == w.dir && r.windSpeed == w.speed
                  && (r.gust.Some? <==> w.gust.Some?)
                  && (w.gust.Some? ==> r.gust.value == w.gust.value[1..]))
            && (r.windDir == "---" || r.windDir == "VRB" || (|r.windDir| == 3 && AllDigits(r.windDir)))
  {
  }

  /** `visibility` is group 1 of the first visibility group, or "10" without one; the number the
      category is computed from is its integer prefix once a leading 'M' is dropped. */
  lemma VisibilityRule(input: string)
    ensures var clean := Normalize(input);
            var r := Parse(input);
            && (NoneMatch(IsVisAt, clean) ==> r.visibility == "10")
            && (forall i: nat, v :: IsFirst(IsVisAt, clean, i, v) ==> r.visibility == v)
            && VisShape(r.visibility)
            && 0 <= VisNumber(r.visibility) <= 99
  {
  }

  /** `clouds`: "Clear" exactly when there is no cloud group, each reported group being a real one. */
  lemma CloudsRule(input: string)
    ensures var clean := Normalize(input);
            var hits := CloudScan(clean, 0);
            && (Parse(input).clouds == "Clear" <==> hits == [])
            && (hits != [] ==> Split(Parse(input).clouds, ", ") == HitTexts(hits))
            && (forall k :: 0 <= k < |hits| ==> IsCloudAt(clean, hits[k].pos, hits[k].group))
  {
    var clean := Normalize(input);
    ParseClouds(input);
    CloudScanSound(clean, 0);
    CloudsClear(CloudScan(clean, 0));
    CloudsSplit(CloudScan(clean, 0));
  }

  /** `cloudCeil`: the height of the first broken or overcast group, 10000 without one. */
  lemma CeilingOfReport(input: string)
    ensures IsCeilingOf(CloudScan(Normalize(input), 0), Parse(input).cloudCeil)
  {
    ParseClouds(input);
    CeilingRule(CloudScan(Normalize(input), 0));
  }

  /** `cloudCeil` is 10000 or a multiple of 100 in 0..99900. */
  lemma CeilingRange(input: string)
    ensures var c := Parse(input).cloudCeil;
            c == 10000 || HeightInRange(c)
  {
    ParseClouds(input);
  }


  lemma ParseClouds(input: string)
    ensures var hits := CloudScan(Normalize(input), 0);
            Parse(input).clouds == CloudsText(hits) && Parse(input).cloudCeil == Ceiling(hits)
  {
  }

  /** Temperature and dew point come from the first pair, a leading 'M' making a value negative;
      without a pair the temperature is 15 and there is no dew point. */
  lemma TempDewRule(input: string)
    ensures var clean := Normalize(input);
            var r := Parse(input);
            && (NoneMatch(IsTempAt, clean) ==> r.temperature == 15 && r.dewpoint == None)
            && (forall i: nat, g :: IsFirst(IsTempAt, clean, i, g) ==>
                  r.temperature == SignedValue(g.temp) && r.dewpoint == Some(SignedValue(g.dew)))
            && (r.dewpoint.None? <==> NoneMatch(IsTempAt, clean))
  {
  }

  /** `altimeter` is the four digits after " A" (hundredths), or 2992 without them. */
  lemma AltimeterRule(input: string)
    ensures var clean := Normalize(input);
            var r := Parse(input);
            && (NoneMatch(IsAltimeterAt, clean) ==> r.altimeter == 2992)
            && (forall i: nat, d :: IsFirst(IsAltimeterAt, clean, i, d) ==> r.altimeter == DigitsValue(d))
            && 0 <= r.altimeter <= 9999
  {
    assert Pow10(4) == 10000;
  }

  /** The temperature and altimeter patterns begin with a space, so in trimmed text they never match
      at its very start. */
  lemma NoMatchAtStart(input: string)
    ensures var clean := Normalize(input);
            && (forall g :: !IsTempAt(clean, 0, g))
            && (forall d :: !IsAltimeterAt(clean, 0, d))
  {
    var clean := Normalize(input);
    forall g ensures !IsTempAt(clean, 0, g) {
      if IsTempAt(clean, 0, g) {
        PrefixAtChars(clean, 0, TempText(g));
      }
    }
    forall d ensures !IsAltimeterAt(clean, 0, d) {
      if IsAltimeterAt(clean, 0, d) {
        PrefixAtChars(clean, 0, " A" + d);
      }
    }
  }

  /** The category follows the two overrides on the numeric visibility and the ceiling, and is never MVFR. */
  lemma CategoryRule(input: string)
    ensures var r := Parse(input);
            var vis := VisNumber(r.visibility);
            && (r.category == LIFR <==> vis < 1 || r.cloudCeil < 500)
            && (r.category == IFR <==> vis >= 1 && r.cloudCeil >= 500 && (vis < 3 || r.cloudCeil < 1000))
            && (r.category == VFR <==> vis >= 3 && r.cloudCeil >= 1000)
            && r.category != MVFR
  {
  }

  /** `raw` is the normalised text, so parsing it again gives the same record. */
  lemma ParseIdempotent(input: string)
    ensures Parse(Parse(input).raw) == Parse(input)
  {
    NormalizeIdempotent(input);
  }
}
