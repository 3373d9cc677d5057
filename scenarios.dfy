/** Worked examples: the defaults when no pattern applies, and how fractional visibilities are read. */
module Scenarios {
  import opened Options
  import opened Text
  import opened Js
  import opened Regex
  import opened Patterns
  import opened Metar

  /** Where a cloud group, a temperature pair or an altimeter group lies, some character is a digit. */
  lemma NumbersHaveDigits(s: string, i: nat, g: CloudGroup, t: TempGroup, d: string)
    ensures IsCloudAt(s, i, g) ==> i + 3 < |s| + 1 && IsDigit(s[i + |CloudText(g)| - 1])
    ensures IsTempAt(s, i, t) ==> i + |TempText(t)| - 2 < |s| && IsDigit(s[i + |TempText(t)| - 2])
    ensures IsAltimeterAt(s, i, d) ==> i + 2 < |s| && IsDigit(s[i + 2])
  {
    if IsCloudAt(s, i, g) {
      var c := CloudText(g);
      PrefixAtChars(s, i, c);
      assert c[|c| - 1] == g.height[2];
    }
    if IsTempAt(s, i, t) {
      var c := TempText(t);
      PrefixAtChars(s, i, c);
      assert c[|c| - 2] == t.dew[|t.dew| - 1];
    }
    if IsAltimeterAt(s, i, d) {
      PrefixAtChars(s, i, " A" + d);
      assert (" A" + d)[2] == d[0];
    }
  }

  /** A wind group ends in "KT", a visibility group in "SM". */
  lemma GroupEndings(s: string, i: nat, w: WindGroup, v: string)
    ensures IsWindAt(s, i, w) ==> i + |WindText(w)| - 2 < |s| && s[i + |WindText(w)| - 2] == 'K'
    ensures IsVisAt(s, i, v) ==> i + |v| < |s| && s[i + |v|] == 'S'
  {
    if IsWindAt(s, i, w) {
      var c := WindText(w);
      PrefixAtChars(s, i, c);
      assert c[|c| - 2] == 'K';
    }
    if IsVisAt(s, i, v) {
      var c := v + "SM";
      PrefixAtChars(s, i, c);
      assert c[|v|] == 'S';
    }
  }

  /** Without digits there is no cloud group, no temperature pair and no altimeter group. */
  lemma NoDigitsNoNumbers(s: string)
    requires forall k :: 0 <= k < |s| ==> !IsDigit(s[k])
    ensures NoneMatch(IsCloudAt, s) && NoneMatch(IsTempAt, s) && NoneMatch(IsAltimeterAt, s)
  {
    forall i: nat, g: CloudGroup | i <= |s| ensures !IsCloudAt(s, i, g) {
      NumbersHaveDigits(s, i, g, TempGroup("", ""), "");
    }
    forall i: nat, t: TempGroup | i <= |s| ensures !IsTempAt(s, i, t) {
      NumbersHaveDigits(s, i, CloudGroup(FEW, ""), t, "");
    }
    forall i: nat, d: string | i <= |s| ensures !IsAltimeterAt(s, i, d) {
      NumbersHaveDigits(s, i, CloudGroup(FEW, ""), TempGroup("", ""), d);
    }
  }

  /** Without a 'K' there is no wind group; without an 'S' no visibility group. */
  lemma NoLettersNoWindOrVisibility(s: string)
    requires forall k :: 0 <= k < |s| ==> s[k] != 'K' && s[k] != 'S'
    ensures NoneMatch(IsWindAt, s) && NoneMatch(IsVisAt, s)
  {
    forall i: nat, w: WindGroup | i <= |s| ensures !IsWindAt(s, i, w) {
      GroupEndings(s, i, w, "");
    }
    forall i: nat, v: string | i <= |s| ensures !IsVisAt(s, i, v) {
      GroupEndings(s, i, WindGroup("", "", None), v);
    }
  }

  /** When none of the wind, visibility, cloud, temperature and altimeter patterns applies, every
      one of their fields takes its default and the category is VFR. */
  lemma NothingMatches(input: string)
    requires var clean := Normalize(input);
             && NoneMatch(IsWindAt, clean) && NoneMatch(IsVisAt, clean) && NoneMatch(IsCloudAt, clean)
             && NoneMatch(IsTempAt, clean) && NoneMatch(IsAltimeterAt, clean)
    ensures var r := Parse(input);
            && r.windDir == "---" && r.windSpeed == "0" && r.gust == None
            && r.visibility == "10" && r.clouds == "Clear" && r.cloudCeil == 10000
            && r.temperature == 15 && r.dewpoint == None && r.altimeter == 2992 && r.category == VFR
  {
    var clean := Normalize(input);
    WindRule(input);
    VisibilityRule(input);
    CloudsRule(input);
    CloudScanEmpty(clean);
    CeilingOfReport(input);
    TempDewRule(input);
    AltimeterRule(input);
    CategoryRule(input);
    assert DigitsValue("10") == 10 by {
      assert "10"[..1] == "1";
    }
  }

  /** "GARBAGE TEXT": the station is its first four letters, and every other field takes its default. */
  lemma GarbageText()
    ensures var r := Parse("GARBAGE TEXT");
            && r.station == "GARB" && r.windDir == "---" && r.windSpeed == "0" && r.gust == None
            && r.visibility == "10" && r.clouds == "Clear" && r.cloudCeil == 10000
            && r.temperature == 15 && r.dewpoint == None && r.altimeter == 2992
            && r.category == VFR && r.raw == "GARBAGE TEXT"
  {
    var s := "GARBAGE TEXT";
    assert IsUpper(s[0]) && IsUpper(s[1]) && IsUpper(s[2]) && IsUpper(s[3]);
    assert s[..4] == "GARB";
    GarbageNormal();
    NoDigitsNoNumbers(s);
    NoLettersNoWindOrVisibility(s);
    StationRule(s);
    NothingMatches(s);
  }

  lemma GarbageNormal()
    ensures Normalize("GARBAGE TEXT") == "GARBAGE TEXT"
  {
    var s := "GARBAGE TEXT";
    UpperCaseNoLower(s);
    TrimTrimmed(s);
  }

  /** A fractional visibility counts as its numerator: half a mile and "less than a quarter" both
      read as 1, so with no low ceiling the category is IFR, not LIFR. */
  lemma FractionsReadAsNumerator()
    ensures VisNumber("1/2") == 1 && VisNumber("M1/4") == 1
    ensures Classify(VisNumber("1/2"), 10000) == IFR
  {
    assert IsFraction("1/2");
    assert IsFraction("M1/4"[1..]);
  }

  /** A fraction alone makes the category LIFR exactly when its numerator is 0. */
  lemma FractionLifr(v: string)
    requires IsFraction(v)
    ensures Classify(VisNumber(v), 10000) == LIFR <==> v[0] == '0'
  {
  }
}
