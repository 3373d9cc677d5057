/** The six regular expressions of the METAR parser. For each one, `...At(s, i)` tries the pattern at
    index `i` the way a backtracking engine does (alternatives left to right, a greedy count longest
    first, an optional group present first, falling back only when the rest fails), and a predicate
    `Is...At(s, i, m)` says declaratively that the text at `i` has the pattern's shape with captures `m`.
    The `...AtSpec` lemmas prove the two agree, which also shows that at most one set of captures is
    possible at any index. */
module Patterns {
  import opened Options
  import opened Text
  import opened Regex

  // ---------------------------------------------------------------------------------------------
  // Wind: /(\d{3}|VRB)(\d{2,3})(G\d{2,3})?KT/

  /** The three capture groups; `gust` is group 3 with its 'G', absent when the group did not take part. */
  datatype WindGroup = WindGroup(dir: string, speed: string, gust: Option<string>)

  function GustText(g: Option<string>): string
  {
    if g.Some? then g.value else ""
  }

  /** The matched text. */
  function WindText(w: WindGroup): string
  {
    w.dir + w.speed + GustText(w.gust) + "KT"
  }

  predicate GustShape(g: Option<string>)
  {
    g.Some? ==> 3 <= |g.value| <= 4 && g.value[0] == 'G' && AllDigits(g.value[1..])
  }

  predicate WindShape(w: WindGroup)
  {
    && ((|w.dir| == 3 && AllDigits(w.dir)) || w.dir == "VRB")
    && 2 <= |w.speed| <= 3 && AllDigits(w.speed)
    && GustShape(w.gust)
  }

  predicate IsWindAt(s: string, i: nat, w: WindGroup)
  {
    WindShape(w) && PrefixAt(s, i, WindText(w))
  }

  function WindAt(s: string, i: nat): Option<WindGroup>
  {
    OrElse(if DigitsAt(s, i, 3) then WindSpeedFrom(s, i + 3, s[i..i + 3]) else None,
           if PrefixAt(s, i, "VRB") then WindSpeedFrom(s, i + 3, "VRB") else None)
  }

  /** `(\d{2,3})` at `p`: three digits first, then two. */
  function WindSpeedFrom(s: string, p: nat, dir: string): Option<WindGroup>
  {
    OrElse(if DigitsAt(s, p, 3) then WindGustFrom(s, p + 3, dir, s[p..p + 3]) else None,
           if DigitsAt(s, p, 2) then WindGustFrom(s, p + 2, dir, s[p..p + 2]) else None)
  }

  /** `(G\d{2,3})?KT` at `q`: the gust group with three digits, then with two, then without it. */
  function WindGustFrom(s: string, q: nat, dir: string, speed: string): Option<WindGroup>
  {
    OrElse(OrElse(GustWith(s, q, dir, speed, 3), GustWith(s, q, dir, speed, 2)),
           if PrefixAt(s, q, "KT") then Some(WindGroup(dir, speed, None)) else None)
  }

  /** 'G', `n` digits, then "KT" at `q`; group 3 is the 'G' and the digits. */
  function GustWith(s: string, q: nat, dir: string, speed: string, n: nat): Option<WindGroup>
  {
    if PrefixAt(s, q, "G") && DigitsAt(s, q + 1, n) && PrefixAt(s, q + 1 + n, "KT")
    then Some(WindGroup(dir, speed, Some(s[q..q + 1 + n]))) else None
  }

  lemma GustWithSound(s: string, q: nat, dir: string, speed: string, n: nat)
    ensures var r := GustWith(s, q, dir, speed, n);
            r.Some? ==> r.value.dir == dir && r.value.speed == speed && r.value.gust.Some?
                        && |r.value.gust.value| == n + 1 && r.value.gust.value[0] == 'G'
                        && AllDigits(r.value.gust.value[1..])
                        && PrefixAt(s, q, r.value.gust.value + "KT")
  {
    var r := GustWith(s, q, dir, speed, n);
    if r.Some? {
      DigitsAtSlice(s, q + 1, n);
      var g := r.value.gust.value;
      assert g == s[q..q + 1] + s[q + 1..q + 1 + n];
      assert g[1..] == s[q + 1..q + 1 + n];
      PrefixAtConcat3(s, q, s[q..q + 1], s[q + 1..q + 1 + n], "KT");
    }
  }

  lemma WindGustSound(s: string, q: nat, dir: string, speed: string)
    ensures var r := WindGustFrom(s, q, dir, speed);
            r.Some? ==> r.value.dir == dir && r.value.speed == speed && GustShape(r.value.gust)
                        && PrefixAt(s, q, GustText(r.value.gust) + "KT")
  {
    GustWithSound(s, q, dir, speed, 3);
    GustWithSound(s, q, dir, speed, 2);
  }

  /** 'G' and its digits found at `q` are read as group 3. */
  lemma GustWithFound(s: string, q: nat, w: WindGroup)
    requires GustShape(w.gust) && w.gust.Some? && PrefixAt(s, q, w.gust.value + "KT")
    ensures GustWith(s, q, w.dir, w.speed, |w.gust.value| - 1) == Some(w)
  {
    var g := w.gust.value;
    var d := g[1..];
    assert g == "G" + d;
    assert g + "KT" == "G" + d + "KT";
    PrefixAtConcat(s, q, g, "KT");
    PrefixAtConcat(s, q, "G", d);
    PrefixAtDigits(s, q + 1, d);
    assert s[q..q + |g|] == g;
  }

  lemma WindGustComplete(s: string, q: nat, w: WindGroup)
    requires GustShape(w.gust) && PrefixAt(s, q, GustText(w.gust) + "KT")
    ensures WindGustFrom(s, q, w.dir, w.speed) == Some(w)
  {
    var g := GustText(w.gust);
    PrefixAtConcat(s, q, g, "KT");
    PrefixAtChars(s, q + |g|, "KT");
    if w.gust.Some? {
      GustWithFound(s, q, w);
      if |g| == 3 {
        assert s[q + 3] == 'K';
        assert GustWith(s, q, w.dir, w.speed, 3).None?;
      }
    } else {
      assert s[q] == 'K';
      assert GustWith(s, q, w.dir, w.speed, 3).None?;
      assert GustWith(s, q, w.dir, w.speed, 2).None?;
    }
  }

  /** The speed taken as `n` digits, followed by a gust part and "KT". */
  lemma WindSpeedTaken(s: string, p: nat, n: nat, w: WindGroup)
    requires DigitsAt(s, p, n) && w.speed == s[p..p + n]
    requires PrefixAt(s, p + n, GustText(w.gust) + "KT")
    ensures |w.speed| == n && AllDigits(w.speed) && PrefixAt(s, p, w.speed + GustText(w.gust) + "KT")
  {
    DigitsAtSlice(s, p, n);
    PrefixAtConcat(s, p, w.speed, GustText(w.gust) + "KT");
    assert w.speed + GustText(w.gust) + "KT" == w.speed + (GustText(w.gust) + "KT");
  }

  lemma WindSpeedSound(s: string, p: nat, dir: string)
    ensures var r := WindSpeedFrom(s, p, dir);
            r.Some? ==> r.value.dir == dir && 2 <= |r.value.speed| <= 3 && AllDigits(r.value.speed)
                        && GustShape(r.value.gust) && PrefixAt(s, p, r.value.speed + GustText(r.value.gust) + "KT")
  {
    if DigitsAt(s, p, 3) && WindGustFrom(s, p + 3, dir, s[p..p + 3]).Some? {
      WindGustSound(s, p + 3, dir, s[p..p + 3]);
      WindSpeedTaken(s, p, 3, WindGustFrom(s, p + 3, dir, s[p..p + 3]).value);
    } else if DigitsAt(s, p, 2) && WindGustFrom(s, p + 2, dir, s[p..p + 2]).Some? {
      WindGustSound(s, p + 2, dir, s[p..p + 2]);
      WindSpeedTaken(s, p, 2, WindGustFrom(s, p + 2, dir, s[p..p + 2]).value);
    }
  }

  lemma WindSpeedComplete(s: string, p: nat, w: WindGroup)
    requires 2 <= |w.speed| <= 3 && AllDigits(w.speed) && GustShape(w.gust)
    requires PrefixAt(s, p, w.speed + GustText(w.gust) + "KT")
    ensures WindSpeedFrom(s, p, w.dir) == Some(w)
  {
    var rest := GustText(w.gust) + "KT";
    assert w.speed + GustText(w.gust) + "KT" == w.speed + rest;
    PrefixAtConcat(s, p, w.speed, rest);
    PrefixAtDigits(s, p, w.speed);
    var n := |w.speed|;
    WindGustComplete(s, p + n, w);
    if n == 2 {
      PrefixAtChars(s, p + 2, rest);
      assert rest[0] == 'G' || rest[0] == 'K';
      SpeedOfTwo(s, p, w);
    } else {
      SpeedOfThree(s, p, w);
    }
  }

  lemma SpeedOfThree(s: string, p: nat, w: WindGroup)
    requires DigitsAt(s, p, 3) && s[p..p + 3] == w.speed
    requires WindGustFrom(s, p + 3, w.dir, w.speed) == Some(w)
    ensures WindSpeedFrom(s, p, w.dir) == Some(w)
  {
  }

  lemma SpeedOfTwo(s: string, p: nat, w: WindGroup)
    requires DigitsAt(s, p, 2) && s[p..p + 2] == w.speed && p + 2 < |s| && !IsDigit(s[p + 2])
    requires WindGustFrom(s, p + 2, w.dir, w.speed) == Some(w)
    ensures WindSpeedFrom(s, p, w.dir) == Some(w)
  {
    assert !DigitsAt(s, p, 3);
  }

  /** The direction taken as three digits or "VRB", followed by the rest of the group. */
  lemma WindDirTaken(s: string, i: nat, dir: string)
    requires (DigitsAt(s, i, 3) && dir == s[i..i + 3]) || (dir == "VRB" && PrefixAt(s, i, "VRB"))
    ensures var r := WindSpeedFrom(s, i + 3, dir);
            r.Some? ==> IsWindAt(s, i, r.value)
  {
    var r := WindSpeedFrom(s, i + 3, dir);
    if r.Some? {
      if dir != "VRB" {
        DigitsAtSlice(s, i, 3);
      }
      WindSpeedSound(s, i + 3, dir);
      var w := r.value;
      PrefixAtConcat(s, i, dir, w.speed + GustText(w.gust) + "KT");
      assert WindText(w) == dir + (w.speed + GustText(w.gust) + "KT");
    }
  }

  lemma WindSound(s: string, i: nat)
    ensures WindAt(s, i).Some? ==> IsWindAt(s, i, WindAt(s, i).value)
  {
    if DigitsAt(s, i, 3) {
      WindDirTaken(s, i, s[i..i + 3]);
    }
    if PrefixAt(s, i, "VRB") {
      WindDirTaken(s, i, "VRB");
    }
  }

  lemma WindComplete(s: string, i: nat, w: WindGroup)
    requires IsWindAt(s, i, w)
    ensures WindAt(s, i) == Some(w)
  {
    var rest := w.speed + GustText(w.gust) + "KT";
    assert WindText(w) == w.dir + rest;
    PrefixAtConcat(s, i, w.dir, rest);
    WindSpeedComplete(s, i + 3, w);
    if w.dir == "VRB" {
      PrefixAtChars(s, i, "VRB");
      assert s[i] == "VRB"[0] == 'V';
    } else {
      PrefixAtDigits(s, i, w.dir);
    }
  }

  /** The wind matcher finds exactly the wind groups, one per index at most. */
  lemma WindAtSpec(s: string)
    ensures forall i: nat, w :: WindAt(s, i) == Some(w) <==> IsWindAt(s, i, w)
  {
    forall i: nat, w | true ensures WindAt(s, i) == Some(w) <==> IsWindAt(s, i, w) {
      WindSound(s, i);
      if IsWindAt(s, i, w) {
        WindComplete(s, i, w);
      }
    }
  }

  // ---------------------------------------------------------------------------------------------
  // Visibility: /(\d{1,2}|M?\d\/\d)SM/

  /** A digit, a slash and a digit. */
  predicate IsFraction(f: string)
  {
    |f| == 3 && IsDigit(f[0]) && f[1] == '/' && IsDigit(f[2])
  }

  /** The shapes capture group 1 can take: one or two digits, a fraction, or 'M' and a fraction. */
  predicate VisShape(v: string)
  {
    || (1 <= |v| <= 2 && AllDigits(v))
    || IsFraction(v)
    || (|v| == 4 && v[0] == 'M' && IsFraction(v[1..]))
  }

  predicate IsVisAt(s: string, i: nat, v: string)
  {
    VisShape(v) && PrefixAt(s, i, v + "SM")
  }

  predicate FractionAt(s: string, p: nat)
  {
    DigitsAt(s, p, 1) && PrefixAt(s, p + 1, "/") && DigitsAt(s, p + 2, 1)
  }

  function VisAt(s: string, i: nat): Option<string>
  {
    OrElse(
      // \d{1,2}: two digits first, then one
      OrElse(if DigitsAt(s, i, 2) && PrefixAt(s, i + 2, "SM") then Some(s[i..i + 2]) else None,
             if DigitsAt(s, i, 1) && PrefixAt(s, i + 1, "SM") then Some(s[i..i + 1]) else None),
      // M?\d\/\d: with the 'M' first, then without
      OrElse(if PrefixAt(s, i, "M") && FractionAt(s, i + 1) && PrefixAt(s, i + 4, "SM") then Some(s[i..i + 4]) else None,
             if FractionAt(s, i) && PrefixAt(s, i + 3, "SM") then Some(s[i..i + 3]) else None))
  }

  lemma FractionSlice(s: string, p: nat)
    requires FractionAt(s, p)
    ensures IsFraction(s[p..p + 3])
  {
    var f := s[p..p + 3];
    assert f[0] == s[p] && f[1] == s[p + 1] && f[2] == s[p + 2];
    assert s[p + 1] == s[p + 1..p + 2][0];
  }

  lemma VisSound(s: string, i: nat)
    ensures VisAt(s, i).Some? ==> IsVisAt(s, i, VisAt(s, i).value)
  {
    var r := VisAt(s, i);
    if r.Some? {
      var v := r.value;
      var n := |v|;
      assert v == s[i..i + n] && PrefixAt(s, i + n, "SM");
      if n <= 2 {
        DigitsAtSlice(s, i, n);
      } else if n == 3 {
        FractionSlice(s, i);
      } else {
        FractionSlice(s, i + 1);
        assert v[1..] == s[i + 1..i + 4];
        assert v[0] == s[i..i + 1][0];
      }
      PrefixAtConcat(s, i, v, "SM");
    }
  }

  lemma VisComplete(s: string, i: nat, v: string)
    requires IsVisAt(s, i, v)
    ensures VisAt(s, i) == Some(v)
  {
    PrefixAtConcat(s, i, v, "SM");
    PrefixAtChars(s, i, v);
    PrefixAtChars(s, i + |v|, "SM");
    assert s[i + |v|] == 'S';
    assert s[i..i + |v|] == v;
    if |v| == 1 {
      assert !IsDigit(s[i + 1]);
    } else if |v| == 3 {
      assert s[i + 1] == '/';
      assert !IsDigit(s[i]) || s[i] != 'M';
      assert s[i + 1..i + 2] == "/";
    } else if |v| == 4 {
      assert s[i] == 'M' && s[i + 2] == '/';
      assert s[i..i + 1] == "M" && s[i + 2..i + 3] == "/";
    }
  }

  lemma VisAtSpec(s: string)
    ensures forall i: nat, v :: VisAt(s, i) == Some(v) <==> IsVisAt(s, i, v)
  {
    forall i: nat, v | true ensures VisAt(s, i) == Some(v) <==> IsVisAt(s, i, v) {
      VisSound(s, i);
      if IsVisAt(s, i, v) {
        VisComplete(s, i, v);
      }
    }
  }

  // ---------------------------------------------------------------------------------------------
  // Cloud groups: /(FEW|SCT|BKN|OVC|VV)(\d{3})/g

  datatype Coverage = FEW | SCT | BKN | OVC | VV

  function CoverageCode(c: Coverage): string
  {
    match c
    case FEW => "FEW"
    case SCT => "SCT"
    case BKN => "BKN"
    case OVC => "OVC"
    case VV => "VV"
  }

  /** The two capture groups: the coverage code and the three height digits. */
  datatype CloudGroup = CloudGroup(cover: Coverage, height: string)

  /** The matched text. */
  function CloudText(g: CloudGroup): string
  {
    CoverageCode(g.cover) + g.height
  }

  /** The height is three digits. */
  predicate GroupShape(g: CloudGroup)
  {
    |g.height| == 3 && AllDigits(g.height)
  }

  predicate IsCloudAt(s: string, i: nat, g: CloudGroup)
  {
    GroupShape(g) && PrefixAt(s, i, CloudText(g))
  }

  /** One alternative of group 1 followed by `\d{3}`. */
  function CloudWith(s: string, i: nat, c: Coverage): Option<CloudGroup>
  {
    var n := |CoverageCode(c)|;
    if PrefixAt(s, i, CoverageCode(c)) && DigitsAt(s, i + n, 3) then Some(CloudGroup(c, s[i + n..i + n + 3]))
    else None
  }

  /** The alternatives in the order the pattern lists them. */
  function CloudAt(s: string, i: nat): Option<CloudGroup>
  {
    OrElse(CloudWith(s, i, FEW), OrElse(CloudWith(s, i, SCT), OrElse(CloudWith(s, i, BKN),
      OrElse(CloudWith(s, i, OVC), CloudWith(s, i, VV)))))
  }

  lemma CloudWithSound(s: string, i: nat, c: Coverage)
    ensures CloudWith(s, i, c).Some? ==> CloudWith(s, i, c).value.cover == c && IsCloudAt(s, i, CloudWith(s, i, c).value)
  {
    var n := |CoverageCode(c)|;
    if CloudWith(s, i, c).Some? {
      DigitsAtSlice(s, i + n, 3);
      PrefixAtConcat(s, i, CoverageCode(c), s[i + n..i + n + 3]);
    }
  }

  /** Every coverage code starts with its own letter, so at most one alternative can match. */
  lemma CloudWithOthers(s: string, i: nat, c: Coverage, c': Coverage)
    requires PrefixAt(s, i, CoverageCode(c)) && c' != c
    ensures !PrefixAt(s, i, CoverageCode(c'))
  {
    PrefixAtChars(s, i, CoverageCode(c));
    var code' := CoverageCode(c');
    if i + |code'| <= |s| {
      assert s[i..i + |code'|][0] == s[i];
    }
  }

  lemma CloudSound(s: string, i: nat)
    ensures CloudAt(s, i).Some? ==> IsCloudAt(s, i, CloudAt(s, i).value)
  {
    CloudWithSound(s, i, FEW);
    CloudWithSound(s, i, SCT);
    CloudWithSound(s, i, BKN);
    CloudWithSound(s, i, OVC);
    CloudWithSound(s, i, VV);
  }

  lemma CloudComplete(s: string, i: nat, g: CloudGroup)
    requires IsCloudAt(s, i, g)
    ensures CloudAt(s, i) == Some(g)
  {
    var code := CoverageCode(g.cover);
    PrefixAtConcat(s, i, code, g.height);
    PrefixAtDigits(s, i + |code|, g.height);
    assert CloudWith(s, i, g.cover) == Some(g);
    forall c' | c' != g.cover ensures CloudWith(s, i, c').None? {
      CloudWithOthers(s, i, g.cover, c');
    }
  }

  lemma CloudAtSpec(s: string)
    ensures forall i: nat, g :: CloudAt(s, i) == Some(g) <==> IsCloudAt(s, i, g)
  {
    forall i: nat, g | true ensures CloudAt(s, i) == Some(g) <==> IsCloudAt(s, i, g) {
      CloudSound(s, i);
      if IsCloudAt(s, i, g) {
        CloudComplete(s, i, g);
      }
    }
  }

  // ---------------------------------------------------------------------------------------------
  // The global cloud search: successive leftmost matches, each search resuming where the last match ended

  /** A match and the index it starts at. */
  datatype CloudHit = CloudHit(pos: nat, group: CloudGroup)

  function HitEnd(h: CloudHit): nat
  {
    h.pos + |CloudText(h.group)|
  }

  /** Where the search after hit `k` stops looking: the next hit, or past the end of the text. */
  function NextStart(s: string, hits: seq<CloudHit>, k: int): nat
    requires -1 <= k < |hits|
  {
    if k + 1 < |hits| then hits[k + 1].pos else |s| + 1
  }

  /** No cloud group starts at an index in `[a, b)`. */
  ghost predicate NoCloudIn(s: string, a: nat, b: nat)
  {
    forall p: nat, g: CloudGroup :: a <= p < b ==> !IsCloudAt(s, p, g)
  }

  /** `match` with the `g` flag: the matches found one after another, each search starting where the
      previous match ended (the first at `from`). */
  function CloudScan(s: string, from: nat): (hits: seq<CloudHit>)
    ensures ScanShaped(s, from, hits)
    decreases |s| + 1 - from
  {
    var r := Leftmost(s, from, CloudAt);
    if r.None? then []
    else
      CloudSound(s, r.value.0);
      var h := CloudHit(r.value.0, r.value.1);
      var rest := CloudScan(s, HitEnd(h));
      ScanShapedCons(s, from, h, rest);
      [h] + rest
  }

  /** Hits at or after `from`, each a match of the engine with a three-digit height, in order and
      without overlap. */
  predicate ScanShaped(s: string, from: nat, hits: seq<CloudHit>)
  {
    && (forall k :: 0 <= k < |hits| ==> from <= hits[k].pos && CloudAt(s, hits[k].pos) == Some(hits[k].group))
    && (forall k :: 0 <= k < |hits| ==> GroupShape(hits[k].group))
    && (forall k :: 0 <= k < |hits| - 1 ==> HitEnd(hits[k]) <= hits[k + 1].pos)
  }

  lemma ScanShapedCons(s: string, from: nat, h: CloudHit, rest: seq<CloudHit>)
    requires from <= h.pos && CloudAt(s, h.pos) == Some(h.group) && GroupShape(h.group)
    requires ScanShaped(s, HitEnd(h), rest)
    ensures ScanShaped(s, from, [h] + rest)
  {
    var hits := [h] + rest;
    forall k | 0 < k < |hits| ensures hits[k] == rest[k - 1] {
    }
    if rest != [] {
      assert HitEnd(hits[0]) <= hits[1].pos;
    }
  }

  /** The global search finds nothing exactly when the text holds no cloud group. */
  lemma CloudScanEmpty(s: string)
    ensures CloudScan(s, 0) == [] <==> NoneMatch(IsCloudAt, s)
  {
    CloudAtSpec(s);
    LeftmostFindsFirst(s, CloudAt, IsCloudAt);
  }

  /** Every hit of the scan is a cloud group of the grammar. */
  lemma CloudScanSound(s: string, from: nat)
    ensures var hits := CloudScan(s, from);
            forall k :: 0 <= k < |hits| ==> IsCloudAt(s, hits[k].pos, hits[k].group)
  {
    CloudAtSpec(s);
  }

  /** No cloud group starts between `from` and the first hit (or the end, when there is no hit). */
  lemma CloudScanFirstGap(s: string, from: nat)
    ensures NoCloudIn(s, from, NextStart(s, CloudScan(s, from), -1))
  {
    CloudAtSpec(s);
    match Leftmost(s, from, CloudAt)
    case None =>
      forall p: nat, g | from <= p < |s| + 1 ensures !IsCloudAt(s, p, g) {
        assert CloudAt(s, p).None?;
      }
    case Some((p, g)) =>
      forall q: nat, h | from <= q < p ensures !IsCloudAt(s, q, h) {
        assert CloudAt(s, q).None?;
      }
  }

  /** The engine's matcher finds nothing at any index in `[a, b)`. */
  predicate Unmatched(s: string, a: nat, b: nat)
  {
    forall p: nat :: a <= p < b ==> CloudAt(s, p).None?
  }

  /** One step of the scan: a match at `p`, then the scan from its end. */
  lemma CloudScanStep(s: string, from: nat, p: nat, g: CloudGroup)
    requires Leftmost(s, from, CloudAt) == Some((p, g))
    ensures CloudScan(s, from) == [CloudHit(p, g)] + CloudScan(s, HitEnd(CloudHit(p, g)))
    ensures Unmatched(s, from, p)
  {
  }

  lemma GapsCons(s: string, h: CloudHit, rest: seq<CloudHit>)
    requires Unmatched(s, HitEnd(h), NextStart(s, rest, -1))
    requires forall k :: 0 <= k < |rest| ==> Unmatched(s, HitEnd(rest[k]), NextStart(s, rest, k))
    ensures var hits := [h] + rest;
            forall k :: 0 <= k < |hits| ==> Unmatched(s, HitEnd(hits[k]), NextStart(s, hits, k))
  {
    var hits := [h] + rest;
    assert NextStart(s, hits, 0) == NextStart(s, rest, -1);
    forall k | 0 < k < |hits| ensures HitEnd(hits[k]) == HitEnd(rest[k - 1]) && NextStart(s, hits, k) == NextStart(s, rest, k - 1) {
      assert hits[k] == rest[k - 1];
    }
  }

  lemma {:induction false} CloudScanUnmatched(s: string, from: nat)
    ensures var hits := CloudScan(s, from);
            && Unmatched(s, from, NextStart(s, hits, -1))
            && forall k :: 0 <= k < |hits| ==> Unmatched(s, HitEnd(hits[k]), NextStart(s, hits, k))
    decreases |s| + 1 - from
  {
    match Leftmost(s, from, CloudAt)
    case None =>
    case Some((p, g)) =>
      var next := HitEnd(CloudHit(p, g));
      CloudScanStep(s, from, p, g);
      CloudScanUnmatched(s, next);
      GapsCons(s, CloudHit(p, g), CloudScan(s, next));
  }

  /** The scan passes over no cloud group: none starts between the end of one hit and the next hit,
      nor after the end of the last. */
  lemma CloudScanGaps(s: string, from: nat)
    ensures var hits := CloudScan(s, from);
            forall k :: 0 <= k < |hits| ==> NoCloudIn(s, HitEnd(hits[k]), NextStart(s, hits, k))
  {
    CloudAtSpec(s);
    CloudScanUnmatched(s, from);
    var hits := CloudScan(s, from);
    forall k, p: nat, g | 0 <= k < |hits| && HitEnd(hits[k]) <= p < NextStart(s, hits, k)
      ensures !IsCloudAt(s, p, g)
    {
      assert CloudAt(s, p).None?;
    }
  }

  // ---------------------------------------------------------------------------------------------
  // Temperature and dew point: / (M?\d{2})\/(M?\d{2}) /

  /** The two capture groups, each with its 'M' when there is one. */
  datatype TempGroup = TempGroup(temp: string, dew: string)

  /** Two digits, with or without an 'M' in front. */
  predicate SignedTwo(t: string)
  {
    (|t| == 2 && AllDigits(t)) || (|t| == 3 && t[0] == 'M' && AllDigits(t[1..]))
  }

  /** The matched text, a space on either side. */
  function TempText(g: TempGroup): string
  {
    " " + g.temp + "/" + g.dew + " "
  }

  predicate IsTempAt(s: string, i: nat, g: TempGroup)
  {
    SignedTwo(g.temp) && SignedTwo(g.dew) && PrefixAt(s, i, TempText(g))
  }

  /** `M?\d{2}` at `p` taking the 'M' (`withM`) or not. */
  predicate SignedTwoAt(s: string, p: nat, withM: bool)
  {
    if withM then PrefixAt(s, p, "M") && DigitsAt(s, p + 1, 2) else DigitsAt(s, p, 2)
  }

  function SignedWidth(withM: bool): nat
  {
    if withM then 3 else 2
  }

  function TempAt(s: string, i: nat): Option<TempGroup>
  {
    if PrefixAt(s, i, " ") then OrElse(TempFrom(s, i + 1, true), TempFrom(s, i + 1, false)) else None
  }

  /** Group 1 at `p` (the 'M' tried first), then '/' and group 2. */
  function TempFrom(s: string, p: nat, withM: bool): Option<TempGroup>
  {
    var n := SignedWidth(withM);
    if SignedTwoAt(s, p, withM) && PrefixAt(s, p + n, "/") then
      OrElse(DewFrom(s, p + n + 1, s[p..p + n], true), DewFrom(s, p + n + 1, s[p..p + n], false))
    else None
  }

  /** Group 2 at `q` (the 'M' tried first), then the closing space. */
  function DewFrom(s: string, q: nat, temp: string, withM: bool): Option<TempGroup>
  {
    var n := SignedWidth(withM);
    if SignedTwoAt(s, q, withM) && PrefixAt(s, q + n, " ") then Some(TempGroup(temp, s[q..q + n])) else None
  }

  lemma SignedTwoSlice(s: string, p: nat, withM: bool)
    requires SignedTwoAt(s, p, withM)
    ensures SignedTwo(s[p..p + SignedWidth(withM)])
  {
    var n := SignedWidth(withM);
    var t := s[p..p + n];
    if withM {
      DigitsAtSlice(s, p + 1, 2);
      assert t[1..] == s[p + 1..p + 3];
      assert t[0] == s[p..p + 1][0];
    } else {
      DigitsAtSlice(s, p, 2);
    }
  }

  /** A capture of `M?\d{2}` found at `p` is read the same way by the engine. */
  lemma SignedTwoFound(s: string, p: nat, t: string)
    requires SignedTwo(t) && PrefixAt(s, p, t)
    ensures var withM := |t| == 3; SignedTwoAt(s, p, withM) && !SignedTwoAt(s, p, !withM) && s[p..p + |t|] == t
  {
    PrefixAtChars(s, p, t);
    if |t| == 3 {
      assert t == "M" + t[1..];
      PrefixAtConcat(s, p, "M", t[1..]);
      PrefixAtDigits(s, p + 1, t[1..]);
      assert !IsDigit(s[p]);
    } else {
      PrefixAtDigits(s, p, t);
      if p + 1 <= |s| {
        assert s[p..p + 1][0] == s[p];
      }
    }
  }

  lemma DewSound(s: string, q: nat, temp: string, withM: bool)
    ensures var r := DewFrom(s, q, temp, withM);
            r.Some? ==> r.value.temp == temp && SignedTwo(r.value.dew) && PrefixAt(s, q, r.value.dew + " ")
  {
    var r := DewFrom(s, q, temp, withM);
    if r.Some? {
      SignedTwoSlice(s, q, withM);
      PrefixAtConcat(s, q, r.value.dew, " ");
    }
  }

  lemma TempFromSound(s: string, p: nat, withM: bool)
    ensures var r := TempFrom(s, p, withM);
            r.Some? ==> SignedTwo(r.value.temp) && SignedTwo(r.value.dew)
                        && PrefixAt(s, p, r.value.temp + "/" + r.value.dew + " ")
  {
    var r := TempFrom(s, p, withM);
    if r.Some? {
      var n := SignedWidth(withM);
      var temp := s[p..p + n];
      var dm := DewFrom(s, p + n + 1, temp, true).Some?;
      assert r == DewFrom(s, p + n + 1, temp, dm);
      DewSound(s, p + n + 1, temp, dm);
      SignedTwoSlice(s, p, withM);
      var g := r.value;
      PrefixAtConcat3(s, p, temp, "/", g.dew + " ");
      assert temp + "/" + g.dew + " " == temp + "/" + (g.dew + " ");
    }
  }

  lemma TempTaken(s: string, i: nat, withM: bool)
    requires PrefixAt(s, i, " ")
    ensures var r := TempFrom(s, i + 1, withM);
            r.Some? ==> IsTempAt(s, i, r.value)
  {
    var r := TempFrom(s, i + 1, withM);
    if r.Some? {
      TempFromSound(s, i + 1, withM);
      var g := r.value;
      PrefixAtConcat(s, i, " ", g.temp + "/" + g.dew + " ");
      assert TempText(g) == " " + (g.temp + "/" + g.dew + " ");
    }
  }

  lemma TempSound(s: string, i: nat)
    ensures TempAt(s, i).Some? ==> IsTempAt(s, i, TempAt(s, i).value)
  {
    if PrefixAt(s, i, " ") {
      TempTaken(s, i, true);
      TempTaken(s, i, false);
    }
  }

  lemma TempComplete(s: string, i: nat, g: TempGroup)
    requires IsTempAt(s, i, g)
    ensures TempAt(s, i) == Some(g)
  {
    PrefixAtConcat(s, i, " " + g.temp + "/" + g.dew, " ");
    PrefixAtConcat4(s, i, " ", g.temp, "/", g.dew);
    var p := i + 1;
    var q := p + |g.temp| + 1;
    SignedTwoFound(s, p, g.temp);
    SignedTwoFound(s, q, g.dew);
    var tm := |g.temp| == 3;
    var dm := |g.dew| == 3;
    assert DewFrom(s, q, g.temp, dm) == Some(g);
    assert DewFrom(s, q, g.temp, !dm).None?;
    assert TempFrom(s, p, tm) == Some(g);
    assert TempFrom(s, p, !tm).None?;
  }

  lemma TempAtSpec(s: string)
    ensures forall i: nat, g :: TempAt(s, i) == Some(g) <==> IsTempAt(s, i, g)
  {
    forall i: nat, g | true ensures TempAt(s, i) == Some(g) <==> IsTempAt(s, i, g) {
      TempSound(s, i);
      if IsTempAt(s, i, g) {
        TempComplete(s, i, g);
      }
    }
  }

  // ---------------------------------------------------------------------------------------------
  // Altimeter: / A(\d{4})/

  predicate IsAltimeterAt(s: string, i: nat, d: string)
  {
    |d| == 4 && AllDigits(d) && PrefixAt(s, i, " A" + d)
  }

  function AltimeterAt(s: string, i: nat): Option<string>
  {
    if PrefixAt(s, i, " A") && DigitsAt(s, i + 2, 4) then Some(s[i + 2..i + 6]) else None
  }

  lemma AltimeterAtSpec(s: string)
    ensures forall i: nat, d :: AltimeterAt(s, i) == Some(d) <==> IsAltimeterAt(s, i, d)
  {
    forall i: nat, d | true ensures AltimeterAt(s, i) == Some(d) <==> IsAltimeterAt(s, i, d) {
      PrefixAtConcat(s, i, " A", d);
      if AltimeterAt(s, i) == Some(d) {
        DigitsAtSlice(s, i + 2, 4);
      }
      if IsAltimeterAt(s, i, d) {
        PrefixAtDigits(s, i + 2, d);
      }
    }
  }

  // ---------------------------------------------------------------------------------------------
  // Station: /^[A-Z]{4}/, anchored at the start of the text

  function StationAt(s: string): (r: Option<string>)
    ensures r.Some? <==> |s| >= 4 && forall k :: 0 <= k < 4 ==> IsUpper(s[k])
    ensures r.Some? ==> r.value == s[..4]
  {
    if |s| >= 4 && IsUpper(s[0]) && IsUpper(s[1]) && IsUpper(s[2]) && IsUpper(s[3]) then Some(s[..4]) else None
  }
}
