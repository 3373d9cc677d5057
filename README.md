# FlightDeckPro METAR parser and emergency checklist, in Dafny

This project models two parts of the FlightDeckPro app (a single React Native file, `App.tsx`) and
proves what they do:

- **`parseMETAR`** turns a METAR weather report into a record with every field filled in. It
  upper-cases and trims the text, then runs six regular-expression searches: station, wind,
  visibility, cloud groups (a global search), temperature/dew point and altimeter. From the cloud
  groups it derives a ceiling, and from the visibility and the ceiling a flight category
  (VFR/IFR/LIFR).
- **The emergency screen's checklist state**: the checklist shown, the list of ticked item indices,
  and the two flags that declaring an emergency raises.

## Layout

| file | module | contents |
|---|---|---|
| `options.dfy` | `Options` | `Option` (`None` stands for JavaScript's `null`, or for `NaN` from `parseInt`) |
| `text.dfy` | `Text` | ASCII character classes, decimal digit strings, `PrefixAt` |
| `js.dfy` | `Js` | the JavaScript built-ins the parser calls: `toUpperCase`, `trim`, `replace` with a string pattern, `parseInt`, `parseFloat`, `join`; and `split`, which the parser does not call, as the inverse of `join` |
| `regex.dfy` | `Regex` | leftmost search (`String.prototype.match` without `g`), with the declarative "first match" it computes |
| `patterns.dfy` | `Patterns` | the six patterns, each as a matcher and a grammar |
| `metar.dfy` | `Metar` | the layers, the ceiling, the category, the `Report` record, `Parse`, and one lemma per field |
| `scenarios.dfy` | `Scenarios` | worked examples |
| `emergency.dfy` | `Emergency` | the `EmergencyScreen` class and the list functions that specify it |

### How the regular expressions are modelled

Each pattern has two definitions:

- **A matcher** `XAt(s, i)` tries the pattern at index `i` in the order a backtracking engine uses:
  - alternatives left to right;
  - a greedy count longest first;
  - an optional group present first.
- **A grammar** `IsXAt(s, i, m)` says declaratively that the text at `i` has the pattern's shape with
  captures `m`.

The lemma `XAtSpec` proves that the matcher and the grammar agree. So the engine's choice among the
possible captures never matters: at most one set exists at any index.

`Regex.Leftmost` tries the indices from left to right. `Regex.LeftmostFindsFirst` proves that its
result is the first index at which the grammar matches, or that there is no match anywhere. The
global cloud search `Patterns.CloudScan` restarts after the end of each match.

### Numbers

- `parseInt` and `parseFloat` return `Option<int>`, with `None` for `NaN`. Every call in `Parse` is
  proved to produce a number.
- The altimeter is kept as an integer in hundredths: 2992 stands for 29.92. All other numbers are
  integers in the source too.

### Two readings of METAR that the code does not follow (the model follows the code)

- **No station.** A station identifier is four letters, so a text such as "GARBAGE TEXT" holds none
  and one might expect an "unknown" marker. The code takes any four leading capital letters, so it
  returns "GARB"; its marker for a missing station is `'---'`. `Scenarios.GarbageText` proves the
  record the code returns.
- **Fractional visibility.** In METAR "1/2SM" means half a statute mile and "M1/4SM" less than a
  quarter. The code's `parseFloat` stops at the `/`, so both read as 1 mile. A fraction therefore
  counts as LIFR on visibility exactly when its numerator is 0, as in "0/2"; every other fraction
  reads as at least 1 (`Scenarios.FractionsReadAsNumerator`, `Scenarios.FractionLifr`).

## Model

| member | source | states |
|---|---|---|
| Js.UpperCase | App.tsx:116 | same length; each character is its ASCII upper case |
| Js.TrimIsTrimmed | App.tsx:116 | `trim` leaves no white space at either end |
| Js.TrimTrimmed | App.tsx:116 | trimming a text with no white space at either end changes nothing |
| Js.UpperCaseOfTrim | App.tsx:116 | upper-casing and trimming commute |
| Js.UpperCaseNoLower | App.tsx:116 | a text without lower-case letters is its own upper case |
| Js.TrimNoLower | App.tsx:116 | trimming a text without lower-case letters leaves none |
| Js.Trim | App.tsx:116 | `trim`; what it keeps is stated by `Js.TrimPiece`, `Js.TrimIsTrimmed` and `Js.TrimTrimmed` |
| Js.TrimPiece | App.tsx:116 | the result is one contiguous piece of the text starting at its first character that is not white space, and only white space follows it |
| Js.ParseIntDigits | App.tsx:135 | `parseInt` of digits followed by a non-digit is the decimal value of those digits |
| Js.ParseIntNegative | App.tsx:124 | `parseInt` of '-' and digits is the negated decimal value |
| Js.ReplaceFirst | App.tsx:124 | `replace` with a one-character string: a text without that character is unchanged; otherwise the length grows by the replacement's length less one |
| Js.ReplaceFirstAt | App.tsx:149 | only the first occurrence is replaced; the text after it, later occurrences included, is kept |
| Js.ParseInt | App.tsx:124 | `parseInt` is NaN exactly when, after leading white space and at most one sign, no digit follows; a negative result needs a leading '-' |
| Js.ParseFloat | App.tsx:129 | on the parser's strings `parseFloat` is NaN exactly when, after leading white space and at most one sign, no digit follows |
| Js.Join | App.tsx:151 | joining one part gives that part; the result starts with the first part's first character |
| Js.JoinSnoc | App.tsx:151 | joining one more part appends the separator and then that part |
| Js.SplitJoin | App.tsx:151 | when no part holds the separator's first character, splitting the joined text at the separator gives back the parts |
| Regex.Leftmost | App.tsx:118 | the reported index matches and no earlier index from the start does; no result means no index matches |
| Regex.LeftmostFindsFirst | App.tsx:118-122 | given a matcher equal to a grammar, the search result is exactly the first grammar match, and none iff there is no match |
| Patterns.StationAt | App.tsx:117 | a station is found iff the first four characters are capital letters, and it is those four |
| Patterns.WindAt | App.tsx:118 | the engine-order wind matcher; its behaviour is stated by `Patterns.WindAtSpec` |
| Patterns.WindAtSpec | App.tsx:118 | the engine-order wind matcher (direction digits before VRB, speed 3 digits before 2, gust 3 before 2 before none) finds exactly the grammar's wind groups |
| Patterns.VisAt | App.tsx:119 | the engine-order visibility matcher; its behaviour is stated by `Patterns.VisAtSpec` |
| Patterns.VisAtSpec | App.tsx:119 | the visibility matcher (two digits, one digit, 'M' fraction, fraction) finds exactly the grammar's `…SM` groups |
| Patterns.CloudAt | App.tsx:120 | the engine-order cloud matcher; its behaviour is stated by `Patterns.CloudAtSpec` |
| Patterns.CloudAtSpec | App.tsx:120 | the cloud matcher (FEW, SCT, BKN, OVC, VV, then three digits) finds exactly the grammar's cloud groups |
| Patterns.CloudScan | App.tsx:120 | each hit of the global search is a match at or after the start, with a three-digit height, and hits do not overlap |
| Patterns.CloudScanSound | App.tsx:120 | every hit of the global search is a cloud group of the grammar |
| Patterns.CloudScanFirstGap | App.tsx:120 | no cloud group starts before the first hit (nor anywhere, when there is no hit) |
| Patterns.CloudScanGaps | App.tsx:120 | no cloud group starts between the end of a hit and the next hit, nor after the last hit |
| Patterns.CloudScanEmpty | App.tsx:132 | the global search returns nothing iff the text holds no cloud group |
| Patterns.TempAt | App.tsx:121 | the engine-order temperature matcher; its behaviour is stated by `Patterns.TempAtSpec` |
| Patterns.TempAtSpec | App.tsx:121 | the temperature matcher ('M' tried first on each value) finds exactly the grammar's " tt/dd " pairs |
| Patterns.AltimeterAt | App.tsx:122 | the engine-order altimeter matcher; its behaviour is stated by `Patterns.AltimeterAtSpec` |
| Patterns.AltimeterAtSpec | App.tsx:122 | the altimeter matcher finds exactly " A" followed by four digits |
| Metar.Normalize | App.tsx:116 | the normalised text has no white space at either end and no lower-case letter |
| Metar.NormalizeIdempotent | App.tsx:116 | normalising twice is normalising once |
| Metar.WindMatch | App.tsx:118 | the wind search gives the first wind group of the text, and nothing iff there is none |
| Metar.VisMatch | App.tsx:119 | the visibility search gives the first `…SM` group, and nothing iff there is none |
| Metar.TempMatch | App.tsx:121 | the temperature search gives the first space-delimited pair, and nothing iff there is none |
| Metar.AltimeterMatch | App.tsx:122 | the altimeter search gives the first " Adddd" group, and nothing iff there is none |
| Metar.DigitsNumber | App.tsx:125 | `parseInt` of a digit run is its decimal value, below 10 to the power of its length |
| Metar.SignedValue | App.tsx:124 | replacing 'M' by '-' and parsing gives minus the digits after an 'M', the digits' value otherwise; the value is in -99..99 and is negative only after an 'M' |
| Metar.VisNumber | App.tsx:129 | `parseFloat` after removing 'M' gives the digits' value, or the numerator of a fraction; the value is in 0..99 |
| Metar.VisibilityText | App.tsx:128 | the visibility string always has one of the pattern's shapes, the default "10" included |
| Metar.GustDigits | App.tsx:149 | there is a gust iff the wind group has its G part, and it is that part without the 'G' |
| Metar.LayerOf | App.tsx:134-135 | a layer read from one matched string has a height that is a multiple of 100 in 0..99900 |
| Metar.LayerOfCloudText | App.tsx:134-135 | matching a returned cloud string again gives back the same group, read as coverage and height × 100 |
| Metar.SomeValues | App.tsx:133-136 | `map` then `filter(Boolean)` keeps at most one value per element, each one that the map yields for some element |
| Metar.SomeValuesAll | App.tsx:133-136 | when the map yields a value for every element, the filter drops nothing and keeps the order |
| Metar.Layers | App.tsx:133-136 | mapping and filtering keeps at most one layer per string, each with a height in range |
| Metar.LayersOfHits | App.tsx:133-136 | for the strings of the global search the filter removes nothing: the layers are the groups' coverages and heights × 100, in order |
| Metar.FirstCeiling | App.tsx:138 | `find` gives the first broken or overcast layer, and nothing iff there is none |
| Metar.Ceiling | App.tsx:131-140 | the ceiling is 10000 or a multiple of 100 in 0..99900 |
| Metar.CeilingRule | App.tsx:131-140 | the ceiling is the height of the first BKN or OVC group; it is 10000 when there is none, so FEW, SCT and VV never set it |
| Metar.CloudsText | App.tsx:151 | `clouds`; what it holds is stated by `Metar.CloudsClear` and `Metar.CloudsSplit` |
| Metar.CloudTextNoComma | App.tsx:120 | a matched cloud string never holds a comma |
| Metar.CloudsSplit | App.tsx:151 | for one or more groups, splitting `clouds` at ", " gives back every matched string, in order |
| Metar.CloudsClear | App.tsx:151 | `clouds` is "Clear" iff there is no cloud group; with one group it is that group's text |
| Metar.Classify | App.tsx:142-143 | LIFR iff visibility < 1 or ceiling < 500; IFR iff not LIFR and visibility < 3 or ceiling < 1000; VFR iff visibility >= 3 and ceiling >= 1000; never MVFR |
| Metar.ClassifyMonotone | App.tsx:142-143 | lower visibility or a lower ceiling never gives a less restrictive category |
| Metar.Parse | App.tsx:115-159 | `parseMETAR`; each field of the record is stated by the field lemmas below, from `Metar.StationRule` to `Metar.ParseIdempotent` |
| Metar.StationRule | App.tsx:146 | `station` is the first four characters when they are capital letters, '---' otherwise |
| Metar.WindRule | App.tsx:147-149 | wind fields come from the first wind group ('---', '0', no gust without one); a gust is there iff the group has its G part, and equals its digits; the direction is '---', "VRB" or three digits |
| Metar.VisibilityRule | App.tsx:150 | `visibility` is group 1 of the first visibility group, "10" without one; its number is in 0..99 |
| Metar.CloudsRule | App.tsx:151 | `clouds` is "Clear" iff the global search found nothing; otherwise splitting it at ", " gives back the matched strings; every reported group is a real cloud group |
| Metar.CeilingOfReport | App.tsx:156 | `cloudCeil` is the height of the first BKN/OVC group the global search found, 10000 without one |
| Metar.CeilingRange | App.tsx:156 | `cloudCeil` is 10000 or a multiple of 100 in 0..99900 |
| Metar.TempDewRule | App.tsx:152-153 | temperature and dew point come from the first pair ('M' meaning negative); without a pair they are 15 and null; the dew point is null iff there is no pair |
| Metar.AltimeterRule | App.tsx:154 | `altimeter` is the value of the four digits after " A" (hundredths), 2992 without them, and is in 0..9999 |
| Metar.NoMatchAtStart | App.tsx:121-122 | in normalised text the temperature and altimeter patterns never match at index 0 |
| Metar.CategoryRule | App.tsx:155 | the record's category follows the LIFR/IFR/VFR thresholds on its visibility number and ceiling, and is never MVFR |
| Metar.ParseIdempotent | App.tsx:157 | parsing the returned `raw` again yields the identical record |
| Scenarios.NothingMatches | App.tsx:145-157 | when no wind, visibility, cloud, temperature or altimeter group is present, those fields take their defaults and the category is VFR |
| Scenarios.GarbageText | App.tsx:115-159 | "GARBAGE TEXT" parses to station "GARB" with every other field at its default |
| Scenarios.FractionsReadAsNumerator | App.tsx:129 | "1/2" and "M1/4" both read as visibility 1, so with no ceiling the category is IFR |
| Scenarios.FractionLifr | App.tsx:129-143 | a fraction alone makes the category LIFR exactly when its numerator is 0 |
| Emergency.Without | App.tsx:852 | filtering out x leaves x absent, every other index's membership as before, the list unchanged when x was absent, and no duplicates introduced |
| Emergency.Toggled | App.tsx:850-856 | toggling flips the membership of the index, keeps every other index's membership, and introduces no duplicates |
| Emergency.ToggleTwiceMembership | App.tsx:850-856 | toggling an index twice restores the membership of every index |
| Emergency.ToggleTwiceUnchecked | App.tsx:850-856 | toggling an unchecked index twice restores the very same list |
| Emergency.AppendThenRemove | App.tsx:852-854 | appending an absent index and filtering it out again gives back the list |
| Emergency.EmergencyScreen.constructor | App.tsx:845-848 | initial state: 'engineFailure', nothing checked, both flags down |
| Emergency.EmergencyScreen.ToggleItem | App.tsx:850-856 | the new list is the toggled old list; only the index's membership flips; no duplicates if there were none; nothing else changes |
| Emergency.EmergencyScreen.ResetChecklist | App.tsx:858-862 | the list is empty and both flags are down; the checklist shown stays |
| Emergency.EmergencyScreen.DeclareEmergency | App.tsx:864-866 | both flags are up; the checklist and its ticks stay |
| Emergency.EmergencyScreen.SelectChecklist | App.tsx:891-894 | the chosen checklist is shown with an empty list; the flags stay |

## Left out

- The React/React Native components, navigation and styles. They are rendering only.
- The location lookup and the random "nearest airports". They are device I/O and randomness.
- The floating-point calculators: density altitude, weight and balance, glide distance,
  takeoff/landing distance, flight plan and wind correction. They are direct float formulas, not
  part of the parser.
- `updateWeight`. It is state plumbing for the weight-and-balance screen.
- The static tables (aircraft, airports, checklists, colours) and `getCategoryColor`. They are
  constant data and a display mapping. `Category` keeps `MVFR` only because that mapping knows it.
- The `Alert.alert` call in `declareEmergency`. It is platform I/O; only the two flag updates are
  modelled.
- The empty-input guard and the state updates around the call to `parseMETAR` on the weather screen.
  They are UI.
- React's batched, asynchronous state updates. Each handler is modelled as one atomic method on the
  screen state.
- `Js.UpperCase`: covers ASCII letters only, not full Unicode case mapping.
- `Js.Trim`: strips ASCII white space only (space, tab, line feed, carriage return, vertical tab,
  form feed), not the other Unicode space characters.
- `Js.ParseInt`: does not model the "0x" hexadecimal prefix or a radix argument. The parser never
  passes such text.
- `Js.ParseFloat`: reads only the integer part, without a decimal point or an exponent. The
  visibility strings it receives contain neither, so the value agrees with JavaScript's.
- `Metar.AltimeterRule`: the altimeter is stated in integer hundredths (2992) instead of the float
  29.92 that the source's division by 100 gives.
