/**
 * Version identifiers of the form YY.MM.DD.N.
 *
 * The firmware parses a version string with `sscanf(s, "%d.%d.%d.%d", ...)`
 * into four int slots and compares the slots lexicographically, slot 0 first.
 * This module models the scanner (which slots it fills and with what), the
 * comparator, and the h1 comparison routine, whose slot arrays start at zero.
 */
module VersionCode {

  /** The largest value of a C `int` on the target (32-bit, two's complement). */
  const INT32_MAX: int := 0x7fff_ffff

  /** The four int slots a version string is scanned into. */
  type Parts = s: seq<int> | |s| == 4 witness [0, 0, 0, 0]

  const ZERO_PARTS: Parts := [0, 0, 0, 0]

  // ---------------------------------------------------------------------
  // The scanner: what `sscanf(s, "%d.%d.%d.%d", ...)` converts
  // ---------------------------------------------------------------------

  /** `isspace` in the C locale: space, \t, \n, \v, \f, \r. */
  predicate IsSpace(c: char) {
    c == ' ' || '\t' <= c <= '\r'
  }

  predicate IsDigit(c: char) {
    '0' <= c <= '9'
  }

  function DigitValue(c: char): nat
    requires IsDigit(c)
  {
    c as int - '0' as int
  }

  predicate AllDigits(s: string) {
    forall i :: 0 <= i < |s| ==> IsDigit(s[i])
  }

  /** `%d` first skips white space. */
  function SkipSpace(s: string): (r: string)
    ensures |r| <= |s|
    ensures |r| > 0 ==> !IsSpace(r[0])
  {
    if |s| > 0 && IsSpace(s[0]) then SkipSpace(s[1..]) else s
  }

  /** Number of leading decimal digits (`%d` takes as many as there are). */
  function DigitRun(s: string): (n: nat)
    ensures n <= |s|
    ensures AllDigits(s[..n])
    ensures n < |s| ==> !IsDigit(s[n])
  {
    if |s| > 0 && IsDigit(s[0]) then 1 + DigitRun(s[1..]) else 0
  }

  /** Value of a digit string, most significant digit first. */
  function DigitsValue(ds: string): nat
    requires AllDigits(ds)
  {
    if |ds| == 0 then 0 else DigitsValue(ds[..|ds| - 1]) * 10 + DigitValue(ds[|ds| - 1])
  }

  /** One successful `%d` conversion: the value and the input left over. */
  datatype Conversion = Conversion(value: int, rest: string)

  datatype ScanResult = NoMatch | Converted(conv: Conversion)

  /**
   * One `%d` conversion: white space, an optional sign, then at least one
   * digit. Without a digit the directive fails and scanning stops.
   */
  function ScanInt(s: string): (r: ScanResult)
    ensures r.Converted? ==> |r.conv.rest| < |s|
  {
    var t := SkipSpace(s);
    var negative := |t| > 0 && t[0] == '-';
    var u := if |t| > 0 && (t[0] == '-' || t[0] == '+') then t[1..] else t;
    var n := DigitRun(u);
    if n == 0 then NoMatch
    else
      var magnitude: int := DigitsValue(u[..n]);
      Converted(Conversion(if negative then -magnitude else magnitude, u[n..]))
  }

  /**
   * The values converted by "%d" followed by `more` repetitions of ".%d".
   * The literal '.' must be the very next character; the first mismatch
   * ends the scan, and only the values converted so far are stored.
   */
  function ScanFields(s: string, more: nat): (fields: seq<int>)
    ensures |fields| <= more + 1
    decreases more
  {
    match ScanInt(s)
    case NoMatch => []
    case Converted(c) =>
      if more > 0 && |c.rest| > 0 && c.rest[0] == '.' then [c.value] + ScanFields(c.rest[1..], more - 1)
      else [c.value]
  }

  /** The values `sscanf(s, "%d.%d.%d.%d", ...)` stores, in slot order. */
  function Scan(s: string): (fields: seq<int>)
    ensures |fields| <= 4
  {
    ScanFields(s, 3)
  }

  /**
   * `sscanf`'s count: the number of values stored, or EOF (-1) when the input
   * ends before the first conversion.
   */
  function ScanCount(s: string): (count: int)
    ensures count == -1 || count == |Scan(s)|
    ensures count == -1 ==> Scan(s) == []
  {
    if SkipSpace(s) == "" then -1 else |Scan(s)|
  }

  /** The slots after the scan: the converted prefix, then what was there before. */
  function Fill(before: Parts, fields: seq<int>): Parts
    requires |fields| <= 4
  {
    fields + before[|fields|..]
  }

  /** h1's parse: slots zero-initialised (`int v1Parts[4] = {0}`), then scanned. */
  function Parse(s: string): Parts {
    Fill(ZERO_PARTS, Scan(s))
  }

  // ---------------------------------------------------------------------
  // The comparator
  // ---------------------------------------------------------------------

  /** Lexicographic "strictly greater", field 0 most significant. */
  predicate LexGreater(a: seq<int>, b: seq<int>)
    requires |a| == |b|
  {
    |a| > 0 && (a[0] > b[0] || (a[0] == b[0] && LexGreater(a[1..], b[1..])))
  }

  /** `version1` is newer than `version2` (h1's `isVersionNewer`). */
  predicate VersionNewer(version1: string, version2: string) {
    LexGreater(Parse(version1), Parse(version2))
  }

  /** The first differing field decides the comparison. */
  lemma {:induction false} FirstDifferenceDecides(a: seq<int>, b: seq<int>, k: nat)
    requires |a| == |b| && k < |a|
    requires forall j :: 0 <= j < k ==> a[j] == b[j]
    requires a[k] != b[k]
    ensures LexGreater(a, b) <==> a[k] > b[k]
  {
    if k > 0 {
      FirstDifferenceDecides(a[1..], b[1..], k - 1);
    }
  }

  lemma {:induction false} LexIrreflexive(a: seq<int>)
    ensures !LexGreater(a, a)
  {
    if |a| > 0 {
      LexIrreflexive(a[1..]);
    }
  }

  lemma {:induction false} LexAsymmetric(a: seq<int>, b: seq<int>)
    requires |a| == |b|
    ensures !(LexGreater(a, b) && LexGreater(b, a))
  {
    if |a| > 0 && a[0] == b[0] {
      LexAsymmetric(a[1..], b[1..]);
    }
  }

  lemma {:induction false} LexTransitive(a: seq<int>, b: seq<int>, c: seq<int>)
    requires |a| == |b| == |c|
    requires LexGreater(a, b) && LexGreater(b, c)
    ensures LexGreater(a, c)
  {
    if a[0] == b[0] == c[0] {
      LexTransitive(a[1..], b[1..], c[1..]);
    }
  }

  /** Distinct slot vectors are always ordered one way or the other. */
  lemma {:induction false} LexTotal(a: seq<int>, b: seq<int>)
    requires |a| == |b| && a != b
    ensures LexGreater(a, b) || LexGreater(b, a)
  {
    if a[0] == b[0] {
      assert a == [a[0]] + a[1..] && b == [b[0]] + b[1..];
      LexTotal(a[1..], b[1..]);
    }
  }

  /** `isVersionNewer(v, v)` is false. */
  lemma NotNewerThanItself(v: string)
    ensures !VersionNewer(v, v)
  {
    LexIrreflexive(Parse(v));
  }

  /** Two versions are never both newer than each other. */
  lemma NeverMutuallyNewer(a: string, b: string)
    ensures !(VersionNewer(a, b) && VersionNewer(b, a))
  {
    LexAsymmetric(Parse(a), Parse(b));
  }

  lemma NewerIsTransitive(a: string, b: string, c: string)
    requires VersionNewer(a, b) && VersionNewer(b, c)
    ensures VersionNewer(a, c)
  {
    LexTransitive(Parse(a), Parse(b), Parse(c));
  }

  /** Versions that parse differently are ordered; those that parse alike are equal. */
  lemma NewerIsTotal(a: string, b: string)
    ensures Parse(a) != Parse(b) <==> VersionNewer(a, b) || VersionNewer(b, a)
  {
    if Parse(a) != Parse(b) {
      LexTotal(Parse(a), Parse(b));
    } else {
      LexIrreflexive(Parse(a));
    }
  }

  // ---------------------------------------------------------------------
  // The comparison routine as h1 runs it
  // ---------------------------------------------------------------------

  /**
   * The call `sscanf(s, "%d.%d.%d.%d", &p[0], &p[1], &p[2], &p[3])`:
   * stores the converted prefix into `parts` and leaves the other slots.
   */
  method ScanInto(s: string, parts: array<int>) returns (count: int)
    requires parts.Length == 4
    modifies parts
    ensures parts[..] == Fill(old(parts[..]), Scan(s))
    ensures count == ScanCount(s)
  {
    var fields := Scan(s);
    ghost var before := parts[..];
    for i := 0 to |fields|
      invariant forall j :: 0 <= j < i ==> parts[j] == fields[j]
      invariant forall j :: i <= j < 4 ==> parts[j] == before[j]
    {
      parts[i] := fields[i];
    }
    FillPointwise(before, fields);
    count := ScanCount(s);
  }

  /** Slot by slot, `Fill` takes the scanned field where there is one. */
  lemma FillPointwise(before: Parts, fields: seq<int>)
    requires |fields| <= 4
    ensures forall j :: 0 <= j < 4 ==> Fill(before, fields)[j] == if j < |fields| then fields[j] else before[j]
  {
  }

  /**
   * The comparison loop of `isVersionNewer`: slots 0..3 in order, the first
   * unequal slot decides, and all-equal means "not newer".
   */
  method SlotsNewer(v1Parts: array<int>, v2Parts: array<int>) returns (newer: bool)
    requires v1Parts.Length == 4 && v2Parts.Length == 4
    ensures newer == LexGreater(v1Parts[..], v2Parts[..])
  {
    ghost var a, b := v1Parts[..], v2Parts[..];
    for i := 0 to 4
      invariant forall j :: 0 <= j < i ==> a[j] == b[j]
    {
      if v1Parts[i] > v2Parts[i] {
        FirstDifferenceDecides(a, b, i);
        return true;
      }
      if v1Parts[i] < v2Parts[i] {
        FirstDifferenceDecides(a, b, i);
        return false;
      }
    }
    assert a == b;
    LexIrreflexive(a);
    return false;
  }

  /** h1's `isVersionNewer(version1, version2)`: zero-initialised slots, two scans, the loop. */
  method IsVersionNewer(version1: string, version2: string) returns (newer: bool)
    ensures newer == VersionNewer(version1, version2)
  {
    var v1Parts := new int[4](_ => 0);
    var v2Parts := new int[4](_ => 0);
    assert v1Parts[..] == ZERO_PARTS && v2Parts[..] == ZERO_PARTS;
    var parsed1 := ScanInto(version1, v1Parts);
    var parsed2 := ScanInto(version2, v2Parts);
    newer := SlotsNewer(v1Parts, v2Parts);
  }

  // ---------------------------------------------------------------------
  // The comparison routine as poc_v1 runs it
  // ---------------------------------------------------------------------

  /**
   * poc_v1 declares `int v1Parts[4], v2Parts[4];` without an initialiser. The
   * slots a scan does not reach keep whatever the stack held, here `stale`.
   */
  function StaleParse(s: string, stale: Parts): Parts {
    Fill(stale, Scan(s))
  }

  /** poc_v1's `isVersionNewer`, given the indeterminate contents of both arrays. */
  predicate StaleVersionNewer(version1: string, version2: string, stale1: Parts, stale2: Parts) {
    LexGreater(StaleParse(version1, stale1), StaleParse(version2, stale2))
  }

  /** poc_v1's `isVersionNewer`: uninitialised slots, two scans, the loop. */
  method IsVersionNewerStale(version1: string, version2: string, stale1: Parts, stale2: Parts)
    returns (newer: bool)
    ensures newer == StaleVersionNewer(version1, version2, stale1, stale2)
  {
    var v1Parts := new int[4](i requires 0 <= i < 4 => stale1[i]);
    var v2Parts := new int[4](i requires 0 <= i < 4 => stale2[i]);
    assert v1Parts[..] == stale1 && v2Parts[..] == stale2;
    var parsed1 := ScanInto(version1, v1Parts);
    var parsed2 := ScanInto(version2, v2Parts);
    newer := SlotsNewer(v1Parts, v2Parts);
  }

  /** A scan that fills all four slots leaves nothing indeterminate. */
  lemma FullScanIgnoresStale(s: string, stale: Parts)
    requires |Scan(s)| == 4
    ensures StaleParse(s, stale) == Parse(s) == Scan(s)
  {
  }

  /**
   * When both versions scan four fields, poc_v1's comparison agrees with h1's
   * whatever the stack held, and so is a strict total order on those inputs.
   */
  lemma StaleAgreesOnFullScans(version1: string, version2: string, stale1: Parts, stale2: Parts)
    requires |Scan(version1)| == 4 && |Scan(version2)| == 4
    ensures StaleVersionNewer(version1, version2, stale1, stale2) == VersionNewer(version1, version2)
  {
    FullScanIgnoresStale(version1, stale1);
    FullScanIgnoresStale(version2, stale2);
  }

  /**
   * With a short scan the answer depends on the stack: "24.6" against
   * "24.6.0.0" is "not newer" over zeroed slots and "newer" when a stale 5
   * sits in slot 2 -- so the as-written routine is not a function of its
   * arguments.
   */
  lemma StaleDecidesShortScan()
    ensures !StaleVersionNewer("24.6", "24.6.0.0", ZERO_PARTS, ZERO_PARTS)
    ensures StaleVersionNewer("24.6", "24.6.0.0", [0, 0, 5, 0], ZERO_PARTS)
  {
    ParseSample246Short();
    ParseSample246Padded();
    var p: Parts := [24, 6, 0, 0];
    var q: Parts := [24, 6, 5, 0];
    assert StaleParse("24.6", ZERO_PARTS) == p;
    assert StaleParse("24.6", [0, 0, 5, 0]) == q;
    LexIrreflexive(p);
    FirstDifferenceDecides(q, p, 2);
    StaleBySlots("24.6", "24.6.0.0", ZERO_PARTS, ZERO_PARTS, p, p);
    StaleBySlots("24.6", "24.6.0.0", [0, 0, 5, 0], ZERO_PARTS, q, p);
  }

  lemma StaleBySlots(version1: string, version2: string, stale1: Parts, stale2: Parts, a: Parts, b: Parts)
    requires StaleParse(version1, stale1) == a && StaleParse(version2, stale2) == b
    ensures StaleVersionNewer(version1, version2, stale1, stale2) == LexGreater(a, b)
  {
  }

  // ---------------------------------------------------------------------
  // What the scanner yields for dotted decimal text
  // ---------------------------------------------------------------------

  /** Digit groups joined by '.', such as ["24", "06", "01", "2"]. */
  function Dotted(groups: seq<string>): string
    requires |groups| > 0
  {
    if |groups| == 1 then groups[0] else groups[0] + "." + Dotted(groups[1..])
  }

  /** Each group is a non-empty run of decimal digits. */
  predicate DigitGroups(groups: seq<string>) {
    forall i :: 0 <= i < |groups| ==> |groups[i]| > 0 && AllDigits(groups[i])
  }

  function GroupValues(groups: seq<string>): (values: seq<int>)
    requires DigitGroups(groups)
    ensures |values| == |groups|
  {
    if |groups| == 0 then [] else [DigitsValue(groups[0]) as int] + GroupValues(groups[1..])
  }

  lemma {:induction false} GroupValuesPointwise(groups: seq<string>)
    requires DigitGroups(groups)
    ensures forall i :: 0 <= i < |groups| ==> GroupValues(groups)[i] == DigitsValue(groups[i])
  {
    if |groups| > 0 {
      GroupValuesPointwise(groups[1..]);
    }
  }

  lemma {:induction false} DigitRunStopsAt(ds: string, rest: string)
    requires AllDigits(ds)
    requires |rest| > 0 ==> !IsDigit(rest[0])
    ensures DigitRun(ds + rest) == |ds|
  {
    if |ds| > 0 {
      assert (ds + rest)[1..] == ds[1..] + rest;
      DigitRunStopsAt(ds[1..], rest);
    } else {
      assert ds + rest == rest;
    }
  }

  /** `%d` applied to a run of digits converts exactly that run. */
  lemma ScanIntOfDigits(ds: string, rest: string)
    requires |ds| > 0 && AllDigits(ds)
    requires |rest| > 0 ==> !IsDigit(rest[0])
    ensures ScanInt(ds + rest) == Converted(Conversion(DigitsValue(ds), rest))
  {
    var s := ds + rest;
    assert s[0] == ds[0] && IsDigit(s[0]);
    assert SkipSpace(s) == s;
    assert !(s[0] == '-' || s[0] == '+');
    DigitRunStopsAt(ds, rest);
    assert s[..|ds|] == ds;
    assert s[|ds|..] == rest;
  }

  /** A conversion followed by '.' continues with the next field. */
  lemma ScanFieldsStep(s: string, v: int, tail: string, more: nat)
    requires more > 0 && ScanInt(s) == Converted(Conversion(v, ['.'] + tail))
    ensures ScanFields(s, more) == [v] + ScanFields(tail, more - 1)
  {
    assert (['.'] + tail)[1..] == tail;
  }

  /** A conversion not followed by '.' (or with no slot left) ends the scan. */
  lemma ScanFieldsLast(s: string, v: int, rest: string, more: nat)
    requires ScanInt(s) == Converted(Conversion(v, rest))
    requires more == 0 || |rest| == 0 || rest[0] != '.'
    ensures ScanFields(s, more) == [v]
  {
  }

  /**
   * Scanning dot-separated digit groups gives their values, as long as the
   * text after them does not continue the last number (or, when slots are
   * left over, start another ".%d").
   */
  lemma {:induction false} ScanFieldsOfDotted(groups: seq<string>, rest: string, more: nat)
    requires 0 < |groups| <= more + 1 && DigitGroups(groups)
    requires |rest| > 0 ==> !IsDigit(rest[0]) && (|groups| == more + 1 || rest[0] != '.')
    ensures ScanFields(Dotted(groups) + rest, more) == GroupValues(groups)
  {
    if |groups| == 1 {
      ScanIntOfDigits(groups[0], rest);
      ScanFieldsLast(Dotted(groups) + rest, DigitsValue(groups[0]), rest, more);
    } else {
      ScanFieldsOfDotted(groups[1..], rest, more - 1);
      ScanFieldsOfDottedCons(groups, rest, more);
    }
  }

  /** The inductive step of ScanFieldsOfDotted, one group at a time. */
  lemma ScanFieldsOfDottedCons(groups: seq<string>, rest: string, more: nat)
    requires 1 < |groups| && 0 < more && DigitGroups(groups)
    requires ScanFields(Dotted(groups[1..]) + rest, more - 1) == GroupValues(groups[1..])
    ensures ScanFields(Dotted(groups) + rest, more) == GroupValues(groups)
  {
    var tail := Dotted(groups[1..]) + rest;
    assert Dotted(groups) + rest == groups[0] + (['.'] + tail);
    ScanIntOfDigits(groups[0], ['.'] + tail);
    ScanFieldsStep(Dotted(groups) + rest, DigitsValue(groups[0]), tail, more);
  }

  /** Parsing four digit groups gives their four values. */
  lemma ParseDotted(groups: seq<string>)
    requires |groups| == 4 && DigitGroups(groups)
    ensures Parse(Dotted(groups)) == GroupValues(groups)
  {
    ScanFieldsOfDotted(groups, "", 3);
    assert Dotted(groups) + "" == Dotted(groups);
  }

  /** Parsing fewer than four digit groups pads the remaining slots with zero. */
  lemma ParseShortDotted(groups: seq<string>)
    requires 0 < |groups| < 4 && DigitGroups(groups)
    ensures Parse(Dotted(groups)) == GroupValues(groups) + ZERO_PARTS[|groups|..]
  {
    ScanFieldsOfDotted(groups, "", 3);
    assert Dotted(groups) + "" == Dotted(groups);
  }

  /** Unparsed slots keep their initial value: zero for `Parse`. */
  lemma ParseZeroFills(s: string)
    ensures Parse(s)[..|Scan(s)|] == Scan(s)
    ensures forall i :: |Scan(s)| <= i < 4 ==> Parse(s)[i] == 0
  {
  }

  // ---------------------------------------------------------------------
  // The scanner inverts the version printer
  // ---------------------------------------------------------------------

  function DigitChar(d: nat): (c: char)
    requires d < 10
    ensures IsDigit(c) && DigitValue(c) == d
  {
    ('0' as int + d) as char
  }

  /** Decimal notation of `n`, no sign, no leading zero. */
  function NatString(n: nat): (s: string)
    ensures |s| > 0 && AllDigits(s)
  {
    if n < 10 then [DigitChar(n)] else NatString(n / 10) + [DigitChar(n % 10)]
  }

  lemma {:induction false} NatStringValue(n: nat)
    ensures DigitsValue(NatString(n)) == n
  {
    if n >= 10 {
      var s := NatString(n);
      assert s[..|s| - 1] == NatString(n / 10);
      NatStringValue(n / 10);
    }
  }

  /** Every field non-negative and small enough for a C `int`. */
  predicate PrintableFields(fields: seq<int>) {
    forall i :: 0 <= i < |fields| ==> 0 <= fields[i] <= INT32_MAX
  }

  function NatStrings(fields: seq<int>): (groups: seq<string>)
    requires PrintableFields(fields)
    ensures |groups| == |fields| && DigitGroups(groups)
  {
    if |fields| == 0 then [] else [NatString(fields[0])] + NatStrings(fields[1..])
  }

  /** The fields written in decimal without leading zeros and joined by dots, as `YY.MM.DD.N`. */
  function Render(fields: seq<int>): string
    requires |fields| > 0 && PrintableFields(fields)
  {
    Dotted(NatStrings(fields))
  }

  lemma {:induction false} NatStringsValues(fields: seq<int>)
    requires PrintableFields(fields)
    ensures GroupValues(NatStrings(fields)) == fields
  {
    if |fields| > 0 {
      NatStringValue(fields[0]);
      NatStringsValues(fields[1..]);
      assert NatStrings(fields)[1..] == NatStrings(fields[1..]);
      assert fields == [fields[0]] + fields[1..];
    }
  }

  /** Round trip: parsing a printed four-field version gives its fields. */
  lemma ParseRender(p: Parts)
    requires PrintableFields(p)
    ensures Parse(Render(p)) == p
  {
    ParseDotted(NatStrings(p));
    NatStringsValues(p);
  }

  // ---------------------------------------------------------------------
  // Sample versions
  // ---------------------------------------------------------------------

  lemma OneDigitValue(s: string)
    requires |s| == 1 && IsDigit(s[0])
    ensures AllDigits(s) && DigitsValue(s) == DigitValue(s[0])
  {
    assert s[..0] == [];
  }

  lemma TwoDigitValue(s: string)
    requires |s| == 2 && IsDigit(s[0]) && IsDigit(s[1])
    ensures AllDigits(s) && DigitsValue(s) == DigitValue(s[0]) * 10 + DigitValue(s[1])
  {
    OneDigitValue(s[..1]);
  }

  /** Parsing four digit groups of known values. */
  lemma ParseFourGroups(g: seq<string>, p: Parts)
    requires |g| == 4 && DigitGroups(g)
    requires forall i :: 0 <= i < 4 ==> DigitsValue(g[i]) == p[i]
    ensures Parse(Dotted(g)) == p
  {
    ParseDotted(g);
    GroupValuesPointwise(g);
  }

  /** `version1` is newer than `version2` whenever their slots compare so. */
  lemma NewerBySlots(version1: string, version2: string, a: Parts, b: Parts)
    requires Parse(version1) == a && Parse(version2) == b
    ensures VersionNewer(version1, version2) == LexGreater(a, b)
  {
  }

  // One lemma per sample string keeps each literal's evaluation separate.

  lemma ParseSample240601Build2()
    ensures Parse("24.06.01.2") == [24, 6, 1, 2]
  {
    TwoDigitValue("24");
    TwoDigitValue("06");
    TwoDigitValue("01");
    OneDigitValue("2");
    assert Dotted(["24", "06", "01", "2"]) == "24.06.01.2";
    ParseFourGroups(["24", "06", "01", "2"], [24, 6, 1, 2]);
  }

  lemma ParseSample240601Build1()
    ensures Parse("24.06.01.1") == [24, 6, 1, 1]
  {
    TwoDigitValue("24");
    TwoDigitValue("06");
    TwoDigitValue("01");
    OneDigitValue("1");
    assert Dotted(["24", "06", "01", "1"]) == "24.06.01.1";
    ParseFourGroups(["24", "06", "01", "1"], [24, 6, 1, 1]);
  }

  lemma ParseSample231231Build9()
    ensures Parse("23.12.31.9") == [23, 12, 31, 9]
  {
    TwoDigitValue("23");
    TwoDigitValue("12");
    TwoDigitValue("31");
    OneDigitValue("9");
    assert Dotted(["23", "12", "31", "9"]) == "23.12.31.9";
    ParseFourGroups(["23", "12", "31", "9"], [23, 12, 31, 9]);
  }

  lemma ParseSample240101Build0()
    ensures Parse("24.01.01.0") == [24, 1, 1, 0]
  {
    TwoDigitValue("24");
    TwoDigitValue("01");
    OneDigitValue("0");
    assert Dotted(["24", "01", "01", "0"]) == "24.01.01.0";
    ParseFourGroups(["24", "01", "01", "0"], [24, 1, 1, 0]);
  }

  lemma ParseSampleAllZero()
    ensures Parse("0.0.0.0") == ZERO_PARTS
  {
    OneDigitValue("0");
    assert Dotted(["0", "0", "0", "0"]) == "0.0.0.0";
    ParseFourGroups(["0", "0", "0", "0"], ZERO_PARTS);
  }

  lemma ParseSample246Padded()
    ensures Parse("24.6.0.0") == [24, 6, 0, 0]
  {
    TwoDigitValue("24");
    OneDigitValue("6");
    OneDigitValue("0");
    assert Dotted(["24", "6", "0", "0"]) == "24.6.0.0";
    ParseFourGroups(["24", "6", "0", "0"], [24, 6, 0, 0]);
  }

  lemma ParseSample246Short()
    ensures Scan("24.6") == [24, 6] && Parse("24.6") == [24, 6, 0, 0]
  {
    TwoDigitValue("24");
    OneDigitValue("6");
    assert Dotted(["24", "6"]) == "24.6";
    ScanFieldsOfDotted(["24", "6"], "", 3);
    assert "24.6" + "" == "24.6";
    assert GroupValues(["24", "6"]) == [24, 6] by {
      assert ["24", "6"][1..][1..] == [];
    }
  }

  lemma ParseSampleMalformed()
    ensures Scan("bad-string") == [] && ScanCount("bad-string") == 0
    ensures Parse("bad-string") == ZERO_PARTS
  {
  }

  /** Cross-field precedence: the build index decides when the date is equal. */
  lemma BuildIndexDecides()
    ensures VersionNewer("24.06.01.2", "24.06.01.1")
    ensures !VersionNewer("24.06.01.1", "24.06.01.2")
  {
    ParseSample240601Build2();
    ParseSample240601Build1();
    var a, b: Parts := [24, 6, 1, 2], [24, 6, 1, 1];
    FirstDifferenceDecides(a, b, 3);
    FirstDifferenceDecides(b, a, 3);
    NewerBySlots("24.06.01.2", "24.06.01.1", a, b);
    NewerBySlots("24.06.01.1", "24.06.01.2", b, a);
  }

  /** Cross-field precedence: the year decides before the month, day and build. */
  lemma YearDecides()
    ensures !VersionNewer("23.12.31.9", "24.01.01.0")
    ensures VersionNewer("24.01.01.0", "23.12.31.9")
  {
    ParseSample231231Build9();
    ParseSample240101Build0();
    var a, b: Parts := [23, 12, 31, 9], [24, 1, 1, 0];
    FirstDifferenceDecides(a, b, 0);
    FirstDifferenceDecides(b, a, 0);
    NewerBySlots("23.12.31.9", "24.01.01.0", a, b);
    NewerBySlots("24.01.01.0", "23.12.31.9", b, a);
  }

  /** Malformed input scans nothing and compares equal to 0.0.0.0. */
  lemma MalformedIsZero()
    ensures Parse("bad-string") == Parse("0.0.0.0")
    ensures !VersionNewer("bad-string", "0.0.0.0") && !VersionNewer("0.0.0.0", "bad-string")
  {
    ParseSampleMalformed();
    ParseSampleAllZero();
    LexIrreflexive(ZERO_PARTS);
    NewerBySlots("bad-string", "0.0.0.0", ZERO_PARTS, ZERO_PARTS);
    NewerBySlots("0.0.0.0", "bad-string", ZERO_PARTS, ZERO_PARTS);
  }

  /** "24.6" scans two fields and compares equal to "24.6.0.0". */
  lemma TwoFieldsPadded()
    ensures Parse("24.6") == Parse("24.6.0.0")
    ensures !VersionNewer("24.6", "24.6.0.0") && !VersionNewer("24.6.0.0", "24.6")
  {
    ParseSample246Short();
    ParseSample246Padded();
    var p: Parts := [24, 6, 0, 0];
    LexIrreflexive(p);
    NewerBySlots("24.6", "24.6.0.0", p, p);
    NewerBySlots("24.6.0.0", "24.6", p, p);
  }
}
