/** Semantic versions: parsing, comparison, maximum and sorting (src/lib/semver.ts). */
module SemVer {
  import opened Wrappers
  import opened Text
  import opened Sorting

  datatype Parsed = Parsed(major: nat, minor: nat, patch: nat, prerelease: string)

  // ---- Text. ----

  predicate IsDigit(c: char) {
    '0' <= c <= '9'
  }

  predicate IsTagChar(c: char) {
    IsDigit(c) || 'a' <= c <= 'z' || 'A' <= c <= 'Z' || c == '.'
  }

  predicate AllDigits(s: string) {
    forall i :: 0 <= i < |s| ==> IsDigit(s[i])
  }

  predicate AllTag(s: string) {
    forall i :: 0 <= i < |s| ==> IsTagChar(s[i])
  }

  /** The longest run of digits at the front. */
  function Digits(s: string): (d: string)
    ensures d <= s && AllDigits(d)
  {
    if |s| > 0 && IsDigit(s[0]) then [s[0]] + Digits(s[1..]) else []
  }

  function Number(s: string): nat {
    if |s| == 0 then 0
    else 10 * Number(s[..|s| - 1]) + if IsDigit(s[|s| - 1]) then (s[|s| - 1] - '0') as nat else 0
  }

  function PowerOfTen(k: nat): nat {
    if k == 0 then 1 else 10 * PowerOfTen(k - 1)
  }

  /** The value of a numeral: each digit times the power of ten of its place. */
  function DecimalValue(s: string): nat
    requires AllDigits(s)
  {
    if |s| == 0 then 0 else (s[0] - '0') as nat * PowerOfTen(|s| - 1) + DecimalValue(s[1..])
  }

  lemma TenTimes(d: nat, p: nat)
    ensures d * (10 * p) == 10 * (d * p)
  {
  }

  lemma {:induction false} OneMoreDigit(s: string, c: char)
    requires AllDigits(s) && IsDigit(c)
    ensures AllDigits(s + [c]) && DecimalValue(s + [c]) == 10 * DecimalValue(s) + (c - '0') as nat
  {
    if |s| == 0 {
      assert s + [c] == [c] && [c][1..] == "";
      assert DecimalValue([c]) == (c - '0') as nat * PowerOfTen(0) + DecimalValue("");
    } else {
      OneMoreDigit(s[1..], c);
      assert (s + [c])[1..] == s[1..] + [c];
      TenTimes((s[0] - '0') as nat, PowerOfTen(|s| - 1));
    }
  }

  /** Reading digit by digit gives the value of the numeral. */
  lemma {:induction false} NumberIsDecimal(s: string)
    requires AllDigits(s)
    ensures Number(s) == DecimalValue(s)
  {
    if |s| > 0 {
      NumberIsDecimal(s[..|s| - 1]);
      OneMoreDigit(s[..|s| - 1], s[|s| - 1]);
      assert s == s[..|s| - 1] + [s[|s| - 1]];
    }
  }

  lemma {:induction false} BelowPower(s: string)
    requires AllDigits(s)
    ensures Number(s) < PowerOfTen(|s|)
    ensures |s| > 0 && s[0] != '0' ==> Number(s) >= PowerOfTen(|s| - 1)
  {
    if |s| > 1 {
      BelowPower(s[..|s| - 1]);
    } else if |s| == 1 {
      assert s[..0] == "" && PowerOfTen(0) == 1;
    }
  }

  lemma {:induction false} PowersGrow(a: nat, b: nat)
    requires a <= b
    ensures PowerOfTen(a) <= PowerOfTen(b)
  {
    if a < b {
      PowersGrow(a, b - 1);
    }
  }

  /** A longer numeral without leading zeros is the larger: 10 is more than 9. */
  lemma LongerIsLarger(a: string, b: string)
    requires AllDigits(a) && AllDigits(b) && |a| > |b| && a[0] != '0'
    ensures Number(a) > Number(b)
  {
    BelowPower(a);
    BelowPower(b);
    PowersGrow(|b|, |a| - 1);
  }

  /** A number followed by a dot, and what comes after. */
  function NumberDot(s: string): Option<(string, string)> {
    var d := Digits(s);
    if |d| > 0 && |d| < |s| && s[|d|] == '.' then Some((d, s[|d| + 1..])) else None
  }

  function ParseTail(major: string, minor: string, s: string): Option<Parsed> {
    var d := Digits(s);
    var rest := s[|d|..];
    if |d| == 0 then None
    else if |rest| == 0 then Some(Parsed(Number(major), Number(minor), Number(d), ""))
    else if rest[0] == '-' && |rest| > 1 && AllTag(rest[1..])
    then Some(Parsed(Number(major), Number(minor), Number(d), rest[1..]))
    else None
  }

  function Parse(version: string): Option<Parsed> {
    if |version| == 0 then None
    else
      match NumberDot(Trim(version))
      case None => None
      case Some((major, rest)) =>
        match NumberDot(rest)
        case None => None
        case Some((minor, tail)) => ParseTail(major, minor, tail)
  }

  /** Written with the digits 0 to 9 only. */
  ghost predicate Decimal(s: string) {
    forall i :: 0 <= i < |s| ==> '0' <= s[i] <= '9'
  }

  /** The language of the version pattern: three numbers, and a tag after a hyphen or nothing. */
  ghost predicate Shape(s: string, major: string, minor: string, patch: string, tag: string) {
    && |major| > 0 && |minor| > 0 && |patch| > 0
    && Decimal(major) && Decimal(minor) && Decimal(patch)
    && (forall i :: 0 <= i < |tag| ==>
          '0' <= tag[i] <= '9' || 'a' <= tag[i] <= 'z' || 'A' <= tag[i] <= 'Z' || tag[i] == '.')
    && s == major + "." + minor + "." + patch + (if |tag| > 0 then "-" + tag else "")
  }

  lemma {:induction false} DigitsThen(d: string, rest: string)
    requires AllDigits(d) && (|rest| > 0 ==> !IsDigit(rest[0]))
    ensures Digits(d + rest) == d
  {
    if |d| == 0 {
      assert d + rest == rest;
    } else {
      DigitsThen(d[1..], rest);
      assert (d + rest)[1..] == d[1..] + rest;
      assert d == [d[0]] + d[1..];
    }
  }

  lemma NumberDotAt(d: string, rest: string)
    requires |d| > 0 && AllDigits(d)
    ensures NumberDot(d + "." + rest) == Some((d, rest))
  {
    assert d + "." + rest == d + ("." + rest);
    DigitsThen(d, "." + rest);
  }

  lemma ShapeParts(s: string, major: string, minor: string, patch: string, tag: string)
    requires Shape(s, major, minor, patch, tag)
    ensures AllDigits(major) && AllDigits(minor) && AllDigits(patch) && AllTag(tag)
    ensures s == major + "." + (minor + "." + (patch + if |tag| > 0 then "-" + tag else ""))
  {
  }

  lemma TailShape(major: string, minor: string, patch: string, tag: string)
    requires |patch| > 0 && AllDigits(patch) && AllTag(tag)
    ensures ParseTail(major, minor, patch + if |tag| > 0 then "-" + tag else "") ==
            Some(Parsed(Number(major), Number(minor), Number(patch), tag))
  {
    var suffix := if |tag| > 0 then "-" + tag else "";
    DigitsThen(patch, suffix);
    assert (patch + suffix)[|patch|..] == suffix;
    if |tag| > 0 {
      assert suffix[1..] == tag;
    }
  }

  lemma ParseShape(version: string, major: string, minor: string, patch: string, tag: string)
    requires |version| > 0 && Shape(Trim(version), major, minor, patch, tag)
    ensures Parse(version) == Some(Parsed(Number(major), Number(minor), Number(patch), tag))
  {
    ShapeParts(Trim(version), major, minor, patch, tag);
    var tail := patch + if |tag| > 0 then "-" + tag else "";
    NumberDotAt(major, minor + "." + tail);
    NumberDotAt(minor, tail);
    TailShape(major, minor, patch, tag);
  }

  lemma NumberDotSplits(s: string)
    ensures NumberDot(s).Some? ==> var (d, rest) := NumberDot(s).value; |d| > 0 && AllDigits(d) && s == d + "." + rest
  {
  }

  lemma ParseTailSplits(major: string, minor: string, s: string)
    ensures var p := ParseTail(major, minor, s);
            p.Some? ==>
              var patch := Digits(s);
              && |patch| > 0 && AllTag(p.value.prerelease)
              && s == patch + (if |p.value.prerelease| > 0 then "-" + p.value.prerelease else "")
              && p.value == Parsed(Number(major), Number(minor), Number(patch), p.value.prerelease)
  {
    var patch := Digits(s);
    assert s == patch + s[|patch|..];
    if |s[|patch|..]| > 1 {
      assert s[|patch|..] == [s[|patch|..][0]] + s[|patch|..][1..];
    }
  }

  lemma ParsedHasShape(version: string) returns (major: string, minor: string, patch: string)
    requires Parse(version).Some?
    ensures var p := Parse(version).value;
            && Shape(Trim(version), major, minor, patch, p.prerelease)
            && p == Parsed(Number(major), Number(minor), Number(patch), p.prerelease)
  {
    var s := Trim(version);
    NumberDotSplits(s);
    var rest, tail;
    major, rest := NumberDot(s).value.0, NumberDot(s).value.1;
    NumberDotSplits(rest);
    minor, tail := NumberDot(rest).value.0, NumberDot(rest).value.1;
    ParseTailSplits(major, minor, tail);
    patch := Digits(tail);
    var tag := Parse(version).value.prerelease;
    Regroup(major, minor, patch + if |tag| > 0 then "-" + tag else "");
    Regroup'(major, minor, patch, if |tag| > 0 then "-" + tag else "");
  }

  lemma Regroup(major: string, minor: string, tail: string)
    ensures major + "." + (minor + "." + tail) == major + "." + minor + "." + tail
  {
  }

  lemma Regroup'(major: string, minor: string, patch: string, suffix: string)
    ensures major + "." + minor + "." + (patch + suffix) == major + "." + minor + "." + patch + suffix
  {
  }

  ghost predicate Denotes(version: string, p: Parsed, major: string, minor: string, patch: string) {
    && Shape(Trim(version), major, minor, patch, p.prerelease)
    && p == Parsed(DecimalValue(major), DecimalValue(minor), DecimalValue(patch), p.prerelease)
  }

  lemma ThreeDecimals(major: string, minor: string, patch: string)
    requires AllDigits(major) && AllDigits(minor) && AllDigits(patch)
    ensures Number(major) == DecimalValue(major) && Number(minor) == DecimalValue(minor)
    ensures Number(patch) == DecimalValue(patch)
  {
    NumberIsDecimal(major);
    NumberIsDecimal(minor);
    NumberIsDecimal(patch);
  }

  /** A version parses, and to these values, exactly when its trimmed text has the pattern's shape. */
  lemma ParseIff(version: string, p: Parsed)
    ensures Parse(version) == Some(p) <==>
              |version| > 0 && exists major, minor, patch :: Denotes(version, p, major, minor, patch)
  {
    if Parse(version) == Some(p) {
      var major, minor, patch := ParsedHasShape(version);
      ThreeDecimals(major, minor, patch);
      assert Denotes(version, p, major, minor, patch);
    }
    if |version| > 0 && exists major, minor, patch :: Denotes(version, p, major, minor, patch) {
      var major, minor, patch :| Denotes(version, p, major, minor, patch);
      ThreeDecimals(major, minor, patch);
      ParseShape(version, major, minor, patch, p.prerelease);
    }
  }

  // ---- Order. ----

  function CompareParsed(a: Parsed, b: Parsed): int {
    if a.major != b.major then a.major - b.major
    else if a.minor != b.minor then a.minor - b.minor
    else if a.patch != b.patch then a.patch - b.patch
    else if a.prerelease == b.prerelease then 0
    else if a.prerelease == "" then 1
    else if b.prerelease == "" then -1
    else if TextLess(a.prerelease, b.prerelease) then -1
    else 1
  }

  /** Versions that do not parse come before all that do. */
  function Compare(a: string, b: string): int {
    match (Parse(a), Parse(b))
    case (None, None) => 0
    case (None, Some(_)) => -1
    case (Some(_), None) => 1
    case (Some(pa), Some(pb)) => CompareParsed(pa, pb)
  }

  /** A release comes after all its prereleases; of two prereleases the one whose tag is less as a text comes first. */
  ghost predicate TagBefore(a: string, b: string) {
    a != "" && (b == "" || exists k: nat :: LessAt(a, b, k))
  }

  /** Major, minor and patch decide in this order, as numbers, and then the tags. */
  ghost predicate VersionBefore(a: Parsed, b: Parsed) {
    || a.major < b.major
    || (a.major == b.major && a.minor < b.minor)
    || (a.major == b.major && a.minor == b.minor && a.patch < b.patch)
    || (a.major == b.major && a.minor == b.minor && a.patch == b.patch && TagBefore(a.prerelease, b.prerelease))
  }

  lemma ParsedDecides(a: Parsed, b: Parsed)
    ensures CompareParsed(a, b) < 0 <==> VersionBefore(a, b)
    ensures CompareParsed(a, b) > 0 <==> VersionBefore(b, a)
    ensures CompareParsed(a, b) == 0 <==> a == b
  {
    TextLessIff(a.prerelease, b.prerelease);
    TextLessIff(b.prerelease, a.prerelease);
    TextLessTotal(a.prerelease, b.prerelease);
  }

  /** Of two versions that parse to `p` and `q`, the sign of the comparison says which comes first. */
  lemma CompareDecides(a: string, b: string, p: Parsed, q: Parsed)
    requires Parse(a) == Some(p) && Parse(b) == Some(q)
    ensures Compare(a, b) < 0 <==> VersionBefore(p, q)
    ensures Compare(a, b) > 0 <==> VersionBefore(q, p)
  {
    ParsedDecides(p, q);
  }

  /** Swapping the arguments swaps the sign; equality is parsing to the same value, or both not parsing. */
  lemma CompareAntisymmetric(a: string, b: string)
    ensures Compare(a, b) > 0 <==> Compare(b, a) < 0
    ensures Compare(a, b) == 0 <==> Parse(a) == Parse(b)
  {
    if Parse(a).Some? && Parse(b).Some? {
      TextLessTotal(Parse(a).value.prerelease, Parse(b).value.prerelease);
    }
  }

  lemma CompareParsedTransitive(a: Parsed, b: Parsed, c: Parsed)
    requires CompareParsed(a, b) <= 0 && CompareParsed(b, c) <= 0
    ensures CompareParsed(a, c) <= 0
    ensures CompareParsed(a, c) == 0 ==> CompareParsed(a, b) == 0 && CompareParsed(b, c) == 0
  {
    TextLessTotal(a.prerelease, b.prerelease);
    TextLessTotal(b.prerelease, c.prerelease);
    TextLessTotal(a.prerelease, c.prerelease);
    if TextLess(a.prerelease, b.prerelease) && TextLess(b.prerelease, c.prerelease) {
      TextLessTransitive(a.prerelease, b.prerelease, c.prerelease);
    }
  }

  lemma CompareTransitive(a: string, b: string, c: string)
    requires Compare(a, b) <= 0 && Compare(b, c) <= 0
    ensures Compare(a, c) <= 0
    ensures Compare(a, c) == 0 ==> Compare(a, b) == 0 && Compare(b, c) == 0
  {
    if Parse(a).Some? && Parse(b).Some? && Parse(c).Some? {
      CompareParsedTransitive(Parse(a).value, Parse(b).value, Parse(c).value);
    }
  }

  /** The order is total on all strings: what does not parse is one class at the bottom. */
  lemma CompareIsTotalPreorder()
    ensures TotalPreorder(Compare)
    ensures forall a, b :: Parse(a).None? ==> Compare(a, b) <= 0 && (Compare(a, b) == 0 <==> Parse(b).None?)
  {
    forall a, b ensures Opposite(Compare, a, b) {
      CompareAntisymmetric(a, b);
      CompareAntisymmetric(b, a);
    }
    forall a, b, c ensures Chains(Compare, a, b, c) {
      if Compare(a, b) <= 0 && Compare(b, c) <= 0 {
        CompareTransitive(a, b, c);
      }
    }
  }

  // ---- Maximum. ----

  predicate Parses(version: string) {
    Parse(version).Some?
  }

  /**
   * Null exactly when nothing parses; else the first listed of the versions that are at least every version that
   * parses.
   */
  method Max(versions: seq<string>) returns (best: Option<string>)
    ensures best.None? <==> forall i :: 0 <= i < |versions| ==> !Parses(versions[i])
    ensures best.Some? ==> exists i: nat :: FirstBest(versions, i, Parses, Compare) && versions[i] == best.value
  {
    best := None;
    ghost var at: nat := 0;
    ghost var counts, cmp := Parses, Compare;
    CompareIsTotalPreorder();
    for k := 0 to |versions|
      invariant BestSoFar(versions[..k], best, at, counts, cmp)
    {
      var v := versions[k];
      BestSoFarAdds(versions[..k], best, at, v, counts, cmp);
      assert versions[..k + 1] == versions[..k] + [v];
      if Parses(v) && (best.None? || Compare(v, best.value) > 0) {
        best := Some(v);
        at := k;
      }
    }
    assert versions[..|versions|] == versions;
  }

  // ---- Sorting. ----

  /** A row with a version, and whatever else it holds. */
  datatype Versioned<T> = Versioned(version: string, payload: T)

  /** `SemVer.compare(b.version, a.version)` */
  function HighestFirst<T>(): (Versioned<T>, Versioned<T>) -> int {
    (a: Versioned<T>, b: Versioned<T>) => Compare(b.version, a.version)
  }

  function SortDesc<T>(rows: seq<Versioned<T>>): seq<Versioned<T>> {
    Sort(rows, HighestFirst())
  }

  lemma HighestFirstIsTotalPreorder<T(!new)>()
    ensures TotalPreorder(HighestFirst<T>())
  {
    var cmp := HighestFirst<T>();
    forall a, b ensures Opposite(cmp, a, b) {
      CompareAntisymmetric(a.version, b.version);
      CompareAntisymmetric(b.version, a.version);
    }
    forall a, b, c ensures Chains(cmp, a, b, c) {
      if cmp(a, b) <= 0 && cmp(b, c) <= 0 {
        CompareTransitive(c.version, b.version, a.version);
      }
    }
  }

  /** The rows themselves, highest first, ties in their original order; and only one list is that. */
  lemma SortDescCorrect<T(!new)>(rows: seq<Versioned<T>>, other: seq<Versioned<T>>)
    ensures Ordered(SortDesc(rows), HighestFirst()) && multiset(SortDesc(rows)) == multiset(rows)
    ensures forall x :: Ties(SortDesc(rows), x, HighestFirst()) == Ties(rows, x, HighestFirst())
    ensures (&& Ordered(other, HighestFirst()) && multiset(other) == multiset(rows)
             && forall x :: Ties(other, x, HighestFirst()) == Ties(rows, x, HighestFirst())) ==> other == SortDesc(rows)
  {
    var cmp := HighestFirst<T>();
    HighestFirstIsTotalPreorder<T>();
    SortOrders(rows, cmp);
    SortPermutes(rows, cmp);
    forall x ensures Ties(SortDesc(rows), x, cmp) == Ties(rows, x, cmp) {
      SortStable(rows, cmp, x);
    }
    if Ordered(other, cmp) && multiset(other) == multiset(rows)
       && forall x :: Ties(other, x, cmp) == Ties(rows, x, cmp)
    {
      forall x ensures Ties(other, x, cmp) == Ties(SortDesc(rows), x, cmp) {
        assert Ties(other, x, cmp) == Ties(rows, x, cmp);
      }
      StableSortUnique(other, SortDesc(rows), cmp);
    }
  }

  /** The head of the sorted list ties with the maximum of the rows' versions, when any of them parses. */
  lemma HeadIsMax<T(!new)>(rows: seq<Versioned<T>>, versions: seq<string>, i: nat)
    requires |versions| == |rows| && forall k :: 0 <= k < |rows| ==> versions[k] == rows[k].version
    requires FirstBest(versions, i, Parses, Compare)
    ensures |SortDesc(rows)| > 0 && Compare(SortDesc(rows)[0].version, versions[i]) == 0
  {
    HighestFirstIsTotalPreorder<T>();
    var cmp := HighestFirst<T>();
    var r := SortDesc(rows);
    SortOrders(rows, cmp);
    SortPermutes(rows, cmp);
    assert rows[i] in multiset(rows);
    var j :| 0 <= j < |r| && r[j] == rows[i];
    assert r[0] in multiset(rows);
    var k :| 0 <= k < |rows| && rows[k] == r[0];
    assert versions[k] == r[0].version;
    CompareAntisymmetric(versions[i], r[0].version);
  }
}
