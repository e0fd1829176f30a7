/**
 * Seeding the agent catalog (src/lib/seed.ts seed_agent_catalog): the zero-padded version comparison, the insert of
 * missing rows, and the upgrade of each name's newest row.
 */
module SeedCatalog {
  import opened Wrappers
  import opened Text
  import opened SemVer

  // ---- Version tuples. ----

  predicate IsSeparator(c: char) {
    c == '.' || c == '+' || c == '-'
  }

  /** `split(/[.+-]/)` */
  function Split(s: string): (parts: seq<string>)
    ensures |parts| > 0
  {
    if |s| == 0 then [""]
    else
      var rest := Split(s[1..]);
      if IsSeparator(s[0]) then [""] + rest else [[s[0]] + rest[0]] + rest[1..]
  }

  /** `parseInt(p, 10)`, with 0 for text that starts with no number (a part never holds a sign). */
  function LeadingNumber(p: string): nat {
    Number(Digits(TrimLeft(p)))
  }

  /** Parts with separators between them. */
  function Joined(parts: seq<string>, separators: string): string
    requires |parts| == |separators| + 1
  {
    if |separators| == 0 then parts[0] else parts[0] + [separators[0]] + Joined(parts[1..], separators[1..])
  }

  /** A text is split at every dot, plus and hyphen, and nowhere else. */
  lemma {:induction false} SplitIs(s: string) returns (separators: string)
    ensures |Split(s)| == |separators| + 1 && s == Joined(Split(s), separators)
    ensures forall c :: c in separators ==> c == '.' || c == '+' || c == '-'
    ensures forall part :: part in Split(s) ==> '.' !in part && '+' !in part && '-' !in part
  {
    SplitParts(s);
    separators := "";
    if |s| > 0 {
      var later := SplitIs(s[1..]);
      assert s == [s[0]] + s[1..];
      if IsSeparator(s[0]) {
        separators := [s[0]] + later;
        assert Split(s)[1..] == Split(s[1..]) && separators[1..] == later;
      } else {
        separators := later;
        assert Split(s)[1..] == Split(s[1..])[1..];
      }
    }
  }

  lemma {:induction false} SplitParts(s: string)
    ensures forall part :: part in Split(s) ==> '.' !in part && '+' !in part && '-' !in part
  {
    if |s| > 0 {
      var rest := Split(s[1..]);
      SplitParts(s[1..]);
      assert rest[0] in rest && forall part :: part in rest[1..] ==> part in rest;
    }
  }

  /** A part counts as the number its leading digits write, after any white space, and as zero without any. */
  lemma LeadingNumberIs(p: string) returns (front: string, digits: string, rest: string)
    ensures p == front + digits + rest && AllSpaces(front) && Decimal(digits)
    ensures |rest| > 0 ==> !('0' <= rest[0] <= '9')
    ensures |digits| == 0 && |rest| > 0 ==> !IsSpace(rest[0])
    ensures AllDigits(digits) && LeadingNumber(p) == DecimalValue(digits)
  {
    front := TrimLeftIs(p);
    digits := Digits(TrimLeft(p));
    rest := TrimLeft(p)[|digits|..];
    NumberIsDecimal(digits);
    DigitsEnd(TrimLeft(p));
  }

  lemma {:induction false} DigitsEnd(s: string)
    ensures |Digits(s)| < |s| ==> !IsDigit(s[|Digits(s)|])
  {
    if |s| > 0 && IsDigit(s[0]) {
      DigitsEnd(s[1..]);
    }
  }

  function Numbers(parts: seq<string>): seq<nat> {
    if |parts| == 0 then [] else [LeadingNumber(parts[0])] + Numbers(parts[1..])
  }

  function VersionTuple(v: string): seq<nat> {
    if |v| == 0 then [0] else Numbers(Split(v))
  }

  function At(t: seq<nat>, i: nat): nat {
    if i < |t| then t[i] else 0
  }

  /** The first place where the padded tuples differ has the larger number in `a`. */
  ghost predicate Above(a: seq<nat>, b: seq<nat>) {
    exists k: nat :: AboveAt(a, b, k)
  }

  ghost predicate AboveAt(a: seq<nat>, b: seq<nat>, k: nat) {
    At(a, k) > At(b, k) && forall j :: 0 <= j < k ==> At(a, j) == At(b, j)
  }

  ghost predicate SamePadded(a: seq<nat>, b: seq<nat>) {
    forall j: nat :: At(a, j) == At(b, j)
  }

  /** The index loop of `is_newer`. */
  method CompareTuples(a: seq<nat>, b: seq<nat>) returns (newer: bool)
    ensures newer <==> Above(a, b)
  {
    var len := if |a| > |b| then |a| else |b|;
    for i := 0 to len
      invariant forall j :: 0 <= j < i ==> At(a, j) == At(b, j)
    {
      if At(a, i) > At(b, i) {
        assert AboveAt(a, b, i);
        return true;
      }
      if At(a, i) < At(b, i) {
        assert AboveAt(b, a, i);
        AboveTrichotomy(a, b);
        return false;
      }
    }
    assert forall k: nat :: k >= len ==> At(a, k) == At(b, k) == 0;
    return false;
  }

  ghost predicate IsNewer(candidate: string, existing: string) {
    Above(VersionTuple(candidate), VersionTuple(existing))
  }

  lemma {:induction false} FirstDifference(a: seq<nat>, b: seq<nat>, m: nat) returns (k: nat)
    requires At(a, m) != At(b, m)
    ensures AboveAt(a, b, k) || AboveAt(b, a, k)
  {
    if j: nat :| j < m && At(a, j) != At(b, j) {
      k := FirstDifference(a, b, j);
    } else {
      k := m;
    }
  }

  /** Exactly one of: newer, older, the same when padded with zeros. */
  lemma AboveTrichotomy(a: seq<nat>, b: seq<nat>)
    ensures Above(a, b) || Above(b, a) || SamePadded(a, b)
    ensures !(Above(a, b) && Above(b, a)) && !(Above(a, b) && SamePadded(a, b))
  {
    if !SamePadded(a, b) {
      var m: nat :| At(a, m) != At(b, m);
      var k := FirstDifference(a, b, m);
    }
    if Above(a, b) {
      var k: nat :| AboveAt(a, b, k);
      assert At(a, k) != At(b, k);
    }
  }

  lemma AboveTransitive(a: seq<nat>, b: seq<nat>, c: seq<nat>)
    requires Above(a, b) && Above(b, c)
    ensures Above(a, c)
  {
    var k: nat :| AboveAt(a, b, k);
    var m: nat :| AboveAt(b, c, m);
    assert AboveAt(a, c, if k < m then k else m);
  }

  lemma SamePaddedLeft(a: seq<nat>, a': seq<nat>, b: seq<nat>)
    requires SamePadded(a, a')
    ensures Above(a, b) <==> Above(a', b)
    ensures Above(b, a) <==> Above(b, a')
  {
    forall k | AboveAt(a, b, k) ensures AboveAt(a', b, k) {}
    forall k | AboveAt(a', b, k) ensures AboveAt(a, b, k) {}
    forall k | AboveAt(b, a, k) ensures AboveAt(b, a', k) {}
    forall k | AboveAt(b, a', k) ensures AboveAt(b, a, k) {}
  }

  /** `is_newer` is a strict weak order: not newer than and not newer than chain. */
  lemma NotNewerTransitive(a: string, b: string, c: string)
    requires !IsNewer(a, b) && !IsNewer(b, c)
    ensures !IsNewer(a, c)
  {
    var ta, tb, tc := VersionTuple(a), VersionTuple(b), VersionTuple(c);
    AboveTrichotomy(ta, tb);
    AboveTrichotomy(tb, tc);
    AboveTrichotomy(ta, tc);
    if SamePadded(ta, tb) {
      SamePaddedLeft(ta, tb, tc);
    } else if SamePadded(tb, tc) {
      SamePaddedLeft(tb, tc, ta);
    } else {
      AboveTransitive(tc, tb, ta);
    }
  }

  // ---- Agreement with semantic version comparison. ----

  ghost predicate PlainVersion(s: string, major: string, minor: string, patch: string) {
    Shape(s, major, minor, patch, "")
  }

  lemma {:induction false} SplitDigits(d: string, rest: string)
    requires AllDigits(d)
    ensures Split(d + "." + rest) == [d] + Split(rest)
    ensures Split(d) == [d]
  {
    if |d| == 0 {
      assert d + "." + rest == "." + rest;
      assert ("." + rest)[1..] == rest;
    } else {
      SplitDigits(d[1..], rest);
      assert (d + "." + rest)[1..] == d[1..] + "." + rest;
      assert d == [d[0]] + d[1..];
    }
  }

  lemma DigitsAlone(d: string)
    requires AllDigits(d)
    ensures LeadingNumber(d) == Number(d)
  {
    DigitsThen(d, "");
    assert d + "" == d;
    assert |d| > 0 ==> IsDigit(d[0]) && !IsSpace(d[0]);
  }

  lemma PlainSplit(s: string, major: string, minor: string, patch: string)
    requires PlainVersion(s, major, minor, patch)
    ensures Split(s) == [major, minor, patch]
  {
    assert s == major + "." + (minor + "." + patch);
    SplitDigits(major, minor + "." + patch);
    SplitDigits(minor, patch);
    SplitDigits(patch, "");
  }

  lemma PlainTuple(s: string, major: string, minor: string, patch: string)
    requires PlainVersion(s, major, minor, patch)
    ensures VersionTuple(s) == [Number(major), Number(minor), Number(patch)]
  {
    PlainSplit(s, major, minor, patch);
    DigitsAlone(major);
    DigitsAlone(minor);
    DigitsAlone(patch);
    ThreeParts(major, minor, patch);
  }

  lemma ThreeParts(x: string, y: string, z: string)
    ensures Numbers([x, y, z]) == [LeadingNumber(x), LeadingNumber(y), LeadingNumber(z)]
  {
    assert [x, y, z][1..] == [y, z] && [y, z][1..] == [z] && [z][1..] == [];
    assert Numbers([z]) == [LeadingNumber(z)] + Numbers([]);
    assert Numbers([y, z]) == [LeadingNumber(y)] + Numbers([z]);
    assert Numbers([x, y, z]) == [LeadingNumber(x)] + Numbers([y, z]);
  }

  lemma PlainTrim(s: string, major: string, minor: string, patch: string)
    requires PlainVersion(s, major, minor, patch)
    ensures Trim(s) == s
  {
    assert s[0] == major[0] && !IsSpace(s[0]);
    assert s[|s| - 1] == patch[|patch| - 1] && !IsSpace(s[|s| - 1]);
  }

  lemma ThreeNumbers(a: seq<nat>, b: seq<nat>)
    requires |a| == 3 && |b| == 3
    ensures Above(a, b) <==> a[0] > b[0] || (a[0] == b[0] && (a[1] > b[1] || (a[1] == b[1] && a[2] > b[2])))
  {
    if a[0] > b[0] {
      assert AboveAt(a, b, 0);
    } else if a[0] == b[0] && a[1] > b[1] {
      assert AboveAt(a, b, 1);
    } else if a[0] == b[0] && a[1] == b[1] && a[2] > b[2] {
      assert AboveAt(a, b, 2);
    }
    if Above(a, b) {
      var k: nat :| AboveAt(a, b, k);
      assert At(a, 0) == a[0] && At(a, 1) == a[1] && At(a, 2) == a[2];
      assert k < 3;
    }
  }

  /** On plain `x.y.z` versions the seed's comparison and the semantic one agree. */
  lemma NewerAgreesWithCompare(a: string, b: string, a1: string, a2: string, a3: string, b1: string, b2: string,
                               b3: string)
    requires PlainVersion(a, a1, a2, a3) && PlainVersion(b, b1, b2, b3)
    ensures IsNewer(a, b) <==> Compare(a, b) > 0
  {
    PlainTuple(a, a1, a2, a3);
    PlainTuple(b, b1, b2, b3);
    PlainTrim(a, a1, a2, a3);
    PlainTrim(b, b1, b2, b3);
    ParseShape(a, a1, a2, a3, "");
    ParseShape(b, b1, b2, b3, "");
    ThreeNumbers(VersionTuple(a), VersionTuple(b));
  }

  // ---- The catalog. ----

  datatype CatalogRow = CatalogRow(org: Option<string>, name: string, version: Option<string>, manifest: string)

  /** A built-in agent as the seed carries it. */
  datatype Builtin = Builtin(name: string, version: string, manifest: string)

  function VersionText(version: Option<string>): string {
    if version.Some? then version.value else ""
  }

  predicate SameKey(a: CatalogRow, b: CatalogRow) {
    a.org == b.org && a.name == b.name && a.version == b.version
  }

  /** The catalog's unique index. */
  ghost predicate UniqueKeys(rows: seq<CatalogRow>) {
    forall i, j :: 0 <= i < j < |rows| ==> !SameKey(rows[i], rows[j])
  }

  function BuiltinRow(b: Builtin): CatalogRow {
    CatalogRow(None, b.name, Some(b.version), b.manifest)
  }

  /** Index `i` holds the name's newest row: no row of the name is newer. */
  ghost predicate NewestAt(rows: seq<CatalogRow>, name: string, i: nat) {
    && i < |rows| && rows[i].name == name
    && forall j :: 0 <= j < |rows| && rows[j].name == name ==>
         !IsNewer(VersionText(rows[j].version), VersionText(rows[i].version))
  }

  /** What a left-to-right search for the newest has found: no row of the name, or its newest. */
  ghost predicate NewestSoFar(rows: seq<CatalogRow>, name: string, at: Option<nat>) {
    match at
    case None => !HasName(rows, name)
    case Some(i) => NewestAt(rows, name, i)
  }

  ghost predicate Outdone(rows: seq<CatalogRow>, at: Option<nat>, row: CatalogRow)
    requires at.Some? ==> at.value < |rows|
  {
    at.None? || IsNewer(VersionText(row.version), VersionText(rows[at.value].version))
  }

  lemma NewestAdds(rows: seq<CatalogRow>, name: string, at: Option<nat>, row: CatalogRow)
    requires NewestSoFar(rows, name, at)
    ensures row.name == name && Outdone(rows, at, row) ==> NewestSoFar(rows + [row], name, Some(|rows|))
    ensures row.name != name || !Outdone(rows, at, row) ==> NewestSoFar(rows + [row], name, at)
  {
    var now := rows + [row];
    assert forall j :: 0 <= j < |rows| ==> now[j] == rows[j];
    if row.name == name && at.Some? && Outdone(rows, at, row) {
      var best := VersionText(rows[at.value].version);
      AboveTrichotomy(VersionTuple(VersionText(row.version)), VersionTuple(best));
      forall j | 0 <= j < |rows| && rows[j].name == name
        ensures !IsNewer(VersionText(rows[j].version), VersionText(row.version))
      {
        NotNewerTransitive(VersionText(rows[j].version), best, VersionText(row.version));
      }
    }
  }

  /** Some row of the name is at least as new as `v`. */
  ghost predicate Reaches(rows: seq<CatalogRow>, name: string, v: string) {
    exists j :: 0 <= j < |rows| && rows[j].name == name && !IsNewer(v, VersionText(rows[j].version))
  }

  lemma ReachesByNewest(rows: seq<CatalogRow>, name: string, v: string, i: nat)
    requires NewestAt(rows, name, i)
    ensures Reaches(rows, name, v) <==> !IsNewer(v, VersionText(rows[i].version))
  {
    if Reaches(rows, name, v) {
      var j :| 0 <= j < |rows| && rows[j].name == name && !IsNewer(v, VersionText(rows[j].version));
      NotNewerTransitive(v, VersionText(rows[j].version), VersionText(rows[i].version));
    }
  }

  /** No name's newest version went down. */
  ghost predicate NeverLowered(before: seq<CatalogRow>, now: seq<CatalogRow>) {
    forall name, v :: Reaches(before, name, v) ==> Reaches(now, name, v)
  }

  ghost predicate HasName(rows: seq<CatalogRow>, name: string) {
    exists j :: 0 <= j < |rows| && rows[j].name == name
  }

  /** Nothing is left to do for a built-in: its name has no row, or one at least as new. */
  ghost predicate UpToDate(rows: seq<CatalogRow>, b: Builtin) {
    HasName(rows, b.name) ==> Reaches(rows, b.name, b.version)
  }

  function Upgraded(row: CatalogRow, b: Builtin): CatalogRow {
    row.(version := Some(b.version), manifest := b.manifest)
  }

  ghost predicate IsInserted(builtins: seq<Builtin>, row: CatalogRow) {
    exists b :: b in builtins && row == CatalogRow(None, b.name, Some(b.version), b.manifest)
  }

  /** A row is as it was, or carries a built-in of its own name. */
  ghost predicate KeptOrUpgraded(builtins: seq<Builtin>, before: CatalogRow, now: CatalogRow) {
    now == before
    || exists b :: b in builtins && b.name == before.name
         && now == CatalogRow(before.org, before.name, Some(b.version), b.manifest)
  }

  /** Writing a newer version over the newest row of a name. */
  lemma UpgradeKeeps(rows: seq<CatalogRow>, b: Builtin, i: nat)
    requires NewestAt(rows, b.name, i) && IsNewer(b.version, VersionText(rows[i].version))
    ensures var now := rows[i := Upgraded(rows[i], b)];
            && (UniqueKeys(rows) ==> UniqueKeys(now))
            && NeverLowered(rows, now)
            && UpToDate(now, b)
            && (forall name :: HasName(now, name) <==> HasName(rows, name))
  {
    var now := rows[i := Upgraded(rows[i], b)];
    assert forall j :: 0 <= j < |rows| && j != i ==> now[j] == rows[j];
    forall j | 0 <= j < |rows| && j != i && rows[j].name == b.name
      ensures rows[j].version != Some(b.version)
    {
      assert !IsNewer(VersionText(rows[j].version), VersionText(rows[i].version));
    }
    forall name, v | Reaches(rows, name, v)
      ensures Reaches(now, name, v)
    {
      var j :| 0 <= j < |rows| && rows[j].name == name && !IsNewer(v, VersionText(rows[j].version));
      if j == i {
        AboveTrichotomy(VersionTuple(b.version), VersionTuple(VersionText(rows[i].version)));
        NotNewerTransitive(v, VersionText(rows[i].version), b.version);
        assert now[i].name == name && !IsNewer(v, VersionText(now[i].version));
      } else {
        assert now[j].name == name && !IsNewer(v, VersionText(now[j].version));
      }
    }
    assert now[i].name == b.name && !IsNewer(b.version, VersionText(now[i].version));
    forall name ensures HasName(now, name) <==> HasName(rows, name) {
      if HasName(rows, name) {
        var j :| 0 <= j < |rows| && rows[j].name == name;
        assert now[j].name == name;
      }
      if HasName(now, name) {
        var j :| 0 <= j < |now| && now[j].name == name;
        assert rows[j].name == name;
      }
    }
  }

  /** One turn of the upgrade loop: keys stay unique, nothing is lowered, only a row of the name may change. */
  ghost predicate OneUpgrade(b: Builtin, before: seq<CatalogRow>, now: seq<CatalogRow>) {
    && |now| == |before|
    && (UniqueKeys(before) ==> UniqueKeys(now))
    && NeverLowered(before, now)
    && (forall name :: HasName(now, name) <==> HasName(before, name))
    && UpToDate(now, b)
    && (UpToDate(before, b) ==> now == before)
    && (forall j :: 0 <= j < |now| ==>
         now[j] == before[j] || (b.name == before[j].name && now[j] == Upgraded(before[j], b)))
  }

  /** The same over the first `n` built-ins. */
  ghost predicate Upgrades(builtins: seq<Builtin>, n: nat, before: seq<CatalogRow>, now: seq<CatalogRow>)
    requires n <= |builtins|
  {
    && |now| == |before|
    && (UniqueKeys(before) ==> UniqueKeys(now))
    && NeverLowered(before, now)
    && (forall name :: HasName(now, name) <==> HasName(before, name))
    && (forall j :: 0 <= j < n ==> UpToDate(now, builtins[j]))
    && ((forall b :: b in builtins ==> UpToDate(before, b)) ==> now == before)
    && (forall j :: 0 <= j < |now| ==> KeptOrUpgraded(builtins, before[j], now[j]))
  }

  lemma UpgradesOneMore(builtins: seq<Builtin>, n: nat, first: seq<CatalogRow>, before: seq<CatalogRow>,
                        now: seq<CatalogRow>)
    requires n < |builtins| && Upgrades(builtins, n, first, before) && OneUpgrade(builtins[n], before, now)
    ensures Upgrades(builtins, n + 1, first, now)
  {
    forall j | 0 <= j < n ensures UpToDate(now, builtins[j]) {}
    forall j | 0 <= j < |now| ensures KeptOrUpgraded(builtins, first[j], now[j]) {
      KeptChains(builtins, builtins[n], first[j], before[j], now[j]);
    }
  }

  lemma KeptChains(builtins: seq<Builtin>, b: Builtin, first: CatalogRow, mid: CatalogRow, last: CatalogRow)
    requires b in builtins && KeptOrUpgraded(builtins, first, mid)
    requires last == mid || (b.name == mid.name && last == Upgraded(mid, b))
    ensures KeptOrUpgraded(builtins, first, last)
  {
    if last != mid {
      assert last == Upgraded(first, b) && b.name == first.name;
    }
  }

  lemma ReachesGrows(before: seq<CatalogRow>, now: seq<CatalogRow>, name: string, v: string)
    requires before <= now && Reaches(before, name, v)
    ensures Reaches(now, name, v)
  {
    var j :| 0 <= j < |before| && before[j].name == name && !IsNewer(v, VersionText(before[j].version));
    assert now[j] == before[j];
  }

  /** What inserting the first `n` built-ins does: rows are only added, keys stay unique, each built-in is reached. */
  ghost predicate Inserts(builtins: seq<Builtin>, n: nat, before: seq<CatalogRow>, now: seq<CatalogRow>)
    requires n <= |builtins|
  {
    && before <= now
    && (UniqueKeys(before) ==> UniqueKeys(now))
    && (forall j :: 0 <= j < n ==> Reaches(now, builtins[j].name, builtins[j].version))
    && (forall k :: |before| <= k < |now| ==> IsInserted(builtins, now[k]))
  }

  lemma InsertsOneMore(builtins: seq<Builtin>, n: nat, first: seq<CatalogRow>, before: seq<CatalogRow>,
                       now: seq<CatalogRow>)
    requires n < |builtins| && Inserts(builtins, n, first, before)
    requires now == before || now == before + [BuiltinRow(builtins[n])]
    requires UniqueKeys(before) ==> UniqueKeys(now)
    requires Reaches(now, builtins[n].name, builtins[n].version)
    ensures Inserts(builtins, n + 1, first, now)
  {
    forall k | |first| <= k < |now| ensures IsInserted(builtins, now[k]) {
      assert k < |before| ==> now[k] == before[k];
    }
    forall j | 0 <= j < n ensures Reaches(now, builtins[j].name, builtins[j].version) {
      ReachesGrows(before, now, builtins[j].name, builtins[j].version);
    }
  }

  class Catalog {
    var rows: seq<CatalogRow>

    constructor (rows: seq<CatalogRow>)
      ensures this.rows == rows
    {
      this.rows := rows;
    }

    /** The newest row of a name, as the `reduce` over all rows of the name finds it. */
    method Newest(name: string) returns (at: Option<nat>)
      ensures NewestSoFar(rows, name, at)
    {
      at := None;
      for k := 0 to |rows|
        invariant NewestSoFar(rows[..k], name, at)
      {
        NewestAdds(rows[..k], name, at, rows[k]);
        assert rows[..k + 1] == rows[..k] + [rows[k]];
        if rows[k].name == name {
          if at.None? {
            at := Some(k);
          } else {
            var newer := CompareTuples(VersionTuple(VersionText(rows[k].version)),
                                       VersionTuple(VersionText(rows[at.value].version)));
            if newer {
              at := Some(k);
            }
          }
        }
      }
      assert rows[..|rows|] == rows;
    }

    /** One built-in: inserted unless its key is there; a key that is there is left alone. */
    method InsertOne(b: Builtin)
      modifies this
      ensures rows == old(rows) || rows == old(rows) + [BuiltinRow(b)]
      ensures UniqueKeys(old(rows)) ==> UniqueKeys(rows)
      ensures Reaches(rows, b.name, b.version)
    {
      if exists k :: 0 <= k < |rows| && SameKey(rows[k], BuiltinRow(b)) {
        ghost var k :| 0 <= k < |rows| && SameKey(rows[k], BuiltinRow(b));
        assert !IsNewer(b.version, VersionText(rows[k].version));
      } else {
        rows := rows + [BuiltinRow(b)];
        assert !IsNewer(b.version, VersionText(rows[|rows| - 1].version));
      }
    }

    /** Insert each built-in whose key is not there yet. */
    method InsertMissing(builtins: seq<Builtin>)
      modifies this
      ensures old(rows) <= rows
      ensures UniqueKeys(old(rows)) ==> UniqueKeys(rows)
      ensures forall b :: b in builtins ==> Reaches(rows, b.name, b.version)
      ensures forall k :: |old(rows)| <= k < |rows| ==> IsInserted(builtins, rows[k])
    {
      for i := 0 to |builtins|
        invariant Inserts(builtins, i, old(rows), rows)
      {
        ghost var before := rows;
        InsertOne(builtins[i]);
        InsertsOneMore(builtins, i, old(rows), before, rows);
      }
    }

    /** One built-in: its name's newest row is overwritten when the built-in is newer. */
    method UpgradeOne(b: Builtin)
      modifies this
      ensures OneUpgrade(b, old(rows), rows)
    {
      var at := Newest(b.name);
      if at.Some? {
        var existing := rows[at.value];
        var newer := CompareTuples(VersionTuple(b.version), VersionTuple(VersionText(existing.version)));
        ReachesByNewest(rows, b.name, b.version, at.value);
        if newer {
          UpgradeKeeps(rows, b, at.value);
          rows := rows[at.value := Upgraded(existing, b)];
        }
      }
    }

    /**
     * The upgrade loop, from any catalog: keys stay unique, no name's newest version goes down, every built-in ends
     * up to date, and nothing at all changes when every built-in already was.
     */
    method UpgradeOutdated(builtins: seq<Builtin>)
      modifies this
      ensures UniqueKeys(old(rows)) ==> UniqueKeys(rows)
      ensures NeverLowered(old(rows), rows) && |rows| == |old(rows)|
      ensures forall b :: b in builtins ==> UpToDate(rows, b)
      ensures (forall b :: b in builtins ==> UpToDate(old(rows), b)) ==> rows == old(rows)
      ensures forall j :: 0 <= j < |rows| ==> KeptOrUpgraded(builtins, old(rows)[j], rows[j])
    {
      for i := 0 to |builtins|
        invariant Upgrades(builtins, i, old(rows), rows)
      {
        ghost var before := rows;
        UpgradeOne(builtins[i]);
        UpgradesOneMore(builtins, i, old(rows), before, rows);
      }
    }

    /** The whole seed: once missing rows are inserted, the upgrade loop has nothing left to change. */
    method Seed(builtins: seq<Builtin>)
      requires UniqueKeys(rows)
      modifies this
      ensures UniqueKeys(rows) && old(rows) <= rows
      ensures forall b :: b in builtins ==> Reaches(rows, b.name, b.version)
      ensures forall k :: |old(rows)| <= k < |rows| ==> IsInserted(builtins, rows[k])
    {
      InsertMissing(builtins);
      UpgradeOutdated(builtins);
    }
  }
}
