/**
 * Placeholders in an MCP server list and the settings they need (src/lib/mcp_settings.ts).
 * A server list is taken as parsed and validated, or as refused.
 */
module McpSettings {
  import opened Wrappers
  import opened Json
  import opened Sequences
  import opened Sorting
  import opened Text

  const MCP_SERVERS_KEY := "mcp.servers"
  const MCP_SERVERS_DESCRIPTION := "MCP servers this agent can use"
  const MCP_SECRET_PREFIX := "mcp.secrets."

  // ---- The placeholder pattern. ----

  predicate IsUpper(c: char) {
    'A' <= c <= 'Z'
  }

  predicate IsNameChar(c: char) {
    IsUpper(c) || '0' <= c <= '9' || c == '_'
  }

  /** `[A-Z][A-Z0-9_]{0,63}` */
  predicate IsName(s: string) {
    1 <= |s| <= 64 && IsUpper(s[0]) && forall i :: 0 <= i < |s| ==> IsNameChar(s[i])
  }

  function Placeholder(name: string): string {
    "${" + name + "}"
  }

  /** The longest run of name characters: it stops where the closing brace has to be. */
  function Run(s: string): (r: string)
    ensures |r| <= |s|
  {
    if |s| > 0 && IsNameChar(s[0]) then [s[0]] + Run(s[1..]) else ""
  }

  lemma {:induction false} RunIsLongest(s: string)
    ensures Run(s) <= s && forall i :: 0 <= i < |Run(s)| ==> IsNameChar(s[i])
    ensures |Run(s)| < |s| ==> !IsNameChar(s[|Run(s)|])
  {
    if |s| > 0 && IsNameChar(s[0]) {
      RunIsLongest(s[1..]);
      assert s == [s[0]] + s[1..];
    }
  }

  /** The pattern tried at the front of `s`. */
  function MatchFront(s: string): (r: Option<string>)
    ensures r.Some? ==> |r.value| + 3 <= |s|
  {
    if |s| < 2 || s[..2] != "${" then None
    else
      var run := Run(s[2..]);
      if IsName(run) && 2 + |run| < |s| && s[2 + |run|] == '}' then Some(run) else None
  }

  lemma RunIsName(name: string, rest: string)
    requires forall i :: 0 <= i < |name| ==> IsNameChar(name[i])
    requires |rest| > 0 && !IsNameChar(rest[0])
    ensures Run(name + rest) == name
  {
    var s := name + rest;
    var r := Run(s);
    RunIsLongest(s);
    assert s[|name|] == rest[0];
    assert forall i :: 0 <= i < |name| ==> s[i] == name[i];
    assert |r| <= |name| && |r| >= |name|;
  }

  lemma MatchFrontStands(s: string)
    ensures match MatchFront(s) case Some(name) => IsName(name) && Placeholder(name) <= s case None => true
  {
    match MatchFront(s)
    case Some(name) =>
      RunIsLongest(s[2..]);
      assert s == "${" + s[2..];
      assert s[2..][..|name|] == name;
      assert Placeholder(name) == s[..|name| + 3];
    case None =>
  }

  lemma PlaceholderMatches(name: string, rest: string)
    requires IsName(name)
    ensures MatchFront(Placeholder(name) + rest) == Some(name)
  {
    var s := Placeholder(name) + rest;
    assert s[2..] == name + ("}" + rest);
    RunIsName(name, "}" + rest);
    assert s[..2] == "${";
  }

  /** Trying the pattern at the front finds `name` exactly when `${name}` stands there. */
  lemma MatchFrontIff(s: string, name: string)
    ensures MatchFront(s) == Some(name) <==> IsName(name) && Placeholder(name) <= s
  {
    MatchFrontStands(s);
    if IsName(name) && Placeholder(name) <= s {
      var rest := s[|name| + 3..];
      assert s == Placeholder(name) + rest;
      PlaceholderMatches(name, rest);
    }
  }

  // ---- The left-to-right scan. ----

  /** What is found from position `i` on: past a match, or past one character. */
  function Scan(s: string, i: nat): set<string>
    decreases |s| - i
  {
    if i >= |s| then {}
    else match MatchFront(s[i..])
      case Some(name) => {name} + Scan(s, i + |name| + 3)
      case None => Scan(s, i + 1)
  }

  ghost predicate OccursAt(s: string, name: string, i: int) {
    0 <= i <= |s| && Placeholder(name) <= s[i..]
  }

  ghost predicate OccursFrom(s: string, name: string, from: int) {
    exists i :: from <= i && OccursAt(s, name, i)
  }

  ghost predicate Occurs(s: string, name: string) {
    OccursFrom(s, name, 0)
  }

  /** No placeholder starts inside another: after the dollar come only a brace and name characters. */
  lemma NoneInside(s: string, at: nat, found: string, name: string, i: nat)
    requires OccursAt(s, found, at) && IsName(found) && at < i < at + |found| + 3
    ensures !OccursAt(s, name, i)
  {
    assert s[i] == s[at..][i - at] == Placeholder(found)[i - at] != '$';
  }

  /** Skipping past each match misses nothing: the scan finds a name exactly when `${name}` occurs from there on. */
  lemma {:induction false} ScanFindsAll(s: string, from: nat, name: string)
    requires IsName(name) && from <= |s|
    ensures name in Scan(s, from) <==> OccursFrom(s, name, from)
    decreases |s| - from
  {
    if from == |s| {
      forall i | from <= i ensures !OccursAt(s, name, i) {
        assert |Placeholder(name)| > 0;
      }
    } else {
      MatchFrontIff(s[from..], name);
      assert OccursAt(s, name, from) <==> MatchFront(s[from..]) == Some(name);
      match MatchFront(s[from..]) {
        case Some(found) =>
          MatchFrontStands(s[from..]);
          ScanFindsAll(s, from + |found| + 3, name);
          forall i | from < i < from + |found| + 3 ensures !OccursAt(s, name, i) {
            NoneInside(s, from, found, name, i);
          }
        case None =>
          ScanFindsAll(s, from + 1, name);
      }
    }
  }

  lemma {:induction false} ScanFindsNames(s: string, from: nat)
    requires from <= |s|
    ensures forall name :: name in Scan(s, from) ==> IsName(name)
    decreases |s| - from
  {
    if from < |s| {
      match MatchFront(s[from..]) {
        case Some(found) => ScanFindsNames(s, from + |found| + 3);
        case None => ScanFindsNames(s, from + 1);
      }
    }
  }

  /** The scan as it runs over one string. */
  method ScanInto(s: string, names: set<string>) returns (more: set<string>)
    ensures more == names + Scan(s, 0)
  {
    more := names;
    var i := 0;
    ghost var all := names + Scan(s, 0);
    while i < |s|
      invariant 0 <= i <= |s| && more + Scan(s, i) == all
    {
      var here := MatchFront(s[i..]);
      if here.Some? {
        more := more + {here.value};
        i := i + |here.value| + 3;
      } else {
        i := i + 1;
      }
    }
  }

  // ---- The strings of a server list. ----

  /** The text values among `Object.values(v ?? {})`. */
  function TextValues(v: Option<Json>): set<string> {
    match v
    case Some(JObject(fields)) => set k | k in fields && fields[k].JString? :: fields[k].value
    case Some(JArray(items)) => set j | j in items && j.JString? :: j.value
    case Some(JString(s)) => set c | c in s :: [c]
    case _ => {}
  }

  function Only(v: Option<Json>): set<string> {
    if v.Some? && v.value.JString? then {v.value.value} else {}
  }

  function ArrayTexts(v: Option<Json>): set<string> {
    if v.Some? && v.value.JArray? then TextValues(v) else {}
  }

  /** Where placeholders are looked for in one server. */
  function ServerTexts(server: Json): set<string> {
    Only(Field(server, "url")) + Only(Field(server, "command")) + ArrayTexts(Field(server, "args"))
    + TextValues(Field(server, "headers")) + TextValues(Field(server, "env"))
  }

  /** A name the scan finds in one of these servers. */
  ghost predicate Scanned(servers: set<Json>, name: string) {
    exists server, text :: server in servers && text in ServerTexts(server) && name in Scan(text, 0)
  }

  /** `${name}` stands somewhere in the text. */
  ghost predicate Writes(text: string, name: string) {
    exists i :: 0 <= i <= |text| && "${" + name + "}" <= text[i..]
  }

  ghost predicate TextWrites(v: Json, name: string) {
    v.JString? && Writes(v.value, name)
  }

  /** A list of values that has a text with `${name}`. */
  ghost predicate SomeItemWrites(v: Json, name: string) {
    v.JArray? && exists item :: item in v.items && TextWrites(item, name)
  }

  ghost predicate SomeFieldWrites(v: Json, name: string) {
    v.JObject? && exists key :: key in v.fields && TextWrites(v.fields[key], name)
  }

  /** A server uses a name in its url, its command, one of its args, or a value of its headers or its environment. */
  ghost predicate ServerUses(server: Json, name: string) {
    && server.JObject?
    && (|| ("url" in server.fields && TextWrites(server.fields["url"], name))
        || ("command" in server.fields && TextWrites(server.fields["command"], name))
        || ("args" in server.fields && SomeItemWrites(server.fields["args"], name))
        || ("headers" in server.fields && (SomeFieldWrites(server.fields["headers"], name)
                                           || SomeItemWrites(server.fields["headers"], name)))
        || ("env" in server.fields && (SomeFieldWrites(server.fields["env"], name)
                                       || SomeItemWrites(server.fields["env"], name))))
  }

  ghost predicate Used(servers: map<string, Json>, name: string) {
    exists key :: key in servers && ServerUses(servers[key], name)
  }

  lemma WritesIsOccurs(text: string, name: string)
    ensures Writes(text, name) <==> Occurs(text, name)
  {
    assert Placeholder(name) == "${" + name + "}";
    if i :| 0 <= i <= |text| && "${" + name + "}" <= text[i..] {
      assert OccursAt(text, name, i);
    }
    if Occurs(text, name) {
      var i :| 0 <= i && OccursAt(text, name, i);
      assert "${" + name + "}" <= text[i..];
    }
  }

  ghost predicate InTexts(texts: set<string>, name: string) {
    exists text :: text in texts && Occurs(text, name)
  }

  lemma TextValuesWrite(v: Json, name: string)
    ensures InTexts(TextValues(Some(v)), name) <==> SomeFieldWrites(v, name) || SomeItemWrites(v, name)
  {
    match v
    case JObject(fields) =>
      forall k | k in fields && fields[k].JString?
        ensures Writes(fields[k].value, name) <==> Occurs(fields[k].value, name)
      {
        WritesIsOccurs(fields[k].value, name);
        assert fields[k].value in TextValues(Some(v));
      }
      if SomeFieldWrites(v, name) {
        var k :| k in fields && TextWrites(fields[k], name);
        assert fields[k].value in TextValues(Some(v));
      }
    case JArray(items) =>
      forall j | j in items && j.JString? ensures Writes(j.value, name) <==> Occurs(j.value, name) {
        WritesIsOccurs(j.value, name);
      }
      if SomeItemWrites(v, name) {
        var j :| j in items && TextWrites(j, name);
        assert j.value in TextValues(Some(v));
      }
    case JString(s) => 
    case _ =>
  }

  lemma OnlyWrites(v: Json, name: string)
    ensures InTexts(Only(Some(v)), name) <==> TextWrites(v, name)
    ensures InTexts(ArrayTexts(Some(v)), name) <==> SomeItemWrites(v, name)
  {
    if v.JString? {
      WritesIsOccurs(v.value, name);
    }
    if v.JArray? {
      TextValuesWrite(v, name);
    }
  }

  /** A capital letter, then up to 63 capital letters, digits and underscores. */
  predicate WellFormedName(name: string) {
    && 1 <= |name| <= 64 && 'A' <= name[0] <= 'Z'
    && forall c :: c in name ==> 'A' <= c <= 'Z' || '0' <= c <= '9' || c == '_'
  }

  lemma NamesAreWellFormed(name: string)
    ensures IsName(name) <==> WellFormedName(name)
  {
    if IsName(name) {
      assert forall c :: c in name ==> IsNameChar(c);
    }
    if WellFormedName(name) {
      assert forall i :: 0 <= i < |name| ==> name[i] in name;
    }
  }

  /** The texts looked at are those of the five fields, and no placeholder is in any other. */
  lemma ServerTextsWrite(server: Json, name: string)
    ensures InTexts(ServerTexts(server), name) <==> ServerUses(server, name)
  {
    if server.JObject? {
      var f := server.fields;
      forall key | key in f
        ensures InTexts(Only(Some(f[key])), name) <==> TextWrites(f[key], name)
        ensures InTexts(ArrayTexts(Some(f[key])), name) <==> SomeItemWrites(f[key], name)
        ensures InTexts(TextValues(Some(f[key])), name) <==>
                  SomeFieldWrites(f[key], name) || SomeItemWrites(f[key], name)
      {
        OnlyWrites(f[key], name);
        TextValuesWrite(f[key], name);
      }
    }
  }

  // ---- Sorting. ----

  ghost predicate StrictlySorted(names: seq<string>) {
    StrictlyOrdered(names, TextCompare)
  }

  lemma SortedNames(names: seq<string>)
    requires NoDuplicates(names)
    ensures StrictlySorted(Sort(names, TextCompare)) && forall x :: x in Sort(names, TextCompare) <==> x in names
  {
    TextCompareIsPreorder();
    SortStrictly(names, TextCompare);
  }

  /** `[...names].sort()`: the elements of a set, listed in any order and sorted. */
  method SortNames(names: set<string>) returns (sorted: seq<string>)
    ensures StrictlySorted(sorted) && forall x :: x in sorted <==> x in names
  {
    var listed: seq<string> := [];
    var left := names;
    while left != {}
      invariant left <= names && NoDuplicates(listed)
      invariant forall x :: x in listed <==> x in names && x !in left
      decreases left
    {
      var x :| x in left;
      listed := listed + [x];
      left := left - {x};
    }
    SortedNames(listed);
    sorted := Sort(listed, TextCompare);
  }

  /** The sorted list of a set of names is unique. */
  lemma SortedSameMembers(a: seq<string>, b: seq<string>)
    requires StrictlySorted(a) && StrictlySorted(b) && forall x :: x in a <==> x in b
    ensures a == b
  {
    TextCompareIsPreorder();
    StrictUnique(a, b, TextCompare);
  }

  // ---- mcp_placeholders. ----

  lemma ScannedMeansUsed(servers: map<string, Json>, name: string)
    ensures Scanned(servers.Values, name) ==> IsName(name)
    ensures IsName(name) ==> (Scanned(servers.Values, name) <==> Used(servers, name))
  {
    if Scanned(servers.Values, name) {
      var server, text :| server in servers.Values && text in ServerTexts(server) && name in Scan(text, 0);
      ScanFindsNames(text, 0);
      ScanFindsAll(text, 0, name);
      assert InTexts(ServerTexts(server), name);
      ServerTextsWrite(server, name);
      var key :| key in servers && servers[key] == server;
    }
    if IsName(name) && Used(servers, name) {
      var key :| key in servers && ServerUses(servers[key], name);
      ServerTextsWrite(servers[key], name);
      var text :| text in ServerTexts(servers[key]) && Occurs(text, name);
      ScanFindsAll(text, 0, name);
      assert servers[key] in servers.Values && name in Scan(text, 0);
    }
  }

  /**
   * Exactly the names written as `${NAME}` somewhere in the server list, each once, in order; none when the list is
   * missing or was refused.
   */
  method McpPlaceholders(parsed: Option<map<string, Json>>) returns (names: seq<string>)
    ensures StrictlySorted(names)
    ensures parsed.None? ==> names == []
    ensures parsed.Some? ==> forall name :: name in names <==> WellFormedName(name) && Used(parsed.value, name)
  {
    if parsed.None? {
      return [];
    }
    var servers := parsed.value.Values;
    var found: set<string> := {};
    var left := servers;
    while left != {}
      invariant left <= servers
      invariant forall name :: name in found <==> Scanned(servers - left, name)
      decreases left
    {
      var server :| server in left;
      ghost var done := servers - left;
      found := ScanServer(server, found);
      left := left - {server};
      assert servers - left == done + {server};
      forall name ensures name in found <==> Scanned(servers - left, name) {}
    }
    assert servers - left == servers;
    forall name ensures name in found <==> WellFormedName(name) && Used(parsed.value, name) {
      ScannedMeansUsed(parsed.value, name);
      NamesAreWellFormed(name);
    }
    names := SortNames(found);
  }

  method ScanServer(server: Json, names: set<string>) returns (found: set<string>)
    ensures forall name :: name in found <==>
              name in names || exists text :: text in ServerTexts(server) && name in Scan(text, 0)
  {
    found := names;
    var texts := ServerTexts(server);
    var left := texts;
    while left != {}
      invariant left <= texts
      invariant forall name :: name in found <==>
                  name in names || exists text :: text in texts && text !in left && name in Scan(text, 0)
      decreases left
    {
      var text :| text in left;
      found := ScanInto(text, found);
      left := left - {text};
    }
  }

  // ---- The settings it needs. ----

  /** A manifest has a usable `mcp` block when it lists a transport. */
  predicate HasMcpBlock(manifest: Json) {
    match Field(manifest, "mcp")
    case Some(block) =>
      (match Field(block, "transports") case Some(JArray(items)) => |items| > 0 case _ => false)
    case None => false
  }

  predicate IsSecretKey(key: string) {
    MCP_SECRET_PREFIX <= key && IsName(key[|MCP_SECRET_PREFIX|..])
  }

  predicate IsMcpKey(manifest: Json, key: string) {
    HasMcpBlock(manifest) && (key == MCP_SERVERS_KEY || IsSecretKey(key))
  }

  datatype SettingDef = SettingDef(key: string, description: string, secret: bool)

  /** A preset's secret as the manifest describes it. */
  datatype PresetSecret = PresetSecret(key: string, description: string)

  /** The last non-empty description of a key wins. */
  function Described(presets: seq<PresetSecret>): map<string, string> {
    if |presets| == 0 then map[]
    else
      var last := presets[|presets| - 1];
      var before := Described(presets[..|presets| - 1]);
      if |last.description| > 0 then before[last.key := last.description] else before
  }

  /** A key is described by its last preset with a description, if there is one. */
  lemma {:induction false} DescribedByLast(presets: seq<PresetSecret>, key: string)
    ensures key in Described(presets) <==>
              exists i :: 0 <= i < |presets| && presets[i].key == key && presets[i].description != ""
    ensures key in Described(presets) ==>
              exists i :: 0 <= i < |presets| && presets[i] == PresetSecret(key, Described(presets)[key])
                && forall j :: i < j < |presets| && presets[j].key == key ==> presets[j].description == ""
  {
    if |presets| > 0 {
      var before, last := presets[..|presets| - 1], presets[|presets| - 1];
      DescribedByLast(before, key);
      assert presets == before + [last];
      if last.key == key && last.description != "" {
        assert presets[|before|] == PresetSecret(key, Described(presets)[key]);
      } else if key in Described(before) {
        var i :| 0 <= i < |before| && before[i] == PresetSecret(key, Described(before)[key])
          && forall j :: i < j < |before| && before[j].key == key ==> before[j].description == "";
        assert presets[i] == PresetSecret(key, Described(presets)[key]);
      }
    }
  }

  function SecretDef(described: map<string, string>, name: string): SettingDef {
    SettingDef(MCP_SECRET_PREFIX + name,
               if name in described then described[name] else "Secret for ${" + name + "} in the MCP servers",
               true)
  }

  /** The secret keys of a list of placeholder names, in order. */
  function SecretDefs(described: map<string, string>, names: seq<string>): seq<SettingDef> {
    seq(|names|, k requires 0 <= k < |names| => SecretDef(described, names[k]))
  }

  /** Sorted names give keys that are all accepted and in order, and a secret for a name only by listing the name. */
  lemma SecretDefsOfNames(described: map<string, string>, names: seq<string>)
    requires StrictlySorted(names) && forall name :: name in names ==> IsName(name)
    ensures var defs := SecretDefs(described, names);
            && (forall k :: 0 <= k < |defs| ==> IsSecretKey(defs[k].key))
            && (forall i, j :: 0 <= i < j < |defs| ==> TextLess(defs[i].key, defs[j].key))
            && (forall name :: SecretDef(described, name) in defs <==> name in names)
            && (forall d :: d in defs ==> exists name :: name in names && d == SecretDef(described, name))
  {
    var defs := SecretDefs(described, names);
    forall k | 0 <= k < |defs|
      ensures IsSecretKey(defs[k].key)
      ensures exists name :: name in names && defs[k] == SecretDef(described, name)
    {
      assert names[k] in names;
    }
    forall i, j | 0 <= i < j < |defs| ensures TextLess(defs[i].key, defs[j].key) {
      assert TextCompare(names[i], names[j]) < 0;
      TextLessAfter(MCP_SECRET_PREFIX, names[i], names[j]);
    }
    forall name ensures SecretDef(described, name) in defs <==> name in names {
      if name in names {
        var k :| 0 <= k < |names| && names[k] == name;
        assert defs[k] == SecretDef(described, name);
      }
      if SecretDef(described, name) in defs {
        var k :| 0 <= k < |defs| && defs[k] == SecretDef(described, name);
      }
    }
  }

  method DescribePresets(presets: seq<PresetSecret>) returns (described: map<string, string>)
    ensures described == Described(presets)
  {
    described := map[];
    for i := 0 to |presets|
      invariant described == Described(presets[..i])
    {
      assert presets[..i + 1][..i] == presets[..i];
      if |presets[i].description| > 0 {
        described := described[presets[i].key := presets[i].description];
      }
    }
    assert presets[..|presets|] == presets;
  }

  /** The description of a secret: that of the last preset that has one for it, or else a standing phrase. */
  ghost predicate DescribedAs(presets: seq<PresetSecret>, name: string, text: string) {
    || (exists i :: IsLastDescribed(presets, name, i) && presets[i].description == text)
    || (text == "Secret for ${" + name + "} in the MCP servers" && forall i :: !IsLastDescribed(presets, name, i))
  }

  ghost predicate IsLastDescribed(presets: seq<PresetSecret>, name: string, i: int) {
    && 0 <= i < |presets| && presets[i].key == name && presets[i].description != ""
    && forall j :: i < j < |presets| && presets[j].key == name ==> presets[j].description == ""
  }

  lemma DescriptionIs(presets: seq<PresetSecret>, name: string, text: string)
    ensures DescribedAs(presets, name, text) <==> text == SecretDef(Described(presets), name).description
  {
    DescribedByLast(presets, name);
    DescribedNotEmpty(presets, name);
    if name in Described(presets) {
      var i :| 0 <= i < |presets| && presets[i] == PresetSecret(name, Described(presets)[name])
        && forall j :: i < j < |presets| && presets[j].key == name ==> presets[j].description == "";
      assert IsLastDescribed(presets, name, i);
      forall k | IsLastDescribed(presets, name, k) ensures k == i {}
    }
  }

  lemma {:induction false} DescribedNotEmpty(presets: seq<PresetSecret>, name: string)
    ensures name in Described(presets) ==> Described(presets)[name] != ""
  {
    if |presets| > 0 {
      DescribedNotEmpty(presets[..|presets| - 1], name);
    }
  }

  /** The secret of a name that the server list uses. */
  ghost predicate NeededSecret(presets: seq<PresetSecret>, servers: map<string, Json>, d: SettingDef) {
    exists name :: WellFormedName(name) && Used(servers, name)
      && d.key == "mcp.secrets." + name && DescribedAs(presets, name, d.description) && d.secret
  }

  lemma NeededIs(presets: seq<PresetSecret>, d: SettingDef, name: string)
    ensures d == SecretDef(Described(presets), name) <==>
              d.key == "mcp.secrets." + name && DescribedAs(presets, name, d.description) && d.secret
  {
    DescriptionIs(presets, name, d.description);
  }

  /** The manifest has an `mcp` block that lists a transport. */
  predicate ListsTransport(manifest: Json) {
    && manifest.JObject? && "mcp" in manifest.fields
    && manifest.fields["mcp"].JObject? && "transports" in manifest.fields["mcp"].fields
    && manifest.fields["mcp"].fields["transports"].JArray? && manifest.fields["mcp"].fields["transports"].items != []
  }

  /** The server list's key, or that of a secret with a well-formed name. */
  predicate AcceptedKey(key: string) {
    key == "mcp.servers" || ("mcp.secrets." <= key && WellFormedName(key[12..]))
  }

  /** What the agent takes besides its own settings. */
  lemma McpKeysAre(manifest: Json, key: string)
    ensures IsMcpKey(manifest, key) <==> ListsTransport(manifest) && AcceptedKey(key)
  {
    if "mcp.secrets." <= key {
      NamesAreWellFormed(key[12..]);
    }
  }

  /**
   * One required secret for each placeholder used and none besides, in the order of their keys; the server list itself
   * is optional. Every key is one the agent accepts.
   */
  method McpSettingDefs(manifest: Json, presets: seq<PresetSecret>, parsed: Option<map<string, Json>>)
    returns (required: seq<SettingDef>, optional: seq<SettingDef>)
    ensures forall d :: d in required || d in optional ==> ListsTransport(manifest) && AcceptedKey(d.key)
    ensures forall i, j :: 0 <= i < j < |required| ==> TextLess(required[i].key, required[j].key)
    ensures !ListsTransport(manifest) || parsed.None? ==> required == []
    ensures optional == if ListsTransport(manifest)
              then [SettingDef("mcp.servers", "MCP servers this agent can use", false)] else []
    ensures ListsTransport(manifest) && parsed.Some? ==>
              forall d :: d in required <==> NeededSecret(presets, parsed.value, d)
  {
    required, optional := [], [];
    McpKeysAre(manifest, MCP_SERVERS_KEY);
    if !HasMcpBlock(manifest) {
      return;
    }
    var described := DescribePresets(presets);
    optional := [SettingDef(MCP_SERVERS_KEY, MCP_SERVERS_DESCRIPTION, false)];
    var names := McpPlaceholders(parsed);
    forall name ensures IsName(name) <==> WellFormedName(name) {
      NamesAreWellFormed(name);
    }
    required := SecretDefs(described, names);
    SecretDefsOfNames(described, names);
    forall d | d in required ensures ListsTransport(manifest) && AcceptedKey(d.key) {
      McpKeysAre(manifest, d.key);
    }
    if parsed.Some? {
      forall d ensures d in required <==> NeededSecret(presets, parsed.value, d) {
        if NeededSecret(presets, parsed.value, d) {
          var name :| WellFormedName(name) && Used(parsed.value, name)
            && d.key == "mcp.secrets." + name && DescribedAs(presets, name, d.description) && d.secret;
          NeededIs(presets, d, name);
          assert name in names;
        }
        if d in required {
          var name :| name in names && d == SecretDef(described, name);
          NeededIs(presets, d, name);
        }
      }
    }
  }
}
