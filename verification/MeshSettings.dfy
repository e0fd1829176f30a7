/**
 * Masking stored secrets for display and merging an edited copy back (src/mesh/settings_util.ts).
 * Settings are a map from keys to JSON values; an adapter is known by its secret keys.
 */
module MeshSettings {
  import opened Wrappers
  import opened Json

  type Settings = map<string, Json>

  const MASK := JString("••••••••")

  /** `String(v).length > 0` for a value that is not null: only `''`, and arrays that print as nothing, are empty. */
  predicate PrintsNonEmpty(v: Json) {
    match v
    case JNull => false
    case JString(s) => |s| > 0
    case JArray(items) => |items| > 1 || (|items| == 1 && PrintsNonEmpty(items[0]))
    case _ => true
  }

  function SetFlag(key: string): string {
    key + "_set"
  }

  predicate EndsWithSet(key: string) {
    |key| >= 4 && key[|key| - 4..] == "_set"
  }

  /** An adapter's secret keys in schema order, or None for an unknown provider. */
  datatype Provider = Unknown | Known(secrets: seq<string>)

  predicate Hidden(settings: Settings, key: string) {
    key in settings && PrintsNonEmpty(settings[key])
  }

  function MaskStep(out: Settings, key: string): Settings {
    if Hidden(out, key) then out[key := MASK][SetFlag(key) := JBool(true)] else out
  }

  function MaskFrom(out: Settings, secrets: seq<string>): Settings
    decreases |secrets|
  {
    if |secrets| == 0 then out else MaskFrom(MaskStep(out, secrets[0]), secrets[1..])
  }

  function Mask(provider: Provider, settings: Settings): Settings {
    if provider.Unknown? then settings else MaskFrom(settings, provider.secrets)
  }

  /** A patch entry is ignored when it is a `_set` flag, or a secret sent back masked, empty or null. */
  predicate Ignored(secrets: seq<string>, key: string, value: Json) {
    EndsWithSet(key) || (key in secrets && (value == MASK || value == JString("") || value == JNull))
  }

  /** The merged settings of a known provider, key by key. */
  function Merge(secrets: seq<string>, existing: Settings, patch: Settings): Settings {
    existing + map key | key in patch && !Ignored(secrets, key, patch[key]) :: patch[key]
  }

  // ---- As they run. ----

  method MaskSettings(provider: Provider, settings: Settings) returns (out: Settings)
    ensures out == Mask(provider, settings)
  {
    out := settings;
    if provider.Known? {
      for i := 0 to |provider.secrets|
        invariant MaskFrom(settings, provider.secrets) == MaskFrom(out, provider.secrets[i..])
      {
        var key := provider.secrets[i];
        assert provider.secrets[i..][0] == key && provider.secrets[i..][1..] == provider.secrets[i + 1..];
        if Hidden(out, key) {
          out := out[key := MASK];
          out := out[SetFlag(key) := JBool(true)];
        }
      }
      assert provider.secrets[|provider.secrets|..] == [];
    }
  }

  /** An unknown provider is refused. Entries are visited in any order. */
  method MergePatch(provider: Provider, existing: Settings, patch: Settings) returns (merged: Option<Settings>)
    ensures merged == if provider.Unknown? then None else Some(Merge(provider.secrets, existing, patch))
  {
    if provider.Unknown? {
      return None;
    }
    var out := existing;
    var left := patch.Keys;
    while left != {}
      invariant left <= patch.Keys
      invariant forall k :: k in out <==>
                  k in existing || (k in patch && k !in left && !Ignored(provider.secrets, k, patch[k]))
      invariant forall k :: k in out ==>
                  out[k] ==
                  if k in patch && k !in left && !Ignored(provider.secrets, k, patch[k]) then patch[k] else existing[k]
      decreases left
    {
      var key :| key in left;
      if !Ignored(provider.secrets, key, patch[key]) {
        out := out[key := patch[key]];
      }
      left := left - {key};
    }
    assert out == Merge(provider.secrets, existing, patch);
    return Some(out);
  }

  // ---- Round trip. ----

  /** What masking may change of a settings object: secrets become the mask, flags appear. */
  ghost predicate MaskedFrom(secrets: seq<string>, existing: Settings, out: Settings) {
    && (forall key :: key in existing ==> key in out)
    && (forall key :: key in out && !EndsWithSet(key) ==> key in existing)
    && (forall key :: key in out && !EndsWithSet(key) && out[key] != existing[key] ==>
         key in secrets && out[key] == MASK)
  }

  lemma {:induction false} MaskFromMasks(all: seq<string>, existing: Settings, out: Settings, secrets: seq<string>)
    requires MaskedFrom(all, existing, out) && forall k :: k in secrets ==> k in all
    ensures MaskedFrom(all, existing, MaskFrom(out, secrets))
    decreases |secrets|
  {
    if |secrets| > 0 {
      assert secrets[0] in secrets && forall k :: k in secrets[1..] ==> k in secrets;
      MaskFromMasks(all, existing, MaskStep(out, secrets[0]), secrets[1..]);
    }
  }

  /** A key that masking may set as the flag of a secret. */
  ghost predicate IsFlag(secrets: seq<string>, key: string) {
    exists secret :: secret in secrets && key == SetFlag(secret)
  }

  /** Nothing of a stored value is left to see. */
  ghost predicate Concealed(out: Settings, key: string) {
    key in out ==> out[key] == MASK || out[key] == JBool(true) || !PrintsNonEmpty(out[key])
  }

  lemma {:induction false} MaskFromConceals(out: Settings, secrets: seq<string>, key: string)
    requires key in secrets || Concealed(out, key)
    ensures Concealed(MaskFrom(out, secrets), key)
    decreases |secrets|
  {
    if |secrets| > 0 {
      MaskFromConceals(MaskStep(out, secrets[0]), secrets[1..], key);
    }
  }

  lemma {:induction false} MaskFromHides(out: Settings, secrets: seq<string>, key: string)
    requires key in secrets || (key in out && out[key] == MASK)
    requires !IsFlag(secrets, key)
    ensures var r := MaskFrom(out, secrets); key in r ==> r[key] == MASK || !PrintsNonEmpty(r[key])
    decreases |secrets|
  {
    if |secrets| > 0 {
      var step := MaskStep(out, secrets[0]);
      if key in secrets[1..] || (key in step && step[key] == MASK) {
        MaskFromHides(step, secrets[1..], key);
      } else {
        assert key == secrets[0];
        MaskFromLeaves(step, secrets[1..], key);
      }
    }
  }

  lemma {:induction false} MaskFromLeaves(out: Settings, secrets: seq<string>, key: string)
    requires key !in secrets && !IsFlag(secrets, key)
    ensures var r := MaskFrom(out, secrets); (key in r <==> key in out) && (key in out ==> r[key] == out[key])
    decreases |secrets|
  {
    if |secrets| > 0 {
      MaskFromLeaves(MaskStep(out, secrets[0]), secrets[1..], key);
    }
  }

  lemma {:induction false} MaskFromFlags(out: Settings, secrets: seq<string>, key: string)
    requires key !in secrets
    ensures var r := MaskFrom(out, secrets);
            && (key in out ==> key in r)
            && (key in r ==> (key in out && r[key] == out[key]) || r[key] == JBool(true))
    decreases |secrets|
  {
    if |secrets| > 0 {
      assert forall k :: k in secrets[1..] ==> k in secrets;
      MaskFromFlags(MaskStep(out, secrets[0]), secrets[1..], key);
    }
  }

  /**
   * No secret shows after masking: what is there is the mask, an empty value, or `true` where one secret's key is the
   * flag of another. Every other setting is shown as it is, or is the flag of a secret and may be `true`.
   */
  lemma MaskHidesSecrets(secrets: seq<string>, settings: Settings, key: string)
    ensures var out := Mask(Known(secrets), settings);
            && (key in settings ==> key in out)
            && (key in secrets ==> Concealed(out, key))
            && (key in secrets && key in out && !IsFlag(secrets, key) ==> out[key] == MASK || !PrintsNonEmpty(out[key]))
            && (key !in secrets && key in out ==>
                 (key in settings && out[key] == settings[key]) || (IsFlag(secrets, key) && out[key] == JBool(true)))
  {
    MaskFromMasks(secrets, settings, settings, secrets);
    if key in secrets {
      MaskFromConceals(settings, secrets, key);
      if !IsFlag(secrets, key) {
        MaskFromHides(settings, secrets, key);
      }
    } else {
      MaskFromFlags(settings, secrets, key);
      if !IsFlag(secrets, key) {
        MaskFromLeaves(settings, secrets, key);
      }
    }
  }

  /** Sending the masked copy back unedited changes nothing, whatever is stored. */
  lemma MaskMergeRoundTrip(secrets: seq<string>, existing: Settings)
    ensures Merge(secrets, existing, Mask(Known(secrets), existing)) == existing
  {
    MaskFromMasks(secrets, existing, existing, secrets);
  }

  /**
   * What a patch entry does: a key that ends in `_set` is passed over, and so is a secret sent back as the mask, empty
   * or null; any other value is stored, an empty or a null one too when the key is no secret.
   */
  ghost predicate Takes(secrets: seq<string>, key: string, value: Json) {
    && !(|key| >= 4 && key[|key| - 4..] == "_set")
    && (key in secrets ==> value != JString("••••••••") && value != JString("") && value != JNull)
  }

  /** Key by key, the merged settings are what the patch says where it is taken, and what was there everywhere else. */
  lemma MergesKeyByKey(secrets: seq<string>, existing: Settings, patch: Settings, key: string)
    ensures var merged := Merge(secrets, existing, patch);
            var taken := key in patch && Takes(secrets, key, patch[key]);
            && (key in merged <==> key in existing || taken)
            && (key in merged ==> merged[key] == if taken then patch[key] else existing[key])
  {
  }

  /** Editing the masked copy and sending it back changes exactly the edited keys, to exactly the edited values. */
  lemma EditsMergeExactly(secrets: seq<string>, existing: Settings, edits: Settings)
    requires forall key :: key in edits ==> Takes(secrets, key, edits[key])
    ensures Merge(secrets, existing, Mask(Known(secrets), existing) + edits) == existing + edits
  {
    MaskFromMasks(secrets, existing, existing, secrets);
    var patch := Mask(Known(secrets), existing) + edits;
    var merged := Merge(secrets, existing, patch);
    forall key
      ensures key in merged <==> key in existing + edits
      ensures key in merged ==> merged[key] == (existing + edits)[key]
    {
      MergesKeyByKey(secrets, existing, patch, key);
      if key in edits {
        assert patch[key] == edits[key];
      }
    }
  }

  /** An edit comes through if and only if it is taken, or leaves the stored value as it was. */
  lemma EditComesThroughIff(secrets: seq<string>, existing: Settings, key: string, value: Json)
    ensures var merged := Merge(secrets, existing, Mask(Known(secrets), existing)[key := value]);
            (key in merged && merged[key] == value) <==>
            Takes(secrets, key, value) || (key in existing && existing[key] == value)
  {
    MaskFromMasks(secrets, existing, existing, secrets);
  }

  lemma {:induction false} MaskFromShows(out: Settings, secrets: seq<string>, key: string)
    requires key in out && !PrintsNonEmpty(out[key]) && !IsFlag(secrets, key)
    ensures var r := MaskFrom(out, secrets); key in r && r[key] == out[key]
    decreases |secrets|
  {
    if |secrets| > 0 {
      MaskFromShows(MaskStep(out, secrets[0]), secrets[1..], key);
    }
  }

  lemma {:induction false} MaskFromFlagsHidden(out: Settings, secrets: seq<string>, secret: string)
    requires secret in secrets && Hidden(out, secret) && !IsFlag(secrets, secret)
    ensures var r := MaskFrom(out, secrets);
            secret in r && r[secret] == MASK && SetFlag(secret) in r && (SetFlag(secret) !in secrets ==>
              r[SetFlag(secret)] == JBool(true))
    decreases |secrets|
  {
    var step := MaskStep(out, secrets[0]);
    if secrets[0] == secret {
      MaskedStays(step, secrets[1..], secret);
      FlagStays(step, secrets[1..], SetFlag(secret));
    } else {
      assert secret in secrets[1..];
      MaskFromFlagsHidden(step, secrets[1..], secret);
    }
  }

  lemma {:induction false} MaskedStays(out: Settings, secrets: seq<string>, secret: string)
    requires secret in out && out[secret] == MASK && !IsFlag(secrets, secret)
    ensures var r := MaskFrom(out, secrets); secret in r && r[secret] == MASK
    decreases |secrets|
  {
    if |secrets| > 0 {
      MaskedStays(MaskStep(out, secrets[0]), secrets[1..], secret);
    }
  }

  lemma {:induction false} FlagStays(out: Settings, secrets: seq<string>, flag: string)
    requires flag in out
    ensures var r := MaskFrom(out, secrets);
            flag in r && (flag !in secrets && out[flag] == JBool(true) ==> r[flag] == JBool(true))
    decreases |secrets|
  {
    if |secrets| > 0 {
      FlagStays(MaskStep(out, secrets[0]), secrets[1..], flag);
    }
  }

  /**
   * A stored secret with a value is shown as the mask with its `_set` key true; one that is empty or null is shown as
   * it is. (Where one secret's key is the flag of another, see above.)
   */
  lemma MaskShowsSecret(secrets: seq<string>, settings: Settings, secret: string)
    requires secret in secrets && secret in settings && !IsFlag(secrets, secret)
    ensures var out := Mask(Known(secrets), settings);
            && secret in out
            && (settings[secret] == JNull || settings[secret] == JString("") ==> out[secret] == settings[secret])
            && (forall text :: settings[secret] == JString(text) && text != "" ==>
                  && out[secret] == JString("••••••••") && secret + "_set" in out
                  && (secret + "_set" !in secrets ==> out[secret + "_set"] == JBool(true)))
  {
    if PrintsNonEmpty(settings[secret]) {
      MaskFromFlagsHidden(settings, secrets, secret);
    } else {
      MaskFromShows(settings, secrets, secret);
    }
  }
}
