/** Loading `providers.yaml`: `${VAR}` interpolation from the environment,
    validation of each provider entry, and routing defaults. The file is
    given already parsed (`None` when it does not exist); the environment
    is a map from variable names to values. */
module LoadProviders {
  import opened Wrappers
  import opened Seqs
  import opened Text
  import opened JsonValue
  import opened Types
  import Registry

  const DefaultRetryAfterSeconds: real := 300.0
  const DefaultRouting := RoutingConfig(Exhaust, DefaultRetryAfterSeconds)

  // ── Environment interpolation ────────────────────

  /** The value of an environment variable; an unset one reads as "". */
  function EnvValue(env: map<string, string>, name: string): string
  {
    if name in env then env[name] else ""
  }

  /** `value.replace(/\$\{([^}]+)\}/g, …)`: scanning left to right, a `$`
      followed by `{`, at least one character other than `}`, and a closing
      `}` is replaced by the variable named by the trimmed inside; scanning
      resumes after the `}`. Anything else is copied. */
  function InterpolateEnvVars(s: string, env: map<string, string>): string
    decreases |s|
  {
    if s == [] then []
    else if |s| >= 2 && s[0] == '$' && s[1] == '{' then
      match IndexOf(s[2..], '}')
      case Some(q) =>
        if q > 0 then EnvValue(env, Trim(s[2..2 + q])) + InterpolateEnvVars(s[3 + q..], env)
        else [s[0]] + InterpolateEnvVars(s[1..], env)
      case None => [s[0]] + InterpolateEnvVars(s[1..], env)
    else [s[0]] + InterpolateEnvVars(s[1..], env)
  }

  /** The pattern matches at `i`: `${`, then at least one character before
      the first `}` after it. */
  predicate ReferenceAt(s: string, i: int)
  {
    && 0 <= i && i + 2 < |s|
    && s[i] == '$' && s[i + 1] == '{'
    && exists j :: i + 2 < j < |s| && s[j] == '}' && forall k :: i + 2 <= k < j ==> s[k] != '}'
  }

  /** No reference pattern matches anywhere in `s`. This includes strings
      such as "a${b" (never closed) and "${}" (empty name). */
  predicate NoReference(s: string)
  {
    forall i :: 0 <= i < |s| ==> !ReferenceAt(s, i)
  }

  /** A string in which no reference matches comes back unchanged,
      whatever the environment. */
  lemma {:induction false} InterpolateLiteral(s: string, env: map<string, string>)
    requires NoReference(s)
    ensures InterpolateEnvVars(s, env) == s
    decreases |s|
  {
    if s != [] {
      assert NoReference(s[1..]) by {
        forall i | 0 <= i < |s[1..]|
          ensures !ReferenceAt(s[1..], i)
        {
          ReferenceShift(s, i);
        }
      }
      InterpolateLiteral(s[1..], env);
      ReferenceFromIndex(s);
    }
  }

  /** A match in the tail of `s` is a match in `s`, one place later. */
  lemma {:induction false} ReferenceShift(s: string, i: nat)
    requires s != []
    ensures ReferenceAt(s[1..], i) ==> ReferenceAt(s, i + 1)
  {
    if ReferenceAt(s[1..], i) {
      var t := s[1..];
      var j :| i + 2 < j < |t| && t[j] == '}' && forall k :: i + 2 <= k < j ==> t[k] != '}';
      assert s[j + 1] == '}';
      forall k | i + 3 <= k < j + 1
        ensures s[k] != '}'
      {
        assert s[k] == t[k - 1];
      }
    }
  }

  /** The interpolation's own test for a reference at the start of `s`
      agrees with the pattern. */
  lemma {:induction false} ReferenceFromIndex(s: string)
    ensures (|s| >= 2 && s[0] == '$' && s[1] == '{' && IndexOf(s[2..], '}').Some? && IndexOf(s[2..], '}').value > 0)
      ==> ReferenceAt(s, 0)
  {
    if |s| >= 2 && s[0] == '$' && s[1] == '{' && IndexOf(s[2..], '}').Some? && IndexOf(s[2..], '}').value > 0 {
      var q := IndexOf(s[2..], '}').value;
      assert s[2 + q] == '}';
      forall k | 2 <= k < 2 + q
        ensures s[k] != '}'
      {
        assert s[k] == s[2..][k - 2];
      }
    }
  }

  /** A first character other than `$` is copied as is. */
  lemma {:induction false} InterpolateCopiesHead(s: string, env: map<string, string>)
    requires s != [] && s[0] != '$'
    ensures InterpolateEnvVars(s, env) == [s[0]] + InterpolateEnvVars(s[1..], env)
  {
  }

  /** Text without any `$` is copied in front of whatever follows it. */
  lemma {:induction false} InterpolateDollarFreePrefix(pre: string, post: string, env: map<string, string>)
    requires forall i :: 0 <= i < |pre| ==> pre[i] != '$'
    ensures InterpolateEnvVars(pre + post, env) == pre + InterpolateEnvVars(post, env)
    decreases |pre|
  {
    if pre != [] {
      var s := pre + post;
      assert s[0] == pre[0];
      assert s[1..] == pre[1..] + post;
      calc {
        InterpolateEnvVars(s, env);
        { InterpolateCopiesHead(s, env); }
        [pre[0]] + InterpolateEnvVars(pre[1..] + post, env);
        { InterpolateDollarFreePrefix(pre[1..], post, env); }
        [pre[0]] + (pre[1..] + InterpolateEnvVars(post, env));
        { assert pre == [pre[0]] + pre[1..]; }
        pre + InterpolateEnvVars(post, env);
      }
    } else {
      assert pre + post == post;
    }
  }

  /** One reference `${name}` after `$`-free text is replaced by the value
      of the trimmed name, and scanning carries on after its `}`. */
  lemma {:induction false} InterpolateReference(pre: string, name: string, post: string, env: map<string, string>)
    requires forall i :: 0 <= i < |pre| ==> pre[i] != '$'
    requires name != [] && forall i :: 0 <= i < |name| ==> name[i] != '}'
    ensures InterpolateEnvVars(pre + "${" + name + "}" + post, env)
         == pre + EnvValue(env, Trim(name)) + InterpolateEnvVars(post, env)
  {
    var r := "${" + name + "}" + post;
    var v := EnvValue(env, Trim(name));
    assert pre + "${" + name + "}" + post == pre + r;
    calc {
      InterpolateEnvVars(pre + "${" + name + "}" + post, env);
      InterpolateEnvVars(pre + r, env);
      { InterpolateDollarFreePrefix(pre, r, env); }
      pre + InterpolateEnvVars(r, env);
      { InterpolateAtReference(name, post, env); }
      pre + (v + InterpolateEnvVars(post, env));
      pre + v + InterpolateEnvVars(post, env);
    }
  }

  lemma {:induction false} InterpolateAtReference(name: string, post: string, env: map<string, string>)
    requires name != [] && forall i :: 0 <= i < |name| ==> name[i] != '}'
    ensures InterpolateEnvVars("${" + name + "}" + post, env) == EnvValue(env, Trim(name)) + InterpolateEnvVars(post, env)
  {
    var r := "${" + name + "}" + post;
    var inner := r[2..];
    assert inner == name + "}" + post;
    assert IndexOf(inner, '}') == Some(|name|) by {
      assert inner[|name|] == '}';
      assert forall i :: 0 <= i < |name| ==> inner[i] == name[i];
    }
    assert r[2..2 + |name|] == name;
    assert r[3 + |name|..] == post;
  }

  // ── Provider entries ─────────────────────────────

  /** What a provider entry must satisfy to be kept: a known backend kind,
      a non-empty API key, at least one model, and a non-empty base URL for
      the `openai-compatible` kind. */
  predicate ValidConfig(c: ProviderInstanceConfig)
  {
    && ParseProviderType(c.providerType).Some?
    && c.apiKey != ""
    && |c.models| > 0
    && (c.providerType == "openai-compatible" ==> c.baseUrl.Some? && c.baseUrl.value != "")
  }

  /** The configuration an object entry describes before it is checked:
      `id` defaults to `provider-<index>`, `type` and `api_key` to "", and
      `models` to no models; a string `base_url` and the key are passed
      through `${VAR}` interpolation; only the string items of `models` are
      kept. */
  function ReadEntry(raw: Json, index: nat, env: map<string, string>): ProviderInstanceConfig
  {
    ProviderInstanceConfig(
      GetString(raw, "id").GetOr("provider-" + NatToString(index)),
      GetString(raw, "type").GetOr(""),
      InterpolateEnvVars(GetString(raw, "api_key").GetOr(""), env),
      match GetString(raw, "base_url")
      case Some(u) => Some(InterpolateEnvVars(u, env))
      case None => None,
      EntryModels(raw))
  }

  /** The string items of `models` when it is an array, else none. */
  function EntryModels(raw: Json): seq<string>
  {
    match Get(raw, "models")
    case Some(JArr(items)) => Strings(items)
    case _ => []
  }

  /** `validateProviderEntry`: reads the fields of entry `index` (missing
      or mistyped fields take defaults), interpolates the key and base URL,
      and keeps the entry only if the result is a valid configuration. */
  function ValidateProviderEntry(raw: Json, index: nat, env: map<string, string>): (r: Option<ProviderInstanceConfig>)
    ensures r.Some? ==> ValidConfig(r.value)
    ensures !IsObject(raw) ==> r.None?
    ensures r.Some? <==> IsObject(raw) && ValidConfig(ReadEntry(raw, index, env))
    ensures r.Some? ==> r.value == ReadEntry(raw, index, env)
    ensures r.Some? ==>
      && r.value.id == GetString(raw, "id").GetOr("provider-" + NatToString(index))
      && GetString(raw, "type") == Some(r.value.providerType)
      && r.value.apiKey == InterpolateEnvVars(GetString(raw, "api_key").GetOr(""), env)
      && (r.value.baseUrl.Some? <==> GetString(raw, "base_url").Some?)
      && (r.value.baseUrl.Some? ==> r.value.baseUrl.value == InterpolateEnvVars(GetString(raw, "base_url").value, env))
      && (forall items :: Get(raw, "models") == Some(JArr(items)) ==> r.value.models == Strings(items))
  {
    if !IsObject(raw) then None
    else
      var id := GetString(raw, "id").GetOr("provider-" + NatToString(index));
      var providerType := GetString(raw, "type").GetOr("");
      var apiKeyRaw := GetString(raw, "api_key").GetOr("");
      var baseUrl := match GetString(raw, "base_url")
        case Some(u) => Some(InterpolateEnvVars(u, env))
        case None => None;
      var models := match Get(raw, "models")
        case Some(JArr(items)) => Strings(items)
        case _ => [];
      if ParseProviderType(providerType).None? then None
      else
        var apiKey := InterpolateEnvVars(apiKeyRaw, env);
        if apiKey == "" then None
        else if |models| == 0 then None
        else if providerType == "openai-compatible" && (baseUrl.None? || baseUrl.value == "") then None
        else Some(ProviderInstanceConfig(id, providerType, apiKey, baseUrl, models))
  }

  /** A configuration written out as a `providers.yaml` entry. */
  function EncodeEntry(c: ProviderInstanceConfig): Json
  {
    var fields := map["id" := JStr(c.id), "type" := JStr(c.providerType), "api_key" := JStr(c.apiKey),
                      "models" := JArr(JStrs(c.models))];
    match c.baseUrl
    case Some(u) => JObj(fields["base_url" := JStr(u)])
    case None => JObj(fields)
  }

  /** Writing a configuration out and validating it back gives it back
      exactly when it is valid (and drops it otherwise), provided its key
      and URL hold no `${` for the environment to replace. */
  lemma {:induction false} EntryRoundTrip(c: ProviderInstanceConfig, index: nat, env: map<string, string>)
    requires NoReference(c.apiKey)
    requires c.baseUrl.Some? ==> NoReference(c.baseUrl.value)
    ensures ValidateProviderEntry(EncodeEntry(c), index, env) == if ValidConfig(c) then Some(c) else None
  {
    var e := EncodeEntry(c);
    var items := JStrs(c.models);
    EncodeEntryFields(c);
    InterpolateLiteral(c.apiKey, env);
    StringsOfStrings(c.models);
    if c.baseUrl.Some? {
      InterpolateLiteral(c.baseUrl.value, env);
    }
    ValidateWellTypedEntry(e, index, env, c.providerType, c.apiKey, c.baseUrl, items);
    assert GetString(e, "id") == Some(c.id);
    assert Strings(items) == c.models;
    assert ProviderInstanceConfig(c.id, c.providerType, c.apiKey, c.baseUrl, Strings(items)) == c;
  }

  lemma {:induction false} EncodeEntryFields(c: ProviderInstanceConfig)
    ensures var e := EncodeEntry(c);
      && e.JObj? && "id" in e.fields && "type" in e.fields && "api_key" in e.fields && "models" in e.fields
      && e.fields["id"] == JStr(c.id) && e.fields["type"] == JStr(c.providerType)
      && e.fields["api_key"] == JStr(c.apiKey)
      && e.fields["models"] == JArr(JStrs(c.models))
      && ("base_url" in e.fields) == c.baseUrl.Some?
      && (c.baseUrl.Some? ==> e.fields["base_url"] == JStr(c.baseUrl.value))
  {
  }

  /** Validation of an object whose type, key and models fields have the
      expected types: the key and any base URL are interpolated, a missing
      id is named after the position, and the entry is kept iff the result
      is valid. */
  lemma {:induction false} ValidateWellTypedEntry(e: Json, index: nat, env: map<string, string>, providerType: string,
                               apiKey: string, baseUrl: Option<string>, items: seq<Json>)
    requires e.JObj? && "type" in e.fields && "api_key" in e.fields && "models" in e.fields
    requires e.fields["type"] == JStr(providerType)
    requires e.fields["api_key"] == JStr(apiKey) && e.fields["models"] == JArr(items)
    requires ("base_url" in e.fields) == baseUrl.Some?
    requires baseUrl.Some? ==> e.fields["base_url"] == JStr(baseUrl.value)
    ensures var c := ProviderInstanceConfig(
        GetString(e, "id").GetOr("provider-" + NatToString(index)),
        providerType,
        InterpolateEnvVars(apiKey, env),
        if baseUrl.Some? then Some(InterpolateEnvVars(baseUrl.value, env)) else None,
        Strings(items));
      ValidateProviderEntry(e, index, env) == if ValidConfig(c) then Some(c) else None
  {
    assert GetString(e, "type") == Some(providerType);
    assert GetString(e, "api_key") == Some(apiKey);
    assert Get(e, "models") == Some(JArr(items));
    assert baseUrl.Some? ==> GetString(e, "base_url") == Some(baseUrl.value);
    assert baseUrl.None? ==> GetString(e, "base_url") == None;
  }

  /** The documented form `api_key: ${NAME}`: the key is the variable's
      value, and the entry is dropped when the variable is unset or empty. */
  lemma {:induction false} ReferencedKeyResolves(e: Json, index: nat, env: map<string, string>, name: string)
    requires name != [] && forall i :: 0 <= i < |name| ==> name[i] != '}'
    requires e.JObj? && "api_key" in e.fields && e.fields["api_key"] == JStr("${" + name + "}")
    ensures ValidateProviderEntry(e, index, env).Some? ==>
      ValidateProviderEntry(e, index, env).value.apiKey == EnvValue(env, Trim(name))
    ensures EnvValue(env, Trim(name)) == "" ==> ValidateProviderEntry(e, index, env).None?
  {
    InterpolateAtReference(name, "", env);
    assert "${" + name + "}" + "" == "${" + name + "}";
    assert GetString(e, "api_key") == Some("${" + name + "}");
  }

  /** An entry without a string `id` is named after its position. */
  lemma {:induction false} DefaultIdFromIndex(raw: Json, index: nat, env: map<string, string>)
    requires GetString(raw, "id").None?
    requires ValidateProviderEntry(raw, index, env).Some?
    ensures ValidateProviderEntry(raw, index, env).value.id == "provider-" + NatToString(index)
    ensures forall other: nat :: other != index && ValidateProviderEntry(raw, other, env).Some? ==>
      ValidateProviderEntry(raw, other, env).value.id != ValidateProviderEntry(raw, index, env).value.id
  {
    forall other: nat | other != index && ValidateProviderEntry(raw, other, env).Some?
      ensures ValidateProviderEntry(raw, other, env).value.id != ValidateProviderEntry(raw, index, env).value.id
    {
      var a := "provider-" + NatToString(other);
      var b := "provider-" + NatToString(index);
      if a == b {
        assert a[9..] == NatToString(other) && b[9..] == NatToString(index);
        NatToStringInjective(other, index);
      }
    }
  }

  // ── The whole file ───────────────────────────────

  /** Entry `i` validated with index `i`. */
  function Validated(items: seq<Json>, env: map<string, string>): (r: seq<Option<ProviderInstanceConfig>>)
    ensures |r| == |items|
  {
    seq(|items|, i requires 0 <= i < |items| => ValidateProviderEntry(items[i], i, env))
  }

  /** The kept entries, in file order. */
  function ValidEntries(items: seq<Json>, env: map<string, string>): seq<ProviderInstanceConfig>
  {
    Somes(Validated(items, env))
  }

  /** Each kept configuration is valid and comes from the entry at some
      index, and every entry that validates is kept. */
  lemma {:induction false} ValidEntriesFacts(items: seq<Json>, env: map<string, string>)
    ensures forall c :: c in ValidEntries(items, env) ==> ValidConfig(c)
    ensures forall c :: c in ValidEntries(items, env) <==>
      exists i :: 0 <= i < |items| && ValidateProviderEntry(items[i], i, env) == Some(c)
  {
    var vs := Validated(items, env);
    forall c
      ensures c in ValidEntries(items, env) <==>
        exists i :: 0 <= i < |items| && ValidateProviderEntry(items[i], i, env) == Some(c)
    {
      SomesMembership(vs, c);
      if Some(c) in vs {
        var i :| 0 <= i < |vs| && vs[i] == Some(c);
        assert ValidateProviderEntry(items[i], i, env) == Some(c);
      }
      if exists i :: 0 <= i < |items| && ValidateProviderEntry(items[i], i, env) == Some(c) {
        var i :| 0 <= i < |items| && ValidateProviderEntry(items[i], i, env) == Some(c);
        assert vs[i] == Some(c);
      }
    }
    forall c | c in ValidEntries(items, env)
      ensures ValidConfig(c)
    {
      var i :| 0 <= i < |items| && ValidateProviderEntry(items[i], i, env) == Some(c);
    }
  }

  /** The loop over `providers`, collecting what validates. */
  method CollectProviders(items: seq<Json>, env: map<string, string>) returns (providers: seq<ProviderInstanceConfig>)
    ensures providers == ValidEntries(items, env)
    ensures forall c :: c in providers ==> ValidConfig(c)
  {
    ghost var vs := Validated(items, env);
    providers := [];
    var i := 0;
    while i < |items|
      invariant 0 <= i <= |items|
      invariant providers == Somes(vs[..i])
    {
      var config := ValidateProviderEntry(items[i], i, env);
      assert vs[..i + 1][..i] == vs[..i] && vs[..i + 1][i] == config;
      if config.Some? {
        providers := providers + [config.value];
      }
      i := i + 1;
    }
    assert vs[..i] == vs;
    ValidEntriesFacts(items, env);
  }

  /** The `routing` section: an object or array value is read, anything
      else reads as empty. */
  function RoutingSection(raw: Json): Json
  {
    match Get(raw, "routing")
    case Some(v) => if IsObject(v) then v else JObj(map[])
    case None => JObj(map[])
  }

  /** `default_strategy` if it names a strategy, else exhaust;
      `retry_after_seconds` if it is a number, else 300. */
  function ParseRouting(raw: Json): (r: RoutingConfig)
    ensures GetString(RoutingSection(raw), "default_strategy").None? ==> r.defaultStrategy == Exhaust
    ensures r.defaultStrategy == RoundRobin <==>
      GetString(RoutingSection(raw), "default_strategy") == Some("round-robin")
    ensures (match Get(RoutingSection(raw), "retry_after_seconds")
             case Some(JNum(n)) => r.retryAfterSeconds == n
             case _ => r.retryAfterSeconds == DefaultRetryAfterSeconds)
  {
    var section := RoutingSection(raw);
    var strategy := match GetString(section, "default_strategy")
      case Some(s) => ParseRoutingStrategy(s).GetOr(Exhaust)
      case None => Exhaust;
    var retry := match Get(section, "retry_after_seconds")
      case Some(JNum(n)) => n
      case _ => DefaultRetryAfterSeconds;
    RoutingConfig(strategy, retry)
  }

  /** The `providers` list, or none when it is not an array. */
  function ProviderEntries(raw: Json): seq<Json>
  {
    match Get(raw, "providers")
    case Some(JArr(items)) => items
    case _ => []
  }

  /** `loadProvidersConfig` on the parsed file (`None` if it does not
      exist). A document that parses to `null` makes the property access
      throw a `TypeError`. */
  function LoadProvidersConfig(file: Option<Json>, env: map<string, string>): (r: Result<ProvidersConfig, string>)
    ensures file.None? ==> r == Success(ProvidersConfig(DefaultRouting, []))
    ensures r.Failure? <==> file == Some(JNull)
    ensures r.Success? ==> forall c :: c in r.value.providers ==> ValidConfig(c)
    ensures r.Success? && file.Some? ==>
      forall c :: c in r.value.providers <==>
        exists i :: 0 <= i < |ProviderEntries(file.value)| &&
          ValidateProviderEntry(ProviderEntries(file.value)[i], i, env) == Some(c)
    ensures r.Success? && file.Some? ==>
      && r.value.providers == ValidEntries(ProviderEntries(file.value), env)
      && r.value.routing == ParseRouting(file.value)
  {
    match file
    case None => Success(ProvidersConfig(DefaultRouting, []))
    case Some(JNull) => Failure("TypeError: Cannot read properties of null (reading 'routing')")
    case Some(raw) =>
      ValidEntriesFacts(ProviderEntries(raw), env);
      Success(ProvidersConfig(ParseRouting(raw), ValidEntries(ProviderEntries(raw), env)))
  }

  /** A document without a routing section gets the default routing. */
  lemma {:induction false} RoutingDefaults(raw: Json, env: map<string, string>)
    requires raw != JNull && Get(raw, "routing").None?
    ensures LoadProvidersConfig(Some(raw), env).value.routing == DefaultRouting
  {
  }

  /** Every loaded configuration is one the registry can build a backend
      for, so every loaded id ends up registered. */
  lemma {:induction false} LoadedProvidersRegister(file: Option<Json>, env: map<string, string>)
    requires LoadProvidersConfig(file, env).Success?
    ensures var config := LoadProvidersConfig(file, env).value;
      forall c :: c in config.providers ==>
        Registry.Handled(c) && c.id in Registry.Ids(Registry.NewRegistry(config).instances)
  {
    var config := LoadProvidersConfig(file, env).value;
    forall c | c in config.providers
      ensures Registry.Handled(c)
    {
      assert ValidConfig(c);
    }
  }
}
