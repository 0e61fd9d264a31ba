/**
 * rq_dashboard/app.py: the application factory's helpers. The URL prefix
 * normaliser, the truthy-string test, and the overlay of environment
 * variables onto the configuration (the environment is a parameter).
 */
module App {
  import opened Wrappers
  import opened Json
  import opened Text
  import opened Settings

  /** `_TRUTHY` */
  const Truthy: set<string> := {"1", "true", "yes", "on", "t", "y"}

  /** `_str_to_bool(value)`: the lower-cased text is one of the truthy words; nothing is trimmed. */
  function StrToBool(value: string): (b: bool)
    ensures b ==> 1 <= |value| <= 4
  {
    Lower(value) in Truthy
  }

  /** A text is true exactly when it is some truthy word written in any mix of case. */
  lemma StrToBoolIff(value: string)
    ensures StrToBool(value) <==>
      exists w :: w in Truthy && |w| == |value| && forall i :: 0 <= i < |value| ==> LowerChar(value[i]) == w[i]
  {
    if StrToBool(value) {
      var w := Lower(value);
      assert w in Truthy && |w| == |value| && forall i :: 0 <= i < |value| ==> LowerChar(value[i]) == w[i];
    }
    if exists w :: w in Truthy && |w| == |value| && forall i :: 0 <= i < |value| ==> LowerChar(value[i]) == w[i] {
      var w :| w in Truthy && |w| == |value| && forall i :: 0 <= i < |value| ==> LowerChar(value[i]) == w[i];
      assert Lower(value) == w;
    }
  }

  /** Every truthy word is accepted in any mix of case, e.g. "TRUE" and "Yes". */
  lemma StrToBoolIgnoresCase(word: string, variant: string)
    requires word in Truthy
    requires |variant| == |word| && forall i :: 0 <= i < |word| ==> LowerChar(variant[i]) == word[i]
    ensures StrToBool(variant)
  {
    assert Lower(variant) == word;
  }

  /** The all-capitals spelling of each truthy word is accepted. */
  lemma StrToBoolAcceptsCapitals(word: string)
    requires word in Truthy
    ensures StrToBool(Upper(word)) && StrToBool(word)
  {
    assert forall i :: 0 <= i < |word| ==> !('A' <= word[i] <= 'Z');
    LowerUpper(word);
    assert Lower(word) == word;
  }

  /** Surrounding spaces are not trimmed: " true" and "true " are false. */
  lemma StrToBoolNoTrim(word: string)
    ensures !StrToBool(" " + word)
    ensures !StrToBool(word + " ")
  {
    forall t | t in Truthy ensures |t| > 0 && t[0] != ' ' && t[|t| - 1] != ' ' {
    }
    var front := Lower(" " + word);
    assert front[0] == ' ';
    var back := Lower(word + " ");
    assert back[|back| - 1] == ' ';
  }

  /** Anything else, including "false", "0" and "", is false. */
  lemma StrToBoolRejects()
    ensures !StrToBool("false") && !StrToBool("0") && !StrToBool("") && !StrToBool("no")
  {
    assert Lower("false") == "false";
    assert Lower("0") == "0";
    assert Lower("no") == "no";
  }

  /**
   * `_normalize_prefix(raw_prefix)`: "" for None, "" or blank text;
   * otherwise the stripped text with a leading "/" added if missing and
   * every trailing "/" removed.
   */
  function NormalizePrefix(rawPrefix: Option<string>): (r: string)
    ensures rawPrefix.None? ==> r == ""
    ensures rawPrefix.Some? && (forall i :: 0 <= i < |rawPrefix.value| ==> IsSpace(rawPrefix.value[i])) ==> r == ""
    ensures r == "" || (r[0] == '/' && r[|r| - 1] != '/')
  {
    if rawPrefix.None? || rawPrefix.value == "" then ""
    else
      var prefix := Strip(rawPrefix.value, IsSpace);
      if prefix == "" then "" else Rooted(prefix)
  }

  /** A stripped, non-blank prefix with a leading "/" added if missing and every trailing "/" removed. */
  function Rooted(prefix: string): (r: string)
    requires prefix != ""
    ensures r == "" || (r[0] == '/' && r[|r| - 1] != '/')
  {
    var prefix := if StartsWith(prefix, "/") then prefix else "/" + prefix;
    assert prefix[0] == '/';
    RStripKeepsFirst(prefix, IsSlash);
    RStrip(prefix, IsSlash)
  }

  predicate IsSlash(c: char)
  {
    c == '/'
  }

  /** Text made only of slashes (after stripping) normalises to "". */
  lemma NormalizePrefixOnlySlashes(raw: string)
    requires |raw| > 0 && forall i :: 0 <= i < |raw| ==> raw[i] == '/'
    ensures NormalizePrefix(Some(raw)) == ""
  {
    assert !IsSpace(raw[0]) && !IsSpace(raw[|raw| - 1]);
    StripUntouched(raw, IsSpace);
    assert raw[..1] == "/";
    RStripAll(raw, IsSlash);
  }

  /** A bare name gains its leading slash: "rq" becomes "/rq". */
  lemma NormalizePrefixAddsSlash(raw: string)
    requires |raw| > 0 && !IsSpace(raw[0]) && !IsSpace(raw[|raw| - 1])
    requires raw[0] != '/' && raw[|raw| - 1] != '/'
    ensures NormalizePrefix(Some(raw)) == "/" + raw
  {
    StripUntouched(raw, IsSpace);
    assert !StartsWith(raw, "/");
  }

  lemma NormalizePrefixExample()
    ensures NormalizePrefix(Some("rq")) == "/rq"
  {
    NormalizePrefixAddsSlash("rq");
  }

  /** A result that does not end in whitespace is a fixed point. */
  lemma NormalizePrefixFixedPoint(raw: Option<string>)
    requires var p := NormalizePrefix(raw); p == "" || !IsSpace(p[|p| - 1])
    ensures NormalizePrefix(Some(NormalizePrefix(raw))) == NormalizePrefix(raw)
  {
    var p := NormalizePrefix(raw);
    if p != "" {
      NormalizeRooted(p);
    }
  }

  /** A prefix that starts with "/" and ends in neither "/" nor whitespace normalises to itself. */
  lemma NormalizeRooted(p: string)
    requires p != "" && p[0] == '/' && p[|p| - 1] != '/' && !IsSpace(p[|p| - 1])
    ensures NormalizePrefix(Some(p)) == p
  {
    assert !IsSpace(p[0]);
    StripUntouched(p, IsSpace);
    RootedFixed(p);
  }

  /** A prefix that already starts with "/" and does not end with one is left as it is. */
  lemma RootedFixed(p: string)
    requires p != "" && p[0] == '/' && p[|p| - 1] != '/'
    ensures Rooted(p) == p
  {
    assert StartsWith(p, "/") by {
      assert p[..1] == [p[0]];
    }
    RStripLast(p, IsSlash);
  }

  /** Not idempotent: "a /" gives "/a ", which in turn gives "/a". */
  lemma NormalizePrefixNotIdempotent()
    ensures NormalizePrefix(Some("a /")) == "/a "
    ensures NormalizePrefix(Some(NormalizePrefix(Some("a /")))) == "/a"
  {
    NormalizeTrailingSlash();
    NormalizeTrailingSpace();
  }

  lemma NormalizeTrailingSlash()
    ensures NormalizePrefix(Some("a /")) == "/a "
  {
    var raw := "a /";
    assert raw[0] == 'a' && raw[|raw| - 1] == '/';
    NormalizeUnpadded(raw);
    RootedTrailingSlash();
  }

  /** A prefix without surrounding whitespace is only rooted. */
  lemma NormalizeUnpadded(p: string)
    requires p != "" && !IsSpace(p[0]) && !IsSpace(p[|p| - 1])
    ensures NormalizePrefix(Some(p)) == Rooted(p)
  {
    StripUntouched(p, IsSpace);
  }

  /** "a /" gains its leading slash and loses its trailing one, keeping the space before it. */
  lemma RootedTrailingSlash()
    ensures Rooted("a /") == "/a "
  {
    var p := "a /";
    assert !StartsWith(p, "/") by {
      assert p[0] != '/';
    }
    var q := "/" + p;
    RStripLast(q, IsSlash);
    assert q[..3] == "/a ";
    RStripLast(q[..3], IsSlash);
  }

  lemma NormalizeTrailingSpace()
    ensures NormalizePrefix(Some("/a ")) == "/a"
  {
    var raw := "/a ";
    LStripKeeps(raw, IsSpace);
    RStripLast(raw, IsSpace);
    assert raw[..2] == "/a";
    RStripLast(raw[..2], IsSpace);
    var p := Strip(raw, IsSpace);
    assert p == "/a";
    assert StartsWith(p, "/") by {
      assert p[..1] == "/";
    }
    RStripLast(p, IsSlash);
    assert NormalizePrefix(Some(raw)) == RStrip(p, IsSlash);
  }

  /** Python truthiness of an optional string: present and non-empty. */
  predicate Truthful(s: Option<string>)
  {
    s.Some? && s.value != ""
  }

  const RedisUrlKey: string := "RQ_DASHBOARD_REDIS_URL"
  const LegacyRedisUrlKey: string := "REDIS_URL"
  const DefaultRedisUrl: string := "redis://redis:6379/0"
  const DisableDeleteKey: string := "RQ_DASHBOARD_DISABLE_DELETE"
  const PollIntervalKey: string := "RQ_DASHBOARD_POLL_INTERVAL"
  const JsonSerializerKey: string := "RQ_DASHBOARD_JSON_SERIALIZER"
  const ApplicationRootKey: string := "APPLICATION_ROOT"
  const PreferredSchemeKey: string := "PREFERRED_URL_SCHEME"
  const DashboardPrefix: string := "RQ_DASHBOARD_"

  /** The variables the generic copy skips: handled above, or consumed by the factory itself. */
  const Excluded: set<string> := {
    "RQ_DASHBOARD_REDIS_URL",
    "RQ_DASHBOARD_DISABLE_DELETE",
    "RQ_DASHBOARD_POLL_INTERVAL",
    "RQ_DASHBOARD_JSON_SERIALIZER",
    "RQ_DASHBOARD_URL_PREFIX",
    "RQ_DASHBOARD_USERNAME",
    "RQ_DASHBOARD_PASSWORD",
    "RQ_DASHBOARD_CONFIG"
  }

  /** `RQ_DASHBOARD_REDIS_URL or REDIS_URL` as Python's `or` picks it. */
  function RedisUrl(env: map<string, string>): (r: Option<string>)
    ensures Truthful(Lookup(env, RedisUrlKey)) ==> r == Lookup(env, RedisUrlKey)
    ensures !Truthful(Lookup(env, RedisUrlKey)) ==> r == Lookup(env, LegacyRedisUrlKey)
  {
    var primary := Lookup(env, RedisUrlKey);
    if Truthful(primary) then primary else Lookup(env, LegacyRedisUrlKey)
  }

  /** Whether the generic loop copies the variable `key`. */
  predicate IsCopied(key: string)
  {
    StartsWith(key, DashboardPrefix) && key !in Excluded
  }

  /** The variables among `keys` copied verbatim: every other `RQ_DASHBOARD_*` one. */
  function Copied(env: map<string, string>, keys: set<string>): (r: Dict)
    ensures forall k :: k in r <==> k in keys && k in env && IsCopied(k)
    ensures forall k :: k in r ==> r[k] == Str(env[k])
  {
    map k | k in keys && k in env && IsCopied(k) :: Str(env[k])
  }

  /** Visiting one more variable adds it to the copy exactly when it qualifies. */
  lemma CopiedStep(env: map<string, string>, keys: set<string>, key: string)
    requires key in env
    ensures IsCopied(key) ==> Copied(env, keys + {key}) == Copied(env, keys)[key := Str(env[key])]
    ensures !IsCopied(key) ==> Copied(env, keys + {key}) == Copied(env, keys)
  {
    if IsCopied(key) {
      LookupExtensional(Copied(env, keys + {key}), Copied(env, keys)[key := Str(env[key])]);
    } else {
      LookupExtensional(Copied(env, keys + {key}), Copied(env, keys));
    }
  }

  /** The Redis URL step: the environment's URL, else the default where the setting is missing or None. */
  function RedisUrlStep(config: Dict, env: map<string, string>): (r: Dict)
    ensures r.Keys == config.Keys + {RedisUrlKey}
  {
    var redisUrl := RedisUrl(env);
    if Truthful(redisUrl) then config[RedisUrlKey := Str(redisUrl.value)]
    else if Lookup(config, RedisUrlKey) == None || Lookup(config, RedisUrlKey) == Some(Null) then config[RedisUrlKey := Str(DefaultRedisUrl)]
    else config
  }

  /** The delete-switch step: set, as a boolean, whenever the variable is present. */
  function DisableDeleteStep(config: Dict, env: map<string, string>): (r: Dict)
    ensures config.Keys <= r.Keys <= config.Keys + {DisableDeleteKey}
  {
    var disableDelete := Lookup(env, DisableDeleteKey);
    if disableDelete.Some? then config[DisableDeleteKey := Flag(StrToBool(disableDelete.value))] else config
  }

  /** The poll-interval step: set only when the variable is non-empty and parses as an integer. */
  function PollIntervalStep(config: Dict, env: map<string, string>): (r: Dict)
    ensures config.Keys <= r.Keys <= config.Keys + {PollIntervalKey}
  {
    var pollInterval := Lookup(env, PollIntervalKey);
    if Truthful(pollInterval) && ParseInt(pollInterval.value).Some? then config[PollIntervalKey := Num(ParseInt(pollInterval.value).value)]
    else config
  }

  /** The closing step: `APPLICATION_ROOT`, and `PREFERRED_URL_SCHEME` unless already set. */
  function RootStep(config: Dict, env: map<string, string>, urlPrefix: string): (r: Dict)
    ensures r.Keys == config.Keys + {ApplicationRootKey, PreferredSchemeKey}
  {
    var c := config[ApplicationRootKey := Str(if urlPrefix == "" then "/" else urlPrefix)];
    if PreferredSchemeKey in c then c else c[PreferredSchemeKey := Str(Lookup(env, PreferredSchemeKey).GetOr("http"))]
  }

  /**
   * The configuration `_apply_environment_config` leaves, step by step. No setting is
   * removed; the Redis URL, the application root and the URL scheme are always set; and
   * a new key is either a copied variable or one of the keys the steps write.
   */
  function EnvironmentOverlay(config: Dict, env: map<string, string>, urlPrefix: string): (r: Dict)
    ensures config.Keys <= r.Keys
    ensures RedisUrlKey in r && ApplicationRootKey in r && PreferredSchemeKey in r
    ensures forall k :: k in r && k !in config ==>
      (k in env && IsCopied(k)) || k in {RedisUrlKey, DisableDeleteKey, PollIntervalKey, ApplicationRootKey, PreferredSchemeKey}
  {
    var c := PollIntervalStep(DisableDeleteStep(RedisUrlStep(config, env), env), env);
    RootStep(c + Copied(env, env.Keys), env, urlPrefix)
  }

  /** The keys the steps write are pairwise different, and only the copy step writes other `RQ_DASHBOARD_*` keys. */
  lemma StepKeysDistinct()
    ensures RedisUrlKey != DisableDeleteKey && RedisUrlKey != PollIntervalKey && DisableDeleteKey != PollIntervalKey
    ensures !IsCopied(RedisUrlKey) && !IsCopied(DisableDeleteKey) && !IsCopied(PollIntervalKey)
    ensures !StartsWith(ApplicationRootKey, DashboardPrefix) && !StartsWith(PreferredSchemeKey, DashboardPrefix)
    ensures ApplicationRootKey != PreferredSchemeKey
    ensures forall k :: StartsWith(k, DashboardPrefix) ==> k != ApplicationRootKey && k != PreferredSchemeKey
  {
    assert RedisUrlKey[13] != DisableDeleteKey[13];
    assert RedisUrlKey[13] != PollIntervalKey[13];
    assert DisableDeleteKey[13] != PollIntervalKey[13];
    assert ApplicationRootKey[0] != DashboardPrefix[0];
    assert PreferredSchemeKey[0] != DashboardPrefix[0];
    assert ApplicationRootKey[0] != PreferredSchemeKey[0];
    forall k | StartsWith(k, DashboardPrefix) ensures k != ApplicationRootKey && k != PreferredSchemeKey {
      assert k[0] == DashboardPrefix[0];
    }
  }

  /** The three `RQ_DASHBOARD_*` keys the steps write are in that namespace. */
  lemma StepKeysPrefixed()
    ensures StartsWith(RedisUrlKey, DashboardPrefix)
    ensures StartsWith(DisableDeleteKey, DashboardPrefix)
    ensures StartsWith(PollIntervalKey, DashboardPrefix)
  {
    assert RedisUrlKey[..13] == DashboardPrefix;
    assert DisableDeleteKey[..13] == DashboardPrefix;
    assert PollIntervalKey[..13] == DashboardPrefix;
  }

  /** A key neither copied nor written by the closing step keeps what the first three steps gave it. */
  lemma OverlayFrom(config: Dict, env: map<string, string>, urlPrefix: string, k: string)
    requires k != ApplicationRootKey && k != PreferredSchemeKey && !(k in env && IsCopied(k))
    ensures Lookup(EnvironmentOverlay(config, env, urlPrefix), k)
      == Lookup(PollIntervalStep(DisableDeleteStep(RedisUrlStep(config, env), env), env), k)
  {
    var c := PollIntervalStep(DisableDeleteStep(RedisUrlStep(config, env), env), env);
    assert k !in Copied(env, env.Keys);
    assert Lookup(c + Copied(env, env.Keys), k) == Lookup(c, k);
  }

  /** The copy step writes exactly the copied variables; the closing step writes only its two keys. */
  lemma LateStepsFrame(c: Dict, env: map<string, string>, urlPrefix: string, k: string)
    ensures k in env && IsCopied(k) ==> Lookup(c + Copied(env, env.Keys), k) == Some(Str(env[k]))
    ensures !(k in env && IsCopied(k)) ==> Lookup(c + Copied(env, env.Keys), k) == Lookup(c, k)
    ensures k != ApplicationRootKey && k != PreferredSchemeKey ==> Lookup(RootStep(c, env, urlPrefix), k) == Lookup(c, k)
  {
  }

  /** The closing keys are outside the excluded set. */
  lemma ClosingKeysNotExcluded()
    ensures ApplicationRootKey !in Excluded && PreferredSchemeKey !in Excluded
  {
    StepKeysDistinct();
    forall k | k in Excluded ensures StartsWith(k, DashboardPrefix) {
      assert k[..13] == DashboardPrefix;
    }
  }

  /** The first three steps each write only their own key. */
  lemma EarlyStepsFrame(config: Dict, env: map<string, string>, k: string)
    ensures k != RedisUrlKey ==> Lookup(RedisUrlStep(config, env), k) == Lookup(config, k)
    ensures k != DisableDeleteKey ==> Lookup(DisableDeleteStep(config, env), k) == Lookup(config, k)
    ensures k != PollIntervalKey ==> Lookup(PollIntervalStep(config, env), k) == Lookup(config, k)
  {
  }

  /**
   * Redis URL precedence: a non-empty `RQ_DASHBOARD_REDIS_URL` wins, then a
   * non-empty `REDIS_URL`; otherwise the default is written only where the
   * setting is missing or None, and any other value is kept.
   */
  lemma RedisUrlPrecedence(config: Dict, env: map<string, string>, urlPrefix: string)
    ensures var r := EnvironmentOverlay(config, env, urlPrefix);
      && (Truthful(Lookup(env, RedisUrlKey)) ==> Lookup(r, RedisUrlKey) == Some(Str(env[RedisUrlKey])))
      && (!Truthful(Lookup(env, RedisUrlKey)) && Truthful(Lookup(env, LegacyRedisUrlKey)) ==>
            Lookup(r, RedisUrlKey) == Some(Str(env[LegacyRedisUrlKey])))
      && (!Truthful(RedisUrl(env)) && (Lookup(config, RedisUrlKey) == None || Lookup(config, RedisUrlKey) == Some(Null)) ==>
            Lookup(r, RedisUrlKey) == Some(Str(DefaultRedisUrl)))
      && (!Truthful(RedisUrl(env)) && Lookup(config, RedisUrlKey) != None && Lookup(config, RedisUrlKey) != Some(Null) ==>
            Lookup(r, RedisUrlKey) == Lookup(config, RedisUrlKey))
  {
    StepKeysDistinct();
    StepKeysPrefixed();
    var c1 := RedisUrlStep(config, env);
    OverlayFrom(config, env, urlPrefix, RedisUrlKey);
    EarlyStepsFrame(c1, env, RedisUrlKey);
    EarlyStepsFrame(DisableDeleteStep(c1, env), env, RedisUrlKey);
  }

  /** `RQ_DASHBOARD_DISABLE_DELETE` is set, as a boolean, exactly when the variable is present. */
  lemma DisableDeleteIffPresent(config: Dict, env: map<string, string>, urlPrefix: string)
    ensures var r := EnvironmentOverlay(config, env, urlPrefix);
      && (DisableDeleteKey in env ==> Lookup(r, DisableDeleteKey) == Some(Flag(StrToBool(env[DisableDeleteKey]))))
      && (DisableDeleteKey !in env ==> Lookup(r, DisableDeleteKey) == Lookup(config, DisableDeleteKey))
  {
    StepKeysDistinct();
    StepKeysPrefixed();
    var c1 := RedisUrlStep(config, env);
    OverlayFrom(config, env, urlPrefix, DisableDeleteKey);
    EarlyStepsFrame(config, env, DisableDeleteKey);
    EarlyStepsFrame(DisableDeleteStep(c1, env), env, DisableDeleteKey);
  }

  /** A non-empty integer poll interval is stored as a number; anything else leaves the setting as it was. */
  lemma PollIntervalParsed(config: Dict, env: map<string, string>, urlPrefix: string)
    ensures var r := EnvironmentOverlay(config, env, urlPrefix);
      var v := Lookup(env, PollIntervalKey);
      && (Truthful(v) && ParseInt(v.value).Some? ==> Lookup(r, PollIntervalKey) == Some(Num(ParseInt(v.value).value)))
      && (!(Truthful(v) && ParseInt(v.value).Some?) ==> Lookup(r, PollIntervalKey) == Lookup(config, PollIntervalKey))
  {
    StepKeysDistinct();
    StepKeysPrefixed();
    var c1 := RedisUrlStep(config, env);
    OverlayFrom(config, env, urlPrefix, PollIntervalKey);
    EarlyStepsFrame(config, env, PollIntervalKey);
    EarlyStepsFrame(c1, env, PollIntervalKey);
  }

  /**
   * The generic copy: every other `RQ_DASHBOARD_*` variable lands verbatim,
   * the excluded ones are never copied, and settings outside the
   * `RQ_DASHBOARD_` namespace other than the two closing keys are untouched.
   */
  lemma GenericCopy(config: Dict, env: map<string, string>, urlPrefix: string, k: string)
    ensures var r := EnvironmentOverlay(config, env, urlPrefix);
      && (k in env && IsCopied(k) ==> Lookup(r, k) == Some(Str(env[k])))
      && (k in Excluded && k != RedisUrlKey && k != DisableDeleteKey && k != PollIntervalKey ==> Lookup(r, k) == Lookup(config, k))
      && (!StartsWith(k, DashboardPrefix) && k != ApplicationRootKey && k != PreferredSchemeKey ==> Lookup(r, k) == Lookup(config, k))
  {
    StepKeysDistinct();
    StepKeysPrefixed();
    ClosingKeysNotExcluded();
    var c1 := RedisUrlStep(config, env);
    var c2 := DisableDeleteStep(c1, env);
    var c3 := PollIntervalStep(c2, env);
    if k != ApplicationRootKey && k != PreferredSchemeKey {
      LateStepsFrame(c3, env, urlPrefix, k);
      LateStepsFrame(c3 + Copied(env, env.Keys), env, urlPrefix, k);
      if k != RedisUrlKey && k != DisableDeleteKey && k != PollIntervalKey {
        EarlyStepsFrame(config, env, k);
        EarlyStepsFrame(c1, env, k);
        EarlyStepsFrame(c2, env, k);
      }
    }
  }

  /** `APPLICATION_ROOT` is the prefix or "/"; `PREFERRED_URL_SCHEME` is written only when missing. */
  lemma ClosingKeys(config: Dict, env: map<string, string>, urlPrefix: string)
    ensures var r := EnvironmentOverlay(config, env, urlPrefix);
      && Lookup(r, ApplicationRootKey) == Some(Str(if urlPrefix == "" then "/" else urlPrefix))
      && (PreferredSchemeKey in config ==> Lookup(r, PreferredSchemeKey) == Lookup(config, PreferredSchemeKey))
      && (PreferredSchemeKey !in config ==> Lookup(r, PreferredSchemeKey) == Some(Str(Lookup(env, PreferredSchemeKey).GetOr("http"))))
  {
    StepKeysDistinct();
    StepKeysPrefixed();
    var c1 := RedisUrlStep(config, env);
    var c2 := DisableDeleteStep(c1, env);
    var c3 := PollIntervalStep(c2, env);
    LateStepsFrame(c3, env, urlPrefix, PreferredSchemeKey);
    EarlyStepsFrame(config, env, PreferredSchemeKey);
    EarlyStepsFrame(c1, env, PreferredSchemeKey);
    EarlyStepsFrame(c2, env, PreferredSchemeKey);
  }

  /**
   * `_apply_environment_config(app, url_prefix)`: overlays the environment
   * on `config`, and reports whether the JSON serializer is switched on.
   */
  method ApplyEnvironmentConfig(config: Config, env: map<string, string>, urlPrefix: string) returns (jsonSerializer: bool)
    modifies config
    ensures config.entries == EnvironmentOverlay(old(config.entries), env, urlPrefix)
    ensures jsonSerializer == StrToBool(Lookup(env, JsonSerializerKey).GetOr("false"))
  {
    ApplyRedisUrl(config, env);
    ApplyDisableDelete(config, env);
    ApplyPollInterval(config, env);
    jsonSerializer := StrToBool(Lookup(env, JsonSerializerKey).GetOr("false"));
    CopyDashboardVariables(config, env);
    ApplyRoot(config, env, urlPrefix);
  }

  /** The Redis URL: the environment's value if truthy, else the default when the config has none. */
  method ApplyRedisUrl(config: Config, env: map<string, string>)
    modifies config
    ensures config.entries == RedisUrlStep(old(config.entries), env)
  {
    var redisUrl := RedisUrl(env);
    if Truthful(redisUrl) {
      config.entries := config.entries[RedisUrlKey := Str(redisUrl.value)];
    } else if Lookup(config.entries, RedisUrlKey) == None || Lookup(config.entries, RedisUrlKey) == Some(Null) {
      config.entries := config.entries[RedisUrlKey := Str(DefaultRedisUrl)];
    }
  }

  /** The delete switch, parsed from the environment only when the variable is set. */
  method ApplyDisableDelete(config: Config, env: map<string, string>)
    modifies config
    ensures config.entries == DisableDeleteStep(old(config.entries), env)
  {
    var disableDeleteEnv := Lookup(env, DisableDeleteKey);
    if disableDeleteEnv.Some? {
      config.entries := config.entries[DisableDeleteKey := Flag(StrToBool(disableDeleteEnv.value))];
    }
  }

  /** The poll interval, taken from the environment only when it is set, non-empty and an integer. */
  method ApplyPollInterval(config: Config, env: map<string, string>)
    modifies config
    ensures config.entries == PollIntervalStep(old(config.entries), env)
  {
    var pollIntervalEnv := Lookup(env, PollIntervalKey);
    if Truthful(pollIntervalEnv) {
      var parsed := ParseInt(pollIntervalEnv.value);
      if parsed.Some? {
        config.entries := config.entries[PollIntervalKey := Num(parsed.value)];
      }
    }
  }

  /** The application root from the URL prefix, and the preferred scheme unless the config already has one. */
  method ApplyRoot(config: Config, env: map<string, string>, urlPrefix: string)
    modifies config
    ensures config.entries == RootStep(old(config.entries), env, urlPrefix)
  {
    config.entries := config.entries[ApplicationRootKey := Str(if urlPrefix == "" then "/" else urlPrefix)];
    if PreferredSchemeKey !in config.entries {
      config.entries := config.entries[PreferredSchemeKey := Str(Lookup(env, PreferredSchemeKey).GetOr("http"))];
    }
  }

  /** The loop over `os.environ`: copies every qualifying variable, in whatever order the keys come. */
  method CopyDashboardVariables(config: Config, env: map<string, string>)
    modifies config
    ensures config.entries == old(config.entries) + Copied(env, env.Keys)
  {
    var base := config.entries;
    var entries := base;
    ghost var visited: set<string> := {};
    var keys := env.Keys;
    while keys != {}
      invariant keys <= env.Keys && visited == env.Keys - keys
      invariant entries == base + Copied(env, visited)
      decreases keys
    {
      var key :| key in keys;
      CopiedStep(env, visited, key);
      if StartsWith(key, DashboardPrefix) && key !in Excluded {
        UnionUpdate(base, Copied(env, visited), key, Str(env[key]));
        entries := entries[key := Str(env[key])];
      }
      keys := keys - {key};
      visited := visited + {key};
    }
    assert visited == env.Keys;
    config.entries := entries;
  }
}
