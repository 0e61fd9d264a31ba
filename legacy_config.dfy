/**
 * rq_dashboard/legacy_config.py: settings renamed in later releases. Each
 * legacy key found in the configuration is copied to its new name, with a
 * deprecation warning; the legacy key itself stays.
 */
module LegacyConfig {
  import opened Wrappers
  import opened Json
  import opened Settings

  /** `LEGACY_CONFIG_OPTIONS`, in its declared order: (legacy name, new name). */
  const LegacyOptions: seq<(string, string)> := [
    ("REDIS_URL", "RQ_DASHBOARD_REDIS_URL"),
    ("REDIS_HOST", "RQ_DASHBOARD_REDIS_HOST"),
    ("REDIS_PORT", "RQ_DASHBOARD_REDIS_PORT"),
    ("REDIS_PASSWORD", "RQ_DASHBOARD_REDIS_PASSWORD"),
    ("REDIS_DB", "RQ_DASHBOARD_REDIS_DB"),
    ("REDIS_SENTINELS", "RQ_DASHBOARD_REDIS_SENTINELS"),
    ("REDIS_MASTER_NAME", "RQ_DASHBOARD_REDIS_MASTER_NAME"),
    ("RQ_POLL_INTERVAL", "RQ_DASHBOARD_POLL_INTERVAL"),
    ("WEB_BACKGROUND", "RQ_DASHBOARD_WEB_BACKGROUND"),
    ("DELETE_JOBS", "RQ_DASHBOARD_DELETE_JOBS")
  ]

  /** `warning_template` filled in (the template's own spelling kept). */
  function Warning(oldName: string, newName: string): (w: string)
    ensures |w| > |oldName| + |newName|
  {
    "Configuration option " + oldName + " is depricated and will be removed in future versions. "
    + "Please use " + newName + " instead."
  }

  /** No legacy name is also a new name, and no two options share a new name. */
  predicate WellFormedOptions(options: seq<(string, string)>)
  {
    && (forall i, j :: 0 <= i < |options| && 0 <= j < |options| ==> options[i].0 != options[j].1)
    && (forall i, j :: 0 <= i < j < |options| ==> options[i].1 != options[j].1)
  }

  /** The length and the 20th character of each new name, in table order; no two options share both. */
  const NewNameLengths: seq<nat> := [22, 23, 23, 27, 21, 28, 30, 26, 27, 24]
  const NewNameMarks: seq<char> := ['U', 'H', 'P', 'P', 'D', 'S', 'M', 'N', 'C', '_']

  lemma NewNameSignatures(i: nat)
    requires i < |LegacyOptions|
    ensures var n := LegacyOptions[i].1; |n| == NewNameLengths[i] && n[19] == NewNameMarks[i]
  {
  }

  /** Every new name starts with `RQ_DASHBOARD_`. */
  lemma NewNamePrefix(i: nat)
    requires i < |LegacyOptions|
    ensures var n := LegacyOptions[i].1; n[..13] == "RQ_DASHBOARD_"
  {
  }

  /** No legacy name starts with `RQ_DASHBOARD_`: none has `_D` at its third and fourth characters. */
  lemma LegacyNamePrefix(i: nat)
    requires i < |LegacyOptions|
    ensures var o := LegacyOptions[i].0; |o| < 13 || o[..13] != "RQ_DASHBOARD_"
  {
    var o := LegacyOptions[i].0;
    assert |o| < 13 || o[2] != '_' || o[3] != 'D';
  }

  /** The actual table is well formed: every new name starts with `RQ_DASHBOARD_`, no legacy name does, and the new names differ. */
  lemma LegacyOptionsWellFormed()
    ensures WellFormedOptions(LegacyOptions)
  {
    forall i, j | 0 <= i < |LegacyOptions| && 0 <= j < |LegacyOptions|
      ensures LegacyOptions[i].0 != LegacyOptions[j].1
    {
      LegacyNamePrefix(i);
      NewNamePrefix(j);
    }
    forall i, j | 0 <= i < j < |LegacyOptions|
      ensures LegacyOptions[i].1 != LegacyOptions[j].1
    {
      NewNameSignatures(i);
      NewNameSignatures(j);
      assert NewNameLengths[i] != NewNameLengths[j] || NewNameMarks[i] != NewNameMarks[j];
    }
  }

  /** The configuration after the loop has handled `options`, in order: no setting is removed. */
  function Upgraded(config: Dict, options: seq<(string, string)>): (r: Dict)
    ensures config.Keys <= r.Keys
    decreases |options|
  {
    if options == [] then config
    else
      var before := Upgraded(config, options[..|options| - 1]);
      var (oldName, newName) := options[|options| - 1];
      if oldName in before then before[newName := before[oldName]] else before
  }

  /** The new names of `options`. */
  function NewNames(options: seq<(string, string)>): set<string>
  {
    set o | o in options :: o.1
  }

  /** The only keys the upgrade adds are new names. */
  lemma {:induction false} UpgradedKeys(config: Dict, options: seq<(string, string)>)
    ensures Upgraded(config, options).Keys <= config.Keys + NewNames(options)
  {
    if options != [] {
      var init := options[..|options| - 1];
      UpgradedKeys(config, init);
      assert NewNames(init) <= NewNames(options) by {
        forall n | n in NewNames(init) ensures n in NewNames(options) {
          var o :| o in init && o.1 == n;
          assert o in options;
        }
      }
      assert options[|options| - 1].1 in NewNames(options);
    }
  }

  /** The warnings issued for `options`, in order: one per legacy key present. */
  function Warnings(config: Dict, options: seq<(string, string)>): (ws: seq<string>)
    ensures |ws| <= |options|
  {
    if options == [] then []
    else
      var (oldName, newName) := options[|options| - 1];
      Warnings(config, options[..|options| - 1]) + (if oldName in config then [Warning(oldName, newName)] else [])
  }

  /**
   * What the loop leaves, key by key: a present legacy key's value under
   * its new name, and every other key as it was (legacy keys included).
   */
  lemma {:induction false} UpgradedCharacterised(config: Dict, options: seq<(string, string)>)
    requires WellFormedOptions(options)
    ensures var r := Upgraded(config, options);
      && (forall j :: 0 <= j < |options| && options[j].0 in config ==> Lookup(r, options[j].1) == Some(config[options[j].0]))
      && (forall j :: 0 <= j < |options| && options[j].0 !in config ==> Lookup(r, options[j].1) == Lookup(config, options[j].1))
      && (forall k :: (forall j :: 0 <= j < |options| ==> options[j].1 != k) ==> Lookup(r, k) == Lookup(config, k))
  {
    if options != [] {
      var init := options[..|options| - 1];
      assert WellFormedOptions(init);
      UpgradedCharacterised(config, init);
      var before := Upgraded(config, init);
      var (oldName, newName) := options[|options| - 1];
      assert Lookup(before, oldName) == Lookup(config, oldName) by {
        assert forall j :: 0 <= j < |init| ==> init[j].1 != oldName;
      }
    }
  }

  /**
   * On the actual table: each legacy setting present is copied to its new
   * name, overriding whatever the new name held; with the legacy setting
   * absent the new name keeps its value; keys that are no new name are untouched.
   */
  lemma LegacyTableUpgrade(config: Dict)
    ensures forall j :: 0 <= j < |LegacyOptions| && LegacyOptions[j].0 in config ==>
      Lookup(Upgraded(config, LegacyOptions), LegacyOptions[j].1) == Some(config[LegacyOptions[j].0])
    ensures forall j :: 0 <= j < |LegacyOptions| && LegacyOptions[j].0 !in config ==>
      Lookup(Upgraded(config, LegacyOptions), LegacyOptions[j].1) == Lookup(config, LegacyOptions[j].1)
    ensures forall k :: (forall j :: 0 <= j < |LegacyOptions| ==> LegacyOptions[j].1 != k) ==>
      Lookup(Upgraded(config, LegacyOptions), k) == Lookup(config, k)
  {
    LegacyOptionsWellFormed();
    UpgradedCharacterised(config, LegacyOptions);
  }

  /** Legacy keys are kept as they were. */
  lemma LegacyKeysKept(config: Dict)
    ensures forall j :: 0 <= j < |LegacyOptions| ==>
      Lookup(Upgraded(config, LegacyOptions), LegacyOptions[j].0) == Lookup(config, LegacyOptions[j].0)
  {
    LegacyOptionsWellFormed();
    UpgradedCharacterised(config, LegacyOptions);
  }

  /** Running the upgrade twice changes nothing more. */
  lemma UpgradeIdempotent(config: Dict)
    ensures Upgraded(Upgraded(config, LegacyOptions), LegacyOptions) == Upgraded(config, LegacyOptions)
  {
    LegacyOptionsWellFormed();
    var once := Upgraded(config, LegacyOptions);
    var twice := Upgraded(once, LegacyOptions);
    UpgradedCharacterised(config, LegacyOptions);
    UpgradedCharacterised(once, LegacyOptions);
    forall k ensures Lookup(twice, k) == Lookup(once, k) {
      if j :| 0 <= j < |LegacyOptions| && LegacyOptions[j].1 == k {
        var o := LegacyOptions[j].0;
        assert Lookup(once, o) == Lookup(config, o);
      }
    }
    LookupExtensional(twice, once);
  }

  /** A warning is issued for every legacy key present, naming it and its replacement. */
  lemma {:induction false} WarningsPerPresentKey(config: Dict, options: seq<(string, string)>)
    ensures forall j :: 0 <= j < |options| && options[j].0 in config ==> Warning(options[j].0, options[j].1) in Warnings(config, options)
  {
    if options != [] {
      var init := options[..|options| - 1];
      WarningsPerPresentKey(config, init);
      assert forall j :: 0 <= j < |init| ==> init[j] == options[j];
    }
  }

  /** Exactly as many warnings as legacy keys present. */
  lemma {:induction false} WarningsCount(config: Dict, options: seq<(string, string)>)
    ensures |Warnings(config, options)| == |set j | 0 <= j < |options| && options[j].0 in config|
  {
    if options != [] {
      var init := options[..|options| - 1];
      WarningsCount(config, init);
      PresentStep(config, options);
    }
  }

  /** The positions of present legacy keys grow by the last position exactly when its key is present. */
  lemma PresentStep(config: Dict, options: seq<(string, string)>)
    requires options != []
    ensures var n := |options| - 1;
      var present := set j | 0 <= j < |options| && options[j].0 in config;
      var presentInit := set j | 0 <= j < n && options[..n][j].0 in config;
      present == presentInit + (if options[n].0 in config then {n} else {}) && n !in presentInit
  {
    var n := |options| - 1;
    var init := options[..n];
    assert forall j :: 0 <= j < n ==> init[j] == options[j];
  }

  /** One turn of the upgrade loop, in terms of the options before it. */
  lemma UpgradeStep(config: Dict, options: seq<(string, string)>, i: nat)
    requires WellFormedOptions(options)
    requires i < |options|
    ensures options[i].0 in Upgraded(config, options[..i]) <==> options[i].0 in config
    ensures var before := Upgraded(config, options[..i]);
      Upgraded(config, options[..i + 1])
      == if options[i].0 in config then before[options[i].1 := before[options[i].0]] else before
    ensures Warnings(config, options[..i + 1])
      == Warnings(config, options[..i]) + if options[i].0 in config then [Warning(options[i].0, options[i].1)] else []
  {
    assert options[..i + 1][..i] == options[..i];
    var init := options[..i];
    assert WellFormedOptions(init);
    UpgradedCharacterised(config, init);
    assert forall j :: 0 <= j < |init| ==> init[j].1 != options[i].0;
    assert Lookup(Upgraded(config, init), options[i].0) == Lookup(config, options[i].0);
  }

  /**
   * `upgrade_config(app)`: for each option in table order, a present legacy
   * key is announced and its value written under the new name.
   */
  method UpgradeConfig(config: Config) returns (warnings: seq<string>)
    modifies config
    ensures config.entries == Upgraded(old(config.entries), LegacyOptions)
    ensures warnings == Warnings(old(config.entries), LegacyOptions)
  {
    LegacyOptionsWellFormed();
    var base := config.entries;
    var entries := base;
    warnings := [];
    for i := 0 to |LegacyOptions|
      invariant entries == Upgraded(base, LegacyOptions[..i])
      invariant warnings == Warnings(base, LegacyOptions[..i])
    {
      var (oldName, newName) := LegacyOptions[i];
      UpgradeStep(base, LegacyOptions, i);
      if oldName in entries {
        warnings := warnings + [Warning(oldName, newName)];
        entries := entries[newName := entries[oldName]];
      }
    }
    assert LegacyOptions[..|LegacyOptions|] == LegacyOptions;
    config.entries := entries;
  }
}
