/** Validation of the parsed configuration and resolution of a profile
    against its monitor (src/config.rs). The two documents arrive already
    parsed, as the maps of a `Config`. */
module Configuration {
  import opened Wrappers
  import opened Text
  import opened HashMaps
  import opened ConfigTypes
  import opened Profile

  // ---------------------------------------------------------------------
  // Environment variable names
  // ---------------------------------------------------------------------

  predicate IsAsciiAlpha(c: char)
  {
    'A' <= c <= 'Z' || 'a' <= c <= 'z'
  }

  /** A character allowed after the first one of a name. */
  predicate IsNameChar(c: char)
  {
    IsAsciiAlpha(c) || IsDigit(c) || c == '_'
  }

  /** `chars.all(...)`: every character of `s` is allowed in a name. */
  predicate AllNameChars(s: string)
  {
    forall i :: 0 <= i < |s| ==> IsNameChar(s[i])
  }

  /** `is_valid_env_var_name`: a POSIX-style name. A valid name is never
      empty, never starts with a digit and never holds `=` or a space, the
      characters that would break `NAME=value`. */
  function IsValidEnvVarName(name: string): (valid: bool)
    ensures valid <==>
      && |name| > 0
      && (IsAsciiAlpha(name[0]) || name[0] == '_')
      && forall i :: 1 <= i < |name| ==> IsNameChar(name[i])
    ensures valid ==> !IsDigit(name[0]) && '=' !in name && ' ' !in name
  {
    if |name| == 0 then false
    else if !(IsAsciiAlpha(name[0]) || name[0] == '_') then false
    else
      assert forall i :: 1 <= i < |name| ==> name[i] == name[1..][i - 1];
      AllNameChars(name[1..])
  }

  /** Names the tests accept. */
  lemma ValidNameExamples()
    ensures IsValidEnvVarName("MY_VAR") && IsValidEnvVarName("_PRIVATE")
    ensures IsValidEnvVarName("var123") && IsValidEnvVarName("A") && IsValidEnvVarName("_")
  {
  }

  /** Some of the variable names this program itself sets are valid. */
  lemma ValidBaseNameExamples()
    ensures IsValidEnvVarName("SDL_VIDEODRIVER") && IsValidEnvVarName("DXVK_HDR")
    ensures IsValidEnvVarName("PROTON_ENABLE_WAYLAND")
  {
  }

  /** Names the tests reject: empty, a leading digit, and a character that
      is neither a letter, a digit nor `_`. */
  lemma InvalidNameExamples()
    ensures !IsValidEnvVarName("") && !IsValidEnvVarName("123VAR") && !IsValidEnvVarName("1")
    ensures !IsValidEnvVarName("MY=VAR") && !IsValidEnvVarName("VAR=")
    ensures !IsValidEnvVarName("MY VAR") && !IsValidEnvVarName(" VAR")
    ensures !IsValidEnvVarName("VAR$NAME") && !IsValidEnvVarName("VAR-NAME") && !IsValidEnvVarName("VAR.NAME")
  {
    assert "MY=VAR"[2] == '=';
    assert "VAR="[3] == '=';
    assert "MY VAR"[2] == ' ';
    assert "VAR$NAME"[3] == '$';
    assert "VAR-NAME"[3] == '-';
    assert "VAR.NAME"[3] == '.';
  }

  /** A name rejected by validation, and where it was found. */
  datatype InvalidName = EnvKey(name: string) | UnsetEntry(name: string)

  /** Why the configuration cannot be loaded or a profile resolved. */
  datatype ConfigError =
    | UnknownMonitor(monitor: string)
    | NoPrimaryMonitor
    | UnknownProfile(profile: string)
    | InvalidEnvNames(profile: string, invalid: seq<InvalidName>)
    | UnknownMonitorRef(profile: string, monitor: string)

  /** The invalid environment keys, in the order given. */
  function InvalidKeys(keys: seq<string>): (bad: seq<InvalidName>)
    ensures forall x :: x in bad <==> x.EnvKey? && x.name in keys && !IsValidEnvVarName(x.name)
    decreases |keys|
  {
    if |keys| == 0 then []
    else
      var last := keys[|keys| - 1];
      assert keys == keys[..|keys| - 1] + [last];
      InvalidKeys(keys[..|keys| - 1]) + (if IsValidEnvVarName(last) then [] else [EnvKey(last)])
  }

  /** The invalid unset entries, in the order given. */
  function InvalidUnset(unset: seq<string>): (bad: seq<InvalidName>)
    ensures forall x :: x in bad <==> x.UnsetEntry? && x.name in unset && !IsValidEnvVarName(x.name)
    decreases |unset|
  {
    if |unset| == 0 then []
    else
      var last := unset[|unset| - 1];
      assert unset == unset[..|unset| - 1] + [last];
      InvalidUnset(unset[..|unset| - 1]) + (if IsValidEnvVarName(last) then [] else [UnsetEntry(last)])
  }

  /** What validating a profile's names yields: success when nothing is
      invalid, else one error naming the profile and listing every invalid
      environment key, then every invalid unset entry. */
  function EnvNameCheck(profile: string, keys: seq<string>, unset: seq<string>): (check: Outcome<ConfigError>)
    ensures check.Pass? <==>
      (forall k :: k in keys ==> IsValidEnvVarName(k)) && (forall u :: u in unset ==> IsValidEnvVarName(u))
    ensures check.Fail? ==> check.error.InvalidEnvNames? && check.error.profile == profile
    ensures check.Fail? ==> forall k :: k in keys && !IsValidEnvVarName(k) ==> EnvKey(k) in check.error.invalid
    ensures check.Fail? ==> forall u :: u in unset && !IsValidEnvVarName(u) ==> UnsetEntry(u) in check.error.invalid
    ensures check.Fail? ==> forall x :: x in check.error.invalid ==>
      !IsValidEnvVarName(x.name) && (if x.EnvKey? then x.name in keys else x.name in unset)
    ensures check.Fail? ==> forall i, j :: 0 <= i < j < |check.error.invalid| && check.error.invalid[j].EnvKey? ==>
      check.error.invalid[i].EnvKey?
  {
    var invalid := InvalidKeys(keys) + InvalidUnset(unset);
    if |invalid| == 0 then
      assert InvalidKeys(keys) == [] && InvalidUnset(unset) == [];
      assert forall k :: k in keys ==> (EnvKey(k) in InvalidKeys(keys) <==> !IsValidEnvVarName(k));
      assert forall u :: u in unset ==> (UnsetEntry(u) in InvalidUnset(unset) <==> !IsValidEnvVarName(u));
      Pass
    else
      assert invalid[0] in invalid;
      KeysBeforeUnset(InvalidKeys(keys), InvalidUnset(unset));
      Fail(InvalidEnvNames(profile, invalid))
  }

  lemma KeysBeforeUnset(a: seq<InvalidName>, b: seq<InvalidName>)
    requires forall x :: x in a ==> x.EnvKey?
    requires forall x :: x in b ==> x.UnsetEntry?
    ensures forall i, j :: 0 <= i < j < |a + b| && (a + b)[j].EnvKey? ==> (a + b)[i].EnvKey?
  {
    assert forall k :: |a| <= k < |a + b| ==> (a + b)[k] == b[k - |a|] && b[k - |a|] in b;
    assert forall k :: 0 <= k < |a| ==> (a + b)[k] == a[k] && a[k] in a;
  }

  /** `validate_env_var_names`: collects the invalid keys, then the invalid
      unset entries, and fails with all of them. */
  method ValidateEnvVarNames(profile: string, keys: seq<string>, unset: seq<string>)
    returns (check: Outcome<ConfigError>)
    ensures check == EnvNameCheck(profile, keys, unset)
  {
    var invalid: seq<InvalidName> := [];
    for i := 0 to |keys|
      invariant invalid == InvalidKeys(keys[..i])
    {
      InvalidKeysStep(keys, i);
      if !IsValidEnvVarName(keys[i]) {
        invalid := invalid + [EnvKey(keys[i])];
      }
    }
    assert keys[..|keys|] == keys;
    for i := 0 to |unset|
      invariant invalid == InvalidKeys(keys) + InvalidUnset(unset[..i])
    {
      InvalidUnsetStep(unset, i);
      if !IsValidEnvVarName(unset[i]) {
        invalid := invalid + [UnsetEntry(unset[i])];
      }
    }
    assert unset[..|unset|] == unset;
    if |invalid| == 0 {
      check := Pass;
    } else {
      check := Fail(InvalidEnvNames(profile, invalid));
    }
  }

  lemma InvalidKeysStep(keys: seq<string>, i: nat)
    requires i < |keys|
    ensures InvalidKeys(keys[..i + 1])
      == InvalidKeys(keys[..i]) + (if IsValidEnvVarName(keys[i]) then [] else [EnvKey(keys[i])])
  {
    assert keys[..i + 1][..i] == keys[..i];
  }

  lemma InvalidUnsetStep(unset: seq<string>, i: nat)
    requires i < |unset|
    ensures InvalidUnset(unset[..i + 1])
      == InvalidUnset(unset[..i]) + (if IsValidEnvVarName(unset[i]) then [] else [UnsetEntry(unset[i])])
  {
    assert unset[..i + 1][..i] == unset[..i];
  }

  /** Validation passes when every name is valid. */
  lemma EnvNameCheckPassExample()
    ensures EnvNameCheck("test-profile", ["VALID_VAR", "_ANOTHER", "third123"], ["SDL_VIDEODRIVER"]) == Pass
  {
    ValidBaseNameExamples();
    var keys := ["VALID_VAR", "_ANOTHER", "third123"];
    assert IsValidEnvVarName(keys[0]) && IsValidEnvVarName(keys[1]) && IsValidEnvVarName(keys[2]);
  }

  /** A bad key is reported, and only it. */
  lemma EnvNameCheckKeyExample()
    ensures EnvNameCheck("test-profile", ["VALID", "INVALID=KEY"], [])
      == Fail(InvalidEnvNames("test-profile", [EnvKey("INVALID=KEY")]))
  {
    var keys := ["VALID", "INVALID=KEY"];
    assert IsValidEnvVarName(keys[0]);
    assert !IsValidEnvVarName(keys[1]) by { assert keys[1][7] == '='; }
    InvalidKeysStep(keys, 0);
    InvalidKeysStep(keys, 1);
    assert keys[..0] == [] && keys[..2] == keys;
    assert InvalidKeys(keys) == [EnvKey("INVALID=KEY")];
    assert InvalidKeys(keys) + InvalidUnset([]) == [EnvKey("INVALID=KEY")];
  }

  /** An empty unset entry is reported as such. */
  lemma EnvNameCheckUnsetExample()
    ensures EnvNameCheck("test-profile", [], [""]) == Fail(InvalidEnvNames("test-profile", [UnsetEntry("")]))
  {
    InvalidUnsetStep([""], 0);
    assert [""][..0] == [] && [""][..1] == [""];
    assert InvalidUnset([""]) == [UnsetEntry("")];
    assert InvalidKeys([]) + InvalidUnset([""]) == [UnsetEntry("")];
  }

  // ---------------------------------------------------------------------
  // Lookups
  // ---------------------------------------------------------------------

  /** `MonitorsConfig::get`: the named monitor, or an unknown-monitor error. */
  function GetMonitor(monitors: map<string, MonitorDef>, name: string): (r: Result<MonitorDef, ConfigError>)
    ensures r.Success? <==> name in monitors
    ensures r.Success? ==> r.value == monitors[name]
    ensures r.Failure? ==> r.error == UnknownMonitor(name)
  {
    if name in monitors then Success(monitors[name]) else Failure(UnknownMonitor(name))
  }

  /** Some monitor is marked primary. */
  predicate HasPrimary(monitors: map<string, MonitorDef>)
  {
    exists k :: k in monitors && monitors[k].primary
  }

  /** `MonitorsConfig::default_monitor`: a primary monitor and its name.
      Which one, when several are primary, depends on the map's iteration
      order, so the choice is left open. */
  method DefaultMonitor(monitors: map<string, MonitorDef>) returns (r: Result<(string, MonitorDef), ConfigError>)
    ensures r.Success? <==> HasPrimary(monitors)
    ensures r.Success? ==> r.value.0 in monitors && monitors[r.value.0] == r.value.1 && r.value.1.primary
    ensures r.Failure? ==> r.error == NoPrimaryMonitor
  {
    if k :| k in monitors && monitors[k].primary {
      r := Success((k, monitors[k]));
    } else {
      r := Failure(NoPrimaryMonitor);
    }
  }

  /** `ProfilesConfig::get`: the named profile, or an unknown-profile error. */
  function GetProfile(profiles: map<string, ProfileDef>, name: string): (r: Result<ProfileDef, ConfigError>)
    ensures r.Success? <==> name in profiles
    ensures r.Success? ==> r.value == profiles[name]
    ensures r.Failure? ==> r.error == UnknownProfile(name)
  {
    if name in profiles then Success(profiles[name]) else Failure(UnknownProfile(name))
  }

  /** Strictly ascending names, so none occurs twice. */
  predicate Ascending(names: seq<string>)
  {
    forall i, j :: 0 <= i < j < |names| ==> Less(names[i], names[j])
  }

  /** The keys of a listing, in its order. */
  function Keys<V>(s: seq<(string, V)>): (keys: seq<string>)
    ensures |keys| == |s| && forall i :: 0 <= i < |s| ==> keys[i] == s[i].0
  {
    seq(|s|, i requires 0 <= i < |s| => s[i].0)
  }

  /** `ProfilesConfig::names`: the profile names in ascending order. */
  method Names(profiles: map<string, ProfileDef>) returns (names: seq<string>)
    ensures Ascending(names)
    ensures forall n :: n in names <==> n in profiles
    ensures |names| == |profiles|
  {
    var sorted := SortByKey(profiles);
    names := Keys(sorted);
    ListingSize(sorted, profiles);
  }

  /** A listing has exactly as many entries as its map. */
  lemma {:induction false} ListingSize<V>(s: seq<(string, V)>, m: map<string, V>)
    requires Lists(s, m)
    ensures |s| == |m|
    decreases |s|
  {
    ListingEmpty(s, m);
    if |s| > 0 {
      TailListing(s, m);
      ListingSize(s[1..], m - {s[0].0});
    }
  }

  // ---------------------------------------------------------------------
  // Base options
  // ---------------------------------------------------------------------

  /** The gamescope defaults derived from a monitor: its size and refresh
      rate, the SDL backend, fullscreen, and adaptive sync when the monitor
      has VRR. */
  function BaseOptionTable(m: MonitorDef): (table: map<string, OptionValue>)
    ensures "backend" in table && table["backend"] == OptionValue.String("sdl")
    ensures forall k :: k in table && table[k].Bool? ==> table[k].b
  {
    var fixed := map[
      "backend" := OptionValue.String("sdl"),
      "fade-out-duration" := OptionValue.Int(200),
      "fullscreen" := OptionValue.Bool(true),
      "immediate-flips" := OptionValue.Bool(true),
      "nested-refresh" := OptionValue.Int(m.refreshRate),
      "output-height" := OptionValue.Int(m.height),
      "output-width" := OptionValue.Int(m.width),
      "rt" := OptionValue.Bool(true)];
    if m.vrr then fixed["adaptive-sync" := OptionValue.Bool(true)] else fixed
  }

  /** `base_options`: inserts the defaults one by one into an empty map. */
  method BaseOptions(m: MonitorDef) returns (opts: map<string, OptionValue>)
    ensures opts == BaseOptionTable(m)
  {
    opts := map[];
    opts := opts["backend" := OptionValue.String("sdl")];
    opts := opts["fade-out-duration" := OptionValue.Int(200)];
    opts := opts["fullscreen" := OptionValue.Bool(true)];
    opts := opts["immediate-flips" := OptionValue.Bool(true)];
    opts := opts["nested-refresh" := OptionValue.Int(m.refreshRate)];
    opts := opts["output-height" := OptionValue.Int(m.height)];
    opts := opts["output-width" := OptionValue.Int(m.width)];
    opts := opts["rt" := OptionValue.Bool(true)];
    if m.vrr {
      opts := opts["adaptive-sync" := OptionValue.Bool(true)];
    }
  }

  /** Eight defaults, nine with VRR; `adaptive-sync` is present exactly
      when the monitor has VRR, and the size and refresh rate are the
      monitor's own. */
  lemma BaseOptionFacts(m: MonitorDef)
    ensures |BaseOptionTable(m)| == if m.vrr then 9 else 8
    ensures "adaptive-sync" in BaseOptionTable(m) <==> m.vrr
    ensures BaseOptionTable(m)["output-width"] == OptionValue.Int(m.width)
    ensures BaseOptionTable(m)["output-height"] == OptionValue.Int(m.height)
    ensures BaseOptionTable(m)["nested-refresh"] == OptionValue.Int(m.refreshRate)
  {
    var keys := {"backend", "fade-out-duration", "fullscreen", "immediate-flips",
                 "nested-refresh", "output-height", "output-width", "rt"};
    assert BaseOptionTable(m).Keys == if m.vrr then keys + {"adaptive-sync"} else keys;
    assert |keys| == 8;
  }

  // ---------------------------------------------------------------------
  // Resolution
  // ---------------------------------------------------------------------

  /** Both documents, parsed (`Config`). */
  datatype Config = Config(monitors: map<string, MonitorDef>, profiles: map<string, ProfileDef>)

  /** The profile exists and its monitor can be found: the named one is
      defined, or, when none is named, some monitor is primary. */
  predicate Resolvable(cfg: Config, name: string)
  {
    && name in cfg.profiles
    && match cfg.profiles[name].monitor
       case Some(m) => m in cfg.monitors
       case None => HasPrimary(cfg.monitors)
  }

  /** The environment entries of a profile as strings. */
  function UserEnv(env: map<string, EnvValue>): (user: map<string, string>)
    ensures user.Keys == env.Keys
    ensures forall k :: k in env ==> user[k] == EnvText(env[k])
  {
    map k | k in env :: EnvText(env[k])
  }

  /** `rp` is what resolving profile `name` may give: the profile merged
      with the named monitor, or with a primary one when none is named. */
  predicate IsResolution(cfg: Config, name: string, rp: ResolvedProfile)
    ensures IsResolution(cfg, name, rp) ==> Resolvable(cfg, name)
  {
    && name in cfg.profiles
    && var prof := cfg.profiles[name];
    && rp.name == name
    && rp.monitorName in cfg.monitors
    && (match prof.monitor
        case Some(m) => rp.monitorName == m
        case None => cfg.monitors[rp.monitorName].primary)
    && var mon := cfg.monitors[rp.monitorName];
    && rp.binary == prof.binary
    && rp.useHdr == prof.useHdr.GetOr(mon.hdr)
    && rp.useWsi == prof.useWsi.GetOr(true)
    && rp.options == BaseOptionTable(mon) + prof.options
    && rp.userEnv == UserEnv(prof.environment)
    && rp.unsetVars == prof.unset
  }

  /** `resolve_profile`: looks the profile up, picks its monitor, overlays
      the profile's options on the monitor's defaults one by one, and
      carries the rest over. */
  method ResolveProfile(cfg: Config, name: string) returns (r: Result<ResolvedProfile, ConfigError>)
    ensures r.Success? <==> Resolvable(cfg, name)
    ensures r.Success? ==> IsResolution(cfg, name, r.value)
    ensures name !in cfg.profiles ==> r == Failure(UnknownProfile(name))
    ensures name in cfg.profiles && cfg.profiles[name].monitor.Some? ==>
      var m := cfg.profiles[name].monitor.value;
      m !in cfg.monitors ==> r == Failure(UnknownMonitor(m))
    ensures name in cfg.profiles && cfg.profiles[name].monitor.None? && !HasPrimary(cfg.monitors) ==>
      r == Failure(NoPrimaryMonitor)
  {
    var found := GetProfile(cfg.profiles, name);
    if found.Failure? {
      return Failure(found.error);
    }
    var prof := found.value;
    var monitorName: string;
    var mon: MonitorDef;
    match prof.monitor {
      case Some(n) =>
        var got := GetMonitor(cfg.monitors, n);
        if got.Failure? {
          return Failure(got.error);
        }
        monitorName, mon := n, got.value;
      case None =>
        var got := DefaultMonitor(cfg.monitors);
        if got.Failure? {
          return Failure(got.error);
        }
        monitorName, mon := got.value.0, got.value.1;
    }
    var options := BaseOptions(mon);
    var pending := prof.options.Keys;
    while pending != {}
      invariant pending <= prof.options.Keys
      invariant options == BaseOptionTable(mon) + (map k | k in prof.options && k !in pending :: prof.options[k])
      decreases pending
    {
      var k :| k in pending;
      options := options[k := prof.options[k]];
      pending := pending - {k};
    }
    assert (map k | k in prof.options && k !in pending :: prof.options[k]) == prof.options;
    r := Success(ResolvedProfile(
      name,
      monitorName,
      prof.binary,
      prof.useHdr.GetOr(mon.hdr),
      prof.useWsi.GetOr(true),
      options,
      UserEnv(prof.environment),
      prof.unset));
  }

  /** The merged options: every default and every profile option, the
      profile's value winning where both name the same option. */
  lemma MergedOptions(cfg: Config, name: string, rp: ResolvedProfile, k: string)
    requires IsResolution(cfg, name, rp)
    ensures k in rp.options <==> k in BaseOptionTable(cfg.monitors[rp.monitorName]) || k in cfg.profiles[name].options
    ensures k in cfg.profiles[name].options ==> rp.options[k] == cfg.profiles[name].options[k]
    ensures k !in cfg.profiles[name].options && k in rp.options ==>
      rp.options[k] == BaseOptionTable(cfg.monitors[rp.monitorName])[k]
  {
  }

  // ---------------------------------------------------------------------
  // Listing
  // ---------------------------------------------------------------------

  /** The one-line description `list_profiles` gives of a profile. */
  function Summary(rp: ResolvedProfile): (line: string)
    ensures |line| > 8 + |rp.monitorName| && line[..8] == "monitor=" && line[8..8 + |rp.monitorName|] == rp.monitorName
    ensures line[|line| - 4..] == "true" <==> rp.useWsi
  {
    var head := "monitor=" + rp.monitorName + " HDR=" + BoolToString(rp.useHdr) + " WSI=";
    var wsi := BoolToString(rp.useWsi);
    assert (head + wsi)[|head + wsi| - 4..] == wsi[|wsi| - 4..];
    head + wsi
  }

  /** The middle field of the summary: ` HDR=` after the monitor name,
      then a value starting with `t` exactly when HDR is on. */
  lemma SummaryHdr(rp: ResolvedProfile)
    ensures var line := Summary(rp); var n := |rp.monitorName|;
      |line| > 13 + n && line[8 + n..13 + n] == " HDR=" && (line[13 + n] == 't' <==> rp.useHdr)
  {
    var line := Summary(rp);
    var n := |rp.monitorName|;
    var pre := "monitor=" + rp.monitorName + " HDR=";
    var rest := BoolToString(rp.useHdr) + " WSI=" + BoolToString(rp.useWsi);
    assert line == pre + rest;
    assert |pre| == 13 + n;
    assert pre[8 + n..] == " HDR=";
    assert line[..|pre|] == pre;
    assert line[8 + n..13 + n] == line[..|pre|][8 + n..];
    assert line[13 + n] == rest[0] == BoolToString(rp.useHdr)[0];
  }

  /** `entry` pairs a profile name with the summary of a resolution of it. */
  ghost predicate Summarises(cfg: Config, entry: (string, string))
  {
    exists rp :: IsResolution(cfg, entry.0, rp) && entry.1 == Summary(rp)
  }

  /** `list_profiles`: every profile that resolves, with its summary, in
      ascending name order; profiles that fail to resolve are skipped. */
  method ListProfiles(cfg: Config) returns (listed: seq<(string, string)>)
    ensures KeysAscending(listed)
    ensures forall n :: n in Keys(listed) <==> Resolvable(cfg, n)
    ensures forall i :: 0 <= i < |listed| ==> Summarises(cfg, listed[i])
    ensures (forall n :: n in cfg.profiles ==> Resolvable(cfg, n)) ==> |listed| == |cfg.profiles|
  {
    var names := Names(cfg.profiles);
    listed := [];
    for i := 0 to |names|
      invariant Keys(listed) == ResolvableNames(cfg, names[..i])
      invariant forall a :: 0 <= a < |listed| ==> Summarises(cfg, listed[a])
    {
      var entry := SummaryEntry(cfg, names[i]);
      ResolvableNamesStep(cfg, names, i);
      if entry.Some? {
        KeysSnoc(listed, entry.value);
        listed := listed + [entry.value];
      }
    }
    assert names[..|names|] == names;
    ListedFacts(cfg, names, listed);
  }

  lemma ListedFacts(cfg: Config, names: seq<string>, listed: seq<(string, string)>)
    requires Ascending(names) && |names| == |cfg.profiles|
    requires forall n :: n in names <==> n in cfg.profiles
    requires Keys(listed) == ResolvableNames(cfg, names)
    ensures KeysAscending(listed)
    ensures forall n :: n in Keys(listed) <==> Resolvable(cfg, n)
    ensures (forall n :: n in cfg.profiles ==> Resolvable(cfg, n)) ==> |listed| == |cfg.profiles|
  {
    ResolvableNamesAscending(cfg, names);
    if forall n :: n in cfg.profiles ==> Resolvable(cfg, n) {
      AllResolvable(cfg, names);
    }
  }

  /** The names in `names` that resolve, in the same order. */
  function ResolvableNames(cfg: Config, names: seq<string>): (kept: seq<string>)
    ensures forall n :: n in kept <==> n in names && Resolvable(cfg, n)
    decreases |names|
  {
    if |names| == 0 then []
    else
      var last := names[|names| - 1];
      assert names == names[..|names| - 1] + [last];
      ResolvableNames(cfg, names[..|names| - 1]) + (if Resolvable(cfg, last) then [last] else [])
  }

  lemma ResolvableNamesStep(cfg: Config, names: seq<string>, i: nat)
    requires i < |names|
    ensures ResolvableNames(cfg, names[..i + 1])
      == ResolvableNames(cfg, names[..i]) + (if Resolvable(cfg, names[i]) then [names[i]] else [])
  {
    assert names[..i + 1][..i] == names[..i];
  }

  /** Keeping some of an ascending sequence keeps it ascending. */
  lemma {:induction false} ResolvableNamesAscending(cfg: Config, names: seq<string>)
    requires Ascending(names)
    ensures Ascending(ResolvableNames(cfg, names))
    decreases |names|
  {
    if |names| > 0 {
      var front := names[..|names| - 1];
      var last := names[|names| - 1];
      assert Ascending(front);
      ResolvableNamesAscending(cfg, front);
      var kept := ResolvableNames(cfg, front);
      forall n | n in kept ensures Less(n, last) {
        var i :| 0 <= i < |front| && front[i] == n;
      }
    }
  }

  /** When every name resolves, all are kept. */
  lemma {:induction false} AllResolvable(cfg: Config, names: seq<string>)
    requires forall n :: n in names ==> Resolvable(cfg, n)
    ensures ResolvableNames(cfg, names) == names
    decreases |names|
  {
    if |names| > 0 {
      var front := names[..|names| - 1];
      assert names == front + [names[|names| - 1]];
      AllResolvable(cfg, front);
    }
  }

  /** The closure `list_profiles` maps over the names: the name and
      summary of a profile that resolves, nothing for one that does not. */
  method SummaryEntry(cfg: Config, name: string) returns (entry: Option<(string, string)>)
    ensures entry.Some? <==> Resolvable(cfg, name)
    ensures entry.Some? ==> entry.value.0 == name && Summarises(cfg, entry.value)
  {
    var resolved := ResolveProfile(cfg, name);
    if resolved.Success? {
      var rp := resolved.value;
      assert Summarises(cfg, (rp.name, Summary(rp)));
      entry := Some((rp.name, Summary(rp)));
    } else {
      entry := None;
    }
  }

  lemma KeysSnoc<V>(s: seq<(string, V)>, e: (string, V))
    ensures Keys(s + [e]) == Keys(s) + [e.0]
  {
  }

  // ---------------------------------------------------------------------
  // Load-time validation
  // ---------------------------------------------------------------------

  /** What loading demands of each profile: valid variable names to set
      and to unset, and a named monitor that exists. */
  predicate ProfileValid(monitors: map<string, MonitorDef>, p: ProfileDef)
  {
    && (forall k :: k in p.environment ==> IsValidEnvVarName(k))
    && (forall u :: u in p.unset ==> IsValidEnvVarName(u))
    && (p.monitor.Some? ==> p.monitor.value in monitors)
  }

  /** `e` is the error loading reports for the invalid profile `name`: the
      list of all its invalid names, or, when its names are all valid, the
      unknown monitor it refers to. */
  predicate Reports(e: ConfigError, monitors: map<string, MonitorDef>, name: string, p: ProfileDef)
  {
    match e
    case InvalidEnvNames(profile, invalid) =>
      && profile == name
      && |invalid| > 0
      && (forall x :: x in invalid ==>
            !IsValidEnvVarName(x.name) && (if x.EnvKey? then x.name in p.environment else x.name in p.unset))
      && (forall k :: k in p.environment && !IsValidEnvVarName(k) ==> EnvKey(k) in invalid)
      && (forall u :: u in p.unset && !IsValidEnvVarName(u) ==> UnsetEntry(u) in invalid)
    case UnknownMonitorRef(profile, m) =>
      && profile == name
      && (forall k :: k in p.environment ==> IsValidEnvVarName(k))
      && (forall u :: u in p.unset ==> IsValidEnvVarName(u))
      && p.monitor == Some(m)
      && m !in monitors
    case _ => false
  }

  /** The validation loop of `Config::load`: visits the profiles in the
      map's order and stops at the first invalid one. Duplicate unset
      entries are kept. */
  method Load(monitors: map<string, MonitorDef>, profiles: map<string, ProfileDef>)
    returns (r: Result<Config, ConfigError>)
    ensures r.Success? <==> forall n :: n in profiles ==> ProfileValid(monitors, profiles[n])
    ensures r.Success? ==> r.value == Config(monitors, profiles)
    ensures r.Failure? ==>
      exists n :: n in profiles && !ProfileValid(monitors, profiles[n]) && Reports(r.error, monitors, n, profiles[n])
  {
    var pending := profiles.Keys;
    while pending != {}
      invariant pending <= profiles.Keys
      invariant forall n :: n in profiles && n !in pending ==> ProfileValid(monitors, profiles[n])
      decreases pending
    {
      var name :| name in pending;
      var prof := profiles[name];
      var keys := IterKeys(prof.environment);
      var check := ValidateEnvVarNames(name, keys, prof.unset);
      if check.Fail? {
        assert Reports(check.error, monitors, name, prof);
        return Failure(check.error);
      }
      if prof.monitor.Some? && prof.monitor.value !in monitors {
        assert Reports(UnknownMonitorRef(name, prof.monitor.value), monitors, name, prof);
        return Failure(UnknownMonitorRef(name, prof.monitor.value));
      }
      pending := pending - {name};
    }
    r := Success(Config(monitors, profiles));
  }
}
