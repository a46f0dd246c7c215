/** The configurations the source's tests build (src/config.rs), and what
    resolving, listing and loading them gives. */
module ConfigExamples {
  import opened Wrappers
  import opened ConfigTypes
  import opened Profile
  import opened Configuration
  import opened Command
  import opened HashMaps

  /** Two monitors: `main` (VRR, HDR, primary) and `tv` (HDR only). */
  const TestMonitors: map<string, MonitorDef> := map[
    "main" := MonitorDef(2560, 1440, 165, true, true, true),
    "tv" := MonitorDef(3840, 2160, 120, false, true, false)]

  /** Four profiles exercising the defaults and the overrides. */
  const TestProfiles: map<string, ProfileDef> := map[
    "default" := ProfileDef(None, DefaultBinary, Some(true), Some(true),
                            map["backend" := OptionValue.String("sdl")], map[], []),
    "autohdr" := ProfileDef(None, DefaultBinary, None, Some(false), map[], map[], []),
    "couch" := ProfileDef(Some("tv"), "/custom/gamescope", Some(true), None, map[], map[], []),
    "performance" := ProfileDef(None, DefaultBinary, Some(false), None,
                                map["fsr-upscaling" := OptionValue.Bool(true)], map[], [])]

  const TestConfig: Config := Config(TestMonitors, TestProfiles)

  /** With no monitor named, the only primary monitor, `main`, is used. */
  lemma {:induction false} OnlyPrimaryIsMain(cfg: Config, name: string, rp: ResolvedProfile)
    requires cfg.monitors == TestMonitors
    requires IsResolution(cfg, name, rp) && cfg.profiles[name].monitor.None?
    ensures rp.monitorName == "main"
  {
    assert TestMonitors.Keys == {"main", "tv"};
  }

  /** `default` runs on `main` with HDR and WSI, from the default binary. */
  lemma ResolveDefaultExample(rp: ResolvedProfile)
    requires IsResolution(TestConfig, "default", rp)
    ensures rp.name == "default" && rp.monitorName == "main"
    ensures rp.useHdr && rp.useWsi && rp.binary == "gamescope"
  {
    OnlyPrimaryIsMain(TestConfig, "default", rp);
  }

  /** `couch` runs on the monitor it names, with its own binary and the
      monitor's width. */
  lemma ResolveCouchExample(rp: ResolvedProfile)
    requires IsResolution(TestConfig, "couch", rp)
    ensures rp.monitorName == "tv" && rp.binary == "/custom/gamescope"
    ensures "output-width" in rp.options && rp.options["output-width"] == OptionValue.Int(3840)
  {
  }

  /** `autohdr` does not set HDR and inherits it from `main`. */
  lemma ResolveAutoHdrExample(rp: ResolvedProfile)
    requires IsResolution(TestConfig, "autohdr", rp)
    ensures rp.useHdr && !rp.useWsi
  {
    OnlyPrimaryIsMain(TestConfig, "autohdr", rp);
  }

  /** `performance` does not set WSI, which defaults to on; its own option
      joins the defaults. */
  lemma ResolvePerformanceExample(rp: ResolvedProfile)
    requires IsResolution(TestConfig, "performance", rp)
    ensures rp.useWsi && !rp.useHdr
    ensures "fsr-upscaling" in rp.options && "fullscreen" in rp.options
  {
  }

  /** All four test profiles resolve, so all four are listed; a name that
      is not a profile does not resolve. */
  lemma TestConfigResolvable()
    ensures forall n :: n in TestConfig.profiles ==> Resolvable(TestConfig, n)
    ensures |TestConfig.profiles| == 4
    ensures !Resolvable(TestConfig, "nonexistent")
  {
    assert TestConfig.monitors["main"].primary;
    assert TestProfiles.Keys == {"default", "autohdr", "couch", "performance"};
  }

  /** The profile of the unset test: WSI on, one variable of its own, and
      two names to remove, one of them a base variable. */
  const UnsetProfile: ProfileDef := ProfileDef(None, DefaultBinary, None, Some(true),
    map[], map["CUSTOM" := EnvValue.String("value")], ["SDL_VIDEODRIVER", "CUSTOM"])

  const UnsetConfig: Config := Config(
    map["main" := MonitorDef(2560, 1440, 165, false, false, true)],
    map["with-unset" := UnsetProfile])

  /** The resolved profile keeps the unset list, yet the environment it
      produces still holds both names: `environment` does not remove them,
      contrary to what the test expects of it. The removal happens only
      when the environment is applied to the child (`ChildEnvironment`). */
  lemma UnsetTestEnvironmentKeepsNames(rp: ResolvedProfile)
    requires IsResolution(UnsetConfig, "with-unset", rp)
    ensures rp.unsetVars == ["SDL_VIDEODRIVER", "CUSTOM"]
    ensures "SDL_VIDEODRIVER" in EnvironmentMap(rp) && "CUSTOM" in EnvironmentMap(rp)
  {
    BaseEnvTable();
    assert "CUSTOM" in rp.userEnv;
  }

  /** What the unset test expects holds of the environment the child is
      started with: neither name reaches it, whatever was inherited. */
  lemma UnsetTestChildLacksNames(rp: ResolvedProfile, inherited: map<string, string>)
    requires IsResolution(UnsetConfig, "with-unset", rp)
    ensures var child := RemoveAll(SetAll(inherited, Listing(EnvironmentMap(rp))), rp.unsetVars);
      "SDL_VIDEODRIVER" !in child && "CUSTOM" !in child
  {
    ChildEnvironment(inherited, rp);
    assert rp.unsetVars == ["SDL_VIDEODRIVER", "CUSTOM"];
    assert "SDL_VIDEODRIVER" in rp.unsetVars && "CUSTOM" in rp.unsetVars;
  }

  /** A profile that lists the same name to unset twice loads, and the
      duplicate is kept. */
  const DuplicateUnsetProfile: ProfileDef := ProfileDef(None, DefaultBinary, None, None,
    map[], map[], ["SDL_VIDEODRIVER", "DXVK_HDR", "SDL_VIDEODRIVER"])

  const SmallMonitors: map<string, MonitorDef> := map["main" := MonitorDef(1920, 1080, 60, false, false, true)]

  lemma DuplicateUnsetExample(rp: ResolvedProfile)
    ensures ProfileValid(SmallMonitors, DuplicateUnsetProfile)
    ensures IsResolution(Config(SmallMonitors, map["test" := DuplicateUnsetProfile]), "test", rp) ==>
      |rp.unsetVars| == 3
  {
    ValidBaseNameExamples();
  }

  /** Loading rejects a key with `=` and an empty unset entry. */
  lemma LoadRejectsExamples()
    ensures !ProfileValid(SmallMonitors, ProfileDef(None, DefaultBinary, None, None, map[],
      map["VALID_VAR" := EnvValue.String("1"), "INVALID=VAR" := EnvValue.String("2")], []))
    ensures !ProfileValid(SmallMonitors, ProfileDef(None, DefaultBinary, None, None, map[], map[], [""]))
  {
    var env := map["VALID_VAR" := EnvValue.String("1"), "INVALID=VAR" := EnvValue.String("2")];
    assert "INVALID=VAR" in env;
    assert !IsValidEnvVarName("INVALID=VAR") by { assert "INVALID=VAR"[7] == '='; }
    assert "" in [""];
  }
}
