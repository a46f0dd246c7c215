/** A profile resolved against its monitor, and what is derived from it
    alone: the child environment and the HDR workaround flag
    (src/profile.rs). */
module Profile {
  import opened Text
  import opened HashMaps
  import opened ConfigTypes

  /** Variables every session gets unless the profile overrides them. */
  const BaseEnv: seq<(string, string)> := [
    ("AMD_VULKAN_ICD", "RADV"),
    ("DISABLE_LAYER_AMD_SWITCHABLE_GRAPHICS_1", "1"),
    ("DISABLE_LAYER_NV_OPTIMUS_1", "1"),
    ("GAMESCOPE_WAYLAND_DISPLAY", "gamescope-0"),
    ("PROTON_ADD_CONFIG", "sdlinput,wayland"),
    ("PROTON_ENABLE_WAYLAND", "1"),
    ("RADV_PERFTEST", "aco"),
    ("SDL_VIDEODRIVER", "wayland")
  ]

  const WsiVar: string := "ENABLE_GAMESCOPE_WSI"
  const HdrVars: set<string> := {"DXVK_HDR", "ENABLE_HDR_WSI", "PROTON_ENABLE_HDR"}

  /** A profile merged with its monitor, ready to run (`ResolvedProfile`).
      `unsetVars` is the profile's `unset` list, kept as written. */
  datatype ResolvedProfile = ResolvedProfile(
    name: string,
    monitorName: string,
    binary: string,
    useHdr: bool,
    useWsi: bool,
    options: map<string, OptionValue>,
    userEnv: map<string, string>,
    unsetVars: seq<string>)

  /** Inserting each pair in turn into `vars`, as `HashMap::insert`,
      `extend` and `Command::env` do: a later pair overwrites an earlier
      one with the same key. The keys are the old ones and the pairs'. */
  function SetAll(vars: map<string, string>, env: seq<(string, string)>): (m: map<string, string>)
    ensures forall k :: k in m <==> k in vars || exists i :: 0 <= i < |env| && env[i].0 == k
    decreases |env|
  {
    if |env| == 0 then vars
    else
      var last := env[|env| - 1];
      var front := env[..|env| - 1];
      assert forall i :: 0 <= i < |env| - 1 ==> front[i] == env[i];
      SetAll(vars, front)[last.0 := last.1]
  }

  /** Collecting pairs into a fresh `HashMap`. */
  function Collect(pairs: seq<(string, string)>): (m: map<string, string>)
    ensures forall k :: k in m <==> exists i :: 0 <= i < |pairs| && pairs[i].0 == k
  {
    SetAll(map[], pairs)
  }

  /** The base table as a map. */
  lemma BaseEnvTable()
    ensures Collect(BaseEnv) == map[
      "AMD_VULKAN_ICD" := "RADV",
      "DISABLE_LAYER_AMD_SWITCHABLE_GRAPHICS_1" := "1",
      "DISABLE_LAYER_NV_OPTIMUS_1" := "1",
      "GAMESCOPE_WAYLAND_DISPLAY" := "gamescope-0",
      "PROTON_ADD_CONFIG" := "sdlinput,wayland",
      "PROTON_ENABLE_WAYLAND" := "1",
      "RADV_PERFTEST" := "aco",
      "SDL_VIDEODRIVER" := "wayland"]
  {
    var e := BaseEnv;
    var none: map<string, string> := map[];
    assert e[..0] == [] && e[..8] == e;
    SetAllStep(none, e, 0);
    SetAllStep(none, e, 1);
    SetAllStep(none, e, 2);
    SetAllStep(none, e, 3);
    SetAllStep(none, e, 4);
    SetAllStep(none, e, 5);
    SetAllStep(none, e, 6);
    SetAllStep(none, e, 7);
  }

  /** One more pair is one more insertion. */
  lemma SetAllStep(vars: map<string, string>, env: seq<(string, string)>, i: nat)
    requires i < |env|
    ensures SetAll(vars, env[..i + 1]) == SetAll(vars, env[..i])[env[i].0 := env[i].1]
  {
    assert env[..i + 1][..i] == env[..i];
  }

  /** The map `environment` builds before sorting it: the base table, then
      the user's variables over it, then the WSI variable, then the HDR
      variables, each layer replacing what it names. */
  function EnvironmentMap(p: ResolvedProfile): (env: map<string, string>)
    ensures Collect(BaseEnv).Keys <= env.Keys && p.userEnv.Keys <= env.Keys
    ensures p.useWsi ==> WsiVar in env
    ensures p.useHdr ==> HdrVars <= env.Keys
  {
    var withUser := Collect(BaseEnv) + p.userEnv;
    var withWsi := if p.useWsi then withUser[WsiVar := "1"] else withUser;
    if p.useHdr then withWsi["DXVK_HDR" := "1"]["ENABLE_HDR_WSI" := "1"]["PROTON_ENABLE_HDR" := "1"]
    else withWsi
  }

  /** `environment()`: the layered variables as a list sorted by name. */
  method Environment(p: ResolvedProfile) returns (env: seq<(string, string)>)
    ensures env == Listing(EnvironmentMap(p))
    ensures KeysAscending(env)
  {
    var layered := Collect(BaseEnv);
    layered := layered + p.userEnv;
    if p.useWsi {
      layered := layered[WsiVar := "1"];
    }
    if p.useHdr {
      layered := layered["DXVK_HDR" := "1"];
      layered := layered["ENABLE_HDR_WSI" := "1"];
      layered := layered["PROTON_ENABLE_HDR" := "1"];
    }
    env := SortByKey(layered);
  }

  /** The names of the environment are exactly the base names, the user's
      names and the names the WSI and HDR layers add; nothing else. */
  lemma EnvironmentNames(p: ResolvedProfile)
    ensures EnvironmentMap(p).Keys ==
      Collect(BaseEnv).Keys + p.userEnv.Keys
      + (if p.useWsi then {WsiVar} else {})
      + (if p.useHdr then HdrVars else {})
  {
  }

  /** Every base name is present, with the user's value if the user set it
      and the base value otherwise, unless a WSI or HDR layer wrote it. */
  lemma EnvironmentBaseLayer(p: ResolvedProfile, k: string)
    requires k in Collect(BaseEnv)
    requires !(p.useWsi && k == WsiVar) && !(p.useHdr && k in HdrVars)
    ensures k in EnvironmentMap(p)
    ensures EnvironmentMap(p)[k] == if k in p.userEnv then p.userEnv[k] else Collect(BaseEnv)[k]
  {
  }

  /** A user variable keeps the user's value unless a WSI or HDR layer
      writes the same name. */
  lemma EnvironmentUserLayer(p: ResolvedProfile, k: string)
    requires k in p.userEnv
    requires !(p.useWsi && k == WsiVar) && !(p.useHdr && k in HdrVars)
    ensures k in EnvironmentMap(p) && EnvironmentMap(p)[k] == p.userEnv[k]
  {
  }

  /** With WSI on, `ENABLE_GAMESCOPE_WSI` is `1` whatever the user set. */
  lemma EnvironmentWsiLayer(p: ResolvedProfile)
    requires p.useWsi
    ensures WsiVar in EnvironmentMap(p) && EnvironmentMap(p)[WsiVar] == "1"
  {
  }

  /** With HDR on, the three HDR variables are `1` whatever the user set. */
  lemma EnvironmentHdrLayer(p: ResolvedProfile)
    requires p.useHdr
    ensures forall k :: k in HdrVars ==> k in EnvironmentMap(p) && EnvironmentMap(p)[k] == "1"
  {
  }

  /** With HDR off, `DXVK_HDR` appears only if the user sets it. */
  lemma EnvironmentNoHdrUnlessAsked(p: ResolvedProfile)
    requires !p.useHdr
    ensures "DXVK_HDR" in EnvironmentMap(p) <==> "DXVK_HDR" in p.userEnv
  {
    BaseEnvTable();
  }

  /** The unset list plays no part in `environment()`: two profiles that
      differ only in it get the same environment. */
  lemma EnvironmentIgnoresUnset(p: ResolvedProfile, unset: seq<string>)
    ensures EnvironmentMap(p.(unsetVars := unset)) == EnvironmentMap(p)
  {
  }

  /** `needs_hdr_workaround()`: the `backend` option, displayed (empty when
      absent), is `wayland`, and WSI and HDR are both on. The display of a
      flag or a number is never `wayland`, so this is the same as the
      option being the word `wayland`. */
  function NeedsHdrWorkaround(p: ResolvedProfile): (needed: bool)
    ensures needed <==>
      && "backend" in p.options
      && p.options["backend"] == OptionValue.String("wayland")
      && p.useWsi
      && p.useHdr
  {
    var backend := if "backend" in p.options then OptionText(p.options["backend"]) else "";
    if "backend" in p.options then
      OptionTextIsWord(p.options["backend"], "wayland");
      backend == "wayland" && p.useWsi && p.useHdr
    else
      backend == "wayland" && p.useWsi && p.useHdr
  }
}
