# wayscope core, modelled in Dafny

wayscope starts games inside gamescope, the Valve micro-compositor, from
two YAML documents. One describes the **monitors**: resolution, refresh
rate, VRR, HDR, and which one is primary. The other describes the
**profiles**. A profile names a monitor (or falls back to the primary
one), the gamescope binary, HDR and WSI switches, extra gamescope
options, extra environment variables, and variables to unset.

This project models the three files that hold the logic.

- `src/config.rs` validates environment variable names and loads the
  configuration. Loading rejects a profile with an invalid name or an
  unknown monitor. It resolves a profile by merging the profile's options
  over defaults derived from its monitor, and it lists every profile that
  resolves.
- `src/profile.rs` builds the environment of a resolved profile in four
  layers, sorted by name: base variables, the user's variables, WSI, then
  HDR. It also decides whether the HDR workaround is needed (Wayland
  backend together with WSI and HDR).
- `src/command.rs` turns a resolved profile into gamescope arguments and
  a display line. It applies the environment (set, then unset) to the
  process that is started, and starts a child directly when gamescope is
  bypassed.

The modules follow the source:

| Dafny file | Module | What it holds |
|---|---|---|
| `wrappers.dfy` | `Wrappers` | `Option`, `Result` and `Outcome` |
| `text.dfy` | `Text` | string order, `join`, decimal text of integers |
| `hashmaps.dfy` | `HashMaps` | a `HashMap` as a `map`, its key-sorted listing, and the two iteration patterns the source uses (sort by key, iterate keys) |
| `config_types.dfy` | `ConfigTypes` | `MonitorDef`, `ProfileDef`, `OptionValue`, `EnvValue` and their `Display` |
| `profile.dfy` | `Profile` | `ResolvedProfile`, `environment`, `needs_hdr_workaround` |
| `config.dfy` | `Configuration` | name validation, look-ups, `base_options`, `load`, `resolve_profile`, `list_profiles` |
| `config_examples.dfy` | `ConfigExamples` | the configuration of the unit tests and what they assert |
| `command.dfy` | `Command` | `build`, `build_args`, `display`, `apply_env_to_command`, `exec`, `exec_direct`, `exec_direct_with_env` |

Several things in the source depend on `HashMap` iteration order. These
are:

- picking a primary monitor;
- the order in which `load` meets profiles;
- the order in which `resolve_profile` overlays options.

The methods that model them choose with `:|`. Their contracts therefore
hold for every order. Sorting by key is modelled as inserting into an
ascending listing, and `HashMaps.SortByKey` is proved to give the unique
key-ascending listing of the map. Process start-up is modelled by
`Command.Invocation`, which records the program, the argument vector and
the environment the child receives.

Where the code and its documentation disagree, the model follows the
code:

- `environment` (src/profile.rs:59-83) never consults `unset_vars`. The
  unset names are removed only when the environment is applied to the
  process (src/command.rs:93-100). See "## Findings".
- With no monitor named, `default_monitor` (src/config.rs:178-184) takes
  whichever primary monitor the map yields first. It is not "the"
  primary monitor.
- `ResolvedProfile` (src/profile.rs:31-52) has no `unset_vars` field in
  src/profile.rs. src/config.rs:347 and src/command.rs:59 set it and
  read it, so the model carries it as `unsetVars`.

## Model

| member | source | states |
|---|---|---|
| Text.LessIrreflexive | src/config.rs:234-238 | the string order used to sort names is irreflexive |
| Text.LessAsymmetric | src/config.rs:234-238 | the string order is asymmetric |
| Text.LessTransitive | src/config.rs:234-238 | the string order is transitive |
| Text.LessTotal | src/config.rs:234-238 | any two distinct strings are ordered one way or the other, so sorting by name is well defined |
| Text.Join | src/command.rs:31-32 | joining nothing gives the empty string, and a join starts with its first part |
| Text.BoolToString | src/config.rs:256 | a boolean displays as `true` or `false`, and as `true` exactly when it holds |
| Text.JoinAppend | src/command.rs:31-32 | joining two non-empty lists with a separator is joining each and putting the separator between |
| Text.NatToString | src/config.rs:254-261 | the decimal text of a natural number is non-empty, all digits, and has no leading zero unless the number is 0 |
| Text.IntToString | src/config.rs:254-261 | the text of an integer is a numeral: an optional `-` then digits |
| Text.ParseNatToString | src/config.rs:254-261 | reading back the decimal text of a natural number gives the number |
| Text.ParseIntToString | src/config.rs:271-276 | reading back the text of an integer gives the integer |
| ConfigTypes.OptionText | src/config.rs:253-261 | a flag displays as `true` or `false` according to its value, a number as a numeral that reads back as that number, a word as itself |
| ConfigTypes.EnvText | src/config.rs:270-277 | a number displays as a numeral that reads back as that number, a word as itself |
| ConfigTypes.OptionTextIsWord | src/config.rs:254-261 | a word that is not `true`, `false` or a numeral is displayed only by the string option holding that word |
| ConfigTypes.IntTextInjective | src/config.rs:254-276 | distinct integers display differently, as options and as environment values |
| HashMaps.InsertKeepsListing | src/command.rs:68-69 | inserting a new key into an ascending listing of a map gives the ascending listing of the map with that key added |
| HashMaps.InsertInFront | src/command.rs:68-69 | a key below the first one goes in front, and the result still lists the extended map |
| HashMaps.InsertBehindHead | src/command.rs:68-69 | a key above the first one goes behind it, and the result still lists the extended map |
| HashMaps.ConsAscending | src/command.rs:68-69 | an entry below every key of an ascending list can be put in front of it |
| HashMaps.ConsEntries | src/command.rs:68-69 | putting an entry of the map in front of a listing of the rest lists the whole map |
| HashMaps.InsertAfterHead | src/command.rs:68-69 | insertion passes over a smaller head entry |
| HashMaps.HeadBelowRest | src/command.rs:68-69 | the head of a listing stays below every key after inserting a larger key into the tail |
| HashMaps.TailListing | src/command.rs:68-69 | the tail of a listing lists the map without the head's key |
| HashMaps.ListingEmpty | src/command.rs:68-69 | an empty listing lists the empty map, and the head of a non-empty listing is a key of the map |
| HashMaps.Listing | src/profile.rs:80-82 | every map has a key-ascending listing of its entries |
| HashMaps.ListingUnique | src/profile.rs:80-82 | two key-ascending listings of one map are equal, so sorting by key makes the order independent of the hash order |
| HashMaps.SameHead | src/profile.rs:80-82 | two ascending listings of one map start with the same entry |
| HashMaps.SortByKey | src/command.rs:68-69 | collecting a map's entries in any order and sorting by key gives its unique ascending listing |
| HashMaps.IterKeys | src/config.rs:297 | iterating the keys of a map yields each key exactly once |
| Profile.SetAll | src/command.rs:94-96 | inserting pairs in turn keeps every old key and adds exactly the pairs' keys; `Command.SetAllValues` gives the values |
| Profile.Collect | src/profile.rs:60-63 | collecting pairs into a fresh map is inserting them into the empty map, so its keys are exactly those among the pairs |
| Profile.BaseEnvTable | src/profile.rs:15-24 | the base environment is the eight variables with their fixed values |
| Profile.Environment | src/profile.rs:59-83 | the environment list is the key-ascending listing of the layered map, and its names are strictly ascending |
| Profile.EnvironmentMap | src/profile.rs:60-78 | no layer drops a name: the base and user names are always present, the WSI name with WSI on, and the HDR names with HDR on |
| Profile.EnvironmentNames | src/profile.rs:59-83 | the names are the base names, the user's names, the WSI name when WSI is on, and the three HDR names when HDR is on |
| Profile.EnvironmentBaseLayer | src/profile.rs:60-66 | a base variable not overridden by WSI or HDR keeps its base value, unless the user sets it |
| Profile.EnvironmentUserLayer | src/profile.rs:66 | a user variable not overridden by WSI or HDR has the user's value, including over a base variable |
| Profile.EnvironmentWsiLayer | src/profile.rs:69-71 | with WSI on, `ENABLE_GAMESCOPE_WSI` is `1` whatever the user set |
| Profile.EnvironmentHdrLayer | src/profile.rs:74-78 | with HDR on, `DXVK_HDR`, `ENABLE_HDR_WSI` and `PROTON_ENABLE_HDR` are `1` whatever the user set |
| Profile.EnvironmentNoHdrUnlessAsked | src/profile.rs:143-150 | with HDR off, `DXVK_HDR` is present only if the user sets it |
| Profile.EnvironmentIgnoresUnset | src/profile.rs:59-83 | the environment does not depend on the unset list |
| Profile.NeedsHdrWorkaround | src/profile.rs:89-96 | the workaround is needed exactly when the backend option is the string `wayland` and both WSI and HDR are on |
| Configuration.IsValidEnvVarName | src/config.rs:45-62 | a name is valid exactly when it is non-empty, starts with an ASCII letter or `_`, and continues with ASCII letters, digits or `_`; a valid name has no leading digit, no `=` and no space |
| Configuration.ValidNameExamples | src/config.rs:543-549 | `MY_VAR`, `_PRIVATE`, `var123`, `A` and `_` are valid |
| Configuration.ValidBaseNameExamples | src/config.rs:550-552 | `SDL_VIDEODRIVER`, `DXVK_HDR` and `PROTON_ENABLE_WAYLAND` are valid |
| Configuration.InvalidNameExamples | src/config.rs:556-572 | the empty name, leading digits, `=`, spaces, `$`, `-` and `.` are rejected |
| Configuration.InvalidKeys | src/config.rs:82-86 | the collected entries are exactly the invalid keys, tagged as environment keys |
| Configuration.InvalidUnset | src/config.rs:88-92 | the collected entries are exactly the invalid unset names, tagged as unset entries |
| Configuration.EnvNameCheck | src/config.rs:75-103 | the check passes exactly when every key and unset name is valid; otherwise it names the profile, lists every invalid name and nothing else, with the keys before the unset entries |
| Configuration.KeysBeforeUnset | src/config.rs:82-92 | in the report, no environment key comes after an unset entry |
| Configuration.ValidateEnvVarNames | src/config.rs:75-103 | the two loops compute the check above |
| Configuration.InvalidKeysStep | src/config.rs:82-86 | one more key extends the list of invalid keys by that key when it is invalid |
| Configuration.InvalidUnsetStep | src/config.rs:88-92 | one more unset name extends the list of invalid unset names by that name when it is invalid |
| Configuration.EnvNameCheckPassExample | src/config.rs:575-586 | valid keys and a valid unset name pass |
| Configuration.EnvNameCheckKeyExample | src/config.rs:588-598 | the key `INVALID=KEY` is reported for its profile |
| Configuration.EnvNameCheckUnsetExample | src/config.rs:600-608 | an empty unset name is reported as an unset entry |
| Configuration.GetMonitor | src/config.rs:172-176 | a monitor look-up succeeds exactly when the name is defined, and otherwise reports the unknown monitor |
| Configuration.DefaultMonitor | src/config.rs:178-184 | the fallback monitor is found exactly when some monitor is primary, and it is a primary monitor of the map; otherwise it reports that there is no primary monitor |
| Configuration.GetProfile | src/config.rs:228-232 | a profile look-up succeeds exactly when the name is defined, and otherwise reports the unknown profile |
| Configuration.Names | src/config.rs:234-238 | the profile names are strictly ascending, hold each profile exactly once and nothing else |
| Configuration.ListingSize | src/config.rs:234-238 | a listing of a map has one entry per key |
| Configuration.BaseOptionTable | src/config.rs:370-399 | the default backend is `sdl`, and every default flag is on |
| Configuration.BaseOptions | src/config.rs:370-399 | the default options are the table derived from the monitor |
| Configuration.BaseOptionFacts | src/config.rs:370-399 | there are nine defaults with VRR and eight without, `adaptive-sync` is present exactly with VRR, and width, height and refresh come from the monitor |
| Configuration.UserEnv | src/config.rs:333-337 | the user environment has the profile's keys, each with its value's display text |
| Configuration.IsResolution | src/config.rs:339-348 | only a resolvable profile has a resolution |
| Configuration.ResolveProfile | src/config.rs:317-349 | resolution succeeds exactly when the profile exists and its monitor can be found; the result merges the profile's options over the monitor's defaults, takes HDR from the profile or else the monitor, WSI from the profile or else on, and keeps binary, environment and unset list; each failure reports the unknown profile, the unknown monitor or the missing primary monitor |
| Configuration.MergedOptions | src/config.rs:328-331 | a merged option comes from the profile when the profile sets it and from the monitor's defaults otherwise |
| Configuration.Summary | src/config.rs:357-360 | the summary starts with `monitor=` and the monitor's name, and ends in `true` exactly when WSI is on |
| Configuration.SummaryHdr | src/config.rs:357-360 | after the monitor name the summary reads ` HDR=` followed by a value starting with `t` exactly when HDR is on |
| Configuration.ListProfiles | src/config.rs:351-366 | the listing is ascending by name, holds exactly the profiles that resolve, pairs each with its summary, and has every profile when all resolve |
| Configuration.ListedFacts | src/config.rs:351-366 | filtering the sorted names keeps them ascending and keeps exactly the resolvable ones |
| Configuration.ResolvableNames | src/config.rs:355-364 | the kept names are exactly the given names that resolve |
| Configuration.ResolvableNamesStep | src/config.rs:355-364 | one more name extends the kept names by that name when it resolves |
| Configuration.ResolvableNamesAscending | src/config.rs:351-366 | filtering an ascending list of names keeps it ascending |
| Configuration.AllResolvable | src/config.rs:351-366 | when every name resolves, nothing is filtered out |
| Configuration.SummaryEntry | src/config.rs:356-363 | a name gives an entry exactly when it resolves, and the entry is its summary |
| Configuration.Load | src/config.rs:290-314 | loading succeeds exactly when every profile has valid names and a defined monitor, and then holds both documents unchanged; otherwise it reports an invalid profile with an error that fits it |
| ConfigExamples.OnlyPrimaryIsMain | src/config.rs:405-447 | in the test configuration a profile without a monitor resolves to `main` |
| ConfigExamples.ResolveDefaultExample | src/config.rs:450-459 | `default` resolves to `main`, with HDR and WSI, from `gamescope` |
| ConfigExamples.ResolveCouchExample | src/config.rs:462-472 | `couch` resolves to `tv`, with its own binary and an output width of 3840 |
| ConfigExamples.ResolveAutoHdrExample | src/config.rs:475-479 | `autohdr` takes HDR from the monitor |
| ConfigExamples.ResolvePerformanceExample | src/config.rs:482-486 | `performance` has WSI on by default and keeps its own option beside the defaults |
| ConfigExamples.TestConfigResolvable | src/config.rs:489-499 | all four test profiles resolve, and `nonexistent` does not |
| ConfigExamples.UnsetTestEnvironmentKeepsNames | src/config.rs:502-536 | the resolved profile keeps its unset list, but its environment still holds both unset names |
| ConfigExamples.UnsetTestChildLacksNames | src/config.rs:502-536 | the environment the child receives holds neither unset name, whatever it inherited |
| ConfigExamples.DuplicateUnsetExample | src/config.rs:619-660 | a profile that unsets the same name twice loads, and the duplicate is kept |
| ConfigExamples.LoadRejectsExamples | src/config.rs:663-737 | a profile with the key `INVALID=VAR`, or with an empty unset name, is rejected |
| Command.BuildArgs | src/command.rs:65-87 | the arguments are the rendered options in key order |
| Command.RenderOption | src/command.rs:72-85 | a false flag gives nothing, a true flag gives `--key` alone, and any other value gives `--key` followed by the value's display text |
| Command.RenderOptions | src/command.rs:71-86 | there are at most two arguments per option, and none exactly when every option is a false flag |
| Command.RenderOptionsStep | src/command.rs:71-86 | rendering one more option appends its pieces |
| Command.RenderOptionsAppend | src/command.rs:71-86 | rendering a concatenation is concatenating the renderings |
| Command.RenderSingle | src/command.rs:72-85 | rendering a single option gives its pieces |
| Command.OptionRendered | src/command.rs:65-87 | every option of the profile appears as a contiguous group of arguments |
| Command.RenderAround | src/command.rs:71-86 | an option in the middle renders between what comes before and after it |
| Command.RenderOptionsLength | src/command.rs:72-85 | the number of arguments is the number of true flags plus twice the number of valued options; false flags add nothing |
| Command.ExampleListing | src/command.rs:68-69 | four options in arbitrary map order are listed in key order |
| Command.RenderExample | src/command.rs:65-87 | `a` true, `b` false, `c` 5 and `d` `x` render as `--a --c 5 --d x` |
| Command.RenderExampleListed | src/command.rs:71-86 | the sorted example renders as `--a --c 5 --d x` |
| Command.ExamplePieces | src/command.rs:72-85 | a true flag, a false flag, a number and a word render as expected |
| Command.MockArgsExample | src/command.rs:222-231 | the test profile's arguments contain `--fullscreen`, `--backend` and `sdl` |
| Command.MockPieces | src/command.rs:222-231 | the test profile's two options render as `--fullscreen` and `--backend sdl` |
| Command.MockNoWorkaround | src/command.rs:222-231 | the `sdl` backend never needs the workaround |
| Command.Build | src/command.rs:46-63 | the command has the profile's binary, the rendered options followed by the HDR flags exactly when HDR is on, the sorted environment, the unset list, the child, and the workaround flag exactly when it is needed |
| Command.Display | src/command.rs:28-43 | the display line starts with the binary |
| Command.Argv | src/command.rs:108-115 | the argument vector is the arguments, then `--`, then `env DISABLE_HDR_WSI=1` exactly when the workaround is needed, then the child command |
| Command.DisplayIsArgv | src/command.rs:28-43 | with arguments and a child, the display line is the binary and the argument vector joined by spaces |
| Command.MiddleJoin | src/command.rs:32-36 | the `--` separator and the workaround join as `--` or `-- env DISABLE_HDR_WSI=1` |
| Command.JoinFour | src/command.rs:40-43 | joining four non-empty parts is joining each with the separator between |
| Command.ProcessEnv.constructor | src/command.rs:104 | a new process starts with the inherited environment |
| Command.ProcessEnv.Set | src/command.rs:94-96 | setting a variable gives it that value and changes nothing else |
| Command.ProcessEnv.Remove | src/command.rs:97-99 | removing a variable deletes it and changes nothing else |
| Command.RemoveAll | src/command.rs:97-99 | removing names in turn leaves no removed name and changes no remaining value |
| Command.ApplyEnvToCommand | src/command.rs:93-100 | the process environment becomes the old one with every pair set in order, then every unset name removed |
| Command.RemoveAllIsDifference | src/command.rs:97-99 | removing names one by one removes exactly that set of names |
| Command.DuplicateUnsetHarmless | src/config.rs:619-660 | the order and repetition of unset names make no difference |
| Command.SetAllValues | src/command.rs:94-96 | after setting, a name that was set has its last value, and any other keeps its inherited value |
| Command.ApplyEnvFacts | src/command.rs:93-100 | an unset name is absent whatever was set; any other name has its last set value or its inherited value |
| Command.SetAllListing | src/command.rs:94-96 | setting the listing of a map overrides the inherited variables with the map |
| Command.LastIsOnly | src/profile.rs:80-82 | in a listing with distinct keys, the last value of a name is its only value |
| Command.ChildEnvironment | src/command.rs:93-100 | the child receives the inherited variables overridden by the profile's environment, minus the unset names |
| Command.Exec | src/command.rs:103-119 | gamescope is started with the binary, then the arguments, `--`, the workaround when needed and the child, and with the applied environment |
| Command.ExecDirect | src/command.rs:122-132 | an empty child command is refused; otherwise its first word is the program, the rest the arguments, and the environment is inherited unchanged |
| Command.ExecDirectWithEnv | src/command.rs:139-154 | an empty child command is refused; otherwise the child runs with the profile's environment applied |

## Left out

- Reading files, the configuration directory and its default paths
  (`config_dir`, `default_path`, the two document `load`s, `parse_yaml`)
  are left out. `Configuration.Load` starts from the two parsed documents.
- YAML syntax and deserialisation errors are left out, and so are the
  wording of error messages and their `anyhow` context. Errors are the
  structured `ConfigError`.
- Replacing the process (`exec` on a Unix `Command`) and its failure are
  left out. `Command.Exec`, `Command.ExecDirect` and
  `Command.ExecDirectWithEnv` return the `Invocation` that would be
  started.
- Process environment values are `OsString` in the source; here they are
  strings.
- The standard library's sort algorithm is left out. The model states
  what sorting produces, the unique key-ascending listing, through
  insertion into that listing.
- `HashMap` iteration order is not modelled. `Configuration.DefaultMonitor`,
  `Configuration.Load`, `Configuration.ResolveProfile` and
  `HashMaps.IterKeys` choose an order with `:|`.
- `Configuration.DefaultMonitor`: when several monitors are primary, it
  does not say which one is taken, because the source takes the first in
  hash order.
- `Configuration.Load`: when several profiles are invalid, it does not say
  which one is reported, because the source reports the first in hash
  order.
- `Command.DisplayIsArgv`: stated only for non-empty arguments and child.
  With no arguments, the source's format string leaves two adjacent
  spaces after the binary. With no child command, it leaves a trailing
  space after `--`. In both cases the line is not the argument vector
  joined by spaces.
- `Command.Display`: states only that the line starts with the binary.
  The full line is given by `Command.DisplayIsArgv`.
- `Text.Less` compares characters where Rust compares UTF-8 bytes. The
  two orders agree on every pair of strings, so nothing is lost.
- The 32-bit and 64-bit integer widths of the documents are range types
  (`u32`, `i64`). Overflow cannot arise in the modelled code, which only
  copies and displays these numbers.
- src/cli.rs, src/init.rs, src/output.rs and src/main.rs (argument
  parsing, the setup wizard, monitor and profile printing) are not part
  of this model.

## Findings

| source | as written | input that shows it | evidently intended | confidence | as-written member | corrected member |
|---|---|---|---|---|---|---|
| src/config.rs:532-535 | the unset test expects the environment list of the resolved profile to lack the unset names, but `environment` (src/profile.rs:59-83) never consults `unset_vars` | profile `with-unset`: WSI on, `CUSTOM=value`, unset `SDL_VIDEODRIVER` and `CUSTOM`; the list still holds `SDL_VIDEODRIVER=wayland` and `CUSTOM=value` | the unset names are absent from the environment the game runs with, which is what applying the environment to the process achieves | not executed | ConfigExamples.UnsetTestEnvironmentKeepsNames | ConfigExamples.UnsetTestChildLacksNames |
