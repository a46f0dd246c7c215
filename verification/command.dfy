/** Building the gamescope command line from a resolved profile, and the
    argument vector and environment the process is started with
    (src/command.rs). Starting the process itself is outside the model:
    the methods here return what would be handed to it. */
module Command {
  import opened Wrappers
  import opened Text
  import opened HashMaps
  import opened ConfigTypes
  import opened Profile

  /** Everything needed to start gamescope (`GamescopeCommand`). */
  datatype GamescopeCommand = GamescopeCommand(
    binary: string,
    args: seq<string>,
    env: seq<(string, string)>,
    unset: seq<string>,
    child: seq<string>,
    needsWorkaround: bool)

  /** The prefix that runs the child with `DISABLE_HDR_WSI=1`. */
  const Workaround: seq<string> := ["env", "DISABLE_HDR_WSI=1"]

  /** The flags that turn HDR on. */
  const HdrFlags: seq<string> := ["--hdr-enabled", "--hdr-debug-force-output", "--hdr-debug-force-support"]

  // ---------------------------------------------------------------------
  // Arguments
  // ---------------------------------------------------------------------

  /** One option on the command line: a true flag as `--key`, a false flag
      not at all, a number or a word as `--key` followed by the value. */
  function RenderOption(key: string, value: OptionValue): (piece: seq<string>)
    ensures piece == [] <==> value == OptionValue.Bool(false)
    ensures |piece| <= 2 && (|piece| == 1 <==> value == OptionValue.Bool(true))
    ensures piece != [] ==> piece[0] == "--" + key
    ensures |piece| == 2 ==> piece[1] == OptionText(value)
  {
    match value
    case Bool(b) => if b then ["--" + key] else []
    case Int(n) => ["--" + key, IntToString(n)]
    case String(s) => ["--" + key, s]
  }

  /** The options of a listing, one after the other. */
  function RenderOptions(opts: seq<(string, OptionValue)>): (args: seq<string>)
    ensures |args| <= 2 * |opts|
    ensures args == [] <==> forall i :: 0 <= i < |opts| ==> opts[i].1 == OptionValue.Bool(false)
    decreases |opts|
  {
    if |opts| == 0 then []
    else
      var last := opts[|opts| - 1];
      var front := opts[..|opts| - 1];
      assert forall i :: 0 <= i < |front| ==> front[i] == opts[i];
      RenderOptions(front) + RenderOption(last.0, last.1)
  }

  /** `build_args`: sorts the options by name and renders each in turn. */
  method BuildArgs(p: ResolvedProfile) returns (args: seq<string>)
    ensures args == RenderOptions(Listing(p.options))
  {
    var sorted := SortByKey(p.options);
    args := [];
    for i := 0 to |sorted|
      invariant args == RenderOptions(sorted[..i])
    {
      RenderOptionsStep(sorted, i);
      var (key, value) := sorted[i];
      match value {
        case Bool(b) =>
          if b {
            args := args + ["--" + key];
          }
        case Int(n) =>
          args := args + ["--" + key, IntToString(n)];
        case String(s) =>
          args := args + ["--" + key, s];
      }
    }
    assert sorted[..|sorted|] == sorted;
  }

  lemma RenderOptionsStep(opts: seq<(string, OptionValue)>, i: nat)
    requires i < |opts|
    ensures RenderOptions(opts[..i + 1]) == RenderOptions(opts[..i]) + RenderOption(opts[i].0, opts[i].1)
  {
    assert opts[..i + 1][..i] == opts[..i];
  }

  /** Rendering a concatenation renders the parts one after the other. */
  lemma {:induction false} RenderOptionsAppend(a: seq<(string, OptionValue)>, b: seq<(string, OptionValue)>)
    ensures RenderOptions(a + b) == RenderOptions(a) + RenderOptions(b)
    decreases |b|
  {
    if |b| > 0 {
      var front := b[..|b| - 1];
      assert (a + b)[..|a + b| - 1] == a + front;
      assert (a + b)[|a + b| - 1] == b[|b| - 1];
      RenderOptionsAppend(a, front);
    } else {
      assert a + b == a;
    }
  }

  /** `piece` occurs in `args` starting at position `i`. */
  predicate PieceAt(args: seq<string>, piece: seq<string>, i: nat)
  {
    i + |piece| <= |args| && args[i..i + |piece|] == piece
  }

  lemma RenderSingle(e: (string, OptionValue))
    ensures RenderOptions([e]) == RenderOption(e.0, e.1)
  {
    assert [e][..0] == [];
  }

  /** Every option of the profile appears on the command line, rendered as
      one contiguous piece. */
  lemma OptionRendered(m: map<string, OptionValue>, k: string)
    requires k in m
    ensures exists i :: PieceAt(RenderOptions(Listing(m)), RenderOption(k, m[k]), i)
  {
    var s := Listing(m);
    var j :| 0 <= j < |s| && s[j].0 == k;
    var before, after := s[..j], s[j + 1..];
    SplitAround(s, j);
    RenderAround(before, s[j], after);
    PieceInMiddle(RenderOptions(before), RenderOption(k, m[k]), RenderOptions(after));
  }

  lemma SplitAround<T>(s: seq<T>, j: nat)
    requires j < |s|
    ensures s == s[..j] + [s[j]] + s[j + 1..]
  {
  }

  lemma RenderAround(before: seq<(string, OptionValue)>, e: (string, OptionValue), after: seq<(string, OptionValue)>)
    ensures RenderOptions(before + [e] + after) == RenderOptions(before) + RenderOption(e.0, e.1) + RenderOptions(after)
  {
    RenderOptionsAppend(before + [e], after);
    RenderOptionsAppend(before, [e]);
    RenderSingle(e);
  }

  lemma PieceInMiddle(a: seq<string>, piece: seq<string>, b: seq<string>)
    ensures PieceAt(a + piece + b, piece, |a|)
  {
    assert (a + piece + b)[|a|..|a| + |piece|] == piece;
  }

  /** The entries holding a true flag. */
  function TrueFlags(opts: seq<(string, OptionValue)>): nat
    decreases |opts|
  {
    if |opts| == 0 then 0
    else TrueFlags(opts[..|opts| - 1]) + (if opts[|opts| - 1].1 == OptionValue.Bool(true) then 1 else 0)
  }

  /** The entries holding a number or a word. */
  function Valued(opts: seq<(string, OptionValue)>): nat
    decreases |opts|
  {
    if |opts| == 0 then 0
    else Valued(opts[..|opts| - 1]) + (if opts[|opts| - 1].1.Bool? then 0 else 1)
  }

  /** One argument per true flag and two per number or word. */
  lemma {:induction false} RenderOptionsLength(opts: seq<(string, OptionValue)>)
    ensures |RenderOptions(opts)| == TrueFlags(opts) + 2 * Valued(opts)
    decreases |opts|
  {
    if |opts| > 0 {
      RenderOptionsLength(opts[..|opts| - 1]);
    }
  }

  const ExampleOptions: map<string, OptionValue> := map[
    "a" := OptionValue.Bool(true), "b" := OptionValue.Bool(false),
    "c" := OptionValue.Int(5), "d" := OptionValue.String("x")]

  const ExampleListed: seq<(string, OptionValue)> := [
    ("a", OptionValue.Bool(true)), ("b", OptionValue.Bool(false)),
    ("c", OptionValue.Int(5)), ("d", OptionValue.String("x"))]

  lemma ExampleListing()
    ensures Listing(ExampleOptions) == ExampleListed
  {
    var s, m := ExampleListed, ExampleOptions;
    assert KeysAscending(s) by {
      assert Less("a", "b") && Less("a", "c") && Less("a", "d");
      assert Less("b", "c") && Less("b", "d") && Less("c", "d");
    }
    assert forall i :: 0 <= i < |s| ==> s[i].0 in m && m[s[i].0] == s[i].1;
    assert forall k :: k in m ==> exists i :: 0 <= i < |s| && s[i].0 == k by {
      assert m.Keys == {"a", "b", "c", "d"};
      assert s[0].0 == "a" && s[1].0 == "b" && s[2].0 == "c" && s[3].0 == "d";
    }
    ListingUnique(s, Listing(m), m);
  }

  /** A small option table: true flags and valued options appear, the
      false flag does not, and names come in ascending order. */
  lemma RenderExample()
    ensures RenderOptions(Listing(ExampleOptions)) == ["--a", "--c", "5", "--d", "x"]
  {
    ExampleListing();
    RenderExampleListed();
  }

  lemma RenderExampleListed()
    ensures RenderOptions(ExampleListed) == ["--a", "--c", "5", "--d", "x"]
  {
    var a, b := ("a", OptionValue.Bool(true)), ("b", OptionValue.Bool(false));
    var c, d := ("c", OptionValue.Int(5)), ("d", OptionValue.String("x"));
    ExamplePieces();
    RenderSingle(a);
    RenderSingle(b);
    RenderSingle(c);
    RenderSingle(d);
    assert [a] + [b] == [a, b] && [a, b] + [c] == [a, b, c] && [a, b, c] + [d] == [a, b, c, d];
    RenderOptionsAppend([a], [b]);
    RenderOptionsAppend([a, b], [c]);
    RenderOptionsAppend([a, b, c], [d]);
  }

  lemma ExamplePieces()
    ensures RenderOption("a", OptionValue.Bool(true)) == ["--a"]
    ensures RenderOption("b", OptionValue.Bool(false)) == []
    ensures RenderOption("c", OptionValue.Int(5)) == ["--c", "5"]
    ensures RenderOption("d", OptionValue.String("x")) == ["--d", "x"]
  {
    assert IntToString(5) == "5";
    assert "--" + "a" == "--a" && "--" + "c" == "--c" && "--" + "d" == "--d";
  }

  /** The options of the command tests' profile. */
  const MockOptions: map<string, OptionValue> := map[
    "backend" := OptionValue.String("sdl"),
    "fullscreen" := OptionValue.Bool(true),
    "output-width" := OptionValue.Int(2560)]

  /** The arguments hold `--fullscreen`, `--backend` and `sdl`. */
  lemma MockArgsExample()
    ensures var args := RenderOptions(Listing(MockOptions));
      "--fullscreen" in args && "--backend" in args && "sdl" in args
  {
    var args := RenderOptions(Listing(MockOptions));
    MockPieces();
    OptionRendered(MockOptions, "fullscreen");
    OptionRendered(MockOptions, "backend");
    var flag, backend := ["--fullscreen"], ["--backend", "sdl"];
    var i :| PieceAt(args, flag, i);
    var j :| PieceAt(args, backend, j);
    PieceMember(args, flag, i, 0);
    PieceMember(args, backend, j, 0);
    PieceMember(args, backend, j, 1);
  }

  lemma MockPieces()
    ensures RenderOption("fullscreen", MockOptions["fullscreen"]) == ["--fullscreen"]
    ensures RenderOption("backend", MockOptions["backend"]) == ["--backend", "sdl"]
  {
    assert "--" + "fullscreen" == "--fullscreen" && "--" + "backend" == "--backend";
  }

  /** The SDL backend never needs the HDR workaround. */
  lemma MockNoWorkaround(p: ResolvedProfile)
    requires p.options == MockOptions
    ensures !NeedsHdrWorkaround(p)
  {
  }

  /** Whatever a piece of the arguments holds, the arguments hold. */
  lemma PieceMember(args: seq<string>, piece: seq<string>, i: nat, n: nat)
    requires PieceAt(args, piece, i) && n < |piece|
    ensures piece[n] in args
  {
    assert args[i..i + |piece|][n] == args[i + n];
  }

  // ---------------------------------------------------------------------
  // The command
  // ---------------------------------------------------------------------

  /** `build`: the rendered options, the HDR flags when HDR is on, the
      profile's environment, its unset list and the child command. */
  method Build(p: ResolvedProfile, child: seq<string>) returns (cmd: GamescopeCommand)
    ensures cmd.binary == p.binary
    ensures cmd.args == RenderOptions(Listing(p.options)) + (if p.useHdr then HdrFlags else [])
    ensures cmd.env == Listing(EnvironmentMap(p)) && KeysAscending(cmd.env)
    ensures cmd.unset == p.unsetVars && cmd.child == child
    ensures cmd.needsWorkaround <==>
      "backend" in p.options && p.options["backend"] == OptionValue.String("wayland") && p.useWsi && p.useHdr
  {
    var args := BuildArgs(p);
    ghost var rendered := args;
    if p.useHdr {
      args := args + ["--hdr-enabled"];
      args := args + ["--hdr-debug-force-output"];
      args := args + ["--hdr-debug-force-support"];
      assert args == rendered + HdrFlags;
    }
    var env := Environment(p);
    cmd := GamescopeCommand(p.binary, args, env, p.unsetVars, child, NeedsHdrWorkaround(p));
  }

  /** `display`: the command line as one string. */
  function Display(c: GamescopeCommand): (line: string)
    ensures |c.binary| <= |line| && line[..|c.binary|] == c.binary
  {
    var workaround := if c.needsWorkaround then " env DISABLE_HDR_WSI=1" else "";
    var line := c.binary + " " + Join(c.args, " ") + " --" + workaround + " " + Join(c.child, " ");
    assert line == c.binary + (" " + Join(c.args, " ") + " --" + workaround + " " + Join(c.child, " "));
    line
  }

  /** What `exec` hands to the binary: the arguments, `--`, the workaround
      prefix when needed, and the child command. */
  function Argv(c: GamescopeCommand): (argv: seq<string>)
    ensures |argv| == |c.args| + 1 + (if c.needsWorkaround then 2 else 0) + |c.child|
    ensures argv[..|c.args|] == c.args && argv[|c.args|] == "--"
    ensures c.needsWorkaround ==> argv[|c.args| + 1..|c.args| + 3] == Workaround
    ensures argv[|argv| - |c.child|..] == c.child
  {
    c.args + ["--"] + (if c.needsWorkaround then Workaround else []) + c.child
  }

  /** With arguments and a child command present, the displayed line is
      exactly the binary and its argument vector joined by spaces. */
  lemma DisplayIsArgv(c: GamescopeCommand)
    requires |c.args| > 0 && |c.child| > 0
    ensures Display(c) == Join([c.binary] + Argv(c), " ")
  {
    var mid := ["--"] + (if c.needsWorkaround then Workaround else []);
    assert [c.binary] + Argv(c) == [c.binary] + c.args + mid + c.child;
    JoinFour([c.binary], c.args, mid, c.child, " ");
    var tail := if c.needsWorkaround then " env DISABLE_HDR_WSI=1" else "";
    MiddleJoin(c.needsWorkaround);
    assert " --" + tail == " " + Join(mid, " ");
  }

  /** How `--` and the workaround prefix join. */
  lemma MiddleJoin(needed: bool)
    ensures Join(["--"] + (if needed then Workaround else []), " ")
      == "--" + (if needed then " env DISABLE_HDR_WSI=1" else "")
  {
    if needed {
      var mid := ["--", "env", "DISABLE_HDR_WSI=1"];
      assert ["--"] + Workaround == mid;
      assert mid[1..] == Workaround && Workaround[1..] == ["DISABLE_HDR_WSI=1"];
      assert Join(mid, " ") == "--" + " " + ("env" + " " + "DISABLE_HDR_WSI=1");
      assert "--" + " " + ("env" + " " + "DISABLE_HDR_WSI=1") == "--" + " env DISABLE_HDR_WSI=1";
    } else {
      assert ["--"] + [] == ["--"];
      assert "--" + "" == "--";
    }
  }

  lemma JoinFour(w: seq<string>, x: seq<string>, y: seq<string>, z: seq<string>, sep: string)
    requires |w| > 0 && |x| > 0 && |y| > 0 && |z| > 0
    ensures Join(w + x + y + z, sep)
      == Join(w, sep) + sep + Join(x, sep) + sep + Join(y, sep) + sep + Join(z, sep)
  {
    JoinAppend(w + x + y, z, sep);
    JoinAppend(w + x, y, sep);
    JoinAppend(w, x, sep);
  }

  // ---------------------------------------------------------------------
  // Environment of the child
  // ---------------------------------------------------------------------

  /** Removing each name in turn: no removed name is left, and what is
      left keeps its value. */
  function RemoveAll(vars: map<string, string>, names: seq<string>): (rest: map<string, string>)
    ensures rest.Keys <= vars.Keys
    ensures forall n :: n in names ==> n !in rest
    ensures forall k :: k in rest ==> rest[k] == vars[k]
    decreases |names|
  {
    if |names| == 0 then vars
    else RemoveAll(vars, names[..|names| - 1]) - {names[|names| - 1]}
  }

  /** The variables a child process sees: inherited ones as changed by
      `env` and `env_remove` calls (the `Command` builder's environment). */
  class ProcessEnv {
    var vars: map<string, string>

    constructor(inherited: map<string, string>)
      ensures vars == inherited
    {
      vars := inherited;
    }

    /** `Command::env`. */
    method Set(key: string, value: string)
      modifies this
      ensures vars == old(vars)[key := value]
    {
      vars := vars[key := value];
    }

    /** `Command::env_remove`. */
    method Remove(key: string)
      modifies this
      ensures vars == old(vars) - {key}
    {
      vars := vars - {key};
    }
  }

  /** `apply_env_to_command`: sets every pair, then removes every unset
      name, so a removal wins over a setting of the same name. */
  method ApplyEnvToCommand(command: ProcessEnv, env: seq<(string, string)>, unset: seq<string>)
    modifies command
    ensures command.vars == RemoveAll(SetAll(old(command.vars), env), unset)
  {
    ghost var inherited := command.vars;
    for i := 0 to |env|
      invariant command.vars == SetAll(inherited, env[..i])
    {
      assert env[..i + 1][..i] == env[..i];
      command.Set(env[i].0, env[i].1);
    }
    assert env[..|env|] == env;
    ghost var afterSet := command.vars;
    for i := 0 to |unset|
      invariant command.vars == RemoveAll(afterSet, unset[..i])
    {
      assert unset[..i + 1][..i] == unset[..i];
      command.Remove(unset[i]);
    }
    assert unset[..|unset|] == unset;
  }

  /** Removing names one by one removes the set of them: order and
      duplicates do not matter. */
  lemma {:induction false} RemoveAllIsDifference(vars: map<string, string>, names: seq<string>)
    ensures RemoveAll(vars, names) == vars - (set n | n in names)
    decreases |names|
  {
    if |names| > 0 {
      var front := names[..|names| - 1];
      RemoveAllIsDifference(vars, front);
      assert (set n | n in names) == (set n | n in front) + {names[|names| - 1]} by {
        assert names == front + [names[|names| - 1]];
      }
    }
  }

  /** Two unset lists naming the same variables, such as a list and its
      duplicate-free version, remove the same variables. */
  lemma DuplicateUnsetHarmless(vars: map<string, string>, a: seq<string>, b: seq<string>)
    requires forall n :: n in a <==> n in b
    ensures RemoveAll(vars, a) == RemoveAll(vars, b)
  {
    RemoveAllIsDifference(vars, a);
    RemoveAllIsDifference(vars, b);
    assert (set n | n in a) == (set n | n in b);
  }

  /** The value the last pair with key `k` sets. */
  function LastValue(env: seq<(string, string)>, k: string): string
    requires exists i :: 0 <= i < |env| && env[i].0 == k
    decreases |env|
  {
    var last := env[|env| - 1];
    var front := env[..|env| - 1];
    if last.0 == k then last.1
    else
      assert exists i :: 0 <= i < |front| && front[i].0 == k by {
        var i :| 0 <= i < |env| && env[i].0 == k;
        assert front[i] == env[i];
      }
      LastValue(front, k)
  }

  /** After setting the pairs, a key that some pair names holds the value
      of the last such pair; any other variable is as inherited. */
  lemma {:induction false} SetAllValues(vars: map<string, string>, env: seq<(string, string)>, k: string)
    ensures (exists i :: 0 <= i < |env| && env[i].0 == k) ==>
      k in SetAll(vars, env) && SetAll(vars, env)[k] == LastValue(env, k)
    ensures (forall i :: 0 <= i < |env| ==> env[i].0 != k) ==>
      (k in SetAll(vars, env) <==> k in vars) && (k in vars ==> SetAll(vars, env)[k] == vars[k])
    decreases |env|
  {
    if |env| > 0 {
      var front := env[..|env| - 1];
      SetAllValues(vars, front, k);
      assert forall i :: 0 <= i < |front| ==> front[i] == env[i];
      if env[|env| - 1].0 != k && exists i :: 0 <= i < |env| && env[i].0 == k {
        var i :| 0 <= i < |env| && env[i].0 == k;
        assert front[i].0 == k;
      }
    }
  }

  /** `apply_env_to_command`'s promise: no unset name survives; a set name
      that is not unset holds its last value; every other inherited
      variable is untouched. */
  lemma ApplyEnvFacts(vars: map<string, string>, env: seq<(string, string)>, unset: seq<string>, k: string)
    ensures k in unset ==> k !in RemoveAll(SetAll(vars, env), unset)
    ensures k !in unset && (exists i :: 0 <= i < |env| && env[i].0 == k) ==>
      k in RemoveAll(SetAll(vars, env), unset) && RemoveAll(SetAll(vars, env), unset)[k] == LastValue(env, k)
    ensures k !in unset && (forall i :: 0 <= i < |env| ==> env[i].0 != k) ==>
      (k in RemoveAll(SetAll(vars, env), unset) <==> k in vars) &&
      (k in vars ==> RemoveAll(SetAll(vars, env), unset)[k] == vars[k])
  {
    RemoveAllIsDifference(SetAll(vars, env), unset);
    SetAllValues(vars, env, k);
  }

  /** Setting the pairs of a listing of `m` overlays `m`. */
  lemma {:induction false} SetAllListing(vars: map<string, string>, s: seq<(string, string)>, m: map<string, string>)
    requires Lists(s, m)
    ensures SetAll(vars, s) == vars + m
  {
    forall k
      ensures k in SetAll(vars, s) <==> k in vars + m
      ensures k in vars + m ==> SetAll(vars, s)[k] == (vars + m)[k]
    {
      SetAllValues(vars, s, k);
      if k in m {
        var i :| 0 <= i < |s| && s[i].0 == k;
        LastIsOnly(s, k, i);
      }
    }
  }

  /** In a listing a key occurs once, so its last value is its value. */
  lemma {:induction false} LastIsOnly(s: seq<(string, string)>, k: string, i: nat)
    requires KeysAscending(s) && i < |s| && s[i].0 == k
    ensures LastValue(s, k) == s[i].1
    decreases |s|
  {
    if i < |s| - 1 {
      assert s[|s| - 1].0 != k by { LessIrreflexive(k); }
      var front := s[..|s| - 1];
      assert front[i] == s[i];
      LastIsOnly(front, k, i);
    }
  }

  /** The environment the child of gamescope gets from profile `p`: the
      inherited variables, overlaid with the profile's environment, minus
      every name the profile unsets. This is where the unset names are
      removed; `environment()` itself keeps them. */
  lemma ChildEnvironment(inherited: map<string, string>, p: ResolvedProfile)
    ensures RemoveAll(SetAll(inherited, Listing(EnvironmentMap(p))), p.unsetVars)
      == (inherited + EnvironmentMap(p)) - (set n | n in p.unsetVars)
  {
    SetAllListing(inherited, Listing(EnvironmentMap(p)), EnvironmentMap(p));
    RemoveAllIsDifference(inherited + EnvironmentMap(p), p.unsetVars);
  }

  // ---------------------------------------------------------------------
  // Starting processes
  // ---------------------------------------------------------------------

  /** A process about to be started: program, arguments, environment. */
  datatype Invocation = Invocation(program: string, argv: seq<string>, env: map<string, string>)

  datatype ExecError = NoCommandProvided

  /** `exec` up to the point of replacing the process: the binary, with the
      command's environment applied over the inherited one, and its argument
      vector assembled piece by piece. */
  method Exec(cmd: GamescopeCommand, inherited: map<string, string>) returns (inv: Invocation)
    ensures inv.program == cmd.binary
    ensures inv.argv == Argv(cmd)
    ensures inv.env == RemoveAll(SetAll(inherited, cmd.env), cmd.unset)
  {
    var command := new ProcessEnv(inherited);
    ApplyEnvToCommand(command, cmd.env, cmd.unset);
    var argv := cmd.args;
    argv := argv + ["--"];
    if cmd.needsWorkaround {
      argv := argv + ["env", "DISABLE_HDR_WSI=1"];
    }
    argv := argv + cmd.child;
    inv := Invocation(cmd.binary, argv, command.vars);
  }

  /** `exec_direct`: the child command run as it is, with the inherited
      environment; an empty command is an error. */
  method ExecDirect(child: seq<string>, inherited: map<string, string>) returns (r: Result<Invocation, ExecError>)
    ensures r.Failure? <==> |child| == 0
    ensures r.Failure? ==> r.error == NoCommandProvided
    ensures r.Success? ==> r.value == Invocation(child[0], child[1..], inherited)
  {
    if |child| == 0 {
      return Failure(NoCommandProvided);
    }
    r := Success(Invocation(child[0], child[1..], inherited));
  }

  /** `exec_direct_with_env`: as `exec_direct`, with the profile's
      environment applied the same way `exec` applies it. */
  method ExecDirectWithEnv(child: seq<string>, env: seq<(string, string)>, unset: seq<string>,
                           inherited: map<string, string>)
    returns (r: Result<Invocation, ExecError>)
    ensures r.Failure? <==> |child| == 0
    ensures r.Failure? ==> r.error == NoCommandProvided
    ensures r.Success? ==> r.value == Invocation(child[0], child[1..], RemoveAll(SetAll(inherited, env), unset))
  {
    if |child| == 0 {
      return Failure(NoCommandProvided);
    }
    var command := new ProcessEnv(inherited);
    ApplyEnvToCommand(command, env, unset);
    r := Success(Invocation(child[0], child[1..], command.vars));
  }
}
