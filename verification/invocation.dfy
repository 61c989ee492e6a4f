/** The argument lists conda is invoked with (`_invoke_conda`,
    `_get_conda_flags`) and the environment a package query runs in
    (`conda_env_override`). The process environment is a map; `shlex.split`
    is a parameter `shlexSplit`, since shell tokenisation is outside the model:
    it gives the tokens, or `None` where `shlex.split` raises `ValueError`
    (an unclosed quote, a trailing escape). */
module Invocation {
  import opened Wrappers
  import opened Environment

  /** Extra flags, as one shell-quoted string, added to every invocation. */
  const FlagsVariable: string := "CONDA_FLAGS"

  /** The errors `_invoke_conda` and `_get_conda_flags` raise: a prefix given
      with a name, or a `CONDA_FLAGS` value `shlex.split` rejects. */
  datatype InvokeError = PrefixAndName | UnparsableFlags(value: string)

  /** The tokens of `CONDA_FLAGS`, or none when it is unset or empty
      (Python treats the empty string as false); a value that cannot be
      tokenised is an error. */
  function ExtraFlags(env: Env, shlexSplit: string -> Option<seq<string>>)
    : (r: Result<seq<string>, InvokeError>)
    ensures FlagsVariable !in env || env[FlagsVariable] == [] ==> r == Success([])
    ensures FlagsVariable in env && env[FlagsVariable] != [] ==>
      var value := env[FlagsVariable];
      && (shlexSplit(value).Some? ==> r == Success(shlexSplit(value).value))
      && (shlexSplit(value).None? ==> r == Failure(UnparsableFlags(value)))
  {
    if FlagsVariable in env && env[FlagsVariable] != [] then
      match shlexSplit(env[FlagsVariable])
      case Some(tokens) => Success(tokens)
      case None => Failure(UnparsableFlags(env[FlagsVariable]))
    else Success([])
  }

  /** `flag v1 flag v2 …`: each value preceded by the flag. */
  function Pairs(flag: string, values: seq<string>): (args: seq<string>)
    ensures |args| == 2 * |values|
    decreases |values|
  {
    if values == [] then [] else [flag, values[0]] + Pairs(flag, values[1..])
  }

  /** `args` is a run of `flag value` pairs. */
  predicate PairedWith(args: seq<string>, flag: string) {
    |args| % 2 == 0 && forall p :: 0 <= p < |args| && p % 2 == 0 ==> args[p] == flag
  }

  /** The values of a run of `flag value` pairs, read back in order. */
  function PairValues(args: seq<string>): (values: seq<string>)
    ensures |values| == |args| / 2
    decreases |args|
  {
    if |args| < 2 then [] else [args[1]] + PairValues(args[2..])
  }

  /** Reading back the pairs gives the values they were built from, and the
      flag sits in every even position. */
  lemma {:induction false} PairsRoundTrip(flag: string, values: seq<string>)
    ensures PairedWith(Pairs(flag, values), flag)
    ensures PairValues(Pairs(flag, values)) == values
    decreases |values|
  {
    if values != [] {
      PairsRoundTrip(flag, values[1..]);
      var rest := Pairs(flag, values[1..]);
      var args := Pairs(flag, values);
      assert args[2..] == rest;
      forall p | 0 <= p < |args| && p % 2 == 0 ensures args[p] == flag {
        if p >= 2 { assert args[p] == rest[p - 2]; }
      }
    }
  }

  /** The arguments naming the target environment: `--prefix p`, `--name n`,
      or nothing. */
  function TargetArgs(prefix: string, name: string): seq<string> {
    (if prefix != [] then ["--prefix", prefix] else [])
      + (if name != [] then ["--name", name] else [])
  }

  /** The command line `_invoke_conda` runs: the executable, the command
      arguments, the target environment, the `CONDA_FLAGS` tokens and the
      trailing arguments. Giving both a prefix and a name is an error, raised
      before `CONDA_FLAGS` is read; so is a `CONDA_FLAGS` that cannot be
      tokenised. */
  function InvokeArgv(conda: string, prefix: string, name: string, commandArgs: seq<string>,
                      postArgs: seq<string>, env: Env, shlexSplit: string -> Option<seq<string>>)
    : (r: Result<seq<string>, InvokeError>)
    ensures r.Failure? <==> (prefix != [] && name != []) || ExtraFlags(env, shlexSplit).Failure?
    ensures prefix != [] && name != [] ==> r == Failure(PrefixAndName)
    ensures !(prefix != [] && name != []) && ExtraFlags(env, shlexSplit).Failure? ==>
      r == Failure(ExtraFlags(env, shlexSplit).error)
    ensures r.Success? ==>
      var argv := r.value;
      var c := 1 + |commandArgs|;
      var t := if prefix != [] || name != [] then 2 else 0;
      var flags := ExtraFlags(env, shlexSplit).value;
      && |argv| == c + t + |flags| + |postArgs|
      && argv[0] == conda
      && argv[1..c] == commandArgs
      && (prefix != [] ==> argv[c] == "--prefix" && argv[c + 1] == prefix)
      && (name != [] ==> argv[c] == "--name" && argv[c + 1] == name)
      && argv[c + t..c + t + |flags|] == flags
      && argv[c + t + |flags|..] == postArgs
  {
    if prefix != [] && name != [] then Failure(PrefixAndName)
    else
      match ExtraFlags(env, shlexSplit)
      case Failure(e) => Failure(e)
      case Success(flags) =>
      var tail := TargetArgs(prefix, name) + flags + postArgs;
      CommandThenTail(conda, commandArgs, tail);
      var argv := [conda] + commandArgs + tail;
      assert tail[|TargetArgs(prefix, name)|..][..|flags|] == flags;
      Success(argv)
  }

  /** The executable, then the command arguments, then the rest. */
  lemma CommandThenTail(conda: string, commandArgs: seq<string>, tail: seq<string>)
    ensures var argv := [conda] + commandArgs + tail;
      && argv[0] == conda
      && argv[1..1 + |commandArgs|] == commandArgs
      && argv[1 + |commandArgs|..] == tail
  {
    var argv := [conda] + commandArgs + tail;
    assert argv[1..] == commandArgs + tail;
    assert (commandArgs + tail)[..|commandArgs|] == commandArgs;
  }

  /** The platforms for which conda would inject `msys2` itself on a
      Windows host. */
  predicate IsWindows(platform: string) {
    platform == "win-64" || platform == "win-32"
  }

  /** Whether `msys2` is added after `channel`. */
  predicate AddsMsys2(channel: string, platform: string) {
    channel == "defaults" && IsWindows(platform)
  }

  /** The loop over the channels in `_get_conda_flags`: `--channel c` for each,
      followed by `--channel msys2` after `defaults` on Windows targets. */
  function ChannelArgs(channels: seq<string>, platform: string): (args: seq<string>)
    decreases |channels|
  {
    if channels == [] then []
    else
      ["--channel", channels[0]]
        + (if AddsMsys2(channels[0], platform) then ["--channel", "msys2"] else [])
        + ChannelArgs(channels[1..], platform)
  }

  /** The channels the arguments select, in order: each requested channel,
      with `msys2` right after each `defaults` on Windows targets. */
  function SelectedChannels(channels: seq<string>, platform: string): (r: seq<string>)
    ensures !IsWindows(platform) ==> r == channels
    decreases |channels|
  {
    if channels == [] then []
    else
      [channels[0]] + (if AddsMsys2(channels[0], platform) then ["msys2"] else [])
        + SelectedChannels(channels[1..], platform)
  }

  /** Number of `defaults` channels in `channels`. */
  function CountDefaults(channels: seq<string>): nat
    decreases |channels|
  {
    if channels == [] then 0
    else (if channels[0] == "defaults" then 1 else 0) + CountDefaults(channels[1..])
  }

  /** On Windows targets each requested channel keeps its order, shifted
      right by one place per `defaults` before it. */
  lemma {:induction false} WindowsChannelsKept(channels: seq<string>, platform: string)
    requires IsWindows(platform)
    ensures var r := SelectedChannels(channels, platform);
      forall i :: 0 <= i < |channels| ==>
        i + CountDefaults(channels[..i]) < |r| && r[i + CountDefaults(channels[..i])] == channels[i]
    decreases |channels|
  {
    if channels != [] {
      WindowsChannelsKept(channels[1..], platform);
      var r := SelectedChannels(channels, platform);
      var head := [channels[0]] + (if AddsMsys2(channels[0], platform) then ["msys2"] else []);
      var rest := SelectedChannels(channels[1..], platform);
      assert r == head + rest;
      assert channels[..0] == [];
      forall i | 1 <= i < |channels|
        ensures i + CountDefaults(channels[..i]) < |r| && r[i + CountDefaults(channels[..i])] == channels[i]
      {
        CountDefaultsPrefix(channels, i);
        assert channels[1..][i - 1] == channels[i];
      }
    }
  }

  /** Counting the `defaults` in a non-empty prefix starts at its head. */
  lemma CountDefaultsPrefix(channels: seq<string>, i: nat)
    requires 1 <= i <= |channels|
    ensures CountDefaults(channels[..i])
      == (if channels[0] == "defaults" then 1 else 0) + CountDefaults(channels[1..][..i - 1])
  {
    assert channels[..i][0] == channels[0];
    assert channels[..i][1..] == channels[1..][..i - 1];
  }

  /** On Windows targets every `defaults` is followed by `msys2`, one channel
      is added per `defaults`, and the requested channels keep their order. */
  lemma {:induction false} SelectedChannelsWindows(channels: seq<string>, platform: string)
    requires IsWindows(platform)
    ensures |SelectedChannels(channels, platform)| == |channels| + CountDefaults(channels)
    ensures var r := SelectedChannels(channels, platform);
      forall i :: 0 <= i < |r| && r[i] == "defaults" ==> i + 1 < |r| && r[i + 1] == "msys2"
    ensures var r := SelectedChannels(channels, platform);
      forall i :: 0 <= i < |channels| ==>
        i + CountDefaults(channels[..i]) < |r| && r[i + CountDefaults(channels[..i])] == channels[i]
    decreases |channels|
  {
    WindowsChannelsKept(channels, platform);
    if channels != [] {
      SelectedChannelsWindows(channels[1..], platform);
      var r := SelectedChannels(channels, platform);
      var head := [channels[0]] + (if AddsMsys2(channels[0], platform) then ["msys2"] else []);
      var rest := SelectedChannels(channels[1..], platform);
      assert r == head + rest;
      forall i | 0 <= i < |r| && r[i] == "defaults"
        ensures i + 1 < |r| && r[i + 1] == "msys2"
      {
        if i >= |head| {
          assert r[i] == rest[i - |head|];
          assert r[i + 1] == rest[i + 1 - |head|];
        }
      }
    }
  }

  /** The pairs of two runs of values are the pairs of each, in order. */
  lemma {:induction false} PairsAppend(flag: string, a: seq<string>, b: seq<string>)
    ensures Pairs(flag, a + b) == Pairs(flag, a) + Pairs(flag, b)
    decreases |a|
  {
    if a != [] {
      PairsAppend(flag, a[1..], b);
      assert (a + b)[1..] == a[1..] + b;
      assert (a + b)[0] == a[0];
    } else {
      assert a + b == b;
    }
  }

  /** The arguments the loop emits for one channel. */
  function OneChannelArgs(channel: string, platform: string): seq<string> {
    ["--channel", channel] + (if AddsMsys2(channel, platform) then ["--channel", "msys2"] else [])
  }

  /** The channels selected for one requested channel. */
  function OneChannelSelected(channel: string, platform: string): seq<string> {
    [channel] + (if AddsMsys2(channel, platform) then ["msys2"] else [])
  }

  /** For one channel, the loop emits a `--channel` pair per selected channel. */
  lemma OneChannelArePairs(channel: string, platform: string)
    ensures OneChannelArgs(channel, platform) == Pairs("--channel", OneChannelSelected(channel, platform))
  {
    var sel := OneChannelSelected(channel, platform);
    if AddsMsys2(channel, platform) {
      assert sel[1..] == ["msys2"];
    } else {
      assert sel[1..] == [];
    }
  }

  /** Both recursions take one requested channel at a time. */
  lemma ChannelHeads(channels: seq<string>, platform: string)
    requires channels != []
    ensures ChannelArgs(channels, platform)
      == OneChannelArgs(channels[0], platform) + ChannelArgs(channels[1..], platform)
    ensures SelectedChannels(channels, platform)
      == OneChannelSelected(channels[0], platform) + SelectedChannels(channels[1..], platform)
  {
  }

  /** The channel loop emits a `--channel` pair per selected channel. */
  lemma {:induction false} ChannelArgsArePairs(channels: seq<string>, platform: string)
    ensures ChannelArgs(channels, platform) == Pairs("--channel", SelectedChannels(channels, platform))
    decreases |channels|
  {
    if channels != [] {
      ChannelArgsArePairs(channels[1..], platform);
      ChannelHeads(channels, platform);
      OneChannelArePairs(channels[0], platform);
      PairsAppend("--channel", OneChannelSelected(channels[0], platform), SelectedChannels(channels[1..], platform));
    }
  }

  /** The channel arguments are `--channel` pairs whose values are the
      selected channels. */
  lemma ChannelArgsSelect(channels: seq<string>, platform: string)
    ensures ChannelArgs(channels, platform) == Pairs("--channel", SelectedChannels(channels, platform))
    ensures PairedWith(ChannelArgs(channels, platform), "--channel")
    ensures PairValues(ChannelArgs(channels, platform)) == SelectedChannels(channels, platform)
  {
    ChannelArgsArePairs(channels, platform);
    PairsRoundTrip("--channel", SelectedChannels(channels, platform));
  }

  /** `_get_conda_flags`: the `CONDA_FLAGS` tokens, `--override-channels` when
      any channel is given, then the channel arguments; a `CONDA_FLAGS` that
      cannot be tokenised is an error. */
  function CondaFlags(channels: seq<string>, platform: string, env: Env,
                      shlexSplit: string -> Option<seq<string>>): Result<seq<string>, InvokeError>
  {
    match ExtraFlags(env, shlexSplit)
    case Failure(e) => Failure(e)
    case Success(flags) =>
      Success(flags + (if channels != [] then ["--override-channels"] else [])
        + ChannelArgs(channels, platform))
  }

  /** Where everything sits in `_get_conda_flags`'s result: it fails exactly
      when `CONDA_FLAGS` cannot be tokenised; otherwise the flag tokens come
      first, `--override-channels` exactly when channels are given, and the
      rest is a run of `--channel` pairs naming the selected channels. */
  lemma CondaFlagsLayout(channels: seq<string>, platform: string, env: Env,
                         shlexSplit: string -> Option<seq<string>>)
    ensures var r := CondaFlags(channels, platform, env, shlexSplit);
      var flags := ExtraFlags(env, shlexSplit);
      && (r.Failure? <==> flags.Failure?)
      && (r.Failure? ==> r.error == flags.error)
      && (r.Success? ==>
        var args := r.value;
        var f := |flags.value|;
        var o := if channels != [] then 1 else 0;
        && f + o <= |args|
        && args[..f] == flags.value
        && (channels != [] <==> o == 1 && args[f] == "--override-channels")
        && PairedWith(args[f + o..], "--channel")
        && PairValues(args[f + o..]) == SelectedChannels(channels, platform))
  {
    ChannelArgsSelect(channels, platform);
    var r := CondaFlags(channels, platform, env, shlexSplit);
    if r.Success? {
      var args := r.value;
      var flags := ExtraFlags(env, shlexSplit).value;
      var f := |flags|;
      var o := if channels != [] then 1 else 0;
      assert args == flags + (if channels != [] then ["--override-channels"] else [])
        + ChannelArgs(channels, platform);
      assert args[f + o..] == ChannelArgs(channels, platform);
      assert args[..f] == flags;
    }
  }

  /** The keys `conda_env_override` sets. */
  const SubdirKey: string := "CONDA_SUBDIR"
  const PkgsDirsKey: string := "CONDA_PKGS_DIRS"
  const HintsDepthKey: string := "CONDA_UNSATISFIABLE_HINTS_CHECK_DEPTH"
  const PipDependencyKey: string := "CONDA_ADD_PIP_AS_PYTHON_DEPENDENCY"

  /** `conda_env_override`: a copy of the environment with the target platform,
      the shared package cache, no unsatisfiability hints and no implicit pip
      dependency. */
  function EnvOverride(env: Env, platform: string, pkgsDir: string): (r: Env)
    ensures r.Keys == env.Keys + {SubdirKey, PkgsDirsKey, HintsDepthKey, PipDependencyKey}
    ensures r[SubdirKey] == platform && r[PkgsDirsKey] == pkgsDir
    ensures r[HintsDepthKey] == "0" && r[PipDependencyKey] == "False"
    ensures forall k :: (k in env && k !in {SubdirKey, PkgsDirsKey, HintsDepthKey, PipDependencyKey}
      ==> r[k] == env[k])
  {
    env[SubdirKey := platform][PkgsDirsKey := pkgsDir][HintsDepthKey := "0"][PipDependencyKey := "False"]
  }
}
