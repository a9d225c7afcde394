/** The run script that `writeConfigFile` in src/utils.py writes: the
    shell command that re-launches a training run with the same options,
    built line by line, one option flag per line. */
module RunScript {
  import opened Decimal

  /** The command-line options the run script repeats. The four fields the
      source passes through `int(...)` are integers here; every other field
      holds the text `str(option)` already. */
  datatype Options = Options(
    sampling: int,
    batch: string,
    curriculum: string,
    degree: string,
    epoch: string,
    folder: string,
    loadmodel: string,
    model: string,
    normalized: int,
    scaledOutput: int,
    decorrInput: int,
    objective: string,
    processingmode: string,
    spatialDimension: string,
    training: string,
    verbosity: string,
    networkwidth: string,
    networkdepth: string)

  const Header: string := "python callNeuralClosure.py \\\n"
  const Continuation: string := " \\\n"

  /** The eighteen option flags, in the order the script lists them. */
  const Flags: seq<string> := [
      "--sampling=",
      "--batch=",
      "--curriculum=",
      "--degree=",
      "--epoch=",
      "--folder=",
      "--loadModel=",
      "--model=",
      "--normalized=",
      "--scaledOutput=",
      "--decorrInput=",
      "--objective=",
      "--processingmode=",
      "--spatialDimension=",
      "--training=",
      "--verbosity=",
      "--networkwidth=",
      "--networkdepth=" ]

  /** The value written after each flag; the load-model flag always gets
      1, whatever the options say. */
  function FlagValues(o: Options): (vs: seq<string>)
    ensures |vs| == |Flags| == 18
  {
    [
      IntString(o.sampling),
      o.batch,
      o.curriculum,
      o.degree,
      o.epoch,
      o.folder,
      IntString(1),
      o.model,
      IntString(o.normalized),
      IntString(o.scaledOutput),
      IntString(o.decorrInput),
      o.objective,
      o.processingmode,
      o.spatialDimension,
      o.training,
      o.verbosity,
      o.networkwidth,
      o.networkdepth ]
  }

  /** The script after its first `k` option lines, each followed by a shell
      line continuation. */
  function ScriptPrefix(flags: seq<string>, values: seq<string>, k: nat): string
    requires |flags| == |values| && k <= |flags|
  {
    if k == 0 then Header
    else ScriptPrefix(flags, values, k - 1) + flags[k - 1] + values[k - 1] + Continuation
  }

  /** A script over any option lines: the header, every line but the last
      with a line continuation, then the last line with none. */
  function ScriptText(flags: seq<string>, values: seq<string>): string
    requires |flags| == |values| > 0
  {
    var last := |flags| - 1;
    ScriptPrefix(flags, values, last) + flags[last] + values[last]
  }

  /** The run script `writeConfigFile` writes for the options `o`. */
  function RunScriptText(o: Options): string
  {
    ScriptText(Flags, FlagValues(o))
  }

  /** One reassignment of the script appends option line `k` and its
      continuation. */
  lemma AppendLine(flags: seq<string>, values: seq<string>, k: nat)
    requires |flags| == |values| && k < |flags|
    ensures ScriptPrefix(flags, values, k) + flags[k] + values[k] + Continuation == ScriptPrefix(flags, values, k + 1)
  {
  }

  /** Appending the last option line, with no continuation, completes the
      script. */
  lemma FinishScript(flags: seq<string>, values: seq<string>, script: string, flag: string, value: string)
    requires |flags| == |values| > 0
    requires flag == flags[|flags| - 1] && value == values[|flags| - 1]
    requires script == ScriptPrefix(flags, values, |flags| - 1)
    ensures script + flag + value == ScriptText(flags, values)
  {
  }

  /** The script is built by reassigning a string once per option line. */
  method BuildRunScript(o: Options) returns (runScript: string)
    ensures runScript == RunScriptText(o)
  {
    ghost var values := FlagValues(o);
    runScript := "python callNeuralClosure.py \\\n";
    AppendLine(Flags, values, 0);
    runScript := runScript + "--sampling=" + IntString(o.sampling) + Continuation;
    AppendLine(Flags, values, 1);
    runScript := runScript + "--batch=" + o.batch + Continuation;
    AppendLine(Flags, values, 2);
    runScript := runScript + "--curriculum=" + o.curriculum + Continuation;
    AppendLine(Flags, values, 3);
    runScript := runScript + "--degree=" + o.degree + Continuation;
    AppendLine(Flags, values, 4);
    runScript := runScript + "--epoch=" + o.epoch + Continuation;
    AppendLine(Flags, values, 5);
    runScript := runScript + "--folder=" + o.folder + Continuation;
    AppendLine(Flags, values, 6);
    runScript := runScript + "--loadModel=" + IntString(1) + Continuation;
    AppendLine(Flags, values, 7);
    runScript := runScript + "--model=" + o.model + Continuation;
    AppendLine(Flags, values, 8);
    runScript := runScript + "--normalized=" + IntString(o.normalized) + Continuation;
    AppendLine(Flags, values, 9);
    runScript := runScript + "--scaledOutput=" + IntString(o.scaledOutput) + Continuation;
    AppendLine(Flags, values, 10);
    runScript := runScript + "--decorrInput=" + IntString(o.decorrInput) + Continuation;
    AppendLine(Flags, values, 11);
    runScript := runScript + "--objective=" + o.objective + Continuation;
    AppendLine(Flags, values, 12);
    runScript := runScript + "--processingmode=" + o.processingmode + Continuation;
    AppendLine(Flags, values, 13);
    runScript := runScript + "--spatialDimension=" + o.spatialDimension + Continuation;
    AppendLine(Flags, values, 14);
    runScript := runScript + "--training=" + o.training + Continuation;
    AppendLine(Flags, values, 15);
    runScript := runScript + "--verbosity=" + o.verbosity + Continuation;
    AppendLine(Flags, values, 16);
    runScript := runScript + "--networkwidth=" + o.networkwidth + Continuation;
    FinishScript(Flags, values, runScript, "--networkdepth=", o.networkdepth);
    runScript := runScript + "--networkdepth=" + o.networkdepth;
  }

  /** An earlier prefix of the script is an initial part of every later
      one. */
  lemma {:induction false} ScriptPrefixGrows(flags: seq<string>, values: seq<string>, j: nat, k: nat)
    requires |flags| == |values| && j <= k <= |flags|
    ensures ScriptPrefix(flags, values, j) <= ScriptPrefix(flags, values, k)
  {
    if j < k {
      ScriptPrefixGrows(flags, values, j, k - 1);
      var a := ScriptPrefix(flags, values, k - 1);
      PrefixOfAppend(a, flags[k - 1] + values[k - 1] + Continuation);
      Assoc(a, flags[k - 1], values[k - 1], Continuation);
    }
  }

  lemma Assoc(a: string, b: string, c: string, d: string)
    ensures a + b + c + d == a + (b + c + d)
  {
  }

  lemma PrefixOfAppend(a: string, b: string)
    ensures a <= a + b
  {
    assert (a + b)[..|a|] == a;
  }

  /** `t` appears in `s` starting at position `p`. */
  predicate OccursAt(s: string, t: string, p: nat)
  {
    p + |t| <= |s| && s[p..p + |t|] == t
  }

  lemma SliceAfterPrefix(s: string, a: string, t: string)
    requires a + t <= s
    ensures OccursAt(s, t, |a|)
  {
    assert s[|a|..|a| + |t|] == (a + t)[|a|..];
  }

  /** Line `k` of a script sits right after the first `k` lines: the flag,
      its value and, for every line but the last, a line continuation; the
      last line ends the script. The script opens with the header. */
  lemma ScriptLine(flags: seq<string>, values: seq<string>, k: nat)
    requires |flags| == |values| && k < |flags|
    ensures var s, last := ScriptText(flags, values), |flags| - 1;
            var line := flags[k] + values[k] + (if k < last then Continuation else "");
            && Header <= s
            && OccursAt(s, line, |ScriptPrefix(flags, values, k)|)
            && (k == last ==> |ScriptPrefix(flags, values, k)| + |line| == |s|)
  {
    var s, last := ScriptText(flags, values), |flags| - 1;
    var a := ScriptPrefix(flags, values, k);
    var p := ScriptPrefix(flags, values, last);
    Assoc(p, flags[last], values[last], "");
    assert s == p + (flags[last] + values[last]);
    PrefixOfAppend(p, flags[last] + values[last]);
    ScriptPrefixGrows(flags, values, 0, last);
    if k < last {
      ScriptPrefixGrows(flags, values, k + 1, last);
      Assoc(a, flags[k], values[k], Continuation);
      SliceAfterPrefix(s, a, flags[k] + values[k] + Continuation);
    } else {
      SliceAfterPrefix(s, a, flags[k] + values[k]);
    }
  }

  /** The run script opens with the interpreter call and holds every
      option line in order, each but the last followed by a continuation. */
  lemma RunScriptLine(o: Options, k: nat)
    requires k < |Flags|
    ensures var s := RunScriptText(o);
            var line := Flags[k] + FlagValues(o)[k] + (if k < 17 then Continuation else "");
            && Header <= s
            && OccursAt(s, line, |ScriptPrefix(Flags, FlagValues(o), k)|)
            && (k == 17 ==> |ScriptPrefix(Flags, FlagValues(o), k)| + |line| == |s|)
  {
    ScriptLine(Flags, FlagValues(o), k);
  }

  /** The script always asks to load the model, whatever the options say:
      the line `--loadModel=1` with its continuation appears in it, and the
      text does not depend on the `loadmodel` option at all. */
  lemma LoadModelForced(o: Options, other: string)
    ensures exists p :: OccursAt(RunScriptText(o), "--loadModel=1 \\\n", p)
    ensures RunScriptText(o) == RunScriptText(o.(loadmodel := other))
  {
    var values := FlagValues(o);
    ScriptLine(Flags, values, 6);
    assert Flags[6] + values[6] + Continuation == "--loadModel=1 \\\n";
    assert OccursAt(RunScriptText(o), "--loadModel=1 \\\n", |ScriptPrefix(Flags, values, 6)|);
    assert FlagValues(o) == FlagValues(o.(loadmodel := other));
  }

  /** The four options passed through `int(...)` are written as integer
      literals that read back as the option values. */
  lemma IntegerOptionsReadBack(o: Options)
    ensures ParseInt(FlagValues(o)[0]) == o.sampling
    ensures ParseInt(FlagValues(o)[8]) == o.normalized
    ensures ParseInt(FlagValues(o)[9]) == o.scaledOutput
    ensures ParseInt(FlagValues(o)[10]) == o.decorrInput
  {
    IntStringRoundTrip(o.sampling);
    IntStringRoundTrip(o.normalized);
    IntStringRoundTrip(o.scaledOutput);
    IntStringRoundTrip(o.decorrInput);
  }
}
