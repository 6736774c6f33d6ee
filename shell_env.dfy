/** Importing the login shell's environment at startup.

    The shell named by `SHELL` is run as a login shell printing its environment. Its
    standard output is read as UTF-8 text (text that is not valid UTF-8 counts as
    empty) and cut into lines. A line with an `=` sets the variable named by the text
    before the first `=` to the text after it, with carriage returns trimmed from both
    ends. A warning is logged when that replaces a different value. Lines without an
    `=` are skipped. */
module ShellEnv {
  import opened Options
  import opened Strings

  /** How running the shell turned out. */
  datatype ShellRun =
    | NoShell          // `SHELL` is not set
    | SpawnFailed      // the command could not be run
    | Finished(stdout: Option<string>)   // `None`: the output is not valid UTF-8

  /** Logged when a variable that is already set receives a different value. */
  datatype Warning = Overwriting(key: string, previous: string, current: string)

  /** The output as text: output that is not valid UTF-8 counts as empty. */
  function OutputText(stdout: Option<string>): string {
    if stdout.Some? then stdout.value else ""
  }

  /** The variable a line sets, if the line has an `=` at all. */
  function EnvLine(line: string): (r: Option<(string, string)>)
    ensures r.None? <==> '=' !in line
  {
    match SplitOnce(line, '=')
    case None => None
    case Some((key, value)) => Some((key, TrimMatches(value, '\r')))
  }

  /** The lines that set a variable, in order, with the lines without `=` dropped. */
  function LinePairs(lines: seq<string>): seq<(string, string)> {
    if lines == [] then []
    else
      match EnvLine(lines[0])
      case None => LinePairs(lines[1..])
      case Some(p) => [p] + LinePairs(lines[1..])
  }

  /** Every variable assignment of the shell's output, in output order. */
  function EnvPairs(text: string): seq<(string, string)> {
    LinePairs(Split(text, '\n'))
  }

  /** What a parsed assignment looks like: its name holds no `=` and no line break,
      and its value holds no line break and carries no carriage return at either end. */
  predicate WellFormedPair(p: (string, string)) {
    '=' !in p.0 && '\n' !in p.0 && '\n' !in p.1 && (p.1 == [] || (p.1[0] != '\r' && p.1[|p.1| - 1] != '\r'))
  }

  lemma EnvLineWellFormed(line: string)
    requires '\n' !in line
    ensures EnvLine(line).Some? ==> WellFormedPair(EnvLine(line).value)
  {
    var r := SplitOnce(line, '=');
    if r.Some? {
      var (k, v) := r.value;
      assert line == k + ['='] + v;
      assert k == line[..|k|] && v == line[|k| + 1..];
      NotInSlice(line, '\n', 0, |k|);
      NotInSlice(line, '\n', |k| + 1, |line|);
      TrimmedValueWellFormed(v);
    }
  }

  /** A value without line breaks keeps none after its carriage returns are trimmed. */
  lemma TrimmedValueWellFormed(v: string)
    requires '\n' !in v
    ensures var t := TrimMatches(v, '\r');
      '\n' !in t && (t == [] || (t[0] != '\r' && t[|t| - 1] != '\r'))
  {
    TrimMatchesClean(v, '\r');
    TrimKeepsAbsent(v, '\r', '\n');
    TrimKeepsAbsent(TrimStart(v, '\r'), '\r', '\n');
  }

  lemma {:induction false} LinePairsWellFormed(lines: seq<string>)
    requires forall k :: 0 <= k < |lines| ==> '\n' !in lines[k]
    ensures forall k :: 0 <= k < |LinePairs(lines)| ==> WellFormedPair(LinePairs(lines)[k])
  {
    if lines != [] {
      EnvLineWellFormed(lines[0]);
      LinePairsWellFormed(lines[1..]);
    }
  }

  /** Whatever the output, every assignment read from it is well formed. */
  lemma EnvPairsWellFormed(text: string)
    ensures forall k :: 0 <= k < |EnvPairs(text)| ==> WellFormedPair(EnvPairs(text)[k])
  {
    LinePairsWellFormed(Split(text, '\n'));
  }

  /** Output that is not valid UTF-8 sets nothing. */
  lemma InvalidOutputSetsNothing()
    ensures EnvPairs(OutputText(None)) == []
  {
    assert Split("", '\n') == [""];
  }

  /** The line a shell prints for one variable. */
  function PrintedLine(p: (string, string)): string {
    p.0 + ['='] + p.1
  }

  function PrintedLines(pairs: seq<(string, string)>): (lines: seq<string>)
    ensures |lines| == |pairs|
  {
    if pairs == [] then [] else [PrintedLine(pairs[0])] + PrintedLines(pairs[1..])
  }

  /** The first separator of a string is where any splitting at it starts. */
  lemma IndexOfAfter(a: string, c: char, b: string)
    requires c !in a
    ensures IndexOf(a + [c] + b, c) == |a|
  {
    var s := a + [c] + b;
    assert s[|a|] == c;
    assert s[..|a|] == a;
  }

  /** Splitting undoes joining when no piece holds the separator. */
  lemma {:induction false} SplitJoin(parts: seq<string>, sep: char)
    requires |parts| >= 1
    requires forall k :: 0 <= k < |parts| ==> sep !in parts[k]
    ensures Split(Join(parts, sep), sep) == parts
  {
    if |parts| > 1 {
      SplitJoin(parts[1..], sep);
      SplitAppend(parts[0], Join(parts[1..], sep), sep);
      assert Split(parts[0], sep) == [parts[0]];
      assert parts == [parts[0]] + parts[1..];
    }
  }

  /** A printed line is read back as the assignment it was printed from. */
  lemma EnvLineOfPrinted(p: (string, string))
    requires WellFormedPair(p)
    ensures EnvLine(PrintedLine(p)) == Some(p)
  {
    var line := PrintedLine(p);
    IndexOfAfter(p.0, '=', p.1);
    assert line[..|p.0|] == p.0;
    assert line[|p.0| + 1..] == p.1;
    assert SplitOnce(line, '=') == Some((p.0, p.1));
    assert TrimStart(p.1, '\r') == p.1;
    assert TrimEnd(p.1, '\r') == p.1;
  }

  lemma {:induction false} LinePairsOfPrinted(pairs: seq<(string, string)>)
    requires forall k :: 0 <= k < |pairs| ==> WellFormedPair(pairs[k])
    ensures LinePairs(PrintedLines(pairs)) == pairs
  {
    if pairs != [] {
      var rest := pairs[1..];
      forall k | 0 <= k < |rest|
        ensures WellFormedPair(rest[k])
      {
        assert rest[k] == pairs[k + 1];
      }
      LinePairsOfPrinted(rest);
      var first := [PrintedLine(pairs[0])];
      assert PrintedLines(pairs) == first + PrintedLines(rest);
      LinePairsAppend(first, PrintedLines(rest));
      EnvLineOfPrinted(pairs[0]);
      assert LinePairs(first) == [pairs[0]] by {
        assert first[1..] == [];
      }
      assert pairs == [pairs[0]] + rest;
    }
  }

  /** Reading the environment back: output printing well-formed assignments one per
      line is parsed into exactly those assignments, in order, whether or not the last
      line ends with a line break (the empty piece after it sets nothing). */
  lemma EnvPairsOfPrinted(pairs: seq<(string, string)>)
    requires |pairs| >= 1
    requires forall k :: 0 <= k < |pairs| ==> WellFormedPair(pairs[k])
    ensures EnvPairs(Join(PrintedLines(pairs), '\n')) == pairs
    ensures EnvPairs(Join(PrintedLines(pairs), '\n') + "\n") == pairs
  {
    var lines := PrintedLines(pairs);
    forall k | 0 <= k < |lines| ensures '\n' !in lines[k] {
      PrintedLineAt(pairs, k);
    }
    SplitJoin(lines, '\n');
    LinePairsOfPrinted(pairs);
    var text := Join(lines, '\n');
    assert text + "\n" == text + ['\n'] + "";
    SplitAppend(text, "", '\n');
    assert Split("", '\n') == [""];
    LinePairsAppend(lines, [""]);
    assert LinePairs([""]) == [];
  }

  /** The assignments of two runs of lines are those of each, one after the other. */
  lemma {:induction false} LinePairsAppend(a: seq<string>, b: seq<string>)
    ensures LinePairs(a + b) == LinePairs(a) + LinePairs(b)
  {
    if a == [] {
      assert a + b == b;
    } else {
      assert (a + b)[0] == a[0];
      assert (a + b)[1..] == a[1..] + b;
      LinePairsAppend(a[1..], b);
    }
  }

  lemma {:induction false} PrintedLineAt(pairs: seq<(string, string)>, k: nat)
    requires k < |pairs| && WellFormedPair(pairs[k])
    ensures PrintedLines(pairs)[k] == PrintedLine(pairs[k])
    ensures '\n' !in PrintedLines(pairs)[k]
  {
    if k > 0 {
      PrintedLineAt(pairs[1..], k - 1);
    }
  }

  /** The environment after the assignments, applied in order. */
  function Applied(env: map<string, string>, pairs: seq<(string, string)>): map<string, string> {
    if pairs == [] then env
    else
      var last := pairs[|pairs| - 1];
      Applied(env, pairs[..|pairs| - 1])[last.0 := last.1]
  }

  /** The warning one assignment logs against the environment it is applied to. */
  function OverwriteOf(env: map<string, string>, p: (string, string)): seq<Warning> {
    if p.0 in env && env[p.0] != p.1 then [Overwriting(p.0, env[p.0], p.1)] else []
  }

  /** The warnings logged while applying the assignments, in order. */
  function Overwrites(env: map<string, string>, pairs: seq<(string, string)>): seq<Warning> {
    if pairs == [] then []
    else
      var init := pairs[..|pairs| - 1];
      Overwrites(env, init) + OverwriteOf(Applied(env, init), pairs[|pairs| - 1])
  }

  /** The value the last assignment to `key` gives it, if any assigns it. */
  function LastValue(pairs: seq<(string, string)>, key: string): (r: Option<string>)
    ensures r.None? <==> forall k :: 0 <= k < |pairs| ==> pairs[k].0 != key
  {
    if pairs == [] then None
    else if pairs[|pairs| - 1].0 == key then Some(pairs[|pairs| - 1].1)
    else
      var r := LastValue(pairs[..|pairs| - 1], key);
      assert forall k :: 0 <= k < |pairs| - 1 ==> pairs[..|pairs| - 1][k] == pairs[k];
      r
  }

  /** The last assignment wins: a variable assigned in the output ends with the value of
      its last assignment, and every other variable keeps its value (or stays unset). */
  lemma {:induction false} LastAssignmentWins(env: map<string, string>, pairs: seq<(string, string)>, key: string)
    ensures LastValue(pairs, key).Some? ==> key in Applied(env, pairs) && Applied(env, pairs)[key] == LastValue(pairs, key).value
    ensures LastValue(pairs, key).None? ==> (key in Applied(env, pairs) <==> key in env)
    ensures LastValue(pairs, key).None? && key in env ==> Applied(env, pairs)[key] == env[key]
  {
    if pairs != [] && pairs[|pairs| - 1].0 != key {
      LastAssignmentWins(env, pairs[..|pairs| - 1], key);
    }
  }

  /** No assignment logs more than one warning, and a warning always names a real change. */
  lemma {:induction false} OverwritesAreChanges(env: map<string, string>, pairs: seq<(string, string)>)
    ensures |Overwrites(env, pairs)| <= |pairs|
    ensures forall w :: w in Overwrites(env, pairs) ==> w.previous != w.current
  {
    if pairs != [] {
      OverwritesAreChanges(env, pairs[..|pairs| - 1]);
    }
  }

  /** With each variable assigned once, loading the same output a second time warns
      about nothing: every variable already holds the value it is given. */
  lemma {:induction false} ReloadWarnsNothing(env: map<string, string>, pairs: seq<(string, string)>, n: nat)
    requires forall a, b :: 0 <= a < b < |pairs| ==> pairs[a].0 != pairs[b].0
    requires n <= |pairs|
    ensures Overwrites(Applied(env, pairs), pairs[..n]) == []
  {
    if n > 0 {
      var e := Applied(env, pairs);
      var p := pairs[n - 1];
      assert pairs[..n][..n - 1] == pairs[..n - 1];
      ReloadWarnsNothing(env, pairs, n - 1);
      LastOfDistinct(pairs, n - 1);
      LastAssignmentWins(env, pairs, p.0);
      var init := pairs[..n - 1];
      assert LastValue(init, p.0).None? by {
        forall k | 0 <= k < |init| ensures init[k].0 != p.0 {
          assert init[k] == pairs[k];
        }
      }
      LastAssignmentWins(e, pairs[..n - 1], p.0);
    }
  }

  lemma {:induction false} LastOfDistinct(pairs: seq<(string, string)>, i: nat)
    requires forall a, b :: 0 <= a < b < |pairs| ==> pairs[a].0 != pairs[b].0
    requires i < |pairs|
    ensures LastValue(pairs, pairs[i].0) == Some(pairs[i].1)
  {
    if i < |pairs| - 1 {
      var init := pairs[..|pairs| - 1];
      assert forall a, b :: 0 <= a < b < |init| ==> init[a].0 != init[b].0 by {
        forall a, b | 0 <= a < b < |init| ensures init[a].0 != init[b].0 {
          assert init[a] == pairs[a] && init[b] == pairs[b];
        }
      }
      LastOfDistinct(init, i);
      assert init[i] == pairs[i];
    }
  }

  /** The process environment, which `load_shell_env` updates variable by variable. */
  class ProcessEnvironment {
    var vars: map<string, string>
    /** The warnings logged so far. */
    var log: seq<Warning>

    constructor (initial: map<string, string>)
      ensures vars == initial && log == []
    {
      vars, log := initial, [];
    }

    /** Imports the shell's environment. Without a shell or when it cannot be run,
        nothing changes; otherwise every assignment of its output is applied in order
        and a warning is logged for each one that replaces a different value. */
    method LoadShellEnv(run: ShellRun)
      modifies this
      ensures run.NoShell? || run.SpawnFailed? ==> vars == old(vars) && log == old(log)
      ensures run.Finished? ==>
        var pairs := EnvPairs(OutputText(run.stdout));
        vars == Applied(old(vars), pairs) && log == old(log) + Overwrites(old(vars), pairs)
    {
      if run.NoShell? || run.SpawnFailed? {
        return;
      }
      var pairs := EnvPairs(OutputText(run.stdout));
      for i := 0 to |pairs|
        invariant vars == Applied(old(vars), pairs[..i])
        invariant log == old(log) + Overwrites(old(vars), pairs[..i])
      {
        var (key, value) := pairs[i];
        assert pairs[..i + 1][..i] == pairs[..i];
        if key in vars && vars[key] != value {
          log := log + [Overwriting(key, vars[key], value)];
        }
        vars := vars[key := value];
      }
      assert pairs[..|pairs|] == pairs;
    }
  }
}
