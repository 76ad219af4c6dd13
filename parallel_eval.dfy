/**
  The launch plan of parallel_eval.py: the trial seeds `0 .. trial_num - 1`
  are dealt round-robin to `parallel_env_num` evaluation processes, and a
  shell script is assembled that activates the conda environment, starts
  every process in the background with its own temporary config, waits for
  all of them and then runs the statistics script.

  Writing the seed files, the config files and the script, and running it,
  are not modelled; the seed lists and the script text are.
*/
module ParallelEval {
  import opened Strings

  // ---------------------------------------------------------------------------
  // The round-robin seed split
  // ---------------------------------------------------------------------------

  /** The seeds `s, s + n, s + 2n, ...` below `t`: Python's `range(t)[s::n]` for `0 <= s`. */
  function SeedsFrom(s: int, t: int, n: nat): seq<int>
    requires n >= 1
    decreases t - s
  {
    if s >= t then [] else [s] + SeedsFrom(s + n, t, n)
  }

  /** `list(range(trial_num)[i::parallel_env_num])`: the seeds of process `i`. */
  function SeedList(trialNum: int, n: nat, i: nat): seq<int>
    requires n >= 1
  {
    SeedsFrom(i, trialNum, n)
  }

  /** Consecutive seeds of a list are `n` apart, starting at `s`. */
  lemma {:induction false} SeedsFromSteps(s: int, t: int, n: nat)
    requires n >= 1
    ensures var r := SeedsFrom(s, t, n);
      && (|r| > 0 <==> s < t)
      && (|r| > 0 ==> r[0] == s)
      && (forall k :: 0 <= k < |r| - 1 ==> r[k + 1] == r[k] + n)
    decreases t - s
  {
    if s < t {
      SeedsFromSteps(s + n, t, n);
    }
  }

  /** A positive multiple of `n` is at least `n`. */
  lemma {:induction false} MulAtLeast(k: int, n: nat)
    requires k >= 1 && n >= 1
    ensures k * n >= n
    decreases k
  {
    if k > 1 {
      MulAtLeast(k - 1, n);
      assert k * n == (k - 1) * n + n;
    }
  }

  /** Euclidean division has one remainder: `q * n + r` with `0 <= r < n` leaves `r`. */
  lemma ModUnique(y: int, n: nat, q: int, r: int)
    requires n >= 1 && 0 <= r < n && y == q * n + r
    ensures y % n == r
  {
    var q0 := y / n;
    var k := q - q0;
    assert k * n == y % n - r by {
      assert y == q0 * n + y % n;
      assert k * n == q * n - q0 * n;
    }
    assert k == 0 by {
      if k >= 1 {
        MulAtLeast(k, n);
      } else if k <= -1 {
        MulAtLeast(-k, n);
      }
    }
  }

  /** Going `n` up does not change the remainder modulo `n`. */
  lemma ModStep(y: int, n: nat)
    requires n >= 1
    ensures (y + n) % n == y % n
  {
    var q := y / n;
    assert y == q * n + y % n;
    assert y + n == (q + 1) * n + y % n;
    ModUnique(y + n, n, q + 1, y % n);
  }

  /** A strided list holds exactly the numbers in `[s, t)` that are a multiple of `n` above `s`. */
  lemma {:induction false} SeedsFromMembership(s: int, t: int, n: nat, x: int)
    requires n >= 1
    ensures x in SeedsFrom(s, t, n) <==> s <= x < t && (x - s) % n == 0
    decreases t - s
  {
    if s < t {
      SeedsFromMembership(s + n, t, n, x);
      ModStep(x - s - n, n);
      if x == s {
        ModUnique(0, n, 0, 0);
      } else if s < x < s + n {
        ModUnique(x - s, n, 0, x - s);
      }
    }
  }

  /** Process `i` receives exactly the seeds in `[0, trial_num)` congruent to `i` modulo `n`. */
  lemma SeedListMembership(trialNum: int, n: nat, i: nat, x: int)
    requires i < n
    ensures x in SeedList(trialNum, n, i) <==> 0 <= x < trialNum && x % n == i
  {
    SeedsFromMembership(i, trialNum, n, x);
    if 0 <= x && x % n == i {
      var q := x / n;
      assert x == q * n + i;
      assert q >= 0 by {
        if q <= -1 {
          MulAtLeast(-q, n);
        }
      }
      if q >= 1 {
        MulAtLeast(q, n);
      }
      ModUnique(x - i, n, q, 0);
    }
    if i <= x && (x - i) % n == 0 {
      var q := (x - i) / n;
      assert x - i == q * n + 0;
      ModUnique(x, n, q, i);
    }
  }

  /** Strictly increasing, hence without repetitions. */
  predicate Ascending(r: seq<int>) {
    forall a, b :: 0 <= a < b < |r| ==> r[a] < r[b]
  }

  /** Each list is strictly ascending, so it holds no seed twice. */
  lemma {:induction false} SeedsFromAscending(s: int, t: int, n: nat)
    requires n >= 1
    ensures Ascending(SeedsFrom(s, t, n))
    decreases t - s
  {
    if s < t {
      SeedsFromAscending(s + n, t, n);
      var tail := SeedsFrom(s + n, t, n);
      var r := SeedsFrom(s, t, n);
      forall k | 0 <= k < |tail|
        ensures tail[k] > s
      {
        SeedsFromMembership(s + n, t, n, tail[k]);
      }
      assert r == [s] + tail;
      forall a, b | 0 <= a < b < |r|
        ensures r[a] < r[b]
      {
        assert r[b] == tail[b - 1];
        if a > 0 {
          assert r[a] == tail[a - 1];
          assert tail[a - 1] < tail[b - 1];
        } else {
          assert r[a] == s;
        }
      }
    }
  }

  /**
    The lists cover every seed exactly once: each seed in `[0, trial_num)`
    is in the list of process `seed % n` and in no other.
  */
  lemma SeedListsPartition(trialNum: int, n: nat, x: int)
    requires n >= 1 && 0 <= x < trialNum
    ensures x in SeedList(trialNum, n, x % n)
    ensures forall j :: 0 <= j < n && j != x % n ==> x !in SeedList(trialNum, n, j)
  {
    SeedListMembership(trialNum, n, x % n, x);
    forall j | 0 <= j < n && j != x % n
      ensures x !in SeedList(trialNum, n, j)
    {
      SeedListMembership(trialNum, n, j, x);
    }
  }

  /** Two strided lists whose starts are at most `n` apart differ in length by at most one. */
  lemma {:induction false} SeedsFromBalanced(s1: int, s2: int, t: int, n: nat)
    requires n >= 1 && s1 <= s2 <= s1 + n
    ensures |SeedsFrom(s2, t, n)| <= |SeedsFrom(s1, t, n)| <= |SeedsFrom(s2, t, n)| + 1
    decreases t - s1
  {
    if s1 < t {
      if s2 < t {
        SeedsFromBalanced(s1 + n, s2 + n, t, n);
      } else {
        assert SeedsFrom(s1 + n, t, n) == [];
      }
    }
  }

  /** No process gets more than one seed more than any other; lower-numbered processes get the extra seeds. */
  lemma SeedListsBalanced(trialNum: int, n: nat, i: nat, j: nat)
    requires i <= j < n
    ensures |SeedList(trialNum, n, j)| <= |SeedList(trialNum, n, i)| <= |SeedList(trialNum, n, j)| + 1
  {
    SeedsFromBalanced(i, j, trialNum, n);
  }

  // ---------------------------------------------------------------------------
  // The launch script
  // ---------------------------------------------------------------------------

  /** The script lines, each written with a trailing space and then a line break. */
  const CondaHook := "eval " + "\"$(conda shell.bash hook)\" "
  const CondaActivate := "conda activate playground "
  const WaitLine := "wait $(jobs -p) "

  const LaunchProgram := "python " + "evaluate_libero_tasks.py" + " --config-path="
  const ConfigNameFlag := " --config-name=temp_config_"
  const StatisticsProgram := "python " + "misc/get_statistics.py" + " name="

  /** The launch command of process `i` up to its config number. */
  function LaunchPrefix(configDir: string): string {
    LaunchProgram + configDir + ConfigNameFlag
  }

  /** Process `i` runs the evaluation with `temp_config_i` in the background. */
  function LaunchLine(configDir: string, i: nat): string {
    LaunchPrefix(configDir) + NatToString(i) + " & "
  }

  function StatisticsLine(expName: string): string {
    StatisticsProgram + expName + " "
  }

  function LaunchLines(configDir: string, count: nat): (r: seq<string>)
    ensures |r| == count
    ensures forall i :: 0 <= i < count ==> r[i] == LaunchLine(configDir, i)
  {
    seq(count, i requires 0 <= i < count => LaunchLine(configDir, i))
  }

  /** The lines of the script: two conda lines, one launch line per process in order, the wait and the statistics. */
  function ScriptLines(expName: string, configDir: string, n: nat): seq<string> {
    [CondaHook, CondaActivate] + LaunchLines(configDir, n) + [WaitLine, StatisticsLine(expName)]
  }

  /** Lines written one after the other, each followed by a line break. */
  function Unlines(lines: seq<string>): string
    decreases |lines|
  {
    if lines == [] then [] else Unlines(lines[..|lines| - 1]) + lines[|lines| - 1] + "\n"
  }

  /** Writing one more line appends it and a line break. */
  lemma UnlinesSnoc(lines: seq<string>, line: string)
    ensures Unlines(lines + [line]) == Unlines(lines) + line + "\n"
  {
    assert (lines + [line])[..|lines|] == lines;
  }

  /** Two lines written one after the other. */
  lemma UnlinesTwo(a: string, b: string)
    ensures Unlines([a, b]) == a + "\n" + b + "\n"
  {
    assert [a, b][..1] == [a];
    assert [a][..0] == [];
    assert Unlines([a]) == [] + a + "\n";
  }

  /** Adding the launch line of process `i` after the first `i` writes one more line. */
  lemma LaunchLinesSnoc(header: seq<string>, configDir: string, i: nat)
    ensures Unlines(header + LaunchLines(configDir, i + 1))
      == Unlines(header + LaunchLines(configDir, i)) + (LaunchLine(configDir, i) + "\n")
  {
    assert header + LaunchLines(configDir, i + 1) == header + LaunchLines(configDir, i) + [LaunchLine(configDir, i)];
    UnlinesSnoc(header + LaunchLines(configDir, i), LaunchLine(configDir, i));
  }

  /** Writing two more lines appends each with its line break. */
  lemma UnlinesTail(lines: seq<string>, a: string, b: string)
    ensures Unlines(lines + [a, b]) == Unlines(lines) + a + "\n" + b + "\n"
  {
    UnlinesSnoc(lines, a);
    UnlinesSnoc(lines + [a], b);
    assert lines + [a] + [b] == lines + [a, b];
  }

  /** The launch command, built as in the source from its text and `'& \n'`, is the launch line and a line break. */
  lemma LaunchCommandText(configDir: string, i: nat)
    ensures LaunchPrefix(configDir) + NatToString(i) + " " + "& \n" == LaunchLine(configDir, i) + "\n"
  {
    var head := LaunchPrefix(configDir) + NatToString(i);
    assert " " + "& \n" == " & " + "\n";
    assert head + " " + "& \n" == head + (" " + "& \n");
    assert head + " & " + "\n" == head + (" & " + "\n");
  }

  /** The seed list of process `i`, after those of the processes before it. */
  method AppendSeedList(seedLists: seq<seq<int>>, trialNum: int, n: nat, i: nat) returns (r: seq<seq<int>>)
    requires i < n && |seedLists| == i
    requires forall k :: 0 <= k < i ==> seedLists[k] == SeedList(trialNum, n, k)
    ensures |r| == i + 1
    ensures forall k :: 0 <= k < i + 1 ==> r[k] == SeedList(trialNum, n, k)
  {
    var seedList := SeedList(trialNum, n, i);
    r := seedLists + [seedList];
  }

  /** `commands += cmd` for process `i`: the launch line and a line break are appended. */
  method AppendLaunchCommand(commands: string, configDir: string, i: nat) returns (r: string)
    ensures r == commands + (LaunchLine(configDir, i) + "\n")
  {
    var cmd := LaunchPrefix(configDir) + NatToString(i) + " ";
    cmd := cmd + "& \n";
    LaunchCommandText(configDir, i);
    r := commands + cmd;
  }

  /**
    The seed split and the `commands` assembly of `main`: one seed list per
    process, and the script text built by appending line after line.
  */
  method PlanParallelRun(expName: string, configDir: string, trialNum: int, n: nat)
    returns (seedLists: seq<seq<int>>, commands: string)
    ensures |seedLists| == n
    ensures forall i :: 0 <= i < n ==> seedLists[i] == SeedList(trialNum, n, i)
    ensures commands == Unlines(ScriptLines(expName, configDir, n))
  {
    ghost var header := [CondaHook, CondaActivate];
    commands := CondaHook + "\n";
    commands := commands + CondaActivate + "\n";
    UnlinesTwo(CondaHook, CondaActivate);
    seedLists := [];
    for i := 0 to n
      invariant |seedLists| == i
      invariant forall k :: 0 <= k < i ==> seedLists[k] == SeedList(trialNum, n, k)
      invariant commands == Unlines(header + LaunchLines(configDir, i))
    {
      seedLists := AppendSeedList(seedLists, trialNum, n, i);
      LaunchLinesSnoc(header, configDir, i);
      commands := AppendLaunchCommand(commands, configDir, i);
    }
    var statistics := StatisticsLine(expName);
    UnlinesTail(header + LaunchLines(configDir, n), WaitLine, statistics);
    commands := commands + WaitLine + "\n";
    commands := commands + statistics + "\n";
  }

  /** Written lines are the lines joined by line breaks, plus a final line break. */
  lemma {:induction false} UnlinesAsJoin(lines: seq<string>)
    requires |lines| >= 1
    ensures Unlines(lines) == Join("\n", lines) + "\n"
    decreases |lines|
  {
    var init := lines[..|lines| - 1];
    if |lines| == 1 {
      assert init == [];
    } else {
      UnlinesAsJoin(init);
      JoinSnoc("\n", init, lines[|lines| - 1]);
      assert init + [lines[|lines| - 1]] == lines;
    }
  }

  /** Splitting written lines at the line breaks gives the lines back, and an empty rest after the last break. */
  lemma UnlinesSplit(lines: seq<string>)
    requires |lines| >= 1 && forall i :: 0 <= i < |lines| ==> '\n' !in lines[i]
    ensures Split(Unlines(lines), '\n') == lines + [""]
  {
    UnlinesAsJoin(lines);
    JoinSnoc("\n", lines, "");
    var all := lines + [""];
    var joined := Join("\n", lines);
    assert joined + "\n" + "" == joined + "\n";
    assert Join(['\n'], all) == Unlines(lines);
    forall i | 0 <= i < |all|
      ensures '\n' !in all[i]
    {
      if i < |lines| {
        assert all[i] == lines[i];
      }
    }
    SplitJoin(all, '\n');
  }

  lemma CondaHookIsSingleLine()
    ensures '\n' !in CondaHook
  {
    NotInConcat("eval ", "\"$(conda shell.bash hook)\" ", '\n');
  }

  lemma StatisticsProgramIsSingleLine()
    ensures '\n' !in StatisticsProgram
  {
    NotInConcat("python ", "misc/get_statistics.py", '\n');
    NotInConcat("python " + "misc/get_statistics.py", " name=", '\n');
  }

  lemma LaunchProgramIsSingleLine()
    ensures '\n' !in LaunchProgram
  {
    NotInConcat("python ", "evaluate_libero_tasks.py", '\n');
    NotInConcat("python " + "evaluate_libero_tasks.py", " --config-path=", '\n');
  }

  lemma ShortTextsAreSingleLines()
    ensures '\n' !in CondaActivate && '\n' !in WaitLine && '\n' !in ConfigNameFlag
  {
  }

  /** No line of the script is broken when the experiment name and the config directory are single lines. */
  lemma ScriptLinesAreSingleLines(expName: string, configDir: string, n: nat)
    requires '\n' !in expName && '\n' !in configDir
    ensures forall i :: 0 <= i < |ScriptLines(expName, configDir, n)| ==> '\n' !in ScriptLines(expName, configDir, n)[i]
  {
    var lines := ScriptLines(expName, configDir, n);
    CondaHookIsSingleLine();
    StatisticsProgramIsSingleLine();
    LaunchProgramIsSingleLine();
    ShortTextsAreSingleLines();
    NotInConcat(LaunchProgram, configDir, '\n');
    NotInConcat(LaunchProgram + configDir, ConfigNameFlag, '\n');
    NotInConcat(StatisticsProgram, expName, '\n');
    NotInConcat(StatisticsProgram + expName, " ", '\n');
    forall i | 0 <= i < n
      ensures '\n' !in LaunchLine(configDir, i)
    {
      NatToStringHasNo(i, '\n');
      NotInConcat(LaunchPrefix(configDir), NatToString(i), '\n');
      NotInConcat(LaunchPrefix(configDir) + NatToString(i), " & ", '\n');
    }
    forall i | 0 <= i < |lines|
      ensures '\n' !in lines[i]
    {
      if 2 <= i < n + 2 {
        assert lines[i] == LaunchLine(configDir, i - 2);
      }
    }
  }

  /**
    The script read line by line: the two conda lines, then the launch line
    of every process in increasing order, then the wait and the statistics
    line, then nothing after the last line break.
  */
  lemma CommandsScriptLines(expName: string, configDir: string, n: nat)
    requires '\n' !in expName && '\n' !in configDir
    ensures var lines := Split(Unlines(ScriptLines(expName, configDir, n)), '\n');
      && |lines| == n + 5
      && lines[0] == CondaHook && lines[1] == CondaActivate
      && (forall i :: 0 <= i < n ==> lines[2 + i] == LaunchLine(configDir, i))
      && lines[n + 2] == WaitLine
      && lines[n + 3] == StatisticsLine(expName)
      && lines[n + 4] == ""
  {
    ScriptLinesAreSingleLines(expName, configDir, n);
    UnlinesSplit(ScriptLines(expName, configDir, n));
  }

  /** Each launch line ends with its own process's config and the background marker. */
  lemma LaunchLineEnds(configDir: string, i: nat)
    ensures EndsWith(LaunchLine(configDir, i), NatToString(i) + " & ")
  {
    assert LaunchLine(configDir, i) == LaunchPrefix(configDir) + (NatToString(i) + " & ");
    EndsWithSpliced(LaunchPrefix(configDir), NatToString(i) + " & ");
  }

  /** Different processes are started with different configs. */
  lemma LaunchLinesDistinct(configDir: string, i: nat, j: nat)
    requires i != j
    ensures LaunchLine(configDir, i) != LaunchLine(configDir, j)
  {
    var p := LaunchPrefix(configDir);
    var a := NatToString(i);
    var b := NatToString(j);
    NatToStringInjective(i, j);
    if |a| == |b| {
      assert LaunchLine(configDir, i)[|p|..|p| + |a|] == a;
      assert LaunchLine(configDir, j)[|p|..|p| + |a|] == b;
    } else {
      assert |LaunchLine(configDir, i)| != |LaunchLine(configDir, j)|;
    }
  }
}
