/**
 * The PMARS fitness evaluator: the command line it caches for the external
 * simulator, the guard of `evaluate`, and the parser that pulls the score of
 * every warrior out of the simulator's report.
 */
module PmarsEvaluation {
  import opened Wrappers
  import opened Text
  import opened FilterMaps

  /** A value stored in the parameter dictionary. */
  datatype Value = VStr(s: string) | VInt(i: int) | VBool(b: bool)

  /** The parameter dictionary handed to the evaluator. */
  type Params = map<string, Value>

  /** The condition `evaluate` raises as EvaluationException. */
  datatype EvaluationError = NotEnoughWarriors

  const DefaultAsmOutput: Value := VBool(false)
  const DefaultCoreSize: Value := VInt(8000)
  const DefaultPmarsPath: Value := VStr("bin/pmars")
  const DefaultRounds: Value := VInt(50)
  const DefaultVerbosity: Value := VBool(false)

  /** The word that precedes each score in the simulator's report. */
  const ScoresWord: string := "scores"

  /** How far past the start of `ScoresWord` the number begins (the word and one space). */
  const ScoreOffset: nat := |ScoresWord| + 1

  /** Python's `params.get(key, default)`. */
  function Get(params: Params, key: string, default: Value): (v: Value)
    ensures key in params ==> v == params[key]
    ensures key !in params ==> v == default
  {
    if key in params then params[key] else default
  }

  /** Python's truth value of a parameter. */
  predicate Truthy(v: Value)
  {
    match v
    case VStr(s) => s != []
    case VInt(i) => i != 0
    case VBool(b) => b
  }

  /** Python's `str(v)` of a parameter. */
  function Show(v: Value): string
  {
    match v
    case VStr(s) => s
    case VInt(i) => IntToString(i)
    case VBool(b) => if b then "True" else "False"
  }

  function PathOf(params: Params): Value { Get(params, "pmars.path", DefaultPmarsPath) }
  function AsmOf(params: Params): Value { Get(params, "pmars.asm", DefaultAsmOutput) }
  function CoreSizeOf(params: Params): Value { Get(params, "pmars.core_size", DefaultCoreSize) }
  function RoundsOf(params: Params): Value { Get(params, "pmars.rounds", DefaultRounds) }
  function VerboseOf(params: Params): Value { Get(params, "pmars.verbose", DefaultVerbosity) }

  /** The fixed part of the command: executable, rounds and core size. */
  function BaseCommand(params: Params): seq<string>
  {
    [Show(PathOf(params)), "-r", Show(RoundsOf(params)), "-s", Show(CoreSizeOf(params))]
  }

  /** The optional switches: "-b" (brief, no assembly listing), then "-V" (verbose). */
  function Switches(asm: bool, verbose: bool): seq<string>
  {
    (if asm then [] else ["-b"]) + (if verbose then ["-V"] else [])
  }

  /** The command line `build_command` caches for these parameters. */
  function Command(params: Params): seq<string>
  {
    BaseCommand(params) + Switches(Truthy(AsmOf(params)), Truthy(VerboseOf(params)))
  }

  /**
   * The score one report line carries: the integer that starts `ScoreOffset`
   * characters after the first "scores", or nothing when the line has no
   * "scores" or what follows is not an integer.
   */
  function ParseLine(line: string): (r: Option<int>)
    ensures !Contains(line, ScoresWord) ==> r == None
  {
    match IndexOf(line, ScoresWord)
    case None => None
    case Some(i) => ParseInt(SliceFrom(line, i + ScoreOffset))
  }

  /** The scores of a whole report, in line order, skipping lines without one. */
  function Scores(lines: seq<string>): (r: seq<int>)
    ensures |r| <= |lines|
  {
    FilterMap(ParseLine, lines)
  }

  class PmarsFitnessEvaluator {
    /** The cached command line; empty until it is first built. */
    var cmd: seq<string>

    constructor ()
      ensures cmd == []
    {
      cmd := [];
    }

    method BuildCommand(params: Params)
      modifies this
      ensures cmd == Command(params)
    {
      var exe := Get(params, "pmars.path", DefaultPmarsPath);
      var asm := Get(params, "pmars.asm", DefaultAsmOutput);
      var coreSize := Get(params, "pmars.core_size", DefaultCoreSize);
      var rounds := Get(params, "pmars.rounds", DefaultRounds);
      var verbose := Get(params, "pmars.verbose", DefaultVerbosity);

      cmd := [Show(exe), "-r", Show(rounds), "-s", Show(coreSize)];
      if !Truthy(asm) {
        cmd := cmd + ["-b"];
      }
      if Truthy(verbose) {
        cmd := cmd + ["-V"];
      }
    }

    /**
     * Scores the warriors. `run` stands for the simulator process: it maps the
     * command line to the lines of the report it prints.
     */
    method Evaluate<W>(warriors: seq<W>, params: Params, run: seq<string> -> seq<string>)
      returns (r: Result<seq<int>, EvaluationError>)
      modifies this
      ensures |warriors| <= 1 ==> r == Failure(NotEnoughWarriors) && cmd == old(cmd)
      ensures |warriors| > 1 ==> cmd == (if old(cmd) == [] then Command(params) else old(cmd))
      ensures |warriors| > 1 ==> r == Success(Scores(run(cmd)))
    {
      if |warriors| <= 1 {
        return Failure(NotEnoughWarriors);
      }
      if cmd == [] {
        BuildCommand(params);
      }
      // The warrior files add no arguments: writing them is not implemented.
      var fullCmd := cmd;
      var scores := ParseOutput(run(fullCmd));
      r := Success(scores);
    }

    method ParseOutput(stream: seq<string>) returns (scores: seq<int>)
      ensures scores == Scores(stream)
    {
      scores := [];
      for k := 0 to |stream|
        invariant scores == Scores(stream[..k])
      {
        match ParseLine(stream[k]) {
          case Some(v) => scores := scores + [v];
          case None =>
        }
        FilterMapSnoc(ParseLine, stream, k);
      }
      assert stream[..|stream|] == stream;
    }
  }

  // ---------------------------------------------------------------------
  // The command line

  /** The first five arguments are always the executable, rounds and core size. */
  lemma CommandShape(params: Params)
    ensures |Command(params)| == 5 + (if Truthy(AsmOf(params)) then 0 else 1)
                                    + (if Truthy(VerboseOf(params)) then 1 else 0)
    ensures Command(params)[..5] ==
            [Show(PathOf(params)), "-r", Show(RoundsOf(params)), "-s", Show(CoreSizeOf(params))]
  {
  }

  /** "-b" follows the fixed part iff assembly output is off, "-V" iff verbose is on, and "-b" comes first. */
  lemma CommandSwitches(params: Params)
    ensures "-b" in Command(params)[5..] <==> !Truthy(AsmOf(params))
    ensures "-V" in Command(params)[5..] <==> Truthy(VerboseOf(params))
    ensures !Truthy(AsmOf(params)) ==> Command(params)[5] == "-b"
    ensures Truthy(VerboseOf(params)) ==> Command(params)[|Command(params)| - 1] == "-V"
  {
    var c := Command(params);
    assert c[5..] == Switches(Truthy(AsmOf(params)), Truthy(VerboseOf(params)));
  }

  /** A built command is never empty, so `evaluate` builds it at most once. */
  lemma CommandNonEmpty(params: Params)
    ensures Command(params) != []
  {
  }

  lemma DefaultCommand()
    ensures Command(map[]) == ["bin/pmars", "-r", "50", "-s", "8000", "-b"]
  {
    assert IntToString(50) == "50";
    assert IntToString(8000) == "8000";
  }

  lemma CustomCommand()
    ensures Command(map["pmars.asm" := VBool(true), "pmars.core_size" := VInt(9000),
                        "pmars.path" := VStr("/usr/bin/pmars"), "pmars.rounds" := VInt(30),
                        "pmars.verbose" := VBool(true)])
            == ["/usr/bin/pmars", "-r", "30", "-s", "9000", "-V"]
  {
    assert IntToString(30) == "30";
    assert IntToString(9000) == "9000";
  }

  /** Every argument after the executable reads back as what was configured: `int(str(n)) == n`. */
  lemma CommandNumbersRoundTrip(params: Params, rounds: int, coreSize: int)
    requires RoundsOf(params) == VInt(rounds) && CoreSizeOf(params) == VInt(coreSize)
    ensures ParseInt(Command(params)[2]) == Some(rounds)
    ensures ParseInt(Command(params)[4]) == Some(coreSize)
  {
    var c := Command(params);
    assert c[..5] == BaseCommand(params);
    assert c[2] == IntToString(rounds) && c[4] == IntToString(coreSize);
    ParseIntOfIntToString(rounds);
    ParseIntOfIntToString(coreSize);
  }

  // ---------------------------------------------------------------------
  // The report parser

  /**
   * On a line whose first "scores" follows `name`, the score is whatever
   * `int` makes of the text one character past the word.
   */
  lemma {:induction false} ParseLineAfterName(name: string, rest: string)
    requires !Contains(name + "score", ScoresWord)
    ensures ParseLine(name + ScoresWord + rest) == ParseInt(SliceFrom(rest, 1))
  {
    var line := name + ScoresWord + rest;
    var head := name + "score";
    assert line[..|name| + 5] == head;
    assert OccursAt(line, ScoresWord, |name|) by {
      assert line[|name|..|name| + 6] == ScoresWord;
    }
    forall j: nat | j < |name| ensures !OccursAt(line, ScoresWord, j) {
      if OccursAt(line, ScoresWord, j) {
        assert line[j..j + 6] == head[j..j + 6];
        assert OccursAt(head, ScoresWord, j);
      }
    }
    assert Contains(line, ScoresWord);
    assert IndexOf(line, ScoresWord) == Some(|name|);
    if 1 <= |rest| {
      assert line[|name| + ScoreOffset..] == rest[1..];
    }
  }

  /** On a line `<name> scores <tail>`, the score is whatever `int` makes of `tail`. */
  lemma ParseLineTail(name: string, tail: string)
    requires !Contains(name + "score", ScoresWord)
    ensures ParseLine(name + "scores " + tail) == ParseInt(tail)
  {
    var rest := " " + tail;
    assert name + "scores " + tail == name + ScoresWord + rest;
    ParseLineAfterName(name, rest);
    assert SliceFrom(rest, 1) == tail;
  }

  /** A line as PMARS prints it, `<name> scores <n>`, yields `n`; trailing whitespace is ignored. */
  lemma ParseScoreLine(name: string, n: int, trail: string)
    requires !Contains(name + "score", ScoresWord)
    requires forall i :: 0 <= i < |trail| ==> IsSpace(trail[i])
    ensures ParseLine(name + "scores " + IntToString(n) + trail) == Some(n)
  {
    var tail := IntToString(n) + trail;
    assert name + "scores " + IntToString(n) + trail == name + "scores " + tail;
    ParseLineTail(name, tail);
    ParseIntOfIntToStringWithTrail(n, trail);
  }

  /** A line that ends at the word, or one space after it, yields nothing. */
  lemma ParseLineEmptyTail(name: string)
    requires !Contains(name + "score", ScoresWord)
    ensures ParseLine(name + "scores") == None
    ensures ParseLine(name + "scores ") == None
  {
    assert name + "scores" == name + ScoresWord + "";
    ParseLineAfterName(name, "");
    assert name + "scores " == name + "scores " + "";
    ParseLineTail(name, "");
  }

  /** The report of two runs back to back scores as the two reports one after the other. */
  lemma ScoresAppend(a: seq<string>, b: seq<string>)
    ensures Scores(a + b) == Scores(a) + Scores(b)
  {
    FilterMapAppend(ParseLine, a, b);
  }

  /** A line contributes its own score, if it has one, exactly at its place in the report. */
  lemma ScoresSplit(lines: seq<string>, i: nat)
    requires i < |lines|
    ensures ParseLine(lines[i]).Some? ==>
              Scores(lines) == Scores(lines[..i]) + [ParseLine(lines[i]).value] + Scores(lines[i + 1..])
    ensures ParseLine(lines[i]).None? ==>
              Scores(lines) == Scores(lines[..i]) + Scores(lines[i + 1..])
  {
    FilterMapSplit(ParseLine, lines, i);
    if ParseLine(lines[i]).None? {
      assert Scores(lines[..i]) + [] == Scores(lines[..i]);
    }
  }

  /** A value is among the scores iff some line yields it. */
  lemma ScoresMembership(lines: seq<string>, v: int)
    ensures v in Scores(lines) <==> exists i :: 0 <= i < |lines| && ParseLine(lines[i]) == Some(v)
  {
    FilterMapMembership(ParseLine, lines, v);
  }

  /** No line is lost: one score per line iff every line carries one, none iff none does. */
  lemma ScoresCount(lines: seq<string>)
    ensures Scores(lines) == [] <==> forall i :: 0 <= i < |lines| ==> ParseLine(lines[i]).None?
    ensures |Scores(lines)| == |lines| <==> forall i :: 0 <= i < |lines| ==> ParseLine(lines[i]).Some?
  {
    FilterMapLength(ParseLine, lines);
  }

  /**
   * The body of a PMARS report: for every warrior a line that `parse` reads
   * as its score, followed by a line that it reads as nothing.
   */
  ghost predicate IsPaired(parse: string -> Option<int>, pairs: seq<string>, values: seq<int>)
  {
    && |pairs| == 2 * |values|
    && (forall i :: 0 <= i < |values| ==> parse(pairs[2 * i]) == Some(values[i]))
    && (forall i :: 0 <= i < |values| ==> parse(pairs[2 * i + 1]) == None)
  }

  lemma {:induction false} PairedPrefix(parse: string -> Option<int>, pairs: seq<string>, values: seq<int>, k: nat)
    requires IsPaired(parse, pairs, values) && k <= |values|
    ensures FilterMap(parse, pairs[..2 * k]) == values[..k]
  {
    if k == 0 {
      assert pairs[..0] == [];
    } else {
      var j := 2 * (k - 1);
      TakeSnoc(values, k);
      assert parse(pairs[j]) == Some(values[k - 1]);
      assert parse(pairs[j + 1]) == None;
      PairedPrefix(parse, pairs, values, k - 1);
      FilterMapSnoc(parse, pairs, j);
      FilterMapSnoc(parse, pairs, j + 1);
      var upToScore := FilterMap(parse, pairs[..j + 1]);
      assert upToScore == values[..k - 1] + [values[k - 1]];
      assert upToScore + [] == upToScore;
    }
  }

  /** Score and results lines in pairs yield exactly the warriors' scores, in order. */
  lemma PairedReportScores(pairs: seq<string>, values: seq<int>)
    requires IsPaired(ParseLine, pairs, values)
    ensures Scores(pairs) == values
  {
    PairedPrefix(ParseLine, pairs, values, |values|);
    assert pairs[..|pairs|] == pairs;
    assert values[..|values|] == values;
  }

  /**
   * A report of score and results lines in pairs, with any lines before and
   * after them that carry no score, yields exactly the warriors' scores, in order.
   */
  lemma FramedReportScores(pre: seq<string>, pairs: seq<string>, post: seq<string>, values: seq<int>)
    requires forall i :: 0 <= i < |pre| ==> ParseLine(pre[i]).None?
    requires forall i :: 0 <= i < |post| ==> ParseLine(post[i]).None?
    requires IsPaired(ParseLine, pairs, values)
    ensures Scores(pre + pairs + post) == values
  {
    PairedReportScores(pairs, values);
    ScoresCount(pre);
    ScoresCount(post);
    ScoresAppend(pre, pairs);
    ScoresAppend(pre + pairs, post);
  }

  /** The report of six warriors from the test suite, split into lines. */
  const ExampleResults: seq<string> := [
    "",
    "    Iron Gate scores 22",
    "    Results: 0 0 2 0 0 0 8",
    "    Paperone scores 48",
    "    Results: 0 0 3 1 1 0 5",
    "    Tornado scores 7",
    "    Results: 0 0 0 0 1 0 9",
    "    Thermite 1.0 scores 26",
    "    Results: 0 0 1 1 1 0 7",
    "    TimeScape (1.0) scores 98",
    "    Results: 0 1 6 1 1 0 1",
    "    Marcia Trionfale 1.3 scores 133",
    "    Results: 1 1 6 1 1 0 0",
    "    "
  ]

  /**
   * A name that lacks one of the first five letters of "scores" cannot
   * complete the word with the "score" that follows it.
   */
  lemma ScoresWordAbsent(name: string, k: nat)
    requires k < 5 && ScoresWord[k] !in name
    ensures !Contains(name + "score", ScoresWord)
  {
  }

  /** A line that lacks one of the letters of "scores" yields no score. */
  lemma LineWithoutScores(line: string, k: nat)
    requires k < 6 && ScoresWord[k] !in line
    ensures ParseLine(line) == None
  {
  }

  /** One score line of the sample: `<name> scores <n>`, where `name` lacks the `k`-th letter of the word. */
  lemma ExampleScoreLine(line: string, name: string, n: int, digits: string, k: nat)
    requires k < 5 && ScoresWord[k] !in name
    requires digits == IntToString(n) && line == name + "scores " + digits
    ensures ParseLine(line) == Some(n)
  {
    ScoresWordAbsent(name, k);
    assert line == name + "scores " + IntToString(n) + "";
    ParseScoreLine(name, n, "");
  }

  // Each line of the sample is read in a lemma of its own: the solver
  // evaluates a literal line only when no other literal line is in view.

  lemma ExampleBlankLines()
    ensures ParseLine(ExampleResults[0]) == None && ParseLine(ExampleResults[13]) == None
  {
    LineWithoutScores(ExampleResults[0], 0);
    LineWithoutScores(ExampleResults[13], 0);
  }

  lemma ExampleLine1()
    ensures ParseLine(ExampleResults[1]) == Some(22)
  {
    ExampleScoreLine(ExampleResults[1], "    Iron Gate ", 22, "22", 1);
  }

  lemma ExampleLine2()
    ensures ParseLine(ExampleResults[2]) == None
  {
    LineWithoutScores(ExampleResults[2], 1);
  }

  lemma ExampleLine3()
    ensures ParseLine(ExampleResults[3]) == Some(48)
  {
    ExampleScoreLine(ExampleResults[3], "    Paperone ", 48, "48", 1);
  }

  lemma ExampleLine4()
    ensures ParseLine(ExampleResults[4]) == None
  {
    LineWithoutScores(ExampleResults[4], 1);
  }

  lemma ExampleLine5()
    ensures ParseLine(ExampleResults[5]) == Some(7)
  {
    ExampleScoreLine(ExampleResults[5], "    Tornado ", 7, "7", 1);
  }

  lemma ExampleLine6()
    ensures ParseLine(ExampleResults[6]) == None
  {
    LineWithoutScores(ExampleResults[6], 1);
  }

  lemma ExampleLine7()
    ensures ParseLine(ExampleResults[7]) == Some(26)
  {
    ExampleScoreLine(ExampleResults[7], "    Thermite 1.0 ", 26, "26", 1);
  }

  lemma ExampleLine8()
    ensures ParseLine(ExampleResults[8]) == None
  {
    LineWithoutScores(ExampleResults[8], 1);
  }

  lemma ExampleLine9()
    ensures ParseLine(ExampleResults[9]) == Some(98)
  {
    ExampleScoreLine(ExampleResults[9], "    TimeScape (1.0) ", 98, "98", 2);
  }

  lemma ExampleLine10()
    ensures ParseLine(ExampleResults[10]) == None
  {
    LineWithoutScores(ExampleResults[10], 1);
  }

  lemma ExampleDigits133()
    ensures IntToString(133) == "133"
  {
    assert NatToString(13) == "13";
  }

  lemma ExampleLine11()
    ensures ParseLine(ExampleResults[11]) == Some(133)
  {
    ExampleDigits133();
    ExampleScoreLine(ExampleResults[11], "    Marcia Trionfale 1.3 ", 133, "133", 0);
  }

  lemma ExampleLine12()
    ensures ParseLine(ExampleResults[12]) == None
  {
    LineWithoutScores(ExampleResults[12], 1);
  }

  /** Twelve lines that parse to the sample's pattern: the six warriors' score and results lines. */
  lemma SamplePairs(parse: string -> Option<int>, lines: seq<string>)
    requires |lines| == 14
    requires parse(lines[1]) == Some(22) && parse(lines[2]) == None
    requires parse(lines[3]) == Some(48) && parse(lines[4]) == None
    requires parse(lines[5]) == Some(7) && parse(lines[6]) == None
    requires parse(lines[7]) == Some(26) && parse(lines[8]) == None
    requires parse(lines[9]) == Some(98) && parse(lines[10]) == None
    requires parse(lines[11]) == Some(133) && parse(lines[12]) == None
    ensures IsPaired(parse, lines[1..13], [22, 48, 7, 26, 98, 133])
  {
    var values := [22, 48, 7, 26, 98, 133];
    var pairs := lines[1..13];
    forall i | 0 <= i < |values| ensures parse(pairs[2 * i]) == Some(values[i]) {
      assert i == 0 || i == 1 || i == 2 || i == 3 || i == 4 || i == 5;
    }
    forall i | 0 <= i < |values| ensures parse(pairs[2 * i + 1]) == None {
      assert i == 0 || i == 1 || i == 2 || i == 3 || i == 4 || i == 5;
    }
  }

  /** A report whose first and last lines carry no score, with score and results pairs between them. */
  lemma FramedByOneLine(lines: seq<string>, values: seq<int>)
    requires 2 <= |lines| && ParseLine(lines[0]) == None && ParseLine(lines[|lines| - 1]) == None
    requires IsPaired(ParseLine, lines[1..|lines| - 1], values)
    ensures Scores(lines) == values
  {
    var pairs := lines[1..|lines| - 1];
    assert lines == [lines[0]] + pairs + [lines[|lines| - 1]];
    FramedReportScores([lines[0]], pairs, [lines[|lines| - 1]], values);
  }

  /** The sample yields exactly the six warriors' scores; the "Results:" lines add nothing. */
  lemma ExampleScores()
    ensures Scores(ExampleResults) == [22, 48, 7, 26, 98, 133]
  {
    ExampleBlankLines();
    ExampleLine1();
    ExampleLine2();
    ExampleLine3();
    ExampleLine4();
    ExampleLine5();
    ExampleLine6();
    ExampleLine7();
    ExampleLine8();
    ExampleLine9();
    ExampleLine10();
    ExampleLine11();
    ExampleLine12();
    SamplePairs(ParseLine, ExampleResults);
    FramedByOneLine(ExampleResults, [22, 48, 7, 26, 98, 133]);
  }
}
