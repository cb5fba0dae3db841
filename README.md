# evored-warrior: fitness evaluation, tree nodes and population statistics

evored-warrior evolves Redcode warriors for the Core War game. This project
models four parts of it:

- the PMARS fitness evaluator. It builds and caches the command line for the external
  PMARS simulator, refuses to evaluate fewer than two warriors, and reads back
  the scores that the lines of the simulator's report carry, in order;
- the node of the unstructured binary tree. This covers its child predicates and its
  shallow equality and hash, which look only at a node's own item and the
  items of its direct neighbours;
- `Fitnessable`, whose equality and order operators compare fitness scores;
- `FitnessStatistics`, which recomputes maximum, minimum, mean and sample
  variance over a population in one pass, and whose copy, equality and hash
  work on those four fields.

Files:

- `wrappers.dfy`: `Option` and `Result`.
- `text.dfy`: the parts of Python's string handling that the evaluator relies on:
  `str.index`, slicing, `str.strip`, `int(s)` and `str(n)`.
- `filter_map.dfy`: "keep the lines that yield a value", with its algebra.
- `pmars.dfy`: the `PmarsFitnessEvaluator` class (the cached `cmd` field,
  `BuildCommand`, `Evaluate`, `ParseOutput`) and the pure command and report
  functions that specify it.
- `tree.dfy`: the `Node` datatype and its predicates.
- `fitness.dfy`: `Fitnessable` and its comparisons.
- `statistics.dfy`: the `FitnessStatistics` class and the pure functions that
  specify `Update`.

The simulator process is the parameter `run` of `Evaluate`. It maps the command
line to the lines that the process prints.

## Model

| member | source | states |
|---|---|---|
| PmarsEvaluation.Get | evored/fitness/evaluation.py:99-109 | `params.get(key, default)`: the stored value when the key is present, the default otherwise |
| PmarsEvaluation.PmarsFitnessEvaluator.constructor | evored/fitness/evaluation.py:89-90 | a new evaluator has no cached command |
| PmarsEvaluation.PmarsFitnessEvaluator.BuildCommand | evored/fitness/evaluation.py:92-117 | the cached command becomes the command line for the given parameters, with defaults for the missing ones |
| PmarsEvaluation.CommandShape | evored/fitness/evaluation.py:111-117 | the first five arguments are executable, `-r`, rounds, `-s`, core size; the length is 5 plus one per switch present |
| PmarsEvaluation.CommandSwitches | evored/fitness/evaluation.py:113-117 | `-b` is present iff assembly output is falsy, `-V` iff verbosity is truthy; `-b` comes right after the fixed part and `-V` last |
| PmarsEvaluation.CommandNonEmpty | evored/fitness/evaluation.py:111 | a built command is never empty, so the `not self.cmd` test in evaluate builds it at most once |
| PmarsEvaluation.DefaultCommand | tests/test_pmars_fitness_evaluator.py:36-44 | with no parameters the command is `bin/pmars -r 50 -s 8000 -b` |
| PmarsEvaluation.CustomCommand | tests/test_pmars_fitness_evaluator.py:46-59 | with assembly output and verbosity on, path `/usr/bin/pmars`, 30 rounds and core size 9000, the command is `/usr/bin/pmars -r 30 -s 9000 -V` |
| PmarsEvaluation.CommandNumbersRoundTrip | evored/fitness/evaluation.py:111 | the rounds and core-size arguments, written with `str`, read back with `int` as the configured integers |
| PmarsEvaluation.PmarsFitnessEvaluator.Evaluate | evored/fitness/evaluation.py:119-130 | at most one warrior: the EvaluationException outcome, with the cache untouched; otherwise the command is built only when none is cached, and the result is the scores of the report that running the cached command prints |
| PmarsEvaluation.PmarsFitnessEvaluator.ParseOutput | evored/fitness/evaluation.py:132-147 | the loop collects exactly `Scores(stream)`: each line's score, in order, skipping lines that yield none |
| PmarsEvaluation.ParseLine | evored/fitness/evaluation.py:143-146 | a line without "scores" yields nothing (the ValueError of `index` is swallowed) |
| PmarsEvaluation.Scores | evored/fitness/evaluation.py:140-147 | a report never yields more scores than it has lines |
| PmarsEvaluation.ParseLineAfterName | evored/fitness/evaluation.py:143-144 | the number is read starting `len("scores") + 1` characters after the first "scores" |
| PmarsEvaluation.ParseLineTail | evored/fitness/evaluation.py:143-144 | on `<name> scores <tail>` the score is `int(tail)`, success or ValueError |
| PmarsEvaluation.ParseScoreLine | evored/fitness/evaluation.py:143-144 | a line `<name> scores <n>`, with trailing whitespace allowed, yields `n` for every integer `n` |
| PmarsEvaluation.ParseLineEmptyTail | evored/fitness/evaluation.py:143-146 | a line ending at "scores", or one space after it, yields nothing (the ValueError of `int("")` is swallowed) |
| PmarsEvaluation.ScoresAppend | evored/fitness/evaluation.py:140-147 | parsing two reports back to back gives the two score lists concatenated |
| PmarsEvaluation.ScoresSplit | evored/fitness/evaluation.py:141-146 | each line contributes its own score, if any, exactly at its place |
| PmarsEvaluation.ScoresMembership | evored/fitness/evaluation.py:141-146 | a value is among the scores iff some line yields it |
| PmarsEvaluation.ScoresCount | evored/fitness/evaluation.py:141-146 | no scores iff no line yields one; one score per line iff every line yields one |
| PmarsEvaluation.PairedReportScores | evored/fitness/evaluation.py:140-147 | a report of any number of pairs (a score line, then a line without one) yields exactly the warriors' scores, in order |
| PmarsEvaluation.FramedReportScores | evored/fitness/evaluation.py:140-147 | any number of lines without a score before and after the pairs change nothing: the report still yields exactly the warriors' scores, in order |
| PmarsEvaluation.FramedByOneLine | tests/test_pmars_fitness_evaluator.py:15-28 | the test sample's layout (one line without a score, the pairs, one more line without a score) yields exactly the warriors' scores |
| PmarsEvaluation.ExampleScores | tests/test_pmars_fitness_evaluator.py:15-71 | the six-warrior sample report yields 22, 48, 7, 26, 98, 133 |
| Text.IndexOf | evored/fitness/evaluation.py:143 | `str.index`: a result exactly when the pattern occurs, and then the first place where it occurs |
| Text.ParseIntOfIntToString | evored/fitness/evaluation.py:144 | `int(str(n)) == n` for every integer |
| Text.ParseIntIgnoresSpace | evored/fitness/evaluation.py:144 | whitespace around the number does not change what `int` reads |
| Text.NatToStringValue | evored/fitness/evaluation.py:111 | the decimal text `str` writes denotes the number written |
| Tree.NewNodeIsLeaf | evored/tree.py:48-52 | a node built with the default arguments has no parent and no children, so it is a leaf, is not a node and is not full |
| Tree.CompareItemsCases | evored/tree.py:7-24 | two absent neighbours agree; an absent one never agrees with a present one; two present ones agree iff their items are equal |
| Tree.CompareItemsByItem | evored/tree.py:7-34 | two neighbours agree iff their optional items are equal |
| Tree.EqualIffHashKey | evored/tree.py:54-63 | equal nodes have equal hash tuples, and, since items are never absent in the model, equal hash tuples mean equal nodes |
| Tree.EqualReflexive | evored/tree.py:54-59 | every node equals itself |
| Tree.EqualSymmetric | evored/tree.py:54-59 | node equality is symmetric |
| Tree.EqualTransitive | evored/tree.py:54-59 | node equality is transitive |
| Tree.EqualIgnoresDepth | evored/tree.py:54-59 | replacing a node's neighbours with others that carry the same items gives an equal node |
| Tree.ShallowExample | evored/tree.py:54-59 | two trees that differ only in a grandchild are equal as nodes but are different trees |
| Tree.IsFullByCount | evored/tree.py:65-71 | a node is full iff it has two children |
| Tree.IsLeafByCount | evored/tree.py:73-79 | a node is a leaf iff it has no children |
| Tree.IsNodeByCount | evored/tree.py:81-87 | a node is a node iff it has at least one child |
| Tree.NodeLeafFull | evored/tree.py:65-87 | `is_node` is the negation of `is_leaf`; a full node is a node; no full node is a leaf |
| Tree.ChildExamples | tests/test_node.py:46-64 | a bare node is a leaf; one child makes it neither a leaf nor full; two children make it full |
| Fitness.DefaultFitness | evored/fitness/__init__.py:15-16 | the default fitness is 0 |
| Fitness.EqualityByFitness | evored/fitness/__init__.py:18-44 | `==` holds iff the fitness scores are equal; `!=` is its negation, so it holds iff the scores differ |
| Fitness.Trichotomy | evored/fitness/__init__.py:18-41 | exactly one of `<`, `==` and `>` holds |
| Fitness.OperatorDuality | evored/fitness/__init__.py:23-41 | each operator is the mirror or the negation of another, as Python assumes when it reflects a comparison |
| Fitness.TotalPreorder | evored/fitness/__init__.py:33-41 | `<=` is reflexive, total and transitive, `<` chains with `<=`, and `==` is `<=` both ways |
| Fitness.ComparisonExample | tests/fitness/test_fitnessable.py:24-34 | the test suite's comparisons of 30, 45 and 45 |
| Fitness.SortedIffAdjacent | tests/fitness/test_fitnessable.py:36-45 | a population is sorted by fitness (`<=` between any earlier and later element) iff each adjacent pair is in order, the check the test suite makes after sorting |
| Statistics.FitnessStatistics.constructor | evored/statistics.py:13-17 | the four fields hold the arguments, 0 by default |
| Statistics.FitnessStatistics.Copy | evored/statistics.py:19-20 | the copy is a new object, equal to the original and with the same hash tuple |
| Statistics.EqualsIffHashKey | evored/statistics.py:22-32 | equality holds iff the hash tuples are equal, and `!=` is its negation |
| Statistics.EqualsEquivalence | evored/statistics.py:22-26 | equality is reflexive, symmetric and transitive |
| Statistics.FitnessStatistics.Update | evored/statistics.py:43-68 | max and min become the running extremes from 0; the mean becomes the exact mean once there is one score; the variance becomes the shortcut sample variance once there are two; fewer scores give ZeroDivision, with the fields as the source leaves them |
| Statistics.Extract | evored/statistics.py:57-58 | the scores, one per object and in order, as the extractor gives them |
| Statistics.ExtractIdentity | evored/statistics.py:43 | the default extractor `lambda val: val` uses the list as it is |
| Statistics.MaxFromZero | evored/statistics.py:53-65 | the recorded maximum is at least 0 and every score; unless it is 0 it is one of the scores |
| Statistics.MinFromZero | evored/statistics.py:53-63 | the recorded minimum is at most 0 and every score; unless it is 0 it is one of the scores |
| Statistics.MinZeroMax | evored/statistics.py:53-65 | the minimum is never positive and the maximum never negative |
| Statistics.MinOfPositiveScores | evored/statistics.py:53-63 | on all-positive scores the recorded minimum is 0, not the smallest score |
| Statistics.MaxIsLargestScore | evored/statistics.py:53-65 | once some score is not negative, the recorded maximum is one of the scores |
| Statistics.SumWithinBounds | evored/statistics.py:54-65 | the total lies between `n` times the minimum and `n` times the maximum |
| Statistics.MeanWithinBounds | evored/statistics.py:53-67 | the mean lies between the recorded minimum and maximum |
| Statistics.PairsZero | evored/statistics.py:68 | the divisor `n * (n - 1)` is 0 exactly on one score |
| Statistics.SpreadAroundMean | evored/statistics.py:68 | the sum of the squared deviations from the mean, scaled by `n` squared, is `n` times the numerator `n * sum_sq - sum * sum` |
| Statistics.NumeratorNonNegative | evored/statistics.py:68 | `n * sum_sq >= sum * sum` |
| Statistics.VarianceNonNegative | evored/statistics.py:68 | the variance is never negative |
| Statistics.VarianceIsSampleVariance | evored/statistics.py:68 | the shortcut formula equals the squared deviations from the mean divided by `n - 1` |
| Statistics.StatisticsExample | evored/statistics.py:53-68 | scores 3, 5, 7 give maximum 7, minimum 0, mean 5, variance 4 |

## Left out

- Running PMARS: `subprocess.Popen(..., shell=True)` and reading its standard output are replaced by the function parameter `run` of `Evaluate`.
- `write_to_temp` returns an empty list in the source, so the full command is the cached command. The model uses the cached command directly.
- PmarsEvaluation.PmarsFitnessEvaluator.Evaluate: report lines are modelled as text, as in the test suite. The process pipe yields bytes, and `bytes.index("scores")` raises a TypeError, which `parse_output` does not catch.
- PmarsEvaluation.Value: parameters are limited to strings, integers and booleans. Other Python values and their truthiness are not modelled.
- PmarsEvaluation.PmarsFitnessEvaluator.BuildCommand: the executable is written as its `str`. The source puts the raw parameter value into the list, which differs only when the value is not a string.
- Text.ParseInt: reads ASCII signs, ASCII digits and the six C `isspace` characters (space, tab, newline, carriage return, vertical tab, form feed) only. Python's `str.strip()` and `int()` also skip `\x1c`-`\x1f`, `\x85`, `\xa0` and the rest of Unicode whitespace, and `int()` accepts underscores between digits and non-ASCII digits; none of these are modelled.
- Statistics.FitnessStatistics.Update: mean and variance are exact reals, so float rounding is not modelled, nor the OverflowError that Python's true division `sum / n` and the variance division raise when an integer operand exceeds the float range; the model returns `Success` there. The fields the source resets to the integer 0 are 0.0 here, which Python compares as equal.
- Statistics.FitnessStatistics.Update: the ZeroDivisionError is a returned `Failure(ZeroDivision)` outcome, not an exception.
- Statistics.FitnessStatistics.Update: the extractor is a required parameter. The default identity extractor is covered by `Statistics.ExtractIdentity`.
- Comparisons with objects of another class: `NotImplemented` from `Fitnessable` and `FitnessStatistics`, and Node's implicit `None`, cannot arise under Dafny's typing.
- Tree.EqualIffHashKey: in Python, an absent neighbour and a neighbour whose item is `None` share a hash key, so the source promises only that equal nodes hash alike. The model's items are never absent, which makes the converse hold too.
- Tree.Node: neighbours are values, so parent links are copies and cyclic parent/child links cannot be represented. Updating a node's links in place is not part of the core.
- `hash` itself is modelled as the tuple it hashes (`HashKey`), and `__repr__`/`__str__` are not modelled.
- The rest of the repository is not part of this model:
  - the gene pool, the Redcode language module, the abstract evaluator/operator modules, `genome.py`, utilities and the entry point;
  - the concurrent process pool;
  - the tree, genome and operator behaviour that only the test suite describes.

## Notes

- The evaluator's test imports `PmarsFitnessEvaluator` from `evored.evaluation`. The class lives in `evored/fitness/evaluation.py`, which is the file modelled here.
- The fitness test (tests/fitness/test_fitnessable.py:7) imports `Fitnessable` from `evored.genome`. That class's constructor takes no fitness argument (evored/genome.py:14) and it has no comparison operators, so the test's `TestFitness(30)` fails with a TypeError as written. `Fitness.ComparisonExample` and `Fitness.SortedIffAdjacent` state the test's intended assertions against the `Fitnessable` of `evored/fitness/__init__.py`.
- The running maximum and minimum start at 0, not at the first score. So on all-positive fitnesses the recorded minimum is 0 (`Statistics.MinOfPositiveScores`), and on all-negative ones the recorded maximum is 0. The model keeps this as written.
