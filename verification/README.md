# Advanced match parsing: micro-benchmark harness, if-to-match rewriter, XML parsers

A Dafny model of three Python modules of the eGenix advanced-match-parsing
examples.

- `micro_benchmark.py` turns a benchmark function into a timing function.
  - `benchmark_code` reads the function's source lines and removes the decorators and the `def` line.
  - It drops blank lines, removes the common indentation and sorts the lines into the `# Init`, `# Bench` and `# Verify` sections.
  - It refuses any code before the first marker.
  - It fills `PERF_TEMPLATE`: init once, the bench block unrolled `iterations` times, verify once.
  - `configure` stamps `iterations`/`name` on a function.
  - `run_benchmark` resolves those stamps (default 20 and `__name__`), compiles the generated code through `benchmark_function` and hands it to the runner.
  - `run` discovers `bench_*` functions in namespace order through an OR-joined filter.
  - `worker_add_cmdline_args` passes the filter on to worker processes.
- `match_ast.py` rewrites `if isinstance(x, T) [and cond]: … elif …` chains into `match x: case T() [if cond]: …` statements.
  - `scan_if` collects the chain.
  - `if_refactor` builds the `match` node.
  - `function_refactor` rewrites the leading statements of a function body.
  - `if_match_refactor` picks the one-parameter functions of a module.
- `match_xml.py` has two structural parsers that turn an ElementTree of countries into a dictionary.
  - `parse_countries_2` checks the shape of each country as a whole.
  - `parse_countries_1` classifies each child on its own and carries its locals from child to child and from country to country.

Files:

- `text.dfy` (module `Text`): Python string helpers (`isspace`, `startswith`, `rstrip`, `strip`, `join`) and the `Option`/`Result` wrappers.
- `bench_source.dfy` (module `BenchSource`): the pure parts of `benchmark_code`.
  - Header removal, the blank-line filter and `textwrap.dedent` as the longest common indentation prefix.
  - The section routing `Route` and the filled `PERF_TEMPLATE`.
- `micro_benchmark.dfy` (module `MicroBenchmark`): the imperative parts.
  - The function object is a class whose `configure` updates its fields.
  - `benchmark_code` is a method with the decorator-deleting loop and the `add_to` routing loop, each proved against the functions above.
  - The measurement runner is a class that records each `bench_time_func` call.
  - `run` and `worker_add_cmdline_args` are methods.
- `match_ast.dfy` (module `MatchAst`): the AST as datatypes, and `scan_if`/`if_refactor` as functions.
  - `function_refactor` and `if_match_refactor` are loops.
  - A small evaluation model (`Semantics`) states what the rewrite keeps: the statements that run.
- `match_xml.dfy` (module `MatchXml`): `Element` as a datatype and Python's `int()` on text.
  - Both parsers are loops proved against left folds over the children, with the raised exceptions as `Failure`.

What the code does, where a reader might expect otherwise (the model follows the code):

- A line is a section marker when the dedented line, unstripped, starts with `# Init`, `# Bench` or `# Verify`.
- No marker order is enforced, and a repeated marker appends to the same list again. The module's comment at micro_benchmark.py:48-49 calls `# Init` and `# Bench` required, yet the routing at micro_benchmark.py:107-118 accepts a body with only a `# Bench` section.
- The first benchmark whose code cannot be generated or compiled stops `run`, and its error escapes. One compile failure comes from the template itself: with `iterations <= 0` or an empty `# Bench` section, `for _ in loops:` has no indented block and `compile` raises `IndentationError`.
- The comment at micro_benchmark.py:52-53 says `.iterations` defaults to 10. The code's `DEFAULT_ITERATIONS` at micro_benchmark.py:28 is 20, and the model uses 20.

## Model

| member | source | states |
|---|---|---|
| Text.RStrip | micro_benchmark.py:131-133 | the result is the longest prefix not ending in whitespace; what it removes is all whitespace |
| Text.LStrip | micro_benchmark.py:93-95 | the result is the suffix left after the leading whitespace, which is all removed |
| Text.StripAround | match_xml.py:138-139 | `strip` removes exactly the blank padding around a text whose ends are not whitespace |
| BenchSource.DropDecorators | micro_benchmark.py:86-88 | the remaining lines are a suffix; every line removed starts with `@`; the first remaining line does not |
| BenchSource.DropDecoratorsPrefix | micro_benchmark.py:86-88 | decorator lines followed by a non-decorator line: exactly the decorators are removed |
| BenchSource.DropBlankMembers | micro_benchmark.py:92-95 | a line survives exactly when it is in the input and not blank |
| BenchSource.DropBlankIsFilter | micro_benchmark.py:92-95 | order and multiplicity are kept: filtering `a + b` is filtering `a`, then `b`, and a single line is kept exactly when it is not blank |
| BenchSource.DropBlankKeepsNonBlank | micro_benchmark.py:92-95 | lines none of which is blank are kept as they are |
| BenchSource.Indentation | micro_benchmark.py:97-98 | the indentation is the leading run of spaces and tabs, as `textwrap.dedent` sees it |
| BenchSource.MarginIsCommon | micro_benchmark.py:97-98 | the margin `dedent` removes is a prefix of every line's indentation |
| BenchSource.MarginIsCommonToAll | micro_benchmark.py:97-98 | the margin is a prefix of the indentation of all lines at once |
| BenchSource.MarginIsGreatest | micro_benchmark.py:97-98 | every prefix common to all indentations is a prefix of the margin (longest common prefix) |
| BenchSource.Dedent | micro_benchmark.py:97-98 | each line is the margin followed by its dedented line; the line count is kept |
| BenchSource.DedentIndented | micro_benchmark.py:92-98 | indenting lines whose first line starts at column 0 by four spaces, then filtering and dedenting, gives them back |
| BenchSource.MarkerOf | micro_benchmark.py:109-117 | a marker line switches to Init, Bench or Verify, never to junk; a prefix match is enough |
| BenchSource.MarkerLines | micro_benchmark.py:109-117 | the three marker lines select their own sections (`# Bench` is not taken for `# Init`) |
| BenchSource.RouteAppend | micro_benchmark.py:107-118 | every line is handled once and in order: routing `a + b` routes `a`, then `b` from the list `add_to` was left at |
| BenchSource.TargetAfterAppend | micro_benchmark.py:107-117 | the list `add_to` points at after `a + b` is the one after `b`, starting from where `a` left it |
| BenchSource.RoutePartitions | micro_benchmark.py:103-118 | the four lists together hold exactly the non-marker lines: nothing is lost or invented |
| BenchSource.NoJunkAfterMarker | micro_benchmark.py:107-118 | once a marker is seen nothing more goes to `junk` |
| BenchSource.JunkIsLeadingLines | micro_benchmark.py:107-119 | `junk` is exactly the lines before the first marker |
| BenchSource.RouteWithoutMarkers | micro_benchmark.py:107-118 | lines without markers all go, in order, to the current list |
| BenchSource.MarkerRoute | micro_benchmark.py:107-118 | a marker followed by plain lines sends them all to its section |
| BenchSource.RouteLayout | micro_benchmark.py:102-119 | a body laid out as `# Init`, `# Bench`, `# Verify` sections gives back its three sections and no junk |
| BenchSource.RouteBenchVerify | micro_benchmark.py:107-118 | a `# Bench` block followed by a `# Verify` block routes to exactly those two sections |
| BenchSource.ExtractRejectsLeadingCode | micro_benchmark.py:102-119 | extraction fails exactly when the first dedented line is not a marker; the error lists the lines before the first marker |
| BenchSource.HeaderOfDefinition | micro_benchmark.py:86-90 | decorators and the `def` line are removed and the body is left |
| BenchSource.ExtractDefinition | micro_benchmark.py:86-119 | any decorated definition laid out in the documented shape extracts to exactly its three sections |
| BenchSource.RepeatAdd | micro_benchmark.py:123-124 | `s * (m + n)` is `s * m + s * n` |
| BenchSource.RepeatLength | micro_benchmark.py:123-124 | `s * n` has `n` times as many lines |
| BenchSource.RepeatPasses | micro_benchmark.py:123-124 | pass `k` of the unrolled bench list is the whole bench block, after `k` earlier passes |
| BenchSource.IndentLinesAppend | micro_benchmark.py:121-126 | indenting and joining distributes over concatenation |
| BenchSource.IndentRepeat | micro_benchmark.py:123-124 | indenting the repeated bench list is repeating the indented bench block |
| BenchSource.PerfCodeShape | micro_benchmark.py:121-134 | init once at four spaces, the indented bench block `iterations` times at eight, verify once at four, each part right-stripped |
| BenchSource.PerfCodeNoIterations | micro_benchmark.py:123-124 | with `iterations <= 0` the loop body is empty, whatever the bench section holds |
| BenchSource.DedentKeepsNotBlank | micro_benchmark.py:97-98 | removing the margin leaves every line that was not blank not blank |
| BenchSource.RouteKeepsNotBlank | micro_benchmark.py:107-118 | the bench list holds only lines of the routed input, so none is blank when none of those is |
| BenchSource.ExtractedBenchNotBlank | micro_benchmark.py:92-118 | every bench line of an extracted definition has a character that is not whitespace |
| BenchSource.IndentLinesNotBlank | micro_benchmark.py:123-124 | indenting and joining lines, one of which is not blank, gives text that is not blank |
| BenchSource.LoopBodyNotEmpty | micro_benchmark.py:121-134 | a bench section that is not empty, repeated at least once, leaves a loop body that is not empty after `rstrip` |
| BenchSource.CompiledCodeFails | micro_benchmark.py:139-145 | `compile` raises `IndentationError` on the generated text exactly when the definition was extracted and `iterations <= 0` or the bench section is empty (a comment-only bench section is not detected); otherwise the result is the generated text or its error |
| MicroBenchmark.Configure | micro_benchmark.py:242-249 | only the given arguments are stamped, each field on its own; the very same function object is returned |
| MicroBenchmark.BenchmarkCode | micro_benchmark.py:76-136 | on success the returned name is `fct_name` or `__name__` and the text opens with a `def` carrying `__name__`; the result is the generated code of the source, or the error raised |
| MicroBenchmark.RemoveHeader | micro_benchmark.py:86-90 | the decorator-deleting loop and the `def` check give the header-stripped body, or `IndexError`/the failed assertion |
| MicroBenchmark.SkipDecorators | micro_benchmark.py:86-88 | the decorator-deleting loop leaves exactly the lines `DropDecorators` specifies |
| MicroBenchmark.FindSections | micro_benchmark.py:102-118 | the routing loop fills the four lists exactly as `Route` specifies |
| MicroBenchmark.RoutePrefixStep | micro_benchmark.py:108-118 | one more line: a marker moves `add_to`, any other line is appended to the list it points at |
| MicroBenchmark.BenchmarkFunction | micro_benchmark.py:139-151 | the generated text once compiled, or the generation error, or `IndentationError` exactly when `iterations <= 0` or the bench section is empty |
| MicroBenchmark.RunBenchmark | micro_benchmark.py:153-167 | the runner gets the resolved name, the code compiled with the resolved iterations and `inner_loops` equal to them, or nothing and the generation or compile error |
| MicroBenchmark.Discover | micro_benchmark.py:225-233 | the discovery loop collects exactly the prefixed callable entries the filter keeps, in namespace order |
| MicroBenchmark.DiscoveredAppend | micro_benchmark.py:226-233 | discovery keeps namespace order: a concatenation gives the first part's functions, then the second's |
| MicroBenchmark.DiscoveredMembers | micro_benchmark.py:226-233 | a function is discovered exactly when an entry binds it under a prefixed key that the filter keeps |
| MicroBenchmark.EmptyFiltersKeepAll | micro_benchmark.py:219-223 | an empty filter list keeps the same functions as no filter |
| MicroBenchmark.KeepIsDisjunction | micro_benchmark.py:203-204 | with alternation semantics for the joined pattern, a key is kept exactly when some pattern matches it |
| MicroBenchmark.KeepSinglePattern | micro_benchmark.py:203-204 | a single pattern is joined to itself, so the filter keeps a key exactly when that pattern matches it |
| MicroBenchmark.Outcomes | micro_benchmark.py:236-237 | one outcome per discovered function, in order: what `run_benchmark` does for it |
| MicroBenchmark.PlannedSnoc | micro_benchmark.py:236-237 | after a run with no failure, a success adds its call and a failure stops with its error |
| MicroBenchmark.PlannedIsPrefix | micro_benchmark.py:236-237 | the calls handed over are the leading successful outcomes in order; the error is the first failure |
| MicroBenchmark.PlannedStops | micro_benchmark.py:236-237 | once a benchmark fails nothing after it is run |
| MicroBenchmark.Run | micro_benchmark.py:196-238 | the runner receives the planned calls for the functions discovered with the effective filter (`filters`, else the command line), and `run` ends with the first error |
| MicroBenchmark.RunAll | micro_benchmark.py:235-237 | the loop hands over each benchmark's call in order until the first generation or compile failure |
| MicroBenchmark.WorkerAddCmdlineArgs | micro_benchmark.py:169-175 | `cmd` is extended by `--mb-filter` and all patterns exactly when the filter list is non-empty, else unchanged |
| MicroBenchmark.WorkerFilterAgrees | micro_benchmark.py:169-175 | reading the appended arguments back with `FilterFromArgs` (`--mb-filter` followed by its values) gives the same filter, so the same keys are kept |
| MatchAst.Recognise | match_ast.py:75-94 | a recognised test is `isinstance(varname, T)` or `isinstance(varname, T) and cond`, with the link's type name and guard |
| MatchAst.RecogniseGuarded | match_ast.py:75-90 | both shapes are recognised with their own type name and guard (the inverse of the above) |
| MatchAst.RecogniseRejects | match_ast.py:75-94 | three `and` operands, or `isinstance` on another variable, are not recognised |
| MatchAst.ScanIf | match_ast.py:67-111 | an unrecognised test returns the incoming cases and the node itself; a recognised one appends its case after the earlier ones |
| MatchAst.ScanIfElse | match_ast.py:94-111 | the else part is the last link's else list, or the unrecognised `elif` node itself |
| MatchAst.ScanIfAccumulates | match_ast.py:96-111 | starting from `None` or `[]` collects the same chain; earlier cases stay in front, in chain order |
| MatchAst.IfRefactor | match_ast.py:38-65 | a `match` on `Name(varname)` with one `T() if cond` case per collected case, then one wildcard case with the else part: `len(cases)+1` cases |
| MatchAst.RefactorStmt | match_ast.py:119-128 | an `if` statement is replaced exactly when its test is recognised, and then by a `match` on the variable; other statements are kept |
| MatchAst.CaseFiresIffTestHolds | match_ast.py:43-53 | a collected case fires exactly when the test it came from holds, reading `case T():` as `isinstance` (type names bound to classes) |
| MatchAst.WildcardRuns | match_ast.py:54-58 | the trailing wildcard case always runs the else part |
| MatchAst.LinkStep | match_ast.py:96-107 | putting one link's case in front of the later cases runs what the whole `if` runs |
| MatchAst.ScanIfSound | match_ast.py:67-111 | the `match` built from a scanned chain runs exactly what the `if`/`elif` chain runs, when every recognised type name is bound to a class |
| MatchAst.RefactorStmtPreserves | match_ast.py:119-128 | replacing a statement by its refactoring changes nothing that runs |
| MatchAst.LeadingIfs | match_ast.py:119-131 | the number of `if` statements before the first other statement |
| MatchAst.RefactorAllPreserves | match_ast.py:119-128 | a refactored statement list runs what the original runs |
| MatchAst.RefactorLeadingIfsRunsPrefix | match_ast.py:118-133 | as written, the new body runs only the leading `if` statements of the old one |
| MatchAst.RefactorLeadingIfsDropsTail | match_ast.py:129-132 | the body `[return x]` becomes empty, and a counting semantics tells the two apart |
| MatchAst.RefactorBody | match_ast.py:118-133 | the corrected body keeps every statement: its length is the old body's |
| MatchAst.RefactorBodyPreserves | match_ast.py:118-133 | the corrected body runs exactly what the old body runs |
| MatchAst.FunctionRefactor | match_ast.py:113-133 | as written: the node keeps its name and parameters, and its body becomes the refactored leading `if` statements only |
| MatchAst.FunctionRefactorKeepingRest | match_ast.py:113-133 | corrected: the body becomes the refactored leading `if` statements followed by the rest of the old body |
| MatchAst.IfMatchRefactor | match_ast.py:135-151 | as written: in order, each one-parameter function keeps its name and parameters and gets the refactored leading `if` statements only; every other node is left as it is |
| MatchAst.RefactorTopRunsPrefix | match_ast.py:140-149 | as written: only one-parameter functions change, keeping kind, name and parameters; their new body runs only the leading `if` statements of the old one |
| MatchAst.IfMatchRefactorKeepingRest | match_ast.py:135-151 | corrected: each top-level node is rewritten with the corrected `function_refactor`, in order |
| MatchAst.RefactorTopKeepingRestPreserves | match_ast.py:140-149 | corrected: only one-parameter functions change; they keep kind, name and parameters, and their body runs what the old one ran |
| MatchXml.AssignedKeys | match_xml.py:142-150 | a dictionary filled by assignments has exactly the assigned keys |
| MatchXml.AssignedLast | match_xml.py:142-150 | the last assignment to a key wins |
| MatchXml.IntOf | match_xml.py:138-139 | `int(None)` raises `TypeError`; otherwise the stripped text must be a signed decimal literal, or `ValueError` is raised |
| MatchXml.GdpOf | match_xml.py:140 | `float(None)` raises `TypeError`; any text is accepted and kept |
| MatchXml.NaturalValue | match_xml.py:138-139 | the decimal digits of `n` form a valid literal whose value is `n` |
| MatchXml.SignedDecimal | match_xml.py:138-139 | the signed literal of `n` reads back as `n` |
| MatchXml.IntOfDecimal | match_xml.py:138-139 | `int(str(n)) == n`, whatever whitespace surrounds the text |
| MatchXml.IntOfRejectsNoDigits | match_xml.py:138-139 | a text without a digit raises `ValueError` |
| MatchXml.NeighborsAssigned | match_xml.py:142-150 | neighbor elements only: the dictionary of their assignments in order (later duplicates overwrite) |
| MatchXml.NeighborsOnlyNeighbors | match_xml.py:143-155 | accepted extra children are all neighbor elements with `name` and `direction` |
| MatchXml.NeighborsStops | match_xml.py:143-155 | an error among the first extra children is the error of them all |
| MatchXml.NeighborsFirstError | match_xml.py:151-155 | the error is the `TypeError` for the first extra child that is not a neighbor |
| MatchXml.ParseNeighbors | match_xml.py:142-155 | the neighbor loop builds exactly the neighbor dictionary, or raises for the first wrong child |
| MatchXml.ParseCountry2 | match_xml.py:127-165 | one country: the element check, the header pattern, `int`, `int`, `float`, the neighbors, in that order |
| MatchXml.ParseCountries2 | match_xml.py:124-169 | the loop returns the fold of the countries, or the first error |
| MatchXml.CountryOf2Spec | match_xml.py:127-165 | a country is accepted exactly when it is a named `country` whose children start with `rank`, `year`, `gdppc` with integer, integer, present texts, followed by neighbors only; the record holds those values |
| MatchXml.Countries2Assigned | match_xml.py:124-169 | accepted countries only: the result is the dictionary of their assignments in order |
| MatchXml.Countries2Stops | match_xml.py:126-168 | an error among the first countries is the error of them all |
| MatchXml.Countries2FirstError | match_xml.py:126-168 | the error is the one of the first country that is not accepted |
| MatchXml.Countries2Entries | match_xml.py:160-165 | one entry per country name, holding the record of the last country of that name |
| MatchXml.NeighborElement | match_xml.py:145-149 | the element built for a neighbor matches the neighbor pattern |
| MatchXml.CountryElementShape | match_xml.py:127-149 | a country element written from a record has the shape both parsers expect |
| MatchXml.CountryRoundTrip | match_xml.py:127-165 | reading a country element written from a record gives the record back |
| MatchXml.ChildStep | match_xml.py:94-112 | one child resets `neighbors` to `{}` and sets only the local its tag names, or raises; an unknown tag raises `TypeError('country element')` |
| MatchXml.Record | match_xml.py:113-118 | the record is built exactly when all four locals are bound; otherwise `UnboundLocalError` names the first unbound of `rank`, `year`, `gdppc`, `neighbors`, in keyword order |
| MatchXml.ChildrenStepStops | match_xml.py:94-112 | an error among the first children of a country is the error of them all |
| MatchXml.Countries1Stops | match_xml.py:90-121 | an error among the first countries is the error of them all |
| MatchXml.ParseCountryChildren | match_xml.py:94-112 | the inner loop leaves the locals the fold over the children gives, or the first error |
| MatchXml.ParseCountries1 | match_xml.py:88-122 | the loop returns the countries of the fold over the root's children, or its first error |
| MatchXml.ChildrenStepKnownTags | match_xml.py:97-112 | every child of an accepted country is `rank`, `year`, `gdppc` or `neighbor` |
| MatchXml.ChildrenStepNeighbors | match_xml.py:94-108 | `neighbors` holds at most the last child's entry; a country without children leaves every local as it was |
| MatchXml.ChildrenStepKeepsUnset | match_xml.py:96 | missing children are not detected: a local no child sets keeps its earlier value |
| MatchXml.ChildrenStepLastRank | match_xml.py:98-99 | the stored rank is that of the last `rank` child |
| MatchXml.ChildrenStepAppend | match_xml.py:94-112 | the children loop over `a + b` is the loop over `a`, then over `b` from the locals `a` left |
| MatchXml.HeaderChildren | match_xml.py:98-103 | the three header children set rank, year and gdppc and leave `neighbors` empty |
| MatchXml.NeighborChildren | match_xml.py:104-108 | neighbor children keep rank, year and gdppc and leave the last neighbor alone in `neighbors` |
| MatchXml.HeaderThenNeighbors | match_xml.py:94-112 | the inner loop over the three header children followed by neighbors binds rank, year and gdppc from the header and keeps only the last neighbor |
| MatchXml.VersionsAgree | match_xml.py:88-169 | a country `parse_countries_2` accepts, `parse_countries_1` accepts from any locals, with the same rank, year and gdppc; its neighbors shrink to the last one |
| MatchXml.VersionsAgreeOnTree | match_xml.py:88-169 | every tree `parse_countries_2` accepts, `parse_countries_1` accepts, with the same country names and the same rank, year and gdppc |
| MatchXml.IntOfDigit | match_xml.py:138-139 | a one-digit text reads as its digit |
| MatchXml.FirstCountryChildren | match_xml.py:94-112 | the children of a complete country leave its rank, year and gdppc bound |
| MatchXml.FirstCountryRead | match_xml.py:90-118 | a complete first country is recorded with its own values |
| MatchXml.SecondCountryRead | match_xml.py:94-112 | a country without a `rank` child keeps the incoming rank |
| MatchXml.StaleRank | match_xml.py:96-118 | a country without a `rank` child is recorded with the rank of the country before it |

## Left out

- `inspect.getsourcelines`/`inspect.getsource` are not modelled. The source lines of a function are a field of the function object.
- `ast.parse`/`ast.unparse` are not modelled. The rewriter works on the parsed module body.
- ElementTree parsing (`tokenize_xml`) is not modelled. The parsers take the element tree.
- MicroBenchmark.BenchmarkFunction and BenchSource.CompiledCodeFails model `compile` only for the empty loop body the template produces. "Exactly when" in CompiledCodeFails is relative to that check. Other syntax errors are not modelled: user code that does not parse, or a bench section made only of comments. `exec` and the binding in `globals()` are not modelled either; the compiled function stays its text.
- MicroBenchmark.BenchmarkFunction is modelled with `fct_name=None`, as `run_benchmark` calls it. With another name, `globals()[fct_name]` would look up a name the generated `def` does not bind.
- pyperf is not modelled: `Runner`, its argument parser, `perf_counter` and the timings. `create_runner` becomes a `Runner` object passed to `run`, carrying the `--mb-filter` value already parsed. `bench_time_func` is a call recorded on the runner.
- The `_debug` and other `print` output is left out, and so is the `name` argument of `function_refactor`, which is only printed.
- `re.compile('|'.join(filters)).search` is a function parameter `search(pattern, key)`.
  - An invalid pattern (`re.error`) is not modelled.
  - MicroBenchmark.KeepIsDisjunction assumes that searching for the joined pattern finds what some single pattern finds.
- `textwrap.dedent` joins the lines and splits them again. The model assumes source lines hold no line boundary other than their own terminator. Its margin counts only spaces and tabs.
- Python's `assert` statements are taken as always enabled: `python -O` would skip the `def` check and the junk check.
- MicroBenchmark.Run does not model the process-level re-launch of workers. It starts from a runner whose filter value is given.
- Dictionaries are maps, so the insertion order of `countries` and `neighbors` is not modelled; keys and values are.
- MatchXml.GdpOf does not model `float()`. The gdppc text is kept as written, so the `ValueError` of a non-numeric gdppc text is not raised in the model.
- MatchXml.IntOf accepts ASCII digits only. Python's `int()` also accepts other Unicode decimal digits.
- MatchXml.IntOf has no digit limit. CPython (3.11, and 3.10.7 on) raises `ValueError` for a text of more than 4300 digits, so MatchXml.IntOfDecimal holds there only for `n` of at most 4300 digits.
- `error_string` (the `tostring` formatting of the message) is not modelled. The error carries the object kind and the element.
- MatchAst uses a statement model that is only as fine as the rewrite needs:
  - `and`/`or`, `isinstance`, `if` and `match` have their meaning, except that a class pattern `case T():` is read as `isinstance(x, T)`;
  - every other statement is an opaque step of a given semantics;
  - tests and guards are taken to have no side effects, and `isinstance` is taken to be the builtin.
- MatchAst.ScanIfSound assumes that every recognised type name is bound to a class. `scan_if` accepts any bare name, and `isinstance` also accepts a tuple or a union there. A `match` class pattern on such a name raises `TypeError` ("called match pattern must be a class"), where the `if` chain runs a branch. The semantics has no exceptions and cannot express that case, so the lemmas below hold only under this assumption.
- CaseFiresIffTestHolds (MatchAst.CaseFiresIffTestHolds) reads `case T():` as `isinstance(x, T)`, so it assumes `T` is bound to a class.
- LinkStep (MatchAst.LinkStep) rests on the same reading of the class pattern, so it assumes the link's type name is bound to a class.
- RefactorStmtPreserves (MatchAst.RefactorStmtPreserves) follows from ScanIfSound, so it assumes that every type name recognised in the statement is bound to a class.
- RefactorAllPreserves (MatchAst.RefactorAllPreserves) follows from ScanIfSound, so it assumes that every type name recognised in the list is bound to a class.
- RefactorLeadingIfsRunsPrefix (MatchAst.RefactorLeadingIfsRunsPrefix) follows from ScanIfSound, so it assumes that every type name recognised in the leading `if` statements is bound to a class.
- RefactorBodyPreserves (MatchAst.RefactorBodyPreserves) follows from ScanIfSound, so it assumes that every type name recognised in the body is bound to a class.
- RefactorTopRunsPrefix (MatchAst.RefactorTopRunsPrefix) follows from ScanIfSound, so it assumes that every type name recognised in the function is bound to a class.
- RefactorTopKeepingRestPreserves (MatchAst.RefactorTopKeepingRestPreserves) follows from ScanIfSound, so it assumes that every type name recognised in the function is bound to a class.
- The shared `cases` list that `scan_if` appends to in place is a value passed along the chain and returned. Nothing outside the call aliases it.
- MatchAst.FunctionRefactor returns the new `FunctionDef` node. It does not overwrite `fct_node.body` in place.
- When a later `elif` is not recognised, the wildcard case holds that `if` node itself as its body, where Python's AST expects a list. The model keeps that node (`Lone`); whether `ast.unparse` accepts it is not modelled.
- When the `if` chain has no `else`, the wildcard case gets the empty else list as its body. The model keeps that empty `Block`, which runs nothing. `ast.unparse` would print a `case _:` with no body, which does not parse; the printability of the rewritten tree is not modelled.

## Findings

| source | as written | input that shows it | evidently intended | confidence | as-written member | corrected member |
|---|---|---|---|---|---|---|
| match_ast.py:129-132 | `break` leaves the loop before `new_body.append(node)`, so the first statement that is not an `if`, and every statement after it, vanish from the rewritten function | a function whose body is `[return x]` (or `if …` followed by `return …`) gets the body `[]` | keep the remaining statements after the rewritten leading `if` statements | not executed | MatchAst.RefactorLeadingIfsDropsTail | MatchAst.RefactorTopKeepingRestPreserves |
