/** The runner side of micro_benchmark.py: benchmark function objects and
    their `configure` stamps, `benchmark_code` as a step-by-step method,
    `run_benchmark`, discovery and filtering in `run`, and the worker
    command-line propagation. The measurement library is a `Runner` object
    that records what it is handed; the regular-expression search is a
    function parameter `search(pattern, text)`. */
module MicroBenchmark {
  import opened Text
  import opened BenchSource

  /** A Python function object as the harness sees it: `__name__` and its
      source lines are fixed; `configure` sets the `iterations` and `name`
      attributes, which are absent until then. */
  class BenchFunction {
    const funcName: string
    const sourceLines: seq<string>
    var iterations: Option<int>
    var displayName: Option<string>

    constructor (funcName: string, sourceLines: seq<string>)
      ensures this.funcName == funcName && this.sourceLines == sourceLines
      ensures iterations == None && displayName == None
    {
      this.funcName := funcName;
      this.sourceLines := sourceLines;
      iterations := None;
      displayName := None;
    }
  }

  /** `configure(iterations, name)(fct)`: stamps only the arguments that are
      given and hands back the very same function object. */
  method Configure(fct: BenchFunction, iterations: Option<int>, name: Option<string>)
    returns (r: BenchFunction)
    modifies fct
    ensures r == fct
    ensures fct.iterations == (if iterations.Some? then iterations else old(fct.iterations))
    ensures fct.displayName == (if name.Some? then name else old(fct.displayName))
  {
    if iterations.Some? {
      fct.iterations := iterations;
    }
    if name.Some? {
      fct.displayName := name;
    }
    r := fct;
  }

  /** The iteration count `run_benchmark` uses: the stamped one, else 20. */
  function ResolvedIterations(fct: BenchFunction): int
    reads fct
  {
    fct.iterations.GetOr(DefaultIterations)
  }

  /** The reported name `run_benchmark` uses: the stamped one, else `__name__`. */
  function ResolvedName(fct: BenchFunction): string
    reads fct
  {
    fct.displayName.GetOr(fct.funcName)
  }

  /** `benchmark_code(fct, iterations, fct_name)`: the returned name and the
      generated source. The `def` in the text always carries `__name__`;
      the returned name is `fct_name` when one is passed. */
  method BenchmarkCode(fct: BenchFunction, iterations: int, fctName: Option<string>)
    returns (r: Result<(string, string), CodeError>)
    ensures r.Success? ==> r.value.0 == fctName.GetOr(fct.funcName)
    ensures r.Success? ==> StartsWith(r.value.1, "def " + fct.funcName + "(iterations):\n")
    ensures r == match GeneratedCode(fct.funcName, fct.sourceLines, iterations)
                 case Failure(e) => Failure(e)
                 case Success(code) => Success((fctName.GetOr(fct.funcName), code))
  {
    var name := if fctName.Some? then fctName.value else fct.funcName;
    // the decorator lines and then the `def` line go
    var header := RemoveHeader(fct.sourceLines);
    if header.Failure? {
      return Failure(header.error);
    }
    var lines := header.value;

    // blank lines go, then the margin common to the rest
    lines := Dedent(DropBlank(lines));

    // each line to the section its last marker chose
    var found := FindSections(lines);
    var init, bench, verify, junk := found.init, found.bench, found.verify, found.junk;
    if |junk| != 0 {
      assert Extract(fct.sourceLines) == Failure(ExtraCode(junk));
      return Failure(ExtraCode(junk));
    }
    assert Extract(fct.sourceLines) == Success(found);

    var initCode := IndentLines("    ", init);
    var benchmarkCode := IndentLines("        ", Repeat(bench, iterations));
    var verifyCode := IndentLines("    ", verify);

    // the three parts into PERF_TEMPLATE
    var code := PerfText(fct.funcName, RStrip(initCode), RStrip(benchmarkCode), RStrip(verifyCode));
    PerfTextStartsWithDef(fct.funcName, RStrip(initCode), RStrip(benchmarkCode), RStrip(verifyCode));
    assert code == PerfCode(fct.funcName, found, iterations);
    return Success((name, code));
  }

  /** The decorator-skipping loop and the `def` check of `benchmark_code`. */
  method RemoveHeader(source: seq<string>) returns (r: Result<seq<string>, CodeError>)
    ensures r == StripHeader(source)
  {
    var lines := SkipDecorators(source);
    if |lines| == 0 {
      return Failure(IndexError);
    }
    if !StartsWith(lines[0], "def") {
      return Failure(MissingDef);
    }
    return Success(lines[1..]);
  }

  /** The `while lines[0].startswith('@'): del lines[0]` loop. */
  method SkipDecorators(source: seq<string>) returns (lines: seq<string>)
    ensures lines == DropDecorators(source)
  {
    lines := source;
    while |lines| > 0 && StartsWith(lines[0], "@")
      invariant DropDecorators(lines) == DropDecorators(source)
    {
      lines := lines[1..];
    }
  }

  /** The `for line in lines` loop of `benchmark_code`: marker lines switch
      the list that `add_to` aliases (here the section `target`), every
      other line is appended to it. */
  method FindSections(lines: seq<string>) returns (found: Sections)
    ensures found == Route(lines, Junk)
  {
    var init, bench, verify, junk := [], [], [], [];
    var target := Junk;
    for k := 0 to |lines|
      invariant Sections(init, bench, verify, junk) == Route(lines[..k], Junk)
      invariant target == TargetAfter(lines[..k], Junk)
    {
      var line := lines[k];
      RoutePrefixStep(lines, k);
      if StartsWith(line, "# Init") {
        target := Init;
        continue;
      } else if StartsWith(line, "# Bench") {
        target := Bench;
        continue;
      } else if StartsWith(line, "# Verify") {
        target := Verify;
        continue;
      }
      match target
      case Init => init := init + [line];
      case Bench => bench := bench + [line];
      case Verify => verify := verify + [line];
      case Junk => junk := junk + [line];
    }
    assert lines[..|lines|] == lines;
    found := Sections(init, bench, verify, junk);
  }

  /** One more line seen by the loop: a marker moves the target, any other
      line is appended to the target's list. */
  lemma RoutePrefixStep(lines: seq<string>, k: nat)
    requires k < |lines|
    ensures var t := TargetAfter(lines[..k], Junk);
      && (MarkerOf(lines[k]).Some? ==>
            Route(lines[..k + 1], Junk) == Route(lines[..k], Junk)
            && TargetAfter(lines[..k + 1], Junk) == MarkerOf(lines[k]).value)
      && (MarkerOf(lines[k]).None? ==>
            Route(lines[..k + 1], Junk) == Route(lines[..k], Junk).Add(t, lines[k])
            && TargetAfter(lines[..k + 1], Junk) == t)
  {
    var a, b := lines[..k], [lines[k]];
    assert lines[..k + 1] == a + b;
    var t := TargetAfter(a, Junk);
    RouteAppend(a, b, Junk);
    TargetAfterAppend(a, b, Junk);
    assert b[1..] == [];
    if MarkerOf(lines[k]).None? {
      var x := Route(a, Junk);
      assert x.Append(Single(t, [lines[k]]).Append(NoSections)) == x.Add(t, lines[k]) by {
        match t
        case Init =>
        case Bench =>
        case Verify =>
        case Junk =>
      }
    }
  }

  /** What `run_benchmark` hands to `bench_time_func`: the reported name,
      the generated timing function (as its source) and `inner_loops`. */
  datatype BenchCall = BenchCall(name: string, code: string, innerLoops: int)

  /** The external measurement runner: the `--mb-filter` value its argument
      parser produced and the benchmarks handed to it so far, in order. */
  class Runner {
    const mbFilter: Option<seq<string>>
    var calls: seq<BenchCall>

    constructor (mbFilter: Option<seq<string>>)
      ensures this.mbFilter == mbFilter && calls == []
    {
      this.mbFilter := mbFilter;
      calls := [];
    }
  }

  /** The call `run_benchmark` makes for `fct`, or the error that stops it. */
  function CallFor(fct: BenchFunction): Result<BenchCall, CodeError>
    reads fct
  {
    var n := ResolvedIterations(fct);
    match CompiledCode(fct.funcName, fct.sourceLines, n)
    case Failure(e) => Failure(e)
    case Success(code) => Success(BenchCall(ResolvedName(fct), code, n))
  }

  /** `benchmark_function(fct, iterations)` as `run_benchmark` calls it,
      with `fct_name` left at None: the generated text, or the error that
      generation or `compile` raises. `compile` is modelled only by the
      check the template itself decides: a `for _ in loops:` with an empty
      body, read off the sections the text was built from. */
  method BenchmarkFunction(fct: BenchFunction, iterations: int) returns (r: Result<string, CodeError>)
    ensures r == CompiledCode(fct.funcName, fct.sourceLines, iterations)
    ensures r.Failure? <==> GeneratedCode(fct.funcName, fct.sourceLines, iterations).Failure?
                            || (iterations <= 0 || Extract(fct.sourceLines).value.bench == [])
  {
    CompiledCodeFails(fct.funcName, fct.sourceLines, iterations);
    var generated := BenchmarkCode(fct, iterations, None);
    if generated.Failure? {
      return Failure(generated.error);
    }
    var sections := Extract(fct.sourceLines).value;
    if LoopBody(sections, iterations) == [] {
      return Failure(EmptyLoopBody);
    }
    return Success(generated.value.1);
  }

  /** `run_benchmark(runner, fct)`: the compiled function goes to the runner
      under the resolved name, with `inner_loops` equal to the resolved
      iteration count that was also used to unroll the bench section. */
  method RunBenchmark(runner: Runner, fct: BenchFunction) returns (err: Option<CodeError>)
    modifies runner
    ensures CallFor(fct).Success? ==> err == None && runner.calls == old(runner.calls) + [CallFor(fct).value]
    ensures CallFor(fct).Failure? ==> err == Some(CallFor(fct).error) && runner.calls == old(runner.calls)
  {
    var iterations := if fct.iterations.Some? then fct.iterations.value else DefaultIterations;
    var benchmarkName := if fct.displayName.Some? then fct.displayName.value else fct.funcName;
    var compiled := BenchmarkFunction(fct, iterations);
    match compiled
    case Failure(e) =>
      return Some(e);
    case Success(code) =>
      runner.calls := runner.calls + [BenchCall(benchmarkName, code, iterations)];
      return None;
  }

  /** A namespace value: a benchmark function, or something not callable. */
  datatype Value = Function(fn: BenchFunction) | NotCallable

  /** One `namespace.items()` entry. */
  datatype Binding = Binding(key: string, value: Value)

  /** The filter `run` prepares: the OR-joined patterns searched in the
      key, or everything when there are no patterns. */
  predicate Keep(filters: Option<seq<string>>, search: (string, string) -> bool, key: string) {
    if filters.Some? && |filters.value| > 0 then search(Join(filters.value, "|"), key) else true
  }

  predicate Selected(b: Binding, prefix: string, filters: Option<seq<string>>, search: (string, string) -> bool) {
    StartsWith(b.key, prefix) && b.value.Function? && Keep(filters, search, b.key)
  }

  /** The benchmark functions `run` collects, in namespace order. */
  function Discovered(namespace: seq<Binding>, prefix: string, filters: Option<seq<string>>,
                      search: (string, string) -> bool): seq<BenchFunction>
  {
    if |namespace| == 0 then []
    else
      var b := namespace[|namespace| - 1];
      Discovered(namespace[..|namespace| - 1], prefix, filters, search)
        + (if Selected(b, prefix, filters, search) then [b.value.fn] else [])
  }

  /** The `for key, value in namespace.items()` loop of `run`. */
  method Discover(namespace: seq<Binding>, prefix: string, filters: Option<seq<string>>,
                  search: (string, string) -> bool)
    returns (benchmarks: seq<BenchFunction>)
    ensures benchmarks == Discovered(namespace, prefix, filters, search)
  {
    benchmarks := [];
    for i := 0 to |namespace|
      invariant benchmarks == Discovered(namespace[..i], prefix, filters, search)
    {
      assert namespace[..i + 1][..i] == namespace[..i];
      var key, value := namespace[i].key, namespace[i].value;
      if StartsWith(key, prefix) && value.Function? {
        if !Keep(filters, search, key) {
          continue;
        }
        benchmarks := benchmarks + [value.fn];
      }
    }
    assert namespace[..|namespace|] == namespace;
  }

  /** Discovery keeps namespace order: the functions found in a
      concatenation are those of the first part, then those of the second. */
  lemma {:induction false} DiscoveredAppend(a: seq<Binding>, b: seq<Binding>, prefix: string,
                                            filters: Option<seq<string>>, search: (string, string) -> bool)
    ensures Discovered(a + b, prefix, filters, search)
      == Discovered(a, prefix, filters, search) + Discovered(b, prefix, filters, search)
    decreases |b|
  {
    if |b| == 0 {
      assert a + b == a;
    } else {
      assert (a + b)[..|a + b| - 1] == a + b[..|b| - 1];
      DiscoveredAppend(a, b[..|b| - 1], prefix, filters, search);
    }
  }

  /** A function is discovered exactly when some entry binds it under a key
      with the prefix that the filter keeps. */
  lemma {:induction false} DiscoveredMembers(namespace: seq<Binding>, prefix: string,
                                             filters: Option<seq<string>>, search: (string, string) -> bool,
                                             f: BenchFunction)
    ensures f in Discovered(namespace, prefix, filters, search)
      <==> exists i :: 0 <= i < |namespace| && namespace[i].value == Function(f)
                       && Selected(namespace[i], prefix, filters, search)
    decreases |namespace|
  {
    if |namespace| > 0 {
      var n := |namespace| - 1;
      DiscoveredMembers(namespace[..n], prefix, filters, search, f);
      if f in Discovered(namespace, prefix, filters, search) {
        if f !in Discovered(namespace[..n], prefix, filters, search) {
          assert namespace[n].value == Function(f) && Selected(namespace[n], prefix, filters, search);
        } else {
          var i :| 0 <= i < n && namespace[..n][i].value == Function(f)
                   && Selected(namespace[..n][i], prefix, filters, search);
          assert namespace[i] == namespace[..n][i];
        }
      } else {
        forall i | 0 <= i < |namespace| && namespace[i].value == Function(f)
          ensures !Selected(namespace[i], prefix, filters, search)
        {
          if i < n {
            assert namespace[i] == namespace[..n][i];
          }
        }
      }
    }
  }

  /** An empty filter list keeps the same functions as no filter at all. */
  lemma {:induction false} EmptyFiltersKeepAll(namespace: seq<Binding>, prefix: string,
                                              search: (string, string) -> bool, search': (string, string) -> bool)
    ensures Discovered(namespace, prefix, Some([]), search) == Discovered(namespace, prefix, None, search')
    decreases |namespace|
  {
    if |namespace| > 0 {
      EmptyFiltersKeepAll(namespace[..|namespace| - 1], prefix, search, search');
    }
  }

  /** When searching for the joined pattern finds exactly what some single
      pattern finds (as regular-expression alternation does), the filter
      keeps a key exactly when one of the patterns matches it. */
  lemma KeepIsDisjunction(filters: seq<string>, search: (string, string) -> bool, key: string)
    requires |filters| > 0
    requires search(Join(filters, "|"), key) <==> exists p :: p in filters && search(p, key)
    ensures Keep(Some(filters), search, key) <==> exists i :: 0 <= i < |filters| && search(filters[i], key)
  {
    if Keep(Some(filters), search, key) {
      var p :| p in filters && search(p, key);
      var i :| 0 <= i < |filters| && filters[i] == p;
    }
  }

  /** A single pattern is searched on its own: joining one pattern adds
      no `|`, so the filter keeps a key exactly when that pattern matches. */
  lemma KeepSinglePattern(p: string, search: (string, string) -> bool, key: string)
    ensures Keep(Some([p]), search, key) == search(p, key)
    ensures Join([p], "|") == p
  {
  }

  /** `filters=None` falls back to the command-line value. */
  function EffectiveFilters(filters: Option<seq<string>>, runner: Runner): Option<seq<string>> {
    if filters.None? then runner.mbFilter else filters
  }

  datatype Plan = Plan(calls: seq<BenchCall>, err: Option<CodeError>)

  /** What `run_benchmark` would do for each function, in order. */
  function Outcomes(fns: seq<BenchFunction>): (r: seq<Result<BenchCall, CodeError>>)
    reads set f | f in fns
    ensures |r| == |fns|
    ensures forall i :: 0 <= i < |fns| ==> r[i] == CallFor(fns[i])
  {
    seq(|fns|, i requires 0 <= i < |fns| reads set f | f in fns => CallFor(fns[i]))
  }

  /** The calls the runner receives for a sequence of outcomes, in order, up
      to the first failure, and that failure's error. */
  function Planned(outcomes: seq<Result<BenchCall, CodeError>>): Plan {
    if |outcomes| == 0 then Plan([], None)
    else
      var before := Planned(outcomes[..|outcomes| - 1]);
      if before.err.Some? then before
      else match outcomes[|outcomes| - 1]
        case Failure(e) => Plan(before.calls, Some(e))
        case Success(call) => Plan(before.calls + [call], None)
  }

  /** One more outcome after a run with no failure so far: a success adds
      its call, a failure stops with its error. */
  lemma PlannedSnoc(outcomes: seq<Result<BenchCall, CodeError>>, i: nat)
    requires i < |outcomes| && Planned(outcomes[..i]).err.None?
    ensures outcomes[i].Success? ==>
      Planned(outcomes[..i + 1]) == Plan(Planned(outcomes[..i]).calls + [outcomes[i].value], None)
    ensures outcomes[i].Failure? ==>
      Planned(outcomes[..i + 1]) == Plan(Planned(outcomes[..i]).calls, Some(outcomes[i].error))
  {
    assert outcomes[..i + 1][..i] == outcomes[..i];
  }

  /** Every call handed over is a successful outcome, in the original
      order, and the error reported is the first failure. */
  lemma {:induction false} PlannedIsPrefix(outcomes: seq<Result<BenchCall, CodeError>>)
    ensures var p := Planned(outcomes);
      && |p.calls| <= |outcomes|
      && (forall i :: 0 <= i < |p.calls| ==> outcomes[i] == Success(p.calls[i]))
      && (p.err.None? ==> |p.calls| == |outcomes|)
      && (p.err.Some? ==> |p.calls| < |outcomes| && outcomes[|p.calls|] == Failure(p.err.value))
    decreases |outcomes|
  {
    if |outcomes| > 0 {
      var n := |outcomes| - 1;
      PlannedIsPrefix(outcomes[..n]);
      var before := Planned(outcomes[..n]);
      forall i | 0 <= i < |before.calls| ensures outcomes[i] == Success(before.calls[i]) {
        assert outcomes[..n][i] == outcomes[i];
      }
      if before.err.Some? {
        assert outcomes[..n][|before.calls|] == outcomes[|before.calls|];
      }
    }
  }

  /** Once a benchmark fails, nothing after it is planned. */
  lemma {:induction false} PlannedStops(outcomes: seq<Result<BenchCall, CodeError>>, k: nat)
    requires k <= |outcomes| && Planned(outcomes[..k]).err.Some?
    ensures Planned(outcomes) == Planned(outcomes[..k])
    decreases |outcomes| - k
  {
    if k < |outcomes| {
      var n := |outcomes| - 1;
      assert outcomes[..n][..k] == outcomes[..k];
      PlannedStops(outcomes[..n], k);
    } else {
      assert outcomes[..k] == outcomes;
    }
  }

  /** `run(namespace, prefix, filters)` on an already created runner: every
      discovered benchmark, in namespace order, is handed to the runner,
      until the first one whose code cannot be generated or compiled; that
      error escapes `run`. */
  method Run(runner: Runner, namespace: seq<Binding>, prefix: string, filters: Option<seq<string>>,
             search: (string, string) -> bool)
    returns (err: Option<CodeError>)
    modifies runner
    ensures runner.calls == old(runner.calls)
      + Planned(Outcomes(Discovered(namespace, prefix, EffectiveFilters(filters, runner), search))).calls
    ensures err == Planned(Outcomes(Discovered(namespace, prefix, EffectiveFilters(filters, runner), search))).err
  {
    var effective := filters;
    if filters.None? {
      effective := runner.mbFilter;
    }
    var benchmarks := Discover(namespace, prefix, effective, search);
    err := RunAll(runner, benchmarks);
  }

  /** The `for fct in benchmarks: run_benchmark(runner, fct)` loop of `run`. */
  method RunAll(runner: Runner, benchmarks: seq<BenchFunction>) returns (err: Option<CodeError>)
    modifies runner
    ensures runner.calls == old(runner.calls) + Planned(old(Outcomes(benchmarks))).calls
    ensures err == Planned(old(Outcomes(benchmarks))).err
  {
    ghost var outcomes := Outcomes(benchmarks);
    ghost var start := runner.calls;
    err := None;
    for i := 0 to |benchmarks|
      invariant outcomes == old(Outcomes(benchmarks))
      invariant runner.calls == start + Planned(outcomes[..i]).calls
      invariant Planned(outcomes[..i]).err == None && err == None
    {
      err := RunNext(runner, benchmarks[i], outcomes[i]);
      PlannedSnoc(outcomes, i);
      if err.Some? {
        PlannedStops(outcomes, i + 1);
        return;
      }
      CallsAppend(start, Planned(outcomes[..i]).calls, outcomes[i].value);
    }
    assert outcomes[..|benchmarks|] == outcomes;
  }

  lemma CallsAppend(start: seq<BenchCall>, before: seq<BenchCall>, call: BenchCall)
    ensures start + before + [call] == start + (before + [call])
  {
  }

  /** One pass of that loop, for a function whose outcome is known. */
  method RunNext(runner: Runner, fct: BenchFunction, ghost outcome: Result<BenchCall, CodeError>)
    returns (err: Option<CodeError>)
    requires outcome == CallFor(fct)
    modifies runner
    ensures outcome.Success? ==> err == None && runner.calls == old(runner.calls) + [outcome.value]
    ensures outcome.Failure? ==> err == Some(outcome.error) && runner.calls == old(runner.calls)
  {
    err := RunBenchmark(runner, fct);
  }

  /** The command line that a worker process is started with. */
  class CommandLine {
    var argv: seq<string>

    constructor (argv: seq<string>)
      ensures this.argv == argv
    {
      this.argv := argv;
    }
  }

  /** The arguments `worker_add_cmdline_args` appends for a filter value. */
  function FilterArgs(mbFilter: Option<seq<string>>): seq<string> {
    if mbFilter.Some? && |mbFilter.value| > 0 then ["--mb-filter"] + mbFilter.value else []
  }

  /** `worker_add_cmdline_args(cmd, args)`: extends `cmd` in place, and only
      when the filter list is non-empty. */
  method WorkerAddCmdlineArgs(cmd: CommandLine, mbFilter: Option<seq<string>>)
    modifies cmd
    ensures cmd.argv == old(cmd.argv) + FilterArgs(mbFilter)
  {
    if mbFilter.Some? && |mbFilter.value| > 0 {
      cmd.argv := cmd.argv + ["--mb-filter"] + mbFilter.value;
    }
  }

  /** The filter a worker reads back from the appended arguments when the
      values after `--mb-filter` are taken as its patterns. */
  function FilterFromArgs(args: seq<string>): Option<seq<string>> {
    if |args| > 0 && args[0] == "--mb-filter" then Some(args[1..]) else None
  }

  /** Filtering is consistent across launches: a worker that reads its
      filter back from the propagated arguments keeps the same keys. */
  lemma WorkerFilterAgrees(mbFilter: Option<seq<string>>, search: (string, string) -> bool, key: string)
    ensures Keep(FilterFromArgs(FilterArgs(mbFilter)), search, key) == Keep(mbFilter, search, key)
    ensures FilterArgs(mbFilter) != [] ==> FilterFromArgs(FilterArgs(mbFilter)) == mbFilter
  {
    if mbFilter.Some? && |mbFilter.value| > 0 {
      assert (["--mb-filter"] + mbFilter.value)[1..] == mbFilter.value;
    }
  }
}
