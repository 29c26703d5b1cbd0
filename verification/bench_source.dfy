/** The text side of `benchmark_code` in micro_benchmark.py: how a benchmark
    function's source lines become the `init`/`bench`/`verify` sections and
    how the sections fill PERF_TEMPLATE. Lines are Python source lines as
    `inspect.getsourcelines` yields them, each with its own line terminator. */
module BenchSource {
  import opened Text

  /** DEFAULT_ITERATIONS: copies of the bench section when none is configured. */
  const DefaultIterations: int := 20

  /** The ways `benchmark_code` fails before producing any text. */
  datatype CodeError =
    | IndexError                    // `lines[0]` on a list emptied by the decorator loop
    | MissingDef                    // `assert lines[0].startswith('def')`
    | ExtraCode(junk: seq<string>)  // `assert len(junk) == 0`, with the offending lines
    | EmptyLoopBody                 // `compile`: IndentationError, `for _ in loops:` has no indented block

  // ---------------------------------------------------------------------
  // Decorators and the `def` line

  /** The lines that remain once the leading lines starting with `@` are gone. */
  function DropDecorators(lines: seq<string>): (r: seq<string>)
    ensures |r| <= |lines| && r == lines[|lines| - |r|..]
    ensures forall i :: 0 <= i < |lines| - |r| ==> StartsWith(lines[i], "@")
    ensures r == [] || !StartsWith(r[0], "@")
  {
    if |lines| > 0 && StartsWith(lines[0], "@") then DropDecorators(lines[1..]) else lines
  }

  /** The function body: decorators and the `def` line removed, or the error
      the source raises when no `def` line follows the decorators. */
  function StripHeader(lines: seq<string>): Result<seq<string>, CodeError> {
    var rest := DropDecorators(lines);
    if |rest| == 0 then Failure(IndexError)
    else if !StartsWith(rest[0], "def") then Failure(MissingDef)
    else Success(rest[1..])
  }

  // ---------------------------------------------------------------------
  // Blank lines and indentation

  /** `[line for line in lines if line.strip()]` */
  function DropBlank(lines: seq<string>): (r: seq<string>)
    ensures |r| <= |lines|
  {
    if |lines| == 0 then []
    else (if IsBlank(lines[0]) then [] else [lines[0]]) + DropBlank(lines[1..])
  }

  /** A line survives exactly when it is in the input and not blank. */
  lemma {:induction false} DropBlankMembers(lines: seq<string>)
    ensures forall l :: l in DropBlank(lines) <==> l in lines && !IsBlank(l)
    decreases |lines|
  {
    if |lines| > 0 {
      DropBlankMembers(lines[1..]);
      assert lines == [lines[0]] + lines[1..];
    }
  }

  /** The comprehension keeps order and multiplicity: it filters each line
      on its own, and filtering a concatenation concatenates the results. */
  lemma {:induction false} DropBlankIsFilter(a: seq<string>, b: seq<string>, line: string)
    ensures DropBlank(a + b) == DropBlank(a) + DropBlank(b)
    ensures DropBlank([line]) == if IsBlank(line) then [] else [line]
    decreases |a|
  {
    if |a| > 0 {
      assert (a + b)[1..] == a[1..] + b;
      DropBlankIsFilter(a[1..], b, line);
    } else {
      assert a + b == b;
    }
    assert [line][1..] == [];
  }

  predicate IsIndentChar(c: char) {
    c == ' ' || c == '\t'
  }

  /** The leading run of spaces and tabs that textwrap.dedent treats as a line's indentation. */
  function Indentation(line: string): (r: string)
    ensures |r| <= |line| && r == line[..|r|]
    ensures forall i :: 0 <= i < |r| ==> IsIndentChar(r[i])
    ensures |r| == |line| || !IsIndentChar(line[|r|])
  {
    if |line| > 0 && IsIndentChar(line[0]) then [line[0]] + Indentation(line[1..]) else []
  }

  /** The longest common prefix of two strings. */
  function CommonPrefix(a: string, b: string): (r: string)
    ensures |r| <= |a| && |r| <= |b| && r == a[..|r|] && r == b[..|r|]
    ensures |r| == |a| || |r| == |b| || a[|r|] != b[|r|]
  {
    if |a| > 0 && |b| > 0 && a[0] == b[0] then [a[0]] + CommonPrefix(a[1..], b[1..]) else []
  }

  /** The margin textwrap.dedent removes: the longest common prefix of the lines' indentations. */
  function Margin(lines: seq<string>): string {
    if |lines| == 0 then []
    else if |lines| == 1 then Indentation(lines[0])
    else CommonPrefix(Indentation(lines[0]), Margin(lines[1..]))
  }

  lemma {:induction false} MarginIsCommon(lines: seq<string>, i: nat)
    requires i < |lines|
    ensures StartsWith(Indentation(lines[i]), Margin(lines))
  {
    if |lines| > 1 && i > 0 {
      MarginIsCommon(lines[1..], i - 1);
    }
  }

  /** The margin is the greatest common prefix: every prefix shared by all
      indentations is a prefix of it. */
  lemma {:induction false} MarginIsGreatest(lines: seq<string>, p: string)
    requires |lines| > 0
    requires forall i :: 0 <= i < |lines| ==> StartsWith(Indentation(lines[i]), p)
    ensures StartsWith(Margin(lines), p)
  {
    if |lines| > 1 {
      MarginIsGreatest(lines[1..], p);
    }
  }

  lemma MarginIsCommonToAll(lines: seq<string>)
    ensures forall i :: 0 <= i < |lines| ==> StartsWith(Indentation(lines[i]), Margin(lines))
  {
    forall i | 0 <= i < |lines| ensures StartsWith(Indentation(lines[i]), Margin(lines)) {
      MarginIsCommon(lines, i);
    }
  }

  /** `textwrap.dedent(''.join(lines)).splitlines(keepends=True)` on lines
      that are not blank: every line loses the common margin. */
  function Dedent(lines: seq<string>): (r: seq<string>)
    ensures |r| == |lines|
    ensures forall i :: 0 <= i < |lines| ==> lines[i] == Margin(lines) + r[i]
  {
    var m := Margin(lines);
    MarginIsCommonToAll(lines);
    seq(|lines|, i requires 0 <= i < |lines| => lines[i][|m|..])
  }

  // ---------------------------------------------------------------------
  // Sections

  datatype Section = Junk | Init | Bench | Verify

  /** The section a marker line switches to; a prefix match is enough. */
  function MarkerOf(line: string): (r: Option<Section>)
    ensures r != Some(Junk)
  {
    if StartsWith(line, "# Init") then Some(Init)
    else if StartsWith(line, "# Bench") then Some(Bench)
    else if StartsWith(line, "# Verify") then Some(Verify)
    else None
  }

  /** The four lists `init`, `bench`, `verify`, `junk` that the loop fills. */
  datatype Sections = Sections(init: seq<string>, bench: seq<string>, verify: seq<string>, junk: seq<string>)
  {
    function Get(s: Section): seq<string> {
      match s
      case Init => init
      case Bench => bench
      case Verify => verify
      case Junk => junk
    }

    /** `add_to.append(line)` with `add_to` aliasing the list of section `s`. */
    function Add(s: Section, line: string): (r: Sections)
      ensures r.Get(s) == Get(s) + [line]
      ensures forall t :: t != s ==> r.Get(t) == Get(t)
    {
      match s
      case Init => this.(init := init + [line])
      case Bench => this.(bench := bench + [line])
      case Verify => this.(verify := verify + [line])
      case Junk => this.(junk := junk + [line])
    }

    /** Section-wise concatenation. */
    function Append(other: Sections): Sections {
      Sections(init + other.init, bench + other.bench, verify + other.verify, junk + other.junk)
    }
  }

  lemma AppendAssociative(x: Sections, y: Sections, z: Sections)
    ensures x.Append(y).Append(z) == x.Append(y.Append(z))
  {
  }

  const NoSections := Sections([], [], [], [])

  /** Only the lines of `lines` go to section `s`. */
  function Single(s: Section, lines: seq<string>): (r: Sections)
    ensures r.Get(s) == lines && forall t :: t != s ==> r.Get(t) == []
  {
    match s
    case Init => NoSections.(init := lines)
    case Bench => NoSections.(bench := lines)
    case Verify => NoSections.(verify := lines)
    case Junk => NoSections.(junk := lines)
  }

  /** Where the classification loop sends `lines` when `add_to` starts at `target`. */
  function Route(lines: seq<string>, target: Section): Sections
    decreases |lines|
  {
    if |lines| == 0 then NoSections
    else match MarkerOf(lines[0])
      case Some(s) => Route(lines[1..], s)
      case None => Single(target, [lines[0]]).Append(Route(lines[1..], target))
  }

  /** The section `add_to` points at after the loop has seen `lines`. */
  function TargetAfter(lines: seq<string>, target: Section): Section
    decreases |lines|
  {
    if |lines| == 0 then target
    else match MarkerOf(lines[0])
      case Some(s) => TargetAfter(lines[1..], s)
      case None => TargetAfter(lines[1..], target)
  }

  /** Every line is handled once and in order: routing a concatenation is
      routing the first part, then the second part from wherever `add_to`
      was left. A repeated marker therefore appends to its list again. */
  lemma {:induction false} RouteAppend(a: seq<string>, b: seq<string>, target: Section)
    ensures Route(a + b, target) == Route(a, target).Append(Route(b, TargetAfter(a, target)))
    decreases |a|
  {
    if |a| == 0 {
      assert a + b == b;
    } else {
      assert (a + b)[1..] == a[1..] + b;
      var t' := TargetAfter(a, target);
      match MarkerOf(a[0])
      case Some(s) =>
        RouteAppend(a[1..], b, s);
      case None =>
        RouteAppend(a[1..], b, target);
        var head := Single(target, [a[0]]);
        calc {
          Route(a + b, target);
          head.Append(Route(a[1..] + b, target));
          head.Append(Route(a[1..], target).Append(Route(b, t')));
          { AppendAssociative(head, Route(a[1..], target), Route(b, t')); }
          head.Append(Route(a[1..], target)).Append(Route(b, t'));
          Route(a, target).Append(Route(b, t'));
        }
    }
  }

  lemma {:induction false} TargetAfterAppend(a: seq<string>, b: seq<string>, target: Section)
    ensures TargetAfter(a + b, target) == TargetAfter(b, TargetAfter(a, target))
    decreases |a|
  {
    if |a| == 0 {
      assert a + b == b;
    } else {
      assert (a + b)[1..] == a[1..] + b;
      match MarkerOf(a[0])
      case Some(s) => TargetAfterAppend(a[1..], b, s);
      case None => TargetAfterAppend(a[1..], b, target);
    }
  }

  /** The lines that are not markers, in order. */
  function Content(lines: seq<string>): (r: seq<string>)
    ensures |r| <= |lines|
  {
    if |lines| == 0 then []
    else (if MarkerOf(lines[0]).Some? then [] else [lines[0]]) + Content(lines[1..])
  }

  /** Nothing is lost or invented: the four lists hold exactly the non-marker lines. */
  lemma {:induction false} RoutePartitions(lines: seq<string>, target: Section)
    ensures var r := Route(lines, target);
      multiset(r.init) + multiset(r.bench) + multiset(r.verify) + multiset(r.junk)
        == multiset(Content(lines))
    decreases |lines|
  {
    if |lines| > 0 {
      match MarkerOf(lines[0])
      case Some(s) =>
        RoutePartitions(lines[1..], s);
      case None =>
        RoutePartitions(lines[1..], target);
    }
  }

  /** Once a marker has been seen nothing goes to `junk` any more. */
  lemma {:induction false} NoJunkAfterMarker(lines: seq<string>, target: Section)
    requires target != Junk
    ensures Route(lines, target).junk == []
    decreases |lines|
  {
    if |lines| > 0 {
      match MarkerOf(lines[0])
      case Some(s) =>
        NoJunkAfterMarker(lines[1..], s);
      case None =>
        NoJunkAfterMarker(lines[1..], target);
    }
  }

  /** The index of the first marker line, or |lines| when there is none. */
  function FirstMarker(lines: seq<string>): (k: nat)
    ensures k <= |lines|
    ensures forall i :: 0 <= i < k ==> MarkerOf(lines[i]).None?
    ensures k < |lines| ==> MarkerOf(lines[k]).Some?
  {
    if |lines| == 0 || MarkerOf(lines[0]).Some? then 0 else 1 + FirstMarker(lines[1..])
  }

  /** `junk` is exactly the lines before the first marker. */
  lemma {:induction false} JunkIsLeadingLines(lines: seq<string>)
    ensures Route(lines, Junk).junk == lines[..FirstMarker(lines)]
    decreases |lines|
  {
    if |lines| > 0 {
      match MarkerOf(lines[0])
      case Some(s) =>
        NoJunkAfterMarker(lines[1..], s);
      case None =>
        JunkIsLeadingLines(lines[1..]);
        assert lines[..FirstMarker(lines)] == [lines[0]] + lines[1..][..FirstMarker(lines[1..])];
    }
  }

  predicate NoMarkers(lines: seq<string>) {
    forall i :: 0 <= i < |lines| ==> MarkerOf(lines[i]).None?
  }

  /** Lines without markers all go to the current target. */
  lemma {:induction false} RouteWithoutMarkers(lines: seq<string>, target: Section)
    requires NoMarkers(lines)
    ensures Route(lines, target) == Single(target, lines)
    ensures TargetAfter(lines, target) == target
    decreases |lines|
  {
    if |lines| > 0 {
      RouteWithoutMarkers(lines[1..], target);
      assert [lines[0]] + lines[1..] == lines;
    }
  }

  lemma MarkerLines()
    ensures MarkerOf("# Init\n") == Some(Init)
    ensures MarkerOf("# Bench\n") == Some(Bench)
    ensures MarkerOf("# Verify\n") == Some(Verify)
  {
    assert "# Bench\n"[2] == 'B' && "# Verify\n"[2] == 'V';
    assert !StartsWith("# Bench\n", "# Init");
    assert !StartsWith("# Verify\n", "# Init") && !StartsWith("# Verify\n", "# Bench");
  }

  /** A marker line followed by lines without markers: they all go to its section. */
  lemma MarkerRoute(lines: seq<string>, rest: seq<string>, s: Section)
    requires |lines| > 0 && MarkerOf(lines[0]) == Some(s) && lines[1..] == rest && NoMarkers(rest)
    ensures forall t :: Route(lines, t) == Single(s, rest) && TargetAfter(lines, t) == s
  {
    RouteWithoutMarkers(rest, s);
  }

  /** A body laid out in the documented shape: `# Init`, `# Bench`, `# Verify`. */
  function Layout(init: seq<string>, bench: seq<string>, verify: seq<string>): seq<string> {
    ["# Init\n"] + init + ["# Bench\n"] + bench + ["# Verify\n"] + verify
  }

  /** Routing a laid-out body gives back its three sections and no junk. */
  lemma RouteLayout(init: seq<string>, bench: seq<string>, verify: seq<string>)
    requires NoMarkers(init) && NoMarkers(bench) && NoMarkers(verify)
    ensures Route(Layout(init, bench, verify), Junk) == Sections(init, bench, verify, [])
  {
    var a, rest := ["# Init\n"] + init, ["# Bench\n"] + bench + ["# Verify\n"] + verify;
    assert Layout(init, bench, verify) == a + rest;
    MarkerLines();
    assert a[0] == "# Init\n" && a[1..] == init;
    MarkerRoute(a, init, Init);
    RouteBenchVerify(bench, verify);
    RouteAppend(a, rest, Junk);
    assert Route(a + rest, Junk) == Single(Init, init).Append(Sections([], bench, verify, []));
  }

  /** The `# Bench` and `# Verify` part of the layout, routed from `init`. */
  lemma RouteBenchVerify(bench: seq<string>, verify: seq<string>)
    requires NoMarkers(bench) && NoMarkers(verify)
    ensures Route(["# Bench\n"] + bench + ["# Verify\n"] + verify, Init) == Sections([], bench, verify, [])
  {
    var b, c := ["# Bench\n"] + bench, ["# Verify\n"] + verify;
    assert ["# Bench\n"] + bench + ["# Verify\n"] + verify == b + c;
    MarkerLines();
    assert b[0] == "# Bench\n" && b[1..] == bench;
    assert c[0] == "# Verify\n" && c[1..] == verify;
    MarkerRoute(b, bench, Bench);
    MarkerRoute(c, verify, Verify);
    RouteAppend(b, c, Init);
    assert Route(b + c, Init) == Single(Bench, bench).Append(Single(Verify, verify));
  }

  // ---------------------------------------------------------------------
  // The whole extraction

  /** Source lines to sections: header removed, blank lines dropped,
      dedented, routed, and refused when any line precedes the first marker. */
  function Extract(lines: seq<string>): Result<Sections, CodeError> {
    match StripHeader(lines)
    case Failure(e) => Failure(e)
    case Success(body) =>
      var s := Route(Dedent(DropBlank(body)), Junk);
      if |s.junk| != 0 then Failure(ExtraCode(s.junk)) else Success(s)
  }

  /** The dedented body lines that `Extract` classifies. */
  function BodyLines(lines: seq<string>): seq<string>
    requires StripHeader(lines).Success?
  {
    Dedent(DropBlank(StripHeader(lines).value))
  }

  /** Extraction fails on a well-headed definition exactly when its first
      dedented line is not a marker, and the failure lists the lines before
      the first marker. */
  lemma ExtractRejectsLeadingCode(lines: seq<string>)
    requires StripHeader(lines).Success?
    ensures var d := BodyLines(lines);
      && (Extract(lines).Failure? <==> |d| > 0 && MarkerOf(d[0]).None?)
      && (Extract(lines).Failure? ==> Extract(lines).error == ExtraCode(d[..FirstMarker(d)]))
  {
    JunkIsLeadingLines(BodyLines(lines));
  }

  /** `lines` with each line indented by four spaces, as in a function body. */
  function Indented(lines: seq<string>): (r: seq<string>)
    ensures |r| == |lines| && forall i :: 0 <= i < |lines| ==> r[i] == "    " + lines[i]
  {
    seq(|lines|, i requires 0 <= i < |lines| => "    " + lines[i])
  }

  /** The source of a benchmark function with the given decorators and name
      whose body is laid out in the documented shape. */
  function Definition(decorators: seq<string>, name: string,
                      init: seq<string>, bench: seq<string>, verify: seq<string>): seq<string>
  {
    decorators + ["def " + name + "():\n"] + Indented(Layout(init, bench, verify))
  }

  predicate PlainLines(lines: seq<string>) {
    forall i :: 0 <= i < |lines| ==> !IsBlank(lines[i]) && MarkerOf(lines[i]).None?
  }

  lemma {:induction false} DropDecoratorsPrefix(decorators: seq<string>, rest: seq<string>)
    requires forall i :: 0 <= i < |decorators| ==> StartsWith(decorators[i], "@")
    requires |rest| > 0 && !StartsWith(rest[0], "@")
    ensures DropDecorators(decorators + rest) == rest
    decreases |decorators|
  {
    if |decorators| == 0 {
      assert decorators + rest == rest;
    } else {
      assert (decorators + rest)[0] == decorators[0];
      assert (decorators + rest)[1..] == decorators[1..] + rest;
      DropDecoratorsPrefix(decorators[1..], rest);
    }
  }

  lemma {:induction false} DropBlankKeepsNonBlank(lines: seq<string>)
    requires forall i :: 0 <= i < |lines| ==> !IsBlank(lines[i])
    ensures DropBlank(lines) == lines
    decreases |lines|
  {
    if |lines| > 0 {
      DropBlankKeepsNonBlank(lines[1..]);
      assert [lines[0]] + lines[1..] == lines;
    }
  }

  lemma {:induction false} IndentationOfIndented(p: string, l: string)
    requires forall i :: 0 <= i < |p| ==> IsIndentChar(p[i])
    ensures Indentation(p + l) == p + Indentation(l)
    decreases |p|
  {
    if |p| > 0 {
      assert (p + l)[1..] == p[1..] + l;
      IndentationOfIndented(p[1..], l);
    } else {
      assert p + l == l;
    }
  }

  lemma HeaderOfDefinition(decorators: seq<string>, name: string, body: seq<string>)
    requires forall i :: 0 <= i < |decorators| ==> StartsWith(decorators[i], "@")
    ensures StripHeader(decorators + ["def " + name + "():\n"] + body) == Success(body)
  {
    var defLine := "def " + name + "():\n";
    assert decorators + [defLine] + body == decorators + ([defLine] + body);
    assert defLine[0] == 'd' && defLine[1] == 'e' && defLine[2] == 'f';
    assert defLine[..3] == "def" && defLine[..1] != "@";
    DropDecoratorsPrefix(decorators, [defLine] + body);
  }

  lemma LayoutNotBlank(init: seq<string>, bench: seq<string>, verify: seq<string>)
    requires PlainLines(init) && PlainLines(bench) && PlainLines(verify)
    ensures var lay := Layout(init, bench, verify);
      forall i :: 0 <= i < |lay| ==> !IsBlank(lay[i])
  {
    var lay := Layout(init, bench, verify);
    forall i | 0 <= i < |lay|
      ensures !IsBlank(lay[i])
    {
      if i == 0 {
        assert !IsSpace(lay[i][0]);
      } else if 0 < i <= |init| {
        assert lay[i] == init[i - 1];
      } else if i == |init| + 1 {
        assert !IsSpace(lay[i][0]);
      } else if |init| + 1 < i <= |init| + 1 + |bench| {
        assert lay[i] == bench[i - |init| - 2];
      } else if i == |init| + |bench| + 2 {
        assert !IsSpace(lay[i][0]);
      } else {
        assert lay[i] == verify[i - |init| - |bench| - 3];
      }
    }
  }

  /** Indenting non-blank lines whose first line starts at column zero by
      four spaces, then dedenting, gives the lines back. */
  lemma DedentIndented(lines: seq<string>)
    requires |lines| > 0 && Indentation(lines[0]) == []
    requires forall i :: 0 <= i < |lines| ==> !IsBlank(lines[i])
    ensures Dedent(DropBlank(Indented(lines))) == lines
  {
    var body := Indented(lines);
    forall i | 0 <= i < |body|
      ensures !IsBlank(body[i])
      ensures StartsWith(Indentation(body[i]), "    ")
    {
      IndentationOfIndented("    ", lines[i]);
      var k :| 0 <= k < |lines[i]| && !IsSpace(lines[i][k]);
      assert body[i][k + 4] == lines[i][k];
    }
    DropBlankKeepsNonBlank(body);
    MarginIsGreatest(body, "    ");
    IndentationOfIndented("    ", lines[0]);
    MarginIsCommon(body, 0);
    assert Margin(body) == "    ";
    var d := Dedent(body);
    forall i | 0 <= i < |lines| ensures d[i] == lines[i] {
      assert body[i] == "    " + d[i];
    }
  }

  /** Section completeness: a definition laid out as documented (any
      decorators, a `def` line, then the three marked sections, indented)
      extracts to exactly its three sections. */
  lemma ExtractDefinition(decorators: seq<string>, name: string,
                          init: seq<string>, bench: seq<string>, verify: seq<string>)
    requires forall i :: 0 <= i < |decorators| ==> StartsWith(decorators[i], "@")
    requires PlainLines(init) && PlainLines(bench) && PlainLines(verify)
    ensures Extract(Definition(decorators, name, init, bench, verify)) == Success(Sections(init, bench, verify, []))
  {
    var lay := Layout(init, bench, verify);
    HeaderOfDefinition(decorators, name, Indented(lay));
    LayoutNotBlank(init, bench, verify);
    assert lay[0] == "# Init\n";
    DedentIndented(lay);
    RouteLayout(init, bench, verify);
  }

  // ---------------------------------------------------------------------
  // PERF_TEMPLATE

  /** `lines * n`: the list repeated n times, empty when n <= 0. */
  function Repeat<T>(s: seq<T>, n: int): seq<T>
    decreases n
  {
    if n <= 0 then [] else Repeat(s, n - 1) + s
  }

  lemma {:induction false} RepeatAdd<T>(s: seq<T>, m: nat, n: nat)
    ensures Repeat(s, m + n) == Repeat(s, m) + Repeat(s, n)
    decreases n
  {
    if n == 0 {
      assert Repeat(s, m) + [] == Repeat(s, m);
    } else {
      RepeatAdd(s, m, n - 1);
    }
  }

  /** Pass k of the repetition is the whole block, after k earlier passes
      of k * |s| elements. */
  lemma RepeatPasses<T>(s: seq<T>, n: nat, k: nat)
    requires k < n
    ensures Repeat(s, n) == Repeat(s, k) + s + Repeat(s, n - 1 - k)
    ensures |Repeat(s, k)| == k * |s|
  {
    RepeatAdd(s, k + 1, n - 1 - k);
    RepeatLength(s, k);
  }

  lemma {:induction false} RepeatLength<T>(s: seq<T>, n: nat)
    ensures |Repeat(s, n)| == n * |s|
    decreases n
  {
    if n > 0 {
      RepeatLength(s, n - 1);
    }
  }

  /** `''.join(f'{prefix}{line}' for line in lines)` */
  function IndentLines(prefix: string, lines: seq<string>): string {
    if |lines| == 0 then []
    else IndentLines(prefix, lines[..|lines| - 1]) + prefix + lines[|lines| - 1]
  }

  lemma {:induction false} IndentLinesAppend(prefix: string, a: seq<string>, b: seq<string>)
    ensures IndentLines(prefix, a + b) == IndentLines(prefix, a) + IndentLines(prefix, b)
    decreases |b|
  {
    if |b| == 0 {
      assert a + b == a;
    } else {
      assert (a + b)[..|a + b| - 1] == a + b[..|b| - 1];
      IndentLinesAppend(prefix, a, b[..|b| - 1]);
    }
  }

  /** Indenting the repeated bench list is repeating the indented bench block:
      the loop body is the bench block, in order, `iterations` times. */
  lemma {:induction false} IndentRepeat(prefix: string, bench: seq<string>, n: int)
    ensures IndentLines(prefix, Repeat(bench, n)) == Repeat(IndentLines(prefix, bench), n)
    decreases n
  {
    if n > 0 {
      IndentRepeat(prefix, bench, n - 1);
      IndentLinesAppend(prefix, Repeat(bench, n - 1), bench);
    }
  }

  /** PERF_TEMPLATE with its three holes filled by already formatted text. */
  function PerfText(defName: string, initCode: string, loopBody: string, verifyCode: string): string {
    "def " + defName + "(iterations):\n"
    + "    loops = range(iterations)\n"
    + "    counter = pyperf.perf_counter\n"
    + "    t0 = counter()\n"
    + initCode + "\n"
    + "    for _ in loops:\n"
    + loopBody + "\n"
    + "    t1 = counter()\n"
    + verifyCode + "\n"
    + "    return t1 - t0\n"
  }

  /** The loop body text: the bench list repeated `iterations` times,
      indented by eight spaces and right-stripped. */
  function LoopBody(s: Sections, iterations: int): string {
    RStrip(IndentLines("        ", Repeat(s.bench, iterations)))
  }

  /** The generated text opens with the `def` line naming the function. */
  lemma PerfTextStartsWithDef(defName: string, initCode: string, loopBody: string, verifyCode: string)
    ensures StartsWith(PerfText(defName, initCode, loopBody, verifyCode), "def " + defName + "(iterations):\n")
  {
    var head := "def " + defName + "(iterations):\n";
    var text := PerfText(defName, initCode, loopBody, verifyCode);
    assert text == head + text[|head|..];
  }

  /** The `PERF_TEMPLATE.format(...)` call: init lines indented by four
      spaces, the bench list repeated `iterations` times and indented by
      eight, verify lines by four, each part right-stripped. */
  function PerfCode(defName: string, s: Sections, iterations: int): string {
    PerfText(defName,
             RStrip(IndentLines("    ", s.init)),
             LoopBody(s, iterations),
             RStrip(IndentLines("    ", s.verify)))
  }

  /** The generated function: init once, the indented bench block
      concatenated `iterations` times as the loop body, verify once. */
  lemma PerfCodeShape(defName: string, s: Sections, iterations: int)
    ensures PerfCode(defName, s, iterations)
      == PerfText(defName,
                  RStrip(IndentLines("    ", s.init)),
                  RStrip(Repeat(IndentLines("        ", s.bench), iterations)),
                  RStrip(IndentLines("    ", s.verify)))
  {
    IndentRepeat("        ", s.bench, iterations);
  }

  /** With no iterations the loop body is empty whatever the bench section holds. */
  lemma PerfCodeNoIterations(defName: string, s: Sections, iterations: int)
    requires iterations <= 0
    ensures PerfCode(defName, s, iterations)
      == PerfText(defName, RStrip(IndentLines("    ", s.init)), "", RStrip(IndentLines("    ", s.verify)))
  {
  }

  /** The generated text for a definition, or why there is none. */
  function GeneratedCode(defName: string, lines: seq<string>, iterations: int): Result<string, CodeError> {
    match Extract(lines)
    case Failure(e) => Failure(e)
    case Success(s) => Success(PerfCode(defName, s, iterations))
  }

  // ---------------------------------------------------------------------
  // compile

  /** The generated text after `compile` in `benchmark_function`, as far
      as the template itself decides it: an empty loop body leaves
      `for _ in loops:` without an indented block. */
  function CompiledCode(defName: string, lines: seq<string>, iterations: int): Result<string, CodeError> {
    match Extract(lines)
    case Failure(e) => Failure(e)
    case Success(s) =>
      if LoopBody(s, iterations) == [] then Failure(EmptyLoopBody) else Success(PerfCode(defName, s, iterations))
  }

  /** A line that is not blank stays not blank when a prefix of spaces and
      tabs is removed. */
  lemma DedentKeepsNotBlank(lines: seq<string>)
    requires forall l :: l in lines ==> !IsBlank(l)
    ensures forall i :: 0 <= i < |lines| ==> !IsBlank(Dedent(lines)[i])
  {
    var m := Margin(lines);
    forall i | 0 <= i < |lines| ensures !IsBlank(Dedent(lines)[i]) {
      MarginIsCommon(lines, i);
      var line, rest := lines[i], Dedent(lines)[i];
      assert line == m + rest;
      assert Indentation(line)[..|m|] == m;
      assert !IsBlank(line);
      var k :| 0 <= k < |line| && !IsSpace(line[k]);
      assert rest[k - |m|] == line[k];
    }
  }

  /** Routing only moves lines: lines none of which is blank give a bench
      list none of whose lines is blank. */
  lemma {:induction false} RouteKeepsNotBlank(lines: seq<string>, target: Section)
    requires forall i :: 0 <= i < |lines| ==> !IsBlank(lines[i])
    ensures forall l :: l in Route(lines, target).bench ==> !IsBlank(l)
    decreases |lines|
  {
    if |lines| > 0 {
      match MarkerOf(lines[0])
      case Some(s) =>
        RouteKeepsNotBlank(lines[1..], s);
      case None =>
        RouteKeepsNotBlank(lines[1..], target);
        assert Route(lines, target).bench
          == Single(target, [lines[0]]).bench + Route(lines[1..], target).bench;
    }
  }

  /** Every bench line of a successful extraction has a character that is
      not whitespace. */
  lemma ExtractedBenchNotBlank(lines: seq<string>)
    requires Extract(lines).Success?
    ensures forall l :: l in Extract(lines).value.bench ==> !IsBlank(l)
  {
    var kept := DropBlank(StripHeader(lines).value);
    DropBlankMembers(StripHeader(lines).value);
    DedentKeepsNotBlank(kept);
    RouteKeepsNotBlank(Dedent(kept), Junk);
  }

  /** Indenting and joining keeps a line that is not blank visible. */
  lemma {:induction false} IndentLinesNotBlank(prefix: string, lines: seq<string>, line: string)
    requires line in lines && !IsBlank(line)
    ensures !IsBlank(IndentLines(prefix, lines))
    decreases |lines|
  {
    var front, last := lines[..|lines| - 1], lines[|lines| - 1];
    var text := IndentLines(prefix, lines);
    assert text == IndentLines(prefix, front) + prefix + last;
    if last == line {
      var k :| 0 <= k < |line| && !IsSpace(line[k]);
      assert text[|IndentLines(prefix, front)| + |prefix| + k] == line[k];
    } else {
      assert lines == front + [last];
      assert line in front;
      IndentLinesNotBlank(prefix, front, line);
      var k :| 0 <= k < |IndentLines(prefix, front)| && !IsSpace(IndentLines(prefix, front)[k]);
      assert text[k] == IndentLines(prefix, front)[k];
    }
  }

  /** `compile` fails on the generated text exactly when the definition
      is extracted but `iterations <= 0` or its bench section is empty;
      otherwise the compiled text is the generated one. */
  lemma CompiledCodeFails(defName: string, lines: seq<string>, iterations: int)
    ensures CompiledCode(defName, lines, iterations)
      == if Extract(lines).Success? && (iterations <= 0 || Extract(lines).value.bench == [])
         then Failure(EmptyLoopBody)
         else GeneratedCode(defName, lines, iterations)
  {
    match Extract(lines)
    case Failure(_) =>
    case Success(s) =>
      if iterations > 0 && s.bench != [] {
        ExtractedBenchNotBlank(lines);
        LoopBodyNotEmpty(s, iterations);
        assert CompiledCode(defName, lines, iterations) == Success(PerfCode(defName, s, iterations));
      } else if iterations > 0 {
        RepeatLength(s.bench, iterations);
        assert Repeat(s.bench, iterations) == [];
      }
  }

  /** Bench lines that are not blank, repeated at least once, leave a loop
      body that is not empty. */
  lemma LoopBodyNotEmpty(s: Sections, iterations: int)
    requires iterations > 0 && s.bench != []
    requires forall l :: l in s.bench ==> !IsBlank(l)
    ensures LoopBody(s, iterations) != []
  {
    var text := IndentLines("        ", Repeat(s.bench, iterations));
    RepeatPasses(s.bench, iterations, 0);
    assert s.bench[0] in Repeat(s.bench, iterations);
    IndentLinesNotBlank("        ", Repeat(s.bench, iterations), s.bench[0]);
  }
}
