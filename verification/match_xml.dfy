/** The structural XML-to-dictionary parsers of match_xml.py over an
    already parsed element tree: `parse_countries_2` checks the shape of
    every country element, `parse_countries_1` classifies each child of a
    country on its own and carries its locals from one child (and one
    country) to the next. Raised exceptions are the `Failure` of a `Result`. */
module MatchXml {
  import opened Text

  /** An ElementTree element: tag, attribute dictionary, text (None for an
      element without text) and children in document order. */
  datatype Element = Element(tag: string, attrib: map<string, string>, text: Option<string>, children: seq<Element>)

  /** The record stored for one country. `gdppc` is the text the source
      converts with `float`, kept as it is written. */
  datatype Country = Country(rank: int, year: int, gdppc: string, neighbors: map<string, string>)

  /** What a parser raises: the `TypeError` naming the object it could not
      parse, `int(None)`/`float(None)`, the `ValueError` of `int` on a
      text that is not an integer, and the `UnboundLocalError` of a local
      that no child ever set. */
  datatype ParseError =
    | WrongElement(objtype: string, elem: Element)
    | NotAString
    | NotAnInteger(text: string)
    | Unbound(variable: string)

  // ---------------------------------------------------------------------
  // Dictionaries built by assignment

  /** The dictionary a sequence of `d[key] = value` assignments leaves. */
  function Assigned<V>(pairs: seq<(string, V)>): map<string, V> {
    if |pairs| == 0 then map[]
    else Assigned(pairs[..|pairs| - 1])[pairs[|pairs| - 1].0 := pairs[|pairs| - 1].1]
  }

  /** The keys are exactly the keys assigned. */
  lemma {:induction false} AssignedKeys<V>(pairs: seq<(string, V)>)
    ensures forall k :: k in Assigned(pairs) <==> exists i :: 0 <= i < |pairs| && pairs[i].0 == k
    decreases |pairs|
  {
    if |pairs| > 0 {
      var n := |pairs| - 1;
      AssignedKeys(pairs[..n]);
      forall k ensures k in Assigned(pairs) <==> exists i :: 0 <= i < |pairs| && pairs[i].0 == k {
        if exists i :: 0 <= i < |pairs| && pairs[i].0 == k {
          var i :| 0 <= i < |pairs| && pairs[i].0 == k;
          if i < n {
            assert pairs[..n][i].0 == k;
          }
        }
      }
    }
  }

  /** The last assignment to a key wins. */
  lemma {:induction false} AssignedLast<V>(pairs: seq<(string, V)>, i: nat)
    requires i < |pairs|
    requires forall j :: i < j < |pairs| ==> pairs[j].0 != pairs[i].0
    ensures pairs[i].0 in Assigned(pairs) && Assigned(pairs)[pairs[i].0] == pairs[i].1
    decreases |pairs|
  {
    var n := |pairs| - 1;
    if i < n {
      assert pairs[..n][i] == pairs[i];
      AssignedLast(pairs[..n], i);
    }
  }

  // ---------------------------------------------------------------------
  // int() of a text

  predicate IsDigit(c: char) {
    '0' <= c <= '9'
  }

  function DigitValue(c: char): nat {
    var v := c as int - '0' as int;
    if 0 <= v then v else 0
  }

  /** The digits of a base-10 literal: ASCII digits, with single
      underscores allowed between two digits. */
  predicate DigitGroups(d: string) {
    && |d| > 0 && IsDigit(d[0]) && IsDigit(d[|d| - 1])
    && (forall i :: 0 <= i < |d| ==> IsDigit(d[i]) || d[i] == '_')
    && (forall i :: 0 <= i < |d| - 1 ==> d[i] == '_' ==> IsDigit(d[i + 1]))
  }

  /** The number the digits spell, underscores skipped. */
  function DigitsValue(d: string): nat {
    if |d| == 0 then 0
    else if d[|d| - 1] == '_' then DigitsValue(d[..|d| - 1])
    else 10 * DigitsValue(d[..|d| - 1]) + DigitValue(d[|d| - 1])
  }

  /** An optional sign followed by digit groups. */
  function Signed(t: string): Option<int> {
    if |t| > 0 && (t[0] == '+' || t[0] == '-') then
      var v: int := DigitsValue(t[1..]);
      if DigitGroups(t[1..]) then Some(if t[0] == '-' then -v else v)
      else None
    else if DigitGroups(t) then Some(DigitsValue(t))
    else None
  }

  /** `int(elem.text)`: `None` raises `TypeError`; otherwise the text is
      stripped of surrounding whitespace and must be a signed literal, or
      `ValueError` is raised. */
  function IntOf(text: Option<string>): (r: Result<int, ParseError>)
    ensures text.None? ==> r == Failure(NotAString)
    ensures r.Failure? && text.Some? ==> r == Failure(NotAnInteger(text.value)) && Signed(Strip(text.value)).None?
    ensures r.Success? ==> text.Some? && Signed(Strip(text.value)) == Some(r.value)
  {
    match text
    case None => Failure(NotAString)
    case Some(s) =>
      match Signed(Strip(s))
      case None => Failure(NotAnInteger(s))
      case Some(n) => Success(n)
  }

  /** `float(elem.text)`, with the number kept as its text: only a missing
      text is refused. */
  function GdpOf(text: Option<string>): (r: Result<string, ParseError>)
    ensures r.Success? <==> text.Some?
    ensures r.Success? ==> r.value == text.value
    ensures r.Failure? ==> r.error == NotAString
  {
    match text
    case None => Failure(NotAString)
    case Some(s) => Success(s)
  }

  function DigitChar(n: nat): (c: char)
    requires n < 10
    ensures IsDigit(c) && DigitValue(c) == n
  {
    ('0' as int + n) as char
  }

  /** `str(n)` for a natural number. */
  function Natural(n: nat): (d: string)
    ensures |d| > 0 && IsDigit(d[0])
    ensures forall i :: 0 <= i < |d| ==> IsDigit(d[i])
  {
    if n < 10 then [DigitChar(n)] else Natural(n / 10) + [DigitChar(n % 10)]
  }

  /** `str(n)` for an integer. */
  function Decimal(n: int): string {
    if n < 0 then "-" + Natural(-n) else Natural(n)
  }

  lemma {:induction false} NaturalValue(n: nat)
    ensures DigitGroups(Natural(n)) && DigitsValue(Natural(n)) == n
    decreases n
  {
    if n >= 10 {
      NaturalValue(n / 10);
      var d := Natural(n);
      assert d[..|d| - 1] == Natural(n / 10);
    }
  }

  lemma SignedDecimal(n: int)
    ensures Signed(Decimal(n)) == Some(n)
  {
    if n < 0 {
      var d := Natural(-n);
      NaturalValue(-n);
      var t := Decimal(n);
      assert t[0] == '-' && t[1..] == d;
    } else {
      var d := Natural(n);
      NaturalValue(n);
      assert Decimal(n) == d && IsDigit(d[0]);
    }
  }

  /** `int(str(n)) == n`, whatever whitespace surrounds the text. */
  lemma IntOfDecimal(n: int, pre: string, post: string)
    requires IsBlank(pre) && IsBlank(post)
    ensures IntOf(Some(pre + Decimal(n) + post)) == Success(n)
  {
    var d := Decimal(n);
    var digits := Natural(if n < 0 then -n else n);
    assert !IsSpace(digits[0]) && !IsSpace(digits[|digits| - 1]);
    assert d[|d| - 1] == digits[|digits| - 1];
    StripAround(pre, d, post);
    SignedDecimal(n);
  }

  /** A text with no digit at all is not an integer. */
  lemma IntOfRejectsNoDigits(s: string)
    requires forall i :: 0 <= i < |s| ==> !IsDigit(s[i])
    ensures IntOf(Some(s)) == Failure(NotAnInteger(s))
  {
    var t := Strip(s);
    assert forall i :: 0 <= i < |t| ==> t[i] in s;
  }

  // ---------------------------------------------------------------------
  // parse_countries_2

  /** `Element(tag='country', attrib={'name': name})`: the tag is `country`
      and the attributes include `name`; extra attributes are allowed. */
  predicate IsCountry(e: Element) {
    e.tag == "country" && "name" in e.attrib
  }

  /** `Element(tag='neighbor', attrib={'name': ..., 'direction': ...})` */
  predicate IsNeighbor(e: Element) {
    e.tag == "neighbor" && "name" in e.attrib && "direction" in e.attrib
  }

  /** The `[rank, year, gdppc, *extra]` sequence pattern on the children. */
  predicate HasHeader(kids: seq<Element>) {
    |kids| >= 3 && kids[0].tag == "rank" && kids[1].tag == "year" && kids[2].tag == "gdppc"
  }

  /** The neighbor dictionary built from the extra children, in order, or
      the `TypeError` for the first extra child that is not a neighbor. */
  function Neighbors(extra: seq<Element>): Result<map<string, string>, ParseError> {
    if |extra| == 0 then Success(map[])
    else
      var e := extra[|extra| - 1];
      match Neighbors(extra[..|extra| - 1])
      case Failure(err) => Failure(err)
      case Success(m) =>
        if IsNeighbor(e) then Success(m[e.attrib["name"] := e.attrib["direction"]])
        else Failure(WrongElement("neighbor", e))
  }

  /** The `(name, direction)` assignments of a run of neighbor elements. */
  function NeighborPairs(extra: seq<Element>): (r: seq<(string, string)>)
    requires forall i :: 0 <= i < |extra| ==> IsNeighbor(extra[i])
    ensures |r| == |extra|
    ensures forall i :: 0 <= i < |extra| ==>
      IsNeighbor(extra[i]) && r[i] == (extra[i].attrib["name"], extra[i].attrib["direction"])
  {
    seq(|extra|, i requires 0 <= i < |extra| =>
      assert IsNeighbor(extra[i]); (extra[i].attrib["name"], extra[i].attrib["direction"]))
  }

  /** Neighbor elements only: the dictionary of their assignments in order. */
  lemma {:induction false} NeighborsAssigned(extra: seq<Element>)
    requires forall i :: 0 <= i < |extra| ==> IsNeighbor(extra[i])
    ensures Neighbors(extra) == Success(Assigned(NeighborPairs(extra)))
    decreases |extra|
  {
    if |extra| > 0 {
      var n := |extra| - 1;
      assert NeighborPairs(extra)[..n] == NeighborPairs(extra[..n]);
      NeighborsAssigned(extra[..n]);
    }
  }

  /** Accepted neighbors are all neighbor elements. */
  lemma {:induction false} NeighborsOnlyNeighbors(extra: seq<Element>)
    requires Neighbors(extra).Success?
    ensures forall i :: 0 <= i < |extra| ==> IsNeighbor(extra[i])
    decreases |extra|
  {
    if |extra| > 0 {
      var n := |extra| - 1;
      NeighborsOnlyNeighbors(extra[..n]);
      forall i | 0 <= i < n ensures extra[..n][i] == extra[i] { }
    }
  }

  /** An error from a prefix of the neighbors is the error of them all. */
  lemma {:induction false} NeighborsStops(extra: seq<Element>, k: nat)
    requires k <= |extra| && Neighbors(extra[..k]).Failure?
    ensures Neighbors(extra) == Neighbors(extra[..k])
    decreases |extra| - k
  {
    if k < |extra| {
      assert extra[..k + 1][..k] == extra[..k];
      NeighborsStops(extra, k + 1);
    } else {
      assert extra[..k] == extra;
    }
  }

  /** Otherwise the error is the one of the first extra child that is not a neighbor. */
  lemma NeighborsFirstError(extra: seq<Element>, k: nat)
    requires k < |extra| && !IsNeighbor(extra[k])
    requires forall i :: 0 <= i < k ==> IsNeighbor(extra[i])
    ensures Neighbors(extra) == Failure(WrongElement("neighbor", extra[k]))
  {
    assert extra[..k + 1][..k] == extra[..k];
    NeighborsAssigned(extra[..k]);
    NeighborsStops(extra, k + 1);
  }

  /** One country element: its name and record, or what it raises. The
      checks run in the source's order: the element, the header children,
      `int(rank)`, `int(year)`, `float(gdppc)`, then each neighbor. */
  function CountryOf2(e: Element): Result<(string, Country), ParseError> {
    if !IsCountry(e) then Failure(WrongElement("country", e))
    else if !HasHeader(e.children) then Failure(WrongElement("country elements", e))
    else
      var kids := e.children;
      match IntOf(kids[0].text)
      case Failure(err) => Failure(err)
      case Success(rank) =>
        match IntOf(kids[1].text)
        case Failure(err) => Failure(err)
        case Success(year) =>
          match GdpOf(kids[2].text)
          case Failure(err) => Failure(err)
          case Success(gdppc) =>
            match Neighbors(kids[3..])
            case Failure(err) => Failure(err)
            case Success(neighbors) => Success((e.attrib["name"], Country(rank, year, gdppc, neighbors)))
  }

  /** What `parse_countries_2` returns for the children of the root: the
      countries in order, a later country replacing an earlier one of the
      same name, or the first error. */
  function Countries2(children: seq<Element>): Result<map<string, Country>, ParseError> {
    if |children| == 0 then Success(map[])
    else
      match Countries2(children[..|children| - 1])
      case Failure(err) => Failure(err)
      case Success(m) =>
        match CountryOf2(children[|children| - 1])
        case Failure(err) => Failure(err)
        case Success(entry) => Success(m[entry.0 := entry.1])
  }

  /** `parse_countries_2(tree)` */
  method ParseCountries2(tree: Element) returns (r: Result<map<string, Country>, ParseError>)
    ensures r == Countries2(tree.children)
  {
    var countries: map<string, Country> := map[];
    var children := tree.children;
    for i := 0 to |children|
      invariant Countries2(children[..i]) == Success(countries)
    {
      assert children[..i + 1][..i] == children[..i];
      var entry := ParseCountry2(children[i]);
      if entry.Failure? {
        Countries2Stops(children, i + 1);
        return Failure(entry.error);
      }
      countries := countries[entry.value.0 := entry.value.1];
    }
    assert children[..|children|] == children;
    return Success(countries);
  }

  /** The body of the `for child in tree` loop of `parse_countries_2`. */
  method ParseCountry2(child: Element) returns (r: Result<(string, Country), ParseError>)
    ensures r == CountryOf2(child)
  {
    if !(child.tag == "country" && "name" in child.attrib) {
      return Failure(WrongElement("country", child));
    }
    var name := child.attrib["name"];
    var kids := child.children;
    if !(|kids| >= 3 && kids[0].tag == "rank" && kids[1].tag == "year" && kids[2].tag == "gdppc") {
      return Failure(WrongElement("country elements", child));
    }
    // rank and year through int(), gdppc through float()
    var rank := IntOf(kids[0].text);
    if rank.Failure? {
      return Failure(rank.error);
    }
    var year := IntOf(kids[1].text);
    if year.Failure? {
      return Failure(year.error);
    }
    var gdppc := GdpOf(kids[2].text);
    if gdppc.Failure? {
      return Failure(gdppc.error);
    }
    // the children after the header must all be neighbors
    var neighbors := ParseNeighbors(kids[3..]);
    if neighbors.Failure? {
      return Failure(neighbors.error);
    }
    return Success((name, Country(rank.value, year.value, gdppc.value, neighbors.value)));
  }

  /** The `for child in extra` loop of `parse_countries_2`. */
  method ParseNeighbors(extra: seq<Element>) returns (r: Result<map<string, string>, ParseError>)
    ensures r == Neighbors(extra)
  {
    var neighbors: map<string, string> := map[];
    for i := 0 to |extra|
      invariant Neighbors(extra[..i]) == Success(neighbors)
    {
      assert extra[..i + 1][..i] == extra[..i];
      var child := extra[i];
      if !(child.tag == "neighbor" && "name" in child.attrib && "direction" in child.attrib) {
        NeighborsStops(extra, i + 1);
        return Failure(WrongElement("neighbor", child));
      }
      neighbors := neighbors[child.attrib["name"] := child.attrib["direction"]];
    }
    assert extra[..|extra|] == extra;
    return Success(neighbors);
  }

  // Properties of parse_countries_2

  /** A country is accepted exactly when the element, its first three
      children and every extra child have the expected shape, the rank and
      year texts are integers and the gdppc text is present; its record
      then holds the converted texts and the neighbor assignments. */
  lemma CountryOf2Spec(e: Element)
    ensures CountryOf2(e).Success? <==>
      && IsCountry(e) && HasHeader(e.children)
      && IntOf(e.children[0].text).Success? && IntOf(e.children[1].text).Success?
      && e.children[2].text.Some?
      && (forall i :: 3 <= i < |e.children| ==> IsNeighbor(e.children[i]))
    ensures CountryOf2(e).Success? ==>
      && CountryOf2(e).value.0 == e.attrib["name"]
      && CountryOf2(e).value.1.rank == IntOf(e.children[0].text).value
      && CountryOf2(e).value.1.year == IntOf(e.children[1].text).value
      && CountryOf2(e).value.1.gdppc == e.children[2].text.value
      && CountryOf2(e).value.1.neighbors == Assigned(NeighborPairs(e.children[3..]))
  {
    if IsCountry(e) && HasHeader(e.children) {
      var extra := e.children[3..];
      assert forall i :: 3 <= i < |e.children| ==> e.children[i] == extra[i - 3];
      if forall i :: 0 <= i < |extra| ==> IsNeighbor(extra[i]) {
        NeighborsAssigned(extra);
      } else if Neighbors(extra).Success? {
        NeighborsOnlyNeighbors(extra);
      }
    }
  }

  /** The `(name, record)` assignments of a run of accepted countries. */
  function CountryPairs(children: seq<Element>): (r: seq<(string, Country)>)
    requires forall i :: 0 <= i < |children| ==> CountryOf2(children[i]).Success?
    ensures |r| == |children|
    ensures forall i :: 0 <= i < |children| ==> r[i] == CountryOf2(children[i]).value
  {
    seq(|children|, i requires 0 <= i < |children| => CountryOf2(children[i]).value)
  }

  /** Accepted countries only: the dictionary of their assignments in order. */
  lemma {:induction false} Countries2Assigned(children: seq<Element>)
    requires forall i :: 0 <= i < |children| ==> CountryOf2(children[i]).Success?
    ensures Countries2(children) == Success(Assigned(CountryPairs(children)))
    decreases |children|
  {
    if |children| > 0 {
      var n := |children| - 1;
      assert CountryPairs(children)[..n] == CountryPairs(children[..n]);
      Countries2Assigned(children[..n]);
    }
  }

  /** An error from a prefix of the countries is the error of them all. */
  lemma {:induction false} Countries2Stops(children: seq<Element>, k: nat)
    requires k <= |children| && Countries2(children[..k]).Failure?
    ensures Countries2(children) == Countries2(children[..k])
    decreases |children| - k
  {
    if k < |children| {
      assert children[..k + 1][..k] == children[..k];
      Countries2Stops(children, k + 1);
    } else {
      assert children[..k] == children;
    }
  }

  /** Otherwise the error is the one of the first country that is not accepted. */
  lemma Countries2FirstError(children: seq<Element>, k: nat)
    requires k < |children| && CountryOf2(children[k]).Failure?
    requires forall i :: 0 <= i < k ==> CountryOf2(children[i]).Success?
    ensures Countries2(children) == Failure(CountryOf2(children[k]).error)
  {
    assert children[..k + 1][..k] == children[..k];
    Countries2Assigned(children[..k]);
    Countries2Stops(children, k + 1);
  }

  lemma CountryLast(children: seq<Element>, pairs: seq<(string, Country)>, i: nat)
    requires forall i :: 0 <= i < |children| ==> CountryOf2(children[i]).Success?
    requires pairs == CountryPairs(children) && i < |children|
    requires forall j :: i < j < |children| ==> CountryOf2(children[j]).value.0 != CountryOf2(children[i]).value.0
    ensures pairs[i].0 in Assigned(pairs) && Assigned(pairs)[pairs[i].0] == pairs[i].1
  {
    forall j | i < j < |pairs| ensures pairs[j].0 != pairs[i].0 {
      assert pairs[j] == CountryOf2(children[j]).value;
    }
    AssignedLast(pairs, i);
  }

  /** For accepted countries the result holds one entry per country name,
      each mapped to the record of the last country of that name. */
  lemma Countries2Entries(children: seq<Element>)
    requires forall i :: 0 <= i < |children| ==> CountryOf2(children[i]).Success?
    ensures Countries2(children).Success?
    ensures forall k :: k in Countries2(children).value <==>
      exists i :: 0 <= i < |children| && CountryOf2(children[i]).value.0 == k
    ensures forall i ::
      (0 <= i < |children| && (forall j :: i < j < |children| ==>
        CountryOf2(children[j]).value.0 != CountryOf2(children[i]).value.0))
      ==> Countries2(children).value[CountryOf2(children[i]).value.0] == CountryOf2(children[i]).value.1
  {
    Countries2Assigned(children);
    var pairs := CountryPairs(children);
    AssignedKeys(pairs);
    forall i | 0 <= i < |children| && (forall j :: i < j < |children| ==>
        CountryOf2(children[j]).value.0 != CountryOf2(children[i]).value.0)
      ensures Countries2(children).value[CountryOf2(children[i]).value.0] == CountryOf2(children[i]).value.1
    {
      CountryLast(children, pairs, i);
    }
  }

  // Building the element a country record is read from

  function TextElement(tag: string, text: string): Element {
    Element(tag, map[], Some(text), [])
  }

  function NeighborElement(name: string, direction: string): (e: Element)
    ensures IsNeighbor(e)
  {
    Element("neighbor", map["name" := name, "direction" := direction], None, [])
  }

  /** The country element the document gives for a record with the
      neighbor assignments `neighbors`. */
  function CountryElement(name: string, rank: int, year: int, gdppc: string, neighbors: seq<(string, string)>): Element {
    Element("country", map["name" := name], None,
            [TextElement("rank", Decimal(rank)), TextElement("year", Decimal(year)), TextElement("gdppc", gdppc)]
            + seq(|neighbors|, i requires 0 <= i < |neighbors| => NeighborElement(neighbors[i].0, neighbors[i].1)))
  }

  lemma CountryElementShape(name: string, rank: int, year: int, gdppc: string, neighbors: seq<(string, string)>)
    ensures var e := CountryElement(name, rank, year, gdppc, neighbors);
      && IsCountry(e) && e.attrib["name"] == name && HasHeader(e.children)
      && e.children[0].text == Some(Decimal(rank)) && e.children[1].text == Some(Decimal(year))
      && e.children[2].text == Some(gdppc)
      && (forall i :: 3 <= i < |e.children| ==> IsNeighbor(e.children[i]))
      && NeighborPairs(e.children[3..]) == neighbors
  {
    var kids := CountryElement(name, rank, year, gdppc, neighbors).children;
    assert forall i :: 3 <= i < |kids| ==> kids[i] == NeighborElement(neighbors[i - 3].0, neighbors[i - 3].1);
  }

  /** Reading a country element written from a record gives the record back. */
  lemma CountryRoundTrip(name: string, rank: int, year: int, gdppc: string, neighbors: seq<(string, string)>)
    ensures CountryOf2(CountryElement(name, rank, year, gdppc, neighbors))
      == Success((name, Country(rank, year, gdppc, Assigned(neighbors))))
  {
    var e := CountryElement(name, rank, year, gdppc, neighbors);
    assert "" + Decimal(rank) + "" == Decimal(rank);
    assert "" + Decimal(year) + "" == Decimal(year);
    IntOfDecimal(rank, "", "");
    IntOfDecimal(year, "", "");
    CountryElementShape(name, rank, year, gdppc, neighbors);
    var kids := e.children;
    assert IntOf(kids[0].text) == Success(rank) && IntOf(kids[1].text) == Success(year);
    CountryOf2Spec(e);
    var v := CountryOf2(e).value;
    assert v.0 == name;
    assert v.1 == Country(rank, year, gdppc, Assigned(neighbors));
  }

  // ---------------------------------------------------------------------
  // parse_countries_1

  /** The function locals `rank`, `year`, `gdppc` and `neighbors`, unbound
      (`None`) until a child first sets them; they survive from one
      country to the next. */
  datatype Locals = Locals(rank: Option<int>, year: Option<int>, gdppc: Option<string>,
                           neighbors: Option<map<string, string>>)

  const Unset := Locals(None, None, None, None)

  predicate IsHeaderTag(tag: string) {
    tag == "rank" || tag == "year" || tag == "gdppc"
  }

  /** One child of a country: `neighbors` is reset to `{}`, then the child
      sets the local its tag names, or raises. */
  function ChildStep(locals: Locals, child: Element): (r: Result<Locals, ParseError>)
    ensures r.Success? <==>
      || (child.tag == "rank" && IntOf(child.text).Success?)
      || (child.tag == "year" && IntOf(child.text).Success?)
      || (child.tag == "gdppc" && child.text.Some?)
      || (!IsHeaderTag(child.tag) && IsNeighbor(child))
    ensures r.Failure? && !IsHeaderTag(child.tag) ==> r.error == WrongElement("country element", child)
    ensures r.Success? ==> r.value.rank == (if child.tag == "rank" then Some(IntOf(child.text).value) else locals.rank)
    ensures r.Success? ==> r.value.year == (if child.tag == "year" then Some(IntOf(child.text).value) else locals.year)
    ensures r.Success? ==> r.value.gdppc == (if child.tag == "gdppc" then child.text else locals.gdppc)
    ensures r.Success? ==>
      r.value.neighbors == Some(if child.tag == "neighbor" then map[child.attrib["name"] := child.attrib["direction"]] else map[])
  {
    var reset := Locals(locals.rank, locals.year, locals.gdppc, Some(map[]));
    if child.tag == "rank" then
      match IntOf(child.text)
      case Failure(err) => Failure(err)
      case Success(n) => Success(Locals(Some(n), reset.year, reset.gdppc, reset.neighbors))
    else if child.tag == "year" then
      match IntOf(child.text)
      case Failure(err) => Failure(err)
      case Success(n) => Success(Locals(reset.rank, Some(n), reset.gdppc, reset.neighbors))
    else if child.tag == "gdppc" then
      match GdpOf(child.text)
      case Failure(err) => Failure(err)
      case Success(g) => Success(Locals(reset.rank, reset.year, Some(g), reset.neighbors))
    else if IsNeighbor(child) then
      Success(Locals(reset.rank, reset.year, reset.gdppc, Some(map[child.attrib["name"] := child.attrib["direction"]])))
    else
      Failure(WrongElement("country element", child))
  }

  /** The inner `for child in country` loop. */
  function ChildrenStep(locals: Locals, kids: seq<Element>): Result<Locals, ParseError> {
    if |kids| == 0 then Success(locals)
    else
      match ChildrenStep(locals, kids[..|kids| - 1])
      case Failure(err) => Failure(err)
      case Success(l) => ChildStep(l, kids[|kids| - 1])
  }

  /** `dict(rank=rank, year=year, gdppc=gdppc, neighbors=neighbors)`: the
      arguments are read in that order and the first unbound one raises. */
  function Record(locals: Locals): (r: Result<Country, ParseError>)
    ensures r.Success? <==> locals.rank.Some? && locals.year.Some? && locals.gdppc.Some? && locals.neighbors.Some?
    ensures r.Success? ==> r.value == Country(locals.rank.value, locals.year.value, locals.gdppc.value, locals.neighbors.value)
    ensures locals.rank.None? ==> r == Failure(Unbound("rank"))
    ensures locals.rank.Some? && locals.year.None? ==> r == Failure(Unbound("year"))
    ensures locals.rank.Some? && locals.year.Some? && locals.gdppc.None? ==> r == Failure(Unbound("gdppc"))
    ensures locals.rank.Some? && locals.year.Some? && locals.gdppc.Some? && locals.neighbors.None?
      ==> r == Failure(Unbound("neighbors"))
  {
    if locals.rank.None? then Failure(Unbound("rank"))
    else if locals.year.None? then Failure(Unbound("year"))
    else if locals.gdppc.None? then Failure(Unbound("gdppc"))
    else if locals.neighbors.None? then Failure(Unbound("neighbors"))
    else Success(Country(locals.rank.value, locals.year.value, locals.gdppc.value, locals.neighbors.value))
  }

  /** The state of `parse_countries_1` after some top-level children. */
  datatype State = State(locals: Locals, countries: map<string, Country>)

  function CountryStep(st: State, e: Element): Result<State, ParseError> {
    if !IsCountry(e) then Failure(WrongElement("country", e))
    else
      match ChildrenStep(st.locals, e.children)
      case Failure(err) => Failure(err)
      case Success(l) =>
        match Record(l)
        case Failure(err) => Failure(err)
        case Success(c) => Success(State(l, st.countries[e.attrib["name"] := c]))
  }

  function Countries1(children: seq<Element>): Result<State, ParseError> {
    if |children| == 0 then Success(State(Unset, map[]))
    else
      match Countries1(children[..|children| - 1])
      case Failure(err) => Failure(err)
      case Success(st) => CountryStep(st, children[|children| - 1])
  }

  lemma {:induction false} ChildrenStepStops(locals: Locals, kids: seq<Element>, k: nat)
    requires k <= |kids| && ChildrenStep(locals, kids[..k]).Failure?
    ensures ChildrenStep(locals, kids) == ChildrenStep(locals, kids[..k])
    decreases |kids| - k
  {
    if k < |kids| {
      assert kids[..k + 1][..k] == kids[..k];
      ChildrenStepStops(locals, kids, k + 1);
    } else {
      assert kids[..k] == kids;
    }
  }

  lemma {:induction false} Countries1Stops(children: seq<Element>, k: nat)
    requires k <= |children| && Countries1(children[..k]).Failure?
    ensures Countries1(children) == Countries1(children[..k])
    decreases |children| - k
  {
    if k < |children| {
      assert children[..k + 1][..k] == children[..k];
      Countries1Stops(children, k + 1);
    } else {
      assert children[..k] == children;
    }
  }

  /** `parse_countries_1(tree)` */
  method ParseCountries1(tree: Element) returns (r: Result<map<string, Country>, ParseError>)
    ensures Countries1(tree.children).Failure? ==> r == Failure(Countries1(tree.children).error)
    ensures Countries1(tree.children).Success? ==> r == Success(Countries1(tree.children).value.countries)
  {
    var countries: map<string, Country> := map[];
    var locals := Unset;
    var children := tree.children;
    for i := 0 to |children|
      invariant Countries1(children[..i]) == Success(State(locals, countries))
    {
      assert children[..i + 1][..i] == children[..i];
      var child := children[i];
      if !(child.tag == "country" && "name" in child.attrib) {
        Countries1Stops(children, i + 1);
        return Failure(WrongElement("country", child));
      }
      var name := child.attrib["name"];
      var res := ParseCountryChildren(locals, child.children);
      if res.Failure? {
        Countries1Stops(children, i + 1);
        return Failure(res.error);
      }
      locals := res.value;
      if locals.rank.None? {
        Countries1Stops(children, i + 1);
        return Failure(Unbound("rank"));
      }
      if locals.year.None? {
        Countries1Stops(children, i + 1);
        return Failure(Unbound("year"));
      }
      if locals.gdppc.None? {
        Countries1Stops(children, i + 1);
        return Failure(Unbound("gdppc"));
      }
      if locals.neighbors.None? {
        Countries1Stops(children, i + 1);
        return Failure(Unbound("neighbors"));
      }
      countries := countries[name := Country(locals.rank.value, locals.year.value, locals.gdppc.value, locals.neighbors.value)];
    }
    assert children[..|children|] == children;
    return Success(countries);
  }

  /** The inner `for child in country` loop of `parse_countries_1`, over
      the locals it reads and leaves. */
  method ParseCountryChildren(start: Locals, kids: seq<Element>) returns (r: Result<Locals, ParseError>)
    ensures r == ChildrenStep(start, kids)
  {
    var rank, year, gdppc, neighbors := start.rank, start.year, start.gdppc, start.neighbors;
    for j := 0 to |kids|
      invariant ChildrenStep(start, kids[..j]) == Success(Locals(rank, year, gdppc, neighbors))
    {
      assert kids[..j + 1][..j] == kids[..j];
      var kid := kids[j];
      neighbors := Some(map[]);
      // a child missing from this country leaves the earlier value bound
      if kid.tag == "rank" {
        var n := IntOf(kid.text);
        if n.Failure? {
          ChildrenStepStops(start, kids, j + 1);
          return Failure(n.error);
        }
        rank := Some(n.value);
      } else if kid.tag == "year" {
        var n := IntOf(kid.text);
        if n.Failure? {
          ChildrenStepStops(start, kids, j + 1);
          return Failure(n.error);
        }
        year := Some(n.value);
      } else if kid.tag == "gdppc" {
        var g := GdpOf(kid.text);
        if g.Failure? {
          ChildrenStepStops(start, kids, j + 1);
          return Failure(g.error);
        }
        gdppc := Some(g.value);
      } else if kid.tag == "neighbor" && "name" in kid.attrib && "direction" in kid.attrib {
        neighbors := Some(neighbors.value[kid.attrib["name"] := kid.attrib["direction"]]);
      } else {
        ChildrenStepStops(start, kids, j + 1);
        return Failure(WrongElement("country element", kid));
      }
    }
    assert kids[..|kids|] == kids;
    return Success(Locals(rank, year, gdppc, neighbors));
  }

  // Properties of parse_countries_1

  /** Every child of an accepted country has one of the four known tags. */
  lemma {:induction false} ChildrenStepKnownTags(locals: Locals, kids: seq<Element>)
    requires ChildrenStep(locals, kids).Success?
    ensures forall j :: 0 <= j < |kids| ==> IsHeaderTag(kids[j].tag) || kids[j].tag == "neighbor"
    decreases |kids|
  {
    if |kids| > 0 {
      var n := |kids| - 1;
      var front := kids[..n];
      var prev := ChildrenStep(locals, front);
      assert prev.Success?;
      assert ChildStep(prev.value, kids[n]).Success?;
      assert IsHeaderTag(kids[n].tag) || kids[n].tag == "neighbor";
      ChildrenStepKnownTags(locals, front);
      forall j | 0 <= j < |kids| ensures IsHeaderTag(kids[j].tag) || kids[j].tag == "neighbor" {
        if j < n {
          assert front[j] == kids[j];
        }
      }
    }
  }

  /** The neighbors left after a country's children hold only the last
      child's entry: one pair when the last child is a neighbor, none
      otherwise. A country without children leaves every local as it was. */
  lemma ChildrenStepNeighbors(locals: Locals, kids: seq<Element>)
    requires ChildrenStep(locals, kids).Success?
    ensures |kids| == 0 ==> ChildrenStep(locals, kids).value == locals
    ensures |kids| > 0 ==>
      var last := kids[|kids| - 1];
      ChildrenStep(locals, kids).value.neighbors
        == Some(if last.tag == "neighbor" then map[last.attrib["name"] := last.attrib["direction"]] else map[])
  {
  }

  /** Missing children are not detected: a local that no child of a country
      sets keeps the value an earlier child, or an earlier country, gave it. */
  lemma {:induction false} ChildrenStepKeepsUnset(locals: Locals, kids: seq<Element>)
    requires ChildrenStep(locals, kids).Success?
    ensures (forall j :: 0 <= j < |kids| ==> kids[j].tag != "rank") ==> ChildrenStep(locals, kids).value.rank == locals.rank
    ensures (forall j :: 0 <= j < |kids| ==> kids[j].tag != "year") ==> ChildrenStep(locals, kids).value.year == locals.year
    ensures (forall j :: 0 <= j < |kids| ==> kids[j].tag != "gdppc") ==> ChildrenStep(locals, kids).value.gdppc == locals.gdppc
    decreases |kids|
  {
    if |kids| > 0 {
      var n := |kids| - 1;
      var front := kids[..n];
      var prev := ChildrenStep(locals, front);
      assert prev.Success?;
      var r := ChildStep(prev.value, kids[n]).value;
      assert ChildrenStep(locals, kids) == Success(r);
      ChildrenStepKeepsUnset(locals, front);
      if forall j :: 0 <= j < |kids| ==> kids[j].tag != "rank" {
        forall j | 0 <= j < n ensures front[j].tag != "rank" { assert front[j] == kids[j]; }
        assert r.rank == prev.value.rank;
      }
      if forall j :: 0 <= j < |kids| ==> kids[j].tag != "year" {
        forall j | 0 <= j < n ensures front[j].tag != "year" { assert front[j] == kids[j]; }
        assert r.year == prev.value.year;
      }
      if forall j :: 0 <= j < |kids| ==> kids[j].tag != "gdppc" {
        forall j | 0 <= j < n ensures front[j].tag != "gdppc" { assert front[j] == kids[j]; }
        assert r.gdppc == prev.value.gdppc;
      }
    }
  }

  /** The rank stored for a country is that of its last `rank` child. */
  lemma {:induction false} ChildrenStepLastRank(locals: Locals, kids: seq<Element>, k: nat)
    requires ChildrenStep(locals, kids).Success? && k < |kids|
    requires kids[k].tag == "rank" && forall j :: k < j < |kids| ==> kids[j].tag != "rank"
    ensures IntOf(kids[k].text).Success? && ChildrenStep(locals, kids).value.rank == Some(IntOf(kids[k].text).value)
    decreases |kids|
  {
    var n := |kids| - 1;
    var front := kids[..n];
    var prev := ChildrenStep(locals, front);
    assert prev.Success?;
    assert ChildrenStep(locals, kids) == ChildStep(prev.value, kids[n]);
    if k < n {
      assert front[k] == kids[k];
      forall j | k < j < |front| ensures front[j].tag != "rank" {
        assert front[j] == kids[j];
      }
      ChildrenStepLastRank(locals, front, k);
    }
  }

  lemma {:induction false} ChildrenStepAppend(l: Locals, a: seq<Element>, b: seq<Element>)
    ensures ChildrenStep(l, a + b) ==
      match ChildrenStep(l, a)
      case Failure(err) => Failure(err)
      case Success(l2) => ChildrenStep(l2, b)
    decreases |b|
  {
    if |b| == 0 {
      assert a + b == a;
    } else {
      var n := |b| - 1;
      assert (a + b)[..|a + b| - 1] == a + b[..n];
      ChildrenStepAppend(l, a, b[..n]);
    }
  }

  /** The three header children of an accepted country set the rank, year
      and gdppc locals and leave no neighbors. */
  lemma HeaderChildren(l: Locals, kids: seq<Element>)
    requires HasHeader(kids) && IntOf(kids[0].text).Success? && IntOf(kids[1].text).Success? && kids[2].text.Some?
    ensures ChildrenStep(l, kids[..3])
      == Success(Locals(Some(IntOf(kids[0].text).value), Some(IntOf(kids[1].text).value), kids[2].text, Some(map[])))
  {
    var rank, year := IntOf(kids[0].text).value, IntOf(kids[1].text).value;
    assert kids[..1][..0] == [];
    assert ChildrenStep(l, kids[..1]) == Success(Locals(Some(rank), l.year, l.gdppc, Some(map[])));
    assert kids[..2][..1] == kids[..1];
    assert ChildrenStep(l, kids[..2]) == Success(Locals(Some(rank), Some(year), l.gdppc, Some(map[])));
    assert kids[..3][..2] == kids[..2];
  }

  /** Neighbor children keep rank, year and gdppc and leave the last
      neighbor alone in `neighbors`. */
  lemma {:induction false} NeighborChildren(l: Locals, extra: seq<Element>)
    requires forall i :: 0 <= i < |extra| ==> IsNeighbor(extra[i])
    ensures ChildrenStep(l, extra).Success?
    ensures |extra| > 0 ==> IsNeighbor(extra[|extra| - 1])
    ensures var r := ChildrenStep(l, extra).value;
      && r.rank == l.rank && r.year == l.year && r.gdppc == l.gdppc
      && r.neighbors == (if |extra| == 0 then l.neighbors
                         else var last := extra[|extra| - 1];
                           Some(map[last.attrib["name"] := last.attrib["direction"]]))
    decreases |extra|
  {
    if |extra| > 0 {
      var n := |extra| - 1;
      forall i | 0 <= i < n ensures extra[..n][i] == extra[i] { }
      NeighborChildren(l, extra[..n]);
    }
  }

  /** A country `parse_countries_2` accepts is accepted by the inner loop of
      `parse_countries_1` from any locals, with the same rank, year and
      gdppc; its neighbors shrink to the last neighbor child alone, or to
      none when it has no neighbor child. */
  lemma VersionsAgree(l: Locals, e: Element)
    requires CountryOf2(e).Success?
    ensures ChildrenStep(l, e.children).Success?
    ensures |e.children| > 3 ==> IsNeighbor(e.children[|e.children| - 1])
    ensures var c := CountryOf2(e).value.1;
      var r := ChildrenStep(l, e.children).value;
      && r.rank == Some(c.rank) && r.year == Some(c.year) && r.gdppc == Some(c.gdppc)
      && r.neighbors == Some(if |e.children| == 3 then map[]
                             else var last := e.children[|e.children| - 1];
                               map[last.attrib["name"] := last.attrib["direction"]])
  {
    CountryOf2Spec(e);
    HeaderThenNeighbors(l, e.children);
  }

  /** The children loop of `parse_countries_1` over the three header
      children followed by neighbor children. */
  lemma HeaderThenNeighbors(l: Locals, kids: seq<Element>)
    requires HasHeader(kids) && IntOf(kids[0].text).Success? && IntOf(kids[1].text).Success? && kids[2].text.Some?
    requires forall i :: 3 <= i < |kids| ==> IsNeighbor(kids[i])
    ensures ChildrenStep(l, kids).Success?
    ensures |kids| > 3 ==> IsNeighbor(kids[|kids| - 1])
    ensures var r := ChildrenStep(l, kids).value;
      && r.rank == Some(IntOf(kids[0].text).value) && r.year == Some(IntOf(kids[1].text).value)
      && r.gdppc == kids[2].text
      && r.neighbors == Some(if |kids| == 3 then map[]
                             else var last := kids[|kids| - 1];
                               map[last.attrib["name"] := last.attrib["direction"]])
  {
    HeaderChildren(l, kids);
    var head, extra := kids[..3], kids[3..];
    assert forall i :: 0 <= i < |extra| ==> extra[i] == kids[i + 3];
    var l2 := ChildrenStep(l, head).value;
    NeighborChildren(l2, extra);
    assert head + extra == kids;
    ChildrenStepAppend(l, head, extra);
  }

  /** One more country keeps the two dictionaries in step. */
  lemma VersionsAgreeStep(st: State, m2: map<string, Country>, e: Element)
    requires CountryOf2(e).Success?
    requires st.countries.Keys == m2.Keys
    requires forall k :: k in m2 ==>
      && st.countries[k].rank == m2[k].rank && st.countries[k].year == m2[k].year
      && st.countries[k].gdppc == m2[k].gdppc
    ensures CountryStep(st, e).Success?
    ensures var m1' := CountryStep(st, e).value.countries;
      var m2' := m2[CountryOf2(e).value.0 := CountryOf2(e).value.1];
      && m1'.Keys == m2'.Keys
      && forall k :: k in m2' ==>
        && m1'[k].rank == m2'[k].rank && m1'[k].year == m2'[k].year && m1'[k].gdppc == m2'[k].gdppc
  {
    VersionsAgree(st.locals, e);
    CountryOf2Spec(e);
    var name, c2 := CountryOf2(e).value.0, CountryOf2(e).value.1;
    var l := ChildrenStep(st.locals, e.children).value;
    var c1 := Record(l).value;
    assert CountryStep(st, e) == Success(State(l, st.countries[name := c1]));
    assert c1.rank == c2.rank && c1.year == c2.year && c1.gdppc == c2.gdppc;
    var m1', m2' := st.countries[name := c1], m2[name := c2];
    assert m1'.Keys == m2'.Keys;
    forall k | k in m2'
      ensures m1'[k].rank == m2'[k].rank && m1'[k].year == m2'[k].year && m1'[k].gdppc == m2'[k].gdppc
    {
      if k != name {
        assert m1'[k] == st.countries[k] && m2'[k] == m2[k];
      }
    }
  }

  /** Every tree `parse_countries_2` accepts, `parse_countries_1` accepts
      too, with the same country names and the same rank, year and gdppc
      for each. */
  lemma {:induction false} VersionsAgreeOnTree(children: seq<Element>)
    requires Countries2(children).Success?
    ensures Countries1(children).Success?
    ensures Countries1(children).value.countries.Keys == Countries2(children).value.Keys
    ensures forall k :: k in Countries2(children).value ==>
      && Countries1(children).value.countries[k].rank == Countries2(children).value[k].rank
      && Countries1(children).value.countries[k].year == Countries2(children).value[k].year
      && Countries1(children).value.countries[k].gdppc == Countries2(children).value[k].gdppc
    decreases |children|
  {
    if |children| > 0 {
      var n := |children| - 1;
      var e, prev := children[n], children[..n];
      VersionsAgreeOnTree(prev);
      var st, m2 := Countries1(prev).value, Countries2(prev).value;
      VersionsAgreeStep(st, m2, e);
      assert Countries1(children) == CountryStep(st, e);
      assert Countries2(children) == Success(m2[CountryOf2(e).value.0 := CountryOf2(e).value.1]);
    }
  }

  lemma IntOfDigit(n: nat)
    requires n < 10
    ensures IntOf(Some([DigitChar(n)])) == Success(n)
  {
    IntOfDecimal(n, "", "");
    assert "" + Decimal(n) + "" == [DigitChar(n)];
  }

  /** The first country of the example below: all three header children. */
  function FirstCountry(): Element {
    Element("country", map["name" := "A"], None,
            [TextElement("rank", "1"), TextElement("year", "2"), TextElement("gdppc", "3")])
  }

  /** The second country of the example below: no `rank` child. */
  function SecondCountry(): Element {
    Element("country", map["name" := "B"], None, [TextElement("year", "4"), TextElement("gdppc", "5")])
  }

  lemma FirstCountryChildren()
    ensures ChildrenStep(Unset, FirstCountry().children) == Success(Locals(Some(1), Some(2), Some("3"), Some(map[])))
  {
    IntOfDigit(1);
    IntOfDigit(2);
    assert [DigitChar(1)] == "1" && [DigitChar(2)] == "2";
    var kids := FirstCountry().children;
    assert IntOf(kids[0].text) == Success(1) && IntOf(kids[1].text) == Success(2);
    HeaderChildren(Unset, kids);
    assert kids[..3] == kids;
  }

  lemma FirstCountryRead()
    ensures Countries1([FirstCountry()])
      == Success(State(Locals(Some(1), Some(2), Some("3"), Some(map[])), map["A" := Country(1, 2, "3", map[])]))
  {
    FirstCountryChildren();
    assert [FirstCountry()][..0] == [];
  }

  lemma SecondCountryRead(l: Locals)
    ensures ChildrenStep(l, SecondCountry().children) == Success(Locals(l.rank, Some(4), Some("5"), Some(map[])))
  {
    IntOfDigit(4);
    assert [DigitChar(4)] == "4";
    var kids := SecondCountry().children;
    var l1 := Locals(l.rank, Some(4), l.gdppc, Some(map[]));
    assert ChildStep(l, kids[0]) == Success(l1);
    assert ChildStep(l1, kids[1]) == Success(Locals(l.rank, Some(4), Some("5"), Some(map[])));
    assert kids[..1][..0] == [];
    assert ChildrenStep(l, kids[..1]) == Success(l1);
    assert kids[..2] == kids;
  }

  /** A country whose children leave its rank out gets the rank of the
      country before it: two countries, the second without a `rank` child. */
  lemma StaleRank()
    ensures Countries1([FirstCountry(), SecondCountry()]).Success?
    ensures Countries1([FirstCountry(), SecondCountry()]).value.countries["B"].rank == 1
  {
    FirstCountryRead();
    SecondCountryRead(Locals(Some(1), Some(2), Some("3"), Some(map[])));
    assert [FirstCountry(), SecondCountry()][..1] == [FirstCountry()];
  }
}
