/**
  The file parsers of one ego network. A file is the sequence of its lines as Python's
  line iteration yields them (each may still end in its newline); opening the file is
  not modelled. Every exception the Python code can raise on a malformed line becomes a
  `ParseError` naming the 0-based line and the reason; the parsers stop at the first
  malformed line, as the exception does.
 */
module Parser {
  import opened Wrappers
  import opened PyDict
  import opened Tokens

  datatype LineError =
    | WrongFieldCount(expected: nat, found: nat)  // `src, dst = ...split()` does not unpack
    | NoSeparator                                 // `idx, name = ...split(" ", 1)` gets one part
    | NotAnInteger(text: string)                  // `int(idx)` raises ValueError
    | EmptyLine                                   // `parts[0]` raises IndexError
    | UnknownFeatureIndex(index: nat)             // `featNames[i]` raises KeyError

  datatype ParseError = ParseError(line: nat, reason: LineError)

  /**
    The loop every parser shares: parse each line in order and collect the results;
    the first line that fails aborts the whole file with its error.
   */
  function ParseLines<T>(lines: seq<string>, parseLine: string -> Result<T, LineError>): (r: Result<seq<T>, ParseError>)
    ensures r.Ok? ==> |r.value| == |lines|
    ensures r.Ok? ==> forall i | 0 <= i < |lines| :: parseLine(lines[i]) == Ok(r.value[i])
    ensures r.Err? ==> r.error.line < |lines| && parseLine(lines[r.error.line]) == Err(r.error.reason)
    ensures r.Err? ==> forall i | 0 <= i < r.error.line :: parseLine(lines[i]).Ok?
  {
    if lines == [] then Ok([])
    else
      var n := |lines| - 1;
      match ParseLines(lines[..n], parseLine)
      case Err(e) => Err(e)
      case Ok(items) =>
        match parseLine(lines[n])
        case Err(reason) => Err(ParseError(n, reason))
        case Ok(item) => Ok(items + [item])
  }

  /** Every line parses exactly when the file does. */
  lemma ParseLinesOk<T>(lines: seq<string>, parseLine: string -> Result<T, LineError>)
    ensures ParseLines(lines, parseLine).Ok? <==> forall i | 0 <= i < |lines| :: parseLine(lines[i]).Ok?
  {
    var r := ParseLines(lines, parseLine);
    if r.Err? {
      assert !parseLine(lines[r.error.line]).Ok?;
    }
  }

  lemma ParseLinesPrefix<T>(lines: seq<string>, i: nat, parseLine: string -> Result<T, LineError>, items: seq<T>)
    requires i < |lines|
    requires ParseLines(lines[..i], parseLine) == Ok(items)
    ensures ParseLines(lines[..i + 1], parseLine) ==
      match parseLine(lines[i])
      case Err(reason) => Err(ParseError(i, reason))
      case Ok(item) => Ok(items + [item])
  {
    assert lines[..i + 1][..i] == lines[..i];
  }

  /** The file parsed into items and the items folded into a dictionary, last one wins. */
  function ToDict<K(==,!new), V>(r: Result<seq<(K, V)>, ParseError>): Result<Dict<K, V>, ParseError> {
    match r
    case Ok(items) => Ok(FromPairs(items))
    case Err(e) => Err(e)
  }

  // ---------------------------------------------------------------- <id>.edges

  /** One line of an edge file: exactly two whitespace-separated fields. */
  function EdgeOfLine(line: string): Result<(string, string), LineError> {
    var parts := Split(Strip(line));
    if |parts| == 2 then Ok((parts[0], parts[1])) else Err(WrongFieldCount(2, |parts|))
  }

  /** `parseEdges`: one `(src, dst)` pair per line, in line order. */
  method ParseEdges(lines: seq<string>) returns (r: Result<seq<(string, string)>, ParseError>)
    ensures r == ParseLines(lines, EdgeOfLine)
  {
    r := ParseEach(lines, EdgeOfLine);
  }

  /** The `for line in f:` loop of a parser that appends one item per line. */
  method ParseEach<T>(lines: seq<string>, parseLine: string -> Result<T, LineError>) returns (r: Result<seq<T>, ParseError>)
    ensures r == ParseLines(lines, parseLine)
  {
    var items: seq<T> := [];
    var i := 0;
    while i < |lines|
      invariant 0 <= i <= |lines|
      invariant ParseLines(lines[..i], parseLine) == Ok(items)
    {
      ParseLinesPrefix(lines, i, parseLine, items);
      match parseLine(lines[i])
      case Err(reason) =>
        ParseLinesFails(lines, i + 1, parseLine);
        return Err(ParseError(i, reason));
      case Ok(item) =>
        items := items + [item];
      i := i + 1;
    }
    assert lines[..i] == lines;
    r := Ok(items);
  }

  /** An error on line `i` of a prefix is the error of the whole file. */
  lemma {:induction false} ParseLinesFails<T>(lines: seq<string>, i: nat, parseLine: string -> Result<T, LineError>)
    requires i <= |lines|
    requires ParseLines(lines[..i], parseLine).Err?
    ensures ParseLines(lines, parseLine) == ParseLines(lines[..i], parseLine)
    decreases |lines| - i
  {
    if i < |lines| {
      assert lines[..i + 1][..i] == lines[..i];
      ParseLinesFails(lines, i + 1, parseLine);
    } else {
      assert lines[..i] == lines;
    }
  }

  /** A line `src dst` as the edge files hold it parses back to `(src, dst)`. */
  lemma EdgeLineRoundTrip(src: string, dst: string)
    requires src != [] && NoSpace(src) && dst != [] && NoSpace(dst)
    ensures EdgeOfLine(src + " " + dst + "\n") == Ok((src, dst))
  {
    var text := src + " " + dst;
    assert text == JoinSpaced([src, dst]);
    RStripTrailing(text, "\n");
    assert Strip(text + "\n") == text;
    SplitJoinSpaced([src, dst]);
  }

  /** A blank line is not an edge: it has no field at all. */
  lemma BlankLineIsNotAnEdge(line: string)
    requires AllSpace(line)
    ensures EdgeOfLine(line) == Err(WrongFieldCount(2, 0))
  {
    StripAllSpace(line);
    SplitEmpty(Strip(line));
  }

  // ---------------------------------------------------------------- <id>.featnames

  /**
    One line of a feature-name file: the text before the first space of the
    right-stripped line is the index (read by `int`), the rest is the name, kept whole.
   */
  function FeatNameOfLine(line: string): Result<(int, string), LineError> {
    match SplitAtSpace(RStrip(line))
    case None => Err(NoSeparator)
    case Some((idx, name)) =>
      match ParseInt(idx)
      case None => Err(NotAnInteger(idx))
      case Some(k) => Ok((k, name))
  }

  /** `parseFeatNames`: index -> name; a later line with the same index overwrites. */
  method ParseFeatNames(lines: seq<string>) returns (r: Result<Dict<int, string>, ParseError>)
    ensures r == ToDict(ParseLines(lines, FeatNameOfLine))
  {
    r := ParseIntoDict(lines, FeatNameOfLine);
  }

  /** The `for line in f: d[key] = value` loop the parsers of dictionaries share. */
  method ParseIntoDict<K(==,!new), V>(lines: seq<string>, parseLine: string -> Result<(K, V), LineError>)
    returns (r: Result<Dict<K, V>, ParseError>)
    ensures r == ToDict(ParseLines(lines, parseLine))
  {
    var d: Dict<K, V> := [];
    ghost var items: seq<(K, V)> := [];
    var i := 0;
    while i < |lines|
      invariant 0 <= i <= |lines|
      invariant ParseLines(lines[..i], parseLine) == Ok(items)
      invariant d == FromPairs(items)
    {
      ParseLinesPrefix(lines, i, parseLine, items);
      match parseLine(lines[i])
      case Err(reason) =>
        ParseLinesFails(lines, i + 1, parseLine);
        return Err(ParseError(i, reason));
      case Ok((key, value)) =>
        assert (items + [(key, value)])[..|items|] == items;
        d := Put(d, key, value);
        items := items + [(key, value)];
      i := i + 1;
    }
    assert lines[..i] == lines;
    r := Ok(d);
  }

  /**
    A line `<n> <name>` maps index `n` to the whole of `name`: the name is not split at
    `:` and keeps its inner spaces; only trailing whitespace is dropped.
   */
  lemma FeatNameLineRoundTrip(n: nat, name: string)
    requires name != [] && !IsSpace(name[|name| - 1])
    ensures FeatNameOfLine(Decimal(n) + " " + name + "\n") == Ok((n, name))
  {
    var text := Decimal(n) + " " + name;
    RStripTrailing(text, "\n");
    assert ' ' !in Decimal(n) by {
      var d := Decimal(n);
      forall k | 0 <= k < |d| ensures d[k] != ' ' { assert IsDigit(d[k]); }
    }
    SplitAtSpaceUnique(text, Decimal(n), name);
    DecimalRoundTrip(n);
  }

  /** In the parsed vocabulary an index names what the last line with that index says. */
  lemma ParseFeatNamesLastWins(lines: seq<string>, i: nat)
    requires ParseLines(lines, FeatNameOfLine).Ok?
    requires i < |lines|
    requires forall j | i < j < |lines| :: FeatNameOfLine(lines[j]).value.0 != FeatNameOfLine(lines[i]).value.0
    ensures Get(ToDict(ParseLines(lines, FeatNameOfLine)).value, FeatNameOfLine(lines[i]).value.0)
         == Some(FeatNameOfLine(lines[i]).value.1)
  {
    var items := ParseLines(lines, FeatNameOfLine).value;
    assert forall j | 0 <= j < |lines| :: FeatNameOfLine(lines[j]).value == items[j];
    FromPairsLastWins(items, i);
  }

  // ---------------------------------------------------------------- <id>.feat and <id>.egofeat

  /** The 0-based positions holding exactly the token "1", in increasing order. */
  function OnePositions(bits: seq<string>): (ps: seq<nat>)
    ensures |ps| <= |bits|
    ensures forall k | 0 <= k < |ps| :: ps[k] < |bits| && bits[ps[k]] == "1"
    ensures forall k, l | 0 <= k < l < |ps| :: ps[k] < ps[l]
    ensures forall i | 0 <= i < |bits| && bits[i] == "1" :: i in ps
  {
    if bits == [] then []
    else
      var n := |bits| - 1;
      var prior := OnePositions(bits[..n]);
      if bits[n] == "1" then prior + [n] else prior
  }

  /**
    `[featNames[i] for i, v in enumerate(bits) if v == "1"]`: the names at the "1"
    positions, in order; any other token is skipped unchecked. The first "1" at an index
    the vocabulary lacks is a `KeyError`.
   */
  function ActiveNames(bits: seq<string>, featNames: Dict<int, string>): Result<seq<string>, LineError> {
    if bits == [] then Ok([])
    else
      var n := |bits| - 1;
      match ActiveNames(bits[..n], featNames)
      case Err(e) => Err(e)
      case Ok(names) =>
        if bits[n] == "1" then
          match Get(featNames, n)
          case None => Err(UnknownFeatureIndex(n))
          case Some(name) => Ok(names + [name])
        else Ok(names)
  }

  /** The names are those of the "1" positions, in order, exactly when the vocabulary has every such index. */
  lemma {:induction false} ActiveNamesOk(bits: seq<string>, featNames: Dict<int, string>)
    ensures var r := ActiveNames(bits, featNames);
      && (r.Ok? <==> forall i | 0 <= i < |bits| && bits[i] == "1" :: Get(featNames, i).Some?)
      && (r.Ok? ==> |r.value| == |OnePositions(bits)| <= |bits|)
      && (r.Ok? ==> forall k | 0 <= k < |r.value| :: Get(featNames, OnePositions(bits)[k]) == Some(r.value[k]))
  {
    if bits != [] {
      var n := |bits| - 1;
      ActiveNamesOk(bits[..n], featNames);
      assert forall i | 0 <= i < n :: bits[..n][i] == bits[i];
    }
  }

  /** Otherwise the error names the first "1" whose index the vocabulary lacks. */
  lemma {:induction false} ActiveNamesErr(bits: seq<string>, featNames: Dict<int, string>)
    ensures var r := ActiveNames(bits, featNames);
      r.Err? ==> exists p | 0 <= p < |bits| ::
        (&& r.error == UnknownFeatureIndex(p)
         && bits[p] == "1" && Get(featNames, p).None?
         && forall i | 0 <= i < p && bits[i] == "1" :: Get(featNames, i).Some?)
  {
    if bits != [] {
      var n := |bits| - 1;
      ActiveNamesErr(bits[..n], featNames);
      ActiveNamesOk(bits[..n], featNames);
      assert forall i | 0 <= i < n :: bits[..n][i] == bits[i];
    }
  }

  /** One line of a feature file: a node id, then one token per vocabulary index. */
  function NodeFeaturesOfLine(line: string, featNames: Dict<int, string>): Result<(string, seq<string>), LineError> {
    var parts := Split(RStrip(line));
    if parts == [] then Err(EmptyLine)
    else
      match ActiveNames(parts[1..], featNames)
      case Err(reason) => Err(reason)
      case Ok(active) => Ok((parts[0], active))
  }

  /** `mapNamesToFeats`: node id -> its active feature names; a later line for the same node replaces it. */
  method MapNamesToFeats(lines: seq<string>, featNames: Dict<int, string>) returns (r: Result<Dict<string, seq<string>>, ParseError>)
    ensures r == ToDict(ParseLines(lines, line => NodeFeaturesOfLine(line, featNames)))
  {
    r := ParseIntoDict(lines, line => NodeFeaturesOfLine(line, featNames));
  }

  /**
    `mapNamesToEgoFeats`: only the first line is read (an empty file reads as ""); its
    tokens are all bits, and the result has the one key `egoId`.
   */
  function MapNamesToEgoFeats(lines: seq<string>, featNames: Dict<int, string>, egoId: string): (r: Result<Dict<string, seq<string>>, ParseError>)
    ensures r.Ok? ==> Keys(r.value) == [egoId]
    ensures r.Ok? ==> var bits := Split(Strip(if lines == [] then "" else lines[0]));
      && |r.value[0].1| == |OnePositions(bits)|
      && forall k | 0 <= k < |r.value[0].1| :: Get(featNames, OnePositions(bits)[k]) == Some(r.value[0].1[k])
    ensures var bits := Split(Strip(if lines == [] then "" else lines[0]));
      r.Ok? <==> forall i | 0 <= i < |bits| && bits[i] == "1" :: Get(featNames, i).Some?
    ensures r.Err? ==> var bits := Split(Strip(if lines == [] then "" else lines[0]));
      && r.error.line == 0
      && exists p | 0 <= p < |bits| ::
        (&& r.error.reason == UnknownFeatureIndex(p)
         && bits[p] == "1" && Get(featNames, p).None?
         && forall i | 0 <= i < p && bits[i] == "1" :: Get(featNames, i).Some?)
  {
    var first := if lines == [] then "" else lines[0];
    var values := Split(Strip(first));
    ActiveNamesOk(values, featNames);
    ActiveNamesErr(values, featNames);
    match ActiveNames(values, featNames)
    case Err(reason) => Err(ParseError(0, reason))
    case Ok(active) => Ok([(egoId, active)])
  }

  // ---------------------------------------------------------------- <id>.circles

  /** One line of a circle file: the circle name, then its members. */
  function CircleOfLine(line: string): Result<(string, seq<string>), LineError> {
    var parts := Split(Strip(line));
    if parts == [] then Err(EmptyLine) else Ok((parts[0], parts[1..]))
  }

  /** `for v in vs: d[k].append(v)` on a `defaultdict(list)`. */
  function Extend(d: Dict<string, seq<string>>, k: string, vs: seq<string>): Dict<string, seq<string>> {
    if vs == [] then d
    else
      var n := |vs| - 1;
      Append(Extend(d, k, vs[..n]), k, vs[n])
  }

  /** Appending `vs` one by one: `d[k]` grows by `vs`, and is created only if `vs` is non-empty. */
  lemma ExtendGet(d: Dict<string, seq<string>>, k: string, vs: seq<string>)
    ensures Get(Extend(d, k, vs), k) == if Get(d, k).None? && vs == [] then None else Some(Get(d, k).GetOr([]) + vs)
  {
    ExtendValues(d, k, vs);
    if vs == [] {
      assert Get(d, k).GetOr([]) + vs == Get(d, k).GetOr([]);
    }
  }

  /** What `d[k]` holds after the appends, counting a missing key as `[]`. */
  lemma {:induction false} ExtendValues(d: Dict<string, seq<string>>, k: string, vs: seq<string>)
    ensures Get(Extend(d, k, vs), k).GetOr([]) == Get(d, k).GetOr([]) + vs
    ensures vs != [] ==> Get(Extend(d, k, vs), k).Some?
  {
    if vs == [] {
      assert Get(d, k).GetOr([]) + vs == Get(d, k).GetOr([]);
    } else {
      var n := |vs| - 1;
      var g := Get(d, k).GetOr([]);
      ExtendValues(d, k, vs[..n]);
      var before := Get(Extend(d, k, vs[..n]), k).GetOr([]);
      assert Get(Extend(d, k, vs), k).GetOr([]) == before + [vs[n]];
      SnocLast(g, vs);
    }
  }

  /** Appending under `k` leaves every other key as it was. */
  lemma {:induction false} ExtendOther(d: Dict<string, seq<string>>, k: string, vs: seq<string>, k': string)
    requires k' != k
    ensures Get(Extend(d, k, vs), k') == Get(d, k')
  {
    if vs != [] {
      ExtendOther(d, k, vs[..|vs| - 1], k');
    }
  }

  /** A key is added, at the end, only by the first append under it. */
  lemma {:induction false} ExtendKeys(d: Dict<string, seq<string>>, k: string, vs: seq<string>)
    ensures Keys(Extend(d, k, vs)) == if vs == [] || k in Keys(d) then Keys(d) else Keys(d) + [k]
    ensures Valid(d) ==> Valid(Extend(d, k, vs))
  {
    if vs != [] {
      var n := |vs| - 1;
      ExtendKeys(d, k, vs[..n]);
      if n > 0 {
        assert k in Keys(Extend(d, k, vs[..n]));
      }
    }
  }

  /** The circle dictionary built from the parsed lines, in line order. */
  function Group(entries: seq<(string, seq<string>)>): Dict<string, seq<string>> {
    if entries == [] then []
    else
      var n := |entries| - 1;
      Extend(Group(entries[..n]), entries[n].0, entries[n].1)
  }

  /** `parseCircles`: members appended under their circle's name, line after line. */
  method ParseCircles(lines: seq<string>) returns (r: Result<Dict<string, seq<string>>, ParseError>)
    ensures r.Ok? <==> ParseLines(lines, CircleOfLine).Ok?
    ensures r.Ok? ==> r.value == Group(ParseLines(lines, CircleOfLine).value)
    ensures r.Err? ==> r == Err(ParseLines(lines, CircleOfLine).error)
  {
    var circles: Dict<string, seq<string>> := [];
    ghost var items: seq<(string, seq<string>)> := [];
    var i := 0;
    while i < |lines|
      invariant 0 <= i <= |lines|
      invariant ParseLines(lines[..i], CircleOfLine) == Ok(items)
      invariant circles == Group(items)
    {
      ParseLinesPrefix(lines, i, CircleOfLine, items);
      match CircleOfLine(lines[i])
      case Err(reason) =>
        ParseLinesFails(lines, i + 1, CircleOfLine);
        return Err(ParseError(i, reason));
      case Ok(entry) =>
        var (circle, members) := entry;
        circles := AppendMembers(circles, circle, members);
        SnocPrefix(items, entry);
        items := items + [entry];
        i := i + 1;
    }
    assert lines[..i] == lines;
    r := Ok(circles);
  }

  /** The inner loop of `parseCircles`: `for node_id in members: circles[circle].append(node_id)`. */
  method AppendMembers(circles: Dict<string, seq<string>>, circle: string, members: seq<string>)
    returns (r: Dict<string, seq<string>>)
    ensures r == Extend(circles, circle, members)
  {
    r := circles;
    var j := 0;
    while j < |members|
      invariant 0 <= j <= |members|
      invariant r == Extend(circles, circle, members[..j])
    {
      ExtendStep(circles, circle, members, j);
      r := Append(r, circle, members[j]);
      j := j + 1;
    }
    assert members[..j] == members;
  }

  /** The prefix of `vs` one longer appends one more value. */
  lemma ExtendStep(d: Dict<string, seq<string>>, k: string, vs: seq<string>, j: nat)
    requires j < |vs|
    ensures Extend(d, k, vs[..j + 1]) == Append(Extend(d, k, vs[..j]), k, vs[j])
  {
    var w := vs[..j + 1];
    assert w[..|w| - 1] == vs[..j];
  }

  /** All members listed for circle `c`, over every line naming it, in line order. */
  function MembersOf(entries: seq<(string, seq<string>)>, c: string): seq<string> {
    if entries == [] then []
    else
      var n := |entries| - 1;
      MembersOf(entries[..n], c) + (if entries[n].0 == c then entries[n].1 else [])
  }

  /**
    Lines that repeat a circle name concatenate their member lists, duplicates kept;
    a circle whose lines list no member is not a key at all.
   */
  lemma {:induction false} GroupMembers(entries: seq<(string, seq<string>)>, c: string)
    ensures Valid(Group(entries))
    ensures Get(Group(entries), c) == if MembersOf(entries, c) == [] then None else Some(MembersOf(entries, c))
  {
    if entries != [] {
      var n := |entries| - 1;
      var prior := Group(entries[..n]);
      var (name, members) := entries[n];
      GroupMembers(entries[..n], c);
      ExtendKeys(prior, name, members);
      assert Group(entries) == Extend(prior, name, members);
      if name == c {
        ExtendGet(prior, c, members);
        assert MembersOf(entries, c) == MembersOf(entries[..n], c) + members;
      } else {
        ExtendOther(prior, name, members, c);
        assert MembersOf(entries, c) == MembersOf(entries[..n], c) + [];
        assert MembersOf(entries, c) == MembersOf(entries[..n], c);
        assert Get(Group(entries), c) == Get(prior, c);
      }
    }
  }

  // ---------------------------------------------------------------- whitespace helpers

  lemma {:induction false} RStripTrailing(text: string, tail: string)
    requires text == [] || !IsSpace(text[|text| - 1])
    requires AllSpace(tail)
    ensures RStrip(text + tail) == text
    decreases |tail|
  {
    if tail == [] {
      assert text + tail == text;
    } else {
      var n := |tail| - 1;
      assert (text + tail)[..|text + tail| - 1] == text + tail[..n];
      RStripTrailing(text, tail[..n]);
    }
  }

  lemma StripAllSpace(s: string)
    requires AllSpace(s)
    ensures Strip(s) == []
  {
  }

  lemma {:induction false} SplitAtSpaceUnique(s: string, before: string, after: string)
    requires s == before + " " + after && ' ' !in before
    ensures SplitAtSpace(s) == Some((before, after))
  {
    if before != [] {
      assert s[1..] == before[1..] + " " + after;
      SplitAtSpaceUnique(s[1..], before[1..], after);
      assert [s[0]] + before[1..] == before;
    } else {
      assert s[1..] == after;
    }
  }
}
