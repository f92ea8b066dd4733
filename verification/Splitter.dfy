/**
 The framing of `pw-dump --monitor`: an unframed stream of JSON arrays is cut into blocks by
 counting brackets outside string literals.
 */
module Splitter {
  import opened Text

  /** The splitter between two characters. */
  datatype Scan = Scan(buf: string, depth: int, inString: bool, escaped: bool) {
    /** Between two blocks: the next `[` opens a block and its `]` closes it. */
    predicate Synchronised() {
      depth == 0 && !inString && !escaped
    }
    function Grow(text: string): Scan {
      this.(buf := buf + text)
    }
  }

  const FRESH := Scan("", 0, false, false)

  /** One character: the new state, and the raw block text this character completed, if any. */
  function Step(s: Scan, c: char): (Scan, seq<string>) {
    var s := s.Grow([c]);
    if s.escaped then (s.(escaped := false), [])
    else if c == '\\' && s.inString then (s.(escaped := true), [])
    else if c == '\"' then (s.(inString := !s.inString), [])
    else if c == '[' && !s.inString then (s.(depth := s.depth + 1), [])
    else if c == ']' && !s.inString then
      if s.depth == 1 then (s.(depth := 0, buf := ""), [s.buf]) else (s.(depth := s.depth - 1), [])
    else (s, [])
  }

  /** A whole text, character by character: the last state and the raw blocks in order. */
  function Run(s: Scan, text: string): (Scan, seq<string>) {
    if text == "" then (s, [])
    else
      var (mid, blocks) := Run(s, text[..|text| - 1]);
      var (end, last) := Step(mid, text[|text| - 1]);
      (end, blocks + last)
  }

  /** Parsed blocks; a text the parser refuses is dropped. */
  function Parsed<Block>(parse: string -> Option<Block>, raws: seq<string>): seq<Block> {
    if raws == [] then []
    else
      var front := Parsed(parse, raws[..|raws| - 1]);
      match parse(Trim(raws[|raws| - 1]))
      case Some(b) => front + [b]
      case None => front
  }

  lemma NothingRun(s: Scan, text: string)
    ensures Run(s, text[..0]) == (s, [])
  {
  }

  lemma RunNext(s: Scan, text: string, i: nat)
    requires i < |text|
    ensures var (mid, blocks) := Run(s, text[..i]);
            Run(s, text[..i + 1]) == (Step(mid, text[i]).0, blocks + Step(mid, text[i]).1)
  {
    hide Step;
    assert text[..i + 1][..i] == text[..i];
  }

  lemma NothingParsed<Block>(parse: string -> Option<Block>)
    ensures Parsed(parse, []) == []
  {
  }

  lemma ParsedNext<Block>(parse: string -> Option<Block>, raws: seq<string>, raw: string)
    ensures Parsed(parse, raws + [raw]) == match parse(Trim(raw))
                                           case Some(b) => Parsed(parse, raws) + [b]
                                           case None => Parsed(parse, raws)
  {
    hide Trim;
    assert (raws + [raw])[..|raws|] == raws;
  }

  class BlockSplitter<Block> {
    var buf: string
    var depth: int
    var inString: bool
    var escaped: bool

    function State(): Scan
      reads this
    {
      Scan(buf, depth, inString, escaped)
    }

    constructor ()
      ensures State() == FRESH
    {
      buf, depth, inString, escaped := "", 0, false, false;
    }

    /** Runs the scanner over the chunk and returns, parsed, the texts it completes. */
    method Feed(chunk: string, parse: string -> Option<Block>) returns (out: seq<Block>)
      modifies this
      ensures State() == Run(old(State()), chunk).0
      ensures out == Parsed(parse, Run(old(State()), chunk).1)
    {
      hide Run, Parsed, Trim;
      out := [];
      ghost var raws: seq<string> := [];
      NothingRun(State(), chunk);
      NothingParsed(parse);
      for i := 0 to |chunk|
        invariant Run(old(State()), chunk[..i]) == (State(), raws)
        invariant out == Parsed(parse, raws)
      {
        var ch := chunk[i];
        RunNext(old(State()), chunk, i);
        assert raws + [] == raws;
        buf := buf + [ch];
        if escaped {
          escaped := false;
          continue;
        }
        if ch == '\\' && inString {
          escaped := true;
        } else if ch == '\"' {
          inString := !inString;
        } else if ch == '[' && !inString {
          depth := depth + 1;
        } else if ch == ']' && !inString {
          depth := depth - 1;
          if depth == 0 {
            var text := buf;
            buf := "";
            match parse(Trim(text)) {
              case Some(b) => out := out + [b];
              case None =>
            }
            ParsedNext(parse, raws, text);
            raws := raws + [text];
          }
        }
      }
      assert chunk[..|chunk|] == chunk;
    }
  }

  // ---------------------------------------------------------------------------
  // Chunking does not matter, and no character is lost
  // ---------------------------------------------------------------------------

  lemma {:induction false} RunConcat(s: Scan, a: string, b: string)
    ensures Run(s, a + b) == (Run(Run(s, a).0, b).0, Run(s, a).1 + Run(Run(s, a).0, b).1)
  {
    if b == "" {
      assert a + b == a;
      assert Run(s, a).1 + [] == Run(s, a).1;
    } else {
      var ab, n := a + b, |b| - 1;
      assert ab[..|ab| - 1] == a + b[..n] && ab[|ab| - 1] == b[n];
      RunConcat(s, a, b[..n]);
      var (mid, front) := Run(s, a);
      var (last, back) := Run(mid, b[..n]);
      assert (front + back) + Step(last, b[n]).1 == front + (back + Step(last, b[n]).1);
    }
  }

  /** Two readings in a row. */
  lemma RunThen(s: Scan, a: string, mid: Scan, ra: seq<string>, b: string, end: Scan, rb: seq<string>)
    requires Run(s, a) == (mid, ra) && Run(mid, b) == (end, rb)
    ensures Run(s, a + b) == (end, ra + rb)
  {
    RunConcat(s, a, b);
  }

  /** ... the first of which completes nothing. */
  lemma QuietThen(s: Scan, a: string, mid: Scan, b: string, end: Scan, rb: seq<string>)
    requires Run(s, a) == (mid, []) && Run(mid, b) == (end, rb)
    ensures Run(s, a + b) == (end, rb)
  {
    hide Run;
    RunThen(s, a, mid, [], b, end, rb);
    assert [] + rb == rb;
  }

  function Concat(parts: seq<string>): string {
    if parts == [] then "" else parts[0] + Concat(parts[1..])
  }

  lemma {:induction false} ConcatAppend(a: seq<string>, b: seq<string>)
    ensures Concat(a + b) == Concat(a) + Concat(b)
  {
    if a == [] {
      assert a + b == b;
    } else {
      assert (a + b)[1..] == a[1..] + b;
      ConcatAppend(a[1..], b);
    }
  }

  /** Feeding chunk after chunk, as the reader loop does. */
  function RunAll(s: Scan, chunks: seq<string>): (Scan, seq<string>)
    decreases |chunks|
  {
    if chunks == [] then (s, [])
    else
      var (mid, first) := Run(s, chunks[0]);
      var (end, rest) := RunAll(mid, chunks[1..]);
      (end, first + rest)
  }

  /** However the stream is cut into chunks, the splitter ends in the same state with the same blocks. */
  lemma {:induction false} ChunkingIsIrrelevant(s: Scan, chunks: seq<string>)
    ensures RunAll(s, chunks) == Run(s, Concat(chunks))
    decreases |chunks|
  {
    if chunks != [] {
      RunConcat(s, chunks[0], Concat(chunks[1..]));
      ChunkingIsIrrelevant(Run(s, chunks[0]).0, chunks[1..]);
    }
  }

  /** One character's worth of the conservation law. */
  lemma StepKeepsText(s: Scan, c: char)
    ensures Concat(Step(s, c).1) + Step(s, c).0.buf == s.buf + [c]
  {
    var (end, last) := Step(s, c);
    if last != [] {
      assert last[1..] == [] && Concat(last) == last[0] + "";
    }
  }

  /** Every character fed is in exactly one emitted block or still in the buffer, in order. */
  lemma {:induction false} NothingLost(s: Scan, text: string)
    ensures Concat(Run(s, text).1) + Run(s, text).0.buf == s.buf + text
  {
    if text != "" {
      var n := |text| - 1;
      var (mid, blocks) := Run(s, text[..n]);
      NothingLost(s, text[..n]);
      StepKeepsText(mid, text[n]);
      var (end, last) := Step(mid, text[n]);
      ConcatAppend(blocks, last);
      Regroup(Concat(blocks), Concat(last), end.buf, mid.buf, [text[n]]);
      Rejoin(s.buf, text);
    }
  }

  lemma Regroup(a: string, b: string, c: string, d: string, e: string)
    requires b + c == d + e
    ensures (a + b) + c == (a + d) + e
  {
    assert (a + b) + c == a + (b + c);
  }

  lemma Rejoin(s: string, text: string)
    requires text != ""
    ensures (s + text[..|text| - 1]) + [text[|text| - 1]] == s + text
  {
  }

  // ---------------------------------------------------------------------------
  // The text grammar of RFC 8259, sections 2, 5 and 7
  // ---------------------------------------------------------------------------

  /** One unit of a string literal (section 7): a plain character or a backslash escape. `\uXXXX` is `Escape('u')`
      followed by four plain characters. */
  datatype StrUnit = Plain(c: char) | Escape(c: char)

  /** A JSON text with its whitespace. The separators and brackets are what `Print` adds. */
  datatype Json =
    | Scalar(text: string)
    | Str(units: seq<StrUnit>)
    | EmptyArr(pad: string)
    | Arr(items: Items)
    | EmptyObj(pad: string)
    | Obj(members: Members)

  datatype Items =
    | Item(before: string, value: Json, after: string)
    | Comma(before: string, value: Json, after: string, rest: Items)

  datatype Members =
    | Member(before: string, key: seq<StrUnit>, mid: string, colon: string, value: Json, after: string)
    | CommaM(before: string, key: seq<StrUnit>, mid: string, colon: string, value: Json, after: string, rest: Members)

  function PrintUnits(units: seq<StrUnit>): string {
    if units == [] then ""
    else (match units[0] case Plain(c) => [c] case Escape(c) => ['\\', c]) + PrintUnits(units[1..])
  }

  function PrintStr(units: seq<StrUnit>): string {
    ['\"'] + PrintUnits(units) + ['\"']
  }

  function Print(v: Json): string {
    match v
    case Scalar(text) => text
    case Str(units) => PrintStr(units)
    case EmptyArr(pad) => ['['] + pad + [']']
    case Arr(items) => ['['] + PrintItems(items) + [']']
    case EmptyObj(pad) => ['{'] + pad + ['}']
    case Obj(members) => ['{'] + PrintMembers(members) + ['}']
  }

  function PrintItems(items: Items): string {
    match items
    case Item(before, value, after) => before + Print(value) + after
    case Comma(before, value, after, rest) => before + Print(value) + after + [','] + PrintItems(rest)
  }

  function PrintMembers(members: Members): string {
    match members
    case Member(before, key, mid, colon, value, after) =>
      before + PrintStr(key) + mid + [':'] + colon + Print(value) + after
    case CommaM(before, key, mid, colon, value, after, rest) =>
      before + PrintStr(key) + mid + [':'] + colon + Print(value) + after + [','] + PrintMembers(rest)
  }

  /** No quote and no bracket: every number and literal name of sections 3 and 6, and all whitespace. */
  predicate Inert(s: string) {
    forall i | 0 <= i < |s| :: s[i] != '\"' && s[i] != '[' && s[i] != ']'
  }

  predicate WfUnits(units: seq<StrUnit>) {
    forall u | u in units :: u.Plain? ==> u.c != '\"' && u.c != '\\'
  }

  predicate Wf(v: Json) {
    match v
    case Scalar(text) => Inert(text)
    case Str(units) => WfUnits(units)
    case EmptyArr(pad) => AllSpace(pad)
    case Arr(items) => WfItems(items)
    case EmptyObj(pad) => AllSpace(pad)
    case Obj(members) => WfMembers(members)
  }

  predicate WfItems(items: Items) {
    && AllSpace(items.before) && Wf(items.value) && AllSpace(items.after)
    && (items.Comma? ==> WfItems(items.rest))
  }

  predicate WfMembers(members: Members) {
    && AllSpace(members.before) && WfUnits(members.key) && AllSpace(members.mid) && AllSpace(members.colon)
    && Wf(members.value) && AllSpace(members.after)
    && (members.CommaM? ==> WfMembers(members.rest))
  }

  // ---------------------------------------------------------------------------
  // Inside a block nothing is emitted and the depth returns
  // ---------------------------------------------------------------------------

  /** Reading `text` from `s` only lengthens the buffer. */
  predicate Quiet(s: Scan, text: string) {
    Run(s, text) == (s.Grow(text), [])
  }

  lemma QuietEmpty(s: Scan)
    ensures Quiet(s, "")
  {
    assert s.buf + "" == s.buf;
  }

  lemma QuietConcat(s: Scan, a: string, b: string)
    requires Quiet(s, a) && Quiet(s.Grow(a), b)
    ensures Quiet(s, a + b)
  {
    RunConcat(s, a, b);
    assert s.buf + (a + b) == s.buf + a + b;
  }

  lemma RunOne(s: Scan, c: char)
    ensures Run(s, [c]) == Step(s, c)
  {
    assert [c][..0] == "";
    assert Run(s, "") == (s, []);
    assert [] + Step(s, c).1 == Step(s, c).1;
  }

  lemma {:induction false} QuietInert(s: Scan, text: string)
    requires !s.inString && !s.escaped && Inert(text)
    ensures Quiet(s, text)
  {
    if text == "" {
      QuietEmpty(s);
    } else {
      var n := |text| - 1;
      QuietInert(s, text[..n]);
      RunOne(s.Grow(text[..n]), text[n]);
      QuietConcat(s, text[..n], [text[n]]);
      assert text == text[..n] + [text[n]];
    }
  }

  lemma SpaceIsInert(pad: string)
    requires AllSpace(pad)
    ensures Inert(pad)
  {
    forall i | 0 <= i < |pad| ensures pad[i] != '\"' && pad[i] != '[' && pad[i] != ']' {
      assert IsSpace(pad[i]);
    }
  }

  lemma QuietSpace(s: Scan, pad: string)
    requires !s.inString && !s.escaped && AllSpace(pad)
    ensures Quiet(s, pad)
  {
    SpaceIsInert(pad);
    QuietInert(s, pad);
  }

  /** Inside a literal every unit is swallowed: brackets, escaped quotes and escaped backslashes alike. */
  lemma {:induction false} QuietUnits(s: Scan, units: seq<StrUnit>)
    requires s.inString && !s.escaped && WfUnits(units)
    ensures Quiet(s, PrintUnits(units))
    decreases |units|
  {
    if units == [] {
      QuietEmpty(s);
    } else {
      assert units[0] in units;
      var first := match units[0] case Plain(c) => [c] case Escape(c) => ['\\', c];
      assert Quiet(s, first) by {
        match units[0] {
          case Plain(c) => RunOne(s, c);
          case Escape(c) =>
            RunOne(s, '\\');
            RunOne(Step(s, '\\').0, c);
            RunConcat(s, ['\\'], [c]);
            assert ['\\'] + [c] == first;
            assert s.buf + ['\\'] + [c] == s.buf + first;
        }
      }
      assert WfUnits(units[1..]);
      QuietUnits(s.Grow(first), units[1..]);
      QuietConcat(s, first, PrintUnits(units[1..]));
    }
  }

  /** A quote outside a string opens one, and inside closes it. */
  lemma RunQuote(s: Scan)
    requires !s.escaped
    ensures Run(s, ['\"']) == (s.(inString := !s.inString).Grow(['\"']), [])
  {
    RunOne(s, '\"');
  }

  lemma QuietStr(s: Scan, units: seq<StrUnit>)
    requires !s.inString && !s.escaped && WfUnits(units)
    ensures Quiet(s, PrintStr(units))
  {
    hide Run, PrintUnits, WfUnits;
    var open, body := s.(inString := true).Grow(['\"']), PrintUnits(units);
    RunQuote(s);
    QuietUnits(open, units);
    QuietThen(s, ['\"'], open, body, open.Grow(body), []);
    RunQuote(open.Grow(body));
    QuietThen(s, ['\"'] + body, open.Grow(body), ['\"'], open.Grow(body).(inString := false).Grow(['\"']), []);
    assert s.buf + ['\"'] + body + ['\"'] == s.buf + PrintStr(units);
  }

  lemma GrowGrow(s: Scan, a: string, b: string)
    ensures s.Grow(a).Grow(b) == s.Grow(a + b)
  {
    assert s.buf + a + b == s.buf + (a + b);
  }

  /** An opening bracket and a quiet body. */
  lemma RunOpening(s: Scan, deeper: Scan, body: string)
    requires !s.inString && !s.escaped && deeper == s.(depth := s.depth + 1)
    requires Quiet(deeper.Grow("["), body)
    ensures Run(s, "[" + body) == (deeper.Grow("[" + body), [])
  {
    hide Run;
    assert Run(s, "[") == (deeper.Grow("["), []) by { RunOne(s, '['); }
    GrowGrow(deeper, "[", body);
    QuietThen(s, "[", deeper.Grow("["), body, deeper.Grow("[" + body), []);
  }

  /** ... and the closing bracket. */
  lemma RunBrackets(s: Scan, deeper: Scan, body: string)
    requires !s.inString && !s.escaped && deeper == s.(depth := s.depth + 1)
    requires Quiet(deeper.Grow("["), body)
    ensures Run(s, "[" + body + "]") == Step(deeper.Grow("[" + body), ']')
  {
    RunOpening(s, deeper, body);
    var before := deeper.Grow("[" + body);
    assert Run(before, "]") == Step(before, ']') by { RunOne(before, ']'); }
    QuietThen(s, "[" + body, before, "]", Step(before, ']').0, Step(before, ']').1);
  }

  /** Below the top level a bracketed text is quiet. */
  lemma QuietBrackets(s: Scan, body: string)
    requires !s.inString && !s.escaped && s.depth >= 1
    requires Quiet(s.(depth := s.depth + 1).Grow("["), body)
    ensures Quiet(s, "[" + body + "]")
  {
    RunBrackets(s, s.(depth := s.depth + 1), body);
    GrowGrow(s, "[" + body, "]");
  }

  /** At the top level it is a block. */
  lemma BlockBrackets(s: Scan, body: string)
    requires s.Synchronised()
    requires Quiet(s.(depth := 1).Grow("["), body)
    ensures Run(s, "[" + body + "]") == (FRESH, [s.buf + ("[" + body + "]")])
  {
    RunBrackets(s, s.(depth := 1), body);
    GrowGrow(s, "[" + body, "]");
  }

  lemma QuietBraces(s: Scan, body: string)
    requires !s.inString && !s.escaped && Quiet(s.Grow(['{']), body)
    ensures Quiet(s, ['{'] + body + ['}'])
  {
    RunOne(s, '{');
    QuietConcat(s, ['{'], body);
    var text := ['{'] + body;
    RunOne(s.Grow(text), '}');
    QuietConcat(s, text, ['}']);
  }

  lemma {:induction false} QuietValue(s: Scan, v: Json)
    requires !s.inString && !s.escaped && s.depth >= 1 && Wf(v)
    ensures Quiet(s, Print(v))
    decreases v
  {
    match v {
      case Scalar(text) => QuietInert(s, text);
      case Str(units) => QuietStr(s, units);
      case EmptyArr(pad) =>
        QuietSpace(s.(depth := s.depth + 1).Grow(['[']), pad);
        QuietBrackets(s, pad);
      case Arr(items) =>
        QuietItems(s.(depth := s.depth + 1).Grow(['[']), items);
        QuietBrackets(s, PrintItems(items));
      case EmptyObj(pad) =>
        QuietSpace(s.Grow(['{']), pad);
        QuietBraces(s, pad);
      case Obj(members) =>
        QuietMembers(s.Grow(['{']), members);
        QuietBraces(s, PrintMembers(members));
    }
  }

  lemma {:induction false} QuietItems(s: Scan, items: Items)
    requires !s.inString && !s.escaped && s.depth >= 1 && WfItems(items)
    ensures Quiet(s, PrintItems(items))
    decreases items
  {
    QuietSpace(s, items.before);
    QuietValue(s.Grow(items.before), items.value);
    QuietConcat(s, items.before, Print(items.value));
    var text := items.before + Print(items.value);
    QuietSpace(s.Grow(text), items.after);
    QuietConcat(s, text, items.after);
    if items.Comma? {
      text := text + items.after;
      QuietInert(s.Grow(text), [',']);
      QuietConcat(s, text, [',']);
      text := text + [','];
      QuietItems(s.Grow(text), items.rest);
      QuietConcat(s, text, PrintItems(items.rest));
    }
  }

  lemma {:induction false} QuietMembers(s: Scan, members: Members)
    requires !s.inString && !s.escaped && s.depth >= 1 && WfMembers(members)
    ensures Quiet(s, PrintMembers(members))
    decreases members
  {
    var text := members.before;
    QuietSpace(s, text);
    QuietStr(s.Grow(text), members.key);
    QuietConcat(s, text, PrintStr(members.key));
    text := text + PrintStr(members.key);
    QuietSpace(s.Grow(text), members.mid);
    QuietConcat(s, text, members.mid);
    text := text + members.mid;
    QuietInert(s.Grow(text), [':']);
    QuietConcat(s, text, [':']);
    text := text + [':'];
    QuietSpace(s.Grow(text), members.colon);
    QuietConcat(s, text, members.colon);
    text := text + members.colon;
    QuietValue(s.Grow(text), members.value);
    QuietConcat(s, text, Print(members.value));
    text := text + Print(members.value);
    QuietSpace(s.Grow(text), members.after);
    QuietConcat(s, text, members.after);
    if members.CommaM? {
      text := text + members.after;
      QuietInert(s.Grow(text), [',']);
      QuietConcat(s, text, [',']);
      text := text + [','];
      QuietMembers(s.Grow(text), members.rest);
      QuietConcat(s, text, PrintMembers(members.rest));
    }
  }

  // ---------------------------------------------------------------------------
  // The stream theorem
  // ---------------------------------------------------------------------------

  predicate IsArray(v: Json) {
    v.EmptyArr? || v.Arr?
  }

  lemma PrintedArrayShape(v: Json)
    requires IsArray(v)
    ensures |Print(v)| >= 2 && Print(v)[0] == '[' && Print(v)[|Print(v)| - 1] == ']' && Trimmed(Print(v))
  {
  }

  /**
   A whole array read between blocks: everything buffered so far plus the array is emitted, and the buffer is empty.
   */
  lemma OneBlock(s: Scan, v: Json)
    requires s.Synchronised() && IsArray(v) && Wf(v)
    ensures Run(s, Print(v)) == (FRESH, [s.buf + Print(v)])
  {
    var inner := s.(depth := 1).Grow(['[']);
    if v.EmptyArr? {
      QuietSpace(inner, v.pad);
      BlockBrackets(s, v.pad);
    } else {
      QuietItems(inner, v.items);
      BlockBrackets(s, PrintItems(v.items));
    }
  }

  /** An array of the stream, with the whitespace in front of it. */
  datatype Framed = Framed(gap: string, arr: Json)

  predicate WfStream(stream: seq<Framed>) {
    forall f | f in stream :: AllSpace(f.gap) && IsArray(f.arr) && Wf(f.arr)
  }

  function PrintStream(stream: seq<Framed>): string {
    if stream == [] then "" else stream[0].gap + Print(stream[0].arr) + PrintStream(stream[1..])
  }

  function RawBlocks(stream: seq<Framed>): seq<string> {
    seq(|stream|, i requires 0 <= i < |stream| => stream[i].gap + Print(stream[i].arr))
  }

  lemma RawBlocksCons(stream: seq<Framed>)
    requires stream != []
    ensures RawBlocks(stream) == [stream[0].gap + Print(stream[0].arr)] + RawBlocks(stream[1..])
  {
  }

  lemma FramedBlock(s: Scan, f: Framed)
    requires s.Synchronised() && AllSpace(f.gap) && IsArray(f.arr) && Wf(f.arr)
    ensures Run(s, f.gap + Print(f.arr)) == (FRESH, [s.buf + (f.gap + Print(f.arr))])
  {
    hide Run, Print, Wf, AllSpace;
    var arr, raw := Print(f.arr), s.buf + (f.gap + Print(f.arr));
    QuietSpace(s, f.gap);
    OneBlock(s.Grow(f.gap), f.arr);
    Assoc(s.buf, f.gap, arr);
    QuietThen(s, f.gap, s.Grow(f.gap), arr, FRESH, [raw]);
    assert [] + [raw] == [raw];
  }

  lemma Assoc(a: string, b: string, c: string)
    ensures a + b + c == a + (b + c)
  {
  }

  lemma {:induction false} RawStream(stream: seq<Framed>)
    requires WfStream(stream)
    ensures Run(FRESH, PrintStream(stream)) == (FRESH, RawBlocks(stream))
  {
    if stream == [] {
      assert RawBlocks(stream) == [];
    } else {
      assert stream[0] in stream && WfStream(stream[1..]);
      var first := stream[0].gap + Print(stream[0].arr);
      FramedBlock(FRESH, stream[0]);
      assert "" + first == first;
      RawStream(stream[1..]);
      RawBlocksCons(stream);
      RunThen(FRESH, first, FRESH, [first], PrintStream(stream[1..]), FRESH, RawBlocks(stream[1..]));
    }
  }

  lemma FramedTrim(f: Framed)
    requires AllSpace(f.gap) && IsArray(f.arr)
    ensures Trim(f.gap + Print(f.arr)) == Print(f.arr)
  {
    PrintedArrayShape(f.arr);
    TrimPadded(f.gap, Print(f.arr));
  }

  /** The texts handed to the parser: one per array, exactly as printed. */
  lemma RawBlocksTrim(stream: seq<Framed>)
    requires WfStream(stream)
    ensures forall i | 0 <= i < |stream| :: Trim(RawBlocks(stream)[i]) == Print(stream[i].arr)
  {
    forall i | 0 <= i < |stream| ensures Trim(RawBlocks(stream)[i]) == Print(stream[i].arr) {
      assert stream[i] in stream;
      FramedTrim(stream[i]);
    }
  }

  /** What a parser makes of a list of texts, dropping what it refuses. */
  function ParseEach<Block>(parse: string -> Option<Block>, texts: seq<string>): seq<Block> {
    if texts == [] then []
    else
      var front := ParseEach(parse, texts[..|texts| - 1]);
      match parse(texts[|texts| - 1])
      case Some(b) => front + [b]
      case None => front
  }

  lemma {:induction false} ParsedIsParseEach<Block>(parse: string -> Option<Block>, raws: seq<string>,
                                                    texts: seq<string>)
    requires |raws| == |texts| && forall i | 0 <= i < |raws| :: Trim(raws[i]) == texts[i]
    ensures Parsed(parse, raws) == ParseEach(parse, texts)
  {
    if raws != [] {
      ParsedIsParseEach(parse, raws[..|raws| - 1], texts[..|texts| - 1]);
    }
  }

  /** The texts of a stream's arrays, as printed. */
  function Texts(stream: seq<Framed>): seq<string> {
    seq(|stream|, i requires 0 <= i < |stream| => Print(stream[i].arr))
  }

  /** The same stream with whitespace after it, in any chunks, before parsing. */
  lemma RawChunks(stream: seq<Framed>, tail: string, chunks: seq<string>)
    requires WfStream(stream) && AllSpace(tail)
    requires Concat(chunks) == PrintStream(stream) + tail
    ensures RunAll(FRESH, chunks) == (FRESH.Grow(tail), RawBlocks(stream))
  {
    ChunkingIsIrrelevant(FRESH, chunks);
    RawStream(stream);
    QuietSpace(FRESH, tail);
    RunThen(FRESH, PrintStream(stream), FRESH, RawBlocks(stream), tail, FRESH.Grow(tail), []);
    assert RawBlocks(stream) + [] == RawBlocks(stream);
  }

  /**
   Any stream of JSON arrays, separated and followed by any whitespace and cut into any chunks: the splitter hands
   the parser exactly the printed arrays, once each and in order, and ends between blocks holding only the trailing
   whitespace.
   */
  lemma StreamIsSplitExactly<Block>(
      stream: seq<Framed>, tail: string, chunks: seq<string>, parse: string -> Option<Block>)
    requires WfStream(stream) && AllSpace(tail)
    requires Concat(chunks) == PrintStream(stream) + tail
    ensures RunAll(FRESH, chunks).0 == Scan(tail, 0, false, false)
    ensures Parsed(parse, RunAll(FRESH, chunks).1) == ParseEach(parse, Texts(stream))
  {
    RawChunks(stream, tail, chunks);
    assert "" + tail == tail;
    RawBlocksTrim(stream);
    ParsedIsParseEach(parse, RawBlocks(stream), Texts(stream));
  }

  /** An escape is only ever pending inside a literal. */
  predicate Reachable(s: Scan) {
    s.escaped ==> s.inString
  }

  lemma {:induction false} ReachableKept(s: Scan, text: string)
    requires Reachable(s)
    ensures Reachable(Run(s, text).0)
  {
    if text != "" {
      ReachableKept(s, text[..|text| - 1]);
    }
  }

  lemma UnsynchronisedLosesABlock(s: Scan)
    requires Reachable(s) && !s.Synchronised()
    ensures Run(s, "[]").1 == []
  {
    RunOne(s, '[');
    RunOne(Step(s, '[').0, ']');
    RunConcat(s, "[", "]");
    assert "[" + "]" == "[]";
  }

  /**
   When a bad text does and does not poison what follows. After any reachable state, every next array comes out as one
   block (with the leftover in front of it) exactly when the state is synchronised: a stray bracket or an open literal
   loses at least `[]`.
   */
  lemma RecoversIffSynchronised(s: Scan)
    requires Reachable(s)
    ensures s.Synchronised() <==>
            forall v | IsArray(v) && Wf(v) :: Run(s, Print(v)) == (FRESH, [s.buf + Print(v)])
  {
    if s.Synchronised() {
      forall v | IsArray(v) && Wf(v) ensures Run(s, Print(v)) == (FRESH, [s.buf + Print(v)]) {
        OneBlock(s, v);
      }
    } else {
      var v := EmptyArr("");
      assert IsArray(v) && Wf(v) && Print(v) == "[]";
      UnsynchronisedLosesABlock(s);
    }
  }

  /**
   A refused text costs at most the next block: from any synchronised state, whatever garbage is buffered, the first
   array of a stream is handed over with the garbage in front of it and all the others exactly.
   */
  lemma GarbageCostsOneBlock(s: Scan, stream: seq<Framed>)
    requires s.Synchronised() && WfStream(stream) && stream != []
    ensures Run(s, PrintStream(stream))
         == (FRESH, [s.buf + RawBlocks(stream)[0]] + RawBlocks(stream[1..]))
  {
    assert stream[0] in stream && WfStream(stream[1..]);
    FramedBlock(s, stream[0]);
    RawStream(stream[1..]);
    RunThen(s, stream[0].gap + Print(stream[0].arr), FRESH, [s.buf + RawBlocks(stream)[0]],
            PrintStream(stream[1..]), FRESH, RawBlocks(stream[1..]));
  }

  // ---------------------------------------------------------------------------
  // When the splitter never finds the blocks again
  // ---------------------------------------------------------------------------

  /** Two scanners that agree on strings keep agreeing, and keep their distance in depth. */
  lemma {:induction false} DepthShift(s: Scan, t: Scan, text: string)
    requires s.inString == t.inString && s.escaped == t.escaped
    ensures var a, b := Run(s, text).0, Run(t, text).0;
            a.inString == b.inString && a.escaped == b.escaped && a.depth - b.depth == s.depth - t.depth
  {
    if text != "" {
      DepthShift(s, t, text[..|text| - 1]);
    }
  }

  /** Below the top level a whole stream of arrays is quiet. */
  lemma {:induction false} QuietStream(s: Scan, stream: seq<Framed>)
    requires !s.inString && !s.escaped && s.depth >= 1 && WfStream(stream)
    ensures Quiet(s, PrintStream(stream))
    decreases |stream|
  {
    if stream == [] {
      QuietEmpty(s);
    } else {
      assert stream[0] in stream && WfStream(stream[1..]);
      var gap, arr := stream[0].gap, Print(stream[0].arr);
      QuietSpace(s, gap);
      QuietValue(s.Grow(gap), stream[0].arr);
      QuietConcat(s, gap, arr);
      QuietStream(s.Grow(gap + arr), stream[1..]);
      QuietConcat(s, gap + arr, PrintStream(stream[1..]));
    }
  }

  /**
   Outside a string a wrong depth stays exactly as wrong, whatever arrays follow; above zero nothing comes out at all.
   */
  lemma WrongDepthStays(s: Scan, stream: seq<Framed>)
    requires !s.inString && !s.escaped && WfStream(stream)
    ensures var end := Run(s, PrintStream(stream)).0;
            end.depth == s.depth && !end.inString && !end.escaped
    ensures s.depth >= 1 ==> Run(s, PrintStream(stream)).1 == []
  {
    var inside := Scan("", 1, false, false);
    QuietStream(inside, stream);
    DepthShift(s, inside, PrintStream(stream));
    if s.depth >= 1 {
      QuietStream(s, stream);
    }
  }

  lemma RunCons(s: Scan, c: char, rest: string)
    ensures Run(s, [c] + rest).0 == Run(Step(s, c).0, rest).0
  {
    RunOne(s, c);
    RunConcat(s, [c], rest);
  }

  /** An array holding one string. */
  function OneString(units: seq<StrUnit>): Json {
    Arr(Item("", Str(units), ""))
  }

  lemma PrintOneString(units: seq<StrUnit>)
    ensures Print(OneString(units)) == ['['] + (['\"'] + (PrintUnits(units) + (['\"'] + [']'])))
  {
    var inner := PrintStr(units);
    assert "" + inner + "" == inner;
    assert ['['] + inner + [']'] == ['['] + (['\"'] + (PrintUnits(units) + (['\"'] + [']'])));
  }

  /** Read from inside a string, an array with one string turns the string inside out. */
  lemma InsideOut(s: Scan, units: seq<StrUnit>, mid: Scan)
    requires Reachable(s) && s.inString
    requires Run(s.(inString := false, escaped := false).Grow(['[', '\"']), PrintUnits(units)).0 == mid
    ensures Run(s, Print(OneString(units))).0 == Step(Step(mid, '\"').0, ']').0
  {
    var tail := ['\"'] + [']'];
    var body := PrintUnits(units) + tail;
    PrintOneString(units);
    RunCons(s, '[', ['\"'] + body);
    var open := Step(s, '[').0;
    RunCons(open, '\"', body);
    var out := Step(open, '\"').0;
    assert out == s.(inString := false, escaped := false).Grow(['[', '\"']) by {
      assert s.buf + ['['] + ['\"'] == s.buf + ['[', '\"'];
    }
    RunConcat(out, PrintUnits(units), tail);
    RunCons(mid, '\"', [']']);
    RunOne(Step(mid, '\"').0, ']');
  }

  /** One bracket inside the string moves the depth and leaves the string open. */
  lemma MovesDepth(s: Scan, bracket: char)
    requires Reachable(s) && s.inString && (bracket == '[' || bracket == ']')
    ensures Wf(OneString([Plain(bracket)]))
    ensures var end := Run(s, Print(OneString([Plain(bracket)]))).0;
            end.inString && !end.escaped && end.depth == if bracket == '[' then s.depth + 1 else s.depth - 1
  {
    var units := [Plain(bracket)];
    var out := s.(inString := false, escaped := false).Grow(['[', '\"']);
    assert units[1..] == [] && PrintUnits(units) == [bracket] + PrintUnits(units[1..]) == [bracket];
    RunOne(out, bracket);
    InsideOut(s, units, Step(out, bracket).0);
  }

  /** A bracket and an escaped quote. */
  const BRACKET_AND_QUOTE := [Plain('['), Escape('\"')]

  /** Outside a string they open a block and a string; a quote and a bracket then close both. */
  lemma OpensBoth(out: Scan)
    requires out.Synchronised()
    ensures var mid := Run(out, PrintUnits(BRACKET_AND_QUOTE)).0;
            Step(Step(mid, '\"').0, ']').0.Synchronised()
  {
    var units := BRACKET_AND_QUOTE;
    assert PrintUnits(units) == ['['] + (['\\'] + ['\"']) by {
      assert units[1..] == [Escape('\"')] && units[1..][1..] == [];
      assert PrintUnits(units[1..]) == ['\\', '\"'] + "";
    }
    hide PrintUnits, Run;
    var first := Step(out, '[').0;
    RunCons(out, '[', ['\\'] + ['\"']);
    RunCons(first, '\\', ['\"']);
    RunOne(Step(first, '\\').0, '\"');
  }

  /** At depth zero they bring a splitter inside a string back. */
  lemma ComesBack(s: Scan)
    requires Reachable(s) && s.inString && s.depth == 0
    ensures Wf(OneString(BRACKET_AND_QUOTE))
    ensures Run(s, Print(OneString(BRACKET_AND_QUOTE))).0.Synchronised()
  {
    hide Step, Run, PrintUnits, Print;
    var out := s.(inString := false, escaped := false).Grow(['[', '\"']);
    OpensBoth(out);
    InsideOut(s, BRACKET_AND_QUOTE, Run(out, PrintUnits(BRACKET_AND_QUOTE)).0);
  }

  /** From inside a string some stream of arrays always leads back to the blocks. */
  lemma {:induction false} OpenStringCanRecover(s: Scan) returns (stream: seq<Framed>)
    requires Reachable(s) && s.inString
    ensures WfStream(stream) && Run(s, PrintStream(stream)).0.Synchronised()
    decreases if s.depth >= 0 then s.depth else -s.depth
  {
    if s.depth == 0 {
      ComesBack(s);
      var f := Framed("", OneString(BRACKET_AND_QUOTE));
      assert PrintStream([f]) == Print(f.arr) by {
        assert [f][1..] == [] && "" + Print(f.arr) + PrintStream([]) == Print(f.arr);
      }
      return [f];
    }
    var f := Framed("", OneString([Plain(if s.depth > 0 then ']' else '[')]));
    MovesDepth(s, if s.depth > 0 then ']' else '[');
    var rest := OpenStringCanRecover(Run(s, Print(f.arr)).0);
    stream := [f] + rest;
    assert PrintStream(stream) == Print(f.arr) + PrintStream(rest) by {
      assert stream[1..] == rest && "" + Print(f.arr) == Print(f.arr);
    }
    RunConcat(s, Print(f.arr), PrintStream(rest));
  }

  /**
   A state is lost for good, so that no stream of arrays ever leads back to the blocks, if and only if it is outside a
   string at a depth other than zero: a stray bracket is never made up for, an open string may be.
   */
  lemma LostForGood(s: Scan)
    requires Reachable(s)
    ensures (forall stream | WfStream(stream) :: !Run(s, PrintStream(stream)).0.Synchronised())
       <==> !s.inString && s.depth != 0
  {
    if s.inString {
      var stream := OpenStringCanRecover(s);
    } else if s.depth == 0 {
      assert WfStream([]) && PrintStream([]) == "" && Run(s, "").0 == s;
    } else {
      forall stream | WfStream(stream) ensures !Run(s, PrintStream(stream)).0.Synchronised() {
        WrongDepthStays(s, stream);
      }
    }
  }
}
