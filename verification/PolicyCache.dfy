/** The allowlist cache: the helper prints what it was sent and parses it back at the next boot. */
module PolicyCache {
  import opened Text
  import opened Common
  import opened Kernel
  import opened PolicyPush

  // ---------------------------------------------------------------------------
  // The permission word
  // ---------------------------------------------------------------------------

  const BOTH: Perms := 3

  function PermsWord(perms: Perms): string {
    if Has(perms, PERM_CAMERA) then (if Has(perms, PERM_AUDIO) then "camera" + "," + "audio" else "camera")
    else if Has(perms, PERM_AUDIO) then "audio"
    else "none"
  }

  function PartBits(part: string): Option<Perms> {
    var word := Trim(part);
    if word == "camera" then Some(PERM_CAMERA)
    else if word == "audio" then Some(PERM_AUDIO)
    else if word == "none" then Some(0)
    else None
  }

  function PartsBits(parts: seq<string>): Option<Perms> {
    if parts == [] then Some(0)
    else
      var front, last := PartsBits(parts[..|parts| - 1]), PartBits(parts[|parts| - 1]);
      if front.Some? && last.Some? then Some(Or(front.value, last.value)) else None
  }

  function PermsOf(word: string): Option<Perms> {
    PartsBits(Split(word, ','))
  }

  method ParsePerms(word: string) returns (bits: Option<Perms>)
    ensures bits == PermsOf(word)
  {
    hide Or, PartBits;
    var parts := Split(word, ',');
    var sum: Perms := 0;
    assert parts[..0] == [];
    for i := 0 to |parts|
      invariant PartsBits(parts[..i]) == Some(sum)
    {
      assert parts[..i + 1][..i] == parts[..i];
      match PartBits(parts[i]) {
        case Some(b) => sum := Or(sum, b);
        case None =>
          OneUnknown(parts, i);
          return None;
      }
    }
    assert parts[..|parts|] == parts;
    return Some(sum);
  }

  predicate Says(parts: seq<string>, word: string) {
    exists p | p in parts :: Trim(p) == word
  }

  lemma SaysSnoc(front: seq<string>, last: string, word: string)
    ensures Says(front + [last], word) <==> Says(front, word) || Trim(last) == word
  {
    hide Trim;
    assert forall p :: p in front + [last] <==> p in front || p == last;
  }

  lemma PartMeans(part: string)
    ensures PartBits(part).Some? <==> Trim(part) in ["camera", "audio", "none"]
    ensures PartBits(part).Some? ==>
              var bits := PartBits(part).value;
              && (Has(bits, PERM_CAMERA) <==> Trim(part) == "camera")
              && (Has(bits, PERM_AUDIO) <==> Trim(part) == "audio") && And(bits, BOTH) == bits
  {
    hide Trim;
  }

  /**
   What a list of permission words means: it is understood if and only if each is one of the three, and then it carries
   the camera bit exactly if one says so, the audio bit exactly if one says so, and no other.
   */
  lemma {:induction false} PartsMean(parts: seq<string>)
    ensures PartsBits(parts).Some? <==> forall p | p in parts :: Trim(p) in ["camera", "audio", "none"]
    ensures PartsBits(parts).Some? ==>
              var bits := PartsBits(parts).value;
              && (Has(bits, PERM_CAMERA) <==> Says(parts, "camera"))
              && (Has(bits, PERM_AUDIO) <==> Says(parts, "audio")) && And(bits, BOTH) == bits
  {
    if parts == [] {
      assert And(0, BOTH) == 0;
    } else {
      hide Trim, And, Or, Has, PartBits, Says;
      var front, last := parts[..|parts| - 1], parts[|parts| - 1];
      assert parts == front + [last];
      PartsMean(front);
      PartMeans(last);
      SaysSnoc(front, last, "camera");
      SaysSnoc(front, last, "audio");
      assert forall p :: p in parts <==> p in front || p == last;
      if PartsBits(parts).Some? {
        OrHas(PartsBits(front).value, PartBits(last).value, PERM_CAMERA);
        OrHas(PartsBits(front).value, PartBits(last).value, PERM_AUDIO);
        Distributes(PartsBits(front).value, PartBits(last).value, BOTH);
      }
    }
  }

  lemma {:induction false} OneUnknown(parts: seq<string>, i: nat)
    requires i < |parts| && PartBits(parts[i]).None?
    ensures PartsBits(parts).None?
  {
    hide PartBits;
    if i < |parts| - 1 {
      OneUnknown(parts[..|parts| - 1], i);
    }
  }

  /** A word that needs no trimming and holds none of the separators. */
  predicate Plain(word: string) {
    && word != "" && word[0] != '/' && Trimmed(word)
    && !Contains(word, ' ') && !Contains(word, '#') && !Contains(word, '\n')
  }

  lemma BitsOfWords()
    ensures PartBits("camera") == Some(PERM_CAMERA) && PartBits("audio") == Some(PERM_AUDIO)
    ensures PartBits("none") == Some(0)
  {
    TrimOfTrimmed("camera");
    TrimOfTrimmed("audio");
    TrimOfTrimmed("none");
  }

  lemma OneWord(word: string)
    requires !Contains(word, ',')
    ensures PermsOf(word) == match PartBits(word) case Some(b) => Some(Or(0, b)) case None => None
  {
    hide PartBits, Or;
    SplitWhole(word, ',');
    OnePart(word);
  }

  lemma OnePart(word: string)
    ensures PartsBits([word]) == match PartBits(word) case Some(b) => Some(Or(0, b)) case None => None
  {
    hide PartBits, Or;
    var none: seq<string> := [];
    assert [word][..0] == none && PartsBits(none) == Some(0);
  }

  lemma TwoWords(a: string, b: string)
    requires !Contains(a, ',') && !Contains(b, ',') && PartBits(a).Some? && PartBits(b).Some?
    ensures PermsOf(a + "," + b) == Some(Or(Or(0, PartBits(a).value), PartBits(b).value))
  {
    hide PartBits, Or;
    SplitFirst(a, b, ',');
    SplitWhole(b, ',');
    OnePart(a);
    var both := [a] + [b];
    assert both[..|both| - 1] == [a] && both[|both| - 1] == b;
  }

  lemma CameraAndAudio(perms: Perms)
    ensures And(perms, BOTH) == if Has(perms, PERM_CAMERA)
                                then (if Has(perms, PERM_AUDIO) then Or(Or(0, PERM_CAMERA), PERM_AUDIO)
                                      else Or(0, PERM_CAMERA))
                                else if Has(perms, PERM_AUDIO) then Or(0, PERM_AUDIO) else Or(0, 0)
  {
  }

  lemma WordsArePlain()
    ensures Plain("camera") && Plain("audio") && Plain("none") && Plain("camera" + "," + "audio")
  {
  }

  /** Printing and parsing the permission word keeps the two known bits, whatever else the word of bits held. */
  lemma PermsRoundTrip(perms: Perms)
    ensures PermsOf(PermsWord(perms)) == Some(And(perms, BOTH))
    ensures Plain(PermsWord(perms))
  {
    hide PermsOf, PartBits, Or, And, Plain;
    CameraAndAudio(perms);
    BitsOfWords();
    WordsArePlain();
    OneWord("camera");
    OneWord("audio");
    OneWord("none");
    TwoWords("camera", "audio");
  }

  // ---------------------------------------------------------------------------
  // Lines
  // ---------------------------------------------------------------------------

  datatype Line = Blank | Grant(perms: Perms, path: string) | Unknown(path: string)

  /** What is left of a line before a comment, without edge whitespace. */
  function Uncommented(raw: string): string {
    Trim(Split(raw, '#')[0])
  }

  /** A permission word and a path, or a bare path, which means the camera. */
  function ParseLine(raw: string): Line {
    var line := Uncommented(raw);
    if line == "" then Blank
    else
      var i := Find(line, ' ');
      if i < |line| && line[0] != '/' then
        match PermsOf(line[..i])
        case Some(bits) => Grant(bits, Trim(line[i + 1..]))
        case None => Unknown(Trim(line[i + 1..]))
      else Grant(PERM_CAMERA, line)
  }

  function RenderLine(e: PolicyEntry): string {
    PermsWord(e.perms) + " " + e.exePath
  }

  /** A path the file format can hold: no newline, no `#`, no edge whitespace, not empty. */
  predicate Clean(path: string) {
    path != "" && Trimmed(path) && !Contains(path, '\n') && !Contains(path, '#')
  }

  lemma LineOfClean(word: string, path: string)
    requires Plain(word) && Clean(path)
    ensures Uncommented(word + " " + path) == word + " " + path
    ensures !Contains(word + " " + path, '\n')
    ensures Find(word + " " + path, ' ') == |word|
  {
    var line := word + " " + path;
    assert forall i | 0 <= i < |line| ::
        line[i] == if i < |word| then word[i] else if i == |word| then ' ' else path[i - |word| - 1];
    SplitWhole(line, '#');
    assert line[|line| - 1] == path[|path| - 1];
    TrimOfTrimmed(line);
    FindAfter(word, path, ' ');
  }

  lemma FindAfter(word: string, rest: string, c: char)
    requires !Contains(word, c)
    ensures Find(word + [c] + rest, c) == |word|
  {
    var s := word + [c] + rest;
    assert forall i | 0 <= i < |word| :: s[i] == word[i] && word[i] != c;
    assert s[|word|] == c;
  }

  /** A bare absolute path grants the camera, spaces and all. */
  lemma BarePathIsCamera(path: string)
    requires Clean(path) && path[0] == '/'
    ensures ParseLine(path) == Grant(PERM_CAMERA, path)
  {
    SplitWhole(path, '#');
    TrimOfTrimmed(path);
  }

  /** A word and a path: the path with the word's bits, or, if the word is not understood, no grant at all. */
  lemma WordAndPath(word: string, path: string)
    requires Plain(word) && Clean(path)
    ensures ParseLine(word + " " + path)
         == match PermsOf(word) case Some(bits) => Grant(bits, path) case None => Unknown(path)
  {
    hide PermsOf, Uncommented, Find;
    var line := word + " " + path;
    LineOfClean(word, path);
    assert line[..|word|] == word && line[|word| + 1..] == path && line[0] == word[0];
    TrimOfTrimmed(path);
  }

  /** Whatever follows a `#` is no part of a line. */
  lemma CommentIsIgnored(line: string, comment: string)
    requires !Contains(line, '#')
    ensures ParseLine(line + "#" + comment) == ParseLine(line)
  {
    hide PermsOf, Trim;
    SplitFirst(line, comment, '#');
    SplitWhole(line, '#');
  }

  /** A line printed for a clean path is parsed back to that path and its two known bits. */
  lemma LineRoundTrip(e: PolicyEntry)
    requires Clean(e.exePath)
    ensures ParseLine(RenderLine(e)) == Grant(And(e.perms, BOTH), e.exePath)
    ensures !Contains(RenderLine(e), '\n')
  {
    hide PermsOf, PermsWord, Uncommented;
    var word := PermsWord(e.perms);
    PermsRoundTrip(e.perms);
    LineOfClean(word, e.exePath);
    var line := RenderLine(e);
    assert line[..|word|] == word && line[|word| + 1..] == e.exePath;
    TrimOfTrimmed(e.exePath);
  }

  lemma TrimKeepsSomething(s: string, i: nat)
    requires i < |s| && !IsSpace(s[i])
    ensures Trim(s) != ""
  {
    var j := SkipSpace(s, 0);
    assert j <= i;
    assert TrimStart(s)[i - j] == s[i];
  }

  lemma SliceKeeps(s: string, i: nat, j: nat, c: char)
    requires i <= j <= |s| && !Contains(s, c)
    ensures !Contains(s[i..j], c)
  {
    assert forall k | 0 <= k < j - i :: s[i..j][k] == s[i + k];
  }

  lemma FirstPieceIsPrefix(raw: string)
    ensures Split(raw, '#')[0] == raw[..Find(raw, '#')]
  {
  }

  lemma UncommentedIsClean(raw: string)
    requires !Contains(raw, '\n') && Uncommented(raw) != ""
    ensures Clean(Uncommented(raw))
  {
    var piece := Split(raw, '#')[0];
    FirstPieceIsPrefix(raw);
    SliceKeeps(raw, 0, Find(raw, '#'), '\n');
    assert raw[0..Find(raw, '#')] == piece;
    assert piece in Split(raw, '#');
    TrimKeepsChars(piece, '#');
    TrimKeepsChars(piece, '\n');
  }

  lemma RestIsClean(line: string, i: nat)
    requires Clean(line) && i < |line| && line[i] == ' '
    ensures Clean(Trim(line[i + 1..]))
  {
    var rest := line[i + 1..];
    assert IsSpace(' ') && i < |line| - 1;
    SliceKeeps(line, i + 1, |line|, '#');
    SliceKeeps(line, i + 1, |line|, '\n');
    assert line[i + 1..|line|] == rest;
    TrimKeepsChars(rest, '#');
    TrimKeepsChars(rest, '\n');
    TrimKeepsSomething(rest, |rest| - 1);
  }

  /** Every path a line can grant is clean. */
  lemma GrantedPathsAreClean(raw: string)
    requires !Contains(raw, '\n') && ParseLine(raw).Grant?
    ensures Clean(ParseLine(raw).path)
  {
    hide PermsOf, Uncommented, Clean, Trim, Find, Contains;
    var line := Uncommented(raw);
    UncommentedIsClean(raw);
    var i := Find(line, ' ');
    if i < |line| {
      RestIsClean(line, i);
    }
  }

  // ---------------------------------------------------------------------------
  // Files
  // ---------------------------------------------------------------------------

  /** The grants of a list of lines, in order. */
  function Grants(lines: seq<string>): seq<PolicyEntry> {
    if lines == [] then []
    else
      var front, last := Grants(lines[..|lines| - 1]), ParseLine(lines[|lines| - 1]);
      if last.Grant? then front + [PolicyEntry(last.path, last.perms)] else front
  }

  datatype Entry = Entry(path: string, key: ExeKey, perms: Perms)

  /** The grants whose path is absolute and resolves. */
  function Resolved(grants: seq<PolicyEntry>, stat: string -> Option<ExeKey>): seq<Entry> {
    if grants == [] then []
    else
      var front, e := Resolved(grants[..|grants| - 1], stat), grants[|grants| - 1];
      match KeyOf(e.exePath, stat)
      case Some(k) => front + [Entry(e.exePath, k, e.perms)]
      case None => front
  }

  /** Some line names the path and does not grant it: its word is unknown, or no file can be found under the path. */
  predicate Unresolved(lines: seq<string>, stat: string -> Option<ExeKey>, path: string) {
    exists line | line in lines ::
      || ParseLine(line) == Unknown(path)
      || (ParseLine(line).Grant? && ParseLine(line).path == path && KeyOf(path, stat).None?)
  }

  lemma NothingUnresolved(stat: string -> Option<ExeKey>)
    ensures forall path :: !Unresolved([], stat, path)
  {
  }

  lemma UnresolvedSnoc(front: seq<string>, line: string, stat: string -> Option<ExeKey>)
    ensures forall path :: Unresolved(front + [line], stat, path)
                      <==> || Unresolved(front, stat, path) || ParseLine(line) == Unknown(path)
                           || (&& ParseLine(line).Grant? && ParseLine(line).path == path
                               && KeyOf(path, stat).None?)
  {
    hide ParseLine, KeyOf;
    assert forall l :: l in front + [line] <==> l in front || l == line;
  }

  method Parse(text: string, stat: string -> Option<ExeKey>) returns (entries: seq<Entry>, unresolved: seq<string>)
    ensures entries == Resolved(Grants(Split(text, '\n')), stat)
    ensures forall path :: path in unresolved <==> Unresolved(Split(text, '\n'), stat, path)
  {
    hide ParseLine, KeyOf, Unresolved, Split;
    var lines := Split(text, '\n');
    entries, unresolved := [], [];
    assert lines[..0] == [];
    NothingUnresolved(stat);
    for i := 0 to |lines|
      invariant entries == Resolved(Grants(lines[..i]), stat)
      invariant forall path :: path in unresolved <==> Unresolved(lines[..i], stat, path)
    {
      assert lines[..i + 1][..i] == lines[..i];
      assert lines[..i + 1] == lines[..i] + [lines[i]];
      UnresolvedSnoc(lines[..i], lines[i], stat);
      match ParseLine(lines[i]) {
        case Blank =>
        case Unknown(path) => unresolved := unresolved + [path];
        case Grant(perms, path) =>
          OneMoreGrant(Grants(lines[..i]), PolicyEntry(path, perms), stat);
          match KeyOf(path, stat) {
            case Some(k) => entries := entries + [Entry(path, k, perms)];
            case None => unresolved := unresolved + [path];
          }
      }
    }
    assert lines[..|lines|] == lines;
  }

  lemma OneMoreGrant(front: seq<PolicyEntry>, e: PolicyEntry, stat: string -> Option<ExeKey>)
    ensures Resolved(front + [e], stat)
         == match KeyOf(e.exePath, stat)
            case Some(k) => Resolved(front, stat) + [Entry(e.exePath, k, e.perms)]
            case None => Resolved(front, stat)
  {
    hide KeyOf;
    assert (front + [e])[..|front|] == front;
  }

  /** The map a loaded file becomes: bits OR-ed per executable. */
  function ToMap(entries: seq<Entry>): map<ExeKey, Perms> {
    if entries == [] then map[]
    else
      var front, e := ToMap(entries[..|entries| - 1]), entries[|entries| - 1];
      front[e.key := Or(BitsOf(front, e.key), e.perms)]
  }

  /** Whatever the file holds, the map loaded from it is the map a push of its grants would install. */
  lemma {:induction false} LoadIsAPush(grants: seq<PolicyEntry>, stat: string -> Option<ExeKey>)
    ensures ToMap(Resolved(grants, stat)) == Wanted(grants, stat)
  {
    hide Or, KeyOf;
    if grants != [] {
      var front, e := grants[..|grants| - 1], grants[|grants| - 1];
      LoadIsAPush(front, stat);
      assert grants == front + [e];
      OneMoreGrant(front, e, stat);
      if KeyOf(e.exePath, stat).Some? {
        var all := Resolved(grants, stat);
        assert all[..|all| - 1] == Resolved(front, stat);
      }
    }
  }

  // ---------------------------------------------------------------------------
  // The whole cache
  // ---------------------------------------------------------------------------

  /** Each line with its newline. */
  function Lines(lines: seq<string>): string {
    if lines == [] then "" else Lines(lines[..|lines| - 1]) + lines[|lines| - 1] + "\n"
  }

  function Rendered(entries: seq<PolicyEntry>): (lines: seq<string>)
    ensures |lines| == |entries|
  {
    seq(|entries|, i requires 0 <= i < |entries| => RenderLine(entries[i]))
  }

  predicate CommentLine(line: string) {
    line != "" && line[0] == '#' && !Contains(line, '\n')
  }

  /** The header is comment lines; then one line an entry. */
  method RenderCache(header: seq<string>, entries: seq<PolicyEntry>) returns (text: string)
    ensures text == Lines(header + Rendered(entries))
  {
    hide RenderLine;
    text := Lines(header);
    var all := Rendered(entries);
    assert header + all[..0] == header;
    for i := 0 to |entries|
      invariant text == Lines(header + all[..i])
    {
      var sofar := header + all[..i + 1];
      assert sofar[..|sofar| - 1] == header + all[..i];
      text := text + RenderLine(entries[i]) + "\n";
    }
    assert all[..|all|] == all;
  }

  /** Splitting what was printed line by line gives back the lines, and one empty piece after the last newline. */
  lemma {:induction false} LinesSplit(lines: seq<string>, rest: string)
    requires forall l | l in lines :: !Contains(l, '\n')
    ensures Split(Lines(lines) + rest, '\n') == lines + Split(rest, '\n')
  {
    hide Split, Contains;
    if lines == [] {
      assert "" + rest == rest;
      assert lines + Split(rest, '\n') == Split(rest, '\n');
    } else {
      var front, last := lines[..|lines| - 1], lines[|lines| - 1];
      LinesSplit(front, last + "\n" + rest);
      SplitFirst(last, rest, '\n');
      Regroup(Lines(front), last, "\n");
      Regroup(Lines(front), last + "\n", rest);
      Regroup(front, [last], Split(rest, '\n'));
      assert lines == front + [last];
    }
  }

  lemma Regroup<T>(a: seq<T>, b: seq<T>, c: seq<T>)
    ensures (a + b) + c == a + (b + c)
  {
  }

  /** An entry with the two known bits only. */
  function Masked(entries: seq<PolicyEntry>): (r: seq<PolicyEntry>)
    ensures |r| == |entries|
  {
    seq(|entries|, i requires 0 <= i < |entries| => PolicyEntry(entries[i].exePath, And(entries[i].perms, BOTH)))
  }

  lemma GrantsAppend(lines: seq<string>, line: string)
    ensures Grants(lines + [line])
         == Grants(lines) + match ParseLine(line) case Grant(perms, path) => [PolicyEntry(path, perms)] case _ => []
  {
    hide ParseLine;
    assert (lines + [line])[..|lines|] == lines;
  }

  lemma CommentIsBlank(line: string)
    requires CommentLine(line)
    ensures ParseLine(line) == Blank
  {
    assert Find(line, '#') == 0;
    FirstPieceIsPrefix(line);
    assert Uncommented(line) == "";
  }

  lemma {:induction false} HeaderGrantsNothing(header: seq<string>)
    requires forall l | l in header :: CommentLine(l)
    ensures Grants(header) == []
  {
    hide ParseLine;
    if header != [] {
      HeaderGrantsNothing(header[..|header| - 1]);
      CommentIsBlank(header[|header| - 1]);
    }
  }

  lemma {:induction false} RenderedGrants(header: seq<string>, entries: seq<PolicyEntry>)
    requires forall l | l in header :: CommentLine(l)
    requires forall e | e in entries :: Clean(e.exePath)
    ensures Grants(header + Rendered(entries)) == Masked(entries)
  {
    hide ParseLine, RenderLine, Clean, CommentLine;
    if entries == [] {
      assert header + Rendered(entries) == header;
      HeaderGrantsNothing(header);
    } else {
      var front, e := entries[..|entries| - 1], entries[|entries| - 1];
      RenderedGrants(header, front);
      assert header + Rendered(entries) == (header + Rendered(front)) + [RenderLine(e)];
      GrantsAppend(header + Rendered(front), RenderLine(e));
      LineRoundTrip(e);
      assert Masked(entries) == Masked(front) + [PolicyEntry(e.exePath, And(e.perms, BOTH))];
    }
  }

  lemma {:induction false} GrantsAreClean(lines: seq<string>)
    requires forall l | l in lines :: !Contains(l, '\n')
    ensures forall e | e in Grants(lines) :: Clean(e.exePath)
  {
    hide ParseLine, Clean;
    if lines != [] {
      GrantsAreClean(lines[..|lines| - 1]);
      if ParseLine(lines[|lines| - 1]).Grant? {
        GrantedPathsAreClean(lines[|lines| - 1]);
      }
    }
  }

  /**
   The cache reads back exactly the entries written, with their two known bits, if and only if every path is clean.
   */
  lemma CacheRoundTrip(header: seq<string>, entries: seq<PolicyEntry>)
    requires forall l | l in header :: CommentLine(l)
    ensures Grants(Split(Lines(header + Rendered(entries)), '\n')) == Masked(entries)
       <==> forall e | e in entries :: Clean(e.exePath)
  {
    hide ParseLine, RenderLine, Clean, CommentLine, Grants;
    var text := Lines(header + Rendered(entries));
    if forall e | e in entries :: Clean(e.exePath) {
      CleanFileSplits(header, entries);
      RenderedGrants(header, entries);
    }
    GrantsAreClean(Split(text, '\n'));
    if Grants(Split(text, '\n')) == Masked(entries) {
      forall e | e in entries ensures Clean(e.exePath) {
        var i :| 0 <= i < |entries| && entries[i] == e;
        assert Masked(entries)[i].exePath == e.exePath;
      }
    }
  }

  lemma CleanFileSplits(header: seq<string>, entries: seq<PolicyEntry>)
    requires forall l | l in header :: CommentLine(l)
    requires forall e | e in entries :: Clean(e.exePath)
    ensures Grants(Split(Lines(header + Rendered(entries)), '\n')) == Grants(header + Rendered(entries))
  {
    hide ParseLine, RenderLine, Clean, Grants;
    var lines := header + Rendered(entries);
    forall l | l in lines ensures !Contains(l, '\n') {
      if l !in header {
        var i :| 0 <= i < |entries| && l == RenderLine(entries[i]);
        LineRoundTrip(entries[i]);
      }
    }
    LinesSplit(lines, "");
    assert Lines(lines) + "" == Lines(lines);
    SplitWhole("", '\n');
    GrantsAppend(lines, "");
    EmptyIsBlank();
  }

  lemma EmptyIsBlank()
    ensures ParseLine("") == Blank
  {
    SplitWhole("", '#');
  }

  /**
   The next boot enforces what the last push installed: for clean paths and the two known bits, the map loaded from the
   cache is the map the push wrote, given that the paths still resolve as they did.
   */
  lemma BootEqualsPush(header: seq<string>, entries: seq<PolicyEntry>, stat: string -> Option<ExeKey>)
    requires forall l | l in header :: CommentLine(l)
    requires forall e | e in entries :: Clean(e.exePath) && And(e.perms, BOTH) == e.perms
    ensures ToMap(Resolved(Grants(Split(Lines(header + Rendered(entries)), '\n')), stat)) == Wanted(entries, stat)
  {
    hide Clean, CommentLine, Grants, And, Wanted;
    CacheRoundTrip(header, entries);
    assert Masked(entries) == entries;
    LoadIsAPush(entries, stat);
  }
}
