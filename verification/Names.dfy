/** Rule keys: the name an application declares, reduced to what rules are matched by. */
module Names {
  import opened Text

  /** Lowercasing, for ASCII letters. */
  function Lower(c: char): char {
    if 'A' <= c <= 'Z' then (c as int + 32) as char else c
  }

  function ToLower(s: string): string {
    seq(|s|, i requires 0 <= i < |s| => Lower(s[i]))
  }

  predicate IsLower(s: string) {
    forall i | 0 <= i < |s| :: Lower(s[i]) == s[i]
  }

  /** The fixed beginning of a name in the ALSA form. */
  const ALSA := "pipewire alsa ["

  predicate Alsa(lower: string) {
    ALSA <= lower && Contains(lower[|ALSA|..], ']')
  }

  /** `rfind(" [")`: the last place where an annotation could start. */
  function LastNote(s: string, n: nat): (r: Option<nat>)
    requires n <= |s|
    ensures r.Some? ==> r.value + 1 < n && s[r.value] == ' ' && s[r.value + 1] == '['
    ensures r.None? ==> forall i | 0 <= i < n - 1 :: !(s[i] == ' ' && s[i + 1] == '[')
  {
    if n < 2 then None
    else if s[n - 2] == ' ' && s[n - 1] == '[' then Some(n - 2)
    else LastNote(s, n - 1)
  }

  /** The key still ends in an annotation that can be cut off. */
  predicate Noted(key: string) {
    key != "" && key[|key| - 1] == ']' && LastNote(key, |key|).Some?
  }

  function Cut(key: string): (r: string)
    requires Noted(key)
    ensures |r| < |key|
  {
    TrimEnd(key[..LastNote(key, |key|).value])
  }

  function StripNotes(key: string): (r: string)
    ensures !Noted(r)
    decreases |key|
  {
    if Noted(key) then StripNotes(Cut(key)) else key
  }

  /** The part of an ALSA name up to the program's bracket, as the key. */
  function AlsaKey(lower: string): string
    requires Alsa(lower)
  {
    var rest := lower[|ALSA|..];
    ALSA + rest[..Find(rest, ']')] + "]"
  }

  /** The matcher: lower case, without trailing annotations, except that the ALSA form keeps its first bracket. */
  function Normalize(name: string): string {
    var lower := ToLower(Trim(name));
    if Alsa(lower) then AlsaKey(lower) else StripNotes(lower)
  }

  method NormalizeAppName(name: string) returns (r: string)
    ensures r == Normalize(name)
  {
    var lower := ToLower(Trim(name));
    if ALSA <= lower {
      var rest := lower[|ALSA|..];
      var end := Find(rest, ']');
      if end < |rest| {
        assert rest[end] == ']' && Contains(rest, ']');
        return ALSA + rest[..end] + "]";
      }
    }
    assert !Alsa(lower);
    var key := lower;
    while key != "" && key[|key| - 1] == ']'
      invariant StripNotes(key) == StripNotes(lower)
      decreases |key|
    {
      match LastNote(key, |key|) {
        case Some(idx) => key := TrimEnd(key[..idx]);
        case None => break;
      }
    }
    r := key;
  }

  // ---------------------------------------------------------------------------
  // Idempotence
  // ---------------------------------------------------------------------------

  lemma LowerIsLower(s: string)
    ensures IsLower(ToLower(s))
    ensures IsLower(s) ==> ToLower(s) == s
  {
  }

  lemma LowerKeepsTrimmed(s: string)
    requires Trimmed(s)
    ensures Trimmed(ToLower(s))
  {
  }

  /** Cutting leaves a prefix that starts and ends where a trimmed key does. */
  lemma CutShape(key: string)
    requires Noted(key) && Trimmed(key)
    ensures Cut(key) != "" && Cut(key) <= key && Trimmed(Cut(key))
  {
    var idx := LastNote(key, |key|).value;
    assert idx > 0 by {
      assert key[idx] == ' ' && !IsSpace(key[0]);
    }
    var front := key[..idx];
    var end := DropSpace(front, |front|);
    assert end > 0 by {
      assert !IsSpace(front[0]);
    }
    assert Cut(key) == front[..end] == key[..end];
  }

  lemma {:induction false} StripShape(key: string)
    requires Trimmed(key)
    ensures StripNotes(key) <= key && Trimmed(StripNotes(key))
    decreases |key|
  {
    if Noted(key) {
      CutShape(key);
      StripShape(Cut(key));
    }
  }

  lemma NormalizeFixes(key: string)
    requires IsLower(key) && Trimmed(key) && !Alsa(key) && !Noted(key)
    ensures Normalize(key) == key
  {
    TrimOfTrimmed(key);
    LowerIsLower(key);
  }

  lemma AlsaKeyFixed(program: string)
    requires !Contains(program, ']')
    ensures Alsa(ALSA + program + "]") && AlsaKey(ALSA + program + "]") == ALSA + program + "]"
  {
    var key := ALSA + program + "]";
    var rest := key[|ALSA|..];
    assert rest == program + "]";
    assert rest[|program|] == ']' && forall i | 0 <= i < |program| :: rest[i] == program[i] != ']';
    assert Find(rest, ']') == |program|;
    assert rest[..|program|] == program;
  }

  lemma AlsaFixed(program: string)
    requires IsLower(program) && !Contains(program, ']')
    ensures Normalize(ALSA + program + "]") == ALSA + program + "]"
  {
    hide Alsa, AlsaKey;
    var key := ALSA + program + "]";
    AlsaKeyFixed(program);
    assert key[0] == 'p' && key[|key| - 1] == ']';
    TrimOfTrimmed(key);
    assert IsLower(key);
    LowerIsLower(key);
  }

  /** A prefix of a name outside the ALSA form is outside it too. */
  lemma PrefixNotAlsa(key: string, lower: string)
    requires key <= lower && !Alsa(lower)
    ensures !Alsa(key)
  {
    if ALSA <= key {
      var rest, whole := key[|ALSA|..], lower[|ALSA|..];
      assert ALSA <= lower;
      forall i | 0 <= i < |rest| ensures rest[i] != ']' {
        assert rest[i] == whole[i];
      }
    }
  }

  lemma AlsaKeyIsKey(lower: string)
    requires IsLower(lower) && Alsa(lower)
    ensures Normalize(AlsaKey(lower)) == AlsaKey(lower)
  {
    hide Normalize, Find;
    var rest := lower[|ALSA|..];
    var program := rest[..Find(rest, ']')];
    assert forall i | 0 <= i < |program| :: program[i] == lower[|ALSA| + i] && program[i] != ']';
    AlsaFixed(program);
  }

  lemma StrippedIsKey(lower: string)
    requires IsLower(lower) && Trimmed(lower) && !Alsa(lower)
    ensures Normalize(StripNotes(lower)) == StripNotes(lower)
  {
    hide Normalize, StripNotes, Alsa, Noted, Trimmed;
    StripShape(lower);
    PrefixNotAlsa(StripNotes(lower), lower);
    NormalizeFixes(StripNotes(lower));
  }

  /** A key is its own key, so looking up a stored name finds what looking up the original finds. */
  lemma NormalizeIdempotent(name: string)
    ensures Normalize(Normalize(name)) == Normalize(name)
  {
    hide Trim, ToLower, IsLower, Trimmed, Alsa, AlsaKey, StripNotes;
    var lower := ToLower(Trim(name));
    LowerIsLower(Trim(name));
    LowerKeepsTrimmed(Trim(name));
    if Alsa(lower) {
      AlsaKeyIsKey(lower);
    } else {
      StrippedIsKey(lower);
    }
  }

  lemma {:induction false} StripShrinks(key: string)
    ensures |StripNotes(key)| <= |key|
    decreases |key|
  {
    if Noted(key) {
      StripShrinks(Cut(key));
    }
  }

  lemma NormalizeShrinks(name: string)
    ensures |Normalize(name)| <= |Trim(name)|
  {
    var lower := ToLower(Trim(name));
    if Alsa(lower) {
      var rest := lower[|ALSA|..];
      assert Find(rest, ']') < |rest|;
    } else {
      StripShrinks(lower);
    }
  }

  // ---------------------------------------------------------------------------
  // What does not matter to a key
  // ---------------------------------------------------------------------------

  /** The same character, or the same ASCII letter in the other case. */
  predicate SameLetter(x: char, y: char) {
    x == y || ('A' <= x <= 'Z' && y as int == x as int + 32) || ('A' <= y <= 'Z' && x as int == y as int + 32)
  }

  predicate SameLetters(a: string, b: string) {
    |a| == |b| && forall i | 0 <= i < |a| :: SameLetter(a[i], b[i])
  }

  lemma {:induction false} SameSkip(a: string, b: string, i: nat)
    requires SameLetters(a, b) && i <= |a|
    ensures SkipSpace(a, i) == SkipSpace(b, i)
    decreases |a| - i
  {
    if i < |a| {
      SameSkip(a, b, i + 1);
    }
  }

  lemma {:induction false} SameDrop(a: string, b: string, n: nat)
    requires SameLetters(a, b) && n <= |a|
    ensures DropSpace(a, n) == DropSpace(b, n)
  {
    if n > 0 {
      SameDrop(a, b, n - 1);
    }
  }

  lemma SameTrim(a: string, b: string)
    requires SameLetters(a, b)
    ensures SameLetters(Trim(a), Trim(b))
  {
    hide IsSpace, SameLetter, SameLetters;
    SameSkip(a, b, 0);
    SameSlice(a, b, SkipSpace(a, 0), |a|);
    var x, y := TrimStart(a), TrimStart(b);
    assert a[SkipSpace(a, 0)..|a|] == x && b[SkipSpace(b, 0)..|a|] == y;
    SameDrop(x, y, |x|);
    SameSlice(x, y, 0, DropSpace(x, |x|));
  }

  lemma SameSlice(a: string, b: string, i: nat, j: nat)
    requires SameLetters(a, b) && i <= j <= |a|
    ensures |a| == |b| && SameLetters(a[i..j], b[i..j])
  {
  }

  /** Letter case does not matter: names that differ only in it have one key. */
  lemma CaseIsIrrelevant(a: string, b: string)
    requires SameLetters(a, b)
    ensures Normalize(a) == Normalize(b)
  {
    hide Trim, Alsa, AlsaKey, StripNotes;
    SameTrim(a, b);
    assert ToLower(Trim(a)) == ToLower(Trim(b));
  }

  /** The text holds a place where an annotation could start. */
  predicate HasNote(s: string) {
    exists i | 0 <= i < |s| - 1 :: s[i] == ' ' && s[i + 1] == '['
  }

  lemma LastNoteIsLast(s: string, n: nat, i: nat)
    requires i + 1 < n <= |s| && s[i] == ' ' && s[i + 1] == '['
    requires forall j | i < j < n - 1 :: !(s[j] == ' ' && s[j + 1] == '[')
    ensures LastNote(s, n) == Some(i)
  {
  }

  /** A trailing annotation is cut off whole. */
  lemma CutsAnnotation(key: string, note: string)
    requires Trimmed(key) && key != "" && !HasNote(note + "]")
    ensures Noted(key + " [" + note + "]") && Cut(key + " [" + note + "]") == key
  {
    hide LastNote;
    var s, tail := key + " [" + note + "]", note + "]";
    assert s == key + [' ', '['] + tail;
    forall j | |key| < j < |s| - 1 ensures !(s[j] == ' ' && s[j + 1] == '[') {
      if j >= |key| + 2 {
        assert s[j] == tail[j - |key| - 2] && s[j + 1] == tail[j - |key| - 1];
      }
    }
    LastNoteIsLast(s, |s|, |key|);
    assert s[..|key|] == key;
    TrimEndOfTrimmed(key);
  }

  lemma TrimEndOfTrimmed(s: string)
    requires Trimmed(s)
    ensures TrimEnd(s) == s
  {
    assert DropSpace(s, |s|) == |s|;
  }

  lemma LowerKeepsNotes(s: string)
    ensures HasNote(ToLower(s)) <==> HasNote(s)
  {
    assert forall i | 0 <= i < |s| ::
        (ToLower(s)[i] == ' ' <==> s[i] == ' ') && (ToLower(s)[i] == '[' <==> s[i] == '[');
  }

  lemma AnnotatedLower(name: string, note: string)
    requires Trimmed(name) && name != ""
    ensures ToLower(Trim(name + " [" + note + "]")) == ToLower(name) + " [" + ToLower(note) + "]"
  {
    var s := name + " [" + note + "]";
    assert s[0] == name[0] && s[|s| - 1] == ']';
    TrimOfTrimmed(s);
  }

  /**
   A trailing annotation does not matter: a name with ` [note]` after it has the key of the name, if and only if the
   annotation does not make an ALSA form out of a name that has none.
   */
  lemma AnnotationIsIrrelevant(name: string, note: string)
    requires Trimmed(name) && name != "" && !HasNote(note + "]")
    ensures Normalize(name + " [" + note + "]") == Normalize(name)
       <==> Alsa(ToLower(name)) || !Alsa(ToLower(name) + " [" + ToLower(note) + "]")
  {
    hide LastNote, TrimEnd, HasNote, Find;
    var key, full := ToLower(name), ToLower(name) + " [" + ToLower(note) + "]";
    AnnotatedLower(name, note);
    TrimOfTrimmed(name);
    LowerKeepsTrimmed(name);
    LowerKeepsNotes(note + "]");
    assert ToLower(note + "]") == ToLower(note) + "]";
    if Alsa(key) {
      AlsaKeyOfFront(full, key);
    } else if Alsa(full) {
      AlsaNeedsNote(full, key);
      NormalizeShrinks(name);
    } else {
      CutsAnnotation(key, ToLower(note));
    }
  }

  /** The first bracket of a longer text is where its front has it. */
  lemma AlsaKeyOfFront(full: string, front: string)
    requires Alsa(front) && front <= full
    ensures Alsa(full) && AlsaKey(full) == AlsaKey(front)
  {
    var rest, whole := front[|ALSA|..], full[|ALSA|..];
    var e := Find(rest, ']');
    assert e < |rest| && forall i | 0 <= i < |rest| :: whole[i] == rest[i];
    assert Find(whole, ']') == e;
    assert whole[..e] == rest[..e];
  }

  /** If the front holds no bracket, the key goes past it. */
  lemma AlsaNeedsNote(full: string, front: string)
    requires Alsa(full) && !Alsa(front) && front <= full
    ensures |AlsaKey(full)| > |front|
  {
    var whole := full[|ALSA|..];
    var e := Find(whole, ']');
    assert e < |whole| && whole[e] == ']';
    assert forall i | |ALSA| <= i < |front| :: front[|ALSA|..][i - |ALSA|] == full[i] == whole[i - |ALSA|];
  }

  // ---------------------------------------------------------------------------
  // Names people paste
  // ---------------------------------------------------------------------------

  /** Position of the last opening parenthesis before `n`. */
  function LastParen(s: string, n: nat): (r: Option<nat>)
    requires n <= |s|
    ensures r.Some? ==> r.value < n && s[r.value] == '('
  {
    if n == 0 then None else if s[n - 1] == '(' then Some(n - 1) else LastParen(s, n - 1)
  }

  const PID := "pid:"

  /** Where a trailing `(pid:N)` starts, if the text ends in one. */
  function PidNote(s: string): (r: Option<nat>)
    ensures r.Some? ==> r.value < |s| - 1 && s[r.value] == '(' && s[|s| - 1] == ')'
  {
    if s == "" || s[|s| - 1] != ')' then None
    else
      match LastParen(s, |s|)
      case None => None
      case Some(open) =>
        var inner := s[open + 1..|s| - 1];
        if PID <= inner && |inner| > |PID| && Digits(inner[|PID|..]) then Some(open) else None
  }

  /** The name without surrounding whitespace and without a trailing `(pid:N)`. */
  function WithoutPid(name: string): string {
    var s := Trim(name);
    match PidNote(s)
    case Some(open) => TrimEnd(s[..open])
    case None => s
  }

  /** The storable key for a name someone typed or pasted, or none if no key could ever match. */
  function Sanitize(name: string): (r: Option<string>)
    ensures r.Some? ==> r.value != ""
  {
    var key := Normalize(WithoutPid(name));
    if key == "" then None
    else if key[0] == '[' && key[|key| - 1] == ']' then None
    else Some(key)
  }

  lemma DigitsHaveNoParen(digits: string)
    requires Digits(digits)
    ensures '(' !in digits
  {
  }

  /** A pasted pid is cut off whole. */
  lemma PidIsCutOff(name: string, digits: string)
    requires Trimmed(name) && name != "" && digits != "" && Digits(digits)
    ensures WithoutPid(name + " (pid:" + digits + ")") == name
  {
    hide Digits, TrimEnd, LastParen;
    var s, open := name + " (pid:" + digits + ")", |name| + 1;
    assert s[0] == name[0] && s[|s| - 1] == ')' && s[open] == '(';
    TrimOfTrimmed(s);
    var inner := s[open + 1..|s| - 1];
    assert inner == PID + digits;
    assert '(' !in digits by { DigitsHaveNoParen(digits); }
    LastParenIs(s, |s|, open, digits);
    assert inner[|PID|..] == digits;
    var front := s[..open];
    assert front == name + " ";
    TrimEndOfPadded(name);
  }

  lemma {:induction false} LastParenIs(s: string, n: nat, open: nat, digits: string)
    requires '(' !in digits && open < n <= |s| && s[open] == '('
    requires s[open..] == "(" + PID + digits + ")"
    ensures LastParen(s, n) == Some(open)
  {
    if n - 1 > open {
      assert s[n - 1] == s[open..][n - 1 - open] != '(' by {
        if n - 1 - open >= 1 + |PID| && n - 1 - open < 1 + |PID| + |digits| {
          assert s[open..][n - 1 - open] == digits[n - 1 - open - 1 - |PID|];
        }
      }
      LastParenIs(s, n - 1, open, digits);
    }
  }

  /** What is no number is no pid: the name keeps it. */
  lemma OnlyNumbersAreCutOff(name: string, text: string)
    requires Trimmed(name) && name != "" && '(' !in text && (text == "" || !Digits(text))
    ensures WithoutPid(name + " (pid:" + text + ")") == name + " (pid:" + text + ")"
  {
    hide Digits, TrimEnd, LastParen;
    var s, open := name + " (pid:" + text + ")", |name| + 1;
    assert s[0] == name[0] && s[|s| - 1] == ')' && s[open] == '(';
    TrimOfTrimmed(s);
    var inner := s[open + 1..|s| - 1];
    assert inner == PID + text;
    LastParenIs(s, |s|, open, text);
    assert inner[|PID|..] == text;
  }

  lemma TrimEndOfPadded(s: string)
    requires Trimmed(s)
    ensures TrimEnd(s + " ") == s
  {
    assert DropSpace(s + " ", |s| + 1) == DropSpace(s + " ", |s|) == |s|;
    assert (s + " ")[..|s|] == s;
  }

  /**
   A name is refused if and only if, without a pasted pid, its key would be empty or nothing but a bracketed annotation;
   otherwise it is stored under that key.
   */
  lemma SanitizeIs(name: string)
    ensures var key := Normalize(WithoutPid(name));
            Sanitize(name) == if key == "" || ("[" <= key && key[|key| - 1] == ']') then None else Some(key)
  {
    hide Normalize, WithoutPid;
    var key := Normalize(WithoutPid(name));
    assert key != "" ==> ("[" <= key <==> key[0] == '[');
  }

  lemma SanitizedIsNormal(name: string)
    ensures Sanitize(name).Some? ==> Normalize(Sanitize(name).value) == Sanitize(name).value
  {
    NormalizeIdempotent(WithoutPid(name));
  }

  /** Whatever follows the first bracket is irrelevant. */
  lemma AlsaKeyOfPrefix(lower: string, short: string)
    requires Alsa(lower) && short <= lower && |short| > |ALSA| + Find(lower[|ALSA|..], ']')
    ensures Alsa(short) && AlsaKey(short) == AlsaKey(lower)
  {
    var rest, front := lower[|ALSA|..], short[|ALSA|..];
    var e := Find(rest, ']');
    assert forall i | 0 <= i < |front| :: front[i] == rest[i];
    assert e < |rest| && front[e] == ']';
    assert Find(front, ']') == e;
    assert front[..e] == rest[..e];
  }

  lemma AlsaHasNoParen(lower: string, open: nat)
    requires ALSA <= lower && open < |lower| && lower[open] == '('
    ensures open >= |ALSA|
  {
    assert forall i | 0 <= i < |ALSA| :: lower[i] == ALSA[i] != '(';
  }

  /** The program's bracket comes before a trailing pid. */
  lemma BracketBeforePid(s: string)
    requires PidNote(s).Some? && Alsa(ToLower(s))
    ensures |ALSA| + Find(ToLower(s)[|ALSA|..], ']') < PidNote(s).value
  {
    var lower, open := ToLower(s), PidNote(s).value;
    var rest := lower[|ALSA|..];
    assert lower[open] == '(';
    AlsaHasNoParen(lower, open);
    PidHasNoBracket(s);
    assert Find(rest, ']') < |rest|;
    assert lower[|ALSA| + Find(rest, ']')] == ']';
  }

  /** In the ALSA form a pasted pid changes nothing: the key ends at the program's bracket. */
  lemma AlsaIgnoresPid(name: string)
    requires PidNote(Trim(name)).Some? && Alsa(ToLower(Trim(name)))
    ensures Normalize(WithoutPid(name)) == Normalize(name)
  {
    hide Alsa, PidNote;
    var s := Trim(name);
    var end := CutAfterBracket(s);
    var short := s[..end];
    TrimOfTrimmed(short);
    assert ToLower(short) == ToLower(s)[..end];
    AlsaKeyOfPrefix(ToLower(s), ToLower(short));
  }

  lemma CutAfterBracket(s: string) returns (end: nat)
    requires PidNote(s).Some? && Alsa(ToLower(s)) && Trimmed(s)
    ensures |ALSA| + Find(ToLower(s)[|ALSA|..], ']') < end <= |s|
    ensures TrimEnd(s[..PidNote(s).value]) == s[..end] && Trimmed(s[..end])
  {
    var front, lower := s[..PidNote(s).value], ToLower(s);
    var e := |ALSA| + Find(lower[|ALSA|..], ']');
    BracketBeforePid(s);
    end := DropSpace(front, |front|);
    assert Find(lower[|ALSA|..], ']') < |lower[|ALSA|..]| && lower[e] == ']' && Lower(front[e]) == ']';
  }

  lemma PidHasNoBracket(s: string)
    requires PidNote(s).Some?
    ensures forall i | PidNote(s).value <= i < |s| :: Lower(s[i]) != ']'
  {
    var open := PidNote(s).value;
    assert LastParen(s, |s|) == Some(open);
    var inner := s[open + 1..|s| - 1];
    forall i | open < i < |s| - 1 ensures Lower(s[i]) != ']' {
      assert s[i] == inner[i - open - 1];
      if i - open - 1 >= |PID| {
        assert inner[i - open - 1] == inner[|PID|..][i - open - 1 - |PID|];
      } else {
        assert inner[i - open - 1] == PID[i - open - 1];
      }
    }
  }

  /**
   The key a rule is written under is the key its own name is looked up by, unless a pasted `(pid:N)` was cut off:
   outside the ALSA form that always makes two different keys.
   */
  lemma WrittenKeyIsLookedUp(name: string)
    ensures Normalize(WithoutPid(name)) == Normalize(name)
       <==> PidNote(Trim(name)).None? || Alsa(ToLower(Trim(name)))
  {
    var s := Trim(name);
    TrimOfTrimmed(s);
    if PidNote(s).Some? && Alsa(ToLower(s)) {
      AlsaIgnoresPid(name);
    } else if PidNote(s).Some? {
      assert ToLower(s)[|s| - 1] == ')';
      assert Normalize(name) == ToLower(s);
      NormalizeShrinks(WithoutPid(name));
    }
  }
}
