/** Strings as the Rust standard library sees them: whitespace, trimming and splitting. */
module Text {

  datatype Option<+T> = None | Some(value: T)

  /** `char::is_whitespace`: the Unicode White_Space property. */
  predicate IsSpace(c: char) {
    var n := c as int;
    || 9 <= n <= 13 || n == 0x20 || n == 0x85 || n == 0xA0 || n == 0x1680
    || 0x2000 <= n <= 0x200A || n == 0x2028 || n == 0x2029 || n == 0x202F || n == 0x205F || n == 0x3000
  }

  /** The 25 characters one by one: five control characters, space, two of Latin-1, and those of the other blocks. */
  lemma SpacesAre(c: char)
    ensures IsSpace(c)
       <==> || c == ' ' || c == '\t' || c == '\n' || c == '\r'
            || c as int in {0x0B, 0x0C, 0x85, 0xA0, 0x1680}
            || c as int in {0x2000, 0x2001, 0x2002, 0x2003, 0x2004, 0x2005, 0x2006, 0x2007, 0x2008, 0x2009, 0x200A}
            || c as int in {0x2028, 0x2029, 0x202F, 0x205F, 0x3000}
  {
  }

  predicate AllSpace(s: string) {
    forall i | 0 <= i < |s| :: IsSpace(s[i])
  }

  /** First position from `i` on that is not whitespace. */
  function SkipSpace(s: string, i: nat): (j: nat)
    requires i <= |s|
    ensures i <= j <= |s|
    ensures forall k | i <= k < j :: IsSpace(s[k])
    ensures j < |s| ==> !IsSpace(s[j])
    decreases |s| - i
  {
    if i < |s| && IsSpace(s[i]) then SkipSpace(s, i + 1) else i
  }

  /** End of the last non-whitespace character before `n`. */
  function DropSpace(s: string, n: nat): (j: nat)
    requires n <= |s|
    ensures j <= n
    ensures forall k | j <= k < n :: IsSpace(s[k])
    ensures j > 0 ==> !IsSpace(s[j - 1])
  {
    if n > 0 && IsSpace(s[n - 1]) then DropSpace(s, n - 1) else n
  }

  function TrimStart(s: string): string {
    s[SkipSpace(s, 0)..]
  }

  function TrimEnd(s: string): string {
    s[..DropSpace(s, |s|)]
  }

  /** `str::trim`. */
  function Trim(s: string): (r: string)
    ensures |r| <= |s| && Trimmed(r)
  {
    TrimEnd(TrimStart(s))
  }

  predicate Trimmed(s: string) {
    s == "" || (!IsSpace(s[0]) && !IsSpace(s[|s| - 1]))
  }

  /** Trimming keeps a stretch of the text, so it brings in no character. */
  lemma TrimKeepsChars(s: string, c: char)
    requires !Contains(s, c)
    ensures !Contains(Trim(s), c)
  {
    var start := TrimStart(s);
    forall i | 0 <= i < |Trim(s)| ensures Trim(s)[i] != c {
      assert Trim(s)[i] == start[i] == s[SkipSpace(s, 0) + i];
    }
  }

  lemma TrimOfTrimmed(s: string)
    requires Trimmed(s)
    ensures Trim(s) == s
  {
    assert SkipSpace(s, 0) == 0 && TrimStart(s) == s;
    assert DropSpace(s, |s|) == |s|;
  }

  /** Leading whitespace is all that trimming removes from a padded text. */
  lemma TrimPadded(pad: string, s: string)
    requires AllSpace(pad) && Trimmed(s)
    ensures Trim(pad + s) == s
  {
    var text := pad + s;
    var j := SkipSpace(text, 0);
    assert forall k | 0 <= k < |pad| :: text[k] == pad[k] && IsSpace(text[k]);
    if s != "" {
      assert text[|pad|] == s[0];
    }
    assert j == |pad| && TrimStart(text) == s;
    TrimOfTrimmed(s);
    assert DropSpace(s, |s|) == |s|;
  }

  predicate Digits(s: string) {
    forall i | 0 <= i < |s| :: '0' <= s[i] <= '9'
  }

  predicate Contains(s: string, c: char) {
    exists i | 0 <= i < |s| :: s[i] == c
  }

  /** Position of the first `c`, or the length. `str::find`. */
  function Find(s: string, c: char): (i: nat)
    ensures i <= |s|
    ensures i < |s| ==> s[i] == c
    ensures forall j | 0 <= j < i :: s[j] != c
  {
    if s == "" || s[0] == c then 0 else 1 + Find(s[1..], c)
  }

  /** `str::split(c)`: always at least one piece, none holding the separator. */
  function Split(s: string, c: char): (pieces: seq<string>)
    ensures |pieces| >= 1
    ensures forall p | p in pieces :: !Contains(p, c)
    decreases |s|
  {
    var i := Find(s, c);
    if i == |s| then [s] else [s[..i]] + Split(s[i + 1..], c)
  }

  /** A separator-free piece in front is split off whole. */
  lemma SplitFirst(piece: string, rest: string, c: char)
    requires !Contains(piece, c)
    ensures Split(piece + [c] + rest, c) == [piece] + Split(rest, c)
  {
    var s := piece + [c] + rest;
    assert forall j | 0 <= j < |piece| :: s[j] == piece[j] && piece[j] != c;
    assert s[|piece|] == c;
    assert Find(s, c) == |piece|;
    assert s[..|piece|] == piece && s[|piece| + 1..] == rest;
  }

  lemma SplitWhole(piece: string, c: char)
    requires !Contains(piece, c)
    ensures Split(piece, c) == [piece]
  {
    assert forall j | 0 <= j < |piece| :: piece[j] != c;
  }
}
