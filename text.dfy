/**
 * The parts of Rust's `str` API that the host serial parsers use:
 * `char::is_whitespace`, `trim_start`, `trim`, `contains`, `starts_with`,
 * `split(c)` and `lines()`. Strings are sequences of Unicode scalar values.
 */
module Text {

  /** `char::is_whitespace`: the Unicode White_Space property. */
  predicate IsWhitespace(c: char) {
    ('\t' <= c <= '\r') || c == ' ' || c == '\U{85}' || c == '\U{A0}' || c == '\U{1680}'
    || ('\U{2000}' <= c <= '\U{200A}') || c == '\U{2028}' || c == '\U{2029}'
    || c == '\U{202F}' || c == '\U{205F}' || c == '\U{3000}'
  }

  /** A string with something in it and no whitespace at either end. */
  predicate IsClean(s: string) {
    s != [] && !IsWhitespace(s[0]) && !IsWhitespace(s[|s| - 1])
  }

  /** How many whitespace characters `s` starts with. */
  function LeadingWhitespace(s: string): (k: nat)
    ensures k <= |s|
    ensures forall i :: 0 <= i < k ==> IsWhitespace(s[i])
    ensures k < |s| ==> !IsWhitespace(s[k])
    decreases |s|
  {
    if s != [] && IsWhitespace(s[0]) then 1 + LeadingWhitespace(s[1..]) else 0
  }

  /** The length of `s` without its whitespace suffix. */
  function WithoutTrailingWhitespace(s: string): (n: nat)
    ensures n <= |s|
    ensures forall i :: n <= i < |s| ==> IsWhitespace(s[i])
    ensures n > 0 ==> !IsWhitespace(s[n - 1])
    decreases |s|
  {
    if s != [] && IsWhitespace(s[|s| - 1]) then WithoutTrailingWhitespace(s[..|s| - 1]) else |s|
  }

  /** `str::trim_start`: the longest whitespace prefix is removed. */
  function TrimStart(s: string): string {
    s[LeadingWhitespace(s)..]
  }

  /** `str::trim_end`: the longest whitespace suffix is removed. */
  function TrimEnd(s: string): string {
    s[..WithoutTrailingWhitespace(s)]
  }

  /** `str::trim`. */
  function Trim(s: string): string {
    TrimEnd(TrimStart(s))
  }

  /** Trimming leaves nothing exactly when the string is all whitespace. */
  lemma TrimEmptyIffBlank(s: string)
    ensures Trim(s) == [] <==> forall i :: 0 <= i < |s| ==> IsWhitespace(s[i])
  {
    var t := TrimStart(s);
    if Trim(s) == [] {
      assert t == [];
    }
  }

  /** A trimmed string that is not empty is clean. */
  lemma TrimIsClean(s: string)
    requires Trim(s) != []
    ensures IsClean(Trim(s))
  {
    var t := TrimStart(s);
    assert Trim(s)[0] == t[0];
  }

  /** `trim` is idempotent. */
  lemma TrimIdempotent(s: string)
    ensures Trim(Trim(s)) == Trim(s)
  {
    var t := Trim(s);
    if t != [] {
      TrimIsClean(s);
    }
  }

  /** `pat` occurs in `s` starting at index `i`. */
  predicate OccursAt(s: string, pat: string, i: int) {
    0 <= i && i + |pat| <= |s| && s[i..i + |pat|] == pat
  }

  /** `str::contains` for a string pattern, scanning left to right. */
  function Contains(s: string, pat: string): bool
    decreases |s|
  {
    if pat <= s then true
    else if s == [] then false
    else Contains(s[1..], pat)
  }

  lemma {:induction false} ContainsIffOccurs(s: string, pat: string)
    ensures Contains(s, pat) <==> exists i :: OccursAt(s, pat, i)
    decreases |s|
  {
    if pat <= s {
      assert OccursAt(s, pat, 0);
    } else if s == [] {
      assert pat != [];
    } else {
      ContainsIffOccurs(s[1..], pat);
      assert !OccursAt(s, pat, 0);
      // An occurrence at a later index is one in the tail, and the converse.
      forall i | 1 <= i && OccursAt(s, pat, i)
        ensures OccursAt(s[1..], pat, i - 1)
      {
        assert s[1..][i - 1..i - 1 + |pat|] == s[i..i + |pat|];
      }
      forall i | OccursAt(s[1..], pat, i)
        ensures OccursAt(s, pat, i + 1)
      {
        assert s[1..][i..i + |pat|] == s[i + 1..i + 1 + |pat|];
      }
    }
  }

  /** `str::starts_with` for a string pattern. */
  predicate StartsWith(s: string, prefix: string) {
    prefix <= s
  }

  /** Index of the first `c` in `s`, or `|s|` when there is none. */
  function IndexOf(s: string, c: char): (k: nat)
    ensures k <= |s|
    ensures forall j :: 0 <= j < k ==> s[j] != c
    ensures k < |s| ==> s[k] == c
    decreases |s|
  {
    if s == [] then 0
    else if s[0] == c then 0
    else 1 + IndexOf(s[1..], c)
  }

  /** `str::split(c)`, collected: never empty, one more piece than there are `c`s. */
  function Split(s: string, c: char): (parts: seq<string>)
    ensures |parts| >= 1
    decreases |s|
  {
    var k := IndexOf(s, c);
    if k == |s| then [s] else [s[..k]] + Split(s[k + 1..], c)
  }

  /** The inverse of `Split`: the pieces glued back together with `c`. */
  function Join(parts: seq<string>, c: char): string
    decreases |parts|
  {
    if parts == [] then []
    else if |parts| == 1 then parts[0]
    else parts[0] + [c] + Join(parts[1..], c)
  }

  lemma {:induction false} SplitJoin(s: string, c: char)
    ensures Join(Split(s, c), c) == s
    decreases |s|
  {
    var k := IndexOf(s, c);
    if k < |s| {
      var rest := s[k + 1..];
      var tail := Split(rest, c);
      SplitJoin(rest, c);
      var parts := Split(s, c);
      assert parts == [s[..k]] + tail;
      assert |parts| >= 2 && parts[0] == s[..k] && parts[1..] == tail;
      assert Join(parts, c) == s[..k] + [c] + Join(tail, c);
      assert s == s[..k] + [c] + rest;
    }
  }

  /** No piece of a split holds the separator. */
  lemma {:induction false} SplitPiecesFree(s: string, c: char)
    ensures forall i :: 0 <= i < |Split(s, c)| ==> c !in Split(s, c)[i]
    decreases |s|
  {
    var k := IndexOf(s, c);
    if k < |s| {
      SplitPiecesFree(s[k + 1..], c);
      assert c !in s[..k];
    } else {
      assert c !in s;
    }
  }

  /** There is a second piece exactly when `c` occurs; it runs up to the next `c`. */
  lemma SplitSecondPiece(s: string, c: char)
    ensures |Split(s, c)| >= 2 <==> c in s
    ensures c in s ==> Split(s, c)[1] == s[IndexOf(s, c) + 1..][..IndexOf(s[IndexOf(s, c) + 1..], c)]
  {
    var k := IndexOf(s, c);
    if k < |s| {
      var rest := s[k + 1..];
      var m := IndexOf(rest, c);
      if m == |rest| {
        assert rest[..m] == rest;
      }
    }
  }

  /** A line with a trailing carriage return removed, as `lines()` does for `\r\n`. */
  function StripCarriageReturn(line: string): string {
    if line != [] && line[|line| - 1] == '\r' then line[..|line| - 1] else line
  }

  /**
   * `str::lines()`: split after each `\n`; a `\r` is dropped only when it
   * stands right before that `\n`; an empty string has no lines and a final
   * `\n` does not start another line.
   */
  function Lines(s: string): seq<string>
    decreases |s|
  {
    if s == [] then []
    else
      var k := IndexOf(s, '\n');
      if k == |s| then [s]
      else [StripCarriageReturn(s[..k])] + Lines(s[k + 1..])
  }

  /** No line holds a line feed. */
  lemma {:induction false} LinesHaveNoNewline(s: string)
    ensures forall i :: 0 <= i < |Lines(s)| ==> '\n' !in Lines(s)[i]
    decreases |s|
  {
    if s != [] {
      var k := IndexOf(s, '\n');
      if k < |s| {
        LinesHaveNoNewline(s[k + 1..]);
        assert '\n' !in s[..k];
      }
    }
  }

  /**
   * A final line ending does not add a line: a non-empty text that does not
   * already end a line has the same lines with `\n` appended.
   */
  lemma {:induction false} LinesIgnoreFinalNewline(s: string)
    requires s != [] && s[|s| - 1] != '\n' && s[|s| - 1] != '\r'
    ensures Lines(s + "\n") == Lines(s)
    decreases |s|
  {
    var k := IndexOf(s, '\n');
    var t := s + "\n";
    IndexOfExtend(s, '\n');
    if k < |s| {
      assert t[..k] == s[..k];
      assert t[k + 1..] == s[k + 1..] + "\n";
      LinesIgnoreFinalNewline(s[k + 1..]);
    } else {
      assert t[..k] == s;
      assert t[k + 1..] == [];
    }
  }

  lemma IndexOfExtend(s: string, c: char)
    ensures IndexOf(s + [c], c) == IndexOf(s, c)
  {
    var t := s + [c];
    var k := IndexOf(s, c);
    var j := IndexOf(t, c);
    assert t[|s|] == c;
    assert forall i :: 0 <= i < |s| ==> t[i] == s[i];
    assert j <= k;
    assert k <= j;
  }

  /** Without carriage returns and a final line ending, `lines()` is `split('\n')`. */
  lemma {:induction false} LinesAreSplit(s: string)
    requires s != [] && '\r' !in s && s[|s| - 1] != '\n'
    ensures Lines(s) == Split(s, '\n')
    decreases |s|
  {
    var k := IndexOf(s, '\n');
    if k < |s| {
      assert s[..k] == [] || s[..k][|s[..k]| - 1] == s[k - 1];
      assert StripCarriageReturn(s[..k]) == s[..k];
      assert s[k + 1..] != [];
      LinesAreSplit(s[k + 1..]);
    }
  }
}
