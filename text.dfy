/** The string operations the services use: case mapping, trimming,
    splitting into lines and substring search. Case mapping covers ASCII
    letters only and white space covers the ASCII spaces, no-break space and
    the byte-order mark; the rest of Unicode is not modelled. */
module Text {

  predicate IsSpace(c: char) {
    c == ' ' || c == '\t' || c == '\n' || c == '\r' || c == '\U{0B}' || c == '\U{0C}'
    || c == '\U{A0}' || c == '\U{FEFF}'
  }

  predicate IsUpper(c: char) { 'A' <= c <= 'Z' }

  predicate IsLower(c: char) { 'a' <= c <= 'z' }

  function LowerChar(c: char): (r: char)
    ensures IsUpper(c) ==> IsLower(r) && r as int == c as int + 32
    ensures !IsUpper(c) ==> r == c
  {
    if IsUpper(c) then (c as int + 32) as char else c
  }

  function UpperChar(c: char): (r: char)
    ensures IsLower(c) ==> IsUpper(r) && r as int == c as int - 32
    ensures !IsLower(c) ==> r == c
  {
    if IsLower(c) then (c as int - 32) as char else c
  }

  /** String.prototype.toLowerCase on ASCII letters: each upper-case
      letter becomes the lower-case letter that upper-cases back to it, and
      every other character stays. */
  function Lower(s: string): (r: string)
    ensures |r| == |s|
    ensures forall i :: 0 <= i < |r| ==> !IsUpper(r[i])
    ensures forall i :: 0 <= i < |s| && IsUpper(s[i]) ==> IsLower(r[i]) && UpperChar(r[i]) == s[i]
    ensures forall i :: 0 <= i < |s| && !IsUpper(s[i]) ==> r[i] == s[i]
  {
    seq(|s|, i requires 0 <= i < |s| => LowerChar(s[i]))
  }

  /** String.prototype.toUpperCase on ASCII letters: each lower-case
      letter becomes the upper-case letter that lower-cases back to it, and
      every other character stays. */
  function Upper(s: string): (r: string)
    ensures |r| == |s|
    ensures forall i :: 0 <= i < |r| ==> !IsLower(r[i])
    ensures forall i :: 0 <= i < |s| && IsLower(s[i]) ==> IsUpper(r[i]) && LowerChar(r[i]) == s[i]
    ensures forall i :: 0 <= i < |s| && !IsLower(s[i]) ==> r[i] == s[i]
  {
    seq(|s|, i requires 0 <= i < |s| => UpperChar(s[i]))
  }

  /** Drops the leading white space. */
  function TrimStart(s: string): string
    decreases |s|
  {
    if s != [] && IsSpace(s[0]) then TrimStart(s[1..]) else s
  }

  /** Drops the trailing white space. */
  function TrimEnd(s: string): string
    decreases |s|
  {
    if s != [] && IsSpace(s[|s| - 1]) then TrimEnd(s[..|s| - 1]) else s
  }

  /** TrimStart leaves the suffix of `s` that starts at its first non-space
      character. */
  lemma {:induction false} TrimStartShape(s: string)
    ensures |TrimStart(s)| <= |s| && TrimStart(s) == s[|s| - |TrimStart(s)|..]
    ensures TrimStart(s) != [] ==> !IsSpace(TrimStart(s)[0])
    ensures forall i :: 0 <= i < |s| - |TrimStart(s)| ==> IsSpace(s[i])
    decreases |s|
  {
    if s != [] && IsSpace(s[0]) {
      var r := TrimStart(s[1..]);
      TrimStartShape(s[1..]);
      assert s[1..][|s| - 1 - |r|..] == s[|s| - |r|..];
      forall i | 1 <= i < |s| - |r|
        ensures IsSpace(s[i])
      {
        assert s[i] == s[1..][i - 1];
      }
    }
  }

  /** TrimEnd leaves the prefix of `s` that ends at its last non-space
      character. */
  lemma {:induction false} TrimEndShape(s: string)
    ensures |TrimEnd(s)| <= |s| && TrimEnd(s) == s[..|TrimEnd(s)|]
    ensures TrimEnd(s) != [] ==> !IsSpace(TrimEnd(s)[|TrimEnd(s)| - 1])
    ensures forall i :: |TrimEnd(s)| <= i < |s| ==> IsSpace(s[i])
    decreases |s|
  {
    if s != [] && IsSpace(s[|s| - 1]) {
      var init := s[..|s| - 1];
      TrimEndShape(init);
      var r := TrimEnd(init);
      assert init[..|r|] == s[..|r|];
      forall i | |r| <= i < |s| - 1
        ensures IsSpace(s[i])
      {
        assert s[i] == init[i];
      }
    }
  }

  /** String.prototype.trim. */
  function Trim(s: string): string {
    TrimEnd(TrimStart(s))
  }

  /** The trimmed text is blank exactly when every character is white
      space, and otherwise a slice of `s` that begins and ends with a
      non-space character. */
  lemma TrimShape(s: string)
    ensures Trim(s) == [] <==> forall i :: 0 <= i < |s| ==> IsSpace(s[i])
    ensures Trim(s) != [] ==> !IsSpace(Trim(s)[0]) && !IsSpace(Trim(s)[|Trim(s)| - 1])
    ensures exists k :: 0 <= k <= |s| && Trim(s) <= s[k..]
  {
    var t := TrimStart(s);
    TrimStartShape(s);
    TrimEndShape(t);
    assert Trim(s) <= s[|s| - |t|..];
  }

  /** The pieces with `sep` between each two of them. */
  function Join(pieces: seq<string>, sep: string): string
    decreases |pieces|
  {
    if pieces == [] then ""
    else if |pieces| == 1 then pieces[0]
    else pieces[0] + sep + Join(pieces[1..], sep)
  }

  /** Splits on every '\n', keeping the pieces between them (and the empty
      piece after a final '\n'): joining the pieces with '\n' gives the
      text back, and no piece holds a newline. */
  function SplitNewlines(s: string): (r: seq<string>)
    ensures |r| == NewlineCount(s) + 1
    ensures forall i :: 0 <= i < |r| ==> '\n' !in r[i]
    ensures Join(r, "\n") == s
    decreases |s|
  {
    if s == [] then [""]
    else
      var rest := SplitNewlines(s[1..]);
      if s[0] == '\n' then [""] + rest
      else [[s[0]] + rest[0]] + rest[1..]
  }

  function NewlineCount(s: string): nat
    decreases |s|
  {
    if s == [] then 0 else (if s[0] == '\n' then 1 else 0) + NewlineCount(s[1..])
  }

  predicate EndsWithCarriageReturn(line: string) {
    line != [] && line[|line| - 1] == '\r'
  }

  /** Removes one '\r' at the end of a line. */
  function DropCarriageReturn(line: string): (r: string)
    ensures EndsWithCarriageReturn(line) ==> r + "\r" == line
    ensures !EndsWithCarriageReturn(line) ==> r == line
  {
    if EndsWithCarriageReturn(line) then line[..|line| - 1] else line
  }

  /** `s.split(/\r?\n/)`: the pieces between newlines, where a '\r' that
      stands right before a '\n' belongs to the separator. */
  function Lines(s: string): seq<string> {
    var pieces := SplitNewlines(s);
    seq(|pieces|, i requires 0 <= i < |pieces| =>
      if i < |pieces| - 1 then DropCarriageReturn(pieces[i]) else pieces[i])
  }

  /** There is one line more than there are newlines, and no line holds a
      newline. Line i is the text between the i-th separator and the next:
      the i-th piece between newlines, less the '\r' that ends it when it
      is followed by a newline; the last line is the text after the last
      newline. */
  lemma LinesShape(s: string)
    ensures |Lines(s)| == NewlineCount(s) + 1
    ensures forall i :: 0 <= i < |Lines(s)| ==> '\n' !in Lines(s)[i]
    ensures var pieces := SplitNewlines(s);
      && Join(pieces, "\n") == s
      && |Lines(s)| == |pieces|
      && Lines(s)[|pieces| - 1] == pieces[|pieces| - 1]
      && (forall i :: 0 <= i < |pieces| - 1 && EndsWithCarriageReturn(pieces[i]) ==> Lines(s)[i] + "\r" == pieces[i])
      && (forall i :: 0 <= i < |pieces| - 1 && !EndsWithCarriageReturn(pieces[i]) ==> Lines(s)[i] == pieces[i])
  {
    var pieces := SplitNewlines(s);
    var lines := Lines(s);
    forall i | 0 <= i < |pieces| - 1
      ensures lines[i] == DropCarriageReturn(pieces[i])
    {
    }
    forall i | 0 <= i < |pieces|
      ensures '\n' !in lines[i]
    {
      if i < |pieces| - 1 {
        assert lines[i] <= pieces[i];
      }
    }
  }

  /** String.prototype.includes: `t` occurs in `s` at some offset. */
  predicate Contains(s: string, t: string)
    decreases |s|
  {
    t <= s || (s != [] && Contains(s[1..], t))
  }

  /** `Contains` agrees with the definition by offsets. */
  lemma {:induction false} ContainsAtOffset(s: string, t: string)
    ensures Contains(s, t) <==> exists k :: 0 <= k <= |s| && t <= s[k..]
    decreases |s|
  {
    if exists k :: 0 <= k <= |s| && t <= s[k..] {
      var k :| 0 <= k <= |s| && t <= s[k..];
      if k == 0 {
        assert s[k..] == s;
      } else {
        assert s[k..] == s[1..][k - 1..];
        ContainsAtOffset(s[1..], t);
      }
    }
    if Contains(s, t) {
      if t <= s {
        assert s[0..] == s;
      } else {
        ContainsAtOffset(s[1..], t);
        var k :| 0 <= k <= |s[1..]| && t <= s[1..][k..];
        assert s[1..][k..] == s[k + 1..];
      }
    }
  }
}
