/** The string handling the canvas relies on: optional values, `toLowerCase` on colours,
    stripping a leading `#`, `split('\n')` on labels, `MxUtils.trim`, and escaping of
    parentheses in the base URL of a `url(...)` reference. */
module Strings {

  datatype Option<+T> = None | Some(value: T)

  /** JavaScript's `o || d` on a string that may be null: null and the empty string both
      give the default. */
  function OrElse(o: Option<string>, d: string): (r: string)
    ensures o.Some? && o.value != "" ==> r == o.value
    ensures o.None? || o.value == "" ==> r == d
  {
    if o.Some? && o.value != "" then o.value else d
  }

  function LowerChar(c: char): (r: char)
    ensures 'A' <= c <= 'Z' ==> 'a' <= r <= 'z'
    ensures !('A' <= c <= 'Z') ==> r == c
  {
    if 'A' <= c <= 'Z' then (c as int - 'A' as int + 'a' as int) as char else c
  }

  predicate IsLower(s: string) {
    forall i :: 0 <= i < |s| ==> !('A' <= s[i] <= 'Z')
  }

  /** `toLowerCase`, on the ASCII letters. */
  function Lower(s: string): (r: string)
    ensures |r| == |s|
    ensures forall i :: 0 <= i < |s| ==> r[i] == LowerChar(s[i])
    ensures IsLower(r)
  {
    seq(|s|, i requires 0 <= i < |s| => LowerChar(s[i]))
  }

  /** Lower-casing twice is lower-casing once. */
  lemma LowerIdempotent(s: string)
    ensures Lower(Lower(s)) == Lower(s)
  {
  }

  /** Removes one leading `#` (the check `s.charAt(0) === '#'`). */
  function StripHash(s: string): (r: string)
    ensures |s| > 0 && s[0] == '#' ==> r == s[1..]
    ensures (|s| == 0 || s[0] != '#') ==> r == s
  {
    if |s| > 0 && s[0] == '#' then s[1..] else s
  }

  /** `str.split('\n')`: the pieces between line breaks, in order; there is always at least
      one piece. */
  function Split(s: string): (r: seq<string>)
    ensures |r| >= 1
    ensures forall i :: 0 <= i < |r| ==> '\n' !in r[i]
    decreases |s|
  {
    if s == [] then [""]
    else if s[0] == '\n' then [""] + Split(s[1..])
    else
      var rest := Split(s[1..]);
      [[s[0]] + rest[0]] + rest[1..]
  }

  /** `lines.join('\n')`, the inverse of `Split`. */
  function Join(lines: seq<string>): string
    requires |lines| >= 1
  {
    if |lines| == 1 then lines[0] else lines[0] + "\n" + Join(lines[1..])
  }

  /** Splitting a label and joining the pieces gives the label back. */
  lemma {:induction false} JoinSplit(s: string)
    ensures Join(Split(s)) == s
    decreases |s|
  {
    if s == [] {
    } else if s[0] == '\n' {
      JoinSplit(s[1..]);
      assert Split(s)[1..] == Split(s[1..]);
    } else {
      JoinSplit(s[1..]);
      var rest := Split(s[1..]);
      if |rest| == 1 {
        assert Join(Split(s)) == [s[0]] + rest[0];
      } else {
        assert Split(s)[1..] == rest[1..];
        assert Join(rest) == rest[0] + "\n" + Join(rest[1..]);
      }
    }
  }

  /** Joining lines free of line breaks and splitting the result gives the lines back. */
  lemma {:induction false} SplitJoin(lines: seq<string>)
    requires |lines| >= 1
    requires forall i :: 0 <= i < |lines| ==> '\n' !in lines[i]
    ensures Split(Join(lines)) == lines
    decreases |lines|, |lines[0]|
  {
    var first := lines[0];
    if first == [] {
      if |lines| > 1 {
        SplitJoin(lines[1..]);
        assert Join(lines) == "\n" + Join(lines[1..]);
        assert Join(lines)[1..] == Join(lines[1..]);
      }
    } else {
      var tail := [first[1..]] + lines[1..];
      assert forall i :: 0 <= i < |tail| ==> '\n' !in tail[i] by {
        forall i | 0 <= i < |tail| ensures '\n' !in tail[i] {
          if i == 0 {
            assert forall c :: c in first[1..] ==> c in first;
          } else {
            assert tail[i] == lines[i];
          }
        }
      }
      SplitJoin(tail);
      assert first[0] != '\n' by { assert first[0] in first; }
      if |lines| == 1 {
        assert Join(lines) == first;
        assert Join(tail) == first[1..];
        assert first == [first[0]] + first[1..];
      } else {
        assert Join(tail) == first[1..] + "\n" + Join(lines[1..]);
        assert Join(lines) == first + "\n" + Join(lines[1..]);
        assert Join(lines)[1..] == Join(tail);
      }
      assert [first[0]] + tail[0] == first;
      assert tail[1..] == lines[1..];
      assert lines == [first] + lines[1..];
    }
  }

  /** The characters `MxUtils.trim` removes: JavaScript's `\s` class, that is tab, line
      feed, vertical tab, form feed, carriage return, space, the no-break spaces, the
      Unicode space separators, the line and paragraph separators and the byte-order mark. */
  predicate IsSpace(c: char) {
    || ('\t' <= c <= '\r') || c == ' ' || c == '\U{A0}' || c == '\U{1680}'
    || ('\U{2000}' <= c <= '\U{200A}') || c == '\U{2028}' || c == '\U{2029}'
    || c == '\U{202F}' || c == '\U{205F}' || c == '\U{3000}' || c == '\U{FEFF}'
  }

  /** A line that `MxUtils.trim` reduces to the empty string. */
  predicate IsBlank(line: string) {
    forall i :: 0 <= i < |line| ==> IsSpace(line[i])
  }

  /** `replace(/([()])/g, '\\$1')`: a backslash before every parenthesis. */
  function EscapeParens(s: string): (r: string)
    ensures |r| >= |s|
    ensures ('(' !in s && ')' !in s) ==> r == s
  {
    if s == [] then []
    else (if s[0] == '(' || s[0] == ')' then ['\\', s[0]] else [s[0]]) + EscapeParens(s[1..])
  }

  /** Drops the backslash in front of each escaped parenthesis. */
  function UnescapeParens(s: string): string
  {
    if |s| >= 2 && s[0] == '\\' && (s[1] == '(' || s[1] == ')') then [s[1]] + UnescapeParens(s[2..])
    else if s == [] then []
    else [s[0]] + UnescapeParens(s[1..])
  }

  /** Escaping loses nothing when the URL has no backslashes of its own. */
  lemma {:induction false} UnescapeEscape(s: string)
    requires '\\' !in s
    ensures UnescapeParens(EscapeParens(s)) == s
  {
    if s != [] {
      assert '\\' !in s[1..] by { assert forall c :: c in s[1..] ==> c in s; }
      UnescapeEscape(s[1..]);
      assert s[0] != '\\' by { assert s[0] in s; }
      var e := EscapeParens(s);
      if s[0] == '(' || s[0] == ')' {
        assert e[2..] == EscapeParens(s[1..]);
      } else {
        assert e[1..] == EscapeParens(s[1..]);
      }
    }
  }
}
