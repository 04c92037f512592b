/**
 String operations of the JavaScript runtime that the modelled files rely on:
 trimming, splitting into lines and joining them again.
 */
module JsText {

  /** White space as `String.prototype.trim` understands it (ECMAScript, section 12.2 and 12.3). */
  predicate IsSpace(c: char) {
    var k := c as int;
    || 9 <= k <= 13 || k == 32 || k == 0xA0 || k == 0x1680 || 0x2000 <= k <= 0x200A
    || k == 0x2028 || k == 0x2029 || k == 0x202F || k == 0x205F || k == 0x3000 || k == 0xFEFF
  }

  function TrimStart(s: string): (t: string)
    ensures t == "" || !IsSpace(t[0])
    ensures |t| <= |s| && t == s[|s| - |t|..]
  {
    if s == "" || !IsSpace(s[0]) then s else TrimStart(s[1..])
  }

  function TrimEnd(s: string): (t: string)
    ensures t == "" || !IsSpace(t[|t| - 1])
    ensures |t| <= |s| && t == s[..|t|]
  {
    if s == "" || !IsSpace(s[|s| - 1]) then s else TrimEnd(s[..|s| - 1])
  }

  function Trim(s: string): string {
    TrimEnd(TrimStart(s))
  }

  predicate AllSpace(s: string) {
    forall i :: 0 <= i < |s| ==> IsSpace(s[i])
  }

  /** Exactly the leading white space is taken off. */
  ghost predicate LeftTrimmed(s: string, t: string) {
    (t == "" || !IsSpace(t[0])) && exists front: string :: AllSpace(front) && s == front + t
  }

  /** Exactly the white space on both sides is taken off. */
  ghost predicate Trimmed(s: string, t: string) {
    (t == "" || !IsSpace(t[|t| - 1])) && exists back: string :: AllSpace(back) && LeftTrimmed(s, t + back)
  }

  lemma {:induction false} SpaceBefore(s: string)
    ensures AllSpace(s[..|s| - |TrimStart(s)|])
  {
    hide IsSpace;
    if s != "" && IsSpace(s[0]) {
      SpaceBefore(s[1..]);
      var n := |s| - |TrimStart(s)|;
      assert s[..n] == [s[0]] + s[1..][..n - 1];
    }
  }

  lemma {:induction false} SpaceBehind(s: string)
    ensures AllSpace(s[|TrimEnd(s)|..])
  {
    hide IsSpace;
    if s != "" && IsSpace(s[|s| - 1]) {
      var front := s[..|s| - 1];
      SpaceBehind(front);
      assert s[|TrimEnd(s)|..] == front[|TrimEnd(s)|..] + [s[|s| - 1]];
    }
  }

  lemma TrimStartIs(s: string)
    ensures LeftTrimmed(s, TrimStart(s))
  {
    hide AllSpace, IsSpace, TrimStart;
    var t := TrimStart(s);
    SpaceBefore(s);
    assert s == s[..|s| - |t|] + t;
  }

  lemma TrimIs(s: string)
    ensures Trimmed(s, Trim(s)) && (Trim(s) == "" || !IsSpace(Trim(s)[0]))
  {
    hide AllSpace, IsSpace, TrimStart, TrimEnd, LeftTrimmed;
    var left := TrimStart(s);
    var t := TrimEnd(left);
    TrimStartIs(s);
    SpaceBehind(left);
    assert left == t + left[|t|..];
    assert t != "" ==> t[0] == left[0];
  }

  lemma TrimStartStable(s: string)
    ensures TrimStart(TrimStart(s)) == TrimStart(s)
  {
  }

  lemma TrimStable(s: string)
    ensures Trim(Trim(s)) == Trim(s)
  {
    var t := Trim(s);
    assert t != "" ==> t[0] == TrimStart(s)[0];
    assert TrimStart(t) == t;
  }

  /** A space in front of a field value disappears with the rest of its leading white space. */
  lemma TrimStartDropsSpace(s: string)
    ensures TrimStart(" " + s) == TrimStart(s) && Trim(" " + s) == Trim(s)
  {
    hide TrimEnd;
    assert (" " + s)[1..] == s && IsSpace((" " + s)[0]);
    assert TrimStart(" " + s) == TrimStart((" " + s)[1..]);
  }

  predicate Without(s: string, c: char) {
    forall i :: 0 <= i < |s| ==> s[i] != c
  }

  predicate AllWithout(parts: seq<string>, c: char) {
    forall i :: 0 <= i < |parts| ==> Without(parts[i], c)
  }

  /** Puts text in front of the first of several pieces. */
  function Glue(head: string, rest: seq<string>): (r: seq<string>)
    requires rest != []
    ensures |r| == |rest| && r[0] == head + rest[0]
    ensures forall i :: 1 <= i < |r| ==> r[i] == rest[i]
    ensures r[1..] == rest[1..]
  {
    [head + rest[0]] + rest[1..]
  }

  lemma GlueGlue(a: string, b: string, rest: seq<string>)
    requires rest != []
    ensures Glue(a, Glue(b, rest)) == Glue(a + b, rest)
  {
    assert a + (b + rest[0]) == (a + b) + rest[0];
  }

  /** `s.split(sep)` for a one-character separator: always at least one piece. */
  function Split(s: string, sep: char): (parts: seq<string>)
    ensures parts != [] && AllWithout(parts, sep)
  {
    if s == "" then [""]
    else
      var rest := Split(s[1..], sep);
      if s[0] == sep then [""] + rest else Glue([s[0]], rest)
  }

  /** `parts.join(sep)`. */
  function Join(parts: seq<string>, sep: char): string {
    if parts == [] then ""
    else if |parts| == 1 then parts[0]
    else parts[0] + [sep] + Join(parts[1..], sep)
  }

  lemma {:induction false} JoinAfterSplit(s: string, sep: char)
    ensures Join(Split(s, sep), sep) == s
  {
    if s != "" {
      JoinAfterSplit(s[1..], sep);
      var rest := Split(s[1..], sep);
      if s[0] == sep {
        assert Join([""] + rest, sep) == "" + [sep] + Join(([""] + rest)[1..], sep);
      } else {
        GlueJoin([s[0]], rest, sep);
      }
    }
  }

  lemma GlueJoin(head: string, rest: seq<string>, sep: char)
    requires rest != []
    ensures Join(Glue(head, rest), sep) == head + Join(rest, sep)
  {
    if |rest| > 1 {
      var tail := [sep] + Join(rest[1..], sep);
      assert Join(rest, sep) == rest[0] + tail;
      assert Join(Glue(head, rest), sep) == (head + rest[0]) + tail;
      assert (head + rest[0]) + tail == head + (rest[0] + tail);
    }
  }

  /** Splitting a separator-free piece followed by more text only lengthens the first piece. */
  lemma {:induction false} SplitGlue(piece: string, text: string, sep: char)
    requires Without(piece, sep)
    ensures Split(piece + text, sep) == Glue(piece, Split(text, sep))
  {
    if piece == "" {
      assert piece + text == text;
      assert "" + Split(text, sep)[0] == Split(text, sep)[0];
    } else {
      assert (piece + text)[1..] == piece[1..] + text;
      SplitGlue(piece[1..], text, sep);
      GlueGlue([piece[0]], piece[1..], Split(text, sep));
      assert [piece[0]] + piece[1..] == piece;
    }
  }

  lemma GlueAppend(head: string, a: seq<string>, b: seq<string>)
    requires a != []
    ensures Glue(head, a + b) == Glue(head, a) + b
  {
  }

  lemma {:induction false} SplitAtSeparator(s: string, t: string, sep: char)
    ensures Split(s + ([sep] + t), sep) == Split(s, sep) + Split(t, sep)
  {
    var text := s + ([sep] + t);
    if s == "" {
      assert text == [sep] + t && text[1..] == t;
    } else {
      hide AllWithout, Without;
      assert text[1..] == s[1..] + ([sep] + t) && text[0] == s[0];
      SplitAtSeparator(s[1..], t, sep);
      var rest := Split(s[1..], sep);
      assert [""] + (rest + Split(t, sep)) == ([""] + rest) + Split(t, sep);
      GlueAppend([s[0]], rest, Split(t, sep));
    }
  }

  lemma {:induction false} SplitAfterJoin(parts: seq<string>, sep: char)
    requires parts != [] && AllWithout(parts, sep)
    ensures Split(Join(parts, sep), sep) == parts
  {
    if |parts| == 1 {
      SplitGlue(parts[0], "", sep);
      assert parts[0] + "" == parts[0];
    } else {
      SplitAfterJoin(parts[1..], sep);
      var tail := [sep] + Join(parts[1..], sep);
      SplitGlue(parts[0], tail, sep);
      assert parts[0] + [sep] + Join(parts[1..], sep) == parts[0] + tail;
      assert tail[1..] == Join(parts[1..], sep);
      assert Split(tail, sep) == [""] + parts[1..];
      assert parts[0] + "" == parts[0];
    }
  }
}
