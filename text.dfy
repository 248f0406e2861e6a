/** The pieces of the JavaScript string API that the listing rules rely on:
    `String.prototype.split` with a one-character separator,
    `Array.prototype.join`, and `String.prototype.trim`. */
module Text {

  /** The characters `trim` removes: ECMAScript WhiteSpace and LineTerminator. */
  predicate IsSpace(c: char) {
    || c == '\t' || c == '\n' || c == '\U{B}' || c == '\U{C}' || c == '\r' || c == ' '
    || c == '\U{A0}' || c == '\U{1680}' || ('\U{2000}' <= c <= '\U{200A}')
    || c == '\U{2028}' || c == '\U{2029}' || c == '\U{202F}' || c == '\U{205F}'
    || c == '\U{3000}' || c == '\U{FEFF}'
  }

  /** Neither end of `s` is a space: `trim` leaves such a string alone. */
  predicate Trimmed(s: string) {
    s == [] || (!IsSpace(s[0]) && !IsSpace(s[|s| - 1]))
  }

  /** `parts.join(sep)`; an empty array joins to the empty string. */
  function Join(parts: seq<string>, sep: string): string
  {
    if |parts| == 0 then ""
    else if |parts| == 1 then parts[0]
    else parts[0] + sep + Join(parts[1..], sep)
  }

  lemma JoinPrepend(c: char, x: string, xs: seq<string>, sep: string)
    ensures Join([[c] + x] + xs, sep) == [c] + Join([x] + xs, sep)
  {
    if |xs| > 0 {
      assert ([[c] + x] + xs)[1..] == xs;
      assert ([x] + xs)[1..] == xs;
    }
  }

  /** `s.split(sep)`: the pieces between separators, the empty string giving one empty piece.
      No piece holds the separator. */
  function Split(s: string, sep: char): (parts: seq<string>)
    ensures |parts| >= 1
    ensures forall i :: 0 <= i < |parts| ==> sep !in parts[i]
    decreases |s|
  {
    if s == [] then [""]
    else
      var rest := Split(s[1..], sep);
      if s[0] == sep then
        assert ([""] + rest)[1..] == rest;
        [""] + rest
      else
        [[s[0]] + rest[0]] + rest[1..]
  }

  /** Joining the pieces of a split with the separator gives back the string. */
  lemma {:induction false} JoinSplit(s: string, sep: char)
    ensures Join(Split(s, sep), [sep]) == s
    decreases |s|
  {
    if s != [] {
      JoinSplit(s[1..], sep);
      var rest := Split(s[1..], sep);
      if s[0] == sep {
        assert Split(s, sep) == [""] + rest;
        assert ([""] + rest)[1..] == rest;
      } else {
        assert rest == [rest[0]] + rest[1..];
        JoinPrepend(s[0], rest[0], rest[1..], [sep]);
      }
    }
  }

  /** Splitting undoes joining when no piece contains the separator. */
  lemma {:induction false} SplitJoin(parts: seq<string>, sep: char)
    requires |parts| >= 1
    requires forall i :: 0 <= i < |parts| ==> sep !in parts[i]
    ensures Split(Join(parts, [sep]), sep) == parts
    decreases |parts|, |parts[0]|
  {
    if |parts| == 1 {
      SplitPlain(parts[0], sep);
    } else {
      var head, tail := parts[0], parts[1..];
      if head == [] {
        assert Join(parts, [sep]) == [sep] + Join(tail, [sep]);
        SplitJoin(tail, sep);
        assert ([sep] + Join(tail, [sep]))[1..] == Join(tail, [sep]);
      } else {
        var shorter := [head[1..]] + tail;
        assert shorter[1..] == tail;
        assert Join(parts, [sep]) == [head[0]] + Join(shorter, [sep]) by {
          assert head == [head[0]] + head[1..];
          JoinPrepend(head[0], head[1..], tail, [sep]);
        }
        forall i | 0 <= i < |shorter| ensures sep !in shorter[i] {
          if i == 0 { assert head[0] != sep; } else { assert shorter[i] == parts[i]; }
        }
        SplitJoin(shorter, sep);
        assert ([head[0]] + Join(shorter, [sep]))[1..] == Join(shorter, [sep]);
        assert head[0] != sep;
        assert [head[0]] + head[1..] == head;
      }
    }
  }

  /** A string without the separator splits into itself alone. */
  lemma {:induction false} SplitPlain(s: string, sep: char)
    requires sep !in s
    ensures Split(s, sep) == [s]
    decreases |s|
  {
    if s != [] {
      assert sep !in s[1..] by { assert forall c :: c in s[1..] ==> c in s; }
      SplitPlain(s[1..], sep);
      assert [s[0]] + s[1..] == s;
    }
  }

  /** How many spaces `s` starts with: the characters `trim` drops at the front. */
  function LeadingSpaces(s: string): (n: nat)
    ensures n <= |s|
    ensures forall i :: 0 <= i < n ==> IsSpace(s[i])
    ensures n < |s| ==> !IsSpace(s[n])
    decreases |s|
  {
    if s != [] && IsSpace(s[0]) then
      var n := 1 + LeadingSpaces(s[1..]);
      assert forall i :: 1 <= i < |s| ==> s[i] == s[1..][i - 1];
      n
    else 0
  }

  /** How many spaces `s` ends with: the characters `trim` drops at the back. */
  function TrailingSpaces(s: string): (n: nat)
    ensures n <= |s|
    ensures forall i :: |s| - n <= i < |s| ==> IsSpace(s[i])
    ensures n < |s| ==> !IsSpace(s[|s| - 1 - n])
    decreases |s|
  {
    if s != [] && IsSpace(s[|s| - 1]) then
      var front := s[..|s| - 1];
      var n := 1 + TrailingSpaces(front);
      assert forall i :: 0 <= i < |s| - 1 ==> s[i] == front[i];
      n
    else 0
  }

  /** `s.trim()`: `s` without its leading and trailing spaces. The result is the trimmed
      infix of `s` that starts where the leading spaces end, and everything around it is
      space; it is `s` itself when `s` is already trimmed. */
  function Trim(s: string): (r: string)
    ensures Trimmed(r)
    ensures var a := LeadingSpaces(s);
      && a + |r| <= |s| && r == s[a..a + |r|]
      && forall i :: 0 <= i < a || a + |r| <= i < |s| ==> IsSpace(s[i])
    ensures Trimmed(s) ==> r == s
    ensures forall c :: c in r ==> c in s
  {
    var a := LeadingSpaces(s);
    if a == |s| then ""
    else
      var b := |s| - TrailingSpaces(s);
      assert a < b;
      var r := s[a..b];
      assert forall c :: c in r ==> c in s by {
        forall c | c in r ensures c in s {
          var k :| 0 <= k < |r| && r[k] == c;
          assert s[a + k] == c;
        }
      }
      assert Trimmed(s) ==> a == 0 && b == |s|;
      r
  }

  /** `trim` gives back exactly the trimmed middle `s[i..j]` of a string when everything
      around that middle is space. */
  lemma TrimBetween(s: string, i: nat, j: nat)
    requires i <= j <= |s| && Trimmed(s[i..j])
    requires forall k :: 0 <= k < i || j <= k < |s| ==> IsSpace(s[k])
    ensures Trim(s) == s[i..j]
  {
    var r := Trim(s);
    var a := LeadingSpaces(s);
    if i == j {
      assert a == |s|;
    } else {
      assert s[i] == s[i..j][0] && s[j - 1] == s[i..j][j - i - 1];
      assert a == i;
      assert r[|r| - 1] == s[a + |r| - 1];
      assert a + |r| == j;
    }
  }

  /** `trim` ignores any leading space. */
  lemma TrimLeadingSpace(c: char, s: string)
    requires IsSpace(c)
    ensures Trim([c] + s) == Trim(s)
  {
    var a, r := LeadingSpaces(s), Trim(s);
    var t := [c] + s;
    var i, j := 1 + a, 1 + a + |r|;
    assert forall k :: 1 <= k < |t| ==> t[k] == s[k - 1];
    assert forall k :: 0 <= k < i || j <= k < |t| ==> IsSpace(t[k]) by {
      forall k | 0 <= k < i || j <= k < |t| ensures IsSpace(t[k]) {
        if k > 0 { assert IsSpace(s[k - 1]); }
      }
    }
    assert t[i..j] == r;
    TrimBetween(t, i, j);
  }

  /** `s.split(sep).map(t => t.trim())`, the tags rule of the update route and of the
      car details form: tag `i` is piece `i` of the split, trimmed. Every resulting tag is
      therefore trimmed and free of the separator. */
  function SplitTrim(s: string, sep: char): (tags: seq<string>)
    ensures |tags| == |Split(s, sep)| >= 1
    ensures forall i :: 0 <= i < |tags| ==> tags[i] == Trim(Split(s, sep)[i])
    ensures forall i :: 0 <= i < |tags| ==> Trimmed(tags[i]) && sep !in tags[i]
  {
    var parts := Split(s, sep);
    seq(|parts|, i requires 0 <= i < |parts| => Trim(parts[i]))
  }
}
