/** The three string builtins the title prompt relies on: `str.strip()`,
    `"\n".join(...)` and, as the partner of the join, `str.split("\n")`. */
module Text {

  /** Python's `str.isspace()` for a single character: the Unicode White_Space
      characters plus the four ASCII information separators. */
  predicate IsSpace(c: char) {
    || ('\t' <= c <= '\r')
    || ('\U{1C}' <= c <= '\U{1F}')
    || c == ' '
    || c == '\U{85}'
    || c == '\U{A0}'
    || c == '\U{1680}'
    || ('\U{2000}' <= c <= '\U{200A}')
    || c == '\U{2028}'
    || c == '\U{2029}'
    || c == '\U{202F}'
    || c == '\U{205F}'
    || c == '\U{3000}'
  }

  predicate AllSpace(s: string) {
    forall i :: 0 <= i < |s| ==> IsSpace(s[i])
  }

  /** No whitespace at either end (the empty string qualifies). */
  predicate Trimmed(s: string) {
    |s| > 0 ==> !IsSpace(s[0]) && !IsSpace(s[|s| - 1])
  }

  /** `str.lstrip()`: drops the leading whitespace and nothing else. */
  function StripLeft(s: string): (r: string)
    ensures |r| <= |s| && r == s[|s| - |r|..]
    ensures AllSpace(s[..|s| - |r|])
    ensures |r| > 0 ==> !IsSpace(r[0])
  {
    if |s| > 0 && IsSpace(s[0]) then StripLeft(s[1..]) else s
  }

  /** `str.rstrip()`: drops the trailing whitespace and nothing else. */
  function StripRight(s: string): (r: string)
    ensures |r| <= |s| && r == s[..|r|]
    ensures AllSpace(s[|r|..])
    ensures |r| > 0 ==> !IsSpace(r[|r| - 1])
  {
    if |s| > 0 && IsSpace(s[|s| - 1]) then StripRight(s[..|s| - 1]) else s
  }

  /** `str.strip()`: the slice `s[i..j]` left after removing the whitespace
      on both ends. */
  function Strip(s: string): (r: string)
    ensures Trimmed(r)
    ensures r == [] <==> AllSpace(s)
  {
    var l := StripLeft(s);
    assert AllSpace(s) ==> l == [];
    assert !AllSpace(s) ==> l != [] by {
      if l == [] {
        assert s[..|s|] == s;
      }
    }
    StripRight(l)
  }

  /** `lstrip` stops at the first character that is not whitespace. */
  lemma {:induction false} StripLeftStopsAt(s: string, i: nat)
    requires i <= |s|
    requires AllSpace(s[..i])
    requires i < |s| ==> !IsSpace(s[i])
    ensures StripLeft(s) == s[i..]
  {
    if i > 0 {
      assert s[..i][0] == s[0];
      assert s[1..][..i - 1] == s[1..i];
      assert AllSpace(s[1..][..i - 1]) by {
        forall p | 0 <= p < i - 1 ensures IsSpace(s[1..i][p]) {
          assert s[1..i][p] == s[..i][p + 1];
        }
      }
      StripLeftStopsAt(s[1..], i - 1);
      assert s[1..][i - 1..] == s[i..];
    }
  }

  /** `rstrip` stops after the last character that is not whitespace. */
  lemma {:induction false} StripRightStopsAt(s: string, j: nat)
    requires j <= |s|
    requires AllSpace(s[j..])
    requires j > 0 ==> !IsSpace(s[j - 1])
    ensures StripRight(s) == s[..j]
  {
    if j < |s| {
      var t := s[..|s| - 1];
      assert s[j..][|s| - 1 - j] == s[|s| - 1];
      assert AllSpace(t[j..]) by {
        forall p | 0 <= p < |t| - j ensures IsSpace(t[j..][p]) {
          assert t[j..][p] == s[j..][p];
        }
      }
      assert j > 0 ==> t[j - 1] == s[j - 1];
      StripRightStopsAt(t, j);
      assert t[..j] == s[..j];
    }
  }

  /** Whitespace on both sides of a cut is whitespace throughout. */
  lemma AllSpaceAround(s: string, i: nat)
    requires i <= |s|
    requires AllSpace(s[..i]) && AllSpace(s[i..])
    ensures AllSpace(s)
  {
    forall p | 0 <= p < |s| ensures IsSpace(s[p]) {
      if p < i { assert s[..i][p] == s[p]; } else { assert s[i..][p - i] == s[p]; }
    }
  }

  /** Strip is characterised by its result alone: whatever slice of `s` has
      only whitespace around it and none at its own ends is `Strip(s)`. */
  lemma StripUnique(s: string, i: nat, j: nat)
    requires i <= j <= |s|
    requires AllSpace(s[..i]) && AllSpace(s[j..])
    requires Trimmed(s[i..j])
    ensures Strip(s) == s[i..j]
  {
    if i == j {
      AllSpaceAround(s, i);
    } else {
      assert StripLeft(s) == s[i..] by {
        assert s[i] == s[i..j][0];
        StripLeftStopsAt(s, i);
      }
      var l := s[i..];
      assert StripRight(l) == s[i..j] by {
        assert l[j - i..] == s[j..];
        assert l[j - i - 1] == s[i..j][j - i - 1];
        StripRightStopsAt(l, j - i);
        assert l[..j - i] == s[i..j];
      }
    }
  }

  /** Stripping twice is stripping once. */
  lemma StripIdempotent(s: string)
    ensures Strip(Strip(s)) == Strip(s)
  {
    var r := Strip(s);
    assert r[..0] == [] && r[|r|..] == [] && r[0..|r|] == r;
    StripUnique(r, 0, |r|);
  }

  /** The summed length of some lines. */
  function TotalLength(lines: seq<string>): (n: nat) {
    if lines == [] then 0 else |lines[0]| + TotalLength(lines[1..])
  }

  /** `"\n".join(lines)`: every line, and one separator between each two
      neighbours. */
  function Join(lines: seq<string>): (s: string)
    ensures |lines| >= 1 ==> |s| == TotalLength(lines) + |lines| - 1
  {
    if |lines| == 0 then ""
    else if |lines| == 1 then lines[0]
    else lines[0] + "\n" + Join(lines[1..])
  }

  /** Joining two non-empty groups of lines is joining each group and putting
      one separator between them. */
  lemma {:induction false} JoinAppend(a: seq<string>, b: seq<string>)
    requires |a| >= 1 && |b| >= 1
    ensures Join(a + b) == Join(a) + "\n" + Join(b)
  {
    if |a| == 1 {
      assert (a + b)[1..] == b;
    } else {
      assert (a + b)[1..] == a[1..] + b;
      JoinAppend(a[1..], b);
    }
  }

  /** `s.split("\n")`: always at least one piece, none holding a newline,
      and joining the pieces gives `s` back. */
  function Split(s: string): (pieces: seq<string>)
    ensures |pieces| >= 1
    ensures forall k :: 0 <= k < |pieces| ==> '\n' !in pieces[k]
    ensures Join(pieces) == s
  {
    if |s| == 0 then [""]
    else if s[0] == '\n' then
      var rest := Split(s[1..]);
      assert Join([""] + rest) == "" + "\n" + Join(rest) by {
        assert ([""] + rest)[1..] == rest;
      }
      assert s == "" + "\n" + s[1..];
      [""] + rest
    else
      var rest := Split(s[1..]);
      var pieces := [[s[0]] + rest[0]] + rest[1..];
      assert '\n' !in [s[0]] + rest[0] by {
        assert '\n' !in rest[0];
      }
      assert Join(pieces) == s by {
        if |rest| == 1 {
          assert s == [s[0]] + s[1..];
        } else {
          assert pieces[1..] == rest[1..];
          assert Join(rest) == rest[0] + "\n" + Join(rest[1..]);
          assert s == [s[0]] + s[1..];
        }
      }
      pieces
  }

  lemma {:induction false} SplitNoNewline(a: string)
    requires '\n' !in a
    ensures Split(a) == [a]
  {
    if |a| > 0 {
      assert '\n' !in a[1..];
      SplitNoNewline(a[1..]);
      assert [a[0]] + a[1..] == a;
    }
  }

  lemma {:induction false} SplitAfterLine(a: string, b: string)
    requires '\n' !in a
    ensures Split(a + "\n" + b) == [a] + Split(b)
  {
    var s := a + "\n" + b;
    if |a| == 0 {
      assert s[1..] == b;
    } else {
      assert s[1..] == a[1..] + "\n" + b;
      assert '\n' !in a[1..];
      SplitAfterLine(a[1..], b);
      assert [a[0]] + a[1..] == a;
    }
  }

  /** The other direction of the round trip: lines without newlines come back
      unchanged from splitting their join. The empty list is the exception,
      since `"".split("\n")` is `[""]`. */
  lemma {:induction false} SplitJoin(lines: seq<string>)
    requires |lines| >= 1
    requires forall k :: 0 <= k < |lines| ==> '\n' !in lines[k]
    ensures Split(Join(lines)) == lines
  {
    if |lines| == 1 {
      SplitNoNewline(lines[0]);
    } else {
      SplitJoin(lines[1..]);
      SplitAfterLine(lines[0], Join(lines[1..]));
      assert [lines[0]] + lines[1..] == lines;
    }
  }
}
