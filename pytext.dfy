/** The few Python `str` operations the command-file code relies on,
    stated over `seq<char>`: `isspace`, `rstrip`, `strip`, `readline`,
    `replace(': ', ':')`, `split()`, `split(':')` and `' '.join`. */
module PyText {

  /** The characters Python's `str.split()` and `str.strip()` treat as
      whitespace (`str.isspace`): the ASCII controls 9-13 and 28-31, the
      space, U+0085, U+00A0, U+1680, U+2000-U+200A, U+2028, U+2029, U+202F,
      U+205F and U+3000. */
  predicate IsSpace(c: char) {
    || c == ' ' || ('\t' <= c <= '\r') || ('\U{1C}' <= c <= '\U{1F}')
    || c == '\U{85}' || c == '\U{A0}' || c == '\U{1680}'
    || ('\U{2000}' <= c <= '\U{200A}') || c == '\U{2028}' || c == '\U{2029}'
    || c == '\U{202F}' || c == '\U{205F}' || c == '\U{3000}'
  }

  /** No whitespace anywhere in `s`. */
  predicate NoSpace(s: string) {
    forall i :: 0 <= i < |s| ==> !IsSpace(s[i])
  }

  /** `s` neither starts nor ends with whitespace. */
  predicate Trimmed(s: string) {
    s == [] || (!IsSpace(s[0]) && !IsSpace(s[|s| - 1]))
  }

  /** `s.rstrip()`: drops the trailing run of whitespace and nothing else. */
  function RStrip(s: string): (r: string)
    ensures r <= s
    ensures r == [] || !IsSpace(r[|r| - 1])
    ensures forall i :: |r| <= i < |s| ==> IsSpace(s[i])
    ensures (s == [] || !IsSpace(s[|s| - 1])) ==> r == s
  {
    if s != [] && IsSpace(s[|s| - 1]) then RStrip(s[..|s| - 1]) else s
  }

  /** `s.lstrip()`: drops the leading run of whitespace and nothing else. */
  function LStrip(s: string): (r: string)
    ensures |r| <= |s| && r == s[|s| - |r|..]
    ensures r == [] || !IsSpace(r[0])
    ensures forall i :: 0 <= i < |s| - |r| ==> IsSpace(s[i])
  {
    if s != [] && IsSpace(s[0]) then LStrip(s[1..]) else s
  }

  /** `s.strip()`: `s` without its leading and its trailing run of
      whitespace, that is `s.lstrip()` without its trailing run. */
  function Strip(s: string): (r: string)
    ensures NoSpace(s) ==> r == s
    ensures Trimmed(r)
  {
    var q := LStrip(s);
    var r := RStrip(q);
    assert NoSpace(s) ==> q == s by {
      if NoSpace(s) && s != [] { assert !IsSpace(s[0]); }
    }
    assert r != [] ==> r[0] == q[0];
    r
  }

  /** `s.strip()` keeps all of `s.lstrip()` up to a trailing run of
      whitespace. */
  lemma StripOfLStrip(s: string)
    ensures Strip(s) <= LStrip(s)
    ensures forall i :: |Strip(s)| <= i < |LStrip(s)| ==> IsSpace(LStrip(s)[i])
  {
  }

  /** Stripping keeps out a character the string does not hold. */
  lemma StripKeeps(s: string, c: char)
    requires c !in s
    ensures c !in Strip(s)
  {
    var q := LStrip(s);
    assert c !in q by {
      forall k | 0 <= k < |q| ensures q[k] != c { assert q[k] == s[|s| - |q| + k]; }
    }
    var r := RStrip(q);
    forall k | 0 <= k < |r| ensures r[k] != c { assert r[k] == q[k]; }
  }

  /** A line boundary of text-mode reading: Python's universal newlines
      end a line at `"\n"`, `"\r"` or `"\r\n"`. */
  predicate IsLineBreak(c: char) {
    c == '\n' || c == '\r'
  }

  /** No line boundary in `s`. */
  predicate NoLineBreak(s: string) {
    forall i :: 0 <= i < |s| ==> !IsLineBreak(s[i])
  }

  /** `file.readline()` on a file opened in text mode whose text is `s`:
      everything before the first line boundary followed by `"\n"` (a
      `"\r"` or `"\r\n"` reads as `"\n"`), or all of `s` when it has no
      boundary. */
  function ReadLine(s: string): (r: string)
    ensures NoLineBreak(s) ==> r == s
    ensures !NoLineBreak(s) ==>
      && r != [] && r[|r| - 1] == '\n'
      && r[..|r| - 1] <= s && NoLineBreak(r[..|r| - 1]) && IsLineBreak(s[|r| - 1])
  {
    if s == [] then []
    else if IsLineBreak(s[0]) then "\n"
    else
      var rest := ReadLine(s[1..]);
      assert !NoLineBreak(s) ==> !NoLineBreak(s[1..]) by {
        if !NoLineBreak(s) {
          var i :| 0 <= i < |s| && IsLineBreak(s[i]);
          assert s[1..][i - 1] == s[i];
        }
      }
      [s[0]] + rest
  }

  /** `s` holds a colon immediately followed by a space. */
  predicate HasColonSpace(s: string) {
    exists i :: 0 <= i < |s| - 1 && s[i] == ':' && s[i + 1] == ' '
  }

  /** `s.replace(': ', ':')`: scans left to right and rewrites each
      non-overlapping `": "` as `":"`. */
  function ReplaceColonSpace(s: string): (r: string)
    ensures |r| <= |s|
    ensures !HasColonSpace(s) ==> r == s
    ensures |r| < |s| ==> HasColonSpace(s)
  {
    if |s| < 2 then s
    else if s[0] == ':' && s[1] == ' ' then
      assert HasColonSpace(s) by { assert s[0] == ':' && s[1] == ' '; }
      ":" + ReplaceColonSpace(s[2..])
    else
      var r := [s[0]] + ReplaceColonSpace(s[1..]);
      assert !HasColonSpace(s) ==> !HasColonSpace(s[1..]) by {
        if HasColonSpace(s[1..]) {
          var i :| 0 <= i < |s[1..]| - 1 && s[1..][i] == ':' && s[1..][i + 1] == ' ';
          assert s[i + 1] == ':' && s[i + 2] == ' ';
        }
      }
      assert |r| < |s| ==> HasColonSpace(s) by {
        if |r| < |s| {
          var i :| 0 <= i < |s[1..]| - 1 && s[1..][i] == ':' && s[1..][i + 1] == ' ';
          assert s[i + 1] == ':' && s[i + 2] == ' ';
        }
      }
      r
  }

  /** `sep.join(xs)`. */
  function Join(sep: string, xs: seq<string>): (r: string)
  {
    if xs == [] then ""
    else if |xs| == 1 then xs[0]
    else xs[0] + sep + Join(sep, xs[1..])
  }

  /** The end of the non-whitespace run of `s` that starts at `i`. */
  function WordEnd(s: string, i: nat): (j: nat)
    requires i <= |s|
    ensures i <= j <= |s|
    ensures NoSpace(s[i..j])
    ensures j == |s| || IsSpace(s[j])
    decreases |s| - i
  {
    if i == |s| || IsSpace(s[i]) then i else WordEnd(s, i + 1)
  }

  /** `s.split()`: the maximal runs of non-whitespace characters, in order. */
  function SplitWs(s: string): (r: seq<string>)
    ensures forall k :: 0 <= k < |r| ==> r[k] != [] && NoSpace(r[k])
    decreases |s|
  {
    if s == [] then []
    else if IsSpace(s[0]) then SplitWs(s[1..])
    else
      var n := WordEnd(s, 0);
      [s[..n]] + SplitWs(s[n..])
  }

  /** `s.split(c)`: the pieces between the occurrences of `c`; there is
      always one more piece than there are occurrences (SplitOnCount) and
      no piece holds `c` (JoinSplitOn: joining the pieces with `c` gives
      `s` back). */
  function SplitOn(s: string, c: char): (r: seq<string>)
    ensures r != []
    ensures forall k :: 0 <= k < |r| ==> c !in r[k]
  {
    if s == [] then [""]
    else
      var rest := SplitOn(s[1..], c);
      if s[0] == c then [""] + rest
      else [[s[0]] + rest[0]] + rest[1..]
  }

  /** There is one more piece than there are occurrences of `c`. */
  lemma {:induction false} SplitOnCount(s: string, c: char)
    ensures |SplitOn(s, c)| == multiset(s)[c] + 1
  {
    if s != [] {
      SplitOnCount(s[1..], c);
      assert s == [s[0]] + s[1..];
      assert multiset(s) == multiset{s[0]} + multiset(s[1..]);
    }
  }

  /** `c.join(s.split(c)) == s`. */
  lemma {:induction false} JoinSplitOn(s: string, c: char)
    ensures Join([c], SplitOn(s, c)) == s
  {
    if s != [] {
      JoinSplitOn(s[1..], c);
      var rest := SplitOn(s[1..], c);
      assert s == [s[0]] + s[1..];
      if s[0] == c {
        assert SplitOn(s, c) == [""] + rest;
        JoinEmptyFirst([c], rest);
      } else {
        assert SplitOn(s, c) == [[s[0]] + rest[0]] + rest[1..];
        JoinExtendFirst([c], [s[0]], rest);
      }
    }
  }

  /** An empty first piece contributes only its separator. */
  lemma JoinEmptyFirst(sep: string, xs: seq<string>)
    requires xs != []
    ensures Join(sep, [""] + xs) == sep + Join(sep, xs)
  {
    assert ([""] + xs)[1..] == xs;
  }

  /** Prefixing the first piece prefixes the join. */
  lemma JoinExtendFirst(sep: string, a: string, xs: seq<string>)
    requires xs != []
    ensures Join(sep, [a + xs[0]] + xs[1..]) == a + Join(sep, xs)
  {
    if |xs| > 1 {
      assert ([a + xs[0]] + xs[1..])[1..] == xs[1..];
      assert (a + xs[0]) + sep + Join(sep, xs[1..]) == a + (xs[0] + sep + Join(sep, xs[1..]));
    }
  }

  /** Splitting the `' '`-join of whitespace-free, non-empty words on
      whitespace gives the words back. */
  lemma {:induction false} SplitWsJoin(ts: seq<string>)
    requires forall k :: 0 <= k < |ts| ==> ts[k] != [] && NoSpace(ts[k])
    ensures SplitWs(Join(" ", ts)) == ts
    decreases |ts|
  {
    if ts == [] {
    } else if |ts| == 1 {
      WordEndOfWord(ts[0], "");
      assert ts[0][..|ts[0]|] == ts[0];
      assert ts[0][|ts[0]|..] == [];
    } else {
      var t, rest := ts[0], Join(" ", ts[1..]);
      var s := t + " " + rest;
      assert Join(" ", ts) == s;
      WordEndOfWord(t, " " + rest);
      assert s == t + (" " + rest);
      assert s[..|t|] == t;
      assert s[|t|..] == " " + rest;
      assert (" " + rest)[1..] == rest;
      SplitWsJoin(ts[1..]);
    }
  }

  /** A whitespace-free word followed by whitespace or nothing ends where the word does. */
  lemma WordEndOfWord(t: string, u: string)
    requires t != [] && NoSpace(t)
    requires u == [] || IsSpace(u[0])
    ensures WordEnd(t + u, 0) == |t|
  {
    var s := t + u;
    var i := 0;
    while i < |t|
      invariant 0 <= i <= |t|
      invariant WordEnd(s, i) == WordEnd(s, 0)
    {
      assert s[i] == t[i];
      i := i + 1;
    }
  }

  /** A `' '`-join of whitespace-free words contains `": "` only where one
      of the words ends in a colon. */
  lemma {:induction false} JoinHasNoColonSpace(ts: seq<string>)
    requires forall k :: 0 <= k < |ts| ==> NoSpace(ts[k]) && (ts[k] == [] || ts[k][|ts[k]| - 1] != ':')
    ensures !HasColonSpace(Join(" ", ts))
    decreases |ts|
  {
    if |ts| > 1 {
      JoinHasNoColonSpace(ts[1..]);
      var t, rest := ts[0], Join(" ", ts[1..]);
      var s := t + " " + rest;
      assert Join(" ", ts) == s;
      forall i | 0 <= i < |s| - 1 ensures !(s[i] == ':' && s[i + 1] == ' ') {
        if i + 1 < |t| {
          assert s[i + 1] == t[i + 1] && !IsSpace(t[i + 1]);
        } else if i + 1 == |t| {
          assert s[i] == t[|t| - 1];
        } else if i == |t| {
          assert s[i] == ' ';
        } else {
          assert s[i] == rest[i - |t| - 1] && s[i + 1] == rest[i - |t|];
        }
      }
    }
  }

  /** The `' '`-join of words none of which holds whitespace ends in a
      non-whitespace character or is empty. */
  lemma {:induction false} JoinEndsWithWord(ts: seq<string>)
    requires forall k :: 0 <= k < |ts| ==> ts[k] != [] && NoSpace(ts[k])
    ensures var s := Join(" ", ts); NoLineBreak(s) && (s == [] || !IsSpace(s[|s| - 1]))
    decreases |ts|
  {
    if |ts| > 1 {
      JoinEndsWithWord(ts[1..]);
      var t, rest := ts[0], Join(" ", ts[1..]);
      assert Join(" ", ts) == t + " " + rest;
      var s := t + " " + rest;
      forall i | 0 <= i < |s| ensures !IsLineBreak(s[i]) {
        if i < |t| { assert s[i] == t[i]; } else if i > |t| { assert s[i] == rest[i - |t| - 1]; }
      }
    }
  }

  /** `replace(': ', ':')` passes over a whitespace-free prefix that does
      not end in a colon. */
  lemma {:induction false} ReplaceColonSpacePrefix(x: string, y: string)
    requires NoSpace(x) && (x == [] || x[|x| - 1] != ':')
    ensures ReplaceColonSpace(x + y) == x + ReplaceColonSpace(y)
    decreases |x|
  {
    if x != [] {
      if |x + y| >= 2 {
        NoColonSpaceAtStart(x, y);
        ReplaceColonSpaceStep(x + y);
        ConcatTail(x, y);
        ReplaceColonSpacePrefix(x[1..], y);
        ConsConcat(x, ReplaceColonSpace(y));
      } else {
        assert y == [] && x + y == x && x + ReplaceColonSpace(y) == x;
      }
    } else {
      assert x + y == y && x + ReplaceColonSpace(y) == ReplaceColonSpace(y);
    }
  }

  /** `replace(': ', ':')` drops the space after a leading colon. */
  lemma ReplaceColonSpaceColon(y: string)
    ensures ReplaceColonSpace(": " + y) == ":" + ReplaceColonSpace(y)
  {
    assert (": " + y)[2..] == y;
  }

  /** `replace(': ', ':')` keeps a leading space. */
  lemma ReplaceColonSpaceBlank(y: string)
    ensures ReplaceColonSpace(" " + y) == " " + ReplaceColonSpace(y)
  {
    if y == [] {
      assert " " + y == " ";
    } else {
      ReplaceColonSpaceStep(" " + y);
      assert (" " + y)[1..] == y;
    }
  }

  /** `split()` of a whitespace-free word followed by whitespace or nothing
      starts with that word. */
  lemma SplitWsFirstWord(t: string, v: string)
    requires t != [] && NoSpace(t)
    requires v == [] || IsSpace(v[0])
    ensures SplitWs(t + v) != [] && SplitWs(t + v)[0] == t
  {
    WordEndOfWord(t, v);
    assert (t + v)[0] == t[0];
    assert (t + v)[..|t|] == t;
  }

  lemma NoColonSpaceAtStart(x: string, y: string)
    requires NoSpace(x) && x != [] && x[|x| - 1] != ':' && |x + y| >= 2
    ensures (x + y)[0] == x[0] && !((x + y)[0] == ':' && (x + y)[1] == ' ')
  {
    if |x| > 1 {
      assert (x + y)[1] == x[1] && !IsSpace(x[1]);
    }
  }

  lemma ConcatTail(x: string, y: string)
    requires x != []
    ensures (x + y)[1..] == x[1..] + y && (x + y)[0] == x[0]
  {
  }

  lemma ConsConcat(x: string, r: string)
    requires x != []
    ensures [x[0]] + (x[1..] + r) == x + r
  {
    assert x == [x[0]] + x[1..];
  }

  lemma ReplaceColonSpaceStep(s: string)
    requires |s| >= 2 && !(s[0] == ':' && s[1] == ' ')
    ensures ReplaceColonSpace(s) == [s[0]] + ReplaceColonSpace(s[1..])
  {
  }
}
