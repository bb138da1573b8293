// Models of the Python `str` built-ins that the command-line module relies on:
// `s.split()` with no separator, `s.splitlines()`, and the substring test `pat in s`.
// Each is defined by recursion on the string; the lemmas give the facts the
// screen parser and the command builder need about them.
module Strings {

  /** Python's `str.isspace()` for one character: the separators `s.split()` skips. */
  predicate IsSpace(c: char)
  {
    ('\t' <= c <= '\r') || ('\U{001C}' <= c <= ' ') || c == '\U{0085}' || c == '\U{00A0}'
    || c == '\U{1680}' || ('\U{2000}' <= c <= '\U{200A}') || c == '\U{2028}' || c == '\U{2029}'
    || c == '\U{202F}' || c == '\U{205F}' || c == '\U{3000}'
  }

  /** The characters at which `s.splitlines()` ends a line. */
  predicate IsLineBreak(c: char)
  {
    ('\n' <= c <= '\r') || ('\U{001C}' <= c <= '\U{001E}')
    || c == '\U{0085}' || c == '\U{2028}' || c == '\U{2029}'
  }

  /** A non-empty string without whitespace: what one element of `s.split()` looks like. */
  predicate IsToken(w: string)
  {
    |w| > 0 && forall i :: 0 <= i < |w| ==> !IsSpace(w[i])
  }

  predicate NoLineBreak(s: string)
  {
    forall i :: 0 <= i < |s| ==> !IsLineBreak(s[i])
  }

  /** `s.lstrip()`: the suffix of `s` that starts at its first non-whitespace character. */
  function DropSpace(s: string): (t: string)
    ensures |t| <= |s| && t == s[|s| - |t|..]
    ensures forall i :: 0 <= i < |s| - |t| ==> IsSpace(s[i])
    ensures t == [] || !IsSpace(t[0])
  {
    if s != [] && IsSpace(s[0]) then DropSpace(s[1..]) else s
  }

  /** Length of the run of non-whitespace characters at the start of `s`. */
  function WordEnd(s: string): (k: nat)
    ensures k <= |s|
    ensures forall i :: 0 <= i < k ==> !IsSpace(s[i])
    ensures k < |s| ==> IsSpace(s[k])
  {
    if s == [] || IsSpace(s[0]) then 0 else 1 + WordEnd(s[1..])
  }

  /** `s.split()`: the maximal runs of non-whitespace characters of `s`, in order. */
  function Words(s: string): (ws: seq<string>)
    ensures forall w :: w in ws ==> IsToken(w)
    decreases |s|
  {
    var t := DropSpace(s);
    if t == [] then []
    else
      var k := WordEnd(t);
      [t[..k]] + Words(t[k..])
  }

  /** `sep.join(ws)`. */
  function Join(ws: seq<string>, sep: string): string
  {
    if |ws| == 0 then ""
    else if |ws| == 1 then ws[0]
    else ws[0] + sep + Join(ws[1..], sep)
  }

  /** Length of the line at the start of `s`, up to (not including) the first line break. */
  function LineEnd(s: string): (k: nat)
    ensures k <= |s|
    ensures forall i :: 0 <= i < k ==> !IsLineBreak(s[i])
    ensures k < |s| ==> IsLineBreak(s[k])
  {
    if s == [] || IsLineBreak(s[0]) then 0 else 1 + LineEnd(s[1..])
  }

  /**
   * `s.splitlines()`: the lines of `s` without their line breaks. The pair "\r\n"
   * ends one line, and a break at the very end does not open an empty last line.
   */
  function SplitLines(s: string): (lines: seq<string>)
    ensures |lines| <= |s|
    ensures forall l :: l in lines ==> NoLineBreak(l)
    decreases |s|
  {
    if s == [] then []
    else
      var k := LineEnd(s);
      if k == |s| then [s]
      else
        var next := if s[k] == '\r' && k + 1 < |s| && s[k + 1] == '\n' then k + 2 else k + 1;
        [s[..k]] + SplitLines(s[next..])
  }

  /** Text made of the given lines, each ended by "\n", as a line-oriented tool prints it. */
  function Terminated(lines: seq<string>): string
  {
    if lines == [] then "" else lines[0] + "\n" + Terminated(lines[1..])
  }

  /** Python's `pat in s` on strings: `pat` occurs in `s` at some position. */
  predicate Contains(s: string, pat: string)
    decreases |s|
  {
    pat <= s || (s != [] && Contains(s[1..], pat))
  }

  // ---------------------------------------------------------------------------
  // Lemmas about split()

  lemma {:induction false} WordEndOfConcat(a: string, b: string)
    requires forall i :: 0 <= i < |a| ==> !IsSpace(a[i])
    requires b == [] || IsSpace(b[0])
    ensures WordEnd(a + b) == |a|
  {
    if a == [] {
      assert a + b == b;
    } else {
      assert (a + b)[1..] == a[1..] + b;
      WordEndOfConcat(a[1..], b);
    }
  }

  /** Leading whitespace is skipped. */
  lemma WordsOfSpaceThen(c: char, s: string)
    requires IsSpace(c)
    ensures Words([c] + s) == Words(s)
  {
    assert ([c] + s)[1..] == s;
  }

  /** A token followed by whitespace (or nothing) is the first word. */
  lemma WordsOfTokenThen(w: string, rest: string)
    requires IsToken(w)
    requires rest == [] || IsSpace(rest[0])
    ensures Words(w + rest) == [w] + Words(rest)
  {
    var s := w + rest;
    assert DropSpace(s) == s;
    WordEndOfConcat(w, rest);
    assert s[..|w|] == w;
    assert s[|w|..] == rest;
  }

  /** A token, a space, then more text: the token is the first word of the rest's words. */
  lemma WordsOfTokenSpaceThen(w: string, rest: string)
    requires IsToken(w)
    ensures Words(w + " " + rest) == [w] + Words(rest)
  {
    assert w + " " + rest == w + (" " + rest);
    WordsOfTokenThen(w, " " + rest);
    WordsOfSpaceThen(' ', rest);
  }

  /** Splitting tokens joined by single spaces gives the tokens back. */
  lemma {:induction false} WordsOfJoin(ws: seq<string>)
    requires forall w :: w in ws ==> IsToken(w)
    ensures Words(Join(ws, " ")) == ws
  {
    if |ws| == 1 {
      assert Words(ws[0]) == [ws[0]] by {
        WordsOfTokenThen(ws[0], "");
        assert ws[0] + "" == ws[0];
      }
    } else if |ws| > 1 {
      var head, tail := ws[0], ws[1..];
      assert Words(Join(tail, " ")) == tail by {
        assert forall w :: w in tail ==> w in ws;
        WordsOfJoin(tail);
      }
      assert Words(head + " " + Join(tail, " ")) == [head] + tail by {
        WordsOfTokenSpaceThen(head, Join(tail, " "));
      }
      assert Join(ws, " ") == head + " " + Join(tail, " ");
      assert ws == [head] + tail;
    }
  }

  /** `s.split()` is non-empty exactly when `s` has a non-whitespace character. */
  lemma WordsNonEmpty(s: string, i: nat)
    requires i < |s| && !IsSpace(s[i])
    ensures Words(s) != []
  {
  }

  lemma {:induction false} JoinAppend(a: seq<string>, b: seq<string>, sep: string)
    requires a != [] && b != []
    ensures Join(a + b, sep) == Join(a, sep) + sep + Join(b, sep)
  {
    if |a| == 1 {
      assert (a + b)[1..] == b;
    } else {
      assert (a + b)[1..] == a[1..] + b;
      JoinAppend(a[1..], b, sep);
    }
  }

  // ---------------------------------------------------------------------------
  // Lemmas about splitlines()

  lemma {:induction false} LineEndOfConcat(a: string, b: string)
    requires NoLineBreak(a)
    requires b == [] || IsLineBreak(b[0])
    ensures LineEnd(a + b) == |a|
  {
    if a == [] {
      assert a + b == b;
    } else {
      assert (a + b)[1..] == a[1..] + b;
      LineEndOfConcat(a[1..], b);
    }
  }

  /** Lines written one per "\n" are read back by `splitlines()` unchanged. */
  lemma {:induction false} SplitLinesOfTerminated(lines: seq<string>)
    requires forall l :: l in lines ==> NoLineBreak(l)
    ensures SplitLines(Terminated(lines)) == lines
  {
    if lines != [] {
      var l, rest := lines[0], Terminated(lines[1..]);
      var s := l + ("\n" + rest);
      assert Terminated(lines) == s;
      LineEndOfConcat(l, "\n" + rest);
      assert s[..|l|] == l;
      assert s[|l| + 1..] == rest;
      SplitLinesOfTerminated(lines[1..]);
    }
  }

  // ---------------------------------------------------------------------------
  // Lemmas about `in`

  /** A string contains every string placed inside it. */
  lemma {:induction false} ContainsInfix(a: string, pat: string, b: string)
    ensures Contains(a + pat + b, pat)
  {
    if a == [] {
      assert a + pat + b == pat + b;
      assert pat <= pat + b;
    } else {
      assert (a + pat + b)[1..] == a[1..] + pat + b;
      ContainsInfix(a[1..], pat, b);
    }
  }

  /**
   * When the first character of `pat` does not occur in `a`, an occurrence of
   * `pat` in `a + b` lies entirely within `b`.
   */
  lemma {:induction false} ContainsSkip(a: string, b: string, pat: string)
    requires pat != []
    requires forall i :: 0 <= i < |a| ==> a[i] != pat[0]
    requires Contains(a + b, pat)
    ensures Contains(b, pat)
  {
    if a != [] {
      assert !(pat <= a + b) by { assert (a + b)[0] == a[0]; }
      assert (a + b)[1..] == a[1..] + b;
      ContainsSkip(a[1..], b, pat);
    } else {
      assert a + b == b;
    }
  }

  /** Every character of `pat` occurs in a string that contains `pat`. */
  lemma {:induction false} ContainsChar(s: string, pat: string, j: nat)
    requires Contains(s, pat) && j < |pat|
    ensures exists i :: 0 <= i < |s| && s[i] == pat[j]
  {
    if pat <= s {
      assert s[j] == pat[j];
    } else {
      ContainsChar(s[1..], pat, j);
      var i :| 0 <= i < |s[1..]| && s[1..][i] == pat[j];
      assert s[i + 1] == pat[j];
    }
  }

  lemma LineBreakIsSpace(c: char)
    requires IsLineBreak(c)
    ensures IsSpace(c)
  {
  }

  /** A token holds no line break, since every line break is whitespace. */
  lemma TokenHasNoLineBreak(w: string)
    requires IsToken(w)
    ensures NoLineBreak(w)
  {
    forall i | 0 <= i < |w| ensures !IsLineBreak(w[i]) {
      if IsLineBreak(w[i]) { LineBreakIsSpace(w[i]); }
    }
  }

  lemma NoLineBreakAppend(a: string, b: string)
    requires NoLineBreak(a) && NoLineBreak(b)
    ensures NoLineBreak(a + b)
  {
    forall i | 0 <= i < |a + b| ensures !IsLineBreak((a + b)[i]) {
      if i >= |a| { assert (a + b)[i] == b[i - |a|]; }
    }
  }
}
