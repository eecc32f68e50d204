/**
 * The Python `str` builtins that parser.py relies on, over `string`:
 * `strip`, `lstrip`, `rstrip`, `split()` (no separator), `split(None, 1)`
 * and `split(sep, 1)`.  Whitespace is Python's `str.isspace()` on the
 * ASCII range.
 */
module PyText {

  /** `c.isspace()` for ASCII: \t \n \v \f \r, the separators \x1c-\x1f and space. */
  predicate IsSpace(c: char) {
    ('\t' <= c <= '\r') || ('\U{001C}' <= c <= '\U{001F}') || c == ' '
  }

  predicate NoSpace(s: string) {
    forall i :: 0 <= i < |s| ==> !IsSpace(s[i])
  }

  /** The characters of `s` that are not whitespace, in order. */
  function NonSpace(s: string): string {
    if s == [] then []
    else (if IsSpace(s[0]) then [] else [s[0]]) + NonSpace(s[1..])
  }

  function Concat(parts: seq<string>): string {
    if parts == [] then [] else parts[0] + Concat(parts[1..])
  }

  /** `s.lstrip()`: the longest suffix of `s` that does not start with whitespace. */
  function LStrip(s: string): (r: string)
    ensures |r| <= |s|
    ensures r == [] || !IsSpace(r[0])
    ensures forall i :: 0 <= i < |s| - |r| ==> IsSpace(s[i])
  {
    if |s| > 0 && IsSpace(s[0]) then LStrip(s[1..]) else s
  }

  /** What `lstrip` removes is a prefix: the result is the rest of `s`. */
  lemma {:induction false} LStripSuffix(s: string)
    ensures LStrip(s) == s[|s| - |LStrip(s)|..]
  {
    if |s| > 0 && IsSpace(s[0]) {
      LStripSuffix(s[1..]);
      assert s[1..][|s| - 1 - |LStrip(s[1..])|..] == s[|s| - |LStrip(s)|..];
    }
  }

  /** `s.rstrip()`: the longest prefix of `s` that does not end with whitespace. */
  function RStrip(s: string): (r: string)
    ensures |r| <= |s| && r == s[..|r|]
    ensures r == [] || !IsSpace(r[|r| - 1])
    ensures forall i :: |r| <= i < |s| ==> IsSpace(s[i])
  {
    if |s| > 0 && IsSpace(s[|s| - 1]) then RStrip(s[..|s| - 1]) else s
  }

  /** `s.strip()`: `s` without its leading and trailing whitespace. */
  function Strip(s: string): (r: string)
    ensures r == [] || (!IsSpace(r[0]) && !IsSpace(r[|r| - 1]))
    ensures NonSpace(r) == NonSpace(s)
  {
    var l := LStrip(s);
    var r := RStrip(l);
    StripKeepsText(s, l, r);
    r
  }

  /**
   * `strip` removes whitespace at the ends only: its result is the slice of
   * `s` that starts where the leading whitespace ends, with nothing but
   * whitespace before and after it.
   */
  lemma StripTrims(s: string)
    ensures var r, start := Strip(s), |s| - |LStrip(s)|;
            && start + |r| <= |s| && r == s[start..start + |r|]
            && (forall j :: 0 <= j < start ==> IsSpace(s[j]))
            && (forall j :: start + |r| <= j < |s| ==> IsSpace(s[j]))
  {
    var l := LStrip(s);
    LStripSuffix(s);
    PrefixOfSuffix(s, |s| - |l|, l, RStrip(l));
  }

  /** A prefix `r` of the suffix `l` of `s` at `start`, with only whitespace after it in `l`. */
  lemma PrefixOfSuffix(s: string, start: nat, l: string, r: string)
    requires start <= |s| && l == s[start..]
    requires |r| <= |l| && r == l[..|r|] && forall i :: |r| <= i < |l| ==> IsSpace(l[i])
    ensures start + |r| <= |s| && r == s[start..start + |r|]
    ensures forall j :: start + |r| <= j < |s| ==> IsSpace(s[j])
  {
    forall j | start + |r| <= j < |s| ensures IsSpace(s[j]) {
      assert s[j] == l[j - start];
    }
  }

  lemma StripKeepsText(s: string, l: string, r: string)
    requires l == LStrip(s) && r == RStrip(l)
    ensures NonSpace(r) == NonSpace(s)
  {
    LStripKeepsText(s);
    RStripKeepsText(l);
  }

  lemma {:induction false} LStripKeepsText(s: string)
    ensures NonSpace(LStrip(s)) == NonSpace(s)
  {
    if |s| > 0 && IsSpace(s[0]) {
      LStripKeepsText(s[1..]);
    }
  }

  lemma {:induction false} RStripKeepsText(s: string)
    ensures NonSpace(RStrip(s)) == NonSpace(s)
  {
    if |s| > 0 && IsSpace(s[|s| - 1]) {
      var init := s[..|s| - 1];
      assert s == init + [s[|s| - 1]];
      NonSpaceAppend(init, [s[|s| - 1]]);
      assert NonSpace([s[|s| - 1]]) == [];
      RStripKeepsText(init);
    }
  }

  /** Length of the leading run of non-whitespace characters of `s`. */
  function TokenEnd(s: string): (k: nat)
    ensures k <= |s| && NoSpace(s[..k]) && (k < |s| ==> IsSpace(s[k]))
  {
    if s == [] || IsSpace(s[0]) then 0 else 1 + TokenEnd(s[1..])
  }

  /**
   * `s.split()`: the maximal runs of non-whitespace characters, in order.
   * Every token is non-empty and free of whitespace.
   */
  function Split(s: string): (r: seq<string>)
    ensures forall i :: 0 <= i < |r| ==> r[i] != [] && NoSpace(r[i])
    decreases |s|
  {
    var t := LStrip(s);
    if t == [] then []
    else
      var k := TokenEnd(t);
      [t[..k]] + Split(t[k..])
  }

  /**
   * `s.split(None, 1)`: the first whitespace-separated token and, when
   * anything but whitespace follows it, the remainder after the run of
   * whitespace that ends the token.
   */
  function SplitFirst(s: string): (r: seq<string>)
    ensures |r| <= 2
    ensures |r| > 0 ==> r[0] != [] && NoSpace(r[0])
    ensures |r| == 2 ==> r[1] != [] && !IsSpace(r[1][0])
  {
    var t := LStrip(s);
    if t == [] then []
    else
      var k := TokenEnd(t);
      assert k > 0;
      var tok := t[..k];
      var rest := LStrip(t[k..]);
      if rest == [] then [tok] else [tok, rest]
  }

  /** The index of the first `sep` in `s` at or after `i`, or `|s|` when there is none. */
  function Find(s: string, sep: char, i: nat): (k: nat)
    requires i <= |s|
    ensures i <= k <= |s|
    decreases |s| - i
  {
    if i == |s| || s[i] == sep then i else Find(s, sep, i + 1)
  }

  /** `Find` stops at the first `sep`: none occurs before it, and it is one unless it is `|s|`. */
  lemma {:induction false} FindFirst(s: string, sep: char, i: nat)
    requires i <= |s|
    ensures forall j :: i <= j < Find(s, sep, i) ==> s[j] != sep
    ensures Find(s, sep, i) < |s| ==> s[Find(s, sep, i)] == sep
    decreases |s| - i
  {
    if i < |s| && s[i] != sep {
      FindFirst(s, sep, i + 1);
    }
  }

  /**
   * `s.split(sep, 1)`: one part when `sep` does not occur, otherwise the text
   * before its first occurrence and the text after it.
   */
  function SplitOnce(s: string, sep: char): (r: seq<string>)
    ensures |r| == 1 || |r| == 2
  {
    var k := Find(s, sep, 0);
    if k == |s| then [s] else [s[..k], s[k + 1..]]
  }

  /** Without `sep` the text stays whole; otherwise the parts are split at the first `sep`. */
  lemma SplitOnceParts(s: string, sep: char)
    ensures var r := SplitOnce(s, sep);
            && (|r| == 1 <==> sep !in s)
            && (|r| == 1 ==> r[0] == s)
            && (|r| == 2 ==> sep !in r[0] && r[0] + [sep] + r[1] == s)
  {
    FindFirst(s, sep, 0);
    var k := Find(s, sep, 0);
    if k < |s| {
      assert s[..k] + [sep] + s[k + 1..] == s;
      assert forall j :: 0 <= j < k ==> s[..k][j] != sep;
    }
  }

  /** The first `sep` of `a + [sep] + b` is the one after `a` when `a` holds none. */
  lemma SplitOnceAt(a: string, sep: char, b: string)
    requires sep !in a
    ensures SplitOnce(a + [sep] + b, sep) == [a, b]
  {
    var s := a + [sep] + b;
    FindFirst(s, sep, 0);
    var k := Find(s, sep, 0);
    assert s[|a|] == sep;
    assert forall j :: 0 <= j < |a| ==> s[j] == a[j];
    assert k == |a|;
    assert s[..k] == a && s[k + 1..] == b;
  }

  lemma {:induction false} NonSpaceAppend(a: string, b: string)
    ensures NonSpace(a + b) == NonSpace(a) + NonSpace(b)
  {
    if a == [] {
      assert a + b == b;
    } else {
      var head := if IsSpace(a[0]) then [] else [a[0]];
      assert (a + b)[0] == a[0];
      assert (a + b)[1..] == a[1..] + b;
      NonSpaceAppend(a[1..], b);
      calc {
        NonSpace(a + b);
        head + NonSpace(a[1..] + b);
        head + (NonSpace(a[1..]) + NonSpace(b));
        (head + NonSpace(a[1..])) + NonSpace(b);
      }
    }
  }

  lemma {:induction false} NonSpaceOfToken(s: string)
    requires NoSpace(s)
    ensures NonSpace(s) == s
  {
    if s != [] {
      NonSpaceOfToken(s[1..]);
    }
  }

  /** Splitting loses exactly the whitespace: the tokens concatenate to the non-whitespace characters. */
  lemma {:induction false} SplitKeepsText(s: string)
    ensures Concat(Split(s)) == NonSpace(s)
    decreases |s|
  {
    var t := LStrip(s);
    LStripKeepsText(s);
    if t != [] {
      var k := TokenEnd(t);
      assert t == t[..k] + t[k..];
      NonSpaceAppend(t[..k], t[k..]);
      NonSpaceOfToken(t[..k]);
      SplitKeepsText(t[k..]);
    } else {
      assert NonSpace(t) == [];
    }
  }

  /**
   * `s.split(None, 1)` agrees with `s.split()`: its first part is the first
   * token, and the tokens of its second part are the remaining tokens.
   */
  lemma SplitFirstAgrees(s: string)
    ensures var f := SplitFirst(s);
            Split(s) == if f == [] then []
                        else [f[0]] + (if |f| == 2 then Split(f[1]) else [])
  {
    var t := LStrip(s);
    if t != [] {
      var k := TokenEnd(t);
      var rest := LStrip(t[k..]);
      assert LStrip(rest) == rest;
      assert Split(t[k..]) == Split(rest);
    }
  }

  /** `' '.join(words)`: the words separated by single spaces. */
  function JoinWords(toks: seq<string>): string {
    if toks == [] then [] else if |toks| == 1 then toks[0] else toks[0] + " " + JoinWords(toks[1..])
  }

  lemma {:induction false} TokenEndOfToken(tok: string)
    requires NoSpace(tok)
    ensures TokenEnd(tok) == |tok|
  {
    if tok != [] {
      TokenEndOfToken(tok[1..]);
    }
  }

  lemma {:induction false} TokenEndBeforeSpace(tok: string, tail: string)
    requires NoSpace(tok) && tail != [] && IsSpace(tail[0])
    ensures TokenEnd(tok + tail) == |tok| && (tok + tail)[..|tok|] == tok
  {
    if tok != [] {
      assert (tok + tail)[1..] == tok[1..] + tail;
      TokenEndBeforeSpace(tok[1..], tail);
    } else {
      assert tok + tail == tail;
    }
  }

  lemma SplitJoinedHead(tok: string, rest: seq<string>)
    requires tok != [] && NoSpace(tok)
    ensures var s := JoinWords([tok] + rest);
            TokenEnd(s) == |tok| && s[..|tok|] == tok && Split(s[|tok|..]) == Split(JoinWords(rest))
  {
    var s := JoinWords([tok] + rest);
    assert ([tok] + rest)[1..] == rest;
    if rest == [] {
      assert s == tok;
      TokenEndOfToken(tok);
      assert s[|tok|..] == [];
    } else {
      var tail := " " + JoinWords(rest);
      assert s == tok + tail;
      TokenEndBeforeSpace(tok, tail);
      assert s[|tok|..] == tail;
      assert LStrip(tail) == LStrip(JoinWords(rest));
    }
  }

  /** `split()` inverts `' '.join` on non-empty words without whitespace. */
  lemma {:induction false} SplitJoinRoundTrip(toks: seq<string>)
    requires forall i :: 0 <= i < |toks| ==> toks[i] != [] && NoSpace(toks[i])
    ensures Split(JoinWords(toks)) == toks
  {
    if toks != [] {
      var tok := toks[0];
      var s := JoinWords(toks);
      assert LStrip(s) == s;
      SplitJoinedHead(tok, toks[1..]);
      SplitJoinRoundTrip(toks[1..]);
    }
  }

  /** A word followed by a space splits into that word and the words of the rest. */
  lemma SplitCons(tok: string, rest: string)
    requires tok != [] && NoSpace(tok)
    ensures Split(tok + " " + rest) == [tok] + Split(rest)
  {
    var s := tok + " " + rest;
    assert s == tok + (" " + rest);
    assert s[0] == tok[0];
    assert LStrip(s) == s;
    TokenEndBeforeSpace(tok, " " + rest);
    assert s[|tok|..] == " " + rest;
    assert (" " + rest)[1..] == rest;
    assert LStrip(" " + rest) == LStrip(rest);
  }

  /** A single word splits into itself. */
  lemma SplitWord(tok: string)
    requires tok != [] && NoSpace(tok)
    ensures Split(tok) == [tok]
  {
    assert LStrip(tok) == tok;
    TokenEndOfToken(tok);
    assert tok[..|tok|] == tok && tok[|tok|..] == [];
  }

  lemma SplitOnceAbsent(line: string)
    requires ';' !in line
    ensures SplitOnce(line, ';') == [line]
  {
    SplitOnceParts(line, ';');
  }

  lemma StripUnpadded(s: string)
    requires s != [] && !IsSpace(s[0]) && !IsSpace(s[|s| - 1])
    ensures Strip(s) == s
  {
  }

  lemma RStripUnpadded(s: string)
    requires s != [] && !IsSpace(s[|s| - 1])
    ensures RStrip(s) == s
  {
  }

  /** `split(None, 1)` of a word, a space and a remainder that starts with no whitespace: the word and the remainder. */
  lemma SplitFirstOfPair(code: string, args: string)
    requires code != [] && NoSpace(code)
    requires args != [] && !IsSpace(args[0])
    ensures SplitFirst(code + " " + args) == [code, args]
  {
    var line := code + " " + args;
    assert line[0] == code[0] && !IsSpace(code[0]);
    assert LStrip(line) == line;
    TokenEndBeforeSpace(code, " " + args);
    assert line[|code|..] == " " + args;
    assert LStrip(args) == args;
    assert (" " + args)[1..] == args;
    assert LStrip(" " + args) == args;
    var t := LStrip(line);
    var k := TokenEnd(t);
    assert k == |code|;
    assert t[..k] == code;
    assert LStrip(t[k..]) == args;
  }
}
