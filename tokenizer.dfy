/**
 * parse_command: a line is split into argv-style tokens on runs of spaces and
 * tabs, with no quoting or escaping, keeping at most MAX_ARGS - 1 tokens so
 * that the argument array always has room for its NULL terminator.
 */
module Tokenizer {
  const MAX_ARGS: nat := 64

  predicate IsBlank(c: char) {
    c == ' ' || c == '\t'
  }

  predicate NoBlank(s: string) {
    forall k :: 0 <= k < |s| ==> !IsBlank(s[k])
  }

  predicate AllBlank(s: string) {
    forall k :: 0 <= k < |s| ==> IsBlank(s[k])
  }

  /** The leading run of non-blank characters of s. */
  function Run(s: string): (w: string)
    ensures |w| <= |s| && w == s[..|w|] && NoBlank(w)
    ensures |w| < |s| ==> IsBlank(s[|w|])
  {
    if s == [] || IsBlank(s[0]) then [] else [s[0]] + Run(s[1..])
  }

  /** The maximal runs of non-blank characters of s, in order. */
  function Tokens(s: string): seq<string>
    decreases |s|
  {
    if s == [] then []
    else if IsBlank(s[0]) then Tokens(s[1..])
    else
      var w := Run(s);
      assert w[0] == s[0];
      [w] + Tokens(s[|w|..])
  }

  /** The tokens parse_command keeps: the first MAX_ARGS - 1 of them. */
  function Arguments(s: string): seq<string> {
    var t := Tokens(s);
    if |t| <= MAX_ARGS - 1 then t else t[..MAX_ARGS - 1]
  }

  /** Leading blanks contribute nothing. */
  lemma {:induction false} TokensSkipBlanks(b: string, rest: string)
    requires AllBlank(b)
    ensures Tokens(b + rest) == Tokens(rest)
  {
    if b == [] {
      assert b + rest == rest;
    } else {
      assert (b + rest)[1..] == b[1..] + rest;
      TokensSkipBlanks(b[1..], rest);
    }
  }

  lemma {:induction false} RunOf(w: string, rest: string)
    requires NoBlank(w)
    requires rest == [] || IsBlank(rest[0])
    ensures Run(w + rest) == w
  {
    if w == [] {
      assert w + rest == rest;
    } else {
      assert (w + rest)[1..] == w[1..] + rest;
      RunOf(w[1..], rest);
    }
  }

  /** A maximal non-blank run followed by a blank (or the end) is exactly one token. */
  lemma TokensOfRun(w: string, rest: string)
    requires w != [] && NoBlank(w)
    requires rest == [] || IsBlank(rest[0])
    ensures Tokens(w + rest) == [w] + Tokens(rest)
  {
    RunOf(w, rest);
    assert (w + rest)[|w|..] == rest;
  }

  /** Every token is non-empty and holds no space or tab. */
  lemma {:induction false} TokensWellFormed(s: string)
    ensures forall k :: 0 <= k < |Tokens(s)| ==> Tokens(s)[k] != [] && NoBlank(Tokens(s)[k])
    decreases |s|
  {
    if s == [] {
    } else if IsBlank(s[0]) {
      TokensWellFormed(s[1..]);
    } else {
      var w := Run(s);
      assert w[0] == s[0];
      TokensWellFormed(s[|w|..]);
    }
  }

  /** A character absent from the input is absent from every token. */
  lemma {:induction false} TokensAvoid(s: string, x: char)
    requires x !in s
    ensures forall k :: 0 <= k < |Tokens(s)| ==> x !in Tokens(s)[k]
    decreases |s|
  {
    if s == [] {
    } else if IsBlank(s[0]) {
      TokensAvoid(s[1..], x);
    } else {
      var w := Run(s);
      assert w[0] == s[0];
      assert x !in s[|w|..];
      TokensAvoid(s[|w|..], x);
    }
  }

  /** The characters of s that are not blanks, in order. */
  function NonBlanks(s: string): string {
    if s == [] then [] else (if IsBlank(s[0]) then [] else [s[0]]) + NonBlanks(s[1..])
  }

  function Concat(ts: seq<string>): string {
    if ts == [] then [] else ts[0] + Concat(ts[1..])
  }

  lemma {:induction false} NonBlanksAppend(a: string, b: string)
    ensures NonBlanks(a + b) == NonBlanks(a) + NonBlanks(b)
  {
    if a == [] {
      assert a + b == b;
    } else {
      assert (a + b)[1..] == a[1..] + b;
      NonBlanksAppend(a[1..], b);
    }
  }

  lemma {:induction false} NonBlanksOfNoBlank(w: string)
    requires NoBlank(w)
    ensures NonBlanks(w) == w
  {
    if w != [] {
      NonBlanksOfNoBlank(w[1..]);
      assert w == [w[0]] + w[1..];
    }
  }

  /** Joined back together, the tokens are exactly the non-blank characters of the line. */
  lemma {:induction false} TokensCoverNonBlanks(s: string)
    ensures Concat(Tokens(s)) == NonBlanks(s)
    decreases |s|
  {
    if s == [] {
    } else if IsBlank(s[0]) {
      TokensCoverNonBlanks(s[1..]);
    } else {
      var w := Run(s);
      assert w[0] == s[0];
      var rest := s[|w|..];
      TokensCoverNonBlanks(rest);
      assert s == w + rest;
      NonBlanksAppend(w, rest);
      NonBlanksOfNoBlank(w);
      assert Tokens(s)[1..] == Tokens(rest);
    }
  }

  /** Blanks, a word, at least one blank, a word, blanks: exactly the two words. */
  lemma TokensOfTwoWords(a: string, w1: string, b: string, w2: string, c: string)
    requires AllBlank(a) && AllBlank(b) && AllBlank(c) && b != []
    requires w1 != [] && NoBlank(w1) && w2 != [] && NoBlank(w2)
    ensures Tokens(a + (w1 + (b + (w2 + c)))) == [w1, w2]
  {
    TokensSkipBlanks(c, []);
    assert c + [] == c;
    var second := w2 + c;
    TokensOfRun(w2, c);
    assert Tokens(second) == [w2];
    var tail := b + second;
    TokensSkipBlanks(b, second);
    assert tail[0] == b[0];
    var first := w1 + tail;
    TokensOfRun(w1, tail);
    assert Tokens(first) == [w1, w2];
    TokensSkipBlanks(a, first);
  }

  lemma TokensExamples()
    ensures Tokens("") == []
    ensures Tokens("  ls   -la ") == ["ls", "-la"]
  {
    TokensOfTwoWords("  ", "ls", "   ", "-la", " ");
    assert "  " + ("ls" + ("   " + ("-la" + " "))) == "  ls   -la ";
  }

  lemma SkipBlankAt(s: string, i: nat)
    requires i < |s| && IsBlank(s[i])
    ensures Tokens(s[i..]) == Tokens(s[i + 1..])
  {
    assert s[i..][1..] == s[i + 1..];
  }

  lemma CloseTokenAt(s: string, start: nat, i: nat)
    requires start < i <= |s|
    requires forall k :: start <= k < i ==> !IsBlank(s[k])
    requires i == |s| || IsBlank(s[i])
    ensures Tokens(s[start..]) == [s[start..i]] + Tokens(s[i..])
  {
    var token := s[start..i];
    assert NoBlank(token);
    assert s[start..] == token + s[i..];
    TokensOfRun(token, s[i..]);
  }

  /** A blank outside a token is skipped. */
  lemma SkipStep(input: string, args: seq<string>, i: nat)
    requires i < |input| && IsBlank(input[i])
    requires Tokens(input) == args + Tokens(input[i..])
    ensures Tokens(input) == args + Tokens(input[i + 1..])
  {
    SkipBlankAt(input, i);
  }

  /** A blank ending a token closes it, and is then skipped. */
  lemma CloseStep(input: string, args: seq<string>, tokenStart: nat, i: nat)
    requires tokenStart < i < |input| && IsBlank(input[i])
    requires forall k :: tokenStart <= k < i ==> !IsBlank(input[k])
    requires Tokens(input) == args + Tokens(input[tokenStart..])
    ensures Tokens(input) == (args + [input[tokenStart..i]]) + Tokens(input[i + 1..])
  {
    CloseTokenAt(input, tokenStart, i);
    SkipBlankAt(input, i);
    AppendAssoc(args, input[tokenStart..i], Tokens(input[i + 1..]));
  }

  lemma AppendAssoc(a: seq<string>, t: string, later: seq<string>)
    ensures a + ([t] + later) == (a + [t]) + later
  {
  }

  /**
   * parse_command's scan: an in_token flag and the start of the current token,
   * a token closed at each blank that ends it, the last one closed at the end
   * of the line, and the scan stopped once MAX_ARGS - 1 tokens are collected.
   */
  method ParseCommand(input: string) returns (args: seq<string>)
    ensures args == Arguments(input)
    ensures |args| <= MAX_ARGS - 1
  {
    args := [];
    var inToken := false;
    var tokenStart := 0;
    var i := 0;
    while i < |input| && |args| < MAX_ARGS - 1
      invariant 0 <= tokenStart <= i <= |input|
      invariant |args| <= MAX_ARGS - 1
      invariant !inToken ==> Tokens(input) == args + Tokens(input[i..])
      invariant inToken ==> tokenStart < i && forall k :: tokenStart <= k < i ==> !IsBlank(input[k])
      invariant inToken ==> Tokens(input) == args + Tokens(input[tokenStart..])
    {
      if !IsBlank(input[i]) {
        if !inToken {
          tokenStart := i;
          inToken := true;
        }
      } else {
        if inToken {
          CloseStep(input, args, tokenStart, i);
          args := args + [input[tokenStart..i]];
          inToken := false;
        } else {
          SkipStep(input, args, i);
        }
      }
      i := i + 1;
    }
    FinishScan(input, args, inToken, tokenStart, i);
    if inToken && |args| < MAX_ARGS - 1 {
      args := args + [input[tokenStart..i]];
    }
  }

  /**
   * Where parse_command's scan stops, either the line is used up or the token
   * limit is reached; closing the pending token (when there is room) gives
   * the arguments.
   */
  lemma FinishScan(input: string, args: seq<string>, inToken: bool, tokenStart: nat, i: nat)
    requires 0 <= tokenStart <= i <= |input| && |args| <= MAX_ARGS - 1
    requires !(i < |input| && |args| < MAX_ARGS - 1)
    requires !inToken ==> Tokens(input) == args + Tokens(input[i..])
    requires inToken ==> tokenStart < i && forall k :: tokenStart <= k < i ==> !IsBlank(input[k])
    requires inToken ==> Tokens(input) == args + Tokens(input[tokenStart..])
    ensures inToken && |args| < MAX_ARGS - 1 ==> Arguments(input) == args + [input[tokenStart..i]]
    ensures !(inToken && |args| < MAX_ARGS - 1) ==> Arguments(input) == args
  {
    if |args| < MAX_ARGS - 1 {
      assert i == |input|;
      if inToken {
        CloseTokenAt(input, tokenStart, i);
        assert input[i..] == [];
        assert Tokens(input) == args + [input[tokenStart..i]];
      } else {
        assert input[i..] == [];
        assert Tokens(input) == args;
      }
    } else {
      var t := Tokens(input);
      assert t[..|args|] == args;
    }
  }
}
