/** The token language of `MathParser.tokenize` (src/lib/parser.ts), as
    functions: the character classes it tests, the maximal runs it reads, the
    token sequence it produces, and what it keeps of the input. */
module Tokenizer {

  /** `/[0-9.]/`: the characters of a number token. */
  predicate IsNumberChar(c: char) {
    ('0' <= c <= '9') || c == '.'
  }

  /** `/[+\-*\/^()]/`: the one-character operator and parenthesis tokens. */
  predicate IsOperatorChar(c: char) {
    c == '+' || c == '-' || c == '*' || c == '/' || c == '^' || c == '(' || c == ')'
  }

  /** `/[a-zA-Z]/`: the characters that start a name. */
  predicate IsLetter(c: char) {
    ('a' <= c <= 'z') || ('A' <= c <= 'Z')
  }

  /** `/[a-zA-Z0-9_]/`: the characters that continue a name. */
  predicate IsWordChar(c: char) {
    IsLetter(c) || ('0' <= c <= '9') || c == '_'
  }

  /** The end of the maximal run of `inRun` characters starting at `i`. */
  function RunEnd(s: string, i: nat, inRun: char -> bool): (j: nat)
    requires i <= |s|
    ensures i <= j <= |s|
    ensures forall k :: i <= k < j ==> inRun(s[k])
    ensures j == |s| || !inRun(s[j])
    decreases |s| - i
  {
    if i < |s| && inRun(s[i]) then RunEnd(s, i + 1, inRun) else i
  }

  /** Any position that closes a run of `inRun` characters from `i` is its end. */
  lemma RunEndUnique(s: string, i: nat, j: nat, inRun: char -> bool)
    requires i <= j <= |s|
    requires forall k :: i <= k < j ==> inRun(s[k])
    requires j == |s| || !inRun(s[j])
    ensures RunEnd(s, i, inRun) == j
  {
  }

  /** The tokens read from position `i` on, following the branches of the scanning loop. */
  function TokensFrom(s: string, i: nat): seq<string>
    requires i <= |s|
    decreases |s| - i
  {
    if i == |s| then []
    else if s[i] == ' ' then TokensFrom(s, i + 1)
    else if IsNumberChar(s[i]) then
      var j := RunEnd(s, i, IsNumberChar);
      [s[i..j]] + TokensFrom(s, j)
    else if IsOperatorChar(s[i]) then [[s[i]]] + TokensFrom(s, i + 1)
    else if IsLetter(s[i]) then
      var j := RunEnd(s, i, IsWordChar);
      [s[i..j]] + TokensFrom(s, j)
    else TokensFrom(s, i + 1)
  }

  function Tokenization(s: string): seq<string> {
    TokensFrom(s, 0)
  }

  predicate IsNumberToken(t: string) {
    |t| > 0 && forall k :: 0 <= k < |t| ==> IsNumberChar(t[k])
  }

  predicate IsOperatorToken(t: string) {
    |t| == 1 && IsOperatorChar(t[0])
  }

  predicate IsNameToken(t: string) {
    |t| > 0 && IsLetter(t[0]) && forall k :: 0 <= k < |t| ==> IsWordChar(t[k])
  }

  /** Every token is a number run, an operator, or a name; no token is empty. */
  lemma {:induction false} TokenShapes(s: string, i: nat)
    requires i <= |s|
    ensures forall t :: t in TokensFrom(s, i) ==>
      IsNumberToken(t) || IsOperatorToken(t) || IsNameToken(t)
    decreases |s| - i
  {
    if i < |s| {
      if s[i] == ' ' {
        TokenShapes(s, i + 1);
      } else if IsNumberChar(s[i]) {
        var j := RunEnd(s, i, IsNumberChar);
        TokenShapes(s, j);
      } else if IsOperatorChar(s[i]) {
        TokenShapes(s, i + 1);
      } else if IsLetter(s[i]) {
        var j := RunEnd(s, i, IsWordChar);
        TokenShapes(s, j);
      } else {
        TokenShapes(s, i + 1);
      }
    }
  }

  /** A number token is never followed directly, in the input, by another number
      character, and a name token never by a word character: runs are maximal. */
  lemma RunsAreMaximal(s: string, i: nat)
    requires i < |s|
    ensures IsNumberChar(s[i]) ==> var j := RunEnd(s, i, IsNumberChar);
      j > i && IsNumberToken(s[i..j]) && (j == |s| || !IsNumberChar(s[j]))
    ensures !IsNumberChar(s[i]) && IsLetter(s[i]) ==> var j := RunEnd(s, i, IsWordChar);
      j > i && IsNameToken(s[i..j]) && (j == |s| || !IsWordChar(s[j]))
  {
  }

  function Concat(ts: seq<string>): string {
    if ts == [] then [] else ts[0] + Concat(ts[1..])
  }

  /** The characters the scan keeps, read one at a time with one bit of state
      (`inName`: the previous kept character belongs to a name). Letters,
      digits, `.` and the operator characters are always kept; `_` is kept only
      inside a name; everything else (space, comma, tab, ...) is dropped. */
  function KeptFrom(s: string, i: nat, inName: bool): string
    requires i <= |s|
    decreases |s| - i
  {
    if i == |s| then []
    else if inName && IsWordChar(s[i]) then [s[i]] + KeptFrom(s, i + 1, true)
    else if IsLetter(s[i]) then [s[i]] + KeptFrom(s, i + 1, true)
    else if IsNumberChar(s[i]) || IsOperatorChar(s[i]) then [s[i]] + KeptFrom(s, i + 1, false)
    else KeptFrom(s, i + 1, false)
  }

  function Kept(s: string): string {
    KeptFrom(s, 0, false)
  }

  lemma {:induction false} ConcatAppend(t: string, ts: seq<string>)
    ensures Concat([t] + ts) == t + Concat(ts)
  {
    assert ([t] + ts)[1..] == ts;
  }

  /** Outside a name, a run of number characters is kept whole. */
  lemma {:induction false} NumberRunKept(s: string, i: nat, j: nat)
    requires i <= j <= |s|
    requires forall k :: i <= k < j ==> IsNumberChar(s[k])
    ensures KeptFrom(s, i, false) == s[i..j] + KeptFrom(s, j, false)
    decreases j - i
  {
    if i < j {
      NumberRunKept(s, i + 1, j);
      assert s[i..j] == [s[i]] + s[i + 1..j];
    }
  }

  /** Inside a name, a run of word characters is kept whole. */
  lemma {:induction false} NameRunKept(s: string, i: nat, j: nat)
    requires i <= j <= |s|
    requires forall k :: i <= k < j ==> IsWordChar(s[k])
    ensures KeptFrom(s, i, true) == s[i..j] + KeptFrom(s, j, true)
    decreases j - i
  {
    if i < j {
      NameRunKept(s, i + 1, j);
      assert s[i..j] == [s[i]] + s[i + 1..j];
    }
  }

  /** Concatenating the tokens gives back the input with exactly the dropped
      characters removed, in their original order. */
  lemma {:induction false} ConcatTokensIsKept(s: string, i: nat)
    requires i <= |s|
    ensures Concat(TokensFrom(s, i)) == KeptFrom(s, i, false)
    decreases |s| - i
  {
    if i < |s| {
      if s[i] == ' ' {
        ConcatTokensIsKept(s, i + 1);
      } else if IsNumberChar(s[i]) {
        var j := RunEnd(s, i, IsNumberChar);
        ConcatTokensIsKept(s, j);
        NumberRunKept(s, i, j);
        ConcatAppend(s[i..j], TokensFrom(s, j));
      } else if IsOperatorChar(s[i]) {
        ConcatTokensIsKept(s, i + 1);
        ConcatAppend([s[i]], TokensFrom(s, i + 1));
      } else if IsLetter(s[i]) {
        var j := RunEnd(s, i, IsWordChar);
        ConcatTokensIsKept(s, j);
        NameRunKept(s, i + 1, j);
        assert j < |s| ==> !IsWordChar(s[j]);
        assert KeptFrom(s, j, true) == KeptFrom(s, j, false);
        assert s[i..j] == [s[i]] + s[i + 1..j];
        ConcatAppend(s[i..j], TokensFrom(s, j));
      } else {
        ConcatTokensIsKept(s, i + 1);
      }
    }
  }

  /** The round trip over the whole input. */
  lemma TokenizationRoundTrip(s: string)
    ensures Concat(Tokenization(s)) == Kept(s)
  {
    ConcatTokensIsKept(s, 0);
  }
}
