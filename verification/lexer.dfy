/**
 * The input as the ASCII parser reads it: a sequence of lines, each with its
 * raw text (the header test looks at the raw bytes) and the words a
 * whitespace split of that text yields. A token is a word together with the
 * 1-based number of the line it sits on, which is what the parser's line
 * counter holds while that word is current.
 */
module Lexer {

  datatype Line = Line(text: string, words: seq<string>)

  datatype Token = Token(word: string, line: nat)

  /** The words ws of line number n, as tokens. */
  function LineTokens(ws: seq<string>, n: nat): (r: seq<Token>)
    ensures |r| == |ws|
    ensures forall j :: 0 <= j < |r| ==> r[j] == Token(ws[j], n)
  {
    if ws == [] then [] else [Token(ws[0], n)] + LineTokens(ws[1..], n)
  }

  /**
   * All tokens of lines[k..], in reading order; line j of the input (0-based)
   * is line number j + 1.
   */
  function Tokens(lines: seq<Line>, k: nat): (r: seq<Token>)
    requires k <= |lines|
    decreases |lines| - k
  {
    if k == |lines| then [] else LineTokens(lines[k].words, k + 1) + Tokens(lines, k + 1)
  }

  /** Every token of lines[k..] sits on one of those lines. */
  lemma {:induction false} TokenLines(lines: seq<Line>, k: nat)
    requires k <= |lines|
    ensures forall j :: 0 <= j < |Tokens(lines, k)| ==> k < Tokens(lines, k)[j].line <= |lines|
    decreases |lines| - k
  {
    if k < |lines| {
      TokenLines(lines, k + 1);
      var head, tail := LineTokens(lines[k].words, k + 1), Tokens(lines, k + 1);
      var ts := head + tail;
      forall j | 0 <= j < |ts| ensures k < ts[j].line <= |lines| {
        if j >= |head| {
          assert ts[j] == tail[j - |head|];
        }
      }
    }
  }

  /**
   * The tokens after the first used words of line number n (1-based): the
   * rest of that line, then all later lines, handed out one at a time.
   */
  function TokensFrom(lines: seq<Line>, n: nat, used: nat): seq<Token>
    requires 1 <= n <= |lines| && used <= |lines[n - 1].words|
    decreases |lines| - n, |lines[n - 1].words| - used
  {
    if used < |lines[n - 1].words| then [Token(lines[n - 1].words[used], n)] + TokensFrom(lines, n, used + 1)
    else if n < |lines| then TokensFrom(lines, n + 1, 0)
    else []
  }

  /** Handing out words one at a time yields the same tokens as the line-by-line reading. */
  lemma {:induction false} TokensFromIsTokens(lines: seq<Line>, n: nat, used: nat)
    requires 1 <= n <= |lines| && used <= |lines[n - 1].words|
    ensures TokensFrom(lines, n, used) == LineTokens(lines[n - 1].words[used..], n) + Tokens(lines, n)
    decreases |lines| - n, |lines[n - 1].words| - used
  {
    var ws := lines[n - 1].words;
    if used < |ws| {
      TokensFromIsTokens(lines, n, used + 1);
      assert ws[used..][1..] == ws[used + 1..];
    } else {
      assert ws[used..] == [];
      if n < |lines| {
        TokensFromIsTokens(lines, n + 1, 0);
        assert lines[n].words[0..] == lines[n].words;
      }
    }
  }

  /** Starting a line: nothing of it is used yet. */
  lemma TokensFromStart(lines: seq<Line>, n: nat)
    requires 1 <= n <= |lines|
    ensures TokensFrom(lines, n, 0) == Tokens(lines, n - 1)
  {
    TokensFromIsTokens(lines, n, 0);
    assert lines[n - 1].words[0..] == lines[n - 1].words;
  }

  /** Line numbers never decrease along a token sequence. */
  ghost predicate LinesAscend(ts: seq<Token>) {
    forall i, j :: 0 <= i <= j < |ts| ==> ts[i].line <= ts[j].line
  }

  /** The tokens run out exactly when every remaining line has no words. */
  lemma {:induction false} TokensEmpty(lines: seq<Line>, k: nat)
    requires k <= |lines|
    ensures Tokens(lines, k) == [] <==> forall j :: k <= j < |lines| ==> lines[j].words == []
    decreases |lines| - k
  {
    if k < |lines| {
      TokensEmpty(lines, k + 1);
      if Tokens(lines, k) == [] {
        forall j | k <= j < |lines| ensures lines[j].words == [] {
          if j > k {
            assert lines[j].words == [];
          }
        }
      }
    }
  }

  /** Tokens come in line order: the line counter only increases. */
  lemma {:induction false} TokensAscend(lines: seq<Line>, k: nat)
    requires k <= |lines|
    ensures LinesAscend(Tokens(lines, k))
    decreases |lines| - k
  {
    if k < |lines| {
      TokensAscend(lines, k + 1);
      TokenLines(lines, k + 1);
      var head := LineTokens(lines[k].words, k + 1);
      var tail := Tokens(lines, k + 1);
      var ts := Tokens(lines, k);
      assert ts == head + tail;
      forall i, j | 0 <= i <= j < |ts| ensures ts[i].line <= ts[j].line {
        if j < |head| {
          assert ts[i].line == k + 1 == ts[j].line;
        } else if i < |head| {
          assert ts[i].line == k + 1 && ts[j] == tail[j - |head|];
        } else {
          assert ts[i] == tail[i - |head|] && ts[j] == tail[j - |head|];
        }
      }
    }
  }

  /** The words of a token sequence, in order. */
  function Words(ts: seq<Token>): (r: seq<string>)
    ensures |r| == |ts|
    ensures forall j :: 0 <= j < |ts| ==> r[j] == ts[j].word
  {
    if ts == [] then [] else [ts[0].word] + Words(ts[1..])
  }

  /** All words of lines[k..], in order. */
  function AllWords(lines: seq<Line>, k: nat): seq<string>
    requires k <= |lines|
    decreases |lines| - k
  {
    if k == |lines| then [] else lines[k].words + AllWords(lines, k + 1)
  }

  /** The words of a concatenation are the concatenated words. */
  lemma WordsAppend(a: seq<Token>, b: seq<Token>)
    ensures Words(a + b) == Words(a) + Words(b)
  {
    var l, r := Words(a + b), Words(a) + Words(b);
    assert |l| == |r|;
    forall j | 0 <= j < |l| ensures l[j] == r[j] {
      if j >= |a| {
        assert (a + b)[j] == b[j - |a|];
      }
    }
  }

  /** The tokens of one line carry exactly that line's words. */
  lemma WordsOfLine(ws: seq<string>, n: nat)
    ensures Words(LineTokens(ws, n)) == ws
  {
    var l := Words(LineTokens(ws, n));
    assert |l| == |ws|;
    forall j | 0 <= j < |ws| ensures l[j] == ws[j] {
    }
  }

  /** Tokenising keeps every word and its order; only the line numbers are added. */
  lemma {:induction false} TokensWords(lines: seq<Line>, k: nat)
    requires k <= |lines|
    ensures Words(Tokens(lines, k)) == AllWords(lines, k)
    decreases |lines| - k
  {
    if k < |lines| {
      TokensWords(lines, k + 1);
      WordsAppend(LineTokens(lines[k].words, k + 1), Tokens(lines, k + 1));
      WordsOfLine(lines[k].words, k + 1);
    }
  }
}
