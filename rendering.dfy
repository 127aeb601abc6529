/** The board printed for a game (main.go, printGame): every letter of every
    guess in the colour of its mark, a line break after each guess. The
    terminal writes are modelled as a sequence of tokens. */
module Rendering {
  import opened WordleTypes

  /** The three print colours: green, yellow, and the bright black used for gray. */
  datatype Colour = Green | Yellow | Gray

  /** One write: a letter printed as " <letter>" in a colour, or a line break. */
  datatype Token = Letter(colour: Colour, letter: char) | LineBreak

  /** What a rendering wrote, and whether it stopped on an index out of range
      (a Go runtime panic, which ends the program). */
  datatype Plan = Plan(tokens: seq<Token>, crashed: bool)

  /** The colour of a mark; only the three known marks have one. */
  function ColourOf(mark: string): Option<Colour>
  {
    if mark == GreenMark then Some(Green)
    else if mark == YellowMark then Some(Yellow)
    else if mark == GrayMark then Some(Gray)
    else None
  }

  /** A mark has a colour exactly when it is one of the three known marks. */
  lemma ColourOfKnown(mark: string)
    ensures ColourOf(mark).Some? <==> mark == GreenMark || mark == YellowMark || mark == GrayMark
  {
  }

  /** What one letter writes: its token, or nothing for an unknown mark. */
  function Emit(mark: string, letter: char): seq<Token>
  {
    match ColourOf(mark)
    case Some(c) => [Letter(c, letter)]
    case None => []
  }

  /** The tokens written for the first `n` letters of a guess. */
  function LettersUpTo(word: string, matches: seq<string>, n: nat): seq<Token>
    requires n <= |word| && n <= |matches|
  {
    if n == 0 then []
    else LettersUpTo(word, matches, n - 1) + Emit(matches[n - 1], word[n - 1])
  }

  /** One guess: its letters, then a line break; when there are fewer marks
      than letters, the letters that have a mark and then the crash. */
  function RenderGuess(g: Guess): (r: Plan)
    ensures r.crashed <==> |g.matches| < |g.word|
  {
    if |g.matches| < |g.word| then Plan(LettersUpTo(g.word, g.matches, |g.matches|), true)
    else Plan(LettersUpTo(g.word, g.matches, |g.word|) + [LineBreak], false)
  }

  /** `tokens` written before whatever `rest` writes. */
  function After(tokens: seq<Token>, rest: Plan): Plan
  {
    Plan(tokens + rest.tokens, rest.crashed)
  }

  /** The guesses in order, stopping at the first one that crashes. */
  function Render(guesses: seq<Guess>): (r: Plan)
    ensures r.crashed ==> guesses != []
  {
    if guesses == [] then Plan([], false)
    else
      var first := RenderGuess(guesses[0]);
      if first.crashed then first else After(first.tokens, Render(guesses[1..]))
  }

  /** A guess whose marks are known and at least as many as its letters. */
  predicate WellMarked(g: Guess)
  {
    |g.matches| >= |g.word| &&
    forall j :: 0 <= j < |g.word| ==> ColourOf(g.matches[j]).Some?
  }

  /** The number of line breaks among some tokens. */
  function Breaks(tokens: seq<Token>): nat
  {
    multiset(tokens)[LineBreak]
  }

  /** The number of positions before `n` whose mark has a colour. */
  function Coloured(matches: seq<string>, n: nat): nat
    requires n <= |matches|
  {
    if n == 0 then 0
    else Coloured(matches, n - 1) + (if ColourOf(matches[n - 1]).Some? then 1 else 0)
  }

  /** A guess writes one token per position whose mark has a colour, so at most
      one per letter, and no line break among its letters. */
  lemma {:induction false} LettersShape(word: string, matches: seq<string>, n: nat)
    requires n <= |word| && n <= |matches|
    ensures |LettersUpTo(word, matches, n)| == Coloured(matches, n) <= n
    ensures LineBreak !in LettersUpTo(word, matches, n)
  {
    if n > 0 {
      LettersShape(word, matches, n - 1);
    }
  }

  /** When every mark is known, letter j is written as the j-th token, in the
      colour of mark j. */
  lemma {:induction false} LettersExact(word: string, matches: seq<string>, n: nat)
    requires n <= |word| && n <= |matches|
    requires forall j :: 0 <= j < n ==> ColourOf(matches[j]).Some?
    ensures |LettersUpTo(word, matches, n)| == n
    ensures forall j :: 0 <= j < n ==>
      LettersUpTo(word, matches, n)[j] == Letter(ColourOf(matches[j]).value, word[j])
  {
    if n > 0 {
      LettersExact(word, matches, n - 1);
    }
  }

  /** An unknown mark writes nothing: the letters of a guess are the same as if
      that mark were missing together with its letter. */
  lemma {:induction false} UnknownMarkSkipped(word: string, matches: seq<string>, n: nat, k: nat)
    requires k < n <= |word| && n <= |matches|
    requires ColourOf(matches[k]).None?
    ensures LettersUpTo(word, matches, n)
         == LettersUpTo(word[..k] + word[k + 1..], matches[..k] + matches[k + 1..], n - 1)
  {
    var w, m := word[..k] + word[k + 1..], matches[..k] + matches[k + 1..];
    if n - 1 == k {
      PrefixOnly(word, matches, w, m, k);
    } else {
      UnknownMarkSkipped(word, matches, n - 1, k);
      assert w[n - 2] == word[n - 1] && m[n - 2] == matches[n - 1];
    }
  }

  /** The letters before `n` depend only on the letters and marks before `n`. */
  lemma {:induction false} PrefixOnly(word: string, matches: seq<string>, word': string, matches': seq<string>, n: nat)
    requires n <= |word| && n <= |matches| && n <= |word'| && n <= |matches'|
    requires word[..n] == word'[..n] && matches[..n] == matches'[..n]
    ensures LettersUpTo(word, matches, n) == LettersUpTo(word', matches', n)
  {
    if n > 0 {
      assert word[n - 1] == word[..n][n - 1] == word'[n - 1];
      assert matches[n - 1] == matches[..n][n - 1] == matches'[n - 1];
      assert word[..n - 1] == word'[..n - 1] && matches[..n - 1] == matches'[..n - 1] by {
        assert word[..n - 1] == word[..n][..n - 1];
        assert word'[..n - 1] == word'[..n][..n - 1];
        assert matches[..n - 1] == matches[..n][..n - 1];
        assert matches'[..n - 1] == matches'[..n][..n - 1];
      }
      PrefixOnly(word, matches, word', matches', n - 1);
    }
  }

  /** Rendering crashes exactly when some guess has fewer marks than letters. */
  lemma {:induction false} CrashIff(guesses: seq<Guess>)
    ensures Render(guesses).crashed <==>
      exists k :: 0 <= k < |guesses| && |guesses[k].matches| < |guesses[k].word|
  {
    if guesses != [] {
      CrashIff(guesses[1..]);
      if !RenderGuess(guesses[0]).crashed && Render(guesses[1..]).crashed {
        var k :| 0 <= k < |guesses[1..]| && |guesses[1..][k].matches| < |guesses[1..][k].word|;
        assert guesses[k + 1] == guesses[1..][k];
      }
      if exists k :: 0 <= k < |guesses| && |guesses[k].matches| < |guesses[k].word| {
        var k :| 0 <= k < |guesses| && |guesses[k].matches| < |guesses[k].word|;
        if k > 0 {
          assert guesses[1..][k - 1] == guesses[k];
        }
      }
    }
  }

  /** A rendering that does not crash writes exactly one line break per guess. */
  lemma {:induction false} OneBreakPerGuess(guesses: seq<Guess>)
    requires !Render(guesses).crashed
    ensures Breaks(Render(guesses).tokens) == |guesses|
  {
    if guesses != [] {
      var g := guesses[0];
      LettersShape(g.word, g.matches, |g.word|);
      OneBreakPerGuess(guesses[1..]);
      var letters := LettersUpTo(g.word, g.matches, |g.word|);
      assert multiset(letters)[LineBreak] == 0;
      assert Render(guesses).tokens == letters + [LineBreak] + Render(guesses[1..]).tokens;
    }
  }

  /** Guesses are rendered in order: the board of two runs of guesses is the
      board of the first followed by the board of the second, unless the first
      already crashed. */
  lemma {:induction false} RenderInOrder(first: seq<Guess>, second: seq<Guess>)
    ensures Render(first + second) ==
      if Render(first).crashed then Render(first) else After(Render(first).tokens, Render(second))
  {
    if first == [] {
      assert first + second == second;
    } else {
      var head := RenderGuess(first[0]);
      assert (first + second)[0] == first[0];
      assert (first + second)[1..] == first[1..] + second;
      RenderInOrder(first[1..], second);
      if !head.crashed && !Render(first[1..]).crashed {
        AfterAfter(head.tokens, Render(first[1..]).tokens, Render(second));
      }
    }
  }

  /** A well-marked guess is rendered as all its letters in their colours and one
      line break. */
  lemma WellMarkedGuess(g: Guess)
    requires WellMarked(g)
    ensures !RenderGuess(g).crashed
    ensures |RenderGuess(g).tokens| == |g.word| + 1
    ensures RenderGuess(g).tokens[|g.word|] == LineBreak
    ensures forall j :: 0 <= j < |g.word| ==>
      RenderGuess(g).tokens[j] == Letter(ColourOf(g.matches[j]).value, g.word[j])
  {
    LettersExact(g.word, g.matches, |g.word|);
  }

  /** One more letter adds what its mark emits. */
  lemma LettersStep(word: string, matches: seq<string>, i: nat)
    requires i < |word| && i < |matches|
    ensures LettersUpTo(word, matches, i + 1) == LettersUpTo(word, matches, i) + Emit(matches[i], word[i])
  {
  }

  /** Rendering from guess k on: guess k, then the rest unless guess k crashed. */
  lemma RenderFrom(guesses: seq<Guess>, k: nat)
    requires k < |guesses|
    ensures Render(guesses[k..]) ==
      var first := RenderGuess(guesses[k]);
      if first.crashed then first else After(first.tokens, Render(guesses[k + 1..]))
  {
    assert guesses[k..][0] == guesses[k] && guesses[k..][1..] == guesses[k + 1..];
  }

  /** Writing `t` and then `u` before a plan is writing `t + u` before it. */
  lemma AfterAfter(t: seq<Token>, u: seq<Token>, rest: Plan)
    ensures After(t, After(u, rest)) == After(t + u, rest)
  {
    assert t + (u + rest.tokens) == (t + u) + rest.tokens;
  }

  /** printGame: a loop over the guesses and, inside it, over the letters of each,
      writing a coloured letter for each known mark and a line break after each
      guess; indexing a missing mark stops it, as the Go runtime does. */
  method PrintGame(game: GameStatus) returns (tokens: seq<Token>, crashed: bool)
    ensures Plan(tokens, crashed) == Render(game.guesses)
  {
    var guesses := game.guesses;
    tokens := [];
    var k := 0;
    while k < |guesses|
      invariant 0 <= k <= |guesses|
      invariant Render(guesses) == After(tokens, Render(guesses[k..]))
    {
      var g := guesses[k];
      RenderFrom(guesses, k);
      var line := [];
      var i := 0;
      while i < |g.word|
        invariant 0 <= i <= |g.word|
        invariant i <= |g.matches|
        invariant line == LettersUpTo(g.word, g.matches, i)
      {
        if i >= |g.matches| {
          assert RenderGuess(g) == Plan(line, true);
          tokens := tokens + line;
          return tokens, true;
        }
        var mark := g.matches[i];
        LettersStep(g.word, g.matches, i);
        if mark == GreenMark {
          assert Emit(mark, g.word[i]) == [Letter(Green, g.word[i])];
          line := line + [Letter(Green, g.word[i])];
        } else if mark == YellowMark {
          assert Emit(mark, g.word[i]) == [Letter(Yellow, g.word[i])];
          line := line + [Letter(Yellow, g.word[i])];
        } else if mark == GrayMark {
          assert Emit(mark, g.word[i]) == [Letter(Gray, g.word[i])];
          line := line + [Letter(Gray, g.word[i])];
        } else {
          assert Emit(mark, g.word[i]) == [];
        }
        i := i + 1;
      }
      assert RenderGuess(g) == Plan(line + [LineBreak], false);
      AfterAfter(tokens, line + [LineBreak], Render(guesses[k + 1..]));
      tokens := tokens + (line + [LineBreak]);
      k := k + 1;
    }
    assert guesses[k..] == [];
    crashed := false;
  }
}
