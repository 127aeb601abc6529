/** The encouragement line printed after a guess (main.go, getGuessComment). */
module Commentary {
  import opened WordleTypes

  const WinMessage: string := "Awesome! You won!"
  const TopMessage: string := "Pretty good. You're getting there"
  const MiddleMessage: string := "Not too shabby."
  const BottomMessage: string := "Bummer. Try something like 'tears'"

  /** What one mark adds to the score: a green letter 2, a yellow letter 1,
      a gray letter or any other string nothing. */
  function Points(mark: string): (r: nat)
    ensures r <= 2
  {
    if mark == GreenMark then 2 else if mark == YellowMark then 1 else 0
  }

  /** The score of a row of marks, accumulated from the first mark to the last. */
  function Score(matches: seq<string>): (r: nat)
    ensures r <= 2 * |matches|
  {
    if matches == [] then 0
    else Score(matches[..|matches| - 1]) + Points(matches[|matches| - 1])
  }

  /** The score counted afresh: twice the green marks plus the yellow ones. */
  function CountedScore(matches: seq<string>): nat
  {
    2 * multiset(matches)[GreenMark] + multiset(matches)[YellowMark]
  }

  /** The message for a score that did not win, by strict thresholds. */
  function Tier(score: int): (r: string)
    ensures r == TopMessage || r == MiddleMessage || r == BottomMessage
  {
    if score > 6 then TopMessage
    else if score > 3 then MiddleMessage
    else BottomMessage
  }

  /** The position of a message in the order bottom < middle < top. */
  function Rank(message: string): nat
  {
    if message == TopMessage then 2
    else if message == MiddleMessage then 1
    else 0
  }

  /** The comment the client prints for the latest guess. */
  function Comment(latest: Guess): (r: string)
    ensures r == WinMessage <==> latest.isMatch
  {
    if latest.isMatch then WinMessage else Tier(Score(latest.matches))
  }

  /** The score is the number of green marks twice plus the number of yellow
      ones; gray and unrecognised marks add nothing. */
  lemma {:induction false} ScoreCountsMarks(matches: seq<string>)
    ensures Score(matches) == CountedScore(matches)
  {
    if matches != [] {
      var init, last := matches[..|matches| - 1], matches[|matches| - 1];
      assert matches == init + [last];
      ScoreCountsMarks(init);
      assert multiset(matches) == multiset(init) + multiset{last};
    }
  }

  /** The score never goes below zero or above two points per mark. */
  lemma {:induction false} ScoreBounds(matches: seq<string>)
    ensures 0 <= Score(matches) <= 2 * |matches|
  {
    if matches != [] {
      ScoreBounds(matches[..|matches| - 1]);
    }
  }

  /** The score only depends on how many marks of each kind there are, not
      on their order. */
  lemma ScoreIgnoresOrder(a: seq<string>, b: seq<string>)
    requires multiset(a) == multiset(b)
    ensures Score(a) == Score(b)
  {
    ScoreCountsMarks(a);
    ScoreCountsMarks(b);
  }

  /** Appending a mark adds exactly that mark's points. */
  lemma ScoreAppend(matches: seq<string>, mark: string)
    ensures Score(matches + [mark]) == Score(matches) + Points(mark)
  {
    assert (matches + [mark])[..|matches|] == matches;
  }

  /** The three bands of non-winning scores. */
  lemma TierBands(score: int)
    ensures score > 6 <==> Tier(score) == TopMessage
    ensures 3 < score <= 6 <==> Tier(score) == MiddleMessage
    ensures score <= 3 <==> Tier(score) == BottomMessage
  {
  }

  /** A higher score never gives a less encouraging message. */
  lemma TierMonotone(low: int, high: int)
    requires low <= high
    ensures Rank(Tier(low)) <= Rank(Tier(high))
  {
  }

  /** A winning guess gets the win message, whatever its marks say. */
  lemma WinIgnoresMarks(latest: Guess, matches: seq<string>)
    requires latest.isMatch
    ensures Comment(latest) == WinMessage
    ensures Comment(latest.(matches := matches)) == WinMessage
  {
  }

  /** A guess that did not win never gets the win message. */
  lemma NoWinWithoutMatch(latest: Guess)
    requires !latest.isMatch
    ensures Comment(latest) != WinMessage
    ensures Comment(latest) == Tier(CountedScore(latest.matches))
  {
    ScoreCountsMarks(latest.matches);
  }

  /** The score of a five-letter row is the sum of its marks' points. */
  lemma ScoreOfFive(a: string, b: string, c: string, d: string, e: string)
    ensures Score([a, b, c, d, e]) == Points(a) + Points(b) + Points(c) + Points(d) + Points(e)
  {
    ScoreAppend([], a);
    assert [] + [a] == [a];
    ScoreAppend([a], b);
    assert [a] + [b] == [a, b];
    ScoreAppend([a, b], c);
    assert [a, b] + [c] == [a, b, c];
    ScoreAppend([a, b, c], d);
    assert [a, b, c] + [d] == [a, b, c, d];
    ScoreAppend([a, b, c, d], e);
    assert [a, b, c, d] + [e] == [a, b, c, d, e];
  }

  /** Examples: five green marks give the top message, one green and
      one yellow (score 3) the bottom one, two greens and a yellow (score 5) the
      middle one, and the marks gray, yellow, green, gray, gray (score 3) the
      bottom one as well. */
  lemma ScoreExamples()
    ensures Comment(Guess("heart", ["green", "green", "green", "green", "green"], false)) == TopMessage
    ensures Comment(Guess("hoist", ["green", "yellow", "gray", "gray", "gray"], false)) == BottomMessage
    ensures Comment(Guess("heats", ["green", "green", "yellow", "gray", "gray"], false)) == MiddleMessage
    ensures Comment(Guess("tears", ["gray", "yellow", "green", "gray", "gray"], false)) == BottomMessage
  {
    assert Points("green") == 2 && Points("yellow") == 1 && Points("gray") == 0;
    ScoreOfFive("green", "green", "green", "green", "green");
    ScoreOfFive("green", "yellow", "gray", "gray", "gray");
    ScoreOfFive("green", "green", "yellow", "gray", "gray");
    ScoreOfFive("gray", "yellow", "green", "gray", "gray");
  }

  /** getGuessComment: the win message for a winning guess; otherwise the score
      is summed mark by mark in a loop and the tier chosen from it. */
  method GetGuessComment(latest: Guess) returns (comment: string)
    ensures latest.isMatch ==> comment == WinMessage
    ensures !latest.isMatch ==> comment == Tier(CountedScore(latest.matches))
    ensures comment == Comment(latest)
  {
    if latest.isMatch {
      return WinMessage;
    }
    var score := 0;
    var i := 0;
    while i < |latest.matches|
      invariant 0 <= i <= |latest.matches|
      invariant score == Score(latest.matches[..i])
    {
      var mark := latest.matches[i];
      assert latest.matches[..i + 1] == latest.matches[..i] + [mark];
      ScoreAppend(latest.matches[..i], mark);
      if mark == GreenMark {
        score := score + 2;
      } else if mark == YellowMark {
        score := score + 1;
      }
      i := i + 1;
    }
    assert latest.matches[..i] == latest.matches;
    ScoreCountsMarks(latest.matches);
    if score > 6 {
      comment := TopMessage;
    } else if score > 3 {
      comment := MiddleMessage;
    } else {
      comment := BottomMessage;
    }
  }
}
