/**
 * What the score computed by the table means. An alignment of two prefixes
 * is a sequence of columns, each pairing one symbol of each sequence or one
 * symbol with a gap; the table's Score is the largest value any alignment
 * reaches, and it behaves as a global alignment score should.
 */
module AlignmentProperties {
  import opened CompareSequences

  /**
   * One column of an alignment, read backwards from the bottom-right cell:
   * Diagonal pairs s1[r-1] with s2[c-1], Left puts s2[c-1] against a gap and
   * Up puts s1[r-1] against a gap.
   */
  datatype Move = Diagonal | Left | Up

  /** `moves` is an alignment of s1[..r] with s2[..c]. */
  ghost predicate Aligns(r: nat, c: nat, moves: seq<Move>)
    decreases |moves|
  {
    if moves == [] then r == 0 && c == 0
    else
      var rest := moves[..|moves| - 1];
      match moves[|moves| - 1]
      case Diagonal => r > 0 && c > 0 && Aligns(r - 1, c - 1, rest)
      case Left => c > 0 && Aligns(r, c - 1, rest)
      case Up => r > 0 && Aligns(r - 1, c, rest)
  }

  /** The value of an alignment: the sum of its columns' scores. */
  ghost function AlignmentValue(s1: string, s2: string, p: Scores, r: nat, c: nat, moves: seq<Move>): int
    requires r <= |s1| && c <= |s2| && Aligns(r, c, moves)
    decreases |moves|
  {
    if moves == [] then 0
    else
      var rest := moves[..|moves| - 1];
      match moves[|moves| - 1]
      case Diagonal => AlignmentValue(s1, s2, p, r - 1, c - 1, rest) + Substitution(p, s1[r - 1], s2[c - 1])
      case Left => AlignmentValue(s1, s2, p, r, c - 1, rest) + p.gapScore
      case Up => AlignmentValue(s1, s2, p, r - 1, c, rest) + p.gapScore
  }

  /** No alignment of two prefixes is worth more than their table score. */
  lemma {:induction false} NoAlignmentBeatsScore(s1: string, s2: string, p: Scores, r: nat, c: nat, moves: seq<Move>)
    requires r <= |s1| && c <= |s2| && Aligns(r, c, moves)
    ensures AlignmentValue(s1, s2, p, r, c, moves) <= Score(s1, s2, p, r, c)
    decreases |moves|
  {
    if moves != [] {
      var rest := moves[..|moves| - 1];
      match moves[|moves| - 1]
      case Diagonal =>
        NoAlignmentBeatsScore(s1, s2, p, r - 1, c - 1, rest);
      case Left =>
        NoAlignmentBeatsScore(s1, s2, p, r, c - 1, rest);
        if r == 0 {
          assert p.gapScore * c == p.gapScore * (c - 1) + p.gapScore;
        }
      case Up =>
        NoAlignmentBeatsScore(s1, s2, p, r - 1, c, rest);
        if c == 0 {
          assert p.gapScore * r == p.gapScore * (r - 1) + p.gapScore;
        }
    }
  }

  /** An alignment that reaches the table score, found by retracing the recurrence. */
  ghost function OptimalAlignment(s1: string, s2: string, p: Scores, r: nat, c: nat): (moves: seq<Move>)
    requires r <= |s1| && c <= |s2|
    ensures Aligns(r, c, moves)
    ensures AlignmentValue(s1, s2, p, r, c, moves) == Score(s1, s2, p, r, c)
    decreases r + c
  {
    if r == 0 && c == 0 then []
    else if r == 0 then
      var moves := OptimalAlignment(s1, s2, p, 0, c - 1) + [Left];
      assert moves[..|moves| - 1] == OptimalAlignment(s1, s2, p, 0, c - 1);
      assert p.gapScore * c == p.gapScore * (c - 1) + p.gapScore;
      moves
    else if c == 0 then
      var moves := OptimalAlignment(s1, s2, p, r - 1, 0) + [Up];
      assert moves[..|moves| - 1] == OptimalAlignment(s1, s2, p, r - 1, 0);
      assert p.gapScore * r == p.gapScore * (r - 1) + p.gapScore;
      moves
    else if Score(s1, s2, p, r, c) == Score(s1, s2, p, r - 1, c - 1) + Substitution(p, s1[r - 1], s2[c - 1]) then
      var moves := OptimalAlignment(s1, s2, p, r - 1, c - 1) + [Diagonal];
      assert moves[..|moves| - 1] == OptimalAlignment(s1, s2, p, r - 1, c - 1);
      moves
    else if Score(s1, s2, p, r, c) == Score(s1, s2, p, r, c - 1) + p.gapScore then
      var moves := OptimalAlignment(s1, s2, p, r, c - 1) + [Left];
      assert moves[..|moves| - 1] == OptimalAlignment(s1, s2, p, r, c - 1);
      moves
    else
      var moves := OptimalAlignment(s1, s2, p, r - 1, c) + [Up];
      assert moves[..|moves| - 1] == OptimalAlignment(s1, s2, p, r - 1, c);
      moves
  }

  /** The table score is the largest value an alignment of the two prefixes reaches. */
  lemma ScoreIsOptimal(s1: string, s2: string, p: Scores, r: nat, c: nat)
    requires r <= |s1| && c <= |s2|
    ensures forall moves :: Aligns(r, c, moves) ==> AlignmentValue(s1, s2, p, r, c, moves) <= Score(s1, s2, p, r, c)
    ensures exists moves :: Aligns(r, c, moves) && AlignmentValue(s1, s2, p, r, c, moves) == Score(s1, s2, p, r, c)
  {
    forall moves | Aligns(r, c, moves)
      ensures AlignmentValue(s1, s2, p, r, c, moves) <= Score(s1, s2, p, r, c)
    {
      NoAlignmentBeatsScore(s1, s2, p, r, c, moves);
    }
    var best := OptimalAlignment(s1, s2, p, r, c);
  }

  /** Swapping the two sequences transposes the table. */
  lemma {:induction false} ScoreSymmetric(s1: string, s2: string, p: Scores, r: nat, c: nat)
    requires r <= |s1| && c <= |s2|
    ensures Score(s1, s2, p, r, c) == Score(s2, s1, p, c, r)
    decreases r + c
  {
    if r > 0 && c > 0 {
      ScoreSymmetric(s1, s2, p, r - 1, c - 1);
      ScoreSymmetric(s1, s2, p, r, c - 1);
      ScoreSymmetric(s1, s2, p, r - 1, c);
    }
  }

  /** A harsher gap penalty never raises a score. */
  lemma {:induction false} ScoreMonotoneInGap(s1: string, s2: string, p: Scores, q: Scores, r: nat, c: nat)
    requires r <= |s1| && c <= |s2|
    requires p.matchScore == q.matchScore && p.mismatchScore == q.mismatchScore
    requires p.gapScore <= q.gapScore
    ensures Score(s1, s2, p, r, c) <= Score(s1, s2, q, r, c)
    decreases r + c
  {
    if r == 0 {
      MultiplyMonotone(p.gapScore, q.gapScore, c);
    } else if c == 0 {
      MultiplyMonotone(p.gapScore, q.gapScore, r);
    } else {
      ScoreMonotoneInGap(s1, s2, p, q, r - 1, c - 1);
      ScoreMonotoneInGap(s1, s2, p, q, r, c - 1);
      ScoreMonotoneInGap(s1, s2, p, q, r - 1, c);
      assert Substitution(p, s1[r - 1], s2[c - 1]) == Substitution(q, s1[r - 1], s2[c - 1]);
      Max3Monotone(Score(s1, s2, p, r - 1, c - 1) + Substitution(p, s1[r - 1], s2[c - 1]),
                   Score(s1, s2, p, r, c - 1) + p.gapScore,
                   Score(s1, s2, p, r - 1, c) + p.gapScore,
                   Score(s1, s2, q, r - 1, c - 1) + Substitution(q, s1[r - 1], s2[c - 1]),
                   Score(s1, s2, q, r, c - 1) + q.gapScore,
                   Score(s1, s2, q, r - 1, c) + q.gapScore);
    }
  }

  lemma Max3Monotone(a: int, b: int, c: int, a': int, b': int, c': int)
    requires a <= a' && b <= b' && c <= c'
    ensures Max3(a, b, c) <= Max3(a', b', c')
  {
  }

  lemma MultiplyMonotone(a: int, b: int, n: nat)
    requires a <= b
    ensures a * n <= b * n
  {
  }

  function Min(a: int, b: int): int { if a <= b then a else b }

  function Distance(a: int, b: int): nat { if a <= b then b - a else a - b }

  /** The score of pairing min(r, c) symbols as matches and the rest against gaps. */
  function MatchBound(p: Scores, r: nat, c: nat): int
  {
    p.matchScore * Min(r, c) + p.gapScore * Distance(r, c)
  }

  /** How MatchBound changes along each of the three moves. */
  lemma MatchBoundSteps(p: Scores, r: nat, c: nat)
    requires r > 0 && c > 0 && 2 * p.gapScore <= p.matchScore
    ensures MatchBound(p, r - 1, c - 1) + p.matchScore == MatchBound(p, r, c)
    ensures MatchBound(p, r, c - 1) + p.gapScore <= MatchBound(p, r, c)
    ensures MatchBound(p, r - 1, c) + p.gapScore <= MatchBound(p, r, c)
  {
    var m, g := p.matchScore, p.gapScore;
    if c <= r {
      assert MatchBound(p, r, c - 1) == m * (c - 1) + g * (r - c + 1);
      assert MatchBound(p, r, c) == m * c + g * (r - c);
    } else {
      assert MatchBound(p, r, c - 1) == m * r + g * (c - 1 - r);
      assert MatchBound(p, r, c) == m * r + g * (c - r);
    }
    if r <= c {
      assert MatchBound(p, r - 1, c) == m * (r - 1) + g * (c - r + 1);
      assert MatchBound(p, r, c) == m * r + g * (c - r);
    } else {
      assert MatchBound(p, r - 1, c) == m * c + g * (r - 1 - c);
      assert MatchBound(p, r, c) == m * c + g * (r - c);
    }
  }

  /**
   * When a match is worth at least a mismatch and at least two gaps, no
   * alignment of s1[..r] with s2[..c] beats pairing min(r, c) symbols as
   * matches and putting the rest against gaps.
   */
  lemma {:induction false} ScoreUpperBound(s1: string, s2: string, p: Scores, r: nat, c: nat)
    requires r <= |s1| && c <= |s2|
    requires p.mismatchScore <= p.matchScore && 2 * p.gapScore <= p.matchScore
    ensures Score(s1, s2, p, r, c) <= MatchBound(p, r, c)
    decreases r + c
  {
    if r > 0 && c > 0 {
      ScoreUpperBound(s1, s2, p, r - 1, c - 1);
      ScoreUpperBound(s1, s2, p, r, c - 1);
      ScoreUpperBound(s1, s2, p, r - 1, c);
      UpperBoundStep(p, r, c, Score(s1, s2, p, r - 1, c - 1), Score(s1, s2, p, r, c - 1),
                     Score(s1, s2, p, r - 1, c), Substitution(p, s1[r - 1], s2[c - 1]));
    }
  }

  /** One step of the recurrence keeps every cell within the bound. */
  lemma UpperBoundStep(p: Scores, r: nat, c: nat, diagonal: int, left: int, up: int, substitution: int)
    requires r > 0 && c > 0 && 2 * p.gapScore <= p.matchScore && substitution <= p.matchScore
    requires diagonal <= MatchBound(p, r - 1, c - 1)
    requires left <= MatchBound(p, r, c - 1)
    requires up <= MatchBound(p, r - 1, c)
    ensures Max3(diagonal + substitution, left + p.gapScore, up + p.gapScore) <= MatchBound(p, r, c)
  {
    MatchBoundSteps(p, r, c);
  }

  /** Pairing every symbol with itself is worth one match per symbol. */
  lemma {:induction false} SelfAlignmentLowerBound(s: string, p: Scores, n: nat)
    requires n <= |s|
    ensures Score(s, s, p, n, n) >= p.matchScore * n
  {
    if n > 0 {
      SelfAlignmentLowerBound(s, p, n - 1);
      assert p.matchScore * n == p.matchScore * (n - 1) + p.matchScore;
    }
  }

  /**
   * Aligning a sequence with itself scores one match per symbol when a match
   * is worth at least a mismatch and at least two gaps.
   */
  lemma SelfAlignment(s: string, p: Scores)
    requires p.mismatchScore <= p.matchScore && 2 * p.gapScore <= p.matchScore
    ensures Score(s, s, p, |s|, |s|) == p.matchScore * |s|
  {
    SelfAlignmentLowerBound(s, p, |s|);
    ScoreUpperBound(s, s, p, |s|, |s|);
  }

  /** Aligning a sequence with the empty sequence costs one gap per symbol, either way round. */
  lemma AgainstEmpty(s: string, p: Scores)
    ensures Score(s, "", p, |s|, 0) == p.gapScore * |s|
    ensures Score("", s, p, 0, |s|) == p.gapScore * |s|
  {
  }

  /** Two concrete comparisons: "AAAA" with itself, and "" with "ACGT". */
  lemma SmallExamples()
    ensures Score("AAAA", "AAAA", Scores(2, -1, -2), 4, 4) == 8
    ensures Score("", "ACGT", Scores(1, -1, -1), 0, 4) == -4
  {
    SelfAlignment("AAAA", Scores(2, -1, -2));
  }

  /**
   * One step of the recurrence with the three neighbours' values given:
   * the cell is the best of the three candidates built from them.
   */
  lemma ScoreCell(s1: string, s2: string, p: Scores, r: nat, c: nat, diagonal: int, left: int, up: int, v: int)
    requires 0 < r <= |s1| && 0 < c <= |s2|
    requires Score(s1, s2, p, r - 1, c - 1) == diagonal
    requires Score(s1, s2, p, r, c - 1) == left
    requires Score(s1, s2, p, r - 1, c) == up
    requires v == Max3(diagonal + Substitution(p, s1[r - 1], s2[c - 1]), left + p.gapScore, up + p.gapScore)
    ensures Score(s1, s2, p, r, c) == v
  {
  }

  /**
   * The strings and scores built into `main`: the bottom-right cell ends up 0.
   * The table is filled row by row, each cell from its three neighbours.
   */
  lemma TextbookExample(s1: string, s2: string, p: Scores)
    requires s1 == "GCATGCU" && s2 == "GATTACA" && p == Scores(1, -1, -1)
    ensures Score(s1, s2, p, 7, 7) == 0
  {
    TextbookRow1(s1, s2, p);
    TextbookRow2(s1, s2, p);
    TextbookRow3(s1, s2, p);
    TextbookRow4(s1, s2, p);
    TextbookRow5(s1, s2, p);
    TextbookRow6(s1, s2, p);
    TextbookRow7(s1, s2, p);
  }

  /** Row 1 of the table for the strings and scores built into `main`. */
  lemma TextbookRow1(s1: string, s2: string, p: Scores)
    requires s1 == "GCATGCU" && s2 == "GATTACA" && p == Scores(1, -1, -1)
    ensures Score(s1, s2, p, 1, 1) == 1 && Score(s1, s2, p, 1, 2) == 0 && Score(s1, s2, p, 1, 3) == -1 && Score(s1, s2, p, 1, 4) == -2 && Score(s1, s2, p, 1, 5) == -3 && Score(s1, s2, p, 1, 6) == -4 && Score(s1, s2, p, 1, 7) == -5
  {
    ScoreCell(s1, s2, p, 1, 1, 0, -1, -1, 1);
    ScoreCell(s1, s2, p, 1, 2, -1, 1, -2, 0);
    ScoreCell(s1, s2, p, 1, 3, -2, 0, -3, -1);
    ScoreCell(s1, s2, p, 1, 4, -3, -1, -4, -2);
    ScoreCell(s1, s2, p, 1, 5, -4, -2, -5, -3);
    ScoreCell(s1, s2, p, 1, 6, -5, -3, -6, -4);
    ScoreCell(s1, s2, p, 1, 7, -6, -4, -7, -5);
  }

  /** Row 2 of the table for the strings and scores built into `main`. */
  lemma TextbookRow2(s1: string, s2: string, p: Scores)
    requires s1 == "GCATGCU" && s2 == "GATTACA" && p == Scores(1, -1, -1)
    requires Score(s1, s2, p, 1, 1) == 1 && Score(s1, s2, p, 1, 2) == 0 && Score(s1, s2, p, 1, 3) == -1 && Score(s1, s2, p, 1, 4) == -2 && Score(s1, s2, p, 1, 5) == -3 && Score(s1, s2, p, 1, 6) == -4 && Score(s1, s2, p, 1, 7) == -5
    ensures Score(s1, s2, p, 2, 1) == 0 && Score(s1, s2, p, 2, 2) == 0 && Score(s1, s2, p, 2, 3) == -1 && Score(s1, s2, p, 2, 4) == -2 && Score(s1, s2, p, 2, 5) == -3 && Score(s1, s2, p, 2, 6) == -2 && Score(s1, s2, p, 2, 7) == -3
  {
    ScoreCell(s1, s2, p, 2, 1, -1, -2, 1, 0);
    ScoreCell(s1, s2, p, 2, 2, 1, 0, 0, 0);
    ScoreCell(s1, s2, p, 2, 3, 0, 0, -1, -1);
    ScoreCell(s1, s2, p, 2, 4, -1, -1, -2, -2);
    ScoreCell(s1, s2, p, 2, 5, -2, -2, -3, -3);
    ScoreCell(s1, s2, p, 2, 6, -3, -3, -4, -2);
    ScoreCell(s1, s2, p, 2, 7, -4, -2, -5, -3);
  }

  /** Row 3 of the table for the strings and scores built into `main`. */
  lemma TextbookRow3(s1: string, s2: string, p: Scores)
    requires s1 == "GCATGCU" && s2 == "GATTACA" && p == Scores(1, -1, -1)
    requires Score(s1, s2, p, 1, 1) == 1 && Score(s1, s2, p, 1, 2) == 0 && Score(s1, s2, p, 1, 3) == -1 && Score(s1, s2, p, 1, 4) == -2 && Score(s1, s2, p, 1, 5) == -3 && Score(s1, s2, p, 1, 6) == -4 && Score(s1, s2, p, 1, 7) == -5
    requires Score(s1, s2, p, 2, 1) == 0 && Score(s1, s2, p, 2, 2) == 0 && Score(s1, s2, p, 2, 3) == -1 && Score(s1, s2, p, 2, 4) == -2 && Score(s1, s2, p, 2, 5) == -3 && Score(s1, s2, p, 2, 6) == -2 && Score(s1, s2, p, 2, 7) == -3
    ensures Score(s1, s2, p, 3, 1) == -1 && Score(s1, s2, p, 3, 2) == 1 && Score(s1, s2, p, 3, 3) == 0 && Score(s1, s2, p, 3, 4) == -1 && Score(s1, s2, p, 3, 5) == -1 && Score(s1, s2, p, 3, 6) == -2 && Score(s1, s2, p, 3, 7) == -1
  {
    ScoreCell(s1, s2, p, 3, 1, -2, -3, 0, -1);
    ScoreCell(s1, s2, p, 3, 2, 0, -1, 0, 1);
    ScoreCell(s1, s2, p, 3, 3, 0, 1, -1, 0);
    ScoreCell(s1, s2, p, 3, 4, -1, 0, -2, -1);
    ScoreCell(s1, s2, p, 3, 5, -2, -1, -3, -1);
    ScoreCell(s1, s2, p, 3, 6, -3, -1, -2, -2);
    ScoreCell(s1, s2, p, 3, 7, -2, -2, -3, -1);
  }

  /** Row 4 of the table for the strings and scores built into `main`. */
  lemma TextbookRow4(s1: string, s2: string, p: Scores)
    requires s1 == "GCATGCU" && s2 == "GATTACA" && p == Scores(1, -1, -1)
    requires Score(s1, s2, p, 1, 1) == 1 && Score(s1, s2, p, 1, 2) == 0 && Score(s1, s2, p, 1, 3) == -1 && Score(s1, s2, p, 1, 4) == -2 && Score(s1, s2, p, 1, 5) == -3 && Score(s1, s2, p, 1, 6) == -4 && Score(s1, s2, p, 1, 7) == -5
    requires Score(s1, s2, p, 2, 1) == 0 && Score(s1, s2, p, 2, 2) == 0 && Score(s1, s2, p, 2, 3) == -1 && Score(s1, s2, p, 2, 4) == -2 && Score(s1, s2, p, 2, 5) == -3 && Score(s1, s2, p, 2, 6) == -2 && Score(s1, s2, p, 2, 7) == -3
    requires Score(s1, s2, p, 3, 1) == -1 && Score(s1, s2, p, 3, 2) == 1 && Score(s1, s2, p, 3, 3) == 0 && Score(s1, s2, p, 3, 4) == -1 && Score(s1, s2, p, 3, 5) == -1 && Score(s1, s2, p, 3, 6) == -2 && Score(s1, s2, p, 3, 7) == -1
    ensures Score(s1, s2, p, 4, 1) == -2 && Score(s1, s2, p, 4, 2) == 0 && Score(s1, s2, p, 4, 3) == 2 && Score(s1, s2, p, 4, 4) == 1 && Score(s1, s2, p, 4, 5) == 0 && Score(s1, s2, p, 4, 6) == -1 && Score(s1, s2, p, 4, 7) == -2
  {
    ScoreCell(s1, s2, p, 4, 1, -3, -4, -1, -2);
    ScoreCell(s1, s2, p, 4, 2, -1, -2, 1, 0);
    ScoreCell(s1, s2, p, 4, 3, 1, 0, 0, 2);
    ScoreCell(s1, s2, p, 4, 4, 0, 2, -1, 1);
    ScoreCell(s1, s2, p, 4, 5, -1, 1, -1, 0);
    ScoreCell(s1, s2, p, 4, 6, -1, 0, -2, -1);
    ScoreCell(s1, s2, p, 4, 7, -2, -1, -1, -2);
  }

  /** Row 5 of the table for the strings and scores built into `main`. */
  lemma TextbookRow5(s1: string, s2: string, p: Scores)
    requires s1 == "GCATGCU" && s2 == "GATTACA" && p == Scores(1, -1, -1)
    requires Score(s1, s2, p, 1, 1) == 1 && Score(s1, s2, p, 1, 2) == 0 && Score(s1, s2, p, 1, 3) == -1 && Score(s1, s2, p, 1, 4) == -2 && Score(s1, s2, p, 1, 5) == -3 && Score(s1, s2, p, 1, 6) == -4 && Score(s1, s2, p, 1, 7) == -5
    requires Score(s1, s2, p, 2, 1) == 0 && Score(s1, s2, p, 2, 2) == 0 && Score(s1, s2, p, 2, 3) == -1 && Score(s1, s2, p, 2, 4) == -2 && Score(s1, s2, p, 2, 5) == -3 && Score(s1, s2, p, 2, 6) == -2 && Score(s1, s2, p, 2, 7) == -3
    requires Score(s1, s2, p, 3, 1) == -1 && Score(s1, s2, p, 3, 2) == 1 && Score(s1, s2, p, 3, 3) == 0 && Score(s1, s2, p, 3, 4) == -1 && Score(s1, s2, p, 3, 5) == -1 && Score(s1, s2, p, 3, 6) == -2 && Score(s1, s2, p, 3, 7) == -1
    requires Score(s1, s2, p, 4, 1) == -2 && Score(s1, s2, p, 4, 2) == 0 && Score(s1, s2, p, 4, 3) == 2 && Score(s1, s2, p, 4, 4) == 1 && Score(s1, s2, p, 4, 5) == 0 && Score(s1, s2, p, 4, 6) == -1 && Score(s1, s2, p, 4, 7) == -2
    ensures Score(s1, s2, p, 5, 1) == -3 && Score(s1, s2, p, 5, 2) == -1 && Score(s1, s2, p, 5, 3) == 1 && Score(s1, s2, p, 5, 4) == 1 && Score(s1, s2, p, 5, 5) == 0 && Score(s1, s2, p, 5, 6) == -1 && Score(s1, s2, p, 5, 7) == -2
  {
    ScoreCell(s1, s2, p, 5, 1, -4, -5, -2, -3);
    ScoreCell(s1, s2, p, 5, 2, -2, -3, 0, -1);
    ScoreCell(s1, s2, p, 5, 3, 0, -1, 2, 1);
    ScoreCell(s1, s2, p, 5, 4, 2, 1, 1, 1);
    ScoreCell(s1, s2, p, 5, 5, 1, 1, 0, 0);
    ScoreCell(s1, s2, p, 5, 6, 0, 0, -1, -1);
    ScoreCell(s1, s2, p, 5, 7, -1, -1, -2, -2);
  }

  /** Row 6 of the table for the strings and scores built into `main`. */
  lemma TextbookRow6(s1: string, s2: string, p: Scores)
    requires s1 == "GCATGCU" && s2 == "GATTACA" && p == Scores(1, -1, -1)
    requires Score(s1, s2, p, 1, 1) == 1 && Score(s1, s2, p, 1, 2) == 0 && Score(s1, s2, p, 1, 3) == -1 && Score(s1, s2, p, 1, 4) == -2 && Score(s1, s2, p, 1, 5) == -3 && Score(s1, s2, p, 1, 6) == -4 && Score(s1, s2, p, 1, 7) == -5
    requires Score(s1, s2, p, 2, 1) == 0 && Score(s1, s2, p, 2, 2) == 0 && Score(s1, s2, p, 2, 3) == -1 && Score(s1, s2, p, 2, 4) == -2 && Score(s1, s2, p, 2, 5) == -3 && Score(s1, s2, p, 2, 6) == -2 && Score(s1, s2, p, 2, 7) == -3
    requires Score(s1, s2, p, 3, 1) == -1 && Score(s1, s2, p, 3, 2) == 1 && Score(s1, s2, p, 3, 3) == 0 && Score(s1, s2, p, 3, 4) == -1 && Score(s1, s2, p, 3, 5) == -1 && Score(s1, s2, p, 3, 6) == -2 && Score(s1, s2, p, 3, 7) == -1
    requires Score(s1, s2, p, 4, 1) == -2 && Score(s1, s2, p, 4, 2) == 0 && Score(s1, s2, p, 4, 3) == 2 && Score(s1, s2, p, 4, 4) == 1 && Score(s1, s2, p, 4, 5) == 0 && Score(s1, s2, p, 4, 6) == -1 && Score(s1, s2, p, 4, 7) == -2
    requires Score(s1, s2, p, 5, 1) == -3 && Score(s1, s2, p, 5, 2) == -1 && Score(s1, s2, p, 5, 3) == 1 && Score(s1, s2, p, 5, 4) == 1 && Score(s1, s2, p, 5, 5) == 0 && Score(s1, s2, p, 5, 6) == -1 && Score(s1, s2, p, 5, 7) == -2
    ensures Score(s1, s2, p, 6, 1) == -4 && Score(s1, s2, p, 6, 2) == -2 && Score(s1, s2, p, 6, 3) == 0 && Score(s1, s2, p, 6, 4) == 0 && Score(s1, s2, p, 6, 5) == 0 && Score(s1, s2, p, 6, 6) == 1 && Score(s1, s2, p, 6, 7) == 0
  {
    ScoreCell(s1, s2, p, 6, 1, -5, -6, -3, -4);
    ScoreCell(s1, s2, p, 6, 2, -3, -4, -1, -2);
    ScoreCell(s1, s2, p, 6, 3, -1, -2, 1, 0);
    ScoreCell(s1, s2, p, 6, 4, 1, 0, 1, 0);
    ScoreCell(s1, s2, p, 6, 5, 1, 0, 0, 0);
    ScoreCell(s1, s2, p, 6, 6, 0, 0, -1, 1);
    ScoreCell(s1, s2, p, 6, 7, -1, 1, -2, 0);
  }

  /** Row 7 of the table for the strings and scores built into `main`. */
  lemma TextbookRow7(s1: string, s2: string, p: Scores)
    requires s1 == "GCATGCU" && s2 == "GATTACA" && p == Scores(1, -1, -1)
    requires Score(s1, s2, p, 1, 1) == 1 && Score(s1, s2, p, 1, 2) == 0 && Score(s1, s2, p, 1, 3) == -1 && Score(s1, s2, p, 1, 4) == -2 && Score(s1, s2, p, 1, 5) == -3 && Score(s1, s2, p, 1, 6) == -4 && Score(s1, s2, p, 1, 7) == -5
    requires Score(s1, s2, p, 2, 1) == 0 && Score(s1, s2, p, 2, 2) == 0 && Score(s1, s2, p, 2, 3) == -1 && Score(s1, s2, p, 2, 4) == -2 && Score(s1, s2, p, 2, 5) == -3 && Score(s1, s2, p, 2, 6) == -2 && Score(s1, s2, p, 2, 7) == -3
    requires Score(s1, s2, p, 3, 1) == -1 && Score(s1, s2, p, 3, 2) == 1 && Score(s1, s2, p, 3, 3) == 0 && Score(s1, s2, p, 3, 4) == -1 && Score(s1, s2, p, 3, 5) == -1 && Score(s1, s2, p, 3, 6) == -2 && Score(s1, s2, p, 3, 7) == -1
    requires Score(s1, s2, p, 4, 1) == -2 && Score(s1, s2, p, 4, 2) == 0 && Score(s1, s2, p, 4, 3) == 2 && Score(s1, s2, p, 4, 4) == 1 && Score(s1, s2, p, 4, 5) == 0 && Score(s1, s2, p, 4, 6) == -1 && Score(s1, s2, p, 4, 7) == -2
    requires Score(s1, s2, p, 5, 1) == -3 && Score(s1, s2, p, 5, 2) == -1 && Score(s1, s2, p, 5, 3) == 1 && Score(s1, s2, p, 5, 4) == 1 && Score(s1, s2, p, 5, 5) == 0 && Score(s1, s2, p, 5, 6) == -1 && Score(s1, s2, p, 5, 7) == -2
    requires Score(s1, s2, p, 6, 1) == -4 && Score(s1, s2, p, 6, 2) == -2 && Score(s1, s2, p, 6, 3) == 0 && Score(s1, s2, p, 6, 4) == 0 && Score(s1, s2, p, 6, 5) == 0 && Score(s1, s2, p, 6, 6) == 1 && Score(s1, s2, p, 6, 7) == 0
    ensures Score(s1, s2, p, 7, 1) == -5 && Score(s1, s2, p, 7, 2) == -3 && Score(s1, s2, p, 7, 3) == -1 && Score(s1, s2, p, 7, 4) == -1 && Score(s1, s2, p, 7, 5) == -1 && Score(s1, s2, p, 7, 6) == 0 && Score(s1, s2, p, 7, 7) == 0
  {
    ScoreCell(s1, s2, p, 7, 1, -6, -7, -4, -5);
    ScoreCell(s1, s2, p, 7, 2, -4, -5, -2, -3);
    ScoreCell(s1, s2, p, 7, 3, -2, -3, 0, -1);
    ScoreCell(s1, s2, p, 7, 4, 0, -1, 0, -1);
    ScoreCell(s1, s2, p, 7, 5, 0, -1, 0, -1);
    ScoreCell(s1, s2, p, 7, 6, 0, -1, 1, 0);
    ScoreCell(s1, s2, p, 7, 7, 1, 0, 0, 0);
  }
}
