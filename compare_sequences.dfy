/**
 * The global alignment score table of ex2/CompareSequences.c: a grid of
 * cells with a value and an "is initialized" flag, filled by boundary
 * initialization and then by a memoised recursive descent from the
 * bottom-right cell.
 */
module CompareSequences {

  /** One table entry; the never-read back-pointer fields are not modelled. */
  datatype Cell = Cell(value: int, isInitialized: bool)

  datatype Option<T> = None | Some(value: T)

  /** The three scoring parameters, constant over one run. */
  datatype Scores = Scores(matchScore: int, mismatchScore: int, gapScore: int)

  /** A block handed out by the allocator: the row index or one row. */
  datatype Block = RowIndex | Row(row: nat)

  /** What the allocation in `main` ends with. */
  datatype Allocation = Allocated(table: array2<Cell>) | AllocationFailed(freed: seq<Block>)

  function Max3(a: int, b: int, c: int): int
  {
    if a >= b && a >= c then a else if b >= c then b else c
  }

  /** The score the diagonal step adds for aligning symbol `x` with symbol `y`. */
  function Substitution(p: Scores, x: char, y: char): int
  {
    if x == y then p.matchScore else p.mismatchScore
  }

  /**
   * The optimal global alignment score of the prefixes s1[..r] and s2[..c]:
   * the reference semantics the table is checked against.
   */
  function Score(s1: string, s2: string, p: Scores, r: nat, c: nat): int
    requires r <= |s1| && c <= |s2|
    decreases r + c
  {
    if r == 0 then p.gapScore * c
    else if c == 0 then p.gapScore * r
    else Max3(Score(s1, s2, p, r - 1, c - 1) + Substitution(p, s1[r - 1], s2[c - 1]),
              Score(s1, s2, p, r, c - 1) + p.gapScore,
              Score(s1, s2, p, r - 1, c) + p.gapScore)
  }

  /**
   * The nested comparisons that pick the new cell's value: whatever the
   * tie-break, the result is the largest of the three candidates.
   */
  function Select(matchValue: int, firstStrGapValue: int, secondStrGapValue: int): (v: int)
    ensures v >= matchValue && v >= firstStrGapValue && v >= secondStrGapValue
    ensures v == matchValue || v == firstStrGapValue || v == secondStrGapValue
    ensures v == Max3(matchValue, firstStrGapValue, secondStrGapValue)
  {
    if matchValue > firstStrGapValue then
      if matchValue > secondStrGapValue then matchValue else secondStrGapValue
    else
      if firstStrGapValue > secondStrGapValue then firstStrGapValue else secondStrGapValue
  }

  // ---------------------------------------------------------------------
  // Table invariants

  /** The table has one row per prefix of s1 and one column per prefix of s2. */
  ghost predicate Shaped(t: array2<Cell>, s1: string, s2: string)
  {
    t.Length0 == |s1| + 1 && t.Length1 == |s2| + 1
  }

  /** Every cell of row 0 and of column 0 is initialized. */
  ghost predicate Bordered(t: array2<Cell>)
    reads t
  {
    && (forall r :: 0 <= r < t.Length0 && 0 < t.Length1 ==> t[r, 0].isInitialized)
    && (forall c :: 0 <= c < t.Length1 && 0 < t.Length0 ==> t[0, c].isInitialized)
  }

  /** Every cell (r', c') with r' <= r and c' <= c is initialized. */
  ghost predicate Done(t: array2<Cell>, r: int, c: int)
    reads t
  {
    forall r', c' :: 0 <= r' <= r && 0 <= c' <= c && r' < t.Length0 && c' < t.Length1 ==>
      t[r', c'].isInitialized
  }

  /** An initialized cell has all the cells it depends on, directly or not, initialized. */
  ghost predicate DownClosed(t: array2<Cell>)
    reads t
  {
    forall r, c :: 0 <= r < t.Length0 && 0 <= c < t.Length1 && t[r, c].isInitialized ==> Done(t, r, c)
  }

  /** Every initialized cell holds the optimal score of its two prefixes. */
  ghost predicate Sound(t: array2<Cell>, s1: string, s2: string, p: Scores)
    reads t
  {
    Shaped(t, s1, s2) &&
    forall r, c :: 0 <= r < t.Length0 && 0 <= c < t.Length1 && t[r, c].isInitialized ==>
      t[r, c].value == Score(s1, s2, p, r, c)
  }

  ghost predicate Valid(t: array2<Cell>, s1: string, s2: string, p: Scores)
    reads t
  {
    Shaped(t, s1, s2) && Bordered(t) && DownClosed(t) && Sound(t, s1, s2, p)
  }

  // ---------------------------------------------------------------------
  // Allocation and release

  /** The non-null rows among the first n row slots, in ascending order. */
  function LiveRows(slots: seq<bool>, n: nat): (rows: seq<Block>)
    requires n <= |slots|
    ensures forall b :: b in rows <==> b.Row? && b.row < n && slots[b.row]
    ensures forall k :: 0 <= k < |rows| ==> rows[k].Row?
    ensures forall k, k' :: 0 <= k < k' < |rows| ==> rows[k].row < rows[k'].row
  {
    if n == 0 then []
    else if slots[n - 1] then LiveRows(slots, n - 1) + [Row(n - 1)]
    else LiveRows(slots, n - 1)
  }

  /**
   * `cleanup`: nothing when the row index is null, otherwise every non-null
   * row among the first `rows` slots and then the row index. The result is
   * the sequence of blocks handed to `free`.
   */
  method Cleanup(table: Option<seq<bool>>, rows: int) returns (freed: seq<Block>)
    requires table.Some? ==> rows <= |table.value|
    ensures table.None? ==> freed == []
    ensures table.Some? ==> freed == LiveRows(table.value, if rows < 0 then 0 else rows) + [RowIndex]
  {
    freed := [];
    if table.None? {
      return;
    }
    var slots := table.value;
    var i := 0;
    while i < rows
      invariant 0 <= i <= (if rows < 0 then 0 else rows)
      invariant freed == LiveRows(slots, i)
    {
      if slots[i] {
        freed := freed + [Row(i)];
      }
      i := i + 1;
    }
    freed := freed + [RowIndex];
  }

  /** Rows 0 .. n-1, in ascending order. */
  function Rows(n: nat): seq<Block>
  {
    if n == 0 then [] else Rows(n - 1) + [Row(n - 1)]
  }

  /** The blocks in use once the row index and rows 0 .. n-1 are allocated. */
  function InUse(n: nat): seq<Block>
  {
    [RowIndex] + Rows(n)
  }

  /**
   * `cleanup` on a row index whose first `live` slots hold rows and
   * whose other slots are null: exactly the blocks in use are released.
   */
  method ReleaseTable(slots: seq<bool>, live: nat) returns (freed: seq<Block>)
    requires live <= |slots|
    requires forall k :: 0 <= k < |slots| ==> slots[k] == (k < live)
    ensures multiset(freed) == multiset(InUse(live))
  {
    LiveRowsPrefix(slots, live);
    freed := Cleanup(Some(slots), |slots|);
  }

  /**
   * The allocation loop of `main`: the row index, then one row at a time,
   * clearing each row's flags. `grants` is how many allocations the
   * allocator satisfies before it fails. On a failure every block obtained
   * so far is freed once, and no other block is.
   */
  method AllocateTable(rows: nat, columns: nat, grants: nat) returns (a: Allocation)
    ensures a.Allocated? <==> grants >= rows + 1
    ensures a.Allocated? ==> fresh(a.table) && a.table.Length0 == rows && a.table.Length1 == columns
    ensures a.Allocated? ==> forall r, c :: 0 <= r < rows && 0 <= c < columns ==> !a.table[r, c].isInitialized
    ensures a.AllocationFailed? && grants == 0 ==> a.freed == []
    ensures a.AllocationFailed? && grants > 0 ==> multiset(a.freed) == multiset(InUse(grants - 1))
  {
    if grants == 0 {
      var freed := Cleanup(None, rows);
      return AllocationFailed(freed);
    }
    var t := new Cell[rows, columns];
    var slots := seq(rows, _ => false);
    var used := 1;
    var i := 0;
    while i < rows
      invariant 0 <= i <= rows && used == i + 1 <= grants
      invariant |slots| == rows
      invariant forall k :: 0 <= k < rows ==> slots[k] == (k < i)
      invariant forall r, c :: 0 <= r < i && 0 <= c < columns ==> !t[r, c].isInitialized
    {
      if used == grants {
        var freed := ReleaseTable(slots, i);
        return AllocationFailed(freed);
      }
      used := used + 1;
      slots := slots[i := true];
      var j := 0;
      while j < columns
        invariant 0 <= j <= columns
        invariant forall r, c :: 0 <= r < i && 0 <= c < columns ==> !t[r, c].isInitialized
        invariant forall c :: 0 <= c < j ==> !t[i, c].isInitialized
      {
        t[i, j] := t[i, j].(isInitialized := false);
        j := j + 1;
      }
      i := i + 1;
    }
    return Allocated(t);
  }

  /** When exactly the first i slots hold rows, cleanup frees exactly the blocks in use. */
  lemma {:induction false} LiveRowsPrefix(slots: seq<bool>, i: nat)
    requires i <= |slots|
    requires forall k :: 0 <= k < |slots| ==> slots[k] == (k < i)
    ensures multiset(LiveRows(slots, |slots|) + [RowIndex]) == multiset(InUse(i))
  {
    LiveRowsUpTo(slots, i, |slots|);
    LiveRowsAll(slots, i);
  }

  lemma {:induction false} LiveRowsUpTo(slots: seq<bool>, i: nat, n: nat)
    requires i <= n <= |slots|
    requires forall k :: 0 <= k < |slots| ==> slots[k] == (k < i)
    ensures LiveRows(slots, n) == LiveRows(slots, i)
  {
    if n > i {
      LiveRowsUpTo(slots, i, n - 1);
    }
  }

  lemma {:induction false} LiveRowsAll(slots: seq<bool>, i: nat)
    requires i <= |slots|
    requires forall k :: 0 <= k < i ==> slots[k]
    ensures LiveRows(slots, i) == Rows(i)
  {
    if i > 0 {
      LiveRowsAll(slots, i - 1);
    }
  }

  // ---------------------------------------------------------------------
  // Boundary initialization and cell resolution

  /**
   * `initializeTable`: cell (i, 0) gets gapScore * i for every row, cell
   * (0, j) gets gapScore * j for every column j >= 1, all of them flagged;
   * no other cell changes.
   */
  method InitializeTable(gapScore: int, t: array2<Cell>, rows: int, columns: int)
    requires rows == t.Length0 && columns == t.Length1
    requires rows == 0 ==> columns <= 1
    requires columns == 0 ==> rows == 0
    modifies t
    ensures forall r :: 0 <= r < rows ==> t[r, 0] == Cell(gapScore * r, true)
    ensures forall c :: 1 <= c < columns ==> t[0, c] == Cell(gapScore * c, true)
    ensures forall r, c :: 1 <= r < rows && 1 <= c < columns ==> t[r, c] == old(t[r, c])
  {
    var i := 0;
    while i < rows
      invariant 0 <= i <= rows
      invariant forall r :: 0 <= r < i ==> t[r, 0] == Cell(gapScore * r, true)
      invariant forall r, c :: 0 <= r < rows && 1 <= c < columns ==> t[r, c] == old(t[r, c])
    {
      t[i, 0] := t[i, 0].(value := gapScore * i);
      t[i, 0] := t[i, 0].(isInitialized := true);
      i := i + 1;
    }
    i := 1;
    while i < columns
      invariant 1 <= i && (columns >= 1 ==> i <= columns)
      invariant forall r :: 0 <= r < rows ==> t[r, 0] == Cell(gapScore * r, true)
      invariant forall c :: 1 <= c < i && c < columns ==> t[0, c] == Cell(gapScore * c, true)
      invariant forall r, c :: 1 <= r < rows && 1 <= c < columns ==> t[r, c] == old(t[r, c])
    {
      t[0, i] := t[0, i].(value := gapScore * i);
      t[0, i] := t[0, i].(isInitialized := true);
      i := i + 1;
    }
  }

  /**
   * `calculateValue`: resolve the cell (str1Index + 1, str2Index + 1) by first
   * resolving its diagonal, left and up predecessors. A negative index or an
   * already initialized target leaves the table as it was; afterwards every
   * cell up to and including the target is initialized, every cell that was
   * initialized before keeps its value, and no cell beyond the target changes.
   */
  method CalculateValue(s1: string, s2: string, t: array2<Cell>, str1Index: int, str2Index: int, p: Scores)
    requires Valid(t, s1, s2, p)
    requires str1Index < |s1| && str2Index < |s2|
    modifies t
    ensures Valid(t, s1, s2, p)
    ensures Done(t, str1Index + 1, str2Index + 1)
    ensures forall r, c :: 0 <= r < t.Length0 && 0 <= c < t.Length1 && old(t[r, c].isInitialized) ==>
      t[r, c] == old(t[r, c])
    ensures forall r, c :: 0 <= r < t.Length0 && 0 <= c < t.Length1 && (r > str1Index + 1 || c > str2Index + 1) ==>
      t[r, c] == old(t[r, c])
    decreases if str1Index < 0 || str2Index < 0 then 0 else str1Index + str2Index + 1
  {
    var tableRow := str1Index + 1;
    var tableColumn := str2Index + 1;
    if str1Index < 0 || str2Index < 0 || t[tableRow, tableColumn].isInitialized {
      return;
    }
    CalculateValue(s1, s2, t, str1Index - 1, str2Index - 1, p);
    CalculateValue(s1, s2, t, str1Index, str2Index - 1, p);
    label LeftResolved:
    CalculateValue(s1, s2, t, str1Index - 1, str2Index, p);
    assert Done(t, tableRow, tableColumn - 1) by {
      forall x, y | 0 <= x <= tableRow && 0 <= y <= tableColumn - 1
        ensures t[x, y].isInitialized
      {
        assert old@LeftResolved(t[x, y].isInitialized);
      }
    }

    Resolve(s1, s2, t, str1Index, str2Index, p);
  }

  /**
   * The comparison and store that end `calculateValue`: once the cells above
   * and to the left of the target are resolved, the target receives the best
   * of the three candidates, which keeps the table invariant and touches no
   * other cell.
   */
  method Resolve(s1: string, s2: string, t: array2<Cell>, str1Index: int, str2Index: int, p: Scores)
    requires Valid(t, s1, s2, p)
    requires 0 <= str1Index < |s1| && 0 <= str2Index < |s2|
    requires Done(t, str1Index, str2Index + 1) && Done(t, str1Index + 1, str2Index)
    modifies t
    ensures Valid(t, s1, s2, p)
    ensures t[str1Index + 1, str2Index + 1] == Cell(Score(s1, s2, p, str1Index + 1, str2Index + 1), true)
    ensures forall x, y :: 0 <= x < t.Length0 && 0 <= y < t.Length1 && (x != str1Index + 1 || y != str2Index + 1) ==>
      t[x, y] == old(t[x, y])
  {
    var tableRow := str1Index + 1;
    var tableColumn := str2Index + 1;
    var matchValue := t[tableRow - 1, tableColumn - 1].value;
    if s1[str1Index] == s2[str2Index] {
      matchValue := matchValue + p.matchScore;
    } else {
      matchValue := matchValue + p.mismatchScore;
    }
    var firstStrGapValue := t[tableRow, tableColumn - 1].value + p.gapScore;
    var secondStrGapValue := t[tableRow - 1, tableColumn].value + p.gapScore;
    assert t[tableRow - 1, tableColumn - 1].value == Score(s1, s2, p, tableRow - 1, tableColumn - 1);
    assert t[tableRow, tableColumn - 1].value == Score(s1, s2, p, tableRow, tableColumn - 1);
    assert t[tableRow - 1, tableColumn].value == Score(s1, s2, p, tableRow - 1, tableColumn);

    var best;
    if matchValue > firstStrGapValue {
      if matchValue > secondStrGapValue {
        best := matchValue;
      } else {
        best := secondStrGapValue;
      }
    } else {
      if firstStrGapValue > secondStrGapValue {
        best := firstStrGapValue;
      } else {
        best := secondStrGapValue;
      }
    }
    assert best == Select(matchValue, firstStrGapValue, secondStrGapValue);
    Store(s1, s2, t, tableRow, tableColumn, best, p);
  }

  /**
   * The store itself: with the cells above and to the left resolved, writing
   * the target's optimal score keeps the table invariant and changes no other
   * cell.
   */
  method Store(s1: string, s2: string, t: array2<Cell>, r: int, c: int, best: int, p: Scores)
    requires Valid(t, s1, s2, p)
    requires 0 < r < t.Length0 && 0 < c < t.Length1
    requires Done(t, r - 1, c) && Done(t, r, c - 1)
    requires best == Score(s1, s2, p, r, c)
    modifies t
    ensures Valid(t, s1, s2, p)
    ensures t[r, c] == Cell(best, true)
    ensures forall x, y :: 0 <= x < t.Length0 && 0 <= y < t.Length1 && (x != r || y != c) ==>
      t[x, y] == old(t[x, y])
  {
    label Resolving:
    t[r, c] := Cell(best, true);
    assert Done(t, r, c);
    forall x, y | 0 <= x < t.Length0 && 0 <= y < t.Length1 && t[x, y].isInitialized
      ensures Done(t, x, y)
    {
      if x != r || y != c {
        assert old@Resolving(Done(t, x, y));
      }
    }
  }

  /**
   * A freshly allocated table after `initializeTable` satisfies the table
   * invariant: only the border is initialized, and it holds the scores of
   * aligning a prefix against the empty sequence.
   */
  lemma BorderedTableValid(t: array2<Cell>, s1: string, s2: string, p: Scores)
    requires Shaped(t, s1, s2)
    requires forall r :: 0 <= r < t.Length0 ==> t[r, 0] == Cell(p.gapScore * r, true)
    requires forall c :: 1 <= c < t.Length1 ==> t[0, c] == Cell(p.gapScore * c, true)
    requires forall r, c :: 1 <= r < t.Length0 && 1 <= c < t.Length1 ==> !t[r, c].isInitialized
    ensures Valid(t, s1, s2, p)
  {
    forall r, c | 0 <= r < t.Length0 && 0 <= c < t.Length1 && t[r, c].isInitialized
      ensures Done(t, r, c) && t[r, c].value == Score(s1, s2, p, r, c)
    {
      assert r == 0 || c == 0;
    }
  }

  // ---------------------------------------------------------------------
  // Driver

  /** What one comparison reports: the score, unless allocation failed, and the blocks it freed. */
  datatype Report = Report(score: Option<int>, freed: seq<Block>)

  /**
   * The body of `main` for one pair of sequences: allocate a table of
   * (|s1| + 1) x (|s2| + 1) cells, initialize its border, resolve the
   * bottom-right cell and read it, then release the table. With enough
   * allocations the reported score is the optimal alignment score; in every
   * case each allocated block is freed exactly once.
   */
  method AlignmentScore(s1: string, s2: string, p: Scores, grants: nat) returns (r: Report)
    ensures r.score.Some? <==> grants >= |s1| + 2
    ensures r.score.Some? ==> r.score.value == Score(s1, s2, p, |s1|, |s2|)
    ensures r.score.Some? ==> multiset(r.freed) == multiset(InUse(|s1| + 1))
    ensures r.score.None? && grants > 0 ==> multiset(r.freed) == multiset(InUse(grants - 1))
    ensures r.score.None? && grants == 0 ==> r.freed == []
  {
    var rows := |s1| + 1;
    var columns := |s2| + 1;
    var a := AllocateTable(rows, columns, grants);
    if a.AllocationFailed? {
      return Report(None, a.freed);
    }
    var t := a.table;
    InitializeTable(p.gapScore, t, rows, columns);
    BorderedTableValid(t, s1, s2, p);
    CalculateValue(s1, s2, t, |s1| - 1, |s2| - 1, p);
    var score := t[|s1|, |s2|].value;
    var freed := ReleaseTable(seq(rows, _ => true), rows);
    return Report(Some(score), freed);
  }

  /**
   * The release at the end of `main` as written: `cleanup` is handed
   * |s2| + 1 as the number of rows of a table that has |s1| + 1 of them.
   * When s2 is the shorter sequence the last rows are never freed; the
   * release in `AlignmentScore` passes the table's own row count.
   */
  method ReleaseAsWritten(s1: string, s2: string) returns (freed: seq<Block>)
    requires |s2| <= |s1|
    ensures |s2| < |s1| ==> Row(|s1|) !in freed
    ensures |s2| == |s1| ==> multiset(freed) == multiset(InUse(|s1| + 1))
  {
    var slots := seq(|s1| + 1, _ => true);
    if |s2| == |s1| {
      LiveRowsPrefix(slots, |s1| + 1);
    }
    freed := Cleanup(Some(slots), |s2| + 1);
  }
}
