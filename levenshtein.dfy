/** The edit distance `levenshtein(a, b)` of the storefront's fuzzy search:
    a falsy (empty) argument gives `Infinity`; otherwise a dynamic-programming
    matrix whose row `i` stands for the first `i` characters of `b` and whose
    column `j` stands for the first `j` characters of `a`. */
module Levenshtein {
  import opened Common

  /** `Infinity` or a finite distance. */
  datatype Distance = Finite(n: nat) | Infinity

  function Min3(x: nat, y: nat, z: nat): (m: nat)
  {
    if x <= y && x <= z then x else if y <= z then y else z
  }

  /** The matrix cell `matrix[i][j]` exactly as the loops fill it: matching
      characters copy the diagonal, anything else takes one more than the
      least of the diagonal, left and upper neighbours. */
  function Cell(a: string, b: string, i: nat, j: nat): nat
    requires i <= |b| && j <= |a|
    decreases i + j
  {
    if i == 0 then j
    else if j == 0 then i
    else if b[i - 1] == a[j - 1] then Cell(a, b, i - 1, j - 1)
    else Min3(Cell(a, b, i - 1, j - 1), Cell(a, b, i, j - 1), Cell(a, b, i - 1, j)) + 1
  }

  /** The value `levenshtein(a, b)` returns. */
  function Dist(a: string, b: string): Distance
  {
    if a == [] || b == [] then Infinity else Finite(Cell(a, b, |b|, |a|))
  }

  /** The textbook Wagner-Fischer recurrence, where a match is also allowed
      to lose against an insertion or a deletion. */
  function EditDistance(a: string, b: string, i: nat, j: nat): nat
    requires i <= |b| && j <= |a|
    decreases i + j
  {
    if i == 0 then j
    else if j == 0 then i
    else Min3(EditDistance(a, b, i - 1, j - 1) + (if b[i - 1] == a[j - 1] then 0 else 1),
              EditDistance(a, b, i, j - 1) + 1,
              EditDistance(a, b, i - 1, j) + 1)
  }

  /** Neighbouring cells differ by at most one. */
  lemma {:induction false} Neighbours(a: string, b: string, i: nat, j: nat)
    requires i <= |b| && j <= |a|
    ensures j > 0 ==> Cell(a, b, i, j) <= Cell(a, b, i, j - 1) + 1
    ensures j > 0 ==> Cell(a, b, i, j - 1) <= Cell(a, b, i, j) + 1
    ensures i > 0 ==> Cell(a, b, i, j) <= Cell(a, b, i - 1, j) + 1
    ensures i > 0 ==> Cell(a, b, i - 1, j) <= Cell(a, b, i, j) + 1
    decreases i + j
  {
    if i > 0 && j > 0 {
      Neighbours(a, b, i - 1, j);
      Neighbours(a, b, i, j - 1);
      Neighbours(a, b, i - 1, j - 1);
    } else if i > 0 {
      Neighbours(a, b, i - 1, j);
    } else if j > 0 {
      Neighbours(a, b, i, j - 1);
    }
  }

  /** The matrix computes the textbook distance: on matching characters the
      diagonal is never beaten by an insertion or a deletion. */
  lemma {:induction false} CellIsEditDistance(a: string, b: string, i: nat, j: nat)
    requires i <= |b| && j <= |a|
    ensures Cell(a, b, i, j) == EditDistance(a, b, i, j)
    decreases i + j
  {
    if i > 0 && j > 0 {
      CellIsEditDistance(a, b, i - 1, j - 1);
      CellIsEditDistance(a, b, i, j - 1);
      CellIsEditDistance(a, b, i - 1, j);
      CellStep(a, b, i, j);
    }
  }

  /** One cell of the matrix agrees with the recurrence once its three
      neighbours do. */
  lemma CellStep(a: string, b: string, i: nat, j: nat)
    requires 0 < i <= |b| && 0 < j <= |a|
    requires Cell(a, b, i - 1, j - 1) == EditDistance(a, b, i - 1, j - 1)
    requires Cell(a, b, i, j - 1) == EditDistance(a, b, i, j - 1)
    requires Cell(a, b, i - 1, j) == EditDistance(a, b, i - 1, j)
    ensures Cell(a, b, i, j) == EditDistance(a, b, i, j)
  {
    var d, l, u := Cell(a, b, i - 1, j - 1), Cell(a, b, i, j - 1), Cell(a, b, i - 1, j);
    if b[i - 1] == a[j - 1] {
      assert d <= l + 1 by { Neighbours(a, b, i, j - 1); }
      assert d <= u + 1 by { Neighbours(a, b, i - 1, j); }
    }
  }

  /** Swapping the arguments transposes the matrix. */
  lemma {:induction false} CellSymmetric(a: string, b: string, i: nat, j: nat)
    requires i <= |b| && j <= |a|
    ensures Cell(a, b, i, j) == Cell(b, a, j, i)
    decreases i + j
  {
    if i > 0 && j > 0 {
      CellSymmetric(a, b, i - 1, j - 1);
      CellSymmetric(a, b, i, j - 1);
      CellSymmetric(a, b, i - 1, j);
      SymmetricStep(a, b, i, j);
    }
  }

  /** One transposed cell once its three neighbours are. */
  lemma SymmetricStep(a: string, b: string, i: nat, j: nat)
    requires 0 < i <= |b| && 0 < j <= |a|
    requires Cell(a, b, i - 1, j - 1) == Cell(b, a, j - 1, i - 1)
    requires Cell(a, b, i, j - 1) == Cell(b, a, j - 1, i)
    requires Cell(a, b, i - 1, j) == Cell(b, a, j, i - 1)
    ensures Cell(a, b, i, j) == Cell(b, a, j, i)
  {
    var d, l, u := Cell(a, b, i - 1, j - 1), Cell(a, b, i, j - 1), Cell(a, b, i - 1, j);
    if b[i - 1] != a[j - 1] {
      assert Cell(a, b, i, j) == Min3(d, l, u) + 1;
      assert Cell(b, a, j, i) == Min3(d, u, l) + 1;
      Min3Swap(d, l, u);
    }
  }

  lemma Min3Swap(x: nat, y: nat, z: nat)
    ensures Min3(x, y, z) == Min3(x, z, y)
  {
  }

  /** The distance lies between the difference of the lengths and the
      larger length. */
  lemma {:induction false} CellBounds(a: string, b: string, i: nat, j: nat)
    requires i <= |b| && j <= |a|
    ensures Cell(a, b, i, j) <= Max(i, j)
    ensures Cell(a, b, i, j) >= i - j && Cell(a, b, i, j) >= j - i
    decreases i + j
  {
    if i > 0 && j > 0 {
      CellBounds(a, b, i - 1, j - 1);
      CellBounds(a, b, i, j - 1);
      CellBounds(a, b, i - 1, j);
    }
  }

  /** A zero cell means the two prefixes are equal, and equal prefixes give
      a zero cell. */
  lemma {:induction false} CellZero(a: string, b: string, i: nat, j: nat)
    requires i <= |b| && j <= |a|
    ensures Cell(a, b, i, j) == 0 <==> (i == j && a[..j] == b[..i])
    decreases i + j
  {
    if i > 0 && j > 0 {
      CellZero(a, b, i - 1, j - 1);
      CellBounds(a, b, i, j - 1);
      CellBounds(a, b, i - 1, j);
      assert a[..j] == a[..j - 1] + [a[j - 1]];
      assert b[..i] == b[..i - 1] + [b[i - 1]];
      if i == j && a[..j] == b[..i] {
        assert a[j - 1] == a[..j][j - 1];
        assert b[i - 1] == b[..i][i - 1];
        assert a[..j - 1] == a[..j][..j - 1];
        assert b[..i - 1] == b[..i][..i - 1];
      }
    }
  }

  /** `levenshtein` is symmetric. */
  lemma DistSymmetric(a: string, b: string)
    ensures Dist(a, b) == Dist(b, a)
  {
    if a != [] && b != [] {
      CellSymmetric(a, b, |b|, |a|);
    }
  }

  /** A finite result is zero exactly for equal strings and never exceeds
      the longer length. */
  lemma DistFacts(a: string, b: string)
    requires a != [] && b != []
    ensures Dist(a, b).Finite?
    ensures Dist(a, b).n == 0 <==> a == b
    ensures Dist(a, b).n <= Max(|a|, |b|)
    ensures Dist(a, b).n >= |a| - |b| && Dist(a, b).n >= |b| - |a|
  {
    CellZero(a, b, |b|, |a|);
    CellBounds(a, b, |b|, |a|);
    assert a[..|a|] == a && b[..|b|] == b;
  }

  /** Rows `0 .. i - 1` of the matrix hold their final values. */
  ghost predicate RowsDone(matrix: array2<nat>, a: string, b: string, i: nat)
    reads matrix
    requires matrix.Length0 == |b| + 1 && matrix.Length1 == |a| + 1 && i <= |b| + 1
  {
    forall r, c :: 0 <= r < i && 0 <= c <= |a| ==> matrix[r, c] == Cell(a, b, r, c)
  }

  /** Column 0 holds the row number in every row. */
  ghost predicate FirstColumn(matrix: array2<nat>, b: string)
    reads matrix
    requires matrix.Length0 == |b| + 1 && matrix.Length1 >= 1
  {
    forall r :: 0 <= r <= |b| ==> matrix[r, 0] == r
  }

  /** One step of the inner loop: cell `(i, j)` from its three neighbours. */
  method FillCell(matrix: array2<nat>, a: string, b: string, i: nat, j: nat)
    requires matrix.Length0 == |b| + 1 && matrix.Length1 == |a| + 1
    requires 1 <= i <= |b| && 1 <= j <= |a|
    requires matrix[i - 1, j - 1] == Cell(a, b, i - 1, j - 1)
    requires matrix[i, j - 1] == Cell(a, b, i, j - 1)
    requires matrix[i - 1, j] == Cell(a, b, i - 1, j)
    modifies matrix
    ensures matrix[i, j] == Cell(a, b, i, j)
    ensures forall r, c :: 0 <= r <= |b| && 0 <= c <= |a| && (r != i || c != j) ==> matrix[r, c] == old(matrix[r, c])
  {
    if b[i - 1] == a[j - 1] {
      matrix[i, j] := matrix[i - 1, j - 1];
    } else {
      matrix[i, j] := Min3(matrix[i - 1, j - 1] + 1, matrix[i, j - 1] + 1, matrix[i - 1, j] + 1);
    }
  }

  /** The inner loop: fills row `i` from its left neighbour and the row above. */
  method FillRow(matrix: array2<nat>, a: string, b: string, i: nat)
    requires matrix.Length0 == |b| + 1 && matrix.Length1 == |a| + 1
    requires 1 <= i <= |b|
    requires RowsDone(matrix, a, b, i) && FirstColumn(matrix, b)
    modifies matrix
    ensures RowsDone(matrix, a, b, i + 1) && FirstColumn(matrix, b)
  {
    var j := 1;
    while j <= |a|
      invariant 1 <= j <= |a| + 1
      invariant RowsDone(matrix, a, b, i) && FirstColumn(matrix, b)
      invariant forall c :: 0 <= c < j ==> matrix[i, c] == Cell(a, b, i, c)
    {
      FillCell(matrix, a, b, i, j);
      j := j + 1;
    }
  }

  /** `levenshtein(a, b)`: the matrix is filled row by row. */
  method ComputeDistance(a: string, b: string) returns (d: Distance)
    ensures d == Dist(a, b)
  {
    if a == [] || b == [] {
      return Infinity;
    }
    var matrix := new nat[|b| + 1, |a| + 1];
    var i := 0;
    while i <= |b|
      invariant 0 <= i <= |b| + 1
      invariant forall r :: 0 <= r < i ==> matrix[r, 0] == r
    {
      matrix[i, 0] := i;
      i := i + 1;
    }
    var j := 0;
    while j <= |a|
      invariant 0 <= j <= |a| + 1
      invariant FirstColumn(matrix, b)
      invariant forall c :: 0 <= c < j ==> matrix[0, c] == c
    {
      matrix[0, j] := j;
      j := j + 1;
    }
    i := 1;
    while i <= |b|
      invariant 1 <= i <= |b| + 1
      invariant RowsDone(matrix, a, b, i) && FirstColumn(matrix, b)
    {
      FillRow(matrix, a, b, i);
      i := i + 1;
    }
    d := Finite(matrix[|b|, |a|]);
  }
}
