/**
 * `create_distance_matrix` (app.py:42-56): the walking minutes between the
 * seven attractions, given as the strict upper triangle row by row, are
 * written into a 7x7 table that is then added to its own transpose.
 */
module DistanceMatrix {

  const Size: nat := 7

  /** The literal upper triangle of app.py:44-51: row i lists the walks from i to i+1, i+2, ... */
  const WalkingMinutes: seq<seq<int>> := [
    [5, 10, 15, 20, 15, 15],
    [5, 10, 15, 10, 10],
    [10, 15, 15, 15],
    [5, 5, 5],
    [5, 5],
    [5]
  ]

  /** Row i of the triangle holds exactly the Size-1-i entries above the diagonal, none negative. */
  lemma {:induction false} WalkingMinutesIsTriangle()
    ensures |WalkingMinutes| == Size - 1
    ensures forall i :: 0 <= i < |WalkingMinutes| ==> |WalkingMinutes[i]| == Size - 1 - i
    ensures forall i, j :: 0 <= i < |WalkingMinutes| && 0 <= j < |WalkingMinutes[i]| ==> WalkingMinutes[i][j] >= 0
  {
    forall i | 0 <= i < |WalkingMinutes|
      ensures |WalkingMinutes[i]| == Size - 1 - i
      ensures forall j :: 0 <= j < |WalkingMinutes[i]| ==> WalkingMinutes[i][j] >= 0
    {
      if i == 0 {} else if i == 1 {} else if i == 2 {} else if i == 3 {} else if i == 4 {} else {}
    }
  }

  /** The entry of the triangle at row r, column c (0 on and below the diagonal). */
  function Upper(r: nat, c: nat): int
    requires r < Size && c < Size
  {
    if r < c && r < |WalkingMinutes| && c - r - 1 < |WalkingMinutes[r]| then WalkingMinutes[r][c - r - 1] else 0
  }

  method CreateDistanceMatrix() returns (matrix: array2<int>)
    ensures matrix.Length0 == Size && matrix.Length1 == Size
    ensures forall r, c :: 0 <= r < Size && 0 <= c < Size ==> matrix[r, c] == matrix[c, r]
    ensures forall r :: 0 <= r < Size ==> matrix[r, r] == 0
    ensures forall r, c :: 0 <= r < Size && 0 <= c < Size ==> matrix[r, c] >= 0
    ensures forall i, j :: 0 <= i < |WalkingMinutes| && 0 <= j < |WalkingMinutes[i]| ==>
      i + j + 1 < Size && matrix[i, i + j + 1] == WalkingMinutes[i][j]
  {
    WalkingMinutesIsTriangle();
    matrix := new int[Size, Size]((r, c) => 0);
    // the triangle, row by row, above the diagonal
    for i := 0 to |WalkingMinutes|
      invariant forall r, c :: 0 <= r < Size && 0 <= c < Size ==>
        matrix[r, c] == if r < i then Upper(r, c) else 0
    {
      for j := 0 to |WalkingMinutes[i]|
        invariant forall r, c :: 0 <= r < Size && 0 <= c < Size ==>
          matrix[r, c] == if r < i || (r == i && i < c <= i + j) then Upper(r, c) else 0
      {
        matrix[i, i + j + 1] := WalkingMinutes[i][j];
      }
    }
    // add the transpose; numpy reads an overlapping operand from a copy
    var transposed := new int[Size, Size]((r, c) reads matrix =>
      if 0 <= r < Size && 0 <= c < Size then matrix[c, r] else 0);
    for r := 0 to Size
      invariant forall x, y :: 0 <= x < Size && 0 <= y < Size ==>
        matrix[x, y] == if x < r then Upper(x, y) + Upper(y, x) else Upper(x, y)
      invariant forall x, y :: 0 <= x < Size && 0 <= y < Size ==> transposed[x, y] == Upper(y, x)
    {
      for c := 0 to Size
        invariant forall x, y :: 0 <= x < Size && 0 <= y < Size ==>
          matrix[x, y] == if x < r || (x == r && y < c) then Upper(x, y) + Upper(y, x) else Upper(x, y)
        invariant forall x, y :: 0 <= x < Size && 0 <= y < Size ==> transposed[x, y] == Upper(y, x)
      {
        matrix[r, c] := matrix[r, c] + transposed[r, c];
      }
    }
  }
}
