/**
 * `levenshteinDistance`: the dynamic-programming edit distance. The matrix
 * has one row per prefix of the second string and one column per prefix of
 * the first; `Distance` is the recurrence the matrix is filled with, and the
 * method is proved to fill it with exactly those values.
 */
module EditDistance {

  function Min3(x: nat, y: nat, z: nat): (m: nat)
    ensures m <= x && m <= y && m <= z
    ensures m == x || m == y || m == z
  {
    if x <= y && x <= z then x else if y <= z then y else z
  }

  function Abs(x: int): nat {
    if x < 0 then -x else x
  }

  function Max(x: nat, y: nat): nat {
    if x < y then y else x
  }

  /**
   * Edit distance of `a` (the columns) and `b` (the rows): matching last
   * characters cost nothing; otherwise one substitution, deletion or
   * insertion plus the cheapest of the three smaller problems.
   */
  function Distance(a: string, b: string): nat
    decreases |a| + |b|
  {
    if |a| == 0 then |b|
    else if |b| == 0 then |a|
    else if a[|a| - 1] == b[|b| - 1] then Distance(a[..|a| - 1], b[..|b| - 1])
    else 1 + Min3(Distance(a[..|a| - 1], b[..|b| - 1]),
                  Distance(a[..|a| - 1], b),
                  Distance(a, b[..|b| - 1]))
  }

  /** `levenshteinDistance(str1, str2)`: fills the `(|str2| + 1) x (|str1| + 1)` matrix row by row. */
  method LevenshteinDistance(str1: string, str2: string) returns (d: int)
    ensures d == Distance(str1, str2)
  {
    var n, m := |str1|, |str2|;
    var matrix := new int[m + 1, n + 1];
    for i := 0 to m + 1
      invariant forall r :: 0 <= r < i ==> matrix[r, 0] == r
    {
      matrix[i, 0] := i;
    }
    for j := 0 to n + 1
      invariant forall r :: 0 <= r <= m ==> matrix[r, 0] == r
      invariant forall c :: 0 <= c < j ==> matrix[0, c] == c
    {
      matrix[0, j] := j;
    }
    assert forall c :: 0 <= c <= n ==> matrix[0, c] == Distance(str1[..c], str2[..0]);
    for i := 1 to m + 1
      invariant forall r, c :: 0 <= r < i && 0 <= c <= n ==> matrix[r, c] == Distance(str1[..c], str2[..r])
      invariant forall r :: i <= r <= m ==> matrix[r, 0] == r
    {
      FillRow(matrix, str1, str2, i);
    }
    assert str1[..n] == str1 && str2[..m] == str2;
    d := matrix[m, n];
  }

  /** One cell of the matrix from its three neighbours above and to the left. */
  lemma DistanceStep(str1: string, str2: string, i: nat, j: nat)
    requires 1 <= i <= |str2| && 1 <= j <= |str1|
    ensures Distance(str1[..j], str2[..i]) ==
      if str2[i - 1] == str1[j - 1] then Distance(str1[..j - 1], str2[..i - 1])
      else 1 + Min3(Distance(str1[..j - 1], str2[..i - 1]),
                    Distance(str1[..j - 1], str2[..i]),
                    Distance(str1[..j], str2[..i - 1]))
  {
    var a, b := str1[..j], str2[..i];
    assert a[..j - 1] == str1[..j - 1] && b[..i - 1] == str2[..i - 1];
  }

  /** The inner loop of `levenshteinDistance`: fills row `i` from row `i - 1`. */
  method FillRow(matrix: array2<int>, str1: string, str2: string, i: nat)
    requires matrix.Length0 == |str2| + 1 && matrix.Length1 == |str1| + 1
    requires 1 <= i <= |str2|
    requires forall c :: 0 <= c <= |str1| ==> matrix[i - 1, c] == Distance(str1[..c], str2[..i - 1])
    requires matrix[i, 0] == i
    modifies matrix
    ensures forall c :: 0 <= c <= |str1| ==> matrix[i, c] == Distance(str1[..c], str2[..i])
    ensures forall r, c :: 0 <= r < matrix.Length0 && 0 <= c < matrix.Length1 && r != i ==> matrix[r, c] == old(matrix[r, c])
  {
    assert matrix[i, 0] == Distance(str1[..0], str2[..i]);
    for j := 1 to |str1| + 1
      invariant forall c :: 0 <= c < j ==> matrix[i, c] == Distance(str1[..c], str2[..i])
      invariant forall r, c :: 0 <= r < matrix.Length0 && 0 <= c < matrix.Length1 && r != i ==> matrix[r, c] == old(matrix[r, c])
    {
      DistanceStep(str1, str2, i, j);
      if str2[i - 1] == str1[j - 1] {
        matrix[i, j] := matrix[i - 1, j - 1];
      } else {
        matrix[i, j] := Min3(matrix[i - 1, j - 1] + 1, matrix[i, j - 1] + 1, matrix[i - 1, j] + 1);
      }
    }
  }

  /** The distance is zero exactly for equal strings. */
  lemma {:induction false} DistanceZeroIffEqual(a: string, b: string)
    ensures Distance(a, b) == 0 <==> a == b
    decreases |a| + |b|
  {
    if |a| > 0 && |b| > 0 {
      var a', b' := a[..|a| - 1], b[..|b| - 1];
      DistanceZeroIffEqual(a', b');
      assert a == a' + [a[|a| - 1]] && b == b' + [b[|b| - 1]];
    }
  }

  /** The distance does not depend on which string labels the columns. */
  lemma {:induction false} DistanceSymmetric(a: string, b: string)
    ensures Distance(a, b) == Distance(b, a)
    decreases |a| + |b|
  {
    if |a| > 0 && |b| > 0 {
      var a', b' := a[..|a| - 1], b[..|b| - 1];
      DistanceSymmetric(a', b');
      if a[|a| - 1] != b[|b| - 1] {
        DistanceSymmetric(a', b);
        DistanceSymmetric(a, b');
      }
    }
  }

  /** The distance is at least the difference of the lengths and at most the longer length. */
  lemma {:induction false} DistanceBounds(a: string, b: string)
    ensures Abs(|a| - |b|) <= Distance(a, b) <= Max(|a|, |b|)
    decreases |a| + |b|
  {
    if |a| > 0 && |b| > 0 {
      var a', b' := a[..|a| - 1], b[..|b| - 1];
      DistanceBounds(a', b');
      if a[|a| - 1] != b[|b| - 1] {
        DistanceBounds(a', b);
        DistanceBounds(a, b');
      }
    }
  }
}
