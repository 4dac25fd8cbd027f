/** Go strings as the equality code sees them: sequences of bytes, compared by strings.Compare. */
module GoStrings {

  newtype byte = x: int | 0 <= x < 256

  /** A Go string is a sequence of bytes, whatever encoding they hold. */
  type GoString = seq<byte>

  /** strings.Compare: lexicographic byte order, -1, 0 or +1. A proper prefix sorts first. */
  function Compare(a: GoString, b: GoString): (r: int)
    ensures -1 <= r <= 1
    ensures |a| < |b| && a == b[..|a|] ==> r == -1
    decreases |a|
  {
    if |a| == 0 && |b| == 0 then 0
    else if |a| == 0 then -1
    else if |b| == 0 then 1
    else if a[0] < b[0] then -1
    else if a[0] > b[0] then 1
    else Compare(a[1..], b[1..])
  }

  /** The equality code tests `strings.Compare(x, y) != 0`: zero exactly for byte-identical strings. */
  lemma {:induction false} CompareZeroIffEqual(a: GoString, b: GoString)
    ensures Compare(a, b) == 0 <==> a == b
    decreases |a|
  {
    if |a| > 0 && |b| > 0 && a[0] == b[0] {
      CompareZeroIffEqual(a[1..], b[1..]);
      if a[1..] == b[1..] {
        assert a == [a[0]] + a[1..] && b == [b[0]] + b[1..];
      }
    }
  }
}
