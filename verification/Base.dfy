// Vocabulary shared by every module: optional values, the 64-bit range of
// PostgreSQL's bigint, sums over integer sequences, and a fact about products.
module Base {

  datatype Option<+T> = None | Some(value: T)

  const MAX_INT64: int := 0x7FFF_FFFF_FFFF_FFFF
  const MIN_INT64: int := -0x8000_0000_0000_0000

  /** A bigint column or an int64 argument. */
  type Int64 = x: int | MIN_INT64 <= x <= MAX_INT64

  lemma Int64IsBigint(x: int)
    ensures MIN_INT64 <= x <= MAX_INT64 <==> -9_223_372_036_854_775_808 <= x <= 9_223_372_036_854_775_807
  {
  }

  function Min(a: int, b: int): int {
    if a < b then a else b
  }

  function Sum(s: seq<int>): int {
    if s == [] then 0 else Sum(s[..|s| - 1]) + s[|s| - 1]
  }

  lemma SumSnoc(s: seq<int>, x: int)
    ensures Sum(s + [x]) == Sum(s) + x
  {
    assert (s + [x])[..|s|] == s;
  }

  lemma MulMonotone(c: nat, a: int, b: int)
    requires a <= b
    ensures c * a <= c * b
  {
  }
}
