/** Unit dimensions: every number value carries a vector of NUMDIMS = 7
  * exponents of the base dimensions. Values combine them by fixed rules:
  * equal for + and -, summed for ×, subtracted for ÷, scaled for ^. */
module UnitDims {

  const NUMDIMS: nat := 7

  predicate IsDims(d: seq<int>) { |d| == NUMDIMS }

  function Zero(): (r: seq<int>)
    ensures IsDims(r) && forall i :: 0 <= i < NUMDIMS ==> r[i] == 0
  {
    seq(NUMDIMS, _ => 0)
  }

  function DimSum(a: seq<int>, b: seq<int>): (r: seq<int>)
    requires IsDims(a) && IsDims(b)
    ensures IsDims(r)
  {
    seq(NUMDIMS, i requires 0 <= i < NUMDIMS => a[i] + b[i])
  }

  function DimDiff(a: seq<int>, b: seq<int>): (r: seq<int>)
    requires IsDims(a) && IsDims(b)
    ensures IsDims(r)
  {
    seq(NUMDIMS, i requires 0 <= i < NUMDIMS => a[i] - b[i])
  }

  function DimScale(a: seq<int>, k: int): (r: seq<int>)
    requires IsDims(a)
    ensures IsDims(r)
  {
    seq(NUMDIMS, i requires 0 <= i < NUMDIMS => a[i] * k)
  }

  /** `hasUnitDimensions`: some exponent is not zero. */
  predicate HasUnitDimensions(d: seq<int>)
  {
    exists i :: 0 <= i < |d| && d[i] != 0
  }

  /** Dividing a product by one factor gives back the dimensions of the other. */
  lemma DiffUndoesSum(a: seq<int>, b: seq<int>)
    requires IsDims(a) && IsDims(b)
    ensures DimDiff(DimSum(a, b), b) == a
  {
  }

  lemma SumCommutes(a: seq<int>, b: seq<int>)
    requires IsDims(a) && IsDims(b)
    ensures DimSum(a, b) == DimSum(b, a)
  {
  }

  /** A quotient is unitless exactly when the operands' dimensions are equal. */
  lemma DiffUnitlessIffEqual(a: seq<int>, b: seq<int>)
    requires IsDims(a) && IsDims(b)
    ensures !HasUnitDimensions(DimDiff(a, b)) <==> a == b
  {
    if !HasUnitDimensions(DimDiff(a, b)) {
      forall i | 0 <= i < NUMDIMS ensures a[i] == b[i] {
        assert DimDiff(a, b)[i] == a[i] - b[i] == 0;
      }
    } else {
      var i :| 0 <= i < NUMDIMS && DimDiff(a, b)[i] != 0;
      assert a[i] != b[i];
    }
  }

  /** A power has units exactly when the base has units and the exponent is not 0. */
  lemma ScaleHasUnits(a: seq<int>, k: int)
    requires IsDims(a)
    ensures HasUnitDimensions(DimScale(a, k)) <==> k != 0 && HasUnitDimensions(a)
  {
    if k != 0 && HasUnitDimensions(a) {
      var i :| 0 <= i < |a| && a[i] != 0;
      assert DimScale(a, k)[i] != 0;
    }
  }

  lemma ZeroIsUnitless()
    ensures !HasUnitDimensions(Zero())
  {
  }

  /** `addUnitDimensions`: adds `dimensions` to the exponents in place. */
  method AddUnitDimensions(d: array<int>, delta: seq<int>)
    requires d.Length == NUMDIMS && IsDims(delta)
    modifies d
    ensures d[..] == DimSum(old(d[..]), delta)
  {
    var i := 0;
    while i < NUMDIMS
      invariant 0 <= i <= NUMDIMS
      invariant forall k :: 0 <= k < i ==> d[k] == old(d[k]) + delta[k]
      invariant forall k :: i <= k < NUMDIMS ==> d[k] == old(d[k])
    {
      d[i] := d[i] + delta[i];
      i := i + 1;
    }
  }

  /** `subtractUnitDimensions`: subtracts `dimensions` from the exponents in place. */
  method SubtractUnitDimensions(d: array<int>, delta: seq<int>)
    requires d.Length == NUMDIMS && IsDims(delta)
    modifies d
    ensures d[..] == DimDiff(old(d[..]), delta)
  {
    var i := 0;
    while i < NUMDIMS
      invariant 0 <= i <= NUMDIMS
      invariant forall k :: 0 <= k < i ==> d[k] == old(d[k]) - delta[k]
      invariant forall k :: i <= k < NUMDIMS ==> d[k] == old(d[k])
    {
      d[i] := d[i] - delta[i];
      i := i + 1;
    }
  }

  /** `multiplyUnitDimensions`: multiplies every exponent by a scalar in place. */
  method MultiplyUnitDimensions(d: array<int>, delta: int)
    requires d.Length == NUMDIMS
    modifies d
    ensures d[..] == DimScale(old(d[..]), delta)
  {
    var i := 0;
    while i < NUMDIMS
      invariant 0 <= i <= NUMDIMS
      invariant forall k :: 0 <= k < i ==> d[k] == old(d[k]) * delta
      invariant forall k :: i <= k < NUMDIMS ==> d[k] == old(d[k])
    {
      d[i] := d[i] * delta;
      i := i + 1;
    }
  }

  /** `Array.from(unitDimensions)`: a fresh copy of a dimension vector. */
  method CopyDims(d: seq<int>) returns (a: array<int>)
    requires IsDims(d)
    ensures fresh(a) && a[..] == d
  {
    a := new int[NUMDIMS];
    var i := 0;
    while i < NUMDIMS
      invariant 0 <= i <= NUMDIMS
      invariant a[..i] == d[..i]
    {
      a[i] := d[i];
      i := i + 1;
    }
  }
}
