/**
  The shape contract of SmoothQuant's int8 linear layer: the input is viewed as
  a matrix of rows, multiplied by the int8 weight through an opaque kernel into
  an int32 matrix, and viewed back with the input's leading dimensions.
 */
module SQLinear {
  import opened Wrappers

  newtype Int8 = x: int | -0x80 <= x < 0x80
  newtype Int32 = x: int | -0x8000_0000 <= x < 0x8000_0000

  /** A tensor's shape: one extent per dimension. */
  type Shape = seq<nat>

  /** Number of elements of a tensor of the given shape (1 for a scalar). */
  function Numel(shape: Shape): nat
  {
    if |shape| == 0 then 1 else Numel(shape[..|shape| - 1]) * shape[|shape| - 1]
  }

  /** A dense row-major tensor: its shape and its elements in order. */
  datatype Tensor<T> = Tensor(shape: Shape, data: seq<T>) {
    predicate WellFormed() {
      |data| == Numel(shape)
    }
  }

  /** Why a `view` with one inferred dimension is refused. */
  datatype ViewError =
    | Ambiguous      // the tensor and the other dimensions hold no element, so -1 could be anything
    | SizeMismatch   // the element count does not fit the requested shape

  /** The int8 kernel, left uninterpreted: the int32 entry (i, j) it writes for
      the row matrix and the weight. */
  type Gemm = (Tensor<Int8>, Tensor<Int8>, nat, nat) -> Int32

  /** Why `apply_weights` raises. */
  datatype LinearError =
    | BiasNotSupported         // the assertion that no bias is passed fails
    | MissingWeight            // the weights dictionary has no "weight"
    | ScalarInput              // the input has no last dimension to index
    | ScalarWeight             // the weight has no first dimension to index
    | BadView(reason: ViewError)

  /** The element count of a concatenated shape is the product of the parts'. */
  lemma {:induction false} NumelConcat(a: Shape, b: Shape)
    ensures Numel(a + b) == Numel(a) * Numel(b)
    decreases |b|
  {
    if |b| == 0 {
      assert a + b == a;
    } else {
      var bInit := b[..|b| - 1];
      assert (a + b)[..|a + b| - 1] == a + bInit;
      NumelConcat(a, bInit);
      calc {
        Numel(a + b);
        Numel(a + bInit) * b[|b| - 1];
        Numel(a) * Numel(bInit) * b[|b| - 1];
        Numel(a) * (Numel(bInit) * b[|b| - 1]);
      }
    }
  }

  /** A shape is its leading dimensions followed by its last one. */
  lemma NumelSplitLast(shape: Shape)
    requires |shape| > 0
    ensures Numel(shape) == Numel(shape[..|shape| - 1]) * shape[|shape| - 1]
    ensures Numel(shape) > 0 <==> Numel(shape[..|shape| - 1]) > 0 && shape[|shape| - 1] > 0
  {
  }

  /** Element counts of one- and two-dimensional shapes. */
  lemma NumelSmall(a: nat, b: nat)
    ensures Numel([a]) == a
    ensures Numel([a, b]) == a * b
  {
    assert [a][..0] == [];
    assert [a, b][..1] == [a];
  }

  /** The element count of `before + [n] + after` is `n` times the others'. */
  lemma NumelAround(before: Shape, n: nat, after: Shape)
    ensures Numel(before + [n] + after) == n * (Numel(before) * Numel(after))
  {
    NumelConcat(before + [n], after);
    NumelConcat(before, [n]);
    NumelSmall(n, 0);
  }

  /** `a <= b` survives multiplication by a natural number. */
  lemma MulLe(a: int, b: int, c: nat)
    requires a <= b
    ensures a * c <= b * c
  {
  }

  /** Position of entry (i, j) in a row-major matrix with `cols` columns: it
      lies inside the matrix and division by `cols` recovers (i, j). */
  lemma MatrixIndex(i: nat, j: nat, rows: nat, cols: nat)
    requires i < rows && j < cols
    ensures i * cols + j < rows * cols
    ensures (i * cols + j) / cols == i && (i * cols + j) % cols == j
  {
    MulLe(i + 1, rows, cols);
    var x := i * cols + j;
    var q := x / cols;
    var r := x % cols;
    assert q * cols + r == i * cols + j;
    if q < i {
      MulLe(q + 1, i, cols);
    } else if i < q {
      MulLe(i + 1, q, cols);
    }
  }

  /** An exact product divides back to its factor. */
  lemma ExactDivision(n: nat, k: nat)
    requires k > 0
    ensures (n * k) % k == 0 && (n * k) / k == n
  {
    MatrixIndex(n, 0, n + 1, k);
  }

  /** `t.view(*before, -1, *after)`: keeps the elements and infers the missing
      extent from the element count, as torch does. When the other extents
      multiply to zero, an empty tensor makes the -1 ambiguous and a non-empty
      one cannot fit the shape. */
  function ViewInfer<T>(t: Tensor<T>, before: Shape, after: Shape): (r: Result<Tensor<T>, ViewError>)
    ensures Numel(before) * Numel(after) == 0 ==>
              r == Failure(if |t.data| == 0 then Ambiguous else SizeMismatch)
    ensures r.Success? <==> Numel(before) * Numel(after) > 0 && |t.data| % (Numel(before) * Numel(after)) == 0
    ensures r.Success? ==> r.value.data == t.data && r.value.WellFormed()
    ensures r.Success? ==> r.value.shape == before + [|t.data| / (Numel(before) * Numel(after))] + after
  {
    var known := Numel(before) * Numel(after);
    if known == 0 then
      if |t.data| == 0 then Failure(Ambiguous) else Failure(SizeMismatch)
    else if |t.data| % known != 0 then
      Failure(SizeMismatch)
    else
      var n: nat := |t.data| / known;
      NumelAround(before, n, after);
      Success(Tensor(before + [n] + after, t.data))
  }

  /** The leading dimensions of a shape that has a last one. */
  function Leading(shape: Shape): Shape
    requires |shape| > 0
  {
    shape[..|shape| - 1]
  }

  /** The last dimension of a shape that has one. */
  function Last(shape: Shape): nat
    requires |shape| > 0
  {
    shape[|shape| - 1]
  }

  /** A tensor with a last dimension, read as a matrix: one row per combination
      of leading indices, one column per index of the last dimension. */
  function RowMatrix<T>(x: Tensor<T>): Tensor<T>
    requires |x.shape| > 0
  {
    Tensor([Numel(Leading(x.shape)), Last(x.shape)], x.data)
  }

  /** `x.view(-1, x.shape[-1])`: the input as its matrix of rows, whose row
      count is the product of the leading dimensions; it fails only when the
      last dimension is empty. */
  function FlattenRows<T>(x: Tensor<T>): (r: Result<Tensor<T>, ViewError>)
    requires x.WellFormed() && |x.shape| > 0
    ensures r.Success? <==> Last(x.shape) > 0
    ensures r.Failure? ==> r.error == Ambiguous
    ensures r.Success? ==> r.value.shape == [Numel(Leading(x.shape)), Last(x.shape)]
    ensures r.Success? ==> r.value.data == x.data && r.value.WellFormed()
  {
    NumelSplitLast(x.shape);
    NumelSmall(Last(x.shape), 0);
    if Last(x.shape) > 0 then
      ExactDivision(Numel(Leading(x.shape)), Last(x.shape));
      ViewInfer(x, [], [Last(x.shape)])
    else
      ViewInfer(x, [], [Last(x.shape)])
  }

  /** `y.view(*lead, -1)`: a matrix with one row per combination of leading
      indices, viewed back with those leading dimensions; it fails when the
      leading dimensions hold no element. */
  function UnflattenRows<T>(y: Tensor<T>, lead: Shape): (r: Result<Tensor<T>, ViewError>)
    requires y.WellFormed() && |y.shape| == 2 && y.shape[0] == Numel(lead)
    ensures r.Success? <==> Numel(lead) > 0
    ensures r.Failure? ==> r.error == Ambiguous
    ensures r.Success? ==> r.value.shape == lead + [y.shape[1]] && r.value.data == y.data && r.value.WellFormed()
  {
    NumelSmall(y.shape[0], y.shape[1]);
    assert y.shape == [y.shape[0], y.shape[1]];
    assert Numel([]) == 1;
    if Numel(lead) > 0 then
      ExactDivision(y.shape[1], Numel(lead));
      assert |y.data| == y.shape[1] * Numel(lead);
      assert lead + [y.shape[1]] + [] == lead + [y.shape[1]];
      ViewInfer(y, lead, [])
    else
      ViewInfer(y, lead, [])
  }

  /** Viewing an input as rows and back restores it exactly. */
  lemma FlattenUnflattenRoundTrip<T>(x: Tensor<T>)
    requires x.WellFormed() && |x.shape| > 0 && Numel(x.shape) > 0
    ensures FlattenRows(x).Success?
    ensures UnflattenRows(FlattenRows(x).value, Leading(x.shape)) == Success(x)
  {
    NumelSplitLast(x.shape);
    NumelSmall(Numel(Leading(x.shape)), Last(x.shape));
    assert Leading(x.shape) + [Last(x.shape)] == x.shape;
  }

  /** Entry (i, j) of a row-major matrix. */
  function Entry<T>(m: Tensor<T>, i: nat, j: nat): T
    requires m.WellFormed() && |m.shape| == 2 && i < m.shape[0] && j < m.shape[1]
  {
    NumelSmall(m.shape[0], m.shape[1]);
    assert m.shape == [m.shape[0], m.shape[1]];
    MatrixIndex(i, j, m.shape[0], m.shape[1]);
    m.data[i * m.shape[1] + j]
  }

  /** The int32 output matrix `torch.empty((rows, out))` after the kernel has
      filled it: every entry is the kernel's. */
  function GemmOutput(gemm: Gemm, a: Tensor<Int8>, w: Tensor<Int8>, rows: nat, out: nat): (y: Tensor<Int32>)
    ensures y.shape == [rows, out] && y.WellFormed()
    ensures forall i: nat, j: nat :: i < rows && j < out ==> Entry(y, i, j) == gemm(a, w, i, j)
  {
    var y := Tensor([rows, out], seq(rows * out, idx requires 0 <= idx < rows * out =>
                                       gemm(a, w, idx / out, idx % out)));
    NumelSmall(rows, out);
    forall i: nat, j: nat | i < rows && j < out
      ensures Entry(y, i, j) == gemm(a, w, i, j)
    {
      MatrixIndex(i, j, rows, out);
    }
    y
  }

  /** `t.view(*shape)` with every extent given: the same elements under a new
      shape, refused when the element counts differ. */
  function ViewExact<T>(t: Tensor<T>, shape: Shape): (r: Result<Tensor<T>, ViewError>)
    ensures r.Success? <==> Numel(shape) == |t.data|
    ensures r.Failure? ==> r.error == SizeMismatch
    ensures r.Success? ==> r.value.shape == shape && r.value.data == t.data && r.value.WellFormed()
  {
    if Numel(shape) == |t.data| then Success(Tensor(shape, t.data)) else Failure(SizeMismatch)
  }

  /** The body of `apply_weights` up to the kernel call: a bias is refused, the
      input is viewed as its matrix of rows, and the kernel fills an int32
      matrix of rows by the weight's first extent. */
  function KernelOutput(weights: map<string, Tensor<Int8>>, x: Tensor<Int8>, bias: Option<Tensor<Int32>>, gemm: Gemm)
    : (r: Result<Tensor<Int32>, LinearError>)
    requires x.WellFormed()
    ensures bias.Some? ==> r == Failure(BiasNotSupported)
    ensures r.Success? <==>
              && bias.None? && "weight" in weights && |x.shape| > 0
              && |weights["weight"].shape| > 0 && Last(x.shape) > 0
    ensures r.Success? ==>
              && r.value.WellFormed()
              && r.value.shape == [Numel(Leading(x.shape)), weights["weight"].shape[0]]
              && forall i: nat, j: nat :: i < r.value.shape[0] && j < r.value.shape[1] ==>
                   Entry(r.value, i, j) == gemm(RowMatrix(x), weights["weight"], i, j)
  {
    if bias.Some? then Failure(BiasNotSupported)
    else if "weight" !in weights then Failure(MissingWeight)
    else if |x.shape| == 0 then Failure(ScalarInput)
    else
      var weight := weights["weight"];
      match FlattenRows(x)
      case Failure(e) => Failure(BadView(e))
      case Success(rows) =>
        if |weight.shape| == 0 then Failure(ScalarWeight)
        else
          assert rows == RowMatrix(x);
          Success(GemmOutput(gemm, rows, weight, rows.shape[0], weight.shape[0]))
  }

  /** `apply_weights` as written: the kernel's matrix is viewed back with the
      input's leading dimensions and an inferred last one. The inference is
      refused when the leading dimensions hold no element. */
  function ApplyWeights(weights: map<string, Tensor<Int8>>, x: Tensor<Int8>, bias: Option<Tensor<Int32>>, gemm: Gemm)
    : (r: Result<Tensor<Int32>, LinearError>)
    requires x.WellFormed()
    ensures bias.Some? ==> r == Failure(BiasNotSupported)
    ensures r.Success? <==>
              && bias.None? && "weight" in weights && |x.shape| > 0
              && |weights["weight"].shape| > 0 && Numel(x.shape) > 0
    ensures r.Success? ==>
              && r.value.WellFormed()
              && r.value.shape == Leading(x.shape) + [weights["weight"].shape[0]]
              && r.value.data == KernelOutput(weights, x, bias, gemm).value.data
  {
    match KernelOutput(weights, x, bias, gemm)
    case Failure(e) => Failure(e)
    case Success(y) =>
      NumelSplitLast(x.shape);
      match UnflattenRows(y, Leading(x.shape))
      case Failure(e) => Failure(BadView(e))
      case Success(result) => Success(result)
  }

  /** `apply_weights` as evidently intended: the kernel's matrix is viewed back
      with the input's leading dimensions and the weight's first extent given
      explicitly, so an input with no rows yields an empty result. */
  function ApplyWeightsIntended(weights: map<string, Tensor<Int8>>, x: Tensor<Int8>, bias: Option<Tensor<Int32>>, gemm: Gemm)
    : (r: Result<Tensor<Int32>, LinearError>)
    requires x.WellFormed()
    ensures bias.Some? ==> r == Failure(BiasNotSupported)
    ensures r.Success? <==>
              && bias.None? && "weight" in weights && |x.shape| > 0
              && |weights["weight"].shape| > 0 && Last(x.shape) > 0
    ensures r.Success? ==>
              && r.value.WellFormed()
              && r.value.shape == Leading(x.shape) + [weights["weight"].shape[0]]
              && r.value.data == KernelOutput(weights, x, bias, gemm).value.data
  {
    match KernelOutput(weights, x, bias, gemm)
    case Failure(e) => Failure(e)
    case Success(y) =>
      var out := weights["weight"].shape[0];
      NumelConcat(Leading(x.shape), [out]);
      NumelSmall(out, 0);
      NumelSmall(y.shape[0], out);
      match ViewExact(y, Leading(x.shape) + [out])
      case Failure(e) => Failure(BadView(e))
      case Success(result) => Success(result)
  }

  /** Wherever the input holds an element, the intended definition and the
      code as written agree. */
  lemma IntendedAgreesOnNonEmptyInput(weights: map<string, Tensor<Int8>>, x: Tensor<Int8>, bias: Option<Tensor<Int32>>, gemm: Gemm)
    requires x.WellFormed() && Numel(x.shape) > 0
    ensures ApplyWeightsIntended(weights, x, bias, gemm) == ApplyWeights(weights, x, bias, gemm)
  {
    if |x.shape| > 0 {
      NumelSplitLast(x.shape);
    }
  }

  /** An input with no rows, such as an empty batch of shape [0, 4], makes the
      code as written fail on its final view, while the intended definition
      returns an empty [0, 3] result. */
  lemma EmptyBatchRejected(gemm: Gemm)
    ensures var weights := map["weight" := Tensor([3, 4], seq(12, _ => 0 as Int8))];
            var x := Tensor([0, 4], []);
            && x.WellFormed()
            && ApplyWeights(weights, x, None, gemm) == Failure(BadView(Ambiguous))
            && ApplyWeightsIntended(weights, x, None, gemm) == Success(Tensor([0, 3], []))
  {
    var weights := map["weight" := Tensor([3, 4], seq(12, _ => 0 as Int8))];
    var x: Tensor<Int8> := Tensor([0, 4], []);
    NumelSmall(0, 4);
    NumelSmall(0, 3);
    assert Leading(x.shape) == [0] && Last(x.shape) == 4;
    var y := KernelOutput(weights, x, None, gemm).value;
    assert y.shape == [0, 3] && y.data == [];
    assert Leading(x.shape) + [3] == [0, 3];
  }

  /** The code as written fails on every input whose leading dimensions hold
      no element but whose last one does, whatever the weight and the kernel;
      the intended definition succeeds on each such input. */
  lemma NoRowsRejected(weights: map<string, Tensor<Int8>>, x: Tensor<Int8>, gemm: Gemm)
    requires x.WellFormed() && |x.shape| > 0
    requires Last(x.shape) > 0 && Numel(Leading(x.shape)) == 0
    requires "weight" in weights && |weights["weight"].shape| > 0
    ensures ApplyWeights(weights, x, None, gemm) == Failure(BadView(Ambiguous))
    ensures ApplyWeightsIntended(weights, x, None, gemm).Success?
  {
  }

  /** Every entry of `apply_weights`' result, read through its matrix of rows,
      is the kernel's entry for the input's matrix of rows and the weight. */
  lemma ApplyWeightsEntries(weights: map<string, Tensor<Int8>>, x: Tensor<Int8>, bias: Option<Tensor<Int32>>, gemm: Gemm,
                               i: nat, j: nat)
    requires x.WellFormed()
    requires ApplyWeightsIntended(weights, x, bias, gemm).Success?
    requires i < Numel(Leading(x.shape)) && j < weights["weight"].shape[0]
    ensures var r := ApplyWeightsIntended(weights, x, bias, gemm).value;
            && RowMatrix(r).WellFormed()
            && Entry(RowMatrix(r), i, j) == gemm(RowMatrix(x), weights["weight"], i, j)
  {
    var r := ApplyWeightsIntended(weights, x, bias, gemm).value;
    var out := weights["weight"].shape[0];
    assert Leading(Leading(x.shape) + [out]) == Leading(x.shape);
    assert RowMatrix(r) == KernelOutput(weights, x, bias, gemm).value;
  }
}
