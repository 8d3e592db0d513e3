/** Tensors as text: a flat buffer read by shape. */
module Tensors {

  function Product(dims: seq<nat>): nat {
    if dims == [] then 1 else dims[0] * Product(dims[1..])
  }

  /** `from_json(TensorInfo)`: the size of a tensor. */
  method SizeOf(shape: seq<nat>) returns (size: nat)
    ensures size == Product(shape)
  {
    size := 1;
    var i := 0;
    assert shape[0..] == shape;
    while i < |shape|
      invariant i <= |shape| && size * Product(shape[i..]) == Product(shape)
    {
      assert shape[i..][1..] == shape[i + 1..];
      MultiplyStep(size, shape[i], Product(shape[i + 1..]));
      size := size * shape[i];
      i := i + 1;
    }
  }

  lemma MultiplyStep(a: nat, b: nat, c: nat)
    ensures (a * b) * c == a * (b * c)
  {
  }

  // ---------- Strides ----------

  /** Dividing the size of a depth by its dimension is exact, also after multiplying by an index. */
  lemma ExactStride(i: nat, d: nat, rest: nat)
    requires d > 0
    ensures (d * rest) / d == rest && (i * (d * rest)) / d == i * rest
  {
    ExactQuotient(rest, d);
    assert d * rest == rest * d;
    ExactQuotient(i * rest, d);
    MultiplyStep(i, rest, d);
    assert i * (d * rest) == (i * rest) * d;
  }

  lemma {:induction false} ExactQuotient(q: nat, d: nat)
    requires d > 0
    ensures (q * d) / d == q
  {
    var r := (q * d) / d;
    var m := (q * d) % d;
    assert r * d + m == q * d;
    if r < q {
      Apart(r, q, d);
    } else if q < r {
      Apart(q, r, d);
    }
  }

  lemma Apart(a: nat, b: nat, d: nat)
    requires a < b
    ensures a * d + d <= b * d
  {
    assert (a + 1) * d <= b * d;
  }

  /** Where round `i` starts, and how many elements it is about. */
  function Start(i: nat, total: nat, d: nat): nat
    requires d > 0
  {
    i * total / d
  }

  function Share(total: nat, d: nat): nat
    requires d > 0
  {
    total / d
  }

  lemma RoundIsPart(i: nat, total: nat, d: nat, rest: nat)
    requires i < d && total == d * rest
    ensures Share(total, d) == rest && Start(i, total, d) == i * rest && Start(i, total, d) + rest <= total
  {
    ExactStride(i, d, rest);
    Apart(i, d, rest);
  }

  lemma ProductAt(shape: seq<nat>, depth: nat)
    requires depth < |shape|
    ensures Product(shape[depth..]) == shape[depth] * Product(shape[depth + 1..])
  {
    assert shape[depth..][1..] == shape[depth + 1..];
  }

  // ---------- The text ----------

  /** Texts in brackets, separated by commas. */
  function Joined(parts: seq<string>): string {
    if parts == [] then "" else if |parts| == 1 then parts[0]
    else Joined(parts[..|parts| - 1]) + "," + parts[|parts| - 1]
  }

  /** Part `i` of a buffer that consists of `n` equal parts. */
  function Part(data: seq<string>, i: nat, n: nat, size: nat): (part: seq<string>)
    requires i < n && |data| == n * size
    ensures |part| == size
  {
    Apart(i, n, size);
    data[i * size..i * size + size]
  }

  /** The nested lists of a shape: each list consists of the equal parts of its buffer, in order. */
  function Nested(dims: seq<nat>, data: seq<string>): string
    requires |data| == Product(dims)
    decreases |dims|
  {
    if dims == [] then data[0]
    else "[" + Joined(Parts(dims, data, dims[0])) + "]"
  }

  /** The texts of the first `n` parts. */
  function Parts(dims: seq<nat>, data: seq<string>, n: nat): (texts: seq<string>)
    requires dims != [] && |data| == Product(dims) && n <= dims[0]
    ensures |texts| == n
    decreases |dims|, 0, n
  {
    if n == 0 then []
    else
      Apart(n - 1, dims[0], Product(dims[1..]));
      Parts(dims, data, n - 1) + [Nested(dims[1..], Part(data, n - 1, dims[0], Product(dims[1..])))]
  }

  /** `recursive_string`: the elements are given as text. */
  method RecursiveString(shape: seq<nat>, shapeDepth: nat, data: seq<string>, dataIndex: nat, totalSizeOfDepth: nat)
    returns (output: string)
    requires shapeDepth <= |shape| && totalSizeOfDepth == Product(shape[shapeDepth..])
    requires dataIndex + totalSizeOfDepth <= |data|
    ensures output == Nested(shape[shapeDepth..], data[dataIndex..dataIndex + totalSizeOfDepth])
    decreases |shape| - shapeDepth
  {
    hide Nested, Parts, Product, Joined, Part, Start, Share;
    ghost var dims, held := shape[shapeDepth..], data[dataIndex..dataIndex + totalSizeOfDepth];
    NestedIs(dims, held);
    if shapeDepth == |shape| {
      return data[dataIndex];
    }
    assert dims[1..] == shape[shapeDepth + 1..];
    output := "[";
    var i := 0;
    while i < shape[shapeDepth]
      invariant i <= shape[shapeDepth]
      invariant output == "[" + Joined(Parts(dims, held, i)) + if 0 < i < shape[shapeDepth] then "," else ""
    {
      PartAt(dims, held, i, data, dataIndex);
      var text := RecursiveString(shape, shapeDepth + 1, data,
        dataIndex + Start(i, totalSizeOfDepth, shape[shapeDepth]), Share(totalSizeOfDepth, shape[shapeDepth]));
      JoinedBack(Parts(dims, held, i), text);
      output := output + text;
      if i != shape[shapeDepth] - 1 {
        output := output + ",";
      }
      i := i + 1;
    }
    output := output + "]";
  }

  /** The text of a list of two parts. */
  lemma NestedOfTwo(rest: seq<nat>, data: seq<string>)
    requires |data| == 2 * Product(rest)
    ensures Product([2] + rest) == 2 * Product(rest)
    ensures Nested([2] + rest, data)
         == "[" + Nested(rest, data[..Product(rest)]) + "," + Nested(rest, data[Product(rest)..]) + "]"
  {
    ProductOfTwo(rest);
    hide *;
    var dims, size := [2] + rest, Product(rest);
    assert dims[1..] == rest && dims[0] == 2;
    PartsOfTwo(data, size);
    NestedIs(dims, data);
    OnePartMore(dims, data, 0);
    OnePartMore(dims, data, 1);
    var first, second := Nested(rest, data[..size]), Nested(rest, data[size..]);
    assert Parts(dims, data, 0) == [] && [] + [first] == [first] && [first] + [second] == [first, second];
    JoinedBack([first], second);
    JoinedBack([], first);
    Bracketed(first, second);
  }

  lemma ProductOfTwo(rest: seq<nat>)
    ensures Product([2] + rest) == 2 * Product(rest)
  {
    assert ([2] + rest)[1..] == rest;
  }

  lemma PartsOfTwo(data: seq<string>, size: nat)
    requires |data| == 2 * size
    ensures Part(data, 0, 2, size) == data[..size] && Part(data, 1, 2, size) == data[size..]
  {
  }

  lemma Bracketed(a: string, b: string)
    ensures "[" + (a + "," + b) + "]" == "[" + a + "," + b + "]"
  {
  }

  /** For instance: two rows of two. */
  lemma NestedExample(a: string, b: string, c: string, d: string)
    ensures Product([2, 2]) == 4
    ensures Nested([2, 2], [a, b, c, d]) == "[" + ("[" + a + "," + b + "]") + "," + ("[" + c + "," + d + "]") + "]"
  {
    var data := [a, b, c, d];
    assert [2] + [2] == [2, 2] && [2] + [] == [2] && Product([]) == 1;
    ProductOfTwo([]);
    ProductOfTwo([2]);
    hide *;
    RowOfTwo(a, b);
    RowOfTwo(c, d);
    NestedOfTwo([2], data);
    assert data[..2] == [a, b] && data[2..] == [c, d];
  }

  lemma RowOfTwo(a: string, b: string)
    ensures Product([2]) == 2 && Nested([2], [a, b]) == "[" + a + "," + b + "]"
  {
    assert [2] + [] == [2] && Product([]) == 1;
    ProductOfTwo([]);
    hide *;
    NestedIs([], [a]);
    NestedIs([], [b]);
    NestedOfTwo([], [a, b]);
    assert [a, b][..1] == [a] && [a, b][1..] == [b];
  }

  lemma NestedIs(dims: seq<nat>, data: seq<string>)
    requires |data| == Product(dims)
    ensures dims == [] ==> |data| == 1 && Nested(dims, data) == data[0]
    ensures dims != [] ==> Nested(dims, data) == "[" + Joined(Parts(dims, data, dims[0])) + "]"
    ensures dims != [] ==> Joined(Parts(dims, data, 0)) == ""
  {
  }

  /** The next part, where the division puts it. */
  lemma PartAt(dims: seq<nat>, held: seq<string>, i: nat, data: seq<string>, dataIndex: nat)
    requires dims != [] && i < dims[0] && |held| == Product(dims)
    requires dataIndex + |held| <= |data| && held == data[dataIndex..dataIndex + |held|]
    ensures var size, start := Share(|held|, dims[0]), dataIndex + Start(i, |held|, dims[0]);
      && size == Product(dims[1..]) && start + size <= dataIndex + |held|
      && Parts(dims, held, i + 1) == Parts(dims, held, i) + [Nested(dims[1..], data[start..start + size])]
  {
    RoundIsPart(i, |held|, dims[0], Product(dims[1..]));
    PartIs(held, i, dims[0], Product(dims[1..]));
    hide *;
    SliceOfSlice(data, dataIndex, |held|, Start(i, |held|, dims[0]), Share(|held|, dims[0]));
    OnePartMore(dims, held, i);
  }

  lemma SliceOfSlice<T>(data: seq<T>, from: nat, length: nat, start: nat, size: nat)
    requires from + length <= |data| && start + size <= length
    ensures data[from..from + length][start..start + size] == data[from + start..from + start + size]
  {
    var held, whole := data[from..from + length][start..start + size], data[from + start..from + start + size];
    forall k | 0 <= k < size ensures held[k] == whole[k] {
      assert data[from..from + length][start + k] == data[from + start + k];
    }
  }

  lemma OnePartMore(dims: seq<nat>, held: seq<string>, i: nat)
    requires dims != [] && i < dims[0] && |held| == Product(dims) == dims[0] * Product(dims[1..])
    ensures Parts(dims, held, i + 1)
         == Parts(dims, held, i) + [Nested(dims[1..], Part(held, i, dims[0], Product(dims[1..])))]
  {
    hide Nested, Part, Product;
  }

  lemma PartIs(data: seq<string>, i: nat, n: nat, size: nat)
    requires i < n && |data| == n * size
    ensures Start(i, |data|, n) + size <= |data|
    ensures Part(data, i, n, size) == data[Start(i, |data|, n)..Start(i, |data|, n) + size]
  {
    RoundIsPart(i, |data|, n, size);
  }

  lemma JoinedBack(parts: seq<string>, last: string)
    ensures Joined(parts + [last]) == if parts == [] then last else Joined(parts) + "," + last
  {
    assert (parts + [last])[..|parts|] == parts;
  }

  // ---------- Which elements are read, and in which order ----------

  /** The indices that the recursion reads, in order. */
  function Reads(shape: seq<nat>, shapeDepth: nat, dataIndex: nat, totalSizeOfDepth: nat): seq<nat>
    requires shapeDepth <= |shape|
    decreases |shape| - shapeDepth
  {
    if shapeDepth == |shape| then [dataIndex]
    else ReadsFirst(shape, shapeDepth, dataIndex, totalSizeOfDepth, shape[shapeDepth])
  }

  /** Those of the first `n` rounds. */
  function ReadsFirst(shape: seq<nat>, shapeDepth: nat, dataIndex: nat, totalSizeOfDepth: nat, n: nat): seq<nat>
    requires shapeDepth < |shape| && n <= shape[shapeDepth]
    decreases |shape| - shapeDepth, 0, n
  {
    if n == 0 then []
    else
      var d := shape[shapeDepth];
      ReadsFirst(shape, shapeDepth, dataIndex, totalSizeOfDepth, n - 1)
        + Reads(shape, shapeDepth + 1, dataIndex + Start(n - 1, totalSizeOfDepth, d), Share(totalSizeOfDepth, d))
  }

  function Range(start: nat, n: nat): seq<nat> {
    seq(n, i requires 0 <= i < n => start + i)
  }

  lemma RangeConcat(start: nat, m: nat, n: nat)
    ensures Range(start, m) + Range(start + m, n) == Range(start, m + n)
  {
  }

  /** Every element of the depth is read, each once and in the order in which they are stored. */
  lemma {:induction false} ReadsInOrder(shape: seq<nat>, shapeDepth: nat, dataIndex: nat)
    requires shapeDepth <= |shape|
    ensures Reads(shape, shapeDepth, dataIndex, Product(shape[shapeDepth..]))
         == Range(dataIndex, Product(shape[shapeDepth..]))
    decreases |shape| - shapeDepth, 1, 0
  {
    if shapeDepth < |shape| {
      ProductAt(shape, shapeDepth);
      FirstReadsInOrder(shape, shapeDepth, dataIndex, shape[shapeDepth]);
    }
  }

  lemma {:induction false} FirstReadsInOrder(shape: seq<nat>, shapeDepth: nat, dataIndex: nat, n: nat)
    requires shapeDepth < |shape| && n <= shape[shapeDepth]
    ensures ReadsFirst(shape, shapeDepth, dataIndex, Product(shape[shapeDepth..]), n)
         == Range(dataIndex, n * Product(shape[shapeDepth + 1..]))
    decreases |shape| - shapeDepth, 0, n
  {
    var size := Product(shape[shapeDepth + 1..]);
    if n > 0 {
      ProductAt(shape, shapeDepth);
      RoundIsPart(n - 1, Product(shape[shapeDepth..]), shape[shapeDepth], size);
      FirstReadsInOrder(shape, shapeDepth, dataIndex, n - 1);
      ReadsInOrder(shape, shapeDepth + 1, dataIndex + (n - 1) * size);
      RangeConcat(dataIndex, (n - 1) * size, size);
      assert (n - 1) * size + size == n * size;
    }
  }

  /** The whole tensor: exactly the indices from 0 to its size. */
  lemma ReadsAll(shape: seq<nat>)
    ensures Reads(shape, 0, 0, Product(shape)) == Range(0, Product(shape))
  {
    assert shape[0..] == shape;
    ReadsInOrder(shape, 0, 0);
  }

  // ---------- Row-major order ----------

  predicate Within(coords: seq<nat>, dims: seq<nat>) {
    |coords| == |dims| && forall k :: 0 <= k < |dims| ==> coords[k] < dims[k]
  }

  /** The place of an element in row-major order: the last coordinate moves fastest. */
  function RowMajor(coords: seq<nat>, dims: seq<nat>): nat
    requires |coords| == |dims|
  {
    if dims == [] then 0
    else
      var n := |dims| - 1;
      RowMajor(coords[..n], dims[..n]) * dims[n] + coords[n]
  }

  /** The index at which the recursion ends when it takes the rounds `coords[shapeDepth..]`. */
  function IndexOf(shape: seq<nat>, shapeDepth: nat, dataIndex: nat, totalSizeOfDepth: nat, coords: seq<nat>): nat
    requires shapeDepth <= |shape| && Within(coords, shape)
    decreases |shape| - shapeDepth
  {
    if shapeDepth == |shape| then dataIndex
    else
      var d := shape[shapeDepth];
      IndexOf(shape, shapeDepth + 1, dataIndex + Start(coords[shapeDepth], totalSizeOfDepth, d),
        Share(totalSizeOfDepth, d), coords)
  }

  /** The element with given coordinates is the one at their place in row-major order. */
  lemma {:induction false} IndexIsRowMajor(shape: seq<nat>, shapeDepth: nat, coords: seq<nat>)
    requires shapeDepth <= |shape| && Within(coords, shape)
    ensures IndexOf(shape, shapeDepth,
      RowMajor(coords[..shapeDepth], shape[..shapeDepth]) * Product(shape[shapeDepth..]),
        Product(shape[shapeDepth..]), coords) == RowMajor(coords, shape)
    decreases |shape| - shapeDepth
  {
    var before := RowMajor(coords[..shapeDepth], shape[..shapeDepth]);
    if shapeDepth == |shape| {
      assert coords[..shapeDepth] == coords && shape[..shapeDepth] == shape;
      assert before * 1 == before;
    } else {
      var d, c, size := shape[shapeDepth], coords[shapeDepth], Product(shape[shapeDepth + 1..]);
      ProductAt(shape, shapeDepth);
      RoundIsPart(c, Product(shape[shapeDepth..]), d, size);
      assert shape[..shapeDepth + 1][..shapeDepth] == shape[..shapeDepth];
      assert coords[..shapeDepth + 1][..shapeDepth] == coords[..shapeDepth];
      assert RowMajor(coords[..shapeDepth + 1], shape[..shapeDepth + 1]) == before * d + c;
      Spread(before, d, c, size);
      IndexIsRowMajor(shape, shapeDepth + 1, coords);
    }
  }

  lemma Spread(before: nat, d: nat, c: nat, size: nat)
    ensures before * (d * size) + c * size == (before * d + c) * size
  {
  }
}
