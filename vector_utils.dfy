/** Shape normalisation of Vectors layer data and the triangle meshes drawn for it
    (napari/layers/vectors/_vector_utils.py).

    A numpy array is an `NdArray`: its shape and its elements in row-major (C) order.
    An (N, 2, D) "vector list" holds N vectors, each a start point and a projection
    of length D; element (k, r, i) sits at flat index (2k + r) * D + i. */
module VectorUtils {
  import opened Wrappers

  datatype NdArray = NdArray(shape: seq<nat>, data: seq<real>)

  /** Number of elements of an array of the given shape (`np.prod`; 1 for the empty shape). */
  function Prod(dims: seq<nat>): nat {
    if |dims| == 0 then 1 else dims[0] * Prod(dims[1..])
  }

  predicate WellFormed(a: NdArray) {
    |a.data| == Prod(a.shape)
  }

  /** An (N, 2, D) array: a list of N vectors with start point and projection. */
  predicate IsVectorList(a: NdArray) {
    WellFormed(a) && |a.shape| == 3 && a.shape[1] == 2
  }

  /** An (N1, ..., ND, D) array holding a length-D projection at every pixel. */
  predicate IsImageLike(a: NdArray) {
    WellFormed(a) && |a.shape| >= 2 && a.shape[|a.shape| - 1] == |a.shape| - 1
  }

  /** The pixel grid (N1, ..., ND) of an image-like array. */
  function PixelDims(a: NdArray): seq<nat>
    requires |a.shape| >= 1
  {
    a.shape[..|a.shape| - 1]
  }

  // ---------------------------------------------------------------------------
  // Integer facts about row-major layouts

  lemma MulMono(a: nat, b: nat, c: nat)
    requires a <= b
    ensures a * c <= b * c
  {
  }

  /** Row k of a (n, d) layout lies inside the flat data. */
  lemma RowBound(k: nat, n: nat, d: nat, i: nat)
    requires k < n && i < d
    ensures k * d + i < n * d
  {
    MulMono(k + 1, n, d);
  }

  lemma DivBelow(k: nat, a: nat, p: nat)
    requires k < a * p
    ensures p > 0 && k / p < a && k % p < p
  {
    assert p != 0;
    assert k == (k / p) * p + k % p;
    if k / p >= a {
      MulMono(a, k / p, p);
    }
  }

  lemma Prod3(s: seq<nat>)
    requires |s| == 3
    ensures Prod(s) == s[0] * 2 * s[2] || s[1] != 2
  {
    assert s[1..][1..][1..] == [];
    assert Prod(s[1..][1..]) == s[2];
  }

  lemma DivModOf(q: nat, r: nat, d: nat)
    requires r < d
    ensures (q * d + r) / d == q && (q * d + r) % d == r
  {
    var x := q * d + r;
    var q', r' := x / d, x % d;
    assert x == q' * d + r';
    if q' < q {
      MulMono(q' + 1, q, d);
    } else if q' > q {
      MulMono(q + 1, q', d);
    }
  }

  lemma ProdSnoc(dims: seq<nat>, x: nat)
    ensures Prod(dims + [x]) == Prod(dims) * x
  {
    if |dims| > 0 {
      assert (dims + [x])[1..] == dims[1..] + [x];
      ProdSnoc(dims[1..], x);
    }
  }

  // ---------------------------------------------------------------------------
  // Row-major multi-indices and the 'xy' layout of np.meshgrid

  /** The row-major multi-index of flat position k in an array of shape dims. */
  function Unravel(k: nat, dims: seq<nat>): (m: seq<nat>)
    requires k < Prod(dims)
    ensures |m| == |dims|
    ensures forall j :: 0 <= j < |dims| ==> m[j] < dims[j]
    decreases |dims|
  {
    if |dims| == 0 then []
    else
      var p := Prod(dims[1..]);
      DivBelow(k, dims[0], p);
      var q: nat, r: nat := k / p, k % p;
      var rest := Unravel(r, dims[1..]);
      var m := [q] + rest;
      assert forall j :: 1 <= j < |dims| ==> m[j] == rest[j - 1] && dims[j] == dims[1..][j - 1];
      m
  }

  /** The flat row-major position of multi-index m in an array of shape dims. */
  function Ravel(m: seq<nat>, dims: seq<nat>): (k: nat)
    requires |m| == |dims|
    requires forall j :: 0 <= j < |dims| ==> m[j] < dims[j]
    ensures k < Prod(dims)
    decreases |dims|
  {
    if |dims| == 0 then 0
    else
      var rest := Ravel(m[1..], dims[1..]);
      RowBound(m[0], dims[0], Prod(dims[1..]), rest);
      m[0] * Prod(dims[1..]) + rest
  }

  /** Flattening and unflattening are inverse: every pixel has exactly one row-major position. */
  lemma {:induction false} RavelUnravel(k: nat, dims: seq<nat>)
    requires k < Prod(dims)
    ensures Ravel(Unravel(k, dims), dims) == k
    decreases |dims|
  {
    if |dims| > 0 {
      var p := Prod(dims[1..]);
      DivBelow(k, dims[0], p);
      RavelUnravel(k % p, dims[1..]);
      assert Unravel(k, dims)[1..] == Unravel(k % p, dims[1..]);
    }
  }

  lemma {:induction false} UnravelRavel(m: seq<nat>, dims: seq<nat>)
    requires |m| == |dims|
    requires forall j :: 0 <= j < |dims| ==> m[j] < dims[j]
    ensures Unravel(Ravel(m, dims), dims) == m
    decreases |dims|
  {
    if |dims| > 0 {
      var p := Prod(dims[1..]);
      var rest := Ravel(m[1..], dims[1..]);
      DivModOf(m[0], rest, p);
      UnravelRavel(m[1..], dims[1..]);
    }
  }

  /** The axis that np.meshgrid's default 'xy' indexing puts at position j:
      the first two axes are exchanged when there are at least two. */
  function XyAxis(j: nat, rank: nat): nat {
    if rank >= 2 && j < 2 then 1 - j else j
  }

  function XySwap<T>(s: seq<T>): (r: seq<T>)
    ensures |r| == |s|
    ensures forall j :: 0 <= j < |s| ==> XyAxis(j, |s|) < |s| && r[j] == s[XyAxis(j, |s|)]
  {
    if |s| >= 2 then [s[1], s[0]] + s[2..] else s
  }

  lemma ProdXySwap(dims: seq<nat>)
    ensures Prod(XySwap(dims)) == Prod(dims)
  {
    if |dims| >= 2 {
      var s := XySwap(dims);
      assert s[1..][1..] == dims[2..] && dims[1..][1..] == dims[2..];
      calc {
        Prod(s);
        dims[1] * (dims[0] * Prod(dims[2..]));
        dims[0] * (dims[1] * Prod(dims[2..]));
        Prod(dims);
      }
    }
  }

  /** The start point given to pixel k (k-th element of every flattened np.meshgrid
      output). Each component stays inside its axis' range. */
  function GridStart(dims: seq<nat>, k: nat): (s: seq<nat>)
    requires k < Prod(dims)
    ensures |s| == |dims|
    ensures forall i :: 0 <= i < |dims| ==> s[i] < dims[i]
  {
    ProdXySwap(dims);
    XySwap(Unravel(k, XySwap(dims)))
  }

  // ---------------------------------------------------------------------------
  // convert_image_to_coordinates

  /** Element (k, r, i) of an (N, 2, D) vector list. */
  function Elem3(a: NdArray, k: nat, r: nat, i: nat): real
    requires IsVectorList(a)
    requires k < a.shape[0] && r < 2 && i < a.shape[2]
  {
    var n, d := a.shape[0], a.shape[2];
    Prod3(a.shape);
    RowBound(k * 2 + r, n * 2, d, i);
    a.data[(k * 2 + r) * d + i]
  }

  /** What convert_image_to_coordinates stores at (k, r, i): the grid start for r = 0,
      the k-th pixel's projection (row k of the (-1, D) reshape) for r = 1. */
  function CoordEntry(img: NdArray, k: nat, r: nat, i: nat): real
    requires IsImageLike(img)
  {
    var dims := PixelDims(img);
    var d := |dims|;
    if k < Prod(dims) && i < d then
      if r == 0 then GridStart(dims, k)[i] as real
      else
        assert img.shape == dims + [d];
        ProdSnoc(dims, d);
        RowBound(k, Prod(dims), d, i);
        img.data[k * d + i]
    else 0.0
  }

  function ImageToCoordinates(img: NdArray): (c: NdArray)
    requires IsImageLike(img)
    ensures IsVectorList(c)
    ensures c.shape == [Prod(PixelDims(img)), 2, |PixelDims(img)|]
  {
    var dims := PixelDims(img);
    var n, d := Prod(dims), |dims|;
    var c := NdArray([n, 2, d], seq(n * 2 * d, j requires 0 <= j => CoordEntry(img, (j / d) / 2, (j / d) % 2, j % d)));
    Prod3(c.shape);
    c
  }

  lemma ImageToCoordinatesAt(img: NdArray, k: nat, r: nat, i: nat)
    requires IsImageLike(img)
    requires k < Prod(PixelDims(img)) && r < 2 && i < |PixelDims(img)|
    ensures Elem3(ImageToCoordinates(img), k, r, i) == CoordEntry(img, k, r, i)
  {
    var c := ImageToCoordinates(img);
    var d := |PixelDims(img)|;
    var q := k * 2 + r;
    var j := q * d + i;
    var n := Prod(PixelDims(img));
    RowBound(q, n * 2, d, i);
    assert |c.data| == n * 2 * d;
    DivModOf(q, i, d);
    DivModOf(k, r, 2);
    assert Elem3(c, k, r, i) == c.data[j];
    assert c.data[j] == CoordEntry(img, (j / d) / 2, (j / d) % 2, j % d);
  }

  /** The start point of vector k, component i, equals CoordEntry's grid value and lies in [0, Ni). */
  lemma CoordEntryStart(img: NdArray, k: nat, i: nat)
    requires IsImageLike(img)
    requires k < Prod(PixelDims(img)) && i < |PixelDims(img)|
    ensures CoordEntry(img, k, 0, i) == GridStart(PixelDims(img), k)[i] as real
    ensures 0.0 <= CoordEntry(img, k, 0, i) < PixelDims(img)[i] as real
  {
  }

  /** Flat position of component i of pixel k in an image-like array: the (-1, D) reshape. */
  function PixelIndex(img: NdArray, k: nat, i: nat): nat
    requires |img.shape| >= 1
  {
    k * |PixelDims(img)| + i
  }

  /** The projection of vector k, component i, is element (k, i) of the (-1, D) reshape. */
  lemma CoordEntryProjection(img: NdArray, k: nat, i: nat)
    requires IsImageLike(img)
    requires k < Prod(PixelDims(img)) && i < |PixelDims(img)|
    ensures PixelIndex(img, k, i) < |img.data|
    ensures CoordEntry(img, k, 1, i) == img.data[PixelIndex(img, k, i)]
  {
    var dims := PixelDims(img);
    var d := |dims|;
    assert img.shape == dims + [d];
    ProdSnoc(dims, d);
    RowBound(k, Prod(dims), d, i);
  }

  /** convert_image_to_coordinates on an (N1, ..., ND, D) array gives N1 * ... * ND
      vectors whose start component i lies in [0, Ni). */
  lemma ImageToCoordinatesStarts(img: NdArray)
    requires IsImageLike(img)
    ensures ImageToCoordinates(img).shape == [Prod(PixelDims(img)), 2, |PixelDims(img)|]
    ensures forall k, i :: 0 <= k < Prod(PixelDims(img)) && 0 <= i < |PixelDims(img)| ==>
              0.0 <= Elem3(ImageToCoordinates(img), k, 0, i) < PixelDims(img)[i] as real
  {
    forall k, i | 0 <= k < Prod(PixelDims(img)) && 0 <= i < |PixelDims(img)|
      ensures 0.0 <= Elem3(ImageToCoordinates(img), k, 0, i) < PixelDims(img)[i] as real
    {
      ImageToCoordinatesAt(img, k, 0, i);
      CoordEntryStart(img, k, i);
    }
  }

  /** Vector k of convert_image_to_coordinates projects along the k-th pixel vector of
      the image in row-major order. */
  lemma ImageToCoordinatesProjections(img: NdArray)
    requires IsImageLike(img)
    ensures forall k: nat, i: nat :: k < Prod(PixelDims(img)) && i < |PixelDims(img)| ==>
              PixelIndex(img, k, i) < |img.data| &&
              Elem3(ImageToCoordinates(img), k, 1, i) == img.data[PixelIndex(img, k, i)]
  {
    forall k: nat, i: nat | k < Prod(PixelDims(img)) && i < |PixelDims(img)|
      ensures PixelIndex(img, k, i) < |img.data| &&
              Elem3(ImageToCoordinates(img), k, 1, i) == img.data[PixelIndex(img, k, i)]
    {
      ImageToCoordinatesAt(img, k, 1, i);
      CoordEntryProjection(img, k, i);
    }
  }

  /** The loop of convert_image_to_coordinates: fill a preallocated (N, 2, D) array,
      one grid axis at a time, then the projections. */
  method ConvertImageToCoordinates(img: NdArray) returns (coords: array3<real>)
    requires IsImageLike(img)
    ensures fresh(coords)
    ensures var c := ImageToCoordinates(img);
            && coords.Length0 == c.shape[0] && coords.Length1 == 2 && coords.Length2 == c.shape[2]
            && forall k, r, i :: 0 <= k < coords.Length0 && 0 <= r < 2 && 0 <= i < coords.Length2 ==>
                 coords[k, r, i] == Elem3(c, k, r, i)
  {
    var dims := PixelDims(img);
    var n, d := Prod(dims), |dims|;
    coords := new real[n, 2, d];
    for i := 0 to d
      invariant forall k, j :: 0 <= k < n && 0 <= j < i ==> coords[k, 0, j] == GridStart(dims, k)[j] as real
    {
      SetStartColumn(dims, coords, i);
    }
    SetProjections(img, coords);
    CoordEntriesAreImageToCoordinates(img, coords);
  }

  /** `coords[:, 0, i] = g.flatten()`: the i-th start component of every vector; no other
      cell changes. */
  method SetStartColumn(dims: seq<nat>, coords: array3<real>, i: nat)
    requires coords.Length0 == Prod(dims) && coords.Length1 == 2 && coords.Length2 == |dims|
    requires i < |dims|
    modifies coords
    ensures forall k :: 0 <= k < coords.Length0 ==> coords[k, 0, i] == GridStart(dims, k)[i] as real
    ensures forall k, r, j :: 0 <= k < coords.Length0 && 0 <= r < 2 && 0 <= j < coords.Length2 && (r != 0 || j != i) ==>
              coords[k, r, j] == old(coords[k, r, j])
  {
    for k := 0 to coords.Length0
      invariant forall k' :: 0 <= k' < k ==> coords[k', 0, i] == GridStart(dims, k')[i] as real
      invariant forall k', r, j :: 0 <= k' < coords.Length0 && 0 <= r < 2 && 0 <= j < coords.Length2 && (r != 0 || j != i) ==>
                  coords[k', r, j] == old(coords[k', r, j])
    {
      coords[k, 0, i] := GridStart(dims, k)[i] as real;
    }
  }

  /** `coords[:, 1, :] = np.reshape(vectors, (-1, D))`: every projection; the start points
      do not change. */
  method SetProjections(img: NdArray, coords: array3<real>)
    requires IsImageLike(img)
    requires coords.Length0 == Prod(PixelDims(img)) && coords.Length1 == 2 && coords.Length2 == |PixelDims(img)|
    modifies coords
    ensures forall k, r, j :: 0 <= k < coords.Length0 && 0 <= r < 2 && 0 <= j < coords.Length2 ==>
              coords[k, r, j] == if r == 1 then CoordEntry(img, k, 1, j) else old(coords[k, r, j])
  {
    for k := 0 to coords.Length0
      invariant forall k', r, j :: 0 <= k' < coords.Length0 && 0 <= r < 2 && 0 <= j < coords.Length2 ==>
                  coords[k', r, j] == if r == 1 && k' < k then CoordEntry(img, k', 1, j) else old(coords[k', r, j])
    {
      for j := 0 to coords.Length2
        invariant forall k', r, j' :: 0 <= k' < coords.Length0 && 0 <= r < 2 && 0 <= j' < coords.Length2 ==>
                    coords[k', r, j'] == if r == 1 && (k' < k || (k' == k && j' < j)) then CoordEntry(img, k', 1, j') else old(coords[k', r, j'])
      {
        CoordEntryProjection(img, k, j);
        coords[k, 1, j] := img.data[PixelIndex(img, k, j)];
      }
    }
  }

  /** An (N, 2, D) array whose start cells hold the grid and whose projection cells hold
      the pixels' projections is the result of convert_image_to_coordinates. */
  lemma CoordEntriesAreImageToCoordinates(img: NdArray, coords: array3<real>)
    requires IsImageLike(img)
    requires coords.Length0 == Prod(PixelDims(img)) && coords.Length1 == 2 && coords.Length2 == |PixelDims(img)|
    requires forall k, i :: 0 <= k < coords.Length0 && 0 <= i < coords.Length2 ==>
               coords[k, 0, i] == GridStart(PixelDims(img), k)[i] as real
    requires forall k, i :: 0 <= k < coords.Length0 && 0 <= i < coords.Length2 ==>
               coords[k, 1, i] == CoordEntry(img, k, 1, i)
    ensures forall k, r, i :: 0 <= k < coords.Length0 && 0 <= r < 2 && 0 <= i < coords.Length2 ==>
              coords[k, r, i] == Elem3(ImageToCoordinates(img), k, r, i)
  {
    forall k, r, i | 0 <= k < coords.Length0 && 0 <= r < 2 && 0 <= i < coords.Length2
      ensures coords[k, r, i] == Elem3(ImageToCoordinates(img), k, r, i)
    {
      ImageToCoordinatesAt(img, k, r, i);
      if r == 0 {
        CoordEntryStart(img, k, i);
      }
    }
  }

  // ---------------------------------------------------------------------------
  // fix_data_vectors

  datatype VectorsError =
    | ShapeIndexError                        // `vectors.shape[-1]` on a 0-d array
    | CannotReshape(shape: seq<nat>)         // "could not reshape Vector data from ... to (N, 2, D)"
    | NdimMismatch(ndim: nat, dataNdim: nat) // "Vectors dimensions must be equal to ndim"

  /** `np.asarray`, with a missing input read as the empty list (a (0,)-shaped array). */
  function AsArray(vectors: Option<NdArray>): NdArray {
    vectors.GetOr(NdArray([0], []))
  }

  predicate IsCoordinateLike(a: NdArray) {
    |a.shape| == 3 && a.shape[1] == 2
  }

  /** fix_data_vectors: bring Vectors data into (N, 2, D) form and settle ndim. The branch
      order is coordinate-like, empty, image-like, single vector, error. Whatever succeeds
      is a vector list whose third dimension is the returned ndim, and a supplied ndim
      is never overridden. */
  function FixDataVectors(vectors: Option<NdArray>, ndim: Option<nat>): (r: Result<(NdArray, nat), VectorsError>)
    requires vectors.Some? ==> WellFormed(vectors.value)
    ensures r.Ok? ==> IsVectorList(r.value.0) && r.value.1 == r.value.0.shape[2]
    ensures r.Ok? && ndim.Some? ==> r.value.1 == ndim.value
  {
    var v := AsArray(vectors);
    var shaped: Result<NdArray, VectorsError> :=
      if IsCoordinateLike(v) then Ok(v)
      else if |v.data| == 0 then Ok(NdArray([0, 2, ndim.GetOr(2)], []))
      else if |v.shape| == 0 then Err(ShapeIndexError)
      else if v.shape[|v.shape| - 1] == |v.shape| - 1 then Ok(ImageToCoordinates(v))
      else
        // np.atleast_3d does not lift a single (2, D) vector, so it is done by hand
        var lifted := if |v.shape| == 2 then NdArray([1] + v.shape, v.data) else v;
        assert lifted.shape[1..] == v.shape || lifted == v;
        if !IsCoordinateLike(lifted) then Err(CannotReshape(lifted.shape)) else Ok(lifted);
    match shaped
    case Err(e) => Err(e)
    case Ok(a) =>
      if ndim.Some? && ndim.value != a.shape[2] then Err(NdimMismatch(ndim.value, a.shape[2]))
      else Ok((a, a.shape[2]))
  }

  /** A missing or empty input that is not already (N, 2, D) gives a (0, 2, ndim) array,
      ndim defaulting to 2. */
  lemma FixDataVectorsEmpty(vectors: Option<NdArray>, ndim: Option<nat>)
    requires vectors.Some? ==> WellFormed(vectors.value)
    requires vectors.None? || (|vectors.value.data| == 0 && !IsCoordinateLike(vectors.value))
    ensures FixDataVectors(vectors, ndim) == Ok((NdArray([0, 2, ndim.GetOr(2)], []), ndim.GetOr(2)))
  {
  }

  /** Coordinate-like data is returned unchanged, unless it contradicts a supplied ndim. */
  lemma FixDataVectorsCoordinateLike(v: NdArray, ndim: Option<nat>)
    requires WellFormed(v) && IsCoordinateLike(v)
    ensures ndim.None? || ndim.value == v.shape[2] ==> FixDataVectors(Some(v), ndim) == Ok((v, v.shape[2]))
    ensures ndim.Some? && ndim.value != v.shape[2] ==>
              FixDataVectors(Some(v), ndim) == Err(NdimMismatch(ndim.value, v.shape[2]))
  {
  }

  /** The image-like test comes before the single-vector lift: a non-empty (N, 1) array is
      N one-dimensional pixels, not one vector. */
  lemma FixDataVectorsImageBeforeSingle(v: NdArray)
    requires WellFormed(v) && |v.shape| == 2 && v.shape[1] == 1 && |v.data| > 0
    ensures FixDataVectors(Some(v), None) == Ok((ImageToCoordinates(v), 1))
    ensures ImageToCoordinates(v).shape == [v.shape[0], 2, 1]
  {
    assert PixelDims(v) == [v.shape[0]];
    assert Prod([v.shape[0]]) == v.shape[0] * Prod([]);
  }

  /** A non-empty rank-2 array that is not image-like is one vector, lifted to (1, 2, D)
      when its first dimension is 2 and rejected otherwise. */
  /** Any non-empty (N1, ..., ND, D) array that is not already (N, 2, D) is converted to
      coordinates, and D becomes ndim unless a different ndim was supplied. */
  lemma FixDataVectorsImageLike(v: NdArray, ndim: Option<nat>)
    requires WellFormed(v) && !IsCoordinateLike(v) && |v.data| > 0
    requires |v.shape| > 0 && v.shape[|v.shape| - 1] == |v.shape| - 1
    ensures var d := |v.shape| - 1;
            && (ndim.None? || ndim.value == d ==> FixDataVectors(Some(v), ndim) == Ok((ImageToCoordinates(v), d)))
            && (ndim.Some? && ndim.value != d ==> FixDataVectors(Some(v), ndim) == Err(NdimMismatch(ndim.value, d)))
  {
    assert IsImageLike(v);
  }

  lemma FixDataVectorsSingleVector(v: NdArray, ndim: Option<nat>)
    requires WellFormed(v) && |v.shape| == 2 && v.shape[1] != 1 && |v.data| > 0
    ensures v.shape[0] == 2 && (ndim.None? || ndim.value == v.shape[1]) ==>
              FixDataVectors(Some(v), ndim) == Ok((NdArray([1, 2, v.shape[1]], v.data), v.shape[1]))
    ensures v.shape[0] != 2 ==> FixDataVectors(Some(v), ndim) == Err(CannotReshape([1] + v.shape))
  {
    assert [1] + v.shape == [1, v.shape[0], v.shape[1]];
  }

  /** Any other non-empty shape that is neither (N, 2, D) nor image-like is rejected. */
  lemma FixDataVectorsRejects(v: NdArray, ndim: Option<nat>)
    requires WellFormed(v) && |v.data| > 0 && !IsCoordinateLike(v)
    requires |v.shape| == 1 || |v.shape| >= 3
    requires v.shape[|v.shape| - 1] != |v.shape| - 1
    ensures FixDataVectors(Some(v), ndim) == Err(CannotReshape(v.shape))
  {
  }

  /** A 0-d (scalar) input fails on `vectors.shape[-1]`. */
  lemma FixDataVectorsScalar(x: real, ndim: Option<nat>)
    ensures FixDataVectors(Some(NdArray([], [x])), ndim) == Err(ShapeIndexError)
  {
  }

  // ---------------------------------------------------------------------------
  // generate_vector_meshes_2D and generate_vector_meshes

  datatype Triangle = Triangle(a: nat, b: nat, c: nat)

  /** segment_normal(start, end, p): its definition is not part of this model; it is
      only required to return a vector of the segment's dimension. */
  type SegmentNormal = (seq<real>, seq<real>, seq<real>) -> seq<real>

  ghost predicate KeepsDim(normal: SegmentNormal) {
    forall a, b, q :: |normal(a, b, q)| == |a|
  }

  /** Row m of the (2N, D) reshape of an (N, 2, D) vector list: the start of vector m / 2
      for even m, its projection for odd m. */
  function Row(v: NdArray, m: nat): (row: seq<real>)
    requires IsVectorList(v) && m < 2 * v.shape[0]
    ensures |row| == v.shape[2]
  {
    seq(v.shape[2], i requires 0 <= i < v.shape[2] => Elem3(v, m / 2, m % 2, i))
  }

  function Reshaped(v: NdArray): (rows: seq<seq<real>>)
    requires IsVectorList(v)
    ensures |rows| == 2 * v.shape[0]
    ensures forall m :: 0 <= m < |rows| ==> |rows[m]| == v.shape[2]
  {
    seq(2 * v.shape[0], m requires 0 <= m < 2 * v.shape[0] => Row(v, m))
  }

  predicate Uniform(rows: seq<seq<real>>, d: nat) {
    forall m :: 0 <= m < |rows| ==> |rows[m]| == d
  }

  /** The end of a segment: its start plus `length` times its projection. */
  function EndPoint(start: real, length: real, proj: real): real {
    start + length * proj
  }

  /** `vectors[1::2] = vectors[::2] + length * vectors[1::2]`: every odd row (a projection)
      becomes the end point of its segment; even rows (start points) stay. */
  function Endpoints(rows: seq<seq<real>>, d: nat, length: real): (r: seq<seq<real>>)
    requires |rows| % 2 == 0 && Uniform(rows, d)
    ensures |r| == |rows| && Uniform(r, d)
  {
    seq(|rows|, m requires 0 <= m < |rows| =>
      if m % 2 == 0 then rows[m]
      else seq(d, i requires 0 <= i < d => EndPoint(rows[m - 1][i], length, rows[m][i])))
  }

  /** The vertices of generate_vector_meshes_2D: vertex w sits on segment row w / 2 (its
      start for w mod 4 in {0, 1}, its end for {2, 3}), pushed by half the width along the
      segment's normal, backwards for even w and forwards for odd w. */
  function VerticesFromRows(segs: seq<seq<real>>, d: nat, width: real, normal: SegmentNormal, p: seq<real>): (vs: seq<seq<real>>)
    requires |segs| % 2 == 0 && Uniform(segs, d) && KeepsDim(normal)
    ensures |vs| == 2 * |segs| && Uniform(vs, d)
  {
    seq(2 * |segs|, w requires 0 <= w < 2 * |segs| => Vertex(segs, d, width, normal, p, w))
  }

  /** Vertex w: `centers[w] + width * offsets[w] / 2`, where the centre is row w / 2 and the
      offset is the normal of segment w / 4, negated for even w. */
  function Vertex(segs: seq<seq<real>>, d: nat, width: real, normal: SegmentNormal, p: seq<real>, w: nat): (v: seq<real>)
    requires |segs| % 2 == 0 && Uniform(segs, d) && KeepsDim(normal) && w < 2 * |segs|
    ensures |v| == d
  {
    var center := segs[w / 2];
    var k := w / 4;
    var offset := normal(segs[2 * k], segs[2 * k + 1], p);
    var sign := if w % 2 == 0 then -1.0 else 1.0;
    seq(d, i requires 0 <= i < d => center[i] + width * (sign * offset[i]) / 2.0)
  }


  /** The triangle list of generate_vector_meshes_2D over `rows` reshaped rows. */
  function Triangles(rows: nat): (ts: seq<Triangle>)
    ensures |ts| == rows
  {
    seq(rows, i requires 0 <= i < rows =>
      if i % 2 == 0 then Triangle(2 * i, 2 * i + 1, 2 * i + 2)
      else Triangle(2 * i - 1, 2 * i, 2 * i + 1))
  }

  /** `offset + t_b`: the same triangles over vertices stored `offset` places later. */
  function Shift(ts: seq<Triangle>, offset: nat): (r: seq<Triangle>)
    ensures |r| == |ts|
  {
    seq(|ts|, i requires 0 <= i < |ts| => Triangle(ts[i].a + offset, ts[i].b + offset, ts[i].c + offset))
  }

  predicate IndicesBelow(ts: seq<Triangle>, bound: nat) {
    forall t :: t in ts ==> t.a < bound && t.b < bound && t.c < bound
  }

  const P001: seq<real> := [0.0, 0.0, 1.0]
  const P100: seq<real> := [1.0, 0.0, 0.0]

  /** The vertices generate_vector_meshes_2D computes for an (N, 2, D) vector list. */
  function MeshVertices2D(v: NdArray, width: real, length: real, normal: SegmentNormal, p: seq<real>): seq<seq<real>>
    requires IsVectorList(v) && KeepsDim(normal)
  {
    VerticesFromRows(Endpoints(Reshaped(v), v.shape[2], length), v.shape[2], width, normal, p)
  }

  /** The 2N triangles over the 4N vertices of N vectors: every index is below 4N, and the
      two triangles of vector k cover exactly its quad 4k .. 4k + 3, sharing the diagonal
      (4k + 1, 4k + 2). */
  lemma TrianglesSpec(n: nat)
    ensures |Triangles(2 * n)| == 2 * n
    ensures IndicesBelow(Triangles(2 * n), 4 * n)
    ensures forall k :: 0 <= k < n ==>
              Triangles(2 * n)[2 * k] == Triangle(4 * k, 4 * k + 1, 4 * k + 2) &&
              Triangles(2 * n)[2 * k + 1] == Triangle(4 * k + 1, 4 * k + 2, 4 * k + 3)
  {
    var ts := Triangles(2 * n);
    forall i | 0 <= i < |ts| ensures ts[i].a < 4 * n && ts[i].b < 4 * n && ts[i].c < 4 * n {
      if i % 2 == 0 {
        assert ts[i] == Triangle(2 * i, 2 * i + 1, 2 * i + 2);
      } else {
        assert ts[i] == Triangle(2 * i - 1, 2 * i, 2 * i + 1);
      }
    }
    forall k | 0 <= k < n
      ensures ts[2 * k] == Triangle(4 * k, 4 * k + 1, 4 * k + 2)
      ensures ts[2 * k + 1] == Triangle(4 * k + 1, 4 * k + 2, 4 * k + 3)
    {
      assert (2 * k) % 2 == 0 && (2 * k + 1) % 2 == 1;
    }
  }

  /** Shifting triangles by the size of the first vertex batch keeps them below the size
      of both batches together. */
  lemma ShiftBelow(ts: seq<Triangle>, bound: nat, offset: nat)
    requires IndicesBelow(ts, bound)
    ensures IndicesBelow(Shift(ts, offset), bound + offset)
  {
    var r := Shift(ts, offset);
    forall t | t in r ensures t.a < bound + offset && t.b < bound + offset && t.c < bound + offset {
      var i :| 0 <= i < |r| && r[i] == t;
      assert ts[i] in ts;
    }
  }

  /** Endpoints keeps the start row of segment k and turns its projection row into
      start + length * projection. */
  lemma EndpointsOfSegment(rows: seq<seq<real>>, d: nat, length: real, k: nat, i: nat)
    requires |rows| % 2 == 0 && Uniform(rows, d) && 2 * k + 1 < |rows| && i < d
    ensures Endpoints(rows, d, length)[2 * k][i] == rows[2 * k][i]
    ensures Endpoints(rows, d, length)[2 * k + 1][i] == EndPoint(rows[2 * k][i], length, rows[2 * k + 1][i])
  {
    assert (2 * k) % 2 == 0 && (2 * k + 1) % 2 == 1;
  }

  /** Vertices 4k and 4k + 1 are mirror images about segment row 2k, vertices 4k + 2 and
      4k + 3 about row 2k + 1: each pair averages to its row. */
  lemma VertexPairsAverage(segs: seq<seq<real>>, d: nat, width: real, normal: SegmentNormal, p: seq<real>, k: nat, i: nat)
    requires |segs| % 2 == 0 && Uniform(segs, d) && KeepsDim(normal)
    requires 2 * k + 1 < |segs| && i < d
    ensures var vs := VerticesFromRows(segs, d, width, normal, p);
            && (vs[4 * k][i] + vs[4 * k + 1][i]) / 2.0 == segs[2 * k][i]
            && (vs[4 * k + 2][i] + vs[4 * k + 3][i]) / 2.0 == segs[2 * k + 1][i]
  {
    var vs := VerticesFromRows(segs, d, width, normal, p);
    var h := width * normal(segs[2 * k], segs[2 * k + 1], p)[i] / 2.0;
    VertexOfSegment(segs, d, width, normal, p, k, 0, i);
    VertexOfSegment(segs, d, width, normal, p, k, 1, i);
    VertexOfSegment(segs, d, width, normal, p, k, 2, i);
    VertexOfSegment(segs, d, width, normal, p, k, 3, i);
    Straddle(vs[4 * k][i], vs[4 * k + 1][i], segs[2 * k][i], h);
    Straddle(vs[4 * k + 2][i], vs[4 * k + 3][i], segs[2 * k + 1][i], h);
  }

  /** Two points the same distance on either side of a centre average to it. */
  lemma Straddle(lo: real, hi: real, center: real, h: real)
    requires lo == center - h && hi == center + h
    ensures (lo + hi) / 2.0 == center
  {
  }

  /** Vertex 4k + j sits on row 2k + j / 2, half the scaled normal of segment k away,
      backwards for even j. */
  lemma VertexOfSegment(segs: seq<seq<real>>, d: nat, width: real, normal: SegmentNormal, p: seq<real>, k: nat, j: nat, i: nat)
    requires |segs| % 2 == 0 && Uniform(segs, d) && KeepsDim(normal)
    requires 2 * k + 1 < |segs| && j < 4 && i < d
    ensures var h := width * normal(segs[2 * k], segs[2 * k + 1], p)[i] / 2.0;
            VerticesFromRows(segs, d, width, normal, p)[4 * k + j][i] == segs[2 * k + j / 2][i] + (if j % 2 == 0 then -h else h)
  {
    var w := 4 * k + j;
    assert VerticesFromRows(segs, d, width, normal, p)[w] == Vertex(segs, d, width, normal, p, w);
    assert w / 4 == k && w / 2 == 2 * k + j / 2 && w % 2 == j % 2;
    var off := normal(segs[2 * k], segs[2 * k + 1], p)[i];
    assert width * (-1.0 * off) / 2.0 == -(width * off / 2.0);
    assert width * (1.0 * off) / 2.0 == width * off / 2.0;
  }


  /** Each vertex pair straddles a segment end point: vertices 4k and 4k + 1 average to
      the start of vector k (row 2k of the reshape), vertices 4k + 2 and 4k + 3 to its end,
      start + length * projection (row 2k + 1 being the projection). */
  lemma MeshVertices2DSpec(v: NdArray, width: real, length: real, normal: SegmentNormal, p: seq<real>, k: nat, i: nat)
    requires IsVectorList(v) && KeepsDim(normal)
    requires k < v.shape[0] && i < v.shape[2]
    ensures |MeshVertices2D(v, width, length, normal, p)| == 4 * v.shape[0]
    ensures var vs := MeshVertices2D(v, width, length, normal, p);
            && (vs[4 * k][i] + vs[4 * k + 1][i]) / 2.0 == Row(v, 2 * k)[i]
            && (vs[4 * k + 2][i] + vs[4 * k + 3][i]) / 2.0 == EndPoint(Row(v, 2 * k)[i], length, Row(v, 2 * k + 1)[i])
  {
    var rows := Reshaped(v);
    var start, proj := Row(v, 2 * k)[i], Row(v, 2 * k + 1)[i];
    assert rows[2 * k][i] == start && rows[2 * k + 1][i] == proj;
    MeshOfRows(rows, v.shape[2], width, length, normal, p, k, i);
  }

  lemma MeshOfRows(rows: seq<seq<real>>, d: nat, width: real, length: real, normal: SegmentNormal, p: seq<real>, k: nat, i: nat)
    requires |rows| % 2 == 0 && Uniform(rows, d) && KeepsDim(normal) && 2 * k + 1 < |rows| && i < d
    ensures var vs := VerticesFromRows(Endpoints(rows, d, length), d, width, normal, p);
            && (vs[4 * k][i] + vs[4 * k + 1][i]) / 2.0 == rows[2 * k][i]
            && (vs[4 * k + 2][i] + vs[4 * k + 3][i]) / 2.0 == EndPoint(rows[2 * k][i], length, rows[2 * k + 1][i])
  {
    EndpointsOfSegment(rows, d, length, k, i);
    VertexPairsAverage(Endpoints(rows, d, length), d, width, normal, p, k, i);
  }

  function RowsOf(a: array2<real>): (rs: seq<seq<real>>)
    reads a
    ensures |rs| == a.Length0 && Uniform(rs, a.Length1)
  {
    seq(a.Length0, m requires 0 <= m < a.Length0 reads a =>
      seq(a.Length1, i requires 0 <= i < a.Length1 reads a => a[m, i]))
  }

  /** Row m becomes row m - 1 plus length times row m; no other cell changes. */
  method EndRow(rows: array2<real>, m: nat, length: real)
    requires 1 <= m < rows.Length0
    modifies rows
    ensures forall m', i :: 0 <= m' < rows.Length0 && 0 <= i < rows.Length1 ==>
              rows[m', i] == if m' == m then EndPoint(old(rows[m - 1, i]), length, old(rows[m, i])) else old(rows[m', i])
  {
    for i := 0 to rows.Length1
      invariant forall m', i' :: 0 <= m' < rows.Length0 && 0 <= i' < rows.Length1 ==>
                  rows[m', i'] == if m' == m && i' < i then EndPoint(old(rows[m - 1, i']), length, old(rows[m, i'])) else old(rows[m', i'])
    {
      rows[m, i] := rows[m - 1, i] + length * rows[m, i];
    }
  }

  /** Line 103 of generate_vector_meshes_2D, in place on the reshaped copy. */
  method SegmentEndsInPlace(rows: array2<real>, length: real)
    requires rows.Length0 % 2 == 0
    modifies rows
    ensures RowsOf(rows) == Endpoints(old(RowsOf(rows)), rows.Length1, length)
  {
    ghost var before := RowsOf(rows);
    assert forall m, i :: 0 <= m < rows.Length0 && 0 <= i < rows.Length1 ==> before[m][i] == old(rows[m, i]);
    for m := 0 to rows.Length0
      invariant forall m', i :: 0 <= m' < rows.Length0 && 0 <= i < rows.Length1 ==>
                  rows[m', i] == if m' < m && m' % 2 == 1 then EndPoint(old(rows[m' - 1, i]), length, old(rows[m', i]))
                                 else old(rows[m', i])
    {
      if m % 2 == 1 {
        EndRow(rows, m, length);
      }
    }
    RowsAreEndpoints(rows, before, length);
  }

  lemma RowsAreEndpoints(rows: array2<real>, before: seq<seq<real>>, length: real)
    requires |before| == rows.Length0 && rows.Length0 % 2 == 0 && Uniform(before, rows.Length1)
    requires forall m, i :: 0 <= m < rows.Length0 && 0 <= i < rows.Length1 ==>
               rows[m, i] == if m % 2 == 1 then EndPoint(before[m - 1][i], length, before[m][i]) else before[m][i]
    ensures RowsOf(rows) == Endpoints(before, rows.Length1, length)
  {
    var after, ends := RowsOf(rows), Endpoints(before, rows.Length1, length);
    forall m | 0 <= m < rows.Length0 ensures after[m] == ends[m] {
      forall i | 0 <= i < rows.Length1 ensures after[m][i] == ends[m][i] {
        assert after[m][i] == rows[m, i];
      }
    }
  }

  /** generate_vector_meshes_2D: 4N vertices and 2N triangles for N vectors. */
  method GenerateVectorMeshes2D(vectors: NdArray, width: real, length: real, normal: SegmentNormal, p: seq<real>)
    returns (vertices: seq<seq<real>>, triangles: seq<Triangle>)
    requires IsVectorList(vectors) && KeepsDim(normal)
    ensures vertices == MeshVertices2D(vectors, width, length, normal, p)
    ensures triangles == Triangles(2 * vectors.shape[0])
  {
    var rows := Reshape(vectors);
    SegmentEndsInPlace(rows, length);
    vertices := VerticesFromRows(RowsOf(rows), vectors.shape[2], width, normal, p);
    triangles := Triangles(2 * vectors.shape[0]);
  }

  /** `np.reshape(copy(vectors), (-1, ndim))`: a fresh (2N, D) array of the rows. */
  method Reshape(vectors: NdArray) returns (rows: array2<real>)
    requires IsVectorList(vectors)
    ensures fresh(rows)
    ensures RowsOf(rows) == Reshaped(vectors)
  {
    var n, d := vectors.shape[0], vectors.shape[2];
    rows := new real[2 * n, d];
    for m := 0 to 2 * n
      invariant forall m', i :: 0 <= m' < m && 0 <= i < d ==> rows[m', i] == Row(vectors, m')[i]
    {
      for i := 0 to d
        invariant forall m', i' :: 0 <= m' < m && 0 <= i' < d ==> rows[m', i'] == Row(vectors, m')[i']
        invariant forall i' :: 0 <= i' < i ==> rows[m, i'] == Row(vectors, m)[i']
      {
        rows[m, i] := Row(vectors, m)[i];
      }
    }
    RowsAreReshaped(rows, vectors);
  }

  lemma RowsAreReshaped(rows: array2<real>, vectors: NdArray)
    requires IsVectorList(vectors) && rows.Length0 == 2 * vectors.shape[0] && rows.Length1 == vectors.shape[2]
    requires forall m, i :: 0 <= m < rows.Length0 && 0 <= i < rows.Length1 ==> rows[m, i] == Row(vectors, m)[i]
    ensures RowsOf(rows) == Reshaped(vectors)
  {
    var after, want := RowsOf(rows), Reshaped(vectors);
    forall m | 0 <= m < rows.Length0 ensures after[m] == want[m] {
      forall i | 0 <= i < rows.Length1 ensures after[m][i] == want[m][i] {
        assert after[m][i] == rows[m, i];
      }
    }
  }

  /** generate_vector_meshes: one 2D mesh in the plane normal to (0, 0, 1) for 2D vectors;
      otherwise that mesh followed by the one normal to (1, 0, 0), whose triangles are
      shifted past the first batch of vertices. */
  method GenerateVectorMeshes(vectors: NdArray, width: real, length: real, normal: SegmentNormal)
    returns (vertices: seq<seq<real>>, triangles: seq<Triangle>)
    requires IsVectorList(vectors) && KeepsDim(normal)
    ensures var n := vectors.shape[0];
            var va := MeshVertices2D(vectors, width, length, normal, P001);
            if vectors.shape[2] == 2 then vertices == va && triangles == Triangles(2 * n)
            else
              && vertices == va + MeshVertices2D(vectors, width, length, normal, P100)
              && triangles == Triangles(2 * n) + Shift(Triangles(2 * n), |va|)
    ensures |vertices| == (if vectors.shape[2] == 2 then 4 else 8) * vectors.shape[0]
    ensures IndicesBelow(triangles, |vertices|)
  {
    var n := vectors.shape[0];
    TrianglesSpec(n);
    if vectors.shape[2] == 2 {
      vertices, triangles := GenerateVectorMeshes2D(vectors, width, length, normal, P001);
    } else {
      var va, ta := GenerateVectorMeshes2D(vectors, width, length, normal, P001);
      var vb, tb := GenerateVectorMeshes2D(vectors, width, length, normal, P100);
      vertices := va + vb;
      triangles := ta + Shift(tb, |va|);
      ShiftBelow(tb, 4 * n, |va|);
      assert IndicesBelow(ta, 8 * n) && IndicesBelow(Shift(tb, |va|), 8 * n);
    }
  }
}
