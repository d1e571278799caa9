/** A labelled N-dimensional array stored flat in row-major (C) order, and the
    observable effect on it of the array-library calls the STDA layer makes:
    rename, expand_dims, assign_coords, transpose and squeeze. */
module NdArray {
  import opened StdaResult

  /** One coordinate label: a number (times and lead times are hours), a
      string (ensemble member names) or the placeholder None. */
  datatype Coord = Num(n: int) | Text(s: string) | Null

  // ---------------------------------------------------------------------
  // Row-major index arithmetic
  // ---------------------------------------------------------------------

  /** Number of elements of an array of the given shape. */
  function Prod(shape: seq<nat>): nat
  {
    if shape == [] then 1 else shape[0] * Prod(shape[1..])
  }

  /** `idx` is a valid multi-index into an array of shape `shape`. */
  predicate InShape(shape: seq<nat>, idx: seq<nat>)
  {
    |idx| == |shape| && forall i :: 0 <= i < |shape| ==> idx[i] < shape[i]
  }

  lemma {:induction false} MulMonotone(a: nat, b: nat, p: nat)
    requires a <= b
    ensures a * p <= b * p
    decreases b - a
  {
    if a < b {
      MulMonotone(a, b - 1, p);
      assert b * p == (b - 1) * p + p;
    }
  }

  lemma MulStep(i: nat, n: nat, p: nat, f: nat)
    requires i < n && f < p
    ensures i * p + f < n * p
  {
    assert (i + 1) * p == i * p + p;
    MulMonotone(i + 1, n, p);
  }

  lemma DivModBounds(k: nat, n: nat, p: nat)
    requires k < n * p
    ensures p > 0 && k / p < n && k % p < p && (k / p) * p + k % p == k
  {
    if p != 0 && k / p >= n {
      MulMonotone(n, k / p, p);
    }
  }

  lemma MulSign(d: int, p: nat)
    ensures d >= 1 ==> d * p >= p
    ensures d <= -1 ==> d * p <= 0 - p
  {
    if d >= 1 {
      MulMonotone(1, d, p);
    } else if d <= -1 {
      MulMonotone(1, -d, p);
      assert d * p == -((-d) * p);
    }
  }

  lemma DivModUnique(i: nat, p: nat, f: nat)
    requires f < p
    ensures (i * p + f) / p == i && (i * p + f) % p == f
  {
    var k := i * p + f;
    var q, r := k / p, k % p;
    assert q * p + r == i * p + f;
    assert (q - i) * p == f - r;
    MulSign(q - i, p);
  }

  /** Row-major offset of a multi-index. */
  function Flat(shape: seq<nat>, idx: seq<nat>): (k: nat)
    requires InShape(shape, idx)
    ensures k < Prod(shape)
  {
    if shape == [] then 0
    else
      var f := Flat(shape[1..], idx[1..]);
      MulStep(idx[0], shape[0], Prod(shape[1..]), f);
      idx[0] * Prod(shape[1..]) + f
  }

  /** Quotient and remainder of `k` by `p`, with the bounds they obey. */
  function DivMod(k: nat, n: nat, p: nat): (qr: (nat, nat))
    requires k < n * p
    ensures qr.0 < n && qr.1 < p && qr.0 * p + qr.1 == k
  {
    DivModBounds(k, n, p);
    (k / p, k % p)
  }

  /** The multi-index whose row-major offset is `k`. */
  function Unflat(shape: seq<nat>, k: nat): (idx: seq<nat>)
    requires k < Prod(shape)
    ensures InShape(shape, idx) && Flat(shape, idx) == k
  {
    if shape == [] then []
    else
      var p := Prod(shape[1..]);
      var qr := DivMod(k, shape[0], p);
      var rest := Unflat(shape[1..], qr.1);
      var idx := [qr.0] + rest;
      assert idx[1..] == rest;
      assert Flat(shape, idx) == qr.0 * p + Flat(shape[1..], rest);
      idx
  }

  /** Distinct multi-indices have distinct offsets: Unflat inverts Flat. */
  lemma {:induction false} UnflatFlat(shape: seq<nat>, idx: seq<nat>)
    requires InShape(shape, idx)
    ensures Unflat(shape, Flat(shape, idx)) == idx
  {
    if shape != [] {
      var p := Prod(shape[1..]);
      var f := Flat(shape[1..], idx[1..]);
      DivModUnique(idx[0], p, f);
      UnflatFlat(shape[1..], idx[1..]);
    }
  }

  // ---------------------------------------------------------------------
  // Sequences of names
  // ---------------------------------------------------------------------

  predicate Distinct<T(==)>(s: seq<T>)
  {
    forall i, j :: 0 <= i < j < |s| ==> s[i] != s[j]
  }

  /** Position of the first occurrence of `x` in `s`. */
  function Pos<T(==)>(s: seq<T>, x: T): (p: nat)
    requires x in s
    ensures p < |s| && s[p] == x && x !in s[..p]
  {
    var p := PosFrom(s, x, 0);
    assert forall k :: 0 <= k < p ==> s[..p][k] == s[k];
    p
  }

  /** Position of the first occurrence of `x` in `s` at or after `i`. */
  function PosFrom<T(==)>(s: seq<T>, x: T, i: nat): (p: nat)
    requires i <= |s| && exists k :: i <= k < |s| && s[k] == x
    ensures i <= p < |s| && s[p] == x && forall k :: i <= k < p ==> s[k] != x
    decreases |s| - i
  {
    if s[i] == x then i else PosFrom(s, x, i + 1)
  }

  lemma PosOfDistinct<T>(s: seq<T>, i: nat)
    requires Distinct(s) && i < |s|
    ensures Pos(s, s[i]) == i
  {
    var p := Pos(s, s[i]);
    assert p <= i ==> s[p] == s[i];
  }

  /** `order` lists the same names as `dims`, each once. */
  predicate IsPermutationOf(order: seq<string>, dims: seq<string>)
  {
    && |order| == |dims|
    && Distinct(order)
    && (forall x :: x in order ==> x in dims)
    && (forall x :: x in dims ==> x in order)
  }

  // ---------------------------------------------------------------------
  // Labelled arrays
  // ---------------------------------------------------------------------

  /** The length of each list, in order. */
  function Lengths<T>(lists: seq<seq<T>>): (s: seq<nat>)
    ensures |s| == |lists| && forall i :: 0 <= i < |lists| ==> s[i] == |lists[i]|
  {
    if lists == [] then [] else [|lists[0]|] + Lengths(lists[1..])
  }

  /** A labelled array: dimension names in storage order, one coordinate
      list per dimension, the elements in row-major order, the names of the
      extra coordinates that are not dimensions, and those among them that
      are scalars (0-d, such as what selecting one level leaves behind).
      The values of the extra coordinates are never read by the STDA layer. */
  datatype Labelled = Labelled(dims: seq<string>, coords: seq<seq<Coord>>, values: seq<real>, aux: set<string>, scalars: set<string>)
  {
    function Shape(): (s: seq<nat>)
      ensures |s| == |coords| && forall i :: 0 <= i < |coords| ==> s[i] == |coords[i]|
    {
      Lengths(coords)
    }

    predicate WellFormed()
    {
      && |dims| == |coords|
      && Distinct(dims)
      && (forall d :: d in dims ==> d !in aux)
      && scalars <= aux
      && |values| == Prod(Shape())
    }

    /** The element at multi-index `idx`. */
    function At(idx: seq<nat>): real
      requires WellFormed() && InShape(Shape(), idx)
    {
      values[Flat(Shape(), idx)]
    }
  }

  /** Dropping the non-dimension coordinates keeps the array well formed
      and its shape unchanged. */
  lemma DropAux(a: Labelled)
    requires a.WellFormed()
    ensures a.(aux := {}, scalars := {}).WellFormed() && a.(aux := {}, scalars := {}).Shape() == a.Shape()
  {
  }

  // ---------------------------------------------------------------------
  // rename / assign_coords: names and labels change, elements do not
  // ---------------------------------------------------------------------

  /** Renaming dimension `from` to `to`: fails when `from` is not a
      dimension or when `to` is already taken by another dimension or
      coordinate; otherwise only that one name changes. */
  function Rename(a: Labelled, from: string, to: string): (r: Result<Labelled>)
    requires a.WellFormed()
    ensures r.Success? <==> from in a.dims && (to == from || (to !in a.dims && to !in a.aux))
    ensures r.Success? ==>
      && r.value.WellFormed()
      && r.value.coords == a.coords && r.value.values == a.values
      && r.value.aux == a.aux && r.value.scalars == a.scalars
      && |r.value.dims| == |a.dims|
      && forall p :: 0 <= p < |a.dims| ==> r.value.dims[p] == if a.dims[p] == from then to else a.dims[p]
  {
    if from !in a.dims then Failure(NotFound(from))
    else if to != from && (to in a.dims || to in a.aux) then Failure(NameConflict(to))
    else
      var i := Pos(a.dims, from);
      var b := a.(dims := a.dims[i := to]);
      forall p | 0 <= p < |a.dims| && a.dims[p] == from ensures p == i {
        PosOfDistinct(a.dims, p);
      }
      Success(b)
  }

  /** Replacing the coordinate values of dimension `name`: fails unless the
      new list has the dimension's length; the elements do not move. */
  function AssignCoords(a: Labelled, name: string, c: seq<Coord>): (r: Result<Labelled>)
    requires a.WellFormed()
    ensures r.Success? <==> name in a.dims && |c| == |a.coords[Pos(a.dims, name)]|
    ensures r.Success? ==>
      && r.value.WellFormed()
      && r.value.dims == a.dims && r.value.values == a.values
      && r.value.aux == a.aux && r.value.scalars == a.scalars
      && r.value.Shape() == a.Shape()
      && forall p :: 0 <= p < |a.dims| ==> r.value.coords[p] == if a.dims[p] == name then c else a.coords[p]
  {
    if name !in a.dims then Failure(NotFound(name))
    else
      var i := Pos(a.dims, name);
      if |c| != |a.coords[i]| then Failure(ConflictingSize)
      else
        var b := a.(coords := a.coords[i := c]);
        assert b.Shape() == a.Shape();
        forall p | 0 <= p < |a.dims| && a.dims[p] == name ensures p == i {
          PosOfDistinct(a.dims, p);
        }
        Success(b)
  }

  // ---------------------------------------------------------------------
  // expand_dims: a new leading axis, the data broadcast along it
  // ---------------------------------------------------------------------

  /** `n` copies of `v` one after the other. */
  function Repeat(v: seq<real>, n: nat): (r: seq<real>)
    ensures |r| == n * |v|
  {
    if n == 0 then [] else v + Repeat(v, n - 1)
  }

  lemma {:induction false} RepeatAt(v: seq<real>, n: nat, i: nat, f: nat)
    requires i < n && f < |v|
    ensures i * |v| + f < n * |v| && Repeat(v, n)[i * |v| + f] == v[f]
  {
    MulStep(i, n, |v|, f);
    if i > 0 {
      RepeatAt(v, n - 1, i - 1, f);
      assert i * |v| + f == |v| + ((i - 1) * |v| + f);
    }
  }

  lemma FlatCons(n: nat, shape: seq<nat>, i: nat, idx: seq<nat>)
    requires i < n && InShape(shape, idx)
    ensures InShape([n] + shape, [i] + idx)
    ensures Flat([n] + shape, [i] + idx) == i * Prod(shape) + Flat(shape, idx)
    ensures Prod([n] + shape) == n * Prod(shape)
  {
    assert ([n] + shape)[1..] == shape;
    assert ([i] + idx)[1..] == idx;
  }

  /** expand_dims({name: c}): fails when `name` is already a dimension or a
      coordinate that is not a scalar; otherwise `name` becomes the first
      dimension, with labels `c`, replacing a scalar coordinate of that
      name, and every element is repeated once per label. */
  function ExpandDims(a: Labelled, name: string, c: seq<Coord>): (r: Result<Labelled>)
    requires a.WellFormed()
    ensures r.Success? <==> name !in a.dims && (name in a.aux ==> name in a.scalars)
    ensures r.Success? ==>
      && r.value.WellFormed()
      && r.value.dims == [name] + a.dims && r.value.coords == [c] + a.coords
      && r.value.aux == a.aux - {name} && r.value.scalars == a.scalars - {name}
      && r.value.Shape() == [|c|] + a.Shape()
  {
    if name in a.dims || (name in a.aux && name !in a.scalars) then Failure(NameConflict(name))
    else
      var b := Labelled([name] + a.dims, [c] + a.coords, Repeat(a.values, |c|), a.aux - {name}, a.scalars - {name});
      assert b.Shape() == [|c|] + a.Shape();
      assert ([|c|] + a.Shape())[1..] == a.Shape();
      Success(b)
  }

  /** Every element of the expanded array, whatever its index on the new
      axis, is the element of `a` at the remaining indices. */
  lemma ExpandDimsAt(a: Labelled, name: string, c: seq<Coord>, i: nat, idx: seq<nat>)
    requires a.WellFormed() && ExpandDims(a, name, c).Success?
    requires i < |c| && InShape(a.Shape(), idx)
    ensures InShape(ExpandDims(a, name, c).value.Shape(), [i] + idx)
    ensures ExpandDims(a, name, c).value.At([i] + idx) == a.At(idx)
  {
    FlatCons(|c|, a.Shape(), i, idx);
    RepeatAt(a.values, |c|, i, Flat(a.Shape(), idx));
  }

  /** The same, read from a multi-index into the expanded array. */
  lemma ExpandDimsTail(a: Labelled, name: string, c: seq<Coord>, g: seq<nat>)
    requires a.WellFormed() && ExpandDims(a, name, c).Success?
    requires InShape(ExpandDims(a, name, c).value.Shape(), g)
    ensures InShape(a.Shape(), g[1..])
    ensures ExpandDims(a, name, c).value.At(g) == a.At(g[1..])
  {
    assert g == [g[0]] + g[1..];
    assert InShape(a.Shape(), g[1..]);
    ExpandDimsAt(a, name, c, g[0], g[1..]);
  }

  // ---------------------------------------------------------------------
  // transpose: dimensions reordered, elements moved with them
  // ---------------------------------------------------------------------

  /** The entries of `xs` (one per name in `names`) listed in `order`. */
  function Pick<T>(xs: seq<T>, names: seq<string>, order: seq<string>): (r: seq<T>)
    requires |xs| == |names| && forall x :: x in order ==> x in names
    ensures |r| == |order| && forall j :: 0 <= j < |order| ==> r[j] == xs[Pos(names, order[j])]
  {
    if order == [] then [] else [xs[Pos(names, order[0])]] + Pick(xs, names, order[1..])
  }

  /** Shape of `a` once its dimensions are put in `order`. */
  function PermutedShape(a: Labelled, order: seq<string>): (s: seq<nat>)
    requires |a.dims| == |a.coords|
    requires forall x :: x in order ==> x in a.dims
    ensures |s| == |order| && forall j :: 0 <= j < |order| ==> s[j] == |a.coords[Pos(a.dims, order[j])]|
  {
    Lengths(Pick(a.coords, a.dims, order))
  }

  /** The multi-index into `a` that a multi-index `ni` into its transpose
      (dimensions in `order`) stands for. */
  function Gather(dims: seq<string>, order: seq<string>, ni: seq<nat>): (oi: seq<nat>)
    requires |ni| == |order| && forall x :: x in dims ==> x in order
    ensures |oi| == |dims| && forall i :: 0 <= i < |dims| ==> oi[i] == ni[Pos(order, dims[i])]
  {
    Pick(ni, order, dims)
  }

  lemma GatherInShape(a: Labelled, order: seq<string>, ni: seq<nat>)
    requires a.WellFormed() && IsPermutationOf(order, a.dims)
    requires InShape(PermutedShape(a, order), ni)
    ensures InShape(a.Shape(), Gather(a.dims, order, ni))
  {
    forall i | 0 <= i < |a.dims| ensures Gather(a.dims, order, ni)[i] < a.Shape()[i] {
      var j := Pos(order, a.dims[i]);
      PosOfDistinct(a.dims, i);
    }
  }

  /** `order` is a valid argument to transpose `a` with. */
  predicate Transposable(a: Labelled, order: seq<string>)
  {
    a.WellFormed() && IsPermutationOf(order, a.dims)
  }

  /** The element the transpose holds at row-major offset `k`. */
  function TransposedAt(a: Labelled, order: seq<string>, k: nat): real
    requires Transposable(a, order) && k < Prod(PermutedShape(a, order))
  {
    var ni := Unflat(PermutedShape(a, order), k);
    GatherInShape(a, order, ni);
    a.At(Gather(a.dims, order, ni))
  }

  /** The elements of the transpose in row-major order. */
  function TransposedValues(a: Labelled, order: seq<string>): (v: seq<real>)
    requires Transposable(a, order)
    ensures |v| == Prod(PermutedShape(a, order))
    ensures forall k :: 0 <= k < |v| ==> v[k] == TransposedAt(a, order, k)
  {
    seq(Prod(PermutedShape(a, order)), k requires 0 <= k < Prod(PermutedShape(a, order)) => TransposedAt(a, order, k))
  }

  /** transpose(*order): fails unless `order` is a permutation of the
      dimensions; otherwise dimensions and labels are listed in `order`. */
  function Transpose(a: Labelled, order: seq<string>): (r: Result<Labelled>)
    requires a.WellFormed()
    ensures r.Success? <==> IsPermutationOf(order, a.dims)
    ensures r.Success? ==>
      && r.value.WellFormed()
      && r.value.dims == order && r.value.aux == a.aux && r.value.scalars == a.scalars
      && r.value.Shape() == PermutedShape(a, order)
      && forall j :: 0 <= j < |order| ==> r.value.coords[j] == a.coords[Pos(a.dims, order[j])]
  {
    if !IsPermutationOf(order, a.dims) then Failure(NotAPermutation)
    else
      var coords := Pick(a.coords, a.dims, order);
      var b := Labelled(order, coords, TransposedValues(a, order), a.aux, a.scalars);
      assert b.Shape() == PermutedShape(a, order);
      Success(b)
  }

  /** The element of the transpose at `ni` is the element of `a` at the
      same index per dimension name. */
  lemma TransposeAt(a: Labelled, order: seq<string>, ni: seq<nat>)
    requires a.WellFormed() && IsPermutationOf(order, a.dims)
    requires InShape(PermutedShape(a, order), ni)
    ensures InShape(Transpose(a, order).value.Shape(), ni)
    ensures InShape(a.Shape(), Gather(a.dims, order, ni))
    ensures Transpose(a, order).value.At(ni) == a.At(Gather(a.dims, order, ni))
  {
    GatherInShape(a, order, ni);
    UnflatFlat(PermutedShape(a, order), ni);
  }

  // ---------------------------------------------------------------------
  // squeeze: every axis of length 1 removed, elements unchanged
  // ---------------------------------------------------------------------

  /** The entries of `xs` at the positions where `shape` is not 1. */
  function Keep<T>(xs: seq<T>, shape: seq<nat>): (r: seq<T>)
    requires |xs| == |shape|
    ensures |r| <= |xs|
  {
    if xs == [] then [] else (if shape[0] == 1 then [] else [xs[0]]) + Keep(xs[1..], shape[1..])
  }

  /** Where position `p` lands among the kept positions. */
  function Rank(shape: seq<nat>, p: nat): nat
    requires p <= |shape|
  {
    if p == 0 then 0 else (if shape[0] == 1 then 0 else 1) + Rank(shape[1..], p - 1)
  }

  lemma {:induction false} KeepAt<T>(xs: seq<T>, shape: seq<nat>, p: nat)
    requires |xs| == |shape| && p < |shape|
    ensures shape[p] != 1 ==> Rank(shape, p) < |Keep(xs, shape)| && Keep(xs, shape)[Rank(shape, p)] == xs[p]
    ensures shape[p] == 1 ==> Rank(shape, p) <= |Keep(xs, shape)|
  {
    if p > 0 {
      KeepAt(xs[1..], shape[1..], p - 1);
    }
  }

  lemma {:induction false} KeepMember<T>(xs: seq<T>, shape: seq<nat>, x: T)
    requires |xs| == |shape|
    ensures x in Keep(xs, shape) <==> exists p :: 0 <= p < |xs| && xs[p] == x && shape[p] != 1
  {
    if xs != [] {
      KeepMember(xs[1..], shape[1..], x);
      if exists p :: 0 <= p < |xs| && xs[p] == x && shape[p] != 1 {
        var p :| 0 <= p < |xs| && xs[p] == x && shape[p] != 1;
        if p > 0 {
          assert xs[1..][p - 1] == x && shape[1..][p - 1] != 1;
        }
      }
      if x in Keep(xs[1..], shape[1..]) {
        var q :| 0 <= q < |xs| - 1 && xs[1..][q] == x && shape[1..][q] != 1;
        assert xs[q + 1] == x && shape[q + 1] != 1;
      }
    }
  }

  lemma {:induction false} KeepDistinct<T>(xs: seq<T>, shape: seq<nat>)
    requires |xs| == |shape| && Distinct(xs)
    ensures Distinct(Keep(xs, shape))
  {
    if xs != [] {
      KeepDistinct(xs[1..], shape[1..]);
      assert forall q :: 0 <= q < |xs| - 1 ==> xs[1..][q] != xs[0];
      KeepMember(xs[1..], shape[1..], xs[0]);
    }
  }

  lemma {:induction false} KeepLen<T>(xs: seq<T>, shape: seq<nat>)
    requires |xs| == |shape|
    ensures |Keep(xs, shape)| == |Keep(shape, shape)|
  {
    if xs != [] {
      KeepLen(xs[1..], shape[1..]);
    }
  }

  lemma {:induction false} KeepLengths(coords: seq<seq<Coord>>, shape: seq<nat>)
    requires |coords| == |shape| && forall i :: 0 <= i < |shape| ==> shape[i] == |coords[i]|
    ensures |Keep(coords, shape)| == |Keep(shape, shape)|
    ensures forall i :: 0 <= i < |Keep(shape, shape)| ==> Keep(shape, shape)[i] == |Keep(coords, shape)[i]|
  {
    if coords != [] {
      KeepLengths(coords[1..], shape[1..]);
    }
  }

  lemma {:induction false} ProdKeep(shape: seq<nat>)
    ensures Prod(Keep(shape, shape)) == Prod(shape)
  {
    if shape != [] {
      var rest := shape[1..];
      ProdKeep(rest);
      if shape[0] != 1 {
        assert Keep(shape, shape) == [shape[0]] + Keep(rest, rest);
        assert Keep(shape, shape)[1..] == Keep(rest, rest);
      } else {
        assert Keep(shape, shape) == Keep(rest, rest);
      }
    }
  }

  /** A multi-index into the squeezed array, with 0 put back on every
      length-1 axis. */
  function Inflate(shape: seq<nat>, idx: seq<nat>): (r: seq<nat>)
    requires |idx| == |Keep(shape, shape)|
    ensures |r| == |shape|
  {
    if shape == [] then []
    else if shape[0] == 1 then [0] + Inflate(shape[1..], idx)
    else [idx[0]] + Inflate(shape[1..], idx[1..])
  }

  lemma {:induction false} InflateAt(shape: seq<nat>, idx: seq<nat>, p: nat)
    requires |idx| == |Keep(shape, shape)| && p < |shape|
    ensures shape[p] == 1 ==> Inflate(shape, idx)[p] == 0
    ensures shape[p] != 1 ==> Rank(shape, p) < |idx| && Inflate(shape, idx)[p] == idx[Rank(shape, p)]
  {
    if p > 0 {
      var rest := shape[1..];
      assert shape[p] == rest[p - 1];
      if shape[0] == 1 {
        assert Keep(shape, shape) == Keep(rest, rest);
        InflateAt(rest, idx, p - 1);
        assert Inflate(shape, idx) == [0] + Inflate(rest, idx);
      } else {
        assert Keep(shape, shape) == [shape[0]] + Keep(rest, rest);
        InflateAt(rest, idx[1..], p - 1);
        assert Inflate(shape, idx) == [idx[0]] + Inflate(rest, idx[1..]);
      }
    }
  }

  lemma {:induction false} FlatInflate(shape: seq<nat>, idx: seq<nat>)
    requires InShape(Keep(shape, shape), idx)
    ensures InShape(shape, Inflate(shape, idx))
    ensures Flat(shape, Inflate(shape, idx)) == Flat(Keep(shape, shape), idx)
  {
    if shape != [] {
      var rest := shape[1..];
      assert shape == [shape[0]] + rest;
      if shape[0] == 1 {
        assert Keep(shape, shape) == Keep(rest, rest);
        FlatInflate(rest, idx);
        FlatCons(1, rest, 0, Inflate(rest, idx));
      } else {
        var k := Keep(shape, shape);
        assert k[1..] == Keep(rest, rest);
        FlatInflate(rest, idx[1..]);
        ProdKeep(rest);
        FlatCons(shape[0], rest, idx[0], Inflate(rest, idx[1..]));
        FlatCons(k[0], k[1..], idx[0], idx[1..]);
        assert k == [k[0]] + k[1..] && idx == [idx[0]] + idx[1..];
      }
    }
  }

  lemma {:induction false} DistinctCard<T>(s: seq<T>)
    requires Distinct(s)
    ensures |set x | x in s| == |s|
  {
    if s != [] {
      DistinctCard(s[1..]);
      assert (set x | x in s) == {s[0]} + (set x | x in s[1..]);
    }
  }

  /** A list of distinct names holding exactly the names of `order` (also
      distinct) is a permutation of it. */
  lemma SameNamesArePermutation(order: seq<string>, dims: seq<string>)
    requires Distinct(order) && Distinct(dims)
    requires forall x :: x in order ==> x in dims
    requires forall x :: x in dims ==> x in order
    ensures IsPermutationOf(order, dims)
  {
    DistinctCard(order);
    DistinctCard(dims);
    assert (set x | x in order) == (set x | x in dims);
  }

  /** The names of the axes squeeze removes. */
  function Squeezed(a: Labelled): set<string>
    requires |a.dims| == |a.coords|
  {
    set p | 0 <= p < |a.dims| && |a.coords[p]| == 1 :: a.dims[p]
  }

  /** squeeze(): drops every dimension of length 1 (its label survives as a
      scalar, non-dimension coordinate); the elements stay where they are. */
  function Squeeze(a: Labelled): (r: Labelled)
    requires a.WellFormed()
    ensures r.WellFormed()
    ensures r.dims == Keep(a.dims, a.Shape()) && r.coords == Keep(a.coords, a.Shape()) && r.values == a.values
    ensures r.Shape() == Keep(a.Shape(), a.Shape())
    ensures r.aux == a.aux + Squeezed(a) && r.scalars == a.scalars + Squeezed(a)
  {
    var sh := a.Shape();
    var b := Labelled(Keep(a.dims, sh), Keep(a.coords, sh), a.values, a.aux + Squeezed(a), a.scalars + Squeezed(a));
    KeepLengths(a.coords, sh);
    KeepLen(a.dims, sh);
    assert b.Shape() == Keep(sh, sh);
    ProdKeep(sh);
    KeepDistinct(a.dims, sh);
    forall d | d in b.dims ensures d !in b.aux {
      KeepMember(a.dims, sh, d);
    }
    b
  }

  /** The element of the squeezed array at `idx` is the element of `a` at
      the same indices with 0 on every removed axis. */
  lemma SqueezeAt(a: Labelled, idx: seq<nat>)
    requires a.WellFormed() && InShape(Squeeze(a).Shape(), idx)
    ensures InShape(a.Shape(), Inflate(a.Shape(), idx))
    ensures Squeeze(a).At(idx) == a.At(Inflate(a.Shape(), idx))
  {
    FlatInflate(a.Shape(), idx);
  }
}
