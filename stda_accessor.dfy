/** The `stda` accessor on a canonical tensor: the derived forecast-time
    axis, lookup of an axis's labels, extraction of a two-dimensional field,
    and which kind of description the descriptive strings take. Times and
    lead times are whole hours. */
module StdaAccessor {
  import opened StdaResult
  import opened NdArray
  import opened StdaGrid

  // ---------------------------------------------------------------------
  // fcst_time: every (time, dtime) pair, time outer, dtime inner
  // ---------------------------------------------------------------------

  /** Every time and every lead time the nested loop of fcst_time reads is
      a number of hours (with no lead times the times are never read, and
      the other way round). */
  predicate HourLabels(times: seq<Coord>, dtimes: seq<Coord>)
  {
    && (|dtimes| > 0 ==> forall i :: 0 <= i < |times| ==> times[i].Num?)
    && (|times| > 0 ==> forall j :: 0 <= j < |dtimes| ==> dtimes[j].Num?)
  }

  /** The forecast time at flat position `k`: the time at k / |dtimes| plus
      the lead time at k % |dtimes|. */
  function FcstTimeAt(times: seq<Coord>, dtimes: seq<Coord>, k: nat): int
    requires HourLabels(times, dtimes) && k < |times| * |dtimes|
  {
    DivModBounds(k, |times|, |dtimes|);
    times[k / |dtimes|].n + dtimes[k % |dtimes|].n
  }

  /** The forecast-time axis as a reference definition, position by
      position. */
  function FcstTimes(times: seq<Coord>, dtimes: seq<Coord>): (r: Result<seq<int>>)
    ensures r.Success? <==> HourLabels(times, dtimes)
    ensures r.Failure? ==> r.error == InvalidTime
    ensures r.Success? ==> |r.value| == |times| * |dtimes|
  {
    if !HourLabels(times, dtimes) then Failure(InvalidTime)
    else Success(FcstTimesUpTo(times, dtimes, |times| * |dtimes|))
  }

  /** The first `n` forecast times. */
  function FcstTimesUpTo(times: seq<Coord>, dtimes: seq<Coord>, n: nat): (r: seq<int>)
    requires HourLabels(times, dtimes) && n <= |times| * |dtimes|
    ensures |r| == n && forall k :: 0 <= k < n ==> r[k] == FcstTimeAt(times, dtimes, k)
  {
    if n == 0 then [] else FcstTimesUpTo(times, dtimes, n - 1) + [FcstTimeAt(times, dtimes, n - 1)]
  }

  /** Entry i * |dtimes| + j of fcst_time is time i plus lead time j: time
      is the outer loop, dtime the inner one. */
  lemma FcstTimesAt(times: seq<Coord>, dtimes: seq<Coord>, i: nat, j: nat)
    requires HourLabels(times, dtimes) && i < |times| && j < |dtimes|
    ensures i * |dtimes| + j < |FcstTimes(times, dtimes).value|
    ensures FcstTimes(times, dtimes).value[i * |dtimes| + j] == times[i].n + dtimes[j].n
  {
    MulStep(i, |times|, |dtimes|, j);
    DivModUnique(i, |dtimes|, j);
  }

  /** `acc` holds the first |acc| forecast times: the entry at k is the
      time at k / |dtimes| plus the lead time at k % |dtimes|. */
  predicate FcstPrefix(times: seq<Coord>, dtimes: seq<Coord>, acc: seq<int>)
  {
    |acc| == 0 || (0 < |dtimes| && forall k :: 0 <= k < |acc| ==>
      && k / |dtimes| < |times| && times[k / |dtimes|].Num? && dtimes[k % |dtimes|].Num?
      && acc[k] == times[k / |dtimes|].n + dtimes[k % |dtimes|].n)
  }

  lemma FcstPrefixStep(times: seq<Coord>, dtimes: seq<Coord>, acc: seq<int>, i: nat, j: nat)
    requires FcstPrefix(times, dtimes, acc) && i < |times| && j < |dtimes| && |acc| == i * |dtimes| + j
    requires times[i].Num? && dtimes[j].Num?
    ensures FcstPrefix(times, dtimes, acc + [times[i].n + dtimes[j].n])
  {
    DivModUnique(i, |dtimes|, j);
  }

  lemma FcstPrefixDone(times: seq<Coord>, dtimes: seq<Coord>, acc: seq<int>)
    requires FcstPrefix(times, dtimes, acc) && HourLabels(times, dtimes) && |acc| == |times| * |dtimes|
    ensures acc == FcstTimes(times, dtimes).value
  {
  }

  /** The fcst_time property: the nested loops over the time and lead-time
      labels, appending time + lead time. */
  method FcstTime(t: Stda) returns (r: Result<seq<int>>)
    requires t.Valid()
    ensures r == FcstTimes(t.Coords(Time), t.Coords(Dtime))
  {
    var times, dtimes := t.Coords(Time), t.Coords(Dtime);
    var n := |dtimes|;
    var acc: seq<int> := [];
    for i := 0 to |times|
      invariant |acc| == i * n && FcstPrefix(times, dtimes, acc)
      invariant 0 < n ==> forall i' :: 0 <= i' < i ==> times[i'].Num?
      invariant 0 < i ==> forall j :: 0 <= j < n ==> dtimes[j].Num?
    {
      for j := 0 to n
        invariant |acc| == i * n + j && FcstPrefix(times, dtimes, acc)
        invariant 0 < j ==> times[i].Num?
        invariant forall j' :: 0 <= j' < j ==> dtimes[j'].Num?
      {
        if !times[i].Num? || !dtimes[j].Num? {
          return Failure(InvalidTime);
        }
        FcstPrefixStep(times, dtimes, acc, i, j);
        acc := acc + [times[i].n + dtimes[j].n];
      }
      assert (i + 1) * n == i * n + n;
    }
    FcstPrefixDone(times, dtimes, acc);
    r := Success(acc);
  }

  // ---------------------------------------------------------------------
  // get_dim_value: the labels of one axis, fcst_time derived
  // ---------------------------------------------------------------------

  /** Every label is a whole number of hours (what converting a whole
      time axis to datetimes demands). */
  predicate AllHours(cs: seq<Coord>)
  {
    forall i :: 0 <= i < |cs| ==> cs[i].Num?
  }

  /** get_dim_value(name): "fcst_time" is the derived forecast-time axis,
      "time" the time labels converted to datetimes, and any other name the
      labels of that coordinate (a name the tensor does not have raises). */
  function GetDimValue(t: Stda, name: string): (r: Result<seq<Coord>>)
    requires t.Valid()
    ensures name == "fcst_time" ==>
      && (r.Success? <==> HourLabels(t.Coords(Time), t.Coords(Dtime)))
      && (r.Failure? ==> r.error == InvalidTime)
      && (r.Success? ==>
            var f := FcstTimes(t.Coords(Time), t.Coords(Dtime)).value;
            |r.value| == |f| && forall k :: 0 <= k < |f| ==> r.value[k] == Num(f[k]))
    ensures name == "time" ==>
      r == if AllHours(t.Coords(Time)) then Success(t.Coords(Time)) else Failure(InvalidTime)
    ensures forall a: Axis :: a != Time && name == a.Name() ==> r == Success(t.Coords(a))
    ensures name != "fcst_time" && name !in Canonical ==> r == Failure(NotFound(name))
  {
    if name == "fcst_time" then
      var f :- FcstTimes(t.Coords(Time), t.Coords(Dtime));
      Success(Nums(f))
    else if name == "time" then
      if AllHours(t.Coords(Time)) then Success(t.Coords(Time)) else Failure(InvalidTime)
    else if name in t.data.dims then
      CanonicalPos();
      Success(t.data.coords[Pos(t.data.dims, name)])
    else
      Failure(NotFound(name))
  }

  /** Hours as coordinate labels. */
  function Nums(f: seq<int>): (r: seq<Coord>)
    ensures |r| == |f| && forall k :: 0 <= k < |f| ==> r[k] == Num(f[k])
  {
    if f == [] then [] else Nums(f[..|f| - 1]) + [Num(f[|f| - 1])]
  }

  // ---------------------------------------------------------------------
  // get_value: squeeze, then transpose to (ydim, xdim)
  // ---------------------------------------------------------------------

  /** The axis name "fcst_time" stands for in get_value: the lead-time axis
      when there is a single time, otherwise the time axis. */
  function ResolveFcst(t: Stda, d: string): (r: string)
    requires t.Valid()
    ensures d != "fcst_time" ==> r == d
    ensures d == "fcst_time" ==> (r == "dtime" <==> |t.Coords(Time)| == 1) && (r == "time" || r == "dtime")
  {
    if d != "fcst_time" then d
    else if |t.Coords(Time)| == 1 then "dtime"
    else "time"
  }

  /** `y` and `x` are two different canonical axes, and they are exactly the
      axes whose length is not 1. */
  predicate TwoAxes(t: Stda, y: string, x: string)
    requires t.Valid()
  {
    && y != x && y in Canonical && x in Canonical
    && forall a :: 0 <= a < 6 ==> (|t.data.coords[a]| != 1 <==> Canonical[a] == y || Canonical[a] == x)
  }

  /** The six-axis multi-index with `i` on axis `y`, `j` on axis `x` and 0
      everywhere else. */
  function Point(y: string, i: nat, x: string, j: nat): (p: seq<nat>)
    ensures |p| == 6
  {
    PointUpTo(y, i, x, j, 6)
  }

  /** The first `n` entries of Point(y, i, x, j). */
  function PointUpTo(y: string, i: nat, x: string, j: nat, n: nat): (p: seq<nat>)
    requires n <= 6
    ensures |p| == n
    ensures forall a :: 0 <= a < n ==> p[a] == if Canonical[a] == y then i else if Canonical[a] == x then j else 0
  {
    if n == 0 then []
    else PointUpTo(y, i, x, j, n - 1) + [if Canonical[n - 1] == y then i else if Canonical[n - 1] == x then j else 0]
  }

  /** The elements of a two-dimensional array as rows. */
  function Matrix(m: Labelled): (r: seq<seq<real>>)
    requires m.WellFormed() && |m.dims| == 2
    ensures |r| == |m.coords[0]| && forall i :: 0 <= i < |r| ==> |r[i]| == |m.coords[1]|
  {
    Rows(m, |m.coords[0]|)
  }

  /** Row i, column j of Matrix(m) is the element of `m` at [i, j]. */
  lemma MatrixAt(m: Labelled, i: nat, j: nat)
    requires m.WellFormed() && |m.dims| == 2 && InShape(m.Shape(), [i, j])
    ensures i < |Matrix(m)| && j < |Matrix(m)[i]| && Matrix(m)[i][j] == m.At([i, j])
  {
    assert i < |m.coords[0]| && j < |m.coords[1]|;
  }

  /** The first `n` rows of `m`. */
  function Rows(m: Labelled, n: nat): (r: seq<seq<real>>)
    requires m.WellFormed() && |m.dims| == 2 && n <= |m.coords[0]|
    ensures |r| == n && forall i :: 0 <= i < n ==> r[i] == Row(m, i, |m.coords[1]|)
  {
    if n == 0 then [] else Rows(m, n - 1) + [Row(m, n - 1, |m.coords[1]|)]
  }

  /** The first `n` elements of row `i` of `m`. */
  function Row(m: Labelled, i: nat, n: nat): (r: seq<real>)
    requires m.WellFormed() && |m.dims| == 2 && i < |m.coords[0]| && n <= |m.coords[1]|
    ensures |r| == n && forall j :: 0 <= j < n ==> InShape(m.Shape(), [i, j]) && r[j] == m.At([i, j])
  {
    if n == 0 then []
    else
      assert InShape(m.Shape(), [i, n - 1]);
      Row(m, i, n - 1) + [m.At([i, n - 1])]
  }

  /** Two distinct names that are exactly the names kept at positions whose
      length is not 1 are a permutation of what is kept. */
  lemma KeptPairIf(dims: seq<string>, sh: seq<nat>, y: string, x: string)
    requires |dims| == |sh| && Distinct(dims) && y != x && y in dims && x in dims
    requires forall a :: 0 <= a < |dims| ==> (sh[a] != 1 <==> dims[a] == y || dims[a] == x)
    ensures IsPermutationOf([y, x], Keep(dims, sh))
  {
    var kd := Keep(dims, sh);
    KeepDistinct(dims, sh);
    KeepMember(dims, sh, y);
    KeepMember(dims, sh, x);
    forall z | z in kd ensures z in [y, x] {
      KeepMember(dims, sh, z);
    }
    SameNamesArePermutation([y, x], kd);
  }

  lemma KeptPairOnlyIf(dims: seq<string>, sh: seq<nat>, y: string, x: string)
    requires |dims| == |sh| && Distinct(dims) && IsPermutationOf([y, x], Keep(dims, sh))
    ensures y != x && y in dims && x in dims
    ensures forall a :: 0 <= a < |dims| ==> (sh[a] != 1 <==> dims[a] == y || dims[a] == x)
  {
    var kd := Keep(dims, sh);
    assert y in kd && x in kd;
    KeepMember(dims, sh, y);
    KeepMember(dims, sh, x);
    forall a | 0 <= a < |dims| ensures sh[a] != 1 <==> dims[a] == y || dims[a] == x {
      KeptAt(dims, sh, y, x, a);
    }
  }

  /** Position `a` is kept exactly when its name is one of the pair. */
  lemma KeptAt(dims: seq<string>, sh: seq<nat>, y: string, x: string, a: nat)
    requires |dims| == |sh| && Distinct(dims) && IsPermutationOf([y, x], Keep(dims, sh)) && a < |dims|
    ensures sh[a] != 1 <==> dims[a] == y || dims[a] == x
  {
    var kd := Keep(dims, sh);
    if sh[a] != 1 {
      KeepAt(dims, sh, a);
      assert dims[a] in kd;
    }
    if dims[a] == y || dims[a] == x {
      assert dims[a] in kd;
      KeepMember(dims, sh, dims[a]);
      var p :| 0 <= p < |dims| && dims[p] == dims[a] && sh[p] != 1;
      assert p == a;
    }
  }

  /** After squeezing, (y, x) is a valid transpose order exactly when y and
      x are the only axes left. */
  lemma SqueezedPair(t: Stda, y: string, x: string)
    requires t.Valid()
    ensures IsPermutationOf([y, x], Squeeze(t.data).dims) <==> TwoAxes(t, y, x)
  {
    var sh := t.data.Shape();
    CanonicalDistinct();
    assert Squeeze(t.data).dims == Keep(Canonical, sh);
    if TwoAxes(t, y, x) {
      KeptPairIf(Canonical, sh, y, x);
    }
    if IsPermutationOf([y, x], Keep(Canonical, sh)) {
      KeptPairOnlyIf(Canonical, sh, y, x);
    }
  }

  /** A canonical axis of length other than 1 survives squeezing with its
      length. */
  lemma SqueezedAxis(t: Stda, name: string)
    requires t.Valid() && name in Canonical && |t.data.coords[Pos(Canonical, name)]| != 1
    ensures name in Squeeze(t.data).dims
    ensures Squeeze(t.data).Shape()[Pos(Squeeze(t.data).dims, name)] == |t.data.coords[Pos(Canonical, name)]|
  {
    var sh := t.data.Shape();
    var p := Pos(Canonical, name);
    KeepAt(t.data.dims, sh, p);
    KeepAt(sh, sh, p);
    KeepDistinct(t.data.dims, sh);
    KeepLen(t.data.dims, sh);
    PosOfDistinct(Squeeze(t.data).dims, Rank(sh, p));
  }

  /** Index (i, j) into the (y, x) transpose of the squeezed array, carried
      back through the transpose and the squeeze, is Point(y, i, x, j). */
  lemma InflateGather(sh: seq<nat>, y: string, x: string, i: nat, j: nat)
    requires |sh| == 6 && IsPermutationOf([y, x], Keep(Canonical, sh))
    requires forall a :: 0 <= a < 6 ==> (sh[a] != 1 <==> Canonical[a] == y || Canonical[a] == x)
    ensures |Keep(sh, sh)| == 2
    ensures Inflate(sh, Gather(Keep(Canonical, sh), [y, x], [i, j])) == Point(y, i, x, j)
  {
    var kd := Keep(Canonical, sh);
    KeepLen(Canonical, sh);
    var g := Gather(kd, [y, x], [i, j]);
    CanonicalDistinct();
    KeepDistinct(Canonical, sh);
    forall p | 0 <= p < 6 ensures Inflate(sh, g)[p] == Point(y, i, x, j)[p] {
      InflateGatherAt(sh, kd, y, x, i, j, p);
    }
  }

  /** Axis `p` of the inflated index: i on y, j on x, 0 elsewhere. */
  lemma InflateGatherAt(sh: seq<nat>, kd: seq<string>, y: string, x: string, i: nat, j: nat, p: nat)
    requires |sh| == 6 && p < 6 && kd == Keep(Canonical, sh) && IsPermutationOf([y, x], kd)
    requires |Keep(sh, sh)| == 2 && Distinct(kd) && (sh[p] != 1 <==> Canonical[p] == y || Canonical[p] == x)
    ensures Inflate(sh, Gather(kd, [y, x], [i, j]))[p] == Point(y, i, x, j)[p]
  {
    var g := Gather(kd, [y, x], [i, j]);
    InflateAt(sh, g, p);
    if sh[p] != 1 {
      KeepAt(Canonical, sh, p);
      PosOfDistinct(kd, Rank(sh, p));
    }
  }

  /** Transposing to a pair of names gives the lengths of those two axes. */
  lemma PairShape(m: Labelled, y: string, x: string)
    requires m.WellFormed() && IsPermutationOf([y, x], m.dims)
    ensures PermutedShape(m, [y, x]) == [m.Shape()[Pos(m.dims, y)], m.Shape()[Pos(m.dims, x)]]
  {
    assert y in [y, x] && x in [y, x];
  }

  /** Element (i, j) of the squeezed, transposed array is the element of
      the tensor at Point(y, i, x, j). */
  lemma GetValueAt(t: Stda, y: string, x: string, i: nat, j: nat)
    requires t.Valid() && TwoAxes(t, y, x)
    requires i < |t.data.coords[Pos(Canonical, y)]| && j < |t.data.coords[Pos(Canonical, x)]|
    ensures IsPermutationOf([y, x], Squeeze(t.data).dims)
    ensures InShape(Transpose(Squeeze(t.data), [y, x]).value.Shape(), [i, j])
    ensures InShape(t.data.Shape(), Point(y, i, x, j))
    ensures Transpose(Squeeze(t.data), [y, x]).value.At([i, j]) == t.data.At(Point(y, i, x, j))
  {
    var sq := Squeeze(t.data);
    PairIndex(t, y, x, i, j);
    var ni: seq<nat> := [i, j];
    TransposeAt(sq, [y, x], ni);
    var g := Gather(sq.dims, [y, x], ni);
    SqueezeAt(t.data, g);
    InflateGather(t.data.Shape(), y, x, i, j);
  }

  /** (i, j) indexes the squeezed array transposed to (y, x). */
  lemma PairIndex(t: Stda, y: string, x: string, i: nat, j: nat)
    requires t.Valid() && TwoAxes(t, y, x)
    requires i < |t.data.coords[Pos(Canonical, y)]| && j < |t.data.coords[Pos(Canonical, x)]|
    ensures IsPermutationOf([y, x], Squeeze(t.data).dims)
    ensures InShape(PermutedShape(Squeeze(t.data), [y, x]), [i, j])
  {
    SqueezedPair(t, y, x);
    SqueezedAxis(t, y);
    SqueezedAxis(t, x);
    PairShape(Squeeze(t.data), y, x);
  }

  /** `m` holds the tensor's elements with axis y along the rows and axis
      x along the columns. */
  predicate Field(t: Stda, y: string, x: string, m: seq<seq<real>>)
    requires t.Valid() && y in Canonical && x in Canonical
  {
    && |m| == |t.data.coords[Pos(Canonical, y)]|
    && forall i :: 0 <= i < |m| ==>
         && |m[i]| == |t.data.coords[Pos(Canonical, x)]|
         && forall j :: 0 <= j < |m[i]| ==>
              InShape(t.data.Shape(), Point(y, i, x, j)) && m[i][j] == t.data.At(Point(y, i, x, j))
  }

  /** get_value(ydim, xdim): squeeze away every axis of length 1, transpose
      what is left to (ydim, xdim) and return its elements as rows; fails
      unless exactly those two axes are left. */
  function GetValue(t: Stda, ydim: string, xdim: string): (r: Result<seq<seq<real>>>)
    requires t.Valid()
    ensures var y, x := ResolveFcst(t, ydim), ResolveFcst(t, xdim);
      && (r.Success? <==> TwoAxes(t, y, x))
      && (r.Failure? ==> r.error == NotAPermutation)
      && (r.Success? ==> Field(t, y, x, r.value))
  {
    var y, x := ResolveFcst(t, ydim), ResolveFcst(t, xdim);
    SqueezedPair(t, y, x);
    var m :- Transpose(Squeeze(t.data), [y, x]);
    MatrixField(t, y, x);
    Success(Matrix(m))
  }

  /** Entry (i, j) of the rows of the squeezed and transposed array is the
      element of the tensor at Point(y, i, x, j). */
  lemma MatrixEntry(t: Stda, y: string, x: string, i: nat, j: nat)
    requires t.Valid() && TwoAxes(t, y, x)
    requires i < |t.data.coords[Pos(Canonical, y)]| && j < |t.data.coords[Pos(Canonical, x)]|
    ensures IsPermutationOf([y, x], Squeeze(t.data).dims)
    ensures var rows := Matrix(Transpose(Squeeze(t.data), [y, x]).value);
      && i < |rows| && j < |rows[i]|
      && InShape(t.data.Shape(), Point(y, i, x, j)) && rows[i][j] == t.data.At(Point(y, i, x, j))
  {
    GetValueAt(t, y, x, i, j);
    MatrixAt(Transpose(Squeeze(t.data), [y, x]).value, i, j);
  }

  /** The rows run along y and each row along x. */
  lemma MatrixLengths(t: Stda, y: string, x: string)
    requires t.Valid() && TwoAxes(t, y, x)
    ensures IsPermutationOf([y, x], Squeeze(t.data).dims)
    ensures var rows := Matrix(Transpose(Squeeze(t.data), [y, x]).value);
      && |rows| == |t.data.coords[Pos(Canonical, y)]|
      && forall i :: 0 <= i < |rows| ==> |rows[i]| == |t.data.coords[Pos(Canonical, x)]|
  {
    SqueezedPair(t, y, x);
    var sq := Squeeze(t.data);
    var m := Transpose(sq, [y, x]).value;
    assert m.coords[0] == sq.coords[Pos(sq.dims, y)];
    assert m.coords[1] == sq.coords[Pos(sq.dims, x)];
    SqueezedAxis(t, y);
    SqueezedAxis(t, x);
  }

  /** When y and x are the two axes left, the rows of the squeezed and
      transposed array are the field over (y, x). */
  lemma MatrixField(t: Stda, y: string, x: string)
    requires t.Valid() && TwoAxes(t, y, x)
    ensures IsPermutationOf([y, x], Squeeze(t.data).dims)
    ensures Field(t, y, x, Matrix(Transpose(Squeeze(t.data), [y, x]).value))
  {
    SqueezedPair(t, y, x);
    var rows := Matrix(Transpose(Squeeze(t.data), [y, x]).value);
    MatrixLengths(t, y, x);
    forall i, j | 0 <= i < |rows| && 0 <= j < |rows[i]|
      ensures InShape(t.data.Shape(), Point(y, i, x, j)) && rows[i][j] == t.data.At(Point(y, i, x, j))
    {
      MatrixEntry(t, y, x, i, j);
    }
  }

  lemma PointSwap(y: string, i: nat, x: string, j: nat)
    requires y != x
    ensures Point(x, j, y, i) == Point(y, i, x, j)
  {
    var p, q := Point(x, j, y, i), Point(y, i, x, j);
    forall a | 0 <= a < 6 ensures p[a] == q[a] {
    }
  }

  lemma FieldsTransposed(t: Stda, y: string, x: string, m: seq<seq<real>>, n: seq<seq<real>>)
    requires t.Valid() && y in Canonical && x in Canonical && y != x
    requires Field(t, y, x, m) && Field(t, x, y, n)
    ensures forall i :: 0 <= i < |m| ==> |m[i]| == |n|
    ensures forall j :: 0 <= j < |n| ==> |n[j]| == |m|
    ensures forall i, j :: 0 <= i < |m| && 0 <= j < |n| ==> n[j][i] == m[i][j]
  {
    forall i, j | 0 <= i < |m| && 0 <= j < |n| ensures n[j][i] == m[i][j] {
      PointSwap(y, i, x, j);
    }
  }

  /** Swapping ydim and xdim transposes the field. */
  lemma GetValueTransposed(t: Stda, ydim: string, xdim: string)
    requires t.Valid()
    ensures GetValue(t, ydim, xdim).Success? <==> GetValue(t, xdim, ydim).Success?
    ensures GetValue(t, ydim, xdim).Success? ==>
      var m, n := GetValue(t, ydim, xdim).value, GetValue(t, xdim, ydim).value;
      && (forall i :: 0 <= i < |m| ==> |m[i]| == |n|)
      && (forall j :: 0 <= j < |n| ==> |n[j]| == |m|)
      && forall i, j :: 0 <= i < |m| && 0 <= j < |n| ==> n[j][i] == m[i][j]
  {
    var y, x := ResolveFcst(t, ydim), ResolveFcst(t, xdim);
    var r1, r2 := GetValue(t, ydim, xdim), GetValue(t, xdim, ydim);
    assert TwoAxes(t, y, x) <==> TwoAxes(t, x, y);
    if r1.Success? {
      FieldsTransposed(t, y, x, r1.value, r2.value);
    }
  }

  // ---------------------------------------------------------------------
  // description / description_point: which kind of text is produced
  // ---------------------------------------------------------------------

  /** What description() reports: a forecast (initial time, forecast time,
      lead hours) or an analysis (its time). */
  datatype Description =
    | Forecast(init: int, fcst: int, fhour: int)
    | Analysis(init: int)

  /** description(): reads the first time, the first lead time and the first
      forecast time; a non-zero first lead time makes it a forecast. */
  function Describe(t: Stda): (r: Result<Description>)
    requires t.Valid()
    ensures var ts, ds := t.Coords(Time), t.Coords(Dtime);
      && (r.Success? <==> AllHours(ts) && AllHours(ds) && |ts| > 0 && |ds| > 0)
      && (!AllHours(ts) ==> r == Failure(InvalidTime))
      && (AllHours(ts) && (|ts| == 0 || |ds| == 0) ==> r == Failure(IndexOutOfRange))
      && (r.Success? ==>
            && r.value.init == ts[0].n
            && (r.value.Forecast? <==> ds[0].n != 0)
            && (r.value.Forecast? ==> r.value.fhour == ds[0].n && r.value.fcst == r.value.init + r.value.fhour))
  {
    var ts, ds := t.Coords(Time), t.Coords(Dtime);
    if !AllHours(ts) then Failure(InvalidTime)
    else if |ts| == 0 || |ds| == 0 then Failure(IndexOutOfRange)
    else
      var f :- FcstTimes(ts, ds);
      FcstTimesAt(ts, ds, 0, 0);
      if ds[0] != Num(0) then Success(Forecast(ts[0].n, f[0], ds[0].n))
      else Success(Analysis(ts[0].n))
  }

  /** What description_point() reports: the initial time, the member name,
      the point's longitude and latitude and, for a forecast, the first lead
      time. */
  datatype PointDescription =
    | PointForecast(init: int, name: string, fhour: Coord, lon: Coord, lat: Coord)
    | PointAnalysis(init: int, name: string, lon: Coord, lat: Coord)

  /** description_point(): reads the first time, lead time, longitude,
      latitude and member; the lead time is compared with 0 as it is, so
      only the label 0 makes it an analysis. */
  function DescribePoint(t: Stda): (r: Result<PointDescription>)
    requires t.Valid()
    ensures var ts, ds, los, las, ms := t.Coords(Time), t.Coords(Dtime), t.Coords(Lon), t.Coords(Lat), t.Coords(Member);
      && (r.Success? <==> AllHours(ts) && |ts| > 0 && |ds| > 0 && |los| > 0 && |las| > 0 && |ms| > 0 && ms[0].Text?)
      && (!AllHours(ts) ==> r == Failure(InvalidTime))
      && (AllHours(ts) && (|ts| == 0 || |ds| == 0 || |los| == 0 || |las| == 0 || |ms| == 0) ==> r == Failure(IndexOutOfRange))
      && (r.Success? ==>
            && r.value.init == ts[0].n && r.value.name == ms[0].s
            && r.value.lon == los[0] && r.value.lat == las[0]
            && (r.value.PointForecast? <==> ds[0] != Num(0))
            && (r.value.PointForecast? ==> r.value.fhour == ds[0]))
  {
    var ts, ds, los, las, ms := t.Coords(Time), t.Coords(Dtime), t.Coords(Lon), t.Coords(Lat), t.Coords(Member);
    if !AllHours(ts) then Failure(InvalidTime)
    else if |ts| == 0 || |ds| == 0 || |los| == 0 || |las| == 0 || |ms| == 0 then Failure(IndexOutOfRange)
    else if !ms[0].Text? then Failure(InvalidMember)
    else if ds[0] != Num(0) then Success(PointForecast(ts[0].n, ms[0].s, ds[0], los[0], las[0]))
    else Success(PointAnalysis(ts[0].n, ms[0].s, los[0], las[0]))
  }
}
