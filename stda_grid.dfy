/** The canonical gridded STDA tensor: six named axes, always present and
    always in the order (member, level, time, dtime, lat, lon), an attribute
    bag whose "var_units" is the unit the values are in, and the converters
    and constructors that produce it (metdig/utl/utl_stda_grid.py). */
module StdaGrid {
  import opened StdaResult
  import opened NdArray

  /** The canonical axis names in storage order. */
  const Canonical: seq<string> := ["member", "level", "time", "dtime", "lat", "lon"]

  /** The six axes, numbered in storage order. */
  datatype Axis = Member | Level | Time | Dtime | Lat | Lon {
    function Index(): (i: nat)
      ensures i < 6 && Canonical[i] == Name()
    {
      match this
      case Member => 0
      case Level => 1
      case Time => 2
      case Dtime => 3
      case Lat => 4
      case Lon => 5
    }

    function Name(): string
    {
      match this
      case Member => "member"
      case Level => "level"
      case Time => "time"
      case Dtime => "dtime"
      case Lat => "lat"
      case Lon => "lon"
    }
  }

  lemma CanonicalDistinct()
    ensures Distinct(Canonical) && |Canonical| == 6
  {
  }

  type Attrs = map<string, string>

  /** An STDA tensor: the labelled data and its attribute bag. */
  datatype Stda = Stda(data: Labelled, attrs: Attrs) {
    /** Exactly the six canonical dimensions, in canonical order, no other
        coordinates, and a recorded unit. */
    predicate Valid()
    {
      && data.WellFormed()
      && data.dims == Canonical
      && data.aux == {}
      && "var_units" in attrs
    }

    function Coords(a: Axis): seq<Coord>
      requires Valid()
    {
      data.coords[a.Index()]
    }
  }

  /** The two collaborators the converters call and this model does not
      contain: building the attribute bag for a variable name plus extra
      keyword attributes (get_stda_attrs), and converting values from an
      input unit to the unit the registry gives (numpy_units_to_stda), which
      returns the converted values and the unit they are now in. */
  datatype Helpers = Helpers(
    stdaAttrs: (string, Attrs) -> Attrs,
    unitsToStda: (seq<real>, string, string) -> (seq<real>, string))

  /** What the calling code relies on: the built bag holds "var_units", and
      the converter keeps one value per element. */
  ghost predicate Sound(h: Helpers)
  {
    && (forall name, extra :: "var_units" in h.stdaAttrs(name, extra))
    && (forall v, u, su :: |h.unitsToStda(v, u, su).0| == |v|)
  }

  /** `t` holds the converter's output for `pre`, and its bag is the built
      one with "var_units" overwritten by the unit the converter reports. */
  predicate UnitsFinalised(t: Stda, pre: seq<real>, inputUnits: string, varName: string, extra: Attrs, h: Helpers)
    requires Sound(h)
  {
    var built := h.stdaAttrs(varName, extra);
    var converted := h.unitsToStda(pre, inputUnits, built["var_units"]);
    t.data.values == converted.0 && t.attrs == built["var_units" := converted.1]
  }

  // ---------------------------------------------------------------------
  // Reference arrangement of raw elements in canonical order
  // ---------------------------------------------------------------------

  /** Every raw dimension is mapped (through `names`, indexed by canonical
      axis) onto a canonical axis of the same length in `shape6`. */
  predicate MapsOnto(rawDims: seq<string>, rawShape: seq<nat>, names: seq<string>, shape6: seq<nat>)
  {
    && |names| == 6 && |shape6| == 6 && |rawDims| == |rawShape|
    && forall q :: 0 <= q < |rawDims| ==> rawDims[q] in names && shape6[Pos(names, rawDims[q])] == rawShape[q]
  }

  /** The raw multi-index that canonical multi-index `idx6` stands for:
      each raw dimension reads the index of the axis it is mapped to. */
  function RawIndex(rawDims: seq<string>, names: seq<string>, idx6: seq<nat>): (ri: seq<nat>)
    requires |names| == 6 && |idx6| == 6
    requires forall q :: 0 <= q < |rawDims| ==> rawDims[q] in names
    ensures |ri| == |rawDims| && forall q :: 0 <= q < |rawDims| ==> ri[q] == idx6[Pos(names, rawDims[q])]
  {
    Pick(idx6, names, rawDims)
  }

  lemma RawIndexInShape(rawDims: seq<string>, rawShape: seq<nat>, names: seq<string>, shape6: seq<nat>, idx6: seq<nat>)
    requires MapsOnto(rawDims, rawShape, names, shape6) && InShape(shape6, idx6)
    ensures InShape(rawShape, RawIndex(rawDims, names, idx6))
  {
  }

  /** The canonical element sequence: at every canonical multi-index, the
      raw element that index stands for; canonical axes no raw dimension is
      mapped to repeat the data. */
  function Arrange(rawDims: seq<string>, rawShape: seq<nat>, rawValues: seq<real>, names: seq<string>, shape6: seq<nat>): (v: seq<real>)
    requires MapsOnto(rawDims, rawShape, names, shape6) && |rawValues| == Prod(rawShape)
    ensures |v| == Prod(shape6)
  {
    ArrangedPrefix(rawDims, rawShape, rawValues, names, shape6, Prod(shape6))
  }

  /** The element Arrange puts at canonical offset `k`. */
  function ArrangedAt(rawDims: seq<string>, rawShape: seq<nat>, rawValues: seq<real>, names: seq<string>, shape6: seq<nat>, k: nat): real
    requires MapsOnto(rawDims, rawShape, names, shape6) && |rawValues| == Prod(rawShape) && k < Prod(shape6)
  {
    var idx6 := Unflat(shape6, k);
    RawIndexInShape(rawDims, rawShape, names, shape6, idx6);
    rawValues[Flat(rawShape, RawIndex(rawDims, names, idx6))]
  }

  /** The first `n` elements of the canonical arrangement. */
  function ArrangedPrefix(rawDims: seq<string>, rawShape: seq<nat>, rawValues: seq<real>, names: seq<string>, shape6: seq<nat>, n: nat): (v: seq<real>)
    requires MapsOnto(rawDims, rawShape, names, shape6) && |rawValues| == Prod(rawShape) && n <= Prod(shape6)
    ensures |v| == n && forall k :: 0 <= k < n ==> v[k] == ArrangedAt(rawDims, rawShape, rawValues, names, shape6, k)
  {
    if n == 0 then []
    else ArrangedPrefix(rawDims, rawShape, rawValues, names, shape6, n - 1) + [ArrangedAt(rawDims, rawShape, rawValues, names, shape6, n - 1)]
  }

  /** Arrange read at a canonical multi-index gives the raw element at the
      raw multi-index it stands for. */
  lemma ArrangeAt(rawDims: seq<string>, rawShape: seq<nat>, rawValues: seq<real>, names: seq<string>, shape6: seq<nat>, idx6: seq<nat>)
    requires MapsOnto(rawDims, rawShape, names, shape6) && |rawValues| == Prod(rawShape)
    requires InShape(shape6, idx6)
    ensures InShape(rawShape, RawIndex(rawDims, names, idx6))
    ensures Arrange(rawDims, rawShape, rawValues, names, shape6)[Flat(shape6, idx6)]
         == rawValues[Flat(rawShape, RawIndex(rawDims, names, idx6))]
  {
    UnflatFlat(shape6, idx6);
  }

  lemma CanonicalPos()
    ensures forall q :: 0 <= q < 6 ==> Pos(Canonical, Canonical[q]) == q
  {
    CanonicalDistinct();
    forall q | 0 <= q < 6 ensures Pos(Canonical, Canonical[q]) == q {
      PosOfDistinct(Canonical, q);
    }
  }

  lemma RawIndexIdentity(idx6: seq<nat>)
    requires |idx6| == 6
    ensures RawIndex(Canonical, Canonical, idx6) == idx6
  {
    CanonicalPos();
  }

  lemma ArrangeIdentityAt(rawShape: seq<nat>, rawValues: seq<real>, k: nat)
    requires |rawShape| == 6 && |rawValues| == Prod(rawShape) && k < |rawValues|
    requires MapsOnto(Canonical, rawShape, Canonical, rawShape)
    ensures ArrangedAt(Canonical, rawShape, rawValues, Canonical, rawShape, k) == rawValues[k]
  {
    RawIndexIdentity(Unflat(rawShape, k));
  }

  /** Identity canonicalisation: raw dimensions already canonical, in
      canonical order, leave the elements exactly where they were. */
  lemma ArrangeIdentity(rawShape: seq<nat>, rawValues: seq<real>)
    requires |rawShape| == 6 && |rawValues| == Prod(rawShape)
    ensures MapsOnto(Canonical, rawShape, Canonical, rawShape)
    ensures Arrange(Canonical, rawShape, rawValues, Canonical, rawShape) == rawValues
  {
    CanonicalPos();
    var v := Arrange(Canonical, rawShape, rawValues, Canonical, rawShape);
    forall k | 0 <= k < |rawValues| ensures v[k] == rawValues[k] {
      ArrangeIdentityAt(rawShape, rawValues, k);
    }
  }

  // ---------------------------------------------------------------------
  // From a raw array to the canonical order
  // ---------------------------------------------------------------------

  /** `s` is `x` with `e` broadcast axes put in front: the same trailing
      shape, and every element of `s` is the element of `x` at its trailing
      indices. */
  ghost predicate Extends(s: Labelled, x: Labelled, e: nat)
    requires s.WellFormed() && x.WellFormed()
  {
    && |s.dims| == e + |x.dims|
    && s.Shape()[e..] == x.Shape()
    && forall g {:trigger s.At(g)} :: InShape(s.Shape(), g) ==> InShape(x.Shape(), g[e..]) && s.At(g) == x.At(g[e..])
  }

  lemma ExtendsSelf(x: Labelled)
    requires x.WellFormed()
    ensures Extends(x, x, 0)
  {
    forall g | InShape(x.Shape(), g) ensures InShape(x.Shape(), g[0..]) && x.At(g) == x.At(g[0..]) {
      assert g[0..] == g;
    }
  }

  /** Renaming or relabelling keeps the shape and the elements. */
  lemma ExtendsSameData(s: Labelled, s': Labelled, x: Labelled, e: nat)
    requires s.WellFormed() && s'.WellFormed() && x.WellFormed() && Extends(s, x, e)
    requires |s'.dims| == |s.dims| && s'.Shape() == s.Shape() && s'.values == s.values
    ensures Extends(s', x, e)
  {
    forall g | InShape(s'.Shape(), g) ensures s'.At(g) == s.At(g) {
    }
  }

  lemma ExtendsExpandAt(s: Labelled, x: Labelled, e: nat, name: string, c: seq<Coord>, g: seq<nat>)
    requires s.WellFormed() && x.WellFormed() && Extends(s, x, e)
    requires ExpandDims(s, name, c).Success? && InShape(ExpandDims(s, name, c).value.Shape(), g)
    ensures InShape(x.Shape(), g[e + 1..])
    ensures ExpandDims(s, name, c).value.At(g) == x.At(g[e + 1..])
  {
    ExpandDimsTail(s, name, c, g);
    assert g[1..][e..] == g[e + 1..];
  }

  lemma ExtendsExpand(s: Labelled, x: Labelled, e: nat, name: string, c: seq<Coord>)
    requires s.WellFormed() && x.WellFormed() && Extends(s, x, e)
    requires ExpandDims(s, name, c).Success?
    ensures ExpandDims(s, name, c).value.WellFormed()
    ensures Extends(ExpandDims(s, name, c).value, x, e + 1)
  {
    var t := ExpandDims(s, name, c).value;
    assert t.Shape()[e + 1..] == s.Shape()[e..];
    forall g | InShape(t.Shape(), g)
      ensures InShape(x.Shape(), g[e + 1..]) && t.At(g) == x.At(g[e + 1..])
    {
      ExtendsExpandAt(s, x, e, name, c, g);
    }
  }

  /** Where each raw dimension ends up once `s` is put in canonical order. */
  lemma CanonicalPositions(s: Labelled, x: Labelled, e: nat, names: seq<string>)
    requires s.WellFormed() && x.WellFormed() && Extends(s, x, e)
    requires IsPermutationOf(Canonical, s.dims) && |names| == 6
    requires forall q :: 0 <= q < |x.dims| ==> x.dims[q] in names && s.dims[e + q] == Canonical[Pos(names, x.dims[q])]
    ensures Transpose(s, Canonical).Success?
    ensures MapsOnto(x.dims, x.Shape(), names, Transpose(s, Canonical).value.Shape())
    ensures forall q :: 0 <= q < |x.dims| ==> Pos(Canonical, s.dims[e + q]) == Pos(names, x.dims[q])
  {
    CanonicalDistinct();
    var sh := Transpose(s, Canonical).value.Shape();
    forall q | 0 <= q < |x.dims|
      ensures sh[Pos(names, x.dims[q])] == x.Shape()[q]
      ensures Pos(Canonical, s.dims[e + q]) == Pos(names, x.dims[q])
    {
      var a := Pos(names, x.dims[q]);
      PosOfDistinct(s.dims, e + q);
      PosOfDistinct(Canonical, a);
      assert s.Shape()[e..][q] == x.Shape()[q];
    }
  }

  /** `r` is what follows the first `e` entries of `g`, given entry by entry. */
  lemma SuffixFrom<T>(g: seq<T>, e: nat, r: seq<T>)
    requires e + |r| == |g| && forall q :: 0 <= q < |r| ==> g[e + q] == r[q]
    ensures g[e..] == r
  {
    forall q | 0 <= q < |r| ensures g[e..][q] == r[q] {
      assert g[e..][q] == g[e + q];
    }
  }

  /** The trailing entries of the gathered index, read under the canonical
      names the raw dimensions sit at, are the raw index. */
  lemma GatherTail(sdims: seq<string>, xdims: seq<string>, e: nat, names: seq<string>, ni: seq<nat>)
    requires |sdims| == e + |xdims| && |names| == 6 && |ni| == 6
    requires forall n :: n in sdims ==> n in Canonical
    requires forall q :: 0 <= q < |xdims| ==> xdims[q] in names && Pos(Canonical, sdims[e + q]) == Pos(names, xdims[q])
    ensures Gather(sdims, Canonical, ni)[e..] == RawIndex(xdims, names, ni)
  {
    var g := Gather(sdims, Canonical, ni);
    var r := RawIndex(xdims, names, ni);
    forall q | 0 <= q < |xdims| ensures g[e + q] == r[q] {
    }
    SuffixFrom(g, e, r);
  }

  lemma TransposeArrangesAt(s: Labelled, x: Labelled, e: nat, names: seq<string>, ni: seq<nat>)
    requires s.WellFormed() && x.WellFormed() && Extends(s, x, e)
    requires IsPermutationOf(Canonical, s.dims) && |names| == 6
    requires forall q :: 0 <= q < |x.dims| ==> x.dims[q] in names && Pos(Canonical, s.dims[e + q]) == Pos(names, x.dims[q])
    requires MapsOnto(x.dims, x.Shape(), names, PermutedShape(s, Canonical))
    requires InShape(PermutedShape(s, Canonical), ni)
    ensures InShape(Transpose(s, Canonical).value.Shape(), ni)
    ensures Transpose(s, Canonical).value.At(ni)
         == Arrange(x.dims, x.Shape(), x.values, names, PermutedShape(s, Canonical))[Flat(PermutedShape(s, Canonical), ni)]
  {
    TransposeAt(s, Canonical, ni);
    GatherTail(s.dims, x.dims, e, names, ni);
    ArrangeAt(x.dims, x.Shape(), x.values, names, PermutedShape(s, Canonical), ni);
  }

  /** Transposing an extension of `x` into canonical order, when every raw
      dimension sits (after its `e` leading broadcast axes) under the
      canonical name it is mapped to, gives exactly the reference
      arrangement of `x`. */
  lemma TransposeArranges(s: Labelled, x: Labelled, e: nat, names: seq<string>)
    requires s.WellFormed() && x.WellFormed() && Extends(s, x, e)
    requires IsPermutationOf(Canonical, s.dims) && |names| == 6
    requires forall q :: 0 <= q < |x.dims| ==> x.dims[q] in names && s.dims[e + q] == Canonical[Pos(names, x.dims[q])]
    ensures Transpose(s, Canonical).Success?
    ensures MapsOnto(x.dims, x.Shape(), names, Transpose(s, Canonical).value.Shape())
    ensures Transpose(s, Canonical).value.values == Arrange(x.dims, x.Shape(), x.values, names, Transpose(s, Canonical).value.Shape())
  {
    CanonicalPositions(s, x, e, names);
    var t := Transpose(s, Canonical).value;
    var sh := t.Shape();
    var v := Arrange(x.dims, x.Shape(), x.values, names, sh);
    forall k | 0 <= k < |t.values| ensures t.values[k] == v[k] {
      var ni := Unflat(sh, k);
      TransposeArrangesAt(s, x, e, names, ni);
    }
  }

  // ---------------------------------------------------------------------
  // npda_to_gridstda: a bare buffer plus canonical dimension names
  // ---------------------------------------------------------------------

  /** A bare numeric buffer: its shape and its elements in row-major order. */
  datatype Buffer = Buffer(shape: seq<nat>, values: seq<real>) {
    predicate Valid() { |values| == Prod(shape) }
  }

  /** The default labels 0, 1, ..., n - 1. */
  function Range(n: nat): (r: seq<Coord>)
    ensures |r| == n && forall i :: 0 <= i < n ==> r[i] == Num(i)
  {
    if n == 0 then [] else Range(n - 1) + [Num(n - 1)]
  }

  /** Building a labelled array from a buffer, one (name, labels) pair per
      buffer axis: fails on a repeated name or on labels whose length is not
      the buffer's length along that axis. */
  function Wrap(buf: Buffer, dims: seq<string>, labels: seq<seq<Coord>>): (r: Result<Labelled>)
    requires buf.Valid() && |dims| == |buf.shape| && |labels| == |dims|
    ensures r.Success? <==> Distinct(dims) && forall q :: 0 <= q < |dims| ==> |labels[q]| == buf.shape[q]
    ensures r.Success? ==> r.value == Labelled(dims, labels, buf.values, {}, {}) && r.value.WellFormed() && r.value.Shape() == buf.shape
  {
    if !Distinct(dims) then Failure(DuplicateDimension)
    else if exists q :: 0 <= q < |dims| && |labels[q]| != buf.shape[q] then Failure(ConflictingSize)
    else
      var x := Labelled(dims, labels, buf.values, {}, {});
      assert x.Shape() == buf.shape;
      Success(x)
  }

  /** The labels npda_to_gridstda gives buffer axis `q`: the caller's list
      for that axis if one was given, else 0 .. n-1. */
  function NpdaLabels(buf: Buffer, dims: seq<string>, coords: seq<Option<seq<Coord>>>, q: nat): seq<Coord>
    requires |coords| == 6 && |dims| == |buf.shape| && q < |dims| && dims[q] in Canonical
  {
    var given := coords[Pos(Canonical, dims[q])];
    if given.None? then Range(buf.shape[q]) else given.value
  }

  /** Every buffer axis has a canonical name. */
  predicate AllCanonical(dims: seq<string>)
  {
    forall q :: 0 <= q < |dims| ==> dims[q] in Canonical
  }

  /** Every label list the caller gave for a buffer axis has that axis's
      length. */
  predicate LabelsFit(npda: Buffer, dims: seq<string>, coords: seq<Option<seq<Coord>>>)
    requires |coords| == 6 && |dims| == |npda.shape| && AllCanonical(dims)
  {
    forall q :: 0 <= q < |dims| ==> coords[Pos(Canonical, dims[q])].Some? ==>
      |coords[Pos(Canonical, dims[q])].value| == npda.shape[q]
  }

  /** The labels of the first `n` buffer axes, in order. */
  function NpdaLabelList(buf: Buffer, dims: seq<string>, coords: seq<Option<seq<Coord>>>, n: nat): (ls: seq<seq<Coord>>)
    requires |coords| == 6 && |dims| == |buf.shape| && n <= |dims|
    requires AllCanonical(dims)
    ensures |ls| == n && forall q :: 0 <= q < n ==> ls[q] == NpdaLabels(buf, dims, coords, q)
  {
    if n == 0 then [] else NpdaLabelList(buf, dims, coords, n - 1) + [NpdaLabels(buf, dims, coords, n - 1)]
  }

  /** The labels of canonical axis `a` after npda_to_gridstda: a named axis
      keeps the caller's list or gets 0 .. n-1; a missing axis gets the
      caller's list (which then sets its length) or the single label 0. */
  function NpdaAxisLabels(buf: Buffer, dims: seq<string>, coords: seq<Option<seq<Coord>>>, a: nat): seq<Coord>
    requires |coords| == 6 && |dims| == |buf.shape| && a < 6
  {
    if Canonical[a] in dims then
      (if coords[a].Some? then coords[a].value else Range(buf.shape[Pos(dims, Canonical[a])]))
    else
      (if coords[a].Some? then coords[a].value else [Num(0)])
  }

  /** The state after broadcasting: `s` is `x` with `e` leading axes, all
      canonical names missing from `dims`, each carrying its npda labels. */
  ghost predicate Broadcast(npda: Buffer, dims: seq<string>, coords: seq<Option<seq<Coord>>>,
                            x: Labelled, s: Labelled, e: nat, upTo: nat)
    requires |coords| == 6 && |dims| == |npda.shape| && upTo <= 6
  {
    && s.WellFormed() && x.WellFormed() && x.dims == dims && |s.dims| == e + |x.dims| && s.aux == {}
    && s.dims[e..] == dims && s.coords[e..] == x.coords
    && (forall p :: 0 <= p < e ==> s.dims[p] in Canonical[..upTo] && s.dims[p] !in dims)
    && (forall p :: 0 <= p < e ==> s.coords[p] == NpdaAxisLabels(npda, dims, coords, Pos(Canonical, s.dims[p])))
    && (forall b :: 0 <= b < upTo && Canonical[b] !in dims ==> Canonical[b] in s.dims[..e])
  }

  /** A canonical name the buffer has needs no broadcast axis. */
  lemma BroadcastSkip(npda: Buffer, dims: seq<string>, coords: seq<Option<seq<Coord>>>,
                      x: Labelled, s: Labelled, e: nat, a: nat)
    requires |coords| == 6 && |dims| == |npda.shape| && a < 6
    requires Broadcast(npda, dims, coords, x, s, e, a) && Canonical[a] in dims
    ensures Broadcast(npda, dims, coords, x, s, e, a + 1)
  {
    forall p | 0 <= p < e ensures s.dims[p] in Canonical[..a + 1] {
      assert s.dims[p] in Canonical[..a];
    }
  }

  /** The leading names stay canonical names of axes 0 .. a, none in
      `dims`, once Canonical[a] is put in front. */
  lemma ConsPrefixNames(dims: seq<string>, sd: seq<string>, e: nat, a: nat)
    requires a < 6 && e <= |sd| && Canonical[a] !in dims
    requires forall p :: 0 <= p < e ==> sd[p] in Canonical[..a] && sd[p] !in dims
    ensures forall p :: 0 <= p < e + 1 ==> ([Canonical[a]] + sd)[p] in Canonical[..a + 1] && ([Canonical[a]] + sd)[p] !in dims
  {
    var td := [Canonical[a]] + sd;
    forall p | 0 <= p < e + 1 ensures td[p] in Canonical[..a + 1] && td[p] !in dims {
      if p > 0 {
        assert td[p] == sd[p - 1] && sd[p - 1] in Canonical[..a];
      }
    }
  }

  /** Every missing name among axes 0 .. a is among the leading names once
      Canonical[a] is put in front. */
  lemma ConsCovers(dims: seq<string>, sd: seq<string>, e: nat, a: nat)
    requires a < 6 && e <= |sd| && Canonical[a] !in dims
    requires forall b :: 0 <= b < a && Canonical[b] !in dims ==> Canonical[b] in sd[..e]
    ensures forall b :: 0 <= b < a + 1 && Canonical[b] !in dims ==> Canonical[b] in ([Canonical[a]] + sd)[..e + 1]
  {
    var td := [Canonical[a]] + sd;
    assert td[..e + 1] == [Canonical[a]] + sd[..e];
  }

  /** The leading axes keep their npda labels once Canonical[a] is put in
      front with its own. */
  lemma ConsPrefixLabels(npda: Buffer, dims: seq<string>, coords: seq<Option<seq<Coord>>>,
                         s: Labelled, t: Labelled, e: nat, a: nat)
    requires |coords| == 6 && |dims| == |npda.shape| && a < 6 && Canonical[a] !in dims
    requires e <= |s.dims| == |s.coords| && t.dims == [Canonical[a]] + s.dims
    requires t.coords == [if coords[a].Some? then coords[a].value else [Num(0)]] + s.coords
    requires forall p :: 0 <= p < e ==> s.dims[p] in Canonical
    requires forall p :: 0 <= p < e ==> s.coords[p] == NpdaAxisLabels(npda, dims, coords, Pos(Canonical, s.dims[p]))
    ensures forall p :: 0 <= p < e + 1 ==> t.coords[p] == NpdaAxisLabels(npda, dims, coords, Pos(Canonical, t.dims[p]))
  {
    CanonicalDistinct();
    PosOfDistinct(Canonical, a);
    forall p | 0 <= p < e + 1 ensures t.coords[p] == NpdaAxisLabels(npda, dims, coords, Pos(Canonical, t.dims[p])) {
      if p > 0 {
        assert t.dims[p] == s.dims[p - 1] && t.coords[p] == s.coords[p - 1];
      }
    }
  }

  /** Putting a missing canonical name, with its npda labels, in front of
      the broadcast state keeps it a broadcast state. */
  lemma BroadcastCons(npda: Buffer, dims: seq<string>, coords: seq<Option<seq<Coord>>>,
                      x: Labelled, s: Labelled, e: nat, a: nat, t: Labelled)
    requires |coords| == 6 && |dims| == |npda.shape| && a < 6
    requires Broadcast(npda, dims, coords, x, s, e, a) && Canonical[a] !in dims
    requires t.WellFormed() && t.aux == s.aux && t.dims == [Canonical[a]] + s.dims
    requires t.coords == [if coords[a].Some? then coords[a].value else [Num(0)]] + s.coords
    ensures Broadcast(npda, dims, coords, x, t, e + 1, a + 1)
  {
    assert t.dims[e + 1..] == s.dims[e..];
    assert t.coords[e + 1..] == s.coords[e..];
    ConsPrefixNames(dims, s.dims, e, a);
    ConsCovers(dims, s.dims, e, a);
    assert forall p :: 0 <= p < e ==> s.dims[p] in Canonical by {
      forall p | 0 <= p < e ensures s.dims[p] in Canonical {
        assert s.dims[p] in Canonical[..a];
      }
    }
    ConsPrefixLabels(npda, dims, coords, s, t, e, a);
  }

  /** A missing canonical name is free in the broadcast state, so the
      broadcast succeeds. */
  lemma BroadcastFree(npda: Buffer, dims: seq<string>, coords: seq<Option<seq<Coord>>>,
                      x: Labelled, s: Labelled, e: nat, a: nat)
    requires |coords| == 6 && |dims| == |npda.shape| && a < 6
    requires Broadcast(npda, dims, coords, x, s, e, a) && Canonical[a] !in dims
    ensures Canonical[a] !in s.dims && Canonical[a] !in s.aux
  {
    CanonicalDistinct();
    PosOfDistinct(Canonical, a);
    forall p | 0 <= p < e ensures s.dims[p] != Canonical[a] {
      assert s.dims[p] in Canonical[..a];
    }
    AbsentFromBoth(s.dims, e, dims, Canonical[a]);
  }

  /** A name absent from the first `e` entries and from the rest is absent. */
  lemma AbsentFromBoth<T>(sd: seq<T>, e: nat, rest: seq<T>, n: T)
    requires e <= |sd| && sd[e..] == rest && n !in rest
    requires forall p :: 0 <= p < e ==> sd[p] != n
    ensures n !in sd
  {
    forall p | e <= p < |sd| ensures sd[p] != n {
      assert sd[p] == rest[p - e];
    }
  }

  /** The broadcast loop of npda_to_gridstda: one leading axis per canonical
      name the buffer does not have, labelled by the caller's list or [0]. */
  method BroadcastMissing(npda: Buffer, dims: seq<string>, coords: seq<Option<seq<Coord>>>, x: Labelled)
    returns (s: Labelled, ghost e: nat)
    requires |coords| == 6 && |dims| == |npda.shape| && x.WellFormed() && x.dims == dims && x.aux == {}
    ensures Broadcast(npda, dims, coords, x, s, e, 6) && Extends(s, x, e)
  {
    s := x;
    e := 0;
    ExtendsSelf(x);
    for a := 0 to 6
      invariant Broadcast(npda, dims, coords, x, s, e, a) && Extends(s, x, e)
    {
      if Canonical[a] in dims {
        BroadcastSkip(npda, dims, coords, x, s, e, a);
      } else {
        var c := if coords[a].Some? then coords[a].value else [Num(0)];
        BroadcastFree(npda, dims, coords, x, s, e, a);
        ExtendsExpand(s, x, e, Canonical[a], c);
        var t := ExpandDims(s, Canonical[a], c).value;
        BroadcastCons(npda, dims, coords, x, s, e, a, t);
        s := t;
        e := e + 1;
      }
    }
  }

  /** The labels the broadcast state gives canonical axis `a`. */
  lemma BroadcastLabelsAt(npda: Buffer, dims: seq<string>, coords: seq<Option<seq<Coord>>>,
                          x: Labelled, s: Labelled, e: nat, a: nat, p: nat)
    requires |coords| == 6 && |dims| == |npda.shape| && a < 6 && Broadcast(npda, dims, coords, x, s, e, 6)
    requires AllCanonical(dims)
    requires x.coords == NpdaLabelList(npda, dims, coords, |dims|)
    requires p < |s.dims| && s.dims[p] == Canonical[a]
    ensures s.coords[p] == NpdaAxisLabels(npda, dims, coords, a)
  {
    CanonicalPos();
    if p >= e {
      TrailingLabels(npda, dims, coords, s.dims, s.coords, x.coords, e, p);
    }
  }

  /** A buffer axis behind the `e` broadcast axes carries the labels of the
      canonical axis it is named after. */
  lemma TrailingLabels(npda: Buffer, dims: seq<string>, coords: seq<Option<seq<Coord>>>,
                       sd: seq<string>, sc: seq<seq<Coord>>, xc: seq<seq<Coord>>, e: nat, p: nat)
    requires |coords| == 6 && |dims| == |npda.shape| && AllCanonical(dims) && Distinct(dims)
    requires e <= p < |sd| && |sd| == |sc| && sd[e..] == dims && sc[e..] == xc
    requires xc == NpdaLabelList(npda, dims, coords, |dims|)
    ensures sd[p] in Canonical && sc[p] == NpdaAxisLabels(npda, dims, coords, Pos(Canonical, sd[p]))
  {
    var q := p - e;
    assert sd[p] == dims[q] && sc[p] == xc[q];
    BufferAxisLabels(npda, dims, coords, q);
  }

  /** The labels a buffer axis gets are those of the canonical axis it is
      named after. */
  lemma BufferAxisLabels(npda: Buffer, dims: seq<string>, coords: seq<Option<seq<Coord>>>, q: nat)
    requires |coords| == 6 && |dims| == |npda.shape| && AllCanonical(dims) && Distinct(dims) && q < |dims|
    ensures Pos(Canonical, dims[q]) < 6
    ensures NpdaLabels(npda, dims, coords, q) == NpdaAxisLabels(npda, dims, coords, Pos(Canonical, dims[q]))
  {
    PosOfDistinct(dims, q);
  }

  /** After broadcasting, every canonical name is present, the buffer's axes
      sit where the transposition needs them, and each canonical axis
      carries its npda labels. */
  lemma BroadcastComplete(npda: Buffer, dims: seq<string>, coords: seq<Option<seq<Coord>>>,
                          x: Labelled, s: Labelled, e: nat)
    requires |coords| == 6 && |dims| == |npda.shape| && Broadcast(npda, dims, coords, x, s, e, 6)
    requires AllCanonical(dims)
    requires x.coords == NpdaLabelList(npda, dims, coords, |dims|)
    ensures IsPermutationOf(Canonical, s.dims)
    ensures forall q :: 0 <= q < |x.dims| ==> x.dims[q] in Canonical && s.dims[e + q] == Canonical[Pos(Canonical, x.dims[q])]
    ensures forall a :: 0 <= a < 6 ==>
              s.coords[Pos(s.dims, Canonical[a])] == NpdaAxisLabels(npda, dims, coords, a)
  {
    BroadcastNames(dims, s.dims, e);
    forall a | 0 <= a < 6 ensures s.coords[Pos(s.dims, Canonical[a])] == NpdaAxisLabels(npda, dims, coords, a) {
      BroadcastLabelsAt(npda, dims, coords, x, s, e, a, Pos(s.dims, Canonical[a]));
    }
  }

  /** Broadcast names in front of the buffer's canonical names give every
      canonical name once, with the buffer's names where they were. */
  lemma BroadcastNames(dims: seq<string>, sd: seq<string>, e: nat)
    requires AllCanonical(dims) && Distinct(sd) && |sd| == e + |dims| && sd[e..] == dims
    requires forall p :: 0 <= p < e ==> sd[p] in Canonical[..6]
    requires forall b :: 0 <= b < 6 && Canonical[b] !in dims ==> Canonical[b] in sd[..e]
    ensures IsPermutationOf(Canonical, sd)
    ensures forall q :: 0 <= q < |dims| ==> dims[q] in Canonical && sd[e + q] == Canonical[Pos(Canonical, dims[q])]
  {
    CanonicalDistinct();
    assert forall q :: 0 <= q < |dims| ==> sd[e + q] == dims[q];
    forall b | 0 <= b < 6 ensures Canonical[b] in sd {
      if Canonical[b] in dims {
        var q := Pos(dims, Canonical[b]);
        assert sd[e + q] == Canonical[b];
      } else {
        assert Canonical[b] in sd[..e];
      }
    }
    forall p | 0 <= p < |sd| ensures sd[p] in Canonical {
      if p >= e {
        assert sd[p] == dims[p - e];
      }
    }
    SameNamesArePermutation(Canonical, sd);
  }

  /** Attributes and unit conversion, the last step of every converter:
      the attribute bag is built from the variable name and the extra
      attributes, the elements go through the unit converter, and the unit
      it reports replaces "var_units". */
  function Finalise(data: Labelled, inputUnits: string, varName: string, extra: Attrs, h: Helpers): (t: Stda)
    requires Sound(h)
    ensures t.data.dims == data.dims && t.data.coords == data.coords && t.data.aux == data.aux
    ensures |t.data.values| == |data.values| && "var_units" in t.attrs
    ensures data.WellFormed() ==> t.data.WellFormed() && t.data.Shape() == data.Shape()
    ensures UnitsFinalised(t, data.values, inputUnits, varName, extra, h)
  {
    var built := h.stdaAttrs(varName, extra);
    var converted := h.unitsToStda(data.values, inputUnits, built["var_units"]);
    Stda(data.(values := converted.0), built["var_units" := converted.1])
  }

  /** The canonical array npda_to_gridstda builds from a buffer whose names
      are canonical, distinct, and whose given label lists fit. */
  method NpdaArranged(npda: Buffer, dims: seq<string>, coords: seq<Option<seq<Coord>>>) returns (d: Labelled)
    requires npda.Valid() && |coords| == 6 && |npda.shape| == |dims| && Distinct(dims)
    requires AllCanonical(dims)
    requires LabelsFit(npda, dims, coords)
    ensures d.WellFormed() && d.dims == Canonical && d.aux == {}
    ensures forall a :: 0 <= a < 6 ==> d.coords[a] == NpdaAxisLabels(npda, dims, coords, a)
    ensures MapsOnto(dims, npda.shape, Canonical, d.Shape())
    ensures d.values == Arrange(dims, npda.shape, npda.values, Canonical, d.Shape())
  {
    var labels := NpdaLabelList(npda, dims, coords, |dims|);
    var x := Wrap(npda, dims, labels).value;
    ghost var e;
    var s;
    s, e := BroadcastMissing(npda, dims, coords, x);
    BroadcastComplete(npda, dims, coords, x, s, e);
    TransposeArranges(s, x, e, Canonical);
    d := Transpose(s, Canonical).value;
  }

  /** Wrapping with the npda labels succeeds exactly when the names are
      distinct and every given label list has its axis's length. */
  lemma NpdaWrapSucceeds(npda: Buffer, dims: seq<string>, coords: seq<Option<seq<Coord>>>)
    requires npda.Valid() && |coords| == 6 && |npda.shape| == |dims|
    requires AllCanonical(dims)
    ensures var labels := NpdaLabelList(npda, dims, coords, |dims|);
            Wrap(npda, dims, labels).Success? <==>
              && Distinct(dims)
              && LabelsFit(npda, dims, coords)
  {
  }

  /** What npda_to_gridstda returns on success: a valid tensor whose axes
      carry the npda labels, onto whose shape the buffer's axes map, and
      whose elements are the buffer's, arranged in canonical order and then
      converted by the unit helper. */
  predicate NpdaOutcome(t: Stda, npda: Buffer, dims: seq<string>, coords: seq<Option<seq<Coord>>>,
                        inputUnits: string, varName: string, extra: Attrs, h: Helpers)
    requires npda.Valid() && |coords| == 6 && |npda.shape| == |dims| && Sound(h)
  {
    && t.Valid()
    && (forall a :: 0 <= a < 6 ==> t.data.coords[a] == NpdaAxisLabels(npda, dims, coords, a))
    && MapsOnto(dims, npda.shape, Canonical, t.data.Shape())
    && UnitsFinalised(t, Arrange(dims, npda.shape, npda.values, Canonical, t.data.Shape()), inputUnits, varName, extra, h)
  }

  /** npda_to_gridstda: rank and name checks, wrapping with the given names,
      a broadcast axis for every missing canonical name, transposition to
      canonical order, then attributes and unit conversion. */
  method NpdaToGridStda(npda: Buffer, dims: seq<string>, coords: seq<Option<seq<Coord>>>,
                        inputUnits: string, varName: string, extra: Attrs, h: Helpers)
    returns (r: Result<Stda>)
    requires npda.Valid() && |coords| == 6 && Sound(h)
    ensures |npda.shape| != |dims| ==> r == Failure(ShapeMismatch)
    ensures |npda.shape| == |dims| && (exists q :: 0 <= q < |dims| && dims[q] !in Canonical) ==>
              r.Failure? && r.error.InvalidDimensionName? && r.error.name in dims && r.error.name !in Canonical
    ensures r.Success? <==>
              && |npda.shape| == |dims|
              && AllCanonical(dims)
              && Distinct(dims)
              && LabelsFit(npda, dims, coords)
    ensures r.Success? ==> NpdaOutcome(r.value, npda, dims, coords, inputUnits, varName, extra, h)
  {
    if |npda.shape| != |dims| {
      return Failure(ShapeMismatch);
    }
    for i := 0 to |dims|
      invariant forall q :: 0 <= q < i ==> dims[q] in Canonical
    {
      if dims[i] !in Canonical {
        return Failure(InvalidDimensionName(dims[i]));
      }
    }
    r := NpdaBuild(npda, dims, coords, inputUnits, varName, extra, h);
  }

  /** npda_to_gridstda once the rank and the names are checked: wrapping
      fails on a repeated name or a label list of the wrong length;
      otherwise broadcasting, transposition and finalisation follow. */
  method NpdaBuild(npda: Buffer, dims: seq<string>, coords: seq<Option<seq<Coord>>>,
                   inputUnits: string, varName: string, extra: Attrs, h: Helpers)
    returns (r: Result<Stda>)
    requires npda.Valid() && |coords| == 6 && Sound(h) && |npda.shape| == |dims| && AllCanonical(dims)
    ensures r.Success? <==> Distinct(dims) && LabelsFit(npda, dims, coords)
    ensures r.Success? ==> NpdaOutcome(r.value, npda, dims, coords, inputUnits, varName, extra, h)
  {
    var labels := NpdaLabelList(npda, dims, coords, |dims|);
    var wrapped := Wrap(npda, dims, labels);
    NpdaWrapSucceeds(npda, dims, coords);
    if wrapped.Failure? {
      return Failure(wrapped.error);
    }
    var d := NpdaArranged(npda, dims, coords);
    r := Success(Finalise(d, inputUnits, varName, extra, h));
  }

  // ---------------------------------------------------------------------
  // xrda_to_gridstda: a labelled array whose dimensions are mapped by name
  // ---------------------------------------------------------------------

  /** The override test of xrda_to_gridstda: no list at all, or the list
      holding the single value None, leaves the labels alone. */
  predicate NoneLike(o: Option<seq<Coord>>): (b: bool)
    ensures b <==> (o == None || o == Some([Null]))
  {
    o.None? || (|o.value| == 1 && o.value[0] == Null && assert o.value == [Null]; true)
  }

  /** Some canonical name handled before step `i` is no longer a dimension:
      no later step can bring it back, so the final transposition fails. */
  ghost predicate Lost(s: Labelled, i: nat)
    requires i <= 6
  {
    exists b :: 0 <= b < i && Canonical[b] !in s.dims
  }

  /** Where raw dimension `q` stands after steps 0 .. i-1: it still has
      its own name, which none of those steps names, or it has been renamed
      to the canonical axis it is mapped to. */
  ghost predicate PlacedAt(xdims: seq<string>, names: seq<string>, sd: seq<string>, e: nat, i: nat, q: nat)
    requires |names| == 6 && i <= 6 && |sd| == e + |xdims| && q < |xdims|
  {
    || (sd[e + q] == xdims[q] && xdims[q] !in names[..i] && xdims[q] !in Canonical[..i])
    || (xdims[q] in names[..i] && sd[e + q] == Canonical[Pos(names, xdims[q])])
  }

  /** Broadcast axis `p` is a canonical axis whose mapped name is not a raw
      dimension. */
  ghost predicate BroadcastAt(xdims: seq<string>, names: seq<string>, sd: seq<string>, p: nat)
    requires |names| == 6 && p < |sd|
  {
    sd[p] in Canonical && names[Pos(Canonical, sd[p])] !in xdims
  }

  /** Where the raw dimensions stand after steps 0 .. i-1. */
  ghost predicate Placed(xdims: seq<string>, names: seq<string>, sd: seq<string>, e: nat, i: nat)
    requires |names| == 6 && i <= 6 && |sd| == e + |xdims|
  {
    && (forall q :: 0 <= q < |xdims| ==> PlacedAt(xdims, names, sd, e, i, q))
    && (forall p :: 0 <= p < e ==> BroadcastAt(xdims, names, sd, p))
  }

  /** The state of the rename-or-broadcast phase after steps 0 .. i-1. */
  ghost predicate Renamed(xrda: Labelled, names: seq<string>, s: Labelled, e: nat, i: nat)
    requires |names| == 6 && i <= 6
  {
    && xrda.WellFormed() && s.WellFormed() && |s.dims| == e + |xrda.dims|
    && s.aux <= xrda.aux && s.scalars == s.aux * xrda.scalars
    && s.coords[e..] == xrda.coords
    && (forall p :: 0 <= p < e ==> s.dims[p] in Canonical[..i] && s.coords[p] == [Num(0)])
    && (Lost(s, i) || Placed(xrda.dims, names, s.dims, e, i))
  }

  /** Renaming `n` to Canonical[i] loses Canonical[b] (b < i) when that
      name was already gone or was `n` itself. */
  lemma RenameLoses(s: Labelled, t: Labelled, n: string, i: nat, b: nat)
    requires b < i < 6 && |t.dims| == |s.dims|
    requires forall p :: 0 <= p < |s.dims| ==> t.dims[p] == if s.dims[p] == n then Canonical[i] else s.dims[p]
    requires Canonical[b] !in s.dims || Canonical[b] == n
    ensures Lost(t, i + 1)
  {
    CanonicalDistinct();
    forall p | 0 <= p < |t.dims| ensures t.dims[p] != Canonical[b] {
    }
  }

  /** A raw dimension other than the renamed one keeps its place. */
  lemma RenameKeepsAt(xdims: seq<string>, names: seq<string>, sd: seq<string>, td: seq<string>, e: nat, i: nat, q0: nat, q: nat)
    requires |names| == 6 && i < 6 && |sd| == e + |xdims| && |td| == |sd|
    requires Distinct(xdims) && Distinct(sd) && q0 < |xdims| && q < |xdims| && q != q0
    requires forall p :: 0 <= p < |sd| ==> td[p] == if sd[p] == names[i] then Canonical[i] else sd[p]
    requires Canonical[i] == names[i] || Canonical[i] !in sd
    requires sd[e + q0] == names[i] && xdims[q0] == names[i]
    requires PlacedAt(xdims, names, sd, e, i, q)
    ensures PlacedAt(xdims, names, td, e, i + 1, q)
  {
    assert names[..i + 1] == names[..i] + [names[i]];
    assert Canonical[..i + 1] == Canonical[..i] + [Canonical[i]];
    assert td[e + q] == sd[e + q];
  }

  /** Renaming a raw dimension that still has its own name, when the
      state is placed, keeps it placed. */
  lemma RenamePlaces(xdims: seq<string>, names: seq<string>, sd: seq<string>, td: seq<string>, e: nat, i: nat, q0: nat)
    requires |names| == 6 && i < 6 && |sd| == e + |xdims| && |td| == |sd| && Distinct(xdims) && Distinct(sd)
    requires forall p :: 0 <= p < |sd| ==> td[p] == if sd[p] == names[i] then Canonical[i] else sd[p]
    requires Canonical[i] == names[i] || Canonical[i] !in sd
    requires q0 < |xdims| && sd[e + q0] == names[i] && xdims[q0] == names[i] && names[i] !in names[..i]
    requires Placed(xdims, names, sd, e, i)
    ensures Placed(xdims, names, td, e, i + 1)
  {
    var n := names[i];
    assert Pos(names, n) == i by {
      assert names[..i + 1] == names[..i] + [n];
    }
    var i' := i + 1;
    forall q | 0 <= q < |xdims| ensures PlacedAt(xdims, names, td, e, i', q) {
      if q == q0 {
        assert names[..i + 1][i] == n;
      } else {
        RenameKeepsAt(xdims, names, sd, td, e, i, q0, q);
      }
    }
    forall p | 0 <= p < e ensures sd[p] in Canonical && names[Pos(Canonical, sd[p])] !in xdims {
      assert BroadcastAt(xdims, names, sd, p);
    }
    RenameKeepsBroadcast(xdims, names, sd, td, e, i, q0);
  }

  /** Renaming a raw dimension leaves the broadcast axes in front alone. */
  lemma RenameKeepsBroadcast(xdims: seq<string>, names: seq<string>, sd: seq<string>, td: seq<string>, e: nat, i: nat, q0: nat)
    requires |names| == 6 && i < 6 && e + q0 < |sd| && |td| == |sd| && Distinct(sd) && sd[e + q0] == names[i]
    requires forall p :: 0 <= p < |sd| ==> td[p] == if sd[p] == names[i] then Canonical[i] else sd[p]
    requires forall p :: 0 <= p < e ==> sd[p] in Canonical && names[Pos(Canonical, sd[p])] !in xdims
    ensures forall p :: 0 <= p < e ==> td[p] in Canonical && names[Pos(Canonical, td[p])] !in xdims
  {
    forall p | 0 <= p < e ensures td[p] in Canonical && names[Pos(Canonical, td[p])] !in xdims {
      assert sd[p] != sd[e + q0];
    }
  }

  /** One renaming step of xrda_to_gridstda. */
  lemma RenameStep(xrda: Labelled, names: seq<string>, s: Labelled, t: Labelled, e: nat, i: nat)
    requires |names| == 6 && i < 6 && Renamed(xrda, names, s, e, i)
    requires names[i] in xrda.dims && Rename(s, names[i], Canonical[i]) == Success(t)
    ensures Renamed(xrda, names, t, e, i + 1)
  {
    CanonicalDistinct();
    var n := names[i];
    forall p | 0 <= p < e ensures t.dims[p] in Canonical[..i + 1] && t.coords[p] == [Num(0)] {
      assert s.dims[p] in Canonical[..i];
    }
    if Lost(s, i) {
      var b :| 0 <= b < i && Canonical[b] !in s.dims;
      RenameLoses(s, t, n, i, b);
    } else {
      var P := Pos(s.dims, n);
      if P < e {
        assert n in Canonical[..i];
        var b := Pos(Canonical[..i], n);
        RenameLoses(s, t, n, i, b);
      } else {
        var q0 := P - e;
        assert PlacedAt(xrda.dims, names, s.dims, e, i, q0);
        if s.dims[e + q0] == xrda.dims[q0] && xrda.dims[q0] !in names[..i] && xrda.dims[q0] !in Canonical[..i] {
          RenamePlaces(xrda.dims, names, s.dims, t.dims, e, i, q0);
        } else {
          var a := Pos(names, xrda.dims[q0]);
          assert names[..i][a] == names[a];
          RenameLoses(s, t, n, i, a);
        }
      }
    }
  }

  /** A broadcast step keeps a placed state placed. */
  lemma ExpandPlaces(xdims: seq<string>, names: seq<string>, sd: seq<string>, td: seq<string>, e: nat, i: nat)
    requires |names| == 6 && i < 6 && |sd| == e + |xdims| && Placed(xdims, names, sd, e, i)
    requires names[i] !in xdims && Canonical[i] !in sd && td == [Canonical[i]] + sd
    ensures Placed(xdims, names, td, e + 1, i + 1)
  {
    var e', i' := e + 1, i + 1;
    forall q | 0 <= q < |xdims| ensures PlacedAt(xdims, names, td, e', i', q) {
      ExpandKeepsAt(xdims, names, sd, td, e, i, q);
    }
    forall p | 0 <= p < e + 1 ensures BroadcastAt(xdims, names, td, p) {
      if p > 0 {
        assert td[p] == sd[p - 1] && BroadcastAt(xdims, names, sd, p - 1);
      } else {
        CanonicalDistinct();
        PosOfDistinct(Canonical, i);
      }
    }
  }

  /** A raw dimension keeps its place when a broadcast axis goes in front. */
  lemma ExpandKeepsAt(xdims: seq<string>, names: seq<string>, sd: seq<string>, td: seq<string>, e: nat, i: nat, q: nat)
    requires |names| == 6 && i < 6 && |sd| == e + |xdims| && q < |xdims| && PlacedAt(xdims, names, sd, e, i, q)
    requires names[i] !in xdims && Canonical[i] !in sd && td == [Canonical[i]] + sd
    ensures PlacedAt(xdims, names, td, e + 1, i + 1, q)
  {
    assert names[..i + 1] == names[..i] + [names[i]];
    assert Canonical[..i + 1] == Canonical[..i] + [Canonical[i]];
    assert td[e + 1 + q] == sd[e + q];
  }

  /** One broadcast step of xrda_to_gridstda: a name not among the raw
      dimensions puts its canonical axis in front, labelled [0]. */
  lemma ExpandStep(xrda: Labelled, names: seq<string>, s: Labelled, t: Labelled, e: nat, i: nat)
    requires |names| == 6 && i < 6 && Renamed(xrda, names, s, e, i)
    requires names[i] !in xrda.dims && ExpandDims(s, Canonical[i], [Num(0)]) == Success(t)
    ensures Renamed(xrda, names, t, e + 1, i + 1)
  {
    assert t.coords[e + 1..] == s.coords[e..];
    forall p | 0 <= p < e + 1 ensures t.dims[p] in Canonical[..i + 1] && t.coords[p] == [Num(0)] {
      if p > 0 {
        assert t.dims[p] == s.dims[p - 1] && s.dims[p - 1] in Canonical[..i];
      }
    }
    if Lost(s, i) {
      var b :| 0 <= b < i && Canonical[b] !in s.dims;
      CanonicalDistinct();
      assert Canonical[b] !in t.dims;
    } else {
      ExpandPlaces(xrda.dims, names, s.dims, t.dims, e, i);
    }
  }

  /** The labels canonical axis `a` carries after the renaming phase: those
      of the raw dimension mapped to it, or [0] when there is none. */
  function RawLabels(xrda: Labelled, names: seq<string>, a: nat): seq<Coord>
    requires |names| == 6 && a < 6 && |xrda.coords| == |xrda.dims|
  {
    if names[a] in xrda.dims then xrda.coords[Pos(xrda.dims, names[a])] else [Num(0)]
  }

  /** The labels canonical axis `a` carries in the result: the override when
      one is given, else its raw labels. */
  function XrdaAxisLabels(xrda: Labelled, names: seq<string>, overrides: seq<Option<seq<Coord>>>, a: nat): seq<Coord>
    requires |names| == 6 && |overrides| == 6 && a < 6 && |xrda.coords| == |xrda.dims|
  {
    if !NoneLike(overrides[a]) then overrides[a].value else RawLabels(xrda, names, a)
  }

  /** Conditions on the mapped names under which every rename and every
      broadcast of the first phase succeeds: every raw dimension is mapped,
      no raw dimension is mapped twice, a canonical name held by a
      non-dimension coordinate belongs to a scalar that the broadcast of an
      unmapped axis replaces, and a raw dimension that already has a
      canonical name is mapped to that axis. */
  predicate NamesWellPosed(xrda: Labelled, names: seq<string>)
    requires |names| == 6
  {
    && (forall q :: 0 <= q < |xrda.dims| ==> xrda.dims[q] in names)
    && (forall a, b :: 0 <= a < b < 6 && names[a] in xrda.dims ==> names[a] != names[b])
    && (forall a :: 0 <= a < 6 && Canonical[a] in xrda.aux ==> Canonical[a] in xrda.scalars && names[a] !in xrda.dims)
    && (forall a :: 0 <= a < 6 && Canonical[a] in xrda.dims ==> names[a] == Canonical[a])
  }

  /** ... and every override has the length of its axis. */
  predicate WellPosed(xrda: Labelled, names: seq<string>, overrides: seq<Option<seq<Coord>>>)
    requires |names| == 6 && |overrides| == 6 && |xrda.coords| == |xrda.dims|
  {
    && NamesWellPosed(xrda, names)
    && (forall a :: 0 <= a < 6 && !NoneLike(overrides[a]) ==> |overrides[a].value| == |RawLabels(xrda, names, a)|)
  }

  /** Under well-posed names a renaming step succeeds, stays placed and
      keeps every canonical name handled so far. */
  lemma WellPosedRename(xrda: Labelled, names: seq<string>, s: Labelled, e: nat, i: nat)
    requires |names| == 6 && i < 6 && Renamed(xrda, names, s, e, i) && NamesWellPosed(xrda, names)
    requires Placed(xrda.dims, names, s.dims, e, i) && forall b :: 0 <= b < i ==> Canonical[b] in s.dims
    requires names[i] in xrda.dims
    ensures Rename(s, names[i], Canonical[i]).Success?
    ensures var t := Rename(s, names[i], Canonical[i]).value;
            Placed(xrda.dims, names, t.dims, e, i + 1) && forall b :: 0 <= b < i + 1 ==> Canonical[b] in t.dims
  {
    var n := names[i];
    FreshName(xrda.dims, names, i);
    var q := Pos(xrda.dims, n);
    assert PlacedAt(xrda.dims, names, s.dims, e, i, q);
    CanonicalFree(xrda, names, s, e, i);
    var t := Rename(s, n, Canonical[i]).value;
    RenamePlaces(xrda.dims, names, s.dims, t.dims, e, i, q);
    RenameKeepsHandled(s.dims, t.dims, n, i, e + q);
  }

  /** A mapped name that is a raw dimension is mapped to one axis only, so
      no earlier step names it. */
  lemma FreshName(xdims: seq<string>, names: seq<string>, i: nat)
    requires |names| == 6 && i < 6 && names[i] in xdims
    requires forall a, b :: 0 <= a < b < 6 && names[a] in xdims ==> names[a] != names[b]
    ensures names[i] !in names[..i]
  {
  }

  /** Under well-posed names, Canonical[i] is not yet a dimension unless
      the name renamed to it is Canonical[i] itself. */
  lemma CanonicalFree(xrda: Labelled, names: seq<string>, s: Labelled, e: nat, i: nat)
    requires |names| == 6 && i < 6 && Renamed(xrda, names, s, e, i) && NamesWellPosed(xrda, names)
    requires Placed(xrda.dims, names, s.dims, e, i) && names[i] !in names[..i]
    ensures Canonical[i] == names[i] || Canonical[i] !in s.dims
  {
    CanonicalDistinct();
    PosOfDistinct(Canonical, i);
    assert Canonical[i] !in Canonical[..i];
    assert forall x :: x in names[..i] ==> Pos(names, x) < i;
    forall p | 0 <= p < |s.dims| && s.dims[p] == Canonical[i] ensures names[i] == Canonical[i] {
      if p >= e {
        assert PlacedAt(xrda.dims, names, s.dims, e, i, p - e);
      }
    }
  }

  /** Renaming `n`, which is at position `r` and is none of Canonical[0 ..
      i-1], to Canonical[i] keeps those names and adds Canonical[i]. */
  lemma RenameKeepsHandled(sd: seq<string>, td: seq<string>, n: string, i: nat, r: nat)
    requires i < 6 && |td| == |sd| && r < |sd| && sd[r] == n && n !in Canonical[..i]
    requires forall p :: 0 <= p < |sd| ==> td[p] == if sd[p] == n then Canonical[i] else sd[p]
    requires forall b :: 0 <= b < i ==> Canonical[b] in sd
    ensures forall b :: 0 <= b < i + 1 ==> Canonical[b] in td
  {
    forall b | 0 <= b < i + 1 ensures Canonical[b] in td {
      if b < i {
        var p := Pos(sd, Canonical[b]);
        assert Canonical[..i][b] == Canonical[b];
        assert td[p] == Canonical[b];
      } else {
        assert td[r] == Canonical[i];
      }
    }
  }

  /** Under well-posed names a broadcast step succeeds, stays placed and
      keeps every canonical name handled so far. */
  lemma WellPosedExpand(xrda: Labelled, names: seq<string>, s: Labelled, e: nat, i: nat)
    requires |names| == 6 && i < 6 && Renamed(xrda, names, s, e, i) && NamesWellPosed(xrda, names)
    requires Placed(xrda.dims, names, s.dims, e, i) && forall b :: 0 <= b < i ==> Canonical[b] in s.dims
    requires names[i] !in xrda.dims
    ensures ExpandDims(s, Canonical[i], [Num(0)]).Success?
    ensures var t := ExpandDims(s, Canonical[i], [Num(0)]).value;
            Placed(xrda.dims, names, t.dims, e + 1, i + 1) && forall b :: 0 <= b < i + 1 ==> Canonical[b] in t.dims
  {
    ExpandFree(xrda.dims, names, s.dims, e, i);
    var t := ExpandDims(s, Canonical[i], [Num(0)]).value;
    ExpandPlaces(xrda.dims, names, s.dims, t.dims, e, i);
  }

  /** Under well-posed names, no dimension holds the canonical name of an
      axis whose mapped name is not a raw dimension. */
  lemma ExpandFree(xdims: seq<string>, names: seq<string>, sd: seq<string>, e: nat, i: nat)
    requires |names| == 6 && i < 6 && |sd| == e + |xdims| && names[i] !in xdims
    requires forall p :: 0 <= p < e ==> sd[p] in Canonical[..i]
    requires Canonical[i] in xdims ==> names[i] == Canonical[i]
    requires Placed(xdims, names, sd, e, i)
    ensures Canonical[i] !in sd
  {
    CanonicalDistinct();
    PosOfDistinct(Canonical, i);
    assert Canonical[i] !in Canonical[..i];
    assert forall x :: x in names[..i] ==> Pos(names, x) < i;
    forall p | 0 <= p < |sd| ensures sd[p] != Canonical[i] {
      if p >= e {
        assert PlacedAt(xdims, names, sd, e, i, p - e);
      }
    }
  }

  /** The rename branch of one step: a mapped name that is a dimension of
      the input is renamed to the canonical name. */
  lemma RenameBranch(xrda: Labelled, names: seq<string>, s: Labelled, e: nat, i: nat)
    requires |names| == 6 && i < 6 && Renamed(xrda, names, s, e, i) && Extends(s, xrda, e)
    requires names[i] in xrda.dims
    ensures var r := Rename(s, names[i], Canonical[i]);
      r.Success? ==> Renamed(xrda, names, r.value, e, i + 1) && Extends(r.value, xrda, e)
    ensures var r := Rename(s, names[i], Canonical[i]);
      NamesWellPosed(xrda, names) && Placed(xrda.dims, names, s.dims, e, i) && (forall b :: 0 <= b < i ==> Canonical[b] in s.dims) ==>
        r.Success? && Placed(xrda.dims, names, r.value.dims, e, i + 1) && forall b :: 0 <= b < i + 1 ==> Canonical[b] in r.value.dims
  {
    if NamesWellPosed(xrda, names) && Placed(xrda.dims, names, s.dims, e, i) && (forall b :: 0 <= b < i ==> Canonical[b] in s.dims) {
      WellPosedRename(xrda, names, s, e, i);
    }
    var r := Rename(s, names[i], Canonical[i]);
    if r.Success? {
      RenameStep(xrda, names, s, r.value, e, i);
      ExtendsSameData(s, r.value, xrda, e);
    }
  }

  /** The broadcast branch of one step: a canonical axis whose mapped name
      is not a dimension of the input is put in front with the label 0. */
  lemma ExpandBranch(xrda: Labelled, names: seq<string>, s: Labelled, e: nat, i: nat)
    requires |names| == 6 && i < 6 && Renamed(xrda, names, s, e, i) && Extends(s, xrda, e)
    requires names[i] !in xrda.dims
    ensures var r := ExpandDims(s, Canonical[i], [Num(0)]);
      r.Success? ==> Renamed(xrda, names, r.value, e + 1, i + 1) && Extends(r.value, xrda, e + 1)
    ensures var r := ExpandDims(s, Canonical[i], [Num(0)]);
      NamesWellPosed(xrda, names) && Placed(xrda.dims, names, s.dims, e, i) && (forall b :: 0 <= b < i ==> Canonical[b] in s.dims) ==>
        r.Success? && Placed(xrda.dims, names, r.value.dims, e + 1, i + 1) && forall b :: 0 <= b < i + 1 ==> Canonical[b] in r.value.dims
  {
    if NamesWellPosed(xrda, names) && Placed(xrda.dims, names, s.dims, e, i) && (forall b :: 0 <= b < i ==> Canonical[b] in s.dims) {
      WellPosedExpand(xrda, names, s, e, i);
    }
    var r := ExpandDims(s, Canonical[i], [Num(0)]);
    if r.Success? {
      ExpandStep(xrda, names, s, r.value, e, i);
      ExtendsExpand(s, xrda, e, Canonical[i], [Num(0)]);
    }
  }

  /** One step of the rename-or-broadcast phase, for canonical axis `i`. */
  method RenameOrBroadcastStep(xrda: Labelled, names: seq<string>, s: Labelled, ghost e: nat, i: nat)
    returns (r: Result<Labelled>, ghost e': nat)
    requires |names| == 6 && i < 6 && Renamed(xrda, names, s, e, i) && Extends(s, xrda, e)
    ensures r.Success? ==> Renamed(xrda, names, r.value, e', i + 1) && Extends(r.value, xrda, e')
    ensures NamesWellPosed(xrda, names) && Placed(xrda.dims, names, s.dims, e, i) && (forall b :: 0 <= b < i ==> Canonical[b] in s.dims) ==>
              r.Success? && Placed(xrda.dims, names, r.value.dims, e', i + 1) && forall b :: 0 <= b < i + 1 ==> Canonical[b] in r.value.dims
  {
    if names[i] in xrda.dims {
      RenameBranch(xrda, names, s, e, i);
      r, e' := Rename(s, names[i], Canonical[i]), e;
    } else {
      ExpandBranch(xrda, names, s, e, i);
      r, e' := ExpandDims(s, Canonical[i], [Num(0)]), e + 1;
    }
  }

  /** The loop state of the rename-or-broadcast phase after steps 0 .. i-1:
      renamed so far, still the raw data, and placed when the names are
      well posed. */
  ghost predicate RenamePhase(xrda: Labelled, names: seq<string>, s: Labelled, e: nat, i: nat)
  {
    && |names| == 6 && i <= 6 && Renamed(xrda, names, s, e, i) && Extends(s, xrda, e)
    && (NamesWellPosed(xrda, names) ==>
          Placed(xrda.dims, names, s.dims, e, i) && forall b :: 0 <= b < i ==> Canonical[b] in s.dims)
  }

  /** The rename-or-broadcast phase of xrda_to_gridstda: for each canonical
      axis in turn, its mapped name is renamed to the canonical name when it
      is a dimension of the input, and otherwise the canonical axis is put
      in front with the single label 0. */
  method RenameOrBroadcast(xrda: Labelled, names: seq<string>) returns (r: Result<Labelled>, ghost e: nat)
    requires xrda.WellFormed() && |names| == 6
    ensures r.Success? ==> Renamed(xrda, names, r.value, e, 6) && Extends(r.value, xrda, e)
    ensures NamesWellPosed(xrda, names) ==>
              r.Success? && Placed(xrda.dims, names, r.value.dims, e, 6) && forall b :: 0 <= b < 6 ==> Canonical[b] in r.value.dims
  {
    var s := xrda;
    e := 0;
    ExtendsSelf(xrda);
    for i := 0 to 6
      invariant RenamePhase(xrda, names, s, e, i)
    {
      var t;
      t, e := RenameOrBroadcastStep(xrda, names, s, e, i);
      if t.Failure? {
        return t, e;
      }
      s := t.value;
    }
    r := Success(s);
  }

  /** After a successful first phase that put every canonical name in
      place, each raw dimension sits under the canonical axis it is mapped
      to and each canonical axis carries its raw labels. */
  lemma PlacedFinal(xrda: Labelled, names: seq<string>, s: Labelled, e: nat)
    requires |names| == 6 && Renamed(xrda, names, s, e, 6) && IsPermutationOf(Canonical, s.dims)
    ensures forall q :: 0 <= q < |xrda.dims| ==> xrda.dims[q] in names && s.dims[e + q] == Canonical[Pos(names, xrda.dims[q])]
    ensures forall a :: 0 <= a < 6 ==> s.coords[Pos(s.dims, Canonical[a])] == RawLabels(xrda, names, a)
  {
    CanonicalDistinct();
    assert !Lost(s, 6);
    PlacedDims(xrda.dims, names, s.dims, e);
    forall p | 0 <= p < e ensures s.dims[p] in Canonical && names[Pos(Canonical, s.dims[p])] !in xrda.dims && s.coords[p] == [Num(0)] {
      assert BroadcastAt(xrda.dims, names, s.dims, p);
    }
    forall a | 0 <= a < 6 ensures s.coords[Pos(s.dims, Canonical[a])] == RawLabels(xrda, names, a) {
      var p := Pos(s.dims, Canonical[a]);
      if p >= e {
        assert xrda.dims[p - e] in names && s.dims[e + (p - e)] == Canonical[Pos(names, xrda.dims[p - e])];
        assert s.coords[e..][p - e] == s.coords[p];
      }
      PlacedLabelsAt(Canonical, xrda.dims, xrda.coords, names, s.dims, s.coords, [Num(0)], e, a, p);
    }
  }

  /** Once every canonical name is present, each raw dimension has been
      renamed to the canonical name of its axis. */
  lemma PlacedDims(xdims: seq<string>, names: seq<string>, sd: seq<string>, e: nat)
    requires |names| == 6 && |sd| == e + |xdims| && Placed(xdims, names, sd, e, 6) && IsPermutationOf(Canonical, sd)
    ensures forall q :: 0 <= q < |xdims| ==> xdims[q] in names && sd[e + q] == Canonical[Pos(names, xdims[q])]
  {
    assert Canonical[..6] == Canonical && names[..6] == names;
    forall q | 0 <= q < |xdims| ensures xdims[q] in names && sd[e + q] == Canonical[Pos(names, xdims[q])] {
      assert PlacedAt(xdims, names, sd, e, 6, q);
      assert sd[e + q] in Canonical;
    }
  }

  /** A broadcast axis standing at canonical name `cn[a]` means that name's
      mapped raw name is not a raw dimension. */
  lemma BroadcastNameAt<T>(cn: seq<T>, xdims: seq<T>, names: seq<T>, a: nat, d: T)
    requires |cn| == 6 && Distinct(cn) && |names| == 6 && a < 6 && d == cn[a]
    requires d in cn && names[Pos(cn, d)] !in xdims
    ensures names[a] !in xdims
  {
    PosOfDistinct(cn, a);
  }

  /** Raw dimension `q`, standing at canonical name `cn[a]`, is the one
      mapped to axis `a`. */
  lemma RawNameAt<T>(cn: seq<T>, xdims: seq<T>, names: seq<T>, a: nat, q: nat)
    requires |cn| == 6 && Distinct(cn) && |names| == 6 && a < 6 && q < |xdims| && Distinct(xdims)
    requires xdims[q] in names && cn[Pos(names, xdims[q])] == cn[a]
    ensures names[a] in xdims && Pos(xdims, names[a]) == q
  {
    var k := Pos(names, xdims[q]);
    PosOfDistinct(cn, k);
    PosOfDistinct(cn, a);
    PosOfDistinct(xdims, q);
  }

  /** Canonical axis `a` carries the labels of the raw dimension mapped to
      it, or [0]. */
  lemma PlacedLabelsAt<T, L>(cn: seq<T>, xdims: seq<T>, xcoords: seq<L>, names: seq<T>,
                             sd: seq<T>, sc: seq<L>, zero: L, e: nat, a: nat, p: nat)
    requires |cn| == 6 && Distinct(cn) && |names| == 6 && a < 6
    requires |sd| == e + |xdims| && |sc| == |sd| && |xcoords| == |xdims| && Distinct(xdims)
    requires p < |sd| && sd[p] == cn[a]
    requires p < e ==> sd[p] in cn && names[Pos(cn, sd[p])] !in xdims && sc[p] == zero
    requires p >= e ==> xdims[p - e] in names && sd[p] == cn[Pos(names, xdims[p - e])] && sc[p] == xcoords[p - e]
    ensures sc[p] == if names[a] in xdims then xcoords[Pos(xdims, names[a])] else zero
  {
    if p < e {
      BroadcastNameAt(cn, xdims, names, a, sd[p]);
    } else {
      RawNameAt(cn, xdims, names, a, p - e);
    }
  }

  /** Under well-posed names the first phase leaves exactly the six
      canonical names. */
  lemma WellPosedComplete(xrda: Labelled, names: seq<string>, s: Labelled, e: nat)
    requires |names| == 6 && Renamed(xrda, names, s, e, 6) && NamesWellPosed(xrda, names)
    requires Placed(xrda.dims, names, s.dims, e, 6) && forall b :: 0 <= b < 6 ==> Canonical[b] in s.dims
    ensures IsPermutationOf(Canonical, s.dims)
  {
    CanonicalDistinct();
    PlacedCanonical(xrda.dims, names, s.dims, e);
    SameNamesArePermutation(Canonical, s.dims);
  }

  /** After all six steps with every raw dimension mapped, every name is
      canonical. */
  lemma PlacedCanonical(xdims: seq<string>, names: seq<string>, sd: seq<string>, e: nat)
    requires |names| == 6 && |sd| == e + |xdims| && Placed(xdims, names, sd, e, 6)
    requires forall q :: 0 <= q < |xdims| ==> xdims[q] in names
    ensures forall p :: 0 <= p < |sd| ==> sd[p] in Canonical
  {
    assert names[..6] == names;
    forall p | 0 <= p < |sd| ensures sd[p] in Canonical {
      if p < e {
        assert BroadcastAt(xdims, names, sd, p);
      } else {
        assert PlacedAt(xdims, names, sd, e, 6, p - e);
      }
    }
  }

  /** The labels coordinate `p` of `s` has once the overrides of canonical
      axes 0 .. a-1 are applied. */
  function RelabelledUpTo(s: Labelled, overrides: seq<Option<seq<Coord>>>, a: nat, p: nat): seq<Coord>
    requires |overrides| == 6 && a <= 6 && p < |s.dims| == |s.coords|
  {
    if s.dims[p] in Canonical[..a] && !NoneLike(overrides[Pos(Canonical, s.dims[p])])
    then overrides[Pos(Canonical, s.dims[p])].value
    else s.coords[p]
  }

  /** The labels coordinate `p` of `s` has once all overrides are applied. */
  function Relabelled(s: Labelled, overrides: seq<Option<seq<Coord>>>, p: nat): seq<Coord>
    requires |overrides| == 6 && p < |s.dims| == |s.coords|
  {
    RelabelledUpTo(s, overrides, 6, p)
  }

  lemma RelabelStep(s: Labelled, t: Labelled, t': Labelled, overrides: seq<Option<seq<Coord>>>, a: nat)
    requires |overrides| == 6 && a < 6 && |s.dims| == |s.coords| == |t.coords| == |t'.coords|
    requires forall p :: 0 <= p < |s.dims| ==> t.coords[p] == RelabelledUpTo(s, overrides, a, p)
    requires forall p :: 0 <= p < |s.dims| ==>
               t'.coords[p] == if s.dims[p] == Canonical[a] && !NoneLike(overrides[a]) then overrides[a].value else t.coords[p]
    ensures forall p :: 0 <= p < |s.dims| ==> t'.coords[p] == RelabelledUpTo(s, overrides, a + 1, p)
  {
    CanonicalDistinct();
    PosOfDistinct(Canonical, a);
    assert Canonical[..a + 1] == Canonical[..a] + [Canonical[a]];
    var a' := a + 1;
    forall p | 0 <= p < |s.dims| ensures t'.coords[p] == RelabelledUpTo(s, overrides, a', p) {
      assert t.coords[p] == RelabelledUpTo(s, overrides, a, p);
    }
  }

  /** Every override among the first `n` that is not None-like names an
      existing axis and has that axis's length. */
  predicate OverridesFit(s: Labelled, overrides: seq<Option<seq<Coord>>>, n: nat)
    requires s.WellFormed() && |overrides| == 6 && n <= 6
  {
    forall b :: 0 <= b < n && !NoneLike(overrides[b]) ==>
      Canonical[b] in s.dims && |overrides[b].value| == |s.coords[Pos(s.dims, Canonical[b])]|
  }

  /** `t` is `s` with the overrides of the first `a` canonical axes applied
      to the labels and nothing else changed. */
  predicate RelabelledTo(s: Labelled, t: Labelled, overrides: seq<Option<seq<Coord>>>, a: nat)
    requires s.WellFormed() && |overrides| == 6 && a <= 6
  {
    && t.WellFormed() && t.dims == s.dims && t.values == s.values && t.aux == s.aux && t.Shape() == s.Shape()
    && forall p :: 0 <= p < |s.dims| ==> t.coords[p] == RelabelledUpTo(s, overrides, a, p)
  }

  /** The override phase of xrda_to_gridstda: each canonical axis whose
      override is not None-like gets the override as labels, which fails
      unless the axis exists and has the override's length. */
  method AssignOverrides(s: Labelled, overrides: seq<Option<seq<Coord>>>) returns (r: Result<Labelled>)
    requires s.WellFormed() && |overrides| == 6
    ensures r.Success? <==> OverridesFit(s, overrides, 6)
    ensures r.Success? ==> RelabelledTo(s, r.value, overrides, 6)
  {
    var t := s;
    for a := 0 to 6
      invariant OverridesFit(s, overrides, a) && RelabelledTo(s, t, overrides, a)
    {
      var t' := t;
      if !NoneLike(overrides[a]) {
        var u := AssignCoords(t, Canonical[a], overrides[a].value);
        if u.Failure? {
          OverrideMisfit(s, t, overrides, a);
          return Failure(u.error);
        }
        t' := u.value;
      }
      RelabelAdvance(s, t, t', overrides, a);
      t := t';
    }
    r := Success(t);
  }

  /** Applying override `a` (or skipping it when None-like) advances the
      override phase by one axis. */
  lemma RelabelAdvance(s: Labelled, t: Labelled, t': Labelled, overrides: seq<Option<seq<Coord>>>, a: nat)
    requires s.WellFormed() && |overrides| == 6 && a < 6
    requires OverridesFit(s, overrides, a) && RelabelledTo(s, t, overrides, a)
    requires NoneLike(overrides[a]) ==> t' == t
    requires !NoneLike(overrides[a]) ==> AssignCoords(t, Canonical[a], overrides[a].value) == Success(t')
    ensures OverridesFit(s, overrides, a + 1) && RelabelledTo(s, t', overrides, a + 1)
  {
    RelabelStep(s, t, t', overrides, a);
    if !NoneLike(overrides[a]) {
      var p := Pos(s.dims, Canonical[a]);
      CanonicalDistinct();
      PosOfDistinct(Canonical, a);
      assert t.coords[p] == RelabelledUpTo(s, overrides, a, p) == s.coords[p];
    }
  }

  /** An override that does not fit the relabelled array does not fit the
      original one either, since earlier overrides touch other axes. */
  lemma OverrideMisfit(s: Labelled, t: Labelled, overrides: seq<Option<seq<Coord>>>, a: nat)
    requires s.WellFormed() && |overrides| == 6 && a < 6 && RelabelledTo(s, t, overrides, a)
    requires !NoneLike(overrides[a]) && AssignCoords(t, Canonical[a], overrides[a].value).Failure?
    ensures !OverridesFit(s, overrides, 6)
  {
    if Canonical[a] in s.dims {
      var p := Pos(s.dims, Canonical[a]);
      CanonicalDistinct();
      PosOfDistinct(Canonical, a);
      assert t.coords[p] == RelabelledUpTo(s, overrides, a, p) == s.coords[p];
    }
  }

  /** The labels of canonical axis `a` after both phases, read off at its
      position in the renamed array. */
  lemma XrdaLabelsAt(xrda: Labelled, names: seq<string>, overrides: seq<Option<seq<Coord>>>, s: Labelled, e: nat, a: nat)
    requires |names| == 6 && |overrides| == 6 && a < 6
    requires Renamed(xrda, names, s, e, 6) && IsPermutationOf(Canonical, s.dims)
    ensures Relabelled(s, overrides, Pos(s.dims, Canonical[a])) == XrdaAxisLabels(xrda, names, overrides, a)
  {
    CanonicalDistinct();
    PosOfDistinct(Canonical, a);
    assert Canonical[..6] == Canonical;
    PlacedFinal(xrda, names, s, e);
  }

  /** Under a well-posed call the first phase yields the six canonical
      names and every override fits its axis. */
  lemma WellPosedFits(xrda: Labelled, names: seq<string>, overrides: seq<Option<seq<Coord>>>, s: Labelled, e: nat)
    requires |names| == 6 && |overrides| == 6 && Renamed(xrda, names, s, e, 6) && WellPosed(xrda, names, overrides)
    requires Placed(xrda.dims, names, s.dims, e, 6) && forall b :: 0 <= b < 6 ==> Canonical[b] in s.dims
    ensures IsPermutationOf(Canonical, s.dims)
    ensures forall a :: 0 <= a < 6 && !NoneLike(overrides[a]) ==>
              Canonical[a] in s.dims && |overrides[a].value| == |s.coords[Pos(s.dims, Canonical[a])]|
  {
    WellPosedComplete(xrda, names, s, e);
    PlacedFinal(xrda, names, s, e);
  }

  /** The canonical array xrda_to_gridstda builds before attributes and
      units: the six canonical names and no other coordinates, each axis
      with its labels after both phases, and the raw elements arranged in
      canonical order. */
  predicate XrdaCanonical(d: Labelled, xrda: Labelled, names: seq<string>, overrides: seq<Option<seq<Coord>>>)
    requires xrda.WellFormed() && |names| == 6 && |overrides| == 6
  {
    && d.WellFormed() && d.dims == Canonical && d.aux == {}
    && (forall a :: 0 <= a < 6 ==> d.coords[a] == XrdaAxisLabels(xrda, names, overrides, a))
    && MapsOnto(xrda.dims, xrda.Shape(), names, d.Shape())
    && d.values == Arrange(xrda.dims, xrda.Shape(), xrda.values, names, d.Shape())
  }

  /** What xrda_to_gridstda returns on success: a valid tensor labelled as
      above whose elements are the arranged raw elements converted by the
      unit helper. */
  predicate XrdaOutcome(t: Stda, xrda: Labelled, names: seq<string>, overrides: seq<Option<seq<Coord>>>,
                        inputUnits: string, varName: string, extra: Attrs, h: Helpers)
    requires xrda.WellFormed() && |names| == 6 && |overrides| == 6 && Sound(h)
  {
    && t.Valid()
    && (forall a :: 0 <= a < 6 ==> t.data.coords[a] == XrdaAxisLabels(xrda, names, overrides, a))
    && MapsOnto(xrda.dims, xrda.Shape(), names, t.data.Shape())
    && UnitsFinalised(t, Arrange(xrda.dims, xrda.Shape(), xrda.values, names, t.data.Shape()), inputUnits, varName, extra, h)
  }

  /** The result of the transposition of a relabelled first-phase array, with
      the non-dimension coordinates dropped. */
  lemma XrdaFinal(xrda: Labelled, names: seq<string>, overrides: seq<Option<seq<Coord>>>, s1: Labelled, s2: Labelled, e: nat)
    requires |names| == 6 && |overrides| == 6 && Renamed(xrda, names, s1, e, 6) && Extends(s1, xrda, e)
    requires s2.WellFormed() && s2.dims == s1.dims && s2.values == s1.values && s2.Shape() == s1.Shape()
    requires forall p :: 0 <= p < |s1.dims| ==> s2.coords[p] == Relabelled(s1, overrides, p)
    requires Transpose(s2, Canonical).Success?
    ensures xrda.WellFormed() && XrdaCanonical(Transpose(s2, Canonical).value.(aux := {}, scalars := {}), xrda, names, overrides)
  {
    var t := Transpose(s2, Canonical).value;
    XrdaFinalData(xrda, names, s1, s2, e);
    XrdaFinalLabels(xrda, names, overrides, s1, s2, e);
    DropAux(t);
  }

  /** The transposition of the first-phase array arranges the raw elements
      in canonical order. */
  lemma XrdaFinalData(xrda: Labelled, names: seq<string>, s1: Labelled, s2: Labelled, e: nat)
    requires |names| == 6 && Renamed(xrda, names, s1, e, 6) && Extends(s1, xrda, e)
    requires s2.WellFormed() && s2.dims == s1.dims && s2.values == s1.values && s2.Shape() == s1.Shape()
    requires Transpose(s2, Canonical).Success?
    ensures var t := Transpose(s2, Canonical).value;
            && MapsOnto(xrda.dims, xrda.Shape(), names, t.Shape())
            && t.values == Arrange(xrda.dims, xrda.Shape(), xrda.values, names, t.Shape())
  {
    PlacedFinal(xrda, names, s1, e);
    ExtendsSameData(s1, s2, xrda, e);
    TransposeArranges(s2, xrda, e, names);
  }

  /** ... and gives each canonical axis its labels after both phases. */
  lemma XrdaFinalLabels(xrda: Labelled, names: seq<string>, overrides: seq<Option<seq<Coord>>>, s1: Labelled, s2: Labelled, e: nat)
    requires |names| == 6 && |overrides| == 6 && Renamed(xrda, names, s1, e, 6)
    requires s2.WellFormed() && s2.dims == s1.dims
    requires forall p :: 0 <= p < |s1.dims| ==> s2.coords[p] == Relabelled(s1, overrides, p)
    requires Transpose(s2, Canonical).Success?
    ensures forall a :: 0 <= a < 6 ==> Transpose(s2, Canonical).value.coords[a] == XrdaAxisLabels(xrda, names, overrides, a)
  {
    forall a | 0 <= a < 6 ensures Transpose(s2, Canonical).value.coords[a] == XrdaAxisLabels(xrda, names, overrides, a) {
      XrdaLabelsAt(xrda, names, overrides, s1, e, a);
    }
  }

  /** The canonical array xrda_to_gridstda builds before attributes and
      units: rename or broadcast each canonical axis, apply the overrides,
      transpose to canonical order and drop the non-dimension coordinates. */
  method XrdaArranged(xrda: Labelled, names: seq<string>, overrides: seq<Option<seq<Coord>>>) returns (r: Result<Labelled>)
    requires xrda.WellFormed() && |names| == 6 && |overrides| == 6
    ensures WellPosed(xrda, names, overrides) ==> r.Success?
    ensures r.Success? ==> XrdaCanonical(r.value, xrda, names, overrides)
  {
    ghost var e;
    var s1;
    s1, e := RenameOrBroadcast(xrda, names);
    if s1.Failure? {
      return Failure(s1.error);
    }
    if WellPosed(xrda, names, overrides) {
      WellPosedFits(xrda, names, overrides, s1.value, e);
    }
    var s2 := AssignOverrides(s1.value, overrides);
    if s2.Failure? {
      return Failure(s2.error);
    }
    var t := Transpose(s2.value, Canonical);
    if t.Failure? {
      return Failure(t.error);
    }
    XrdaFinal(xrda, names, overrides, s1.value, s2.value, e);
    r := Success(t.value.(aux := {}, scalars := {}));
  }

  /** xrda_to_gridstda: the canonical arrangement of the input, with its
      attributes and converted units. */
  method XrdaToGridStda(xrda: Labelled, names: seq<string>, overrides: seq<Option<seq<Coord>>>,
                        inputUnits: string, varName: string, extra: Attrs, h: Helpers)
    returns (r: Result<Stda>)
    requires xrda.WellFormed() && |names| == 6 && |overrides| == 6 && Sound(h)
    ensures WellPosed(xrda, names, overrides) ==> r.Success?
    ensures r.Success? ==> XrdaOutcome(r.value, xrda, names, overrides, inputUnits, varName, extra, h)
  {
    var d := XrdaArranged(xrda, names, overrides);
    if d.Failure? {
      return Failure(d.error);
    }
    r := Success(Finalise(d.value, inputUnits, varName, extra, h));
  }

  /** A field selected at one level, such as da.sel(level=500), has
      dimensions (lat, lon) and keeps "level" as a scalar coordinate; with
      the default names and no overrides the call is well posed, so
      XrdaToGridStda succeeds on it. */
  lemma SelectedLevelWellPosed(lat: seq<Coord>, lon: seq<Coord>, values: seq<real>)
    requires |values| == |lat| * |lon|
    ensures var x := Labelled(["lat", "lon"], [lat, lon], values, {"level"}, {"level"});
      x.WellFormed() && WellPosed(x, Canonical, [None, None, None, None, None, None])
  {
    var x := Labelled(["lat", "lon"], [lat, lon], values, {"level"}, {"level"});
    assert x.Shape() == [|lat|, |lon|];
    assert Prod([|lon|]) == |lon|;
    SelectedLevelNames(x);
  }

  /** The default names are well posed for dimensions (lat, lon) with a
      scalar "level" coordinate. */
  lemma SelectedLevelNames(x: Labelled)
    requires x.dims == ["lat", "lon"] && x.aux == {"level"} && x.scalars == {"level"}
    ensures NamesWellPosed(x, Canonical)
  {
    CanonicalDistinct();
    forall a, b | 0 <= a < b < 6 && Canonical[a] in x.dims ensures Canonical[a] != Canonical[b] {
      PosOfDistinct(Canonical, a);
      PosOfDistinct(Canonical, b);
    }
    assert x.dims[0] == Canonical[4] && x.dims[1] == Canonical[5];
    forall a | 0 <= a < 6 && Canonical[a] in x.aux ensures Canonical[a] in x.scalars && Canonical[a] !in x.dims {
      assert Canonical[a] == Canonical[1];
      PosOfDistinct(Canonical, 1);
    }
  }

  // ---------------------------------------------------------------------
  // numpy_to_gridstda: a six-dimensional buffer plus six label lists
  // ---------------------------------------------------------------------

  /** numpy_to_gridstda: the attributes are built and the elements
      converted first, then the converted buffer is wrapped with the six
      canonical names and the six label lists; wrapping fails unless the
      buffer has six axes whose lengths are those of the lists. */
  function NumpyToGridStda(input: Buffer, lists: seq<seq<Coord>>, inputUnits: string, varName: string, extra: Attrs, h: Helpers)
    : (r: Result<Stda>)
    requires input.Valid() && |lists| == 6 && Sound(h)
    ensures r.Success? <==> |input.shape| == 6 && forall a :: 0 <= a < 6 ==> input.shape[a] == |lists[a]|
    ensures |input.shape| != 6 ==> r == Failure(ShapeMismatch)
    ensures r.Success? ==> r.value.Valid() && r.value.data.coords == lists && r.value.data.Shape() == input.shape
    ensures r.Success? ==> UnitsFinalised(r.value, input.values, inputUnits, varName, extra, h)
  {
    var built := h.stdaAttrs(varName, extra);
    var converted := h.unitsToStda(input.values, inputUnits, built["var_units"]);
    if |input.shape| != 6 then Failure(ShapeMismatch)
    else
      var wrapped := Wrap(Buffer(input.shape, converted.0), Canonical, lists);
      if wrapped.Failure? then Failure(wrapped.error)
      else
        CanonicalDistinct();
        Success(Stda(wrapped.value, built["var_units" := converted.1]))
  }

  /** numpy_to_gridstda takes its buffer as already canonical: on success
      the elements are the converter's output of the reference arrangement
      of the buffer under the canonical names, which is the buffer itself. */
  lemma NumpyArranged(input: Buffer, lists: seq<seq<Coord>>, inputUnits: string, varName: string, extra: Attrs, h: Helpers)
    requires input.Valid() && |lists| == 6 && Sound(h)
    requires NumpyToGridStda(input, lists, inputUnits, varName, extra, h).Success?
    ensures MapsOnto(Canonical, input.shape, Canonical, input.shape)
    ensures UnitsFinalised(NumpyToGridStda(input, lists, inputUnits, varName, extra, h).value,
              Arrange(Canonical, input.shape, input.values, Canonical, input.shape), inputUnits, varName, extra, h)
  {
    ArrangeIdentity(input.shape, input.values);
  }

  // ---------------------------------------------------------------------
  // gridstda_full_like / gridstda_full_like_by_levels
  // ---------------------------------------------------------------------

  /** `n` copies of `v`. */
  function Constant(n: nat, v: real): (r: seq<real>)
    ensures |r| == n && forall k :: 0 <= k < n ==> r[k] == v
  {
    if n == 0 then [] else Constant(n - 1, v) + [v]
  }

  /** gridstda_full_like: the dimensions and labels of `a`, every element
      `fill`, and a freshly built attribute bag. */
  function FullLike(a: Labelled, fill: real, varName: string, extra: Attrs, h: Helpers): (r: Stda)
    requires a.WellFormed()
    ensures r.data.WellFormed() && r.data.dims == a.dims && r.data.coords == a.coords
    ensures r.data.aux == a.aux && r.data.scalars == a.scalars
    ensures forall idx :: InShape(a.Shape(), idx) ==> r.data.At(idx) == fill
    ensures r.attrs == h.stdaAttrs(varName, extra)
    ensures Sound(h) && a.dims == Canonical && a.aux == {} ==> r.Valid()
  {
    Stda(a.(values := Constant(|a.values|, fill)), h.stdaAttrs(varName, extra))
  }

  /** The element at offset `k` of gridstda_full_like_by_levels once the
      first `n` levels are written: the level value on those levels, 0
      elsewhere. */
  function LevelFill(shape: seq<nat>, levels: seq<real>, n: nat, k: nat): real
    requires |shape| == 6 && n <= |levels| && k < Prod(shape)
  {
    var l := Unflat(shape, k)[1];
    if l < n then levels[l] else 0.0
  }

  /** Once every level is written, the element at a multi-index is its
      level's value, or 0 past the end of the list. */
  lemma LevelFillAt(shape: seq<nat>, levels: seq<real>, idx: seq<nat>)
    requires |shape| == 6 && InShape(shape, idx)
    ensures LevelFill(shape, levels, |levels|, Flat(shape, idx)) == if idx[1] < |levels| then levels[idx[1]] else 0.0
  {
    UnflatFlat(shape, idx);
  }

  /** values[:, i, :, :, :, :] = v: every element on level index `i` is set
      to `v`, and no other element changes. */
  method WriteLevel(buf: array<real>, shape: seq<nat>, levels: seq<real>, i: nat)
    modifies buf
    requires |shape| == 6 && buf.Length == Prod(shape) && i < |levels|
    requires forall k :: 0 <= k < buf.Length ==> buf[k] == LevelFill(shape, levels, i, k)
    ensures forall k :: 0 <= k < buf.Length ==> buf[k] == LevelFill(shape, levels, i + 1, k)
  {
    for k := 0 to buf.Length
      invariant forall k' :: 0 <= k' < k ==> buf[k'] == LevelFill(shape, levels, i + 1, k')
      invariant forall k' :: k <= k' < buf.Length ==> buf[k'] == LevelFill(shape, levels, i, k')
    {
      LevelFillNext(shape, levels, i, k);
      if Unflat(shape, k)[1] == i {
        buf[k] := levels[i];
      }
    }
  }

  /** Writing level `i` changes exactly the elements on that level. */
  lemma LevelFillNext(shape: seq<nat>, levels: seq<real>, i: nat, k: nat)
    requires |shape| == 6 && i < |levels| && k < Prod(shape)
    ensures LevelFill(shape, levels, i + 1, k) == if Unflat(shape, k)[1] == i then levels[i] else LevelFill(shape, levels, i, k)
  {
  }

  /** gridstda_full_like_by_levels: a zero-filled copy of `a`, then every
      element on level index i is set to levels[i], in order; a list longer
      than the level axis raises once it runs past the end. */
  method FullLikeByLevels(a: Labelled, levels: seq<real>, varName: string, extra: Attrs, h: Helpers) returns (r: Result<Stda>)
    requires a.WellFormed() && |a.dims| == 6
    ensures r.Success? <==> |levels| <= a.Shape()[1]
    ensures r.Failure? ==> r.error == IndexOutOfRange
    ensures r.Success? ==> r.value.data.WellFormed() && r.value.data.dims == a.dims && r.value.data.coords == a.coords
    ensures r.Success? ==> r.value.data.aux == a.aux && r.value.data.scalars == a.scalars
    ensures r.Success? ==> r.value.attrs == h.stdaAttrs(varName, extra)
    ensures r.Success? && Sound(h) && a.dims == Canonical && a.aux == {} ==> r.value.Valid()
    ensures r.Success? ==> forall idx :: InShape(a.Shape(), idx) ==>
              r.value.data.At(idx) == if idx[1] < |levels| then levels[idx[1]] else 0.0
  {
    var base := FullLike(a, 0.0, varName, extra, h);
    var shape := a.Shape();
    var buf := new real[|base.data.values|](k requires 0 <= k < |base.data.values| => base.data.values[k]);
    for i := 0 to |levels|
      invariant i <= shape[1]
      invariant forall k :: 0 <= k < buf.Length ==> buf[k] == LevelFill(shape, levels, i, k)
    {
      if i >= shape[1] {
        return Failure(IndexOutOfRange);
      }
      WriteLevel(buf, shape, levels, i);
    }
    var d := base.data.(values := buf[..]);
    assert d.Shape() == shape;
    forall idx | InShape(shape, idx) ensures d.At(idx) == if idx[1] < |levels| then levels[idx[1]] else 0.0 {
      LevelFillAt(shape, levels, idx);
    }
    r := Success(Stda(d, base.attrs));
  }
}
