# STDA canonical gridded tensors, modelled in Dafny

This project models the STDA layer of metdig (`metdig/utl/utl_stda_grid.py`).
That layer turns raw gridded arrays into one fixed tensor form. The tensor
has six named axes, always in the order (member, level, time, dtime, lat, lon).
Each axis has one coordinate list. The attribute bag's "var_units" holds the
unit the values are actually in.

The model covers:

- the three converters: `xrda_to_gridstda`, `npda_to_gridstda` and `numpy_to_gridstda`;
- the two constructors: `gridstda_full_like` and `gridstda_full_like_by_levels`;
- the accessor members `fcst_time`, `get_dim_value` and `get_value`;
- the branch choice of `description` and `description_point`.

Files:

- `stda_result.dfy` (module `StdaResult`): the `Result` type and the error
  conditions the layer and the array library raise.
- `ndarray.dfy` (module `NdArray`): a labelled N-dimensional array. It has
  dimension names, one coordinate list per dimension, the elements flat in
  row-major order, and the names of non-dimension coordinates, marking the
  scalar (0-d) ones, such as the level left by `sel(level=500)`. It also holds
  the effect of each array-library call the layer makes, each with its
  failure conditions: rename, expand_dims, assign_coords, transpose and squeeze.
- `stda_grid.dfy` (module `StdaGrid`): the canonical tensor `Stda`, the two
  collaborators, the reference arrangement `Arrange`, the converters and the
  constructors.
- `stda_accessor.dfy` (module `StdaAccessor`): the accessor.

Modelling choices:

- Elements are `real`s.
- Coordinate labels are `Num(int)`, `Text(string)` or `Null`, where `Null` is
  Python's `None`.
- Times and lead times are whole hours.
- Two collaborators are not part of this model: `get_stda_attrs`, which builds
  the attribute bag, and `numpy_units_to_stda`, which converts units. Both are
  function-valued parameters (`Helpers`). The model assumes only what the
  calling code relies on (`Sound`): the built bag holds "var_units", and the
  converter returns one value per element.

Each converter is proved against the reference definition `Arrange`:
`XrdaArranged` and `NpdaArranged` for the two that rename and transpose, and
`NumpyArranged` for numpy_to_gridstda, which takes its buffer as already
canonical, so its arrangement is the identity (`ArrangeIdentity`).
`Arrange` says which raw element lands at each canonical multi-index. Renaming,
broadcasting a missing axis and transposing change only where an element
sits, not what it is. `TransposeArranges` states exactly that.

In these places the model follows the code as written:

- The docstring of `xrda_to_gridstda` (metdig/utl/utl_stda_grid.py:24) says a
  missing axis defaults to 0 unless its data is given. In the code, the axis is
  first broadcast with length 1, and an override for it must then have length
  1: assign_coords raises on any other length, so the override gives the axis
  its label but not its length.
- In `gridstda_full_like_by_levels` (metdig/utl/utl_stda_grid.py:305-306), the
  loop writes one level slice per entry of `levels`. A shorter list leaves the
  remaining level slices at 0. A longer list raises at the first index past
  the end. Lists of the wrong length are not refused up front.
- The docstring of `get_value` (metdig/utl/utl_stda_grid.py:430) says it raises
  when the data is not 2-D. The code has no separate dimensionality check: it
  raises what transpose raises when the squeezed tensor is not exactly the
  (ydim, xdim) pair.

## Model

| member | source | states |
|---|---|---|
| NdArray.Rename | metdig/utl/utl_stda_grid.py:73-96 | rename succeeds exactly when the old name is a dimension and the new one is that name or unused by any dimension or coordinate; labels, elements and other coordinates are unchanged and the result is well formed |
| NdArray.ExpandDims | metdig/utl/utl_stda_grid.py:177-181 | expand_dims succeeds exactly when the name is not a dimension and not a coordinate with dimensions of its own; a scalar coordinate of that name is replaced by the new axis; the new axis comes first, with the given labels and their count as its length, in front of the old dimensions and labels |
| NdArray.ExpandDimsAt | metdig/utl/utl_stda_grid.py:177-181 | the expanded array at (i, idx) is the old array at idx, for every label index i |
| NdArray.AssignCoords | metdig/utl/utl_stda_grid.py:99-110 | assign_coords succeeds exactly when the name is a dimension and the new labels have its length; only that dimension's labels change |
| NdArray.Transpose | metdig/utl/utl_stda_grid.py:113 | transpose succeeds exactly when the order is a permutation of the dimensions; dimensions, labels and shape follow the order |
| NdArray.TransposeAt | metdig/utl/utl_stda_grid.py:184 | the transposed element at an index is the original element at the same index per dimension name |
| NdArray.Squeeze | metdig/utl/utl_stda_grid.py:443 | squeeze keeps exactly the dimensions whose length is not 1, in order, with their labels and the same elements; each removed dimension stays as a scalar coordinate |
| NdArray.SqueezeAt | metdig/utl/utl_stda_grid.py:443 | the squeezed element at an index is the original element at that index with 0 put back on every removed axis |
| StdaGrid.ArrangeAt | metdig/utl/utl_stda_grid.py:113 | the canonical arrangement at a canonical multi-index holds the raw element at the raw multi-index that each mapped dimension reads off |
| StdaGrid.ArrangeIdentity | metdig/utl/utl_stda_grid.py:184 | input already in canonical names and order is left exactly as it is |
| StdaGrid.TransposeArranges | metdig/utl/utl_stda_grid.py:184 | transposing a broadcast-extended array whose raw axes sit under their canonical names gives exactly the reference arrangement of the raw elements |
| StdaGrid.Range | metdig/utl/utl_stda_grid.py:173 | the default labels of an axis of length n are 0, 1, ..., n - 1 |
| StdaGrid.Wrap | metdig/utl/utl_stda_grid.py:174 | wrapping a buffer with names and labels succeeds exactly when the names are distinct and each label list has its axis's length |
| StdaGrid.NpdaWrapSucceeds | metdig/utl/utl_stda_grid.py:173-174 | wrapping with the npda labels succeeds exactly when the names are distinct and every supplied list has its axis's length |
| StdaGrid.BroadcastMissing | metdig/utl/utl_stda_grid.py:177-181 | after the loop, every canonical name missing from dims is a leading axis labelled by the caller's list or [0], and the buffer's elements are unchanged behind them |
| StdaGrid.BroadcastComplete | metdig/utl/utl_stda_grid.py:173-184 | after broadcasting, the dimensions are a permutation of the six canonical names and each axis carries its given list, 0..n-1 or [0] |
| StdaGrid.NpdaArranged | metdig/utl/utl_stda_grid.py:173-184 | the array built from the buffer has the canonical dimensions in canonical order, the npda labels per axis, and elements equal to the reference arrangement |
| StdaGrid.NpdaToGridStda | metdig/utl/utl_stda_grid.py:164-193 | raises ShapeMismatch when the rank differs from len(dims) and InvalidDimensionName naming a non-canonical entry; succeeds exactly when the names are canonical and distinct and the supplied lists fit; the result is a valid STDA tensor with the npda labels, the converter's output of the arranged elements, and the converter's unit as var_units |
| StdaGrid.NpdaBuild | metdig/utl/utl_stda_grid.py:173-193 | once the rank and the names are checked, wrapping and broadcasting succeed exactly when the names are distinct and the supplied lists fit, and a success is the valid tensor with the npda labels and the converted arrangement |
| StdaGrid.Finalise | metdig/utl/utl_stda_grid.py:119-123 | dimensions, labels and shape are kept and a well-formed array stays well formed; the elements are the converter's output and "var_units" is the unit the converter reports, overriding the built bag |
| StdaGrid.WellPosedRename | metdig/utl/utl_stda_grid.py:73-94 | for well-posed names, renaming a mapped input dimension to its canonical name succeeds and keeps every raw axis under its mapped name |
| StdaGrid.WellPosedExpand | metdig/utl/utl_stda_grid.py:76-96 | for well-posed names, synthesising an unmapped canonical axis with label [0] succeeds |
| StdaGrid.RenameOrBroadcast | metdig/utl/utl_stda_grid.py:73-96 | the first phase only renames or puts length-1 axes labelled [0] in front, leaving the elements unchanged; for well-posed names it succeeds and places every raw axis under its canonical name |
| StdaGrid.PlacedFinal | metdig/utl/utl_stda_grid.py:73-96 | once all six canonical names are present, each raw dimension sits under the canonical axis it is mapped to, and each axis carries the raw labels or [0] |
| StdaGrid.WellPosedComplete | metdig/utl/utl_stda_grid.py:73-96 | for well-posed names the first phase leaves exactly the six canonical dimensions |
| StdaGrid.AssignOverrides | metdig/utl/utl_stda_grid.py:99-110 | a None or [None] override is ignored; the others replace that axis's labels, succeeding exactly when every such axis exists with the override's length; elements and dimensions are unchanged |
| StdaGrid.XrdaLabelsAt | metdig/utl/utl_stda_grid.py:99-110 | after both phases a canonical axis carries its override, or else the labels of the raw dimension mapped to it, or [0] |
| StdaGrid.WellPosedFits | metdig/utl/utl_stda_grid.py:99-110 | for a well-posed call every override fits the axis it relabels |
| StdaGrid.XrdaFinal | metdig/utl/utl_stda_grid.py:113-116 | transposition to canonical order and dropping the non-dimension coordinates give the canonical dimensions, the final labels and the reference arrangement |
| StdaGrid.XrdaArranged | metdig/utl/utl_stda_grid.py:70-116 | a well-posed call succeeds; a successful one has exactly the canonical dimensions in order, no other coordinates, the override-or-raw labels per axis, and the elements of the reference arrangement |
| StdaGrid.XrdaToGridStda | metdig/utl/utl_stda_grid.py:21-125 | a well-posed call succeeds; the result is a valid STDA tensor with the final labels, the converter's output of the arranged elements, and the converter's unit as var_units |
| StdaGrid.SelectedLevelWellPosed | metdig/utl/utl_stda_grid.py:76-81 | a (lat, lon) field that keeps "level" as a scalar coordinate is well posed with the default names and no overrides, so the converter broadcasts a level axis over it and succeeds |
| StdaGrid.NoneLike | metdig/utl/utl_stda_grid.py:63-68 | an override counts as absent exactly when it is None or a one-element list holding None |
| StdaGrid.NumpyToGridStda | metdig/utl/utl_stda_grid.py:196-260 | succeeds exactly when the buffer has six axes of the lists' lengths, raising ShapeMismatch for another rank; the result has the lists as labels, the converted elements and the converter's unit |
| StdaGrid.NumpyArranged | metdig/utl/utl_stda_grid.py:251-257 | the elements numpy_to_gridstda wraps are the converter's output of the reference arrangement of the buffer under the canonical names |
| StdaGrid.FullLike | metdig/utl/utl_stda_grid.py:263-282 | same dimensions and labels as the template, every element the fill value, and the freshly built bag; valid when the template is canonical |
| StdaGrid.LevelFillAt | metdig/utl/utl_stda_grid.py:305-306 | once all levels are written, an element holds its level's value, or 0 past the end of the list |
| StdaGrid.WriteLevel | metdig/utl/utl_stda_grid.py:306 | writing level i sets exactly the elements whose level index is i and leaves every other element as it was |
| StdaGrid.FullLikeByLevels | metdig/utl/utl_stda_grid.py:285-307 | succeeds exactly when levels is no longer than the level axis, raising IndexOutOfRange otherwise; each element is levels[i] on level slice i and 0 on the rest; labels, dimensions and other coordinates are those of the template, and a canonical template gives a valid STDA tensor |
| StdaAccessor.FcstTimes | metdig/utl/utl_stda_grid.py:326-337 | the forecast-time axis exists exactly when every label the loop reads is a whole number of hours, and has length len(time) * len(dtime) |
| StdaAccessor.FcstTimesAt | metdig/utl/utl_stda_grid.py:331-336 | entry i * len(dtime) + j is time i plus lead time j: time is the outer loop, dtime the inner one |
| StdaAccessor.FcstPrefixStep | metdig/utl/utl_stda_grid.py:334-335 | appending time i + dtime j at position i * len(dtime) + j extends a correct prefix of the forecast-time axis |
| StdaAccessor.FcstTime | metdig/utl/utl_stda_grid.py:326-337 | the nested append loops produce exactly the reference forecast-time axis, and fail exactly when it does |
| StdaAccessor.GetDimValue | metdig/utl/utl_stda_grid.py:417-426 | "fcst_time" gives the forecast-time axis entry by entry, "time" the time labels when all are hours, another canonical name that axis's labels, and any other name raises NotFound |
| StdaAccessor.ResolveFcst | metdig/utl/utl_stda_grid.py:433-442 | "fcst_time" stands for dtime exactly when the time axis has one label and otherwise for time; other names stand for themselves |
| StdaAccessor.KeptPairIf | metdig/utl/utl_stda_grid.py:443 | when y and x are exactly the axes of length other than 1, squeezing leaves a pair that (y, x) permutes |
| StdaAccessor.KeptPairOnlyIf | metdig/utl/utl_stda_grid.py:443 | when (y, x) permutes what squeezing leaves, y and x are distinct and exactly the axes of length other than 1 |
| StdaAccessor.SqueezedPair | metdig/utl/utl_stda_grid.py:443 | transposing the squeezed tensor to (y, x) succeeds exactly when y and x are two different canonical axes and the only ones whose length is not 1 |
| StdaAccessor.SqueezedAxis | metdig/utl/utl_stda_grid.py:443 | an axis whose length is not 1 survives squeezing with its length |
| StdaAccessor.InflateGather | metdig/utl/utl_stda_grid.py:443 | index (i, j) of the result stands for the tensor index with i on axis y, j on axis x and 0 elsewhere |
| StdaAccessor.PairShape | metdig/utl/utl_stda_grid.py:443 | transposing to a pair gives the lengths of those two axes as the shape |
| StdaAccessor.GetValueAt | metdig/utl/utl_stda_grid.py:443 | element (i, j) of the squeezed, transposed tensor is the tensor's element with i on axis y, j on axis x and 0 elsewhere |
| StdaAccessor.MatrixField | metdig/utl/utl_stda_grid.py:443 | when y and x are the two axes left, the rows of the squeezed tensor transposed to (y, x) run along y, each row along x, and hold the tensor's elements at i on y, j on x, 0 elsewhere |
| StdaAccessor.GetValue | metdig/utl/utl_stda_grid.py:428-446 | succeeds exactly when the resolved y and x are the two distinct axes left by squeezing; the rows run along y and the columns along x, and element (i, j) is the tensor's element at i on y, j on x, 0 elsewhere |
| StdaAccessor.FieldsTransposed | metdig/utl/utl_stda_grid.py:428-446 | the (y, x) field and the (x, y) field of the same tensor are transposes of each other |
| StdaAccessor.GetValueTransposed | metdig/utl/utl_stda_grid.py:428-446 | get_value(x, y) succeeds exactly when get_value(y, x) does, and is its transpose |
| StdaAccessor.Describe | metdig/utl/utl_stda_grid.py:374-390 | reads the first time, lead time and forecast time, raising on non-hour times or an empty axis; it is a forecast exactly when the first lead time is not 0, with forecast time = initial time + lead time |
| StdaAccessor.DescribePoint | metdig/utl/utl_stda_grid.py:392-415 | reads the first time, lead time, lon, lat and member, raising on non-hour times, an empty axis or a member that is not text; it is a forecast exactly when the first lead time label is not 0 |

## Left out

- Unit conversion and attribute building are not part of this model. They are
  parameters constrained only by what the calling code relies on. Physical
  units, the variable registry and the precedence of extra attributes are left
  out for the same reason.
- Element types (`dtype`) and floating point: elements are exact reals.
- Deep copies (`xrda.copy(deep=True)`, `full_like`): values in Dafny are
  immutable, so sharing does not arise.
- pandas and datetime handling: times and lead times are whole hours.
  Timezone stripping, datetime parsing and calendar arithmetic are left out.
  Converting a label that is not a number of hours raises `InvalidTime`.
- The `level`, `time`, `dtime`, `lat`, `lon` and `member` properties only wrap
  an axis's labels in a pandas Series. They are `Stda.Coords`, and
  `GetDimValue` for the name.
- The text of `description` and `description_point` is left out, along with
  the `describe` argument and `upper()` on the member name. Only which kind of
  text is produced, and from which labels, is modelled.
- The `xunits` option of `get_value` multiplies by a physical unit, which is
  not modelled.
- npda_to_gridstda iterates the missing names in a set's hash order. The model
  iterates them in canonical order. The final transposition makes the result
  the same for every order, because `NpdaArranged` states the result through
  `Arrange`, which does not depend on it.
- Which error the array library reports when several apply, and the library's
  own error types. The model uses the `Error` kinds of `StdaResult`.
- XrdaToGridStda: success is stated for well-posed calls only
  (`WellPosed`), not as an if-and-only-if. For a call outside it, for
  example two canonical axes mapped to one raw name, the contract does not
  say whether it succeeds. Every successful call satisfies the full
  contract, and failures are not given a specific error kind. `WellPosed`
  allows a canonical name held by a scalar coordinate, which expand_dims
  replaces. It excludes one held by a coordinate with dimensions of its
  own, which the array library refuses to overwrite.
- XrdaArranged: the same one-directional success condition as
  `XrdaToGridStda`.
- RenameOrBroadcast: success is stated for well-posed names only, as above.
- Describe: the error kind is given for non-hour times and for empty time or
  dtime axes. For a non-hour lead time only failure is stated, without its
  kind.
- When expand_dims replaces a scalar coordinate, the new axis is labelled
  with the given `[0]`. Some older releases of the array library may keep
  the scalar's own value as the label instead; that behaviour is not modelled.
