/** Colormap from napari/utils/colormaps/colormap.py: validation of the control points,
    the colour lookup of the 'zero' (one colour per bin) interpolation mode, the
    display-name default and the iteration order. */
module Colormaps {
  import opened Wrappers

  datatype Interpolation = Linear | Zero

  /** An RGBA colour; `transform_color` (which produces them) is not part of this model. */
  type Color = seq<real>

  datatype Colormap = Colormap(
    colors: seq<Color>,
    name: string,
    displayName: string,
    interpolation: Interpolation,
    controls: seq<real>)

  datatype ControlsError =
    | BadEndpoints(first: real, last: real)     // "Control points must start with 0.0 and end with 1.0"
    | NotSorted                                 // "Control points need to be sorted in ascending order"
    | WrongCount(expected: nat, got: nat)       // "Wrong number of control points provided"

  /** One control point per colour, plus one more in zero mode (one colour per bin). */
  function ControlCount(ncolors: nat, interpolation: Interpolation): nat {
    ncolors + if interpolation == Zero then 1 else 0
  }

  predicate Sorted(v: seq<real>) {
    forall i, j :: 0 <= i < j < |v| ==> v[i] <= v[j]
  }

  /** `np.linspace(0, 1, n)`: point k is k times the step 1 / (n - 1); a single point is 0. */
  function Linspace(n: nat): (xs: seq<real>)
    ensures |xs| == n
  {
    if n == 1 then [0.0] else seq(n, k requires 0 <= k < n => k as real * (1.0 / (n - 1) as real))
  }

  lemma MulStep(i: nat, j: nat, step: real)
    requires i <= j && step > 0.0
    ensures i as real * step <= j as real * step
  {
    assert j as real * step - i as real * step == (j - i) as real * step;
  }

  /** Colormap._check_controls: missing or empty controls get the default; supplied ones
      are checked for end points, then order, then count, and returned unchanged. */
  function CheckControls(v: Option<seq<real>>, ncolors: nat, interpolation: Interpolation): (r: Result<seq<real>, ControlsError>)
    ensures r.Ok? ==> |r.value| == ControlCount(ncolors, interpolation)
    ensures v.Some? && |v.value| > 0 && r.Ok? ==> r.value == v.value
    ensures v.None? || |v.value| == 0 ==> r.Ok?
  {
    if v.None? || |v.value| == 0 then Ok(Linspace(ControlCount(ncolors, interpolation)))
    else
      var c := v.value;
      if !(c[0] == 0.0 && c[|c| - 1] == 1.0) then Err(BadEndpoints(c[0], c[|c| - 1]))
      else if !Sorted(c) then Err(NotSorted)
      else if |c| != ControlCount(ncolors, interpolation) then Err(WrongCount(ControlCount(ncolors, interpolation), |c|))
      else Ok(c)
  }

  /** Supplied controls are accepted exactly when they run from 0 to 1, are sorted and have
      the right count; the first failing check names the error. */
  lemma CheckControlsAccepts(c: seq<real>, ncolors: nat, interpolation: Interpolation)
    requires |c| > 0
    ensures CheckControls(Some(c), ncolors, interpolation).Ok? <==>
              c[0] == 0.0 && c[|c| - 1] == 1.0 && Sorted(c) && |c| == ControlCount(ncolors, interpolation)
    ensures !(c[0] == 0.0 && c[|c| - 1] == 1.0) ==>
              CheckControls(Some(c), ncolors, interpolation) == Err(BadEndpoints(c[0], c[|c| - 1]))
    ensures c[0] == 0.0 && c[|c| - 1] == 1.0 && !Sorted(c) ==>
              CheckControls(Some(c), ncolors, interpolation) == Err(NotSorted)
  {
  }

  /** A single control point can never pass: it would have to be both 0 and 1. */
  lemma SingleControlRejected(x: real, ncolors: nat, interpolation: Interpolation)
    ensures CheckControls(Some([x]), ncolors, interpolation).Err?
  {
  }

  /** The default controls start at 0, end at 1 and rise in equal steps of 1 / (n - 1). */
  lemma LinspaceSpec(n: nat)
    requires n >= 2
    ensures Linspace(n)[0] == 0.0 && Linspace(n)[n - 1] == 1.0
    ensures forall k :: 0 < k < n ==> Linspace(n)[k] - Linspace(n)[k - 1] == 1.0 / (n - 1) as real
    ensures Sorted(Linspace(n))
  {
    var xs, step := Linspace(n), 1.0 / (n - 1) as real;
    assert (n - 1) as real * step == 1.0;
    forall k | 0 < k < n ensures xs[k] - xs[k - 1] == step {
      assert xs[k] - xs[k - 1] == k as real * step - (k - 1) as real * step;
    }
    forall i, j | 0 <= i < j < n ensures xs[i] <= xs[j] {
      MulStep(i, j, step);
    }
  }

  /** Default controls pass their own validation when there are at least two of them, so
      validating the validated controls again changes nothing. */
  lemma CheckControlsIdempotent(v: Option<seq<real>>, ncolors: nat, interpolation: Interpolation)
    requires CheckControls(v, ncolors, interpolation).Ok?
    requires ControlCount(ncolors, interpolation) != 1
    ensures var c := CheckControls(v, ncolors, interpolation).value;
            CheckControls(Some(c), ncolors, interpolation) == Ok(c)
  {
    var n := ControlCount(ncolors, interpolation);
    if (v.None? || |v.value| == 0) && n >= 2 {
      LinspaceSpec(n);
    }
  }

  /** `np.searchsorted(controls, x)` (side 'left'): the first position whose control is not
      below x, or the length when every control is below x. numpy assumes sorted controls
      and this scan agrees with it only then; a colormap's controls are sorted once
      validated (CheckControlsAccepts), so the difference is never reached. */
  function SearchSortedLeft(cs: seq<real>, x: real): (i: nat)
    ensures i <= |cs|
  {
    if |cs| == 0 || !(cs[0] < x) then 0 else 1 + SearchSortedLeft(cs[1..], x)
  }

  /** On sorted controls the insertion point splits them: everything before it is below x,
      everything from it on is at least x. */
  lemma {:induction false} SearchSortedLeftSpec(cs: seq<real>, x: real)
    requires Sorted(cs)
    ensures var i := SearchSortedLeft(cs, x);
            && (forall j :: 0 <= j < i ==> cs[j] < x)
            && (forall j :: i <= j < |cs| ==> x <= cs[j])
  {
    if |cs| > 0 && cs[0] < x {
      var rest := cs[1..];
      assert Sorted(rest) by {
        forall i, j | 0 <= i < j < |rest| ensures rest[i] <= rest[j] {
          assert rest[i] == cs[i + 1] && rest[j] == cs[j + 1];
        }
      }
      SearchSortedLeftSpec(rest, x);
      var k := SearchSortedLeft(rest, x);
      forall j | 0 <= j < k + 1 ensures cs[j] < x {
        if j > 0 { assert cs[j] == rest[j - 1]; }
      }
      forall j | k + 1 <= j < |cs| ensures x <= cs[j] {
        assert cs[j] == rest[j - 1];
      }
    }
  }

  /** The insertion point is determined by that split: any position that splits sorted
      controls around x is the one searchsorted returns. */
  lemma SearchSortedLeftUnique(cs: seq<real>, x: real, i: nat)
    requires Sorted(cs) && i <= |cs|
    requires forall j :: 0 <= j < i ==> cs[j] < x
    requires forall j :: i <= j < |cs| ==> x <= cs[j]
    ensures SearchSortedLeft(cs, x) == i
  {
    SearchSortedLeftSpec(cs, x);
    var s := SearchSortedLeft(cs, x);
    assert i < |cs| ==> !(cs[i] < x);
    assert s < |cs| ==> !(cs[s] < x);
  }

  /** `np.clip(a, lo, hi)`. */
  function Clip(a: int, lo: int, hi: int): (r: int)
    requires lo <= hi
    ensures lo <= r <= hi
    ensures lo <= a <= hi ==> r == a
    ensures a < lo ==> r == lo
    ensures a > hi ==> r == hi
  {
    if a < lo then lo else if a > hi then hi else a
  }

  /** The values passed to `map`, after `np.atleast_1d`: a scalar becomes one value. */
  datatype Values = Scalar(x: real) | Array(xs: seq<real>)

  function AtLeast1D(values: Values): (xs: seq<real>)
    ensures values.Scalar? ==> xs == [values.x]
    ensures values.Array? ==> xs == values.xs
  {
    match values
    case Scalar(x) => [x]
    case Array(xs) => xs
  }

  datatype MapError = IndexOutOfBounds(index: int, ncolors: nat)

  /** The zero-mode colour index as written at line 124-126: the clip ceiling is the number
      of colours, one past the last colour. */
  function ZeroIndexAsWritten(cm: Colormap, x: real): int {
    Clip(SearchSortedLeft(cm.controls, x) - 1, 0, |cm.colors|)
  }

  /** The zero branch of Colormap.map as written: `colors[indices]` fails as soon as one
      index is past the last colour. */
  function MapZeroAsWritten(cm: Colormap, values: Values): (r: Result<seq<Color>, MapError>)
    requires cm.interpolation == Zero
    ensures r.Ok? ==> |r.value| == |AtLeast1D(values)|
    ensures r.Err? <==> exists x :: x in AtLeast1D(values) && ZeroIndexAsWritten(cm, x) >= |cm.colors|
  {
    var xs := AtLeast1D(values);
    if exists x :: x in xs && ZeroIndexAsWritten(cm, x) >= |cm.colors| then
      var x :| x in xs && ZeroIndexAsWritten(cm, x) >= |cm.colors|;
      Err(IndexOutOfBounds(ZeroIndexAsWritten(cm, x), |cm.colors|))
    else
      Ok(seq(|xs|, i requires 0 <= i < |xs| => cm.colors[ZeroIndexAsWritten(cm, xs[i])]))
  }

  /** A colormap whose controls passed validation for its colours and mode. */
  predicate Valid(cm: Colormap) {
    CheckControls(Some(cm.controls), |cm.colors|, cm.interpolation) == Ok(cm.controls)
  }

  /** With valid zero-mode controls and at least one colour, a value above 1 indexes one
      past the last colour, so the lookup as written fails on it. */
  lemma MapZeroAsWrittenFailsAboveOne(cm: Colormap, x: real)
    requires Valid(cm) && cm.interpolation == Zero && |cm.colors| > 0 && x > 1.0
    ensures ZeroIndexAsWritten(cm, x) == |cm.colors|
    ensures MapZeroAsWritten(cm, Scalar(x)).Err?
  {
    var cs := cm.controls;
    CheckControlsAccepts(cs, |cm.colors|, Zero);
    forall j | 0 <= j < |cs| ensures cs[j] < x {
      assert cs[j] <= cs[|cs| - 1];
    }
    SearchSortedLeftUnique(cs, x, |cs|);
    assert x in AtLeast1D(Scalar(x));
  }

  /** The concrete case: two colours, controls [0, 0.5, 1], the value 1.5. */
  lemma MapZeroAsWrittenCounterexample(a: Color, b: Color)
    ensures var cm := Colormap([a, b], "custom", "custom", Zero, [0.0, 0.5, 1.0]);
            MapZeroAsWritten(cm, Scalar(1.5)) == Err(IndexOutOfBounds(2, 2))
  {
    var cm := Colormap([a, b], "custom", "custom", Zero, [0.0, 0.5, 1.0]);
    assert SearchSortedLeft(cm.controls, 1.5) == 3;
    assert ZeroIndexAsWritten(cm, 1.5) == 2;
    assert forall x :: x in [1.5] ==> x == 1.5;
  }

  /** The zero-mode colour index with the ceiling at the last colour. */
  function ZeroIndex(cm: Colormap, x: real): (k: nat)
    requires |cm.colors| > 0
    ensures k < |cm.colors|
  {
    Clip(SearchSortedLeft(cm.controls, x) - 1, 0, |cm.colors| - 1)
  }

  /** The zero branch of Colormap.map: one colour per value, that of the value's bin. */
  function MapZero(cm: Colormap, values: Values): (r: seq<Color>)
    requires cm.interpolation == Zero && |cm.colors| > 0
    ensures |r| == |AtLeast1D(values)|
    ensures forall i :: 0 <= i < |r| ==> r[i] == cm.colors[ZeroIndex(cm, AtLeast1D(values)[i])]
  {
    var xs := AtLeast1D(values);
    seq(|xs|, i requires 0 <= i < |xs| => cm.colors[ZeroIndex(cm, xs[i])])
  }

  /** The bins of zero mode: a value at or below the first control takes colour 0, a value
      in (c_k, c_{k+1}] takes colour k, and a value above the last control the last colour. */
  lemma ZeroIndexBins(cm: Colormap, x: real, k: nat)
    requires Valid(cm) && cm.interpolation == Zero && |cm.colors| > 0
    ensures x <= cm.controls[0] ==> ZeroIndex(cm, x) == 0
    ensures k < |cm.colors| && cm.controls[k] < x <= cm.controls[k + 1] ==> ZeroIndex(cm, x) == k
    ensures x > 1.0 ==> ZeroIndex(cm, x) == |cm.colors| - 1
  {
    var cs := cm.controls;
    CheckControlsAccepts(cs, |cm.colors|, Zero);
    if x <= cs[0] {
      SearchSortedLeftUnique(cs, x, 0);
    }
    if k < |cm.colors| && cs[k] < x <= cs[k + 1] {
      forall j | 0 <= j < k + 1 ensures cs[j] < x {
        assert cs[j] <= cs[k];
      }
      forall j | k + 1 <= j < |cs| ensures x <= cs[j] {
        assert cs[k + 1] <= cs[j];
      }
      SearchSortedLeftUnique(cs, x, k + 1);
    }
    if x > 1.0 {
      forall j | 0 <= j < |cs| ensures cs[j] < x {
        assert cs[j] <= cs[|cs| - 1];
      }
      SearchSortedLeftUnique(cs, x, |cs|);
    }
  }

  /** The two lookups agree on every value up to 1, so the corrected ceiling only changes
      what happens above the last control. */
  lemma ZeroIndexAgreesUpToOne(cm: Colormap, x: real)
    requires Valid(cm) && cm.interpolation == Zero && |cm.colors| > 0 && x <= 1.0
    ensures ZeroIndexAsWritten(cm, x) == ZeroIndex(cm, x) < |cm.colors|
  {
    var cs := cm.controls;
    CheckControlsAccepts(cs, |cm.colors|, Zero);
    SearchSortedLeftSpec(cs, x);
    assert x <= cs[|cs| - 1];
  }

  /** On values in [0, 1] the lookup as written succeeds and gives the corrected colours. */
  lemma MapZeroAgreesOnUnitRange(cm: Colormap, values: Values)
    requires Valid(cm) && cm.interpolation == Zero && |cm.colors| > 0
    requires forall x :: x in AtLeast1D(values) ==> x <= 1.0
    ensures MapZeroAsWritten(cm, values) == Ok(MapZero(cm, values))
  {
    var xs := AtLeast1D(values);
    forall x | x in xs ensures ZeroIndexAsWritten(cm, x) == ZeroIndex(cm, x) < |cm.colors| {
      ZeroIndexAgreesUpToOne(cm, x);
    }
    assert MapZeroAsWritten(cm, values).Ok?;
    forall i | 0 <= i < |xs| ensures MapZeroAsWritten(cm, values).value[i] == MapZero(cm, values)[i] {
      assert xs[i] in xs;
    }
    assert MapZeroAsWritten(cm, values).value == MapZero(cm, values);
  }

  /** Colormap.__init__: the name defaults to 'custom', the display name to the name; the
      controls are validated against the colours and the mode. */
  function NewColormap(colors: seq<Color>, displayName: Option<string>, name: Option<string>,
                       interpolation: Interpolation, controls: Option<seq<real>>): (r: Result<Colormap, ControlsError>)
    ensures r.Ok? ==> Valid(r.value) || ControlCount(|colors|, interpolation) == 1
    ensures r.Ok? ==> r.value.colors == colors && r.value.interpolation == interpolation
    ensures r.Ok? ==> r.value.name == name.GetOr("custom")
    ensures r.Ok? ==> r.value.displayName == displayName.GetOr(name.GetOr("custom"))
    ensures r.Err? <==> CheckControls(controls, |colors|, interpolation).Err?
  {
    match CheckControls(controls, |colors|, interpolation)
    case Err(e) => Err(e)
    case Ok(c) =>
      CheckControlsIdempotentOnCount(controls, |colors|, interpolation);
      Ok(Colormap(colors, name.GetOr("custom"), displayName.GetOr(name.GetOr("custom")), interpolation, c))
  }

  lemma CheckControlsIdempotentOnCount(v: Option<seq<real>>, ncolors: nat, interpolation: Interpolation)
    requires CheckControls(v, ncolors, interpolation).Ok?
    ensures ControlCount(ncolors, interpolation) != 1 ==>
              var c := CheckControls(v, ncolors, interpolation).value;
              CheckControls(Some(c), ncolors, interpolation) == Ok(c)
  {
    if ControlCount(ncolors, interpolation) != 1 {
      CheckControlsIdempotent(v, ncolors, interpolation);
    }
  }

  /** Colormap.__iter__: colours, controls and interpolation, in that order. */
  function Iter(cm: Colormap): (t: (seq<Color>, seq<real>, Interpolation)) {
    (cm.colors, cm.controls, cm.interpolation)
  }

  /** Building a colormap again from what iteration yields reproduces it (with the display
      name falling back to the name), whenever the controls are ones validation accepts. */
  lemma IterRoundTrip(cm: Colormap)
    requires Valid(cm)
    ensures var (colors, controls, interpolation) := Iter(cm);
            NewColormap(colors, None, Some(cm.name), interpolation, Some(controls)) ==
              Ok(cm.(displayName := cm.name))
  {
    if |cm.controls| > 0 {
      CheckControlsAccepts(cm.controls, |cm.colors|, cm.interpolation);
    }
  }
}
