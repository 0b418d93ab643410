/** The animated semicircle gauge (src/components/SemiCircleProgress.jsx).
    Numbers are reals. An animation frame's clock reading enters as `raw`,
    standing for `(now - start) / duration`. The intersection observer is
    modelled by its two events: its callback firing with `isIntersecting`,
    and the effect re-running when `clamped` changes, which attaches a new
    observer. */
module SemiCircleProgress {
  import opened Wrappers

  /** `Math.max(0, Math.min(100, value ?? 0))`. A missing value is `None`. */
  function Clamped(value: Option<real>): (c: real)
    ensures 0.0 <= c <= 100.0
    ensures value == None ==> c == 0.0
    ensures value.Some? && 0.0 <= value.value <= 100.0 ==> c == value.value
    ensures value.Some? && value.value > 100.0 ==> c == 100.0
    ensures value.Some? && value.value < 0.0 ==> c == 0.0
  {
    var v := value.GetOr(0.0);
    var low := if v < 100.0 then v else 100.0;
    if low > 0.0 then low else 0.0
  }

  /** JavaScript's `Math.round`: the nearest integer, halves rounding up. */
  function Round(x: real): (r: int)
    ensures r as real - 0.5 <= x < r as real + 0.5
  {
    (x + 0.5).Floor
  }

  /** Rounding never moves an integer and keeps [0, 100] inside [0, 100]. */
  lemma RoundRange(x: real)
    ensures 0.0 <= x <= 100.0 ==> 0 <= Round(x) <= 100
    ensures x == x.Floor as real ==> Round(x) == x.Floor
  {
  }

  /** Rounding is monotone. */
  lemma RoundMonotone(x: real, y: real)
    requires x <= y
    ensures Round(x) <= Round(y)
  {
  }

  /** `Math.min(1, raw)`: the same clamp of the clock ratio as
      `GlitchText.Progress`, kept per module as each component writes its
      own. */
  function Progress(raw: real): (t: real)
    ensures t <= 1.0
    ensures raw <= 1.0 ==> t == raw
    ensures raw >= 1.0 ==> t == 1.0
  {
    if raw < 1.0 then raw else 1.0
  }

  function Cube(u: real): real
  {
    u * u * u
  }

  /** The ease-out curve `1 - (1 - t)^3`. */
  function Eased(t: real): (e: real)
    ensures t == 0.0 ==> e == 0.0
    ensures t == 1.0 ==> e == 1.0
  {
    1.0 - Cube(1.0 - t)
  }

  lemma {:induction false} CubeMonotone(u: real, v: real)
    requires 0.0 <= u <= v
    ensures Cube(u) <= Cube(v)
  {
    assert u * u <= v * v by {
      assert u * u <= u * v;
      assert u * v <= v * v;
    }
    assert u * u * u <= v * v * u;
    assert v * v * u <= v * v * v;
  }

  lemma CubeUnit(u: real)
    requires 0.0 <= u <= 1.0
    ensures 0.0 <= Cube(u) <= 1.0
  {
    CubeMonotone(u, 1.0);
    assert 0.0 <= u * u;
  }

  /** On [0, 1] the curve stays in [0, 1] and never goes back. */
  lemma EasedUnit(t: real)
    requires 0.0 <= t <= 1.0
    ensures 0.0 <= Eased(t) <= 1.0
  {
    CubeUnit(1.0 - t);
  }

  lemma EasedMonotone(s: real, t: real)
    requires 0.0 <= s <= t <= 1.0
    ensures Eased(s) <= Eased(t)
  {
    CubeMonotone(1.0 - t, 1.0 - s);
  }

  /** The value `tick` shows for progress `t` towards `target`. */
  function Shown(t: real, target: real): (p: int)
    requires 0.0 <= target <= 100.0
    ensures 0.0 <= t <= 1.0 ==> 0 <= p <= 100
    ensures t == 1.0 ==> p == Round(target)
    ensures t == 0.0 ==> p == 0
  {
    ShownRange(t, target);
    Round(Eased(t) * target)
  }

  lemma ShownRange(t: real, target: real)
    requires 0.0 <= target <= 100.0
    ensures 0.0 <= t <= 1.0 ==> 0 <= Round(Eased(t) * target) <= 100
  {
    if 0.0 <= t <= 1.0 {
      EasedUnit(t);
      ScaleUnit(Eased(t), target);
      RoundRange(Eased(t) * target);
    }
  }

  lemma ScaleUnit(e: real, target: real)
    requires 0.0 <= target
    ensures 0.0 <= e <= 1.0 ==> 0.0 <= e * target <= target
  {
    if 0.0 <= e <= 1.0 {
      assert e * target <= 1.0 * target;
    }
  }

  lemma RoundScaledMonotone(a: real, b: real, c: real)
    requires a <= b && 0.0 <= c
    ensures Round(a * c) <= Round(b * c)
  {
    assert a * c <= b * c;
    RoundMonotone(a * c, b * c);
  }

  /** The count-up never goes down while the clock goes forward. */
  lemma {:induction false} ShownMonotone(s: real, t: real, target: real)
    requires 0.0 <= s <= t <= 1.0
    requires 0.0 <= target <= 100.0
    ensures Shown(s, target) <= Shown(t, target)
  {
    var es, et := Eased(s), Eased(t);
    EasedMonotone(s, t);
    RoundScaledMonotone(es, et, target);
    assert Shown(s, target) == Round(es * target);
    assert Shown(t, target) == Round(et * target);
  }

  /** `pct / 100`. */
  function Fraction(pct: int): (f: real)
    ensures 0 <= pct <= 100 ==> 0.0 <= f <= 1.0
    ensures pct == 0 ==> f == 0.0
    ensures pct == 100 ==> f == 1.0
  {
    pct as real / 100.0
  }

  /** `Math.PI * radius` with `radius = 60`, at double precision. */
  const Circumference: real := 188.49555921538757

  /** The arc's `strokeDashoffset` as the component means it,
      `circumference - (pct / 100) * circumference`: the full circumference
      at 0%, none of it at 100%. */
  function DashOffset(pct: int): (r: real)
    ensures 0 <= pct <= 100 ==> 0.0 <= r <= Circumference
    ensures pct == 0 ==> r == Circumference
    ensures pct == 100 ==> r == 0.0
  {
    Circumference - Fraction(pct) * Circumference
  }

  /** A larger percentage leaves less of the arc hidden. */
  lemma DashOffsetMonotone(p: int, q: int)
    requires p <= q
    ensures DashOffset(q) <= DashOffset(p)
  {
  }

  /** The `strokeDashoffset` attribute as written: a quoted JSX attribute,
      so the braces are literal text and nothing depends on `pct`. */
  function DashOffsetAsWritten(pct: int): (attr: string)
    ensures |attr| > 0 && attr[0] == '{'
  {
    "{circumference - dash}"
  }

  /** The gauge at 0% and at 100% gets the same attribute as written, while
      the intended offsets differ for any visible arc. */
  lemma DashOffsetAsWrittenIgnoresPct()
    ensures DashOffsetAsWritten(0) == DashOffsetAsWritten(100)
    ensures DashOffset(0) != DashOffset(100)
  {
  }

  class Gauge {
    /** The clamped prop of the latest render. */
    var clamped: real
    /** The `pct` state. */
    var pct: int
    /** The target captured by the running count-up. */
    var target: real
    /** The current observer is still connected. */
    var observing: bool
    /** A `tick` callback is scheduled. */
    var animating: bool
    /** Count-ups started by the current observer. */
    ghost var starts: nat

    ghost predicate Valid()
      reads this
    {
      0.0 <= clamped <= 100.0 && 0.0 <= target <= 100.0 && starts <= 1 &&
      (observing ==> starts == 0)
    }

    /** Mount: `pct` starts at 0 and an observer is attached. */
    constructor (value: Option<real>)
      ensures Valid()
      ensures clamped == Clamped(value) && pct == 0
      ensures observing && !animating && starts == 0
    {
      clamped := Clamped(value);
      pct := 0;
      target := 0.0;
      observing := true;
      animating := false;
      starts := 0;
    }

    /** A new `value` prop. The effect depends on `clamped` only: when the
        clamped value changes, the old observer is disconnected and a fresh
        one attached; when it does not, the effect does not re-run and the
        observer stays as it was. A running count-up keeps its own target. */
    method OnValue(value: Option<real>)
      requires Valid()
      modifies this
      ensures Valid()
      ensures clamped == Clamped(value)
      ensures Clamped(value) != old(clamped) ==> observing && starts == 0
      ensures Clamped(value) == old(clamped) ==> observing == old(observing) && starts == old(starts)
      ensures pct == old(pct) && target == old(target) && animating == old(animating)
    {
      var c := Clamped(value);
      if c != clamped {
        clamped := c;
        observing := true;
        starts := 0;
      }
    }

    /** The observer's callback. The first intersecting entry starts the
        count-up towards `clamped` and disconnects; a disconnected observer
        delivers nothing. */
    method Intersect(isIntersecting: bool)
      requires Valid()
      modifies this
      ensures Valid()
      ensures old(observing) && isIntersecting ==>
        !observing && animating && target == old(clamped) && starts == 1
      ensures !(old(observing) && isIntersecting) ==>
        observing == old(observing) && animating == old(animating) &&
        target == old(target) && starts == old(starts)
      ensures pct == old(pct) && clamped == old(clamped)
    {
      if observing && isIntersecting {
        target := clamped;
        animating := true;
        observing := false;
        starts := starts + 1;
      }
    }

    /** One `tick(now)`: `pct` follows the eased curve, and the loop stops
        once the duration has passed. */
    method Tick(raw: real)
      requires Valid() && animating
      modifies this
      ensures Valid()
      ensures pct == Shown(Progress(raw), target)
      ensures raw >= 0.0 ==> 0 <= pct <= 100
      ensures raw >= 1.0 ==> pct == Round(target) && !animating
      ensures raw < 1.0 ==> animating
      ensures clamped == old(clamped) && target == old(target)
      ensures observing == old(observing) && starts == old(starts)
    {
      var t := Progress(raw);
      pct := Shown(t, target);
      animating := t < 1.0;
    }

    /** The intended arc offset for the current `pct`. */
    function Offset(): (r: real)
      reads this
      ensures 0 <= pct <= 100 ==> 0.0 <= r <= Circumference
      ensures pct == 0 ==> r == Circumference
    {
      DashOffset(pct)
    }
  }

  /** However the callbacks interleave, one observer starts at most one
      count-up: a second intersection after the first changes nothing. */
  method IntersectTwice(g: Gauge, first: bool, second: bool)
    requires g.Valid() && g.observing
    modifies g
    ensures g.Valid() && g.starts <= 1
    ensures g.starts == (if first || second then 1 else 0)
  {
    g.Intersect(first);
    g.Intersect(second);
  }

  /** A count-up has started and the observer is gone; a new value with the
      same clamped value (say 200 after 150, both clamped to 100) does not
      re-run the effect, so a later intersection starts nothing. */
  method SameClampedNoRestart(g: Gauge, value: Option<real>, isIntersecting: bool)
    requires g.Valid() && !g.observing && Clamped(value) == g.clamped
    modifies g
    ensures g.Valid() && !g.observing && g.starts == old(g.starts)
    ensures g.target == old(g.target) && g.animating == old(g.animating)
  {
    g.OnValue(value);
    g.Intersect(isIntersecting);
  }
}
