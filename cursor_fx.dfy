/** The cursor glow (src/components/CursorFX.jsx): the mouse target kept
    inside the window margins, a bounded FIFO buffer of spark particles, the
    hue that cycles through a palette when the mouse enters an interactive
    element, and the per-frame loop that ages and removes particles.
    Positions and velocities are `real`; a particle's `life`, which starts at
    1 and loses 0.016 per frame, is kept in thousandths (1000, minus 16). */
module CursorFX {
  import opened Wrappers
  import Seqs

  const Margin: real := 80.0
  const SpawnCount: nat := 6
  const FullLife: int := 1000
  const LifeStep: int := 16
  const Palette: seq<int> := [265, 190, 340, 45, 140, 210]
  const InitialHue: int := 265

  /** `clamp(v, a, b) = Math.max(a, Math.min(b, v))`. */
  function Clamp(v: real, a: real, b: real): (r: real)
    ensures r >= a
    ensures a <= b ==> a <= r <= b
    ensures a <= v <= b ==> r == v
    ensures b < a ==> r == a
  {
    var m := if b < v then b else v;
    if a > m then a else m
  }

  datatype Particle = Particle(x: real, y: real, vx: real, vy: real, life: int, size: real, hue: real)

  /** The `Math.random()` draws that place one new particle: its offset
      from the mouse, velocity, size and hue offset. */
  datatype Jitter = Jitter(dx: real, dy: real, vx: real, vy: real, size: real, dhue: real)

  function Spark(px: real, py: real, h: real, j: Jitter): Particle {
    Particle(px + j.dx, py + j.dy, j.vx, j.vy, FullLife, j.size, h + j.dhue)
  }

  /** The last `n` items of `s` (all of them when there are fewer). */
  function LastN<T>(s: seq<T>, n: nat): (r: seq<T>)
    ensures |r| == if |s| <= n then |s| else n
    ensures r == s[|s| - |r|..]
  {
    if |s| <= n then s else s[|s| - n..]
  }

  /** One `if (full) shift(); push(x)` step on a buffer within its cap keeps
      exactly the newest `n` items. */
  lemma LastNPush<T>(s: seq<T>, x: T, n: nat)
    requires n > 0
    ensures (if |LastN(s, n)| >= n then LastN(s, n)[1..] else LastN(s, n)) + [x] == LastN(s + [x], n)
  {
    var b := LastN(s, n);
    if |s| >= n {
      assert b[1..] + [x] == (s + [x])[|s| + 1 - n..];
    }
  }

  /** A spawn on a buffer holding at most `n >= 6` particles leaves
      `min(|old| + 6, n)` of them: the six new ones last, after the newest
      of the old ones, in their original order. */
  lemma SpawnShape<T>(ps: seq<T>, news: seq<T>, n: nat)
    requires |ps| <= n && |news| == SpawnCount <= n
    ensures |LastN(ps + news, n)| == if |ps| + SpawnCount <= n then |ps| + SpawnCount else n
    ensures LastN(ps + news, n) == LastN(ps, n - SpawnCount) + news
  {
    var r := LastN(ps + news, n);
    var k := |r| - SpawnCount;
    assert r == (ps + news)[|ps| + SpawnCount - |r|..];
    assert r[k..] == news;
    assert r[..k] == ps[|ps| - k..];
    assert r == r[..k] + r[k..];
  }

  /** `palette.findIndex(p => Math.abs(p - hue) < 1)`; hues are integers
      here, so the test is equality. */
  function FindIndex(s: seq<int>, hue: int): (i: int)
    ensures -1 <= i < |s|
    ensures i >= 0 ==> s[i] == hue && forall k :: 0 <= k < i ==> s[k] != hue
    ensures i == -1 ==> forall k :: 0 <= k < |s| ==> s[k] != hue
  {
    if s == [] then -1
    else if -1 < s[0] - hue < 1 then 0
    else
      var k := FindIndex(s[1..], hue);
      if k == -1 then -1 else k + 1
  }

  /** In a sequence without repeats, the search finds each entry at its
      own index. */
  lemma FindIndexDistinct(s: seq<int>, i: nat)
    requires i < |s|
    requires forall a, b :: 0 <= a < b < |s| ==> s[a] != s[b]
    ensures FindIndex(s, s[i]) == i
  {
  }

  /** The palette fallback: `palette[(i + 1 + palette.length) % palette.length]`. */
  function NextHue(hue: int): int {
    var i := FindIndex(Palette, hue);
    Palette[(i + 1 + |Palette|) % |Palette|]
  }

  /** The index after `j` in the palette, wrapping around. */
  function Succ(j: nat): nat {
    if j == 5 then 0 else j + 1
  }

  /** A palette hue moves on to the next palette entry. */
  lemma NextHueAt(i: nat)
    requires i < |Palette|
    ensures NextHue(Palette[i]) == Palette[Succ(i)]
  {
    FindIndexDistinct(Palette, i);
  }

  /** A hue outside the palette becomes its first entry. */
  lemma NextHueOutside(hue: int)
    requires hue !in Palette
    ensures NextHue(hue) == Palette[0] == 265
  {
  }

  /** `n` fallback steps. */
  function Cycle(hue: int, n: nat): int {
    if n == 0 then hue else NextHue(Cycle(hue, n - 1))
  }

  /** Six fallback steps from a palette hue come back to it. */
  lemma PaletteCycle(i: nat)
    requires i < |Palette|
    ensures Cycle(Palette[i], 6) == Palette[i]
  {
    var j1 := Succ(i); NextHueAt(i);
    var j2 := Succ(j1); NextHueAt(j1);
    var j3 := Succ(j2); NextHueAt(j2);
    var j4 := Succ(j3); NextHueAt(j3);
    var j5 := Succ(j4); NextHueAt(j4);
    NextHueAt(j5);
  }

  /** What `target.closest("[data-cursor-color],button,a,[role='button'],.button")`
      found under the mouse: nothing, or an element whose colour attribute
      gives the hue `colorHue` (`None` when there is no such attribute or
      its computed colour has no digits). The RGB-to-hue conversion is not
      modelled; `colorHue` is its rounded result. */
  datatype HoverTarget = Plain | Interactive(colorHue: Option<int>)

  /** `setHueFromTarget`. */
  function HueAfter(hue: int, t: HoverTarget): (r: int)
    ensures t.Plain? ==> r == hue
    ensures t.Interactive? && t.colorHue.Some? ==> r == t.colorHue.value
    ensures t.Interactive? && t.colorHue.None? ==> r == NextHue(hue)
  {
    match t
    case Plain => hue
    case Interactive(c) => if c.Some? then c.value else NextHue(hue)
  }

  function Advance(p: Particle): Particle {
    p.(x := p.x + p.vx, y := p.y + p.vy, life := p.life - LifeStep)
  }

  predicate Alive(p: Particle) {
    p.life > 0
  }

  class Cursor {
    const reduced: bool
    const maxParticles: nat
    var w: int
    var h: int
    var mx: real
    var my: real
    var hue: int
    var particles: seq<Particle>

    ghost predicate Valid()
      reads this
    {
      && maxParticles == (if reduced then 60 else 180)
      && |particles| <= maxParticles
      && (w >= 160 ==> Margin <= mx <= w as real - Margin)
      && (h >= 160 ==> Margin <= my <= h as real - Margin)
    }

    /** The effect's set-up for a window of `width` by `height`. */
    constructor (reduced: bool, width: int, height: int)
      ensures Valid()
      ensures this.reduced == reduced && w == width && h == height
      ensures mx == Clamp(width as real / 2.0, Margin, width as real - Margin)
      ensures my == Clamp(height as real / 2.0, Margin, height as real - Margin)
      ensures hue == InitialHue && particles == []
    {
      this.reduced := reduced;
      maxParticles := if reduced then 60 else 180;
      w, h := width, height;
      mx := Clamp(width as real / 2.0, Margin, width as real - Margin);
      my := Clamp(height as real / 2.0, Margin, height as real - Margin);
      hue := InitialHue;
      particles := [];
    }

    /** `onResize`: new bounds, and the mouse target clamped into them. */
    method OnResize(width: int, height: int)
      requires Valid()
      modifies this
      ensures Valid()
      ensures w == width && h == height
      ensures mx == Clamp(old(mx), Margin, width as real - Margin)
      ensures my == Clamp(old(my), Margin, height as real - Margin)
      ensures hue == old(hue) && particles == old(particles)
    {
      w, h := width, height;
      mx := Clamp(mx, Margin, w as real - Margin);
      my := Clamp(my, Margin, h as real - Margin);
    }

    /** `spawnParticles(px, py, h)` with the random draws `draws`: six
        times, drop the oldest particle if the buffer is full, then append
        a new one. */
    method SpawnParticles(px: real, py: real, h0: real, draws: seq<Jitter>)
      requires Valid() && |draws| == SpawnCount
      modifies this
      ensures Valid()
      ensures reduced ==> particles == old(particles)
      ensures !reduced ==> particles == LastN(old(particles) + Sparks(px, py, h0, draws), maxParticles)
      ensures w == old(w) && h == old(h) && mx == old(mx) && my == old(my) && hue == old(hue)
    {
      if reduced {
        return;
      }
      ghost var start := particles;
      var i := 0;
      while i < SpawnCount
        modifies this`particles
        invariant 0 <= i <= SpawnCount
        invariant particles == LastN(start + Sparks(px, py, h0, draws[..i]), maxParticles)
      {
        var p := Spark(px, py, h0, draws[i]);
        SpawnStep(start, px, py, h0, draws, i, maxParticles);
        if |particles| >= maxParticles {
          particles := particles[1..];
        }
        particles := particles + [p];
        i := i + 1;
      }
      assert draws[..SpawnCount] == draws;
    }

    /** `onMove`: clamp the mouse into the margins, then spawn at it. */
    method OnMove(clientX: real, clientY: real, draws: seq<Jitter>)
      requires Valid() && |draws| == SpawnCount
      modifies this
      ensures Valid()
      ensures mx == Clamp(clientX, Margin, w as real - Margin)
      ensures my == Clamp(clientY, Margin, h as real - Margin)
      ensures !reduced ==> particles == LastN(old(particles) + Sparks(mx, my, hue as real, draws), maxParticles)
      ensures reduced ==> particles == old(particles)
      ensures w == old(w) && h == old(h) && hue == old(hue)
    {
      mx := Clamp(clientX, Margin, w as real - Margin);
      my := Clamp(clientY, Margin, h as real - Margin);
      SpawnParticles(mx, my, hue as real, draws);
    }

    /** `onOver`: `setHueFromTarget(e.target)`. */
    method OnOver(t: HoverTarget)
      requires Valid()
      modifies this
      ensures Valid()
      ensures hue == HueAfter(old(hue), t)
      ensures particles == old(particles) && mx == old(mx) && my == old(my)
    {
      match t {
        case Plain =>
        case Interactive(c) =>
          if c.Some? {
            hue := c.value;
          } else {
            var i := FindIndex(Palette, hue);
            hue := Palette[(i + 1 + |Palette|) % |Palette|];
          }
      }
    }

    /** The particle part of one animation frame. `visible` is
        `alpha > 0.02`. Walking from the end, each particle moves and ages,
        and is spliced out once its life is used up. */
    method Frame(visible: bool)
      requires Valid()
      modifies this
      ensures Valid()
      ensures (!reduced && visible) ==> particles == Seqs.Survivors(Advance, Alive, old(particles))
      ensures (reduced || !visible) ==> particles == old(particles)
      ensures w == old(w) && h == old(h) && mx == old(mx) && my == old(my) && hue == old(hue)
    {
      if reduced || !visible {
        return;
      }
      ghost var start := particles;
      var i := |particles|;
      while i > 0
        modifies this`particles
        invariant 0 <= i <= |start|
        invariant particles == start[..i] + Seqs.Survivors(Advance, Alive, start[i..])
      {
        i := i - 1;
        Seqs.SpliceStep(Advance, Alive, start, particles, i);
        var p := Advance(particles[i]);
        if p.life <= 0 {
          particles := particles[..i] + particles[i + 1..];
        } else {
          particles := particles[i := p];
        }
      }
      assert start[..0] + Seqs.Survivors(Advance, Alive, start[0..]) == Seqs.Survivors(Advance, Alive, start) by {
        assert start[0..] == start;
      }
    }
  }

  /** The particles one spawn creates, in push order. */
  function Sparks(px: real, py: real, h: real, draws: seq<Jitter>): (r: seq<Particle>)
    ensures |r| == |draws|
    ensures forall i :: 0 <= i < |draws| ==> r[i] == Spark(px, py, h, draws[i]) && r[i].life == FullLife
  {
    if draws == [] then []
    else
      assert forall i :: 1 <= i < |draws| ==> draws[1..][i - 1] == draws[i];
      [Spark(px, py, h, draws[0])] + Sparks(px, py, h, draws[1..])
  }

  /** The loop body of `SpawnParticles` at step `i`, on sequences. */
  lemma SpawnStep(start: seq<Particle>, px: real, py: real, h: real, draws: seq<Jitter>, i: nat, n: nat)
    requires i < |draws| && n > 0
    ensures var b := LastN(start + Sparks(px, py, h, draws[..i]), n);
      (if |b| >= n then b[1..] else b) + [Spark(px, py, h, draws[i])]
        == LastN(start + Sparks(px, py, h, draws[..i + 1]), n)
  {
    var p := Spark(px, py, h, draws[i]);
    var s := start + Sparks(px, py, h, draws[..i]);
    LastNPush(s, p, n);
    assert draws[..i + 1] == draws[..i] + [draws[i]];
    SparksAppend(px, py, h, draws[..i], draws[i]);
    assert s + [p] == start + Sparks(px, py, h, draws[..i + 1]);
  }

  lemma SparksAppend(px: real, py: real, h: real, ds: seq<Jitter>, d: Jitter)
    ensures Sparks(px, py, h, ds + [d]) == Sparks(px, py, h, ds) + [Spark(px, py, h, d)]
  {
  }
}
