/** The interactive skills scene (src/pages/Skills3D.jsx): the capped lists
    of shooting stars and meteors and their per-frame update, the planet
    meshes and their labels, the hover resolution through the scene graph,
    the single highlighted planet, and the selection that opens the details
    card. Positions are reals; the three.js scene, camera projection and
    timers are parameters or left out, and every `Math.random()` is an
    input draw. */
module Skills3D {
  import opened Wrappers
  import Seqs

  datatype Vec = Vec(x: real, y: real, z: real)

  function Add(a: Vec, b: Vec): Vec
  {
    Vec(a.x + b.x, a.y + b.y, a.z + b.z)
  }

  /** A `Math.random()` value. */
  predicate Unit(r: real)
  {
    0.0 <= r < 1.0
  }

  // ---------------------------------------------------------------- streaks

  /** A shooting-star sprite: its position, velocity, material opacity and
      horizontal scale. */
  datatype Streak = Streak(pos: Vec, vel: Vec, opacity: real, length: real)

  /** The six random draws `spawnStreak` makes, in call order. */
  datatype StreakDraw = StreakDraw(length: real, height: real, lift: real, depth: real, speed: real, fall: real)

  /** The streak cap of `spawnStreak`. */
  function MaxStreaks(reduced: bool): nat
  {
    if reduced then 2 else 5
  }

  const OpacityCap: real := 0.95
  const FadeIn: real := 0.06

  /** The sprite `spawnStreak` creates: it enters at the left edge, above
      the planets and behind them, fully transparent. */
  function NewStreak(d: StreakDraw): (s: Streak)
    ensures s.pos.x == -12.0 && s.opacity == 0.0 && s.vel.z == 0.2
  {
    var y := 2.0 + d.height * 4.0;
    Streak(Vec(-12.0, y + d.lift * 2.0, -6.0 - d.depth * 4.0),
           Vec(0.45 + d.speed * 0.8, -0.25 - d.fall * 0.35, 0.2),
           0.0,
           2.0 + d.length * 2.0)
  }

  /** One frame of a streak: it moves by its velocity and fades in by 0.06,
      never past 0.95. */
  function StepStreak(s: Streak): (r: Streak)
    ensures r.pos == Add(s.pos, s.vel) && r.vel == s.vel && r.length == s.length
    ensures r.opacity <= OpacityCap
    ensures s.opacity + FadeIn <= OpacityCap ==> r.opacity == s.opacity + FadeIn
    ensures s.opacity <= r.opacity || s.opacity > OpacityCap
  {
    var o := s.opacity + FadeIn;
    s.(pos := Add(s.pos, s.vel), opacity := if o < OpacityCap then o else OpacityCap)
  }

  /** A streak is removed once it has left through the right, the bottom or
      the front. */
  predicate StreakInside(s: Streak)
  {
    !(s.pos.x > 12.0 || s.pos.y < -6.0 || s.pos.z > 8.0)
  }

  /** Every streak `spawnStreak` can create starts inside the bounds. */
  lemma NewStreakInside(d: StreakDraw)
    requires Unit(d.height) && Unit(d.lift) && Unit(d.depth)
    ensures StreakInside(NewStreak(d))
  {
  }

  // ---------------------------------------------------------------- meteors

  /** A meteor mesh: position, velocity, rotation and spin per frame. */
  datatype Meteor = Meteor(pos: Vec, vel: Vec, rot: Vec, spin: Vec)

  /** The nine random draws `spawnMeteor` makes, three per vector. */
  datatype MeteorDraw = MeteorDraw(at: Vec, speed: Vec, spin: Vec)

  /** The meteor cap of `spawnMeteor`. */
  function MaxMeteors(reduced: bool): nat
  {
    if reduced then 2 else 6
  }

  /** The meteor `spawnMeteor` creates: it enters on the right and drifts
      left and down. */
  function NewMeteor(d: MeteorDraw): (m: Meteor)
    ensures m.rot == Vec(0.0, 0.0, 0.0)
    ensures Unit(d.speed.x) && Unit(d.speed.y) ==> m.vel.x < 0.0 && m.vel.y < 0.0
  {
    Meteor(Vec(9.0 + d.at.x * 6.0, 2.0 + d.at.y * 4.0, -3.0 + d.at.z * 6.0),
           Vec(-0.06 - d.speed.x * 0.12, -0.02 - d.speed.y * 0.06, -0.03 + d.speed.z * 0.06),
           Vec(0.0, 0.0, 0.0),
           Vec(d.spin.x * 0.02, d.spin.y * 0.02, d.spin.z * 0.02))
  }

  /** One frame of a meteor: it moves by its velocity and turns by its spin. */
  function StepMeteor(m: Meteor): Meteor
  {
    m.(pos := Add(m.pos, m.vel), rot := Add(m.rot, m.spin))
  }

  /** A meteor is removed once it has left through the left, the bottom or
      the back. */
  predicate MeteorInside(m: Meteor)
  {
    !(m.pos.x < -12.0 || m.pos.y < -6.0 || m.pos.z < -10.0)
  }

  /** Every meteor `spawnMeteor` can create starts inside the bounds. */
  lemma NewMeteorInside(d: MeteorDraw)
    requires Unit(d.at.x) && Unit(d.at.y) && Unit(d.at.z)
    ensures MeteorInside(NewMeteor(d))
  {
  }

  // ------------------------------------------------------ planets and labels

  /** A scene-graph object, by identity. */
  type Obj = nat

  /** A planet group: its scene object, the id of the skill it carries and
      its position on the sphere. */
  datatype Planet = Planet(obj: Obj, skill: string, pos: Vec)

  const Dim: real := 0.08
  const Lit: real := 0.35

  /** Where the label of a planet goes: the projected point mapped to
      pixels, shown only when the projected depth is inside [-1, 1]. */
  datatype LabelStyle = LabelStyle(x: real, y: real, visible: bool)

  function LabelAt(p: Vec, width: real, height: real): (l: LabelStyle)
    ensures l.visible <==> -1.0 <= p.z <= 1.0
    ensures p.x == 0.0 && p.y == 0.0 ==> l.x == width / 2.0 && l.y == height / 2.0
  {
    LabelStyle((p.x * 0.5 + 0.5) * width, (-p.y * 0.5 + 0.5) * height, !(p.z > 1.0 || p.z < -1.0))
  }

  // ------------------------------------------------------------------ hover

  /** The scene graph's parent links (an object with no entry has no
      parent) are acyclic: `rank` strictly decreases towards the root. */
  ghost predicate Ranked(parent: map<Obj, Obj>, rank: map<Obj, nat>)
  {
    forall o :: o in parent ==> o in rank && (parent[o] in parent ==> parent[o] in rank && rank[parent[o]] < rank[o])
  }

  /** The `n`-th ancestor of `o`, if there is one. */
  function Up(parent: map<Obj, Obj>, o: Obj, n: nat): Option<Obj>
    decreases n
  {
    if n == 0 then Some(o)
    else if o in parent then Up(parent, parent[o], n - 1)
    else None
  }

  ghost function Height(parent: map<Obj, Obj>, rank: map<Obj, nat>, top: Option<Obj>): nat
    requires Ranked(parent, rank)
  {
    match top
    case None => 0
    case Some(o) => if o in parent then rank[o] + 2 else 1
  }

  /** The planet an intersected object belongs to: the first ancestor-or-self
      whose parent is the cloud, or nothing. */
  ghost function Resolve(parent: map<Obj, Obj>, rank: map<Obj, nat>, cloud: Obj, top: Option<Obj>): Option<Obj>
    requires Ranked(parent, rank)
    decreases Height(parent, rank, top)
  {
    match top
    case None => None
    case Some(o) =>
      if o in parent && parent[o] == cloud then Some(o)
      else if o in parent then Resolve(parent, rank, cloud, Some(parent[o]))
      else None
  }

  /** `t` is a direct child of the cloud. */
  predicate ChildOf(parent: map<Obj, Obj>, cloud: Obj, t: Option<Obj>)
  {
    t.Some? && t.value in parent && parent[t.value] == cloud
  }

  /** `h` is the `n`-th ancestor of `o` and no nearer ancestor-or-self is a
      child of the cloud. */
  predicate NearestAt(parent: map<Obj, Obj>, cloud: Obj, o: Obj, n: nat, h: Option<Obj>)
  {
    Up(parent, o, n) == h && forall k :: 0 <= k < n ==> !ChildOf(parent, cloud, Up(parent, o, k))
  }

  /** What `Resolve` finds is a direct child of the cloud and the nearest
      such ancestor-or-self of the object it started from. */
  lemma {:induction false} ResolveSound(parent: map<Obj, Obj>, rank: map<Obj, nat>, cloud: Obj, o: Obj)
    requires Ranked(parent, rank)
    ensures Resolve(parent, rank, cloud, Some(o)).Some? ==>
      ChildOf(parent, cloud, Resolve(parent, rank, cloud, Some(o))) &&
      exists n: nat :: NearestAt(parent, cloud, o, n, Resolve(parent, rank, cloud, Some(o)))
    decreases Height(parent, rank, Some(o))
  {
    if ChildOf(parent, cloud, Some(o)) {
      assert NearestAt(parent, cloud, o, 0, Some(o));
    } else if o in parent {
      ResolveSound(parent, rank, cloud, parent[o]);
      var r := Resolve(parent, rank, cloud, Some(parent[o]));
      if r.Some? {
        var n: nat :| NearestAt(parent, cloud, parent[o], n, r);
        assert Up(parent, o, n + 1) == r;
        forall k | 0 <= k < n + 1
          ensures !ChildOf(parent, cloud, Up(parent, o, k))
        {
          if k > 0 {
            assert Up(parent, o, k) == Up(parent, parent[o], k - 1);
          }
        }
        assert NearestAt(parent, cloud, o, n + 1, r);
      }
    }
  }

  /** `Resolve` misses nothing: when some ancestor-or-self of `o` is a child
      of the cloud, a planet is found. */
  lemma {:induction false} ResolveComplete(parent: map<Obj, Obj>, rank: map<Obj, nat>, cloud: Obj, o: Obj, n: nat)
    requires Ranked(parent, rank)
    requires ChildOf(parent, cloud, Up(parent, o, n))
    ensures Resolve(parent, rank, cloud, Some(o)).Some?
    decreases n
  {
    if n > 0 && !ChildOf(parent, cloud, Some(o)) {
      ResolveComplete(parent, rank, cloud, parent[o], n - 1);
    }
  }

  /** The selection and highlight state of the scene, and the lists the
      animation loop mutates. */
  class Scene {
    const reduced: bool
    var streaks: seq<Streak>
    var meteors: seq<Meteor>
    var meshes: seq<Planet>
    var labels: seq<string>
    /** `emissiveIntensity` of each planet core. */
    var emissive: map<Obj, real>
    var hovered: Option<Obj>
    /** The canvas shows the hand cursor. */
    var handCursor: bool
    /** The planet whose skill the details card shows. */
    var selected: Option<Obj>
    /** The planet the camera is flying towards. */
    var focusTarget: Option<Obj>

    ghost predicate Valid()
      reads this
    {
      |streaks| <= MaxStreaks(reduced) &&
      |meteors| <= MaxMeteors(reduced) &&
      |meshes| == |labels| &&
      (forall i :: 0 <= i < |meshes| ==> labels[i] == meshes[i].skill) &&
      (forall o :: o in emissive ==> emissive[o] == Dim || emissive[o] == Lit) &&
      (forall o :: o in emissive && emissive[o] == Lit ==> hovered == Some(o)) &&
      handCursor == hovered.Some?
    }

    /** The effect's start: empty lists, nothing hovered, selected or
        focused. */
    constructor (reduced: bool)
      ensures Valid()
      ensures this.reduced == reduced
      ensures streaks == [] && meteors == [] && meshes == [] && labels == []
      ensures emissive == map[] && hovered == None && selected == None && focusTarget == None
    {
      this.reduced := reduced;
      streaks := [];
      meteors := [];
      meshes := [];
      labels := [];
      emissive := map[];
      hovered := None;
      handCursor := false;
      selected := None;
      focusTarget := None;
    }

    /** One iteration of the planet-building loop: the group joins `meshes`
        and its title label joins `labels`, with its core at the dim
        intensity. */
    method AddPlanet(p: Planet)
      requires Valid()
      modifies this
      ensures Valid()
      ensures meshes == old(meshes) + [p] && labels == old(labels) + [p.skill]
      ensures emissive == old(emissive)[p.obj := Dim]
      ensures streaks == old(streaks) && meteors == old(meteors)
      ensures hovered == old(hovered) && selected == old(selected) && focusTarget == old(focusTarget)
    {
      meshes := meshes + [p];
      labels := labels + [p.skill];
      emissive := emissive[p.obj := Dim];
    }

    /** `spawnStreak`: nothing at the cap, otherwise one new streak. */
    method SpawnStreak(d: StreakDraw)
      requires Valid()
      modifies this`streaks
      ensures Valid()
      ensures |old(streaks)| >= MaxStreaks(reduced) ==> streaks == old(streaks)
      ensures |old(streaks)| < MaxStreaks(reduced) ==> streaks == old(streaks) + [NewStreak(d)]
    {
      if |streaks| >= MaxStreaks(reduced) {
        return;
      }
      streaks := streaks + [NewStreak(d)];
    }

    /** `spawnMeteor`: nothing at the cap, otherwise one new meteor. */
    method SpawnMeteor(d: MeteorDraw)
      requires Valid()
      modifies this`meteors
      ensures Valid()
      ensures |old(meteors)| >= MaxMeteors(reduced) ==> meteors == old(meteors)
      ensures |old(meteors)| < MaxMeteors(reduced) ==> meteors == old(meteors) + [NewMeteor(d)]
    {
      if |meteors| >= MaxMeteors(reduced) {
        return;
      }
      meteors := meteors + [NewMeteor(d)];
    }

    /** The streak loop: from the last index down, each streak is stepped
        and spliced out if it is now outside. */
    method UpdateStreaks()
      requires Valid()
      modifies this`streaks
      ensures Valid()
      ensures streaks == Seqs.Survivors(StepStreak, StreakInside, old(streaks))
    {
      ghost var start := streaks;
      var i := |streaks|;
      while i > 0
        invariant 0 <= i <= |start|
        invariant streaks == start[..i] + Seqs.Survivors(StepStreak, StreakInside, start[i..])
      {
        i := i - 1;
        Seqs.SpliceStep(StepStreak, StreakInside, start, streaks, i);
        var s := StepStreak(streaks[i]);
        if s.pos.x > 12.0 || s.pos.y < -6.0 || s.pos.z > 8.0 {
          streaks := streaks[..i] + streaks[i + 1..];
        } else {
          streaks := streaks[i := s];
        }
      }
      assert start[0..] == start;
    }

    /** The meteor loop, in the same shape as the streak loop. */
    method UpdateMeteors()
      requires Valid()
      modifies this`meteors
      ensures Valid()
      ensures meteors == Seqs.Survivors(StepMeteor, MeteorInside, old(meteors))
    {
      ghost var start := meteors;
      var i := |meteors|;
      while i > 0
        invariant 0 <= i <= |start|
        invariant meteors == start[..i] + Seqs.Survivors(StepMeteor, MeteorInside, start[i..])
      {
        i := i - 1;
        Seqs.SpliceStep(StepMeteor, MeteorInside, start, meteors, i);
        var m := StepMeteor(meteors[i]);
        if m.pos.x < -12.0 || m.pos.y < -6.0 || m.pos.z < -10.0 {
          meteors := meteors[..i] + meteors[i + 1..];
        } else {
          meteors := meteors[i := m];
        }
      }
      assert start[0..] == start;
    }

    /** The label loop: one style per label, read from the mesh at the same
        index through the camera's `project`. */
    method LabelStyles(project: Vec -> Vec, width: real, height: real) returns (styles: seq<LabelStyle>)
      requires Valid()
      ensures |styles| == |labels|
      ensures forall i :: 0 <= i < |labels| ==> styles[i] == LabelAt(project(meshes[i].pos), width, height)
    {
      styles := [];
      for i := 0 to |labels|
        invariant |styles| == i
        invariant forall k :: 0 <= k < i ==> styles[k] == LabelAt(project(meshes[k].pos), width, height)
      {
        var p := project(meshes[i].pos);
        styles := styles + [LabelAt(p, width, height)];
      }
    }

    /** The hover step of a frame. `first` is the nearest intersected
        object, if any; the loop climbs to the planet it belongs to, and on
        a change the old planet is dimmed and the new one lit. */
    method Hover(parent: map<Obj, Obj>, ghost rank: map<Obj, nat>, cloud: Obj, first: Option<Obj>)
      requires Valid() && Ranked(parent, rank)
      modifies this`hovered, this`emissive, this`handCursor
      ensures Valid()
      ensures hovered == Resolve(parent, rank, cloud, first)
      ensures hovered == old(hovered) ==> emissive == old(emissive)
      ensures hovered != old(hovered) ==>
        var dimmed := if old(hovered).Some? && old(hovered).value in old(emissive)
                      then old(emissive)[old(hovered).value := Dim] else old(emissive);
        emissive == if hovered.Some? && hovered.value in dimmed then dimmed[hovered.value := Lit] else dimmed
    {
      var top := first;
      while top.Some? && !(top.value in parent && parent[top.value] == cloud)
        invariant Resolve(parent, rank, cloud, top) == Resolve(parent, rank, cloud, first)
        decreases Height(parent, rank, top)
      {
        top := if top.value in parent then Some(parent[top.value]) else None;
      }
      var hit := top;
      if hit != hovered {
        if hovered.Some? && hovered.value in emissive {
          emissive := emissive[hovered.value := Dim];
        }
        hovered := hit;
        if hovered.Some? && hovered.value in emissive {
          emissive := emissive[hovered.value := Lit];
        }
        handCursor := hovered.Some?;
      }
    }

    /** A canvas click: nothing unless a planet is hovered; then its skill
        is selected and the camera flies towards it. */
    method Click()
      requires Valid()
      modifies this`selected, this`focusTarget
      ensures Valid()
      ensures old(hovered) == None ==> selected == old(selected) && focusTarget == old(focusTarget)
      ensures old(hovered).Some? ==> selected == hovered && focusTarget == hovered
    {
      if hovered == None {
        return;
      }
      selected := hovered;
      focusTarget := hovered;
    }

    /** The window `keydown` listener: Escape closes the details card. */
    method OnKey(key: string)
      requires Valid()
      modifies this`selected
      ensures Valid()
      ensures key == "Escape" ==> selected == None
      ensures key != "Escape" ==> selected == old(selected)
    {
      if key == "Escape" {
        selected := None;
      }
    }

    /** The backdrop and the Close button. */
    method Close()
      requires Valid()
      modifies this`selected
      ensures Valid() && selected == None
    {
      selected := None;
    }
  }

  /** Whatever the hover history, no two planets are lit at once. */
  lemma AtMostOneLit(s: Scene, a: Obj, b: Obj)
    requires s.Valid()
    requires a in s.emissive && b in s.emissive
    requires s.emissive[a] == Lit && s.emissive[b] == Lit
    ensures a == b
  {
  }
}
