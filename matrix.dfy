/** The screensaver's falling glyphs. A particle (`CodePartical`) shows one
    glyph of its code string, steps through the string a tenth of a glyph
    at a time and fades out after `max_life` frames; a group (`Group`) is a
    column that grows by one particle every `speed` frames until it
    reaches the bottom of the screen. The random draws are parameters. */
module Matrix {
  import opened Sweep

  /** `random.randint(1, 3)`: the tenths a particle's frame advances. */
  type Draw = k: int | 1 <= k <= 3 witness 1

  /** Line 46. */
  const MaxLife := 30

  /** The state of a particle. `frame` counts tenths of a glyph. */
  datatype Glow = Glow(x: int, y: int, code: seq<char>, frame: int, life: int, dead: bool)

  /** Lines 43-50: a new particle at `(x, y)` showing glyph `frame`. */
  function Fresh(x: int, y: int, frame: int, code: seq<char>): (g: Glow)
    ensures g.x == x && g.y == y && g.code == code && g.life == MaxLife && !g.dead
    ensures 0 <= frame < |code| ==> GlowOk(g) && GlyphIndex(g) == frame
  {
    Glow(x, y, code, 10 * frame, MaxLife, false)
  }

  /** A particle whose glyph index is in range and whose flag agrees with
      its life. */
  predicate GlowOk(g: Glow) {
    |g.code| > 0 && 0 <= g.frame < 10 * |g.code| && g.life <= MaxLife && (g.dead <==> g.life <= 0)
  }

  /** Lines 52-59: advance the glyph by `k` tenths (back to the first glyph
      past the end), and lose one unit of life; the particle stays where
      it was. */
  function Advance(g: Glow, k: Draw): (a: Glow)
    ensures a.life == g.life - 1 && a.x == g.x && a.y == g.y && a.code == g.code
  {
    var f := g.frame + k;
    var life := g.life - 1;
    g.(frame := if f >= 10 * |g.code| then 0 else f, life := life, dead := g.dead || life <= 0)
  }

  function IsDead(g: Glow): bool {
    g.dead
  }

  function GlowY(g: Glow): int {
    g.y
  }

  /** The index `int(self.frame)` that line 67 looks a glyph up with. */
  function GlyphIndex(g: Glow): int {
    g.frame / 10
  }

  /** A step keeps a particle well formed: dead exactly once its life is
      used up, and the glyph index still inside the code. */
  lemma AdvanceOk(g: Glow, k: Draw)
    requires GlowOk(g)
    ensures var a := Advance(g, k);
      GlowOk(a) && (a.dead <==> a.life <= 0) && 0 <= GlyphIndex(a) < |a.code|
  {
  }

  /** `n` steps of a particle, step `j` with draw `ks(j)`. */
  function Age(g: Glow, ks: nat -> Draw, n: nat): Glow
    decreases n
  {
    if n == 0 then g else Advance(Age(g, ks, n - 1), ks(n - 1))
  }

  /** A particle dies on the step that uses up its life, never earlier,
      whatever the draws. */
  lemma {:induction false} Lifespan(g: Glow, ks: nat -> Draw, n: nat)
    requires GlowOk(g)
    ensures GlowOk(Age(g, ks, n)) && Age(g, ks, n).life == g.life - n
    ensures Age(g, ks, n).dead <==> n >= g.life
    decreases n
  {
    if n > 0 {
      Lifespan(g, ks, n - 1);
      AdvanceOk(Age(g, ks, n - 1), ks(n - 1));
    }
  }

  /** A fresh particle is dead after exactly `MaxLife` steps. */
  lemma FreshLifespan(x: int, y: int, frame: int, code: seq<char>, ks: nat -> Draw, n: nat)
    requires 0 <= frame < |code|
    ensures Age(Fresh(x, y, frame, code), ks, n).dead <==> n >= MaxLife
  {
    Lifespan(Fresh(x, y, frame, code), ks, n);
  }

  /** The state of a group: its code, speed and column, the position of its
      newest slot, its glyph counter, the spawn counter, the flag and its
      particles. */
  datatype Trail = Trail(code: seq<char>, speed: int, x: int, y: int, frame: int, update: int,
                         dead: bool, glows: seq<Glow>)

  /** Lines 75-87: a group starts with one particle in its first slot. With
      a non-empty code and a positive speed the new group is well formed
      and stacked. */
  function NewTrail(code: seq<char>, speed: int, x: int, y: int): (t: Trail)
    ensures !t.dead && t.code == code && t.speed == speed && t.x == x && t.y == y
    ensures |t.glows| == 1 && t.glows[0].y == y
    ensures |code| > 0 && speed >= 1 ==> TrailOk(t) && Stacked(t)
  {
    var t := Trail(code, speed, x, y, 0, 0, false, [Fresh(x, y, 0, code)]);
    assert |code| > 0 ==> Member(t, t.glows[0]);
    t
  }

  /** Every particle of the group is alive, well formed, and shows the
      group's code in the group's column. */
  predicate Member(t: Trail, g: Glow) {
    GlowOk(g) && !g.dead && g.code == t.code && g.x == t.x
  }

  predicate TrailOk(t: Trail) {
    |t.code| > 0 && t.speed >= 1 && 0 <= t.update < t.speed && 0 <= t.frame < |t.code| &&
    forall i :: 0 <= i < |t.glows| ==> Member(t, t.glows[i])
  }

  /** The particles sit in slots from the top down, none below the
      group's newest slot. */
  predicate Stacked(t: Trail) {
    (forall i, j :: 0 <= i < j < |t.glows| ==> t.glows[i].y < t.glows[j].y) &&
    forall i :: 0 <= i < |t.glows| ==> t.glows[i].y <= t.y
  }

  /** Lines 90-98 with screen height `height` and text height `h`: count
      the frame; on every `speed`-th frame reset the count, take the next
      slot and add a particle there if the slot is above the bottom, and
      flag the group dead if it still has no particle. */
  function Spawned(t: Trail, height: int, h: int): (s: Trail)
    ensures s.code == t.code && s.speed == t.speed && s.x == t.x && s.frame == t.frame
    ensures |t.glows| <= |s.glows| <= |t.glows| + 1
  {
    var u := t.update + 1;
    var spawn := u == t.speed;
    var grow := spawn && t.y < height;
    var y := if grow then t.y + h else t.y;
    var gs := if grow then t.glows + [Fresh(t.x, y, t.frame, t.code)] else t.glows;
    t.(y := y, update := if spawn then 0 else u, dead := t.dead || (spawn && gs == []), glows := gs)
  }

  /** Lines 89-108: spawn, then step and sweep the particles (the particle
      at iteration `i` with draw `ks(i)`), then advance the glyph counter. */
  function Tick(t: Trail, height: int, h: int, ks: nat -> Draw): (n: Trail)
    ensures n.code == t.code && n.speed == t.speed && n.x == t.x
    ensures |n.glows| <= |t.glows| + 1
  {
    var s := Spawned(t, height, h);
    SweepIsVisit(s.glows, ks, Advance, IsDead);
    var f := s.frame + 1;
    s.(frame := if f >= |s.code| then 0 else f, glows := Loop(s.glows, 0, ks, Advance, IsDead))
  }

  /** The particles the sweep sees. */
  function Grown(t: Trail, height: int, h: int): seq<Glow> {
    Spawned(t, height, h).glows
  }

  /** A spawn keeps the particles there were, in order, and adds one
      fresh particle at the end, showing the group's glyph at its new
      slot, exactly when the slot moves down one text height. */
  lemma SpawnAppends(t: Trail, height: int, h: int)
    requires h > 0
    ensures var s := Spawned(t, height, h);
      |s.glows| == |t.glows| + (if s.y == t.y + h then 1 else 0) && s.glows[..|t.glows|] == t.glows &&
      (s.y == t.y + h ==> s.glows[|t.glows|] == Fresh(t.x, s.y, t.frame, t.code))
  {
  }

  /** The counters: the spawn count cycles through `0 .. speed-1` and
      spawns when it wraps, the glyph counter cycles through the code, and
      the slot moves down by one text height on a spawn above the bottom,
      and not otherwise. */
  lemma TickCounters(t: Trail, height: int, h: int, ks: nat -> Draw)
    requires TrailOk(t)
    ensures var n := Tick(t, height, h, ks);
      n.update == (t.update + 1) % t.speed &&
      n.frame == (t.frame + 1) % |t.code| &&
      n.y == (if n.update == 0 && t.y < height then t.y + h else t.y) &&
      n.code == t.code && n.speed == t.speed && n.x == t.x
  {
    var s := Spawned(t, height, h);
    if t.update + 1 == t.speed {
      assert (t.update + 1) % t.speed == 0;
    } else {
      assert (t.update + 1) % t.speed == t.update + 1;
    }
    if t.frame + 1 == |t.code| {
      assert (t.frame + 1) % |t.code| == 0;
    } else {
      assert (t.frame + 1) % |t.code| == t.frame + 1;
    }
  }

  /** The group is flagged dead only on a spawn frame that added nothing
      because the slot was at the bottom while it had no particle left. */
  lemma TickDeath(t: Trail, height: int, h: int, ks: nat -> Draw)
    ensures Tick(t, height, h, ks).dead <==>
      t.dead || (t.update + 1 == t.speed && t.y >= height && t.glows == [])
  {
  }

  /** Once the slot is at the bottom no particle is added again, and with
      a positive text height the slot never moves back up. */
  lemma TickBottom(t: Trail, height: int, h: int, ks: nat -> Draw)
    requires h > 0
    ensures t.y <= Tick(t, height, h, ks).y
    ensures t.y >= height ==> Tick(t, height, h, ks).y == t.y && Grown(t, height, h) == t.glows
    ensures |Tick(t, height, h, ks).glows| <= |Grown(t, height, h)| <= |t.glows| + 1
  {
    var gs := Grown(t, height, h);
    SweepIsVisit(gs, ks, Advance, IsDead);
  }

  /** The sweep after a step sees the particles `Grown` lists, and keeps
      them in order: when no particle dies every one is stepped once with
      the draw of its own position. */
  lemma TickSweep(t: Trail, height: int, h: int, ks: nat -> Draw)
    ensures Tick(t, height, h, ks).glows == Visit(Grown(t, height, h), 0, ks, Advance, IsDead)
    ensures var gs, n := Grown(t, height, h), Tick(t, height, h, ks);
      (forall i :: 0 <= i < |gs| ==> !Advance(gs[i], ks(i)).dead) ==>
        |n.glows| == |gs| && forall i :: 0 <= i < |gs| ==> n.glows[i] == Advance(gs[i], ks(i))
  {
    var gs := Grown(t, height, h);
    assert Tick(t, height, h, ks).glows == Loop(gs, 0, ks, Advance, IsDead);
    SweepIsVisit(gs, ks, Advance, IsDead);
    if forall i :: 0 <= i < |gs| ==> !Advance(gs[i], ks(i)).dead {
      AllLiveSteps(gs, ks);
    }
  }

  /** With no particle dying, the sweep steps each one with the draw of
      its own position. */
  lemma AllLiveSteps(gs: seq<Glow>, ks: nat -> Draw)
    requires forall i :: 0 <= i < |gs| ==> !Advance(gs[i], ks(i)).dead
    ensures var v := Visit(gs, 0, ks, Advance, IsDead);
      |v| == |gs| && forall i :: 0 <= i < |gs| ==> v[i] == Advance(gs[i], ks(i))
  {
    forall i | 0 <= i < |gs|
      ensures !IsDead(Advance(gs[i], ks(i)))
    {
    }
    VisitAllLiveFromStart(gs, ks, Advance, IsDead);
  }

  /** A step keeps the group well formed. */
  lemma TickOk(t: Trail, height: int, h: int, ks: nat -> Draw)
    requires TrailOk(t)
    ensures TrailOk(Tick(t, height, h, ks))
  {
    var gs := Grown(t, height, h);
    var P := (g: Glow) => GlowOk(g) && g.code == t.code && g.x == t.x;
    forall g: Glow, n: nat | P(g)
      ensures P(Advance(g, ks(n)))
    {
      AdvanceOk(g, ks(n));
    }
    forall i | 0 <= i < |gs|
      ensures P(gs[i]) && !IsDead(gs[i])
    {
      if i < |t.glows| {
        assert gs[i] == t.glows[i];
      }
    }
    TickSweep(t, height, h, ks);
    VisitKeeps(gs, 0, ks, Advance, IsDead, P);
  }

  /** A spawn keeps the particles in slots from the top down, none below
      the newest slot. */
  lemma SpawnStacked(t: Trail, height: int, h: int)
    requires Stacked(t) && h > 0
    ensures var s := Spawned(t, height, h);
      Increasing(s.glows, GlowY) && Within(s.glows, GlowY, if s.glows == [] then 0 else s.glows[0].y, s.y)
  {
    var s := Spawned(t, height, h);
    if s.y != t.y {
      var f := Fresh(t.x, s.y, t.frame, t.code);
      assert s.glows == t.glows + [f];
      forall i | 0 <= i < |t.glows|
        ensures GlowY(t.glows[i]) < GlowY(f)
      {
      }
    } else {
      assert s.glows == t.glows;
    }
  }

  /** With a positive text height a step keeps the particles stacked. */
  lemma TickStacked(t: Trail, height: int, h: int, ks: nat -> Draw)
    requires Stacked(t) && h > 0
    ensures Stacked(Tick(t, height, h, ks))
  {
    var n := Tick(t, height, h, ks);
    var gs := Grown(t, height, h);
    TickSweep(t, height, h, ks);
    SpawnStacked(t, height, h);
    if gs != [] {
      forall g: Glow, m: nat
        ensures GlowY(Advance(g, ks(m))) == GlowY(g)
      {
      }
      VisitKeepsOrder(gs, 0, ks, Advance, IsDead, GlowY, gs[0].y, n.y);
    }
  }

  /** The effect of removing while iterating: of two particles on their
      last life, the first dies and is removed, and the second is passed
      over unstepped, so it outlives `MaxLife` steps of its group. */
  lemma SkipAfterRemoval(code: seq<char>, a: Glow, b: Glow, ks: nat -> Draw)
    requires |code| > 0
    requires a == Glow(7, 20, code, 0, 1, false) && b == Glow(7, 40, code, 0, 1, false)
    ensures var t := Trail(code, 2, 7, 40, 0, 0, false, [a, b]);
      Tick(t, 480, 20, ks).glows == [b]
  {
    var t := Trail(code, 2, 7, 40, 0, 0, false, [a, b]);
    TickSweep(t, 480, 20, ks);
    assert Grown(t, 480, 20) == [a, b];
    assert Advance(a, ks(0)).dead;
    assert [a, b][2..] == [];
  }

  /** A particle object (lines 42-59). */
  class Particle {
    const x: int
    const y: int
    const code: seq<char>
    var frame: int
    var life: int
    var dead: bool

    function State(): Glow
      reads this
    {
      Glow(x, y, code, frame, life, dead)
    }

    constructor (x: int, y: int, frame: int, code: seq<char>)
      ensures State() == Fresh(x, y, frame, code)
    {
      this.x := x;
      this.y := y;
      this.code := code;
      this.frame := 10 * frame;
      this.life := MaxLife;
      this.dead := false;
    }

    method Modernize(k: Draw)
      modifies this
      ensures State() == Advance(old(State()), k)
    {
      frame := frame + k;
      if frame >= 10 * |code| {
        frame := 0;
      }
      life := life - 1;
      if life <= 0 {
        dead := true;
      }
    }
  }

  /** The states of a list of particles. */
  function States(ps: seq<Particle>): (r: seq<Glow>)
    reads set p | p in ps
    ensures |r| == |ps|
  {
    seq(|ps|, i requires 0 <= i < |ps| reads set p | p in ps => ps[i].State())
  }

  /** The particles of `ps` whose flag is set. */
  ghost function DeadOnes(ps: seq<Particle>): set<Particle>
    reads set p | p in ps
  {
    set p | p in ps && p.dead
  }

  /** After a sweep that leaves no dead particle, the particles removed
      are exactly those whose flag is set, and the list still has no
      repeats. */
  lemma SweptAreDead(all: seq<Particle>, removed: set<Particle>)
    requires Distinct(all)
    requires forall p :: p in removed ==> p in all && p.dead
    requires forall j :: 0 <= j < |Without(all, removed)| ==> !Without(all, removed)[j].dead
    ensures removed == DeadOnes(all) && Distinct(Without(all, removed))
  {
    WithoutDistinct(all, removed);
    forall q | q in all && q.dead
      ensures q in removed
    {
      WithoutMembers(all, removed, q);
    }
  }

  /** A group object (lines 74-108). */
  class Group {
    const code: seq<char>
    const speed: int
    const x: int
    var y: int
    var frame: int
    var update: int
    var dead: bool
    var parts: seq<Particle>

    function Model(): Trail
      reads this, set p | p in parts
    {
      Trail(code, speed, x, y, frame, update, dead, States(parts))
    }

    ghost predicate Valid()
      reads this, set p | p in parts
    {
      TrailOk(Model()) && Distinct(parts)
    }

    /** Lines 75-87; `code` stands for the shuffled time string. */
    constructor (x: int, y: int, speed: int, code: seq<char>)
      ensures Model() == NewTrail(code, speed, x, y)
      ensures |code| > 0 && speed >= 1 ==> Valid()
      ensures |parts| == 1 && fresh(parts[0])
    {
      this.code := code;
      this.speed := speed;
      this.x := x;
      this.y := y;
      this.frame := 0;
      this.update := 0;
      this.dead := false;
      var p := new Particle(x, y, 0, code);
      this.parts := [p];
      new;
      assert States(parts) == [Fresh(x, y, 0, code)];
    }

    /** Lines 89-108; `born` is the particle added, if any. Afterwards the
        list is the old list followed by `born`, less exactly the particles
        whose flag is now set, in the same order. */
    method Modernize(height: int, h: int, ks: nat -> Draw) returns (ghost born: seq<Particle>)
      requires Valid()
      modifies this, set p | p in parts
      ensures Model() == Tick(old(Model()), height, h, ks)
      ensures Valid()
      ensures |born| <= 1 && forall p :: p in born ==> fresh(p)
      ensures parts == Without(old(parts) + born, DeadOnes(old(parts) + born))
    {
      ghost var t := Model();
      born := Spawn(height, h);
      ghost var all := parts;
      ghost var removed := SweepParticles(ks);
      frame := frame + 1;
      if frame >= |code| {
        frame := 0;
      }
      assert States(parts) == Tick(t, height, h, ks).glows;
      TickOk(t, height, h, ks);
      SweptAreDead(all, removed);
    }

    /** Lines 90-98. */
    method Spawn(height: int, h: int) returns (ghost born: seq<Particle>)
      requires Valid()
      modifies this
      ensures Model() == Spawned(old(Model()), height, h)
      ensures parts == old(parts) + born && |born| <= 1 && forall p :: p in born ==> fresh(p)
      ensures Distinct(parts) && forall j :: 0 <= j < |parts| ==> !parts[j].dead
    {
      ghost var t := Model();
      born := [];
      update := update + 1;
      if update == speed {
        update := 0;
        if y < height {
          y := y + h;
          born := AddParticle();
        }
        if |parts| == 0 {
          dead := true;
        }
      }
      assert States(parts) == Grown(t, height, h);
      forall j | 0 <= j < |parts|
        ensures !parts[j].dead
      {
        assert States(parts)[j] == parts[j].State();
        if j < |old(parts)| {
          assert Member(t, t.glows[j]);
        }
      }
    }

    /** Line 96: a new particle at the group's slot, showing its glyph. */
    method AddParticle() returns (ghost born: seq<Particle>)
      modifies this`parts
      ensures |born| == 1 && fresh(born[0]) && !born[0].dead && parts == old(parts) + born
      ensures States(parts) == old(States(parts)) + [Fresh(x, y, frame, code)]
    {
      var np := new Particle(x, y, frame, code);
      parts := parts + [np];
      born := [np];
      assert States(parts)[..|parts| - 1] == old(States(parts));
    }

    /** One iteration of lines 101-104, at index `i`: the particles left are
        still the particles of `all` not marked removed, and the sweep
        goes on from the next index as it would have from this one. */
    method SweepOne(i: nat, ks: nat -> Draw, ghost all: seq<Particle>, ghost removed: set<Particle>)
      returns (ghost removed': set<Particle>)
      requires i < |parts| && Distinct(all) && parts == Without(all, removed)
      requires forall p :: p in removed ==> p in all && p.dead
      requires forall j :: 0 <= j < |parts| ==> !parts[j].dead
      modifies this`parts, parts[i]
      ensures parts == Without(all, removed')
      ensures |parts| == old(|parts|) || |parts| == old(|parts|) - 1
      ensures forall p :: p in removed' ==> p in all && p.dead
      ensures forall j :: 0 <= j < |parts| ==> !parts[j].dead
      ensures Loop(States(parts), i + 1, ks, Advance, IsDead) == Loop(old(States(parts)), i, ks, Advance, IsDead)
    {
      removed' := removed;
      WithoutDistinct(all, removed);
      var p := parts[i];
      WithoutMembers(all, removed, p);
      ghost var s := States(parts);
      ghost var y := Advance(s[i], ks(i));
      StepParticle(i, ks(i));
      assert States(parts) == s[i := y];
      assert p.dead == IsDead(y) by {
        assert States(parts)[i] == p.State();
      }
      if p.dead {
        WithoutRemove(all, removed, i);
        RemoveParticle(i);
        removed' := removed + {p};
        assert s[i := y][..i] + s[i := y][i + 1..] == s[..i] + s[i + 1..];
        assert Loop(s, i, ks, Advance, IsDead) == Loop(s[..i] + s[i + 1..], i + 1, ks, Advance, IsDead);
      } else {
        assert Loop(s, i, ks, Advance, IsDead) == Loop(s[i := y], i + 1, ks, Advance, IsDead);
      }
    }

    /** Line 102: the particle at index `i` takes one step. */
    method StepParticle(i: nat, k: Draw)
      requires i < |parts| && Distinct(parts)
      modifies parts[i]
      ensures States(parts) == old(States(parts))[i := Advance(old(States(parts))[i], k)]
    {
      parts[i].Modernize(k);
    }

    /** Lines 103-104: `list.remove` of the particle at index `i`. */
    method RemoveParticle(i: nat)
      requires i < |parts| && Distinct(parts)
      modifies this`parts
      ensures parts == old(parts[..i] + parts[i + 1..])
      ensures States(parts) == old(States(parts)[..i] + States(parts)[i + 1..])
    {
      RemoveFirstAt(parts, i);
      parts := RemoveFirst(parts, parts[i]);
    }

    /** Lines 101-104: step every particle the list iterator reaches and
        remove each one that dies. */
    method SweepParticles(ks: nat -> Draw) returns (ghost removed: set<Particle>)
      requires Distinct(parts) && forall j :: 0 <= j < |parts| ==> !parts[j].dead
      modifies this`parts, set p | p in parts
      ensures States(parts) == Loop(old(States(parts)), 0, ks, Advance, IsDead)
      ensures parts == Without(old(parts), removed)
      ensures forall p :: p in removed ==> p in old(parts) && p.dead
      ensures forall j :: 0 <= j < |parts| ==> !parts[j].dead
    {
      ghost var all := parts;
      removed := {};
      WithoutNone(all);
      var i := 0;
      while i < |parts|
        invariant 0 <= i <= |parts| + 1
        invariant parts == Without(all, removed)
        invariant forall p :: p in removed ==> p in all && p.dead
        invariant forall j :: 0 <= j < |parts| ==> !parts[j].dead
        invariant Loop(States(parts), i, ks, Advance, IsDead) == Loop(old(States(parts)), 0, ks, Advance, IsDead)
        decreases |parts| + 1 - i
      {
        WithoutMembers(all, removed, parts[i]);
        removed := SweepOne(i, ks, all, removed);
        i := i + 1;
      }
    }
  }
}
