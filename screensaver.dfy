/** The screensaver loop of `main` (lines 576-612): every pass may start a
    new group at the top of a random column, may drop a stray particle
    somewhere on the screen, which shows one glyph at a time of a shuffle of
    the printer's name, and then steps
    every group and stray particle, removing those that are done with the
    same remove-while-iterating loop as a group uses for its particles.
    The random draws of a pass are a parameter, and so is the height of a
    line of text, which the font decides. */
module Screensaver {
  import opened Sweep
  import opened Matrix

  /** Line 574 (`size = [320, 480]`) and line 580. */
  const Width := 320
  const Height := 480
  const TextWidth := 13

  /** The string a stray particle shows a shuffle of (line 602). */
  const StrayText := "MP Mini Select V2 IIIP 3D Printer"

  /** An entry of the `groups` list as a value: a group or a stray particle. */
  datatype Shape = Stream(t: Trail) | Stray(g: Glow)

  /** `group.modernize(font, size)` of line 610 with text height `h`; a
      group consumes the draws of its particles, a stray particle the first
      one. */
  function ShapeStep(s: Shape, h: int, ks: nat -> Draw): (r: Shape)
    ensures r.Stream? <==> s.Stream?
    ensures s.Stream? ==> r.t.code == s.t.code && r.t.speed == s.t.speed && r.t.x == s.t.x
    ensures s.Stray? ==> r.g.x == s.g.x && r.g.y == s.g.y && r.g.life == s.g.life - 1
  {
    match s
    case Stream(t) => Stream(Tick(t, Height, h, ks))
    case Stray(g) => Stray(Advance(g, ks(0)))
  }

  /** `group.dead` of line 611. */
  function IsGone(s: Shape): bool {
    match s
    case Stream(t) => t.dead
    case Stray(g) => g.dead
  }

  function StepAt(h: int): (Shape, nat -> Draw) -> Shape {
    (s: Shape, ks: nat -> Draw) => ShapeStep(s, h, ks)
  }

  /** The centre of text column `k` (`k * text_width - text_width / 2`),
      which lies inside that column. */
  function Column(k: int): (x: int)
    ensures (k - 1) * TextWidth <= x < k * TextWidth
  {
    k * TextWidth - TextWidth / 2
  }

  /** The random draws one pass consumes: `fast` and `slow` decide a new
      group's speed, `column` its column and `code` its shuffled time
      string; `lone` decides whether a stray particle appears, and the
      `stray` draws say where, with which glyph first and which shuffle of
      the name, `strayCode`; `steps(i)` are the draws of the entry at index `i`. */
  datatype Draws = Draws(
    fast: int, slow: int, column: int, code: seq<char>,
    lone: int, strayColumn: int, strayRow: int, strayFrame: int, strayCode: seq<char>,
    steps: nat -> nat -> Draw)

  /** The ranges of the `random.randint` calls of lines 591-607. The time
      string always ends in the time zone's name, so a group's code is
      never empty. */
  predicate DrawsOk(d: Draws, h: int)
    requires h > 0
  {
    0 <= d.fast <= 20 && 1 <= d.slow <= 2 && 1 <= d.column <= Width / TextWidth && |d.code| > 0 &&
    0 <= d.lone <= 50 &&
    1 <= d.strayColumn <= Width / TextWidth + 1 && 1 <= d.strayRow <= Height / h + 1 &&
    |d.strayCode| == |StrayText| && 0 <= d.strayFrame <= |d.strayCode| - 1
  }

  /** The loop's state: the `add_line` countdown and the `groups` list. */
  datatype Rain = Rain(addLine: int, shapes: seq<Shape>)

  /** Lines 581-582: the state the loop starts from. */
  const Start := Rain(1, [])

  /** Lines 591-595: the speed of a new group, 3 one time in 21
      (`fast == 0`), 1 or 2 otherwise. */
  function Speed(d: Draws): (v: int)
    ensures 0 <= d.fast && 1 <= d.slow <= 2 ==> 1 <= v <= 3 && (v == 3 <==> d.fast == 0)
  {
    if d.fast == 0 then 3 else d.slow
  }

  /** Lines 589-607: count `add_line` down, start a group above the top of
      the screen when it reaches 0 (and restart the count at 2), then add a
      stray particle when `lone` is 50. */
  function Added(r: Rain, h: int, d: Draws): (s: seq<Shape>)
    ensures |r.shapes| <= |s| <= |r.shapes| + 2 && s[..|r.shapes|] == r.shapes
  {
    var a := r.addLine - 1;
    var s1 := if a == 0 then r.shapes + [Stream(NewTrail(d.code, Speed(d), Column(d.column), -h))] else r.shapes;
    if d.lone == 50 then s1 + [Stray(Fresh(Column(d.strayColumn), d.strayRow * h, d.strayFrame, d.strayCode))]
    else s1
  }

  /** One pass of lines 589-612. */
  function Pass(r: Rain, h: int, d: Draws): (n: Rain)
    ensures r.addLine == 1 || r.addLine == 2 ==> n.addLine == 3 - r.addLine
    ensures |n.shapes| <= |r.shapes| + 2
  {
    var a := r.addLine - 1;
    Rain(if a == 0 then 2 else a, Loop(Added(r, h, d), 0, d.steps, StepAt(h), IsGone))
  }

  /** The countdown alternates between 1 and 2, so a group starts on every
      second pass, beginning with the first; the list before the sweep is
      the old list followed by the new group, if one starts, and then the
      stray particle, if one appears. */
  lemma PassAdds(r: Rain, h: int, d: Draws)
    requires r.addLine == 1 || r.addLine == 2
    ensures Pass(r, h, d).addLine == 3 - r.addLine
    ensures var s := Added(r, h, d);
      var n := |r.shapes| + (if r.addLine == 1 then 1 else 0);
      |s| == n + (if d.lone == 50 then 1 else 0) && s[..|r.shapes|] == r.shapes &&
      (r.addLine == 1 ==> s[|r.shapes|] == Stream(NewTrail(d.code, Speed(d), Column(d.column), -h))) &&
      (d.lone == 50 ==> s[n] == Stray(Fresh(Column(d.strayColumn), d.strayRow * h, d.strayFrame, d.strayCode)))
  {
  }

  /** The sweep of line 609 in terms of the original positions. */
  lemma PassSweep(r: Rain, h: int, d: Draws)
    ensures Pass(r, h, d).shapes == Visit(Added(r, h, d), 0, d.steps, StepAt(h), IsGone)
  {
    SweepIsVisit(Added(r, h, d), d.steps, StepAt(h), IsGone);
  }

  /** A column centre: `Column(k)` for some `k` in `1 .. last`. */
  predicate InColumn(x: int, last: int) {
    Column(1) <= x <= Column(last) && (x - Column(1)) % TextWidth == 0
  }

  /** A well-formed entry: a group is well formed and stacked, runs at
      speed 1 to 3 in one of the 24 columns; a stray particle is well
      formed, sits in one of the 25 columns and starts between one line
      down and one line below the bottom. */
  predicate ShapeOk(s: Shape, h: int)
    requires h > 0
  {
    match s
    case Stream(t) => TrailOk(t) && Stacked(t) && 1 <= t.speed <= 3 && InColumn(t.x, Width / TextWidth)
    case Stray(g) =>
      GlowOk(g) && InColumn(g.x, Width / TextWidth + 1) &&
      h <= g.y <= Height + h
  }

  /** Every entry of the list is well formed and not done. */
  predicate AllOk(s: seq<Shape>, h: int)
    requires h > 0
  {
    forall i :: 0 <= i < |s| ==> ShapeOk(s[i], h) && !IsGone(s[i])
  }

  /** The loop's invariant: the countdown is 1 or 2 and every entry is well
      formed and not done. */
  predicate RainOk(r: Rain, h: int)
    requires h > 0
  {
    (r.addLine == 1 || r.addLine == 2) && AllOk(r.shapes, h)
  }

  lemma AppendOk(s: seq<Shape>, x: Shape, h: int)
    requires h > 0 && AllOk(s, h) && ShapeOk(x, h) && !IsGone(x)
    ensures AllOk(s + [x], h)
  {
    forall i | 0 <= i < |s| + 1
      ensures ShapeOk((s + [x])[i], h) && !IsGone((s + [x])[i])
    {
      if i < |s| {
        assert (s + [x])[i] == s[i];
      }
    }
  }

  /** Dropping an entry keeps the rest well formed and alive. */
  lemma DropOk(s: seq<Shape>, i: nat, h: int)
    requires h > 0 && AllOk(s, h) && i < |s|
    ensures AllOk(s[..i] + s[i + 1..], h)
  {
    var t := s[..i] + s[i + 1..];
    assert forall j :: 0 <= j < |t| ==> t[j] == s[if j < i then j else j + 1];
  }

  /** Replacing an entry by a well-formed live one keeps the list so. */
  lemma UpdateOk(s: seq<Shape>, i: nat, y: Shape, h: int)
    requires h > 0 && AllOk(s, h) && i < |s| && ShapeOk(y, h) && !IsGone(y)
    ensures AllOk(s[i := y], h)
  {
  }

  lemma StartOk(h: int)
    requires h > 0
    ensures RainOk(Start, h)
  {
  }

  /** A step keeps a group well formed, stacked, at its speed and in its
      column. */
  lemma StreamStepOk(t: Trail, h: int, ks: nat -> Draw)
    requires h > 0 && ShapeOk(Stream(t), h)
    ensures ShapeOk(Stream(Tick(t, Height, h, ks)), h)
  {
    TickOk(t, Height, h, ks);
    TickStacked(t, Height, h, ks);
    TickCounters(t, Height, h, ks);
  }

  /** A step keeps a stray particle well formed and where it was. */
  lemma StrayStepOk(g: Glow, h: int, k: Draw)
    requires h > 0 && ShapeOk(Stray(g), h)
    ensures ShapeOk(Stray(Advance(g, k)), h)
  {
    AdvanceOk(g, k);
  }

  /** A step keeps an entry well formed. */
  lemma StepOk(s: Shape, h: int, ks: nat -> Draw)
    requires h > 0 && ShapeOk(s, h)
    ensures ShapeOk(ShapeStep(s, h, ks), h)
  {
    match s
    case Stream(t) =>
      StreamStepOk(t, h, ks);
    case Stray(g) =>
      StrayStepOk(g, h, ks(0));
  }

  /** Column `k` lies on the column grid. */
  lemma ColumnOnGrid(k: int, last: int)
    requires 1 <= k <= last
    ensures InColumn(Column(k), last)
  {
    assert Column(1) == 7 && Column(k) == 13 * k - 6;
  }

  /** Row `k` of text, for `k` in `1 .. Height / h + 1`, starts at least
      one line down and at most one line below the bottom. */
  lemma RowOnGrid(k: int, h: int)
    requires h > 0 && 1 <= k <= Height / h + 1
    ensures h <= k * h <= Height + h
  {
    var m := Height / h;
    assert m * h <= Height;
    assert (m + 1) * h - k * h == (m + 1 - k) * h;
    assert k * h - h == (k - 1) * h;
  }

  /** The group a pass may start is well formed and alive. */
  lemma NewStreamOk(h: int, d: Draws)
    requires h > 0 && 0 <= d.fast && 1 <= d.slow <= 2 && 1 <= d.column <= Width / TextWidth && |d.code| > 0
    ensures var s := Stream(NewTrail(d.code, Speed(d), Column(d.column), -h));
      ShapeOk(s, h) && !IsGone(s)
  {
    ColumnOnGrid(d.column, Width / TextWidth);
  }

  /** The stray particle a pass may add is well formed and alive. */
  lemma NewStrayOk(h: int, d: Draws)
    requires h > 0 && 1 <= d.strayColumn <= Width / TextWidth + 1 && 1 <= d.strayRow <= Height / h + 1
    requires 0 <= d.strayFrame <= |d.strayCode| - 1
    ensures var s := Stray(Fresh(Column(d.strayColumn), d.strayRow * h, d.strayFrame, d.strayCode));
      ShapeOk(s, h) && !IsGone(s)
  {
    ColumnOnGrid(d.strayColumn, Width / TextWidth + 1);
    RowOnGrid(d.strayRow, h);
  }

  /** The entries a pass adds are well formed and alive. */
  lemma AddedOk(r: Rain, h: int, d: Draws)
    requires h > 0 && RainOk(r, h) && DrawsOk(d, h)
    ensures AllOk(Added(r, h, d), h)
  {
    var s1 := r.shapes;
    if r.addLine == 1 {
      NewStreamOk(h, d);
      AppendOk(r.shapes, Stream(NewTrail(d.code, Speed(d), Column(d.column), -h)), h);
      s1 := r.shapes + [Stream(NewTrail(d.code, Speed(d), Column(d.column), -h))];
    }
    if d.lone == 50 {
      NewStrayOk(h, d);
      AppendOk(s1, Stray(Fresh(Column(d.strayColumn), d.strayRow * h, d.strayFrame, d.strayCode)), h);
    }
  }

  /** A pass keeps the loop's invariant, whatever the draws: the countdown
      stays 1 or 2, every group stays well formed and stacked in its
      column at its speed, and no finished group or dead stray particle is
      left in the list. */
  lemma PassOk(r: Rain, h: int, d: Draws)
    requires h > 0 && RainOk(r, h) && DrawsOk(d, h)
    ensures RainOk(Pass(r, h, d), h)
  {
    var s := Added(r, h, d);
    AddedOk(r, h, d);
    var P := (x: Shape) => ShapeOk(x, h);
    forall x: Shape, n: nat | P(x)
      ensures P(StepAt(h)(x, d.steps(n)))
    {
      StepOk(x, h, d.steps(n));
    }
    PassSweep(r, h, d);
    VisitKeeps(s, 0, d.steps, StepAt(h), IsGone, P);
  }

  /** An entry of the `groups` list: a group object or a stray particle. */
  datatype Sprite = Streamer(g: Group) | Loner(p: Particle)

  /** The objects an entry owns: the group and its particles, or the
      particle. */
  ghost function Objects(s: Sprite): set<object>
    reads if s.Streamer? then {s.g} else {}
  {
    match s
    case Streamer(g) => {g as object} + set p | p in g.parts :: p as object
    case Loner(p) => {p as object}
  }

  /** The state of an entry as a value. */
  function Value(s: Sprite): Shape
    reads Objects(s)
  {
    match s
    case Streamer(g) => Stream(g.Model())
    case Loner(p) => Stray(p.State())
  }

  /** The object the list itself holds. */
  function Head(s: Sprite): object {
    match s
    case Streamer(g) => g
    case Loner(p) => p
  }

  /** The flag line 611 tests. */
  function Done(s: Sprite): bool
    reads Head(s)
  {
    match s
    case Streamer(g) => g.dead
    case Loner(p) => p.dead
  }

  /** The entries of `ss` whose flag is set. */
  ghost function DoneOnes(ss: seq<Sprite>): set<Sprite>
    reads set s | s in ss :: Head(s)
  {
    set s | s in ss && Done(s)
  }

  /** The objects of every entry of `ss` are in `R`, and no two entries
      share one. */
  ghost predicate OwnedBy(ss: seq<Sprite>, R: set<object>)
    reads R
  {
    (forall i :: 0 <= i < |ss| && ss[i].Streamer? ==> ss[i].g in R) &&
    (forall i :: 0 <= i < |ss| ==> Objects(ss[i]) <= R) &&
    (forall i, j :: 0 <= i < j < |ss| ==> Objects(ss[i]) !! Objects(ss[j]))
  }

  /** The entries of `ss` as values. */
  function Values(ss: seq<Sprite>, R: set<object>): (r: seq<Shape>)
    requires OwnedBy(ss, R)
    reads R
    ensures |r| == |ss|
  {
    seq(|ss|, i requires 0 <= i < |ss| && OwnedBy(ss, R) reads R => Value(ss[i]))
  }

  /** Dropping entry `i` and its objects keeps the rest owned, with their
      values. */
  lemma DropOwned(ss: seq<Sprite>, R: set<object>, i: nat)
    requires OwnedBy(ss, R) && i < |ss|
    ensures OwnedBy(ss[..i] + ss[i + 1..], R - Objects(ss[i]))
    ensures Values(ss[..i] + ss[i + 1..], R - Objects(ss[i])) == Values(ss, R)[..i] + Values(ss, R)[i + 1..]
  {
    var ts := ss[..i] + ss[i + 1..];
    assert forall j :: 0 <= j < |ts| ==> ts[j] == ss[if j < i then j else j + 1];
  }

  /** Appending an entry whose objects are new keeps the list owned. */
  lemma AppendOwned(ss: seq<Sprite>, R: set<object>, s: Sprite)
    requires OwnedBy(ss, R) && Objects(s) !! R
    ensures OwnedBy(ss + [s], R + Objects(s))
    ensures Values(ss + [s], R + Objects(s)) == Values(ss, R) + [Value(s)]
  {
    var ts := ss + [s];
    assert forall j :: 0 <= j < |ss| ==> ts[j] == ss[j];
  }

  /** The screensaver loop's state (lines 576-612): the `add_line`
      countdown and the `groups` list, for text of height `lineHeight`. */
  class Saver {
    const lineHeight: int
    var addLine: int
    var sprites: seq<Sprite>
    ghost var Repr: set<object>

    /** The entries' objects belong to the saver and no two entries share
        one; the saver itself is none of them. */
    ghost predicate Owned()
      reads this`sprites, this`Repr, Repr
    {
      this !in Repr && OwnedBy(sprites, Repr)
    }

    /** The entries as values. */
    ghost function Shapes(): (r: seq<Shape>)
      requires Owned()
      reads this`sprites, this`Repr, Repr
      ensures |r| == |sprites|
    {
      Values(sprites, Repr)
    }

    ghost function State(): Rain
      requires Owned()
      reads this, Repr
    {
      Rain(addLine, Shapes())
    }

    /** Owned entries, and every group's particle list without repeats. */
    ghost predicate Held()
      reads this`sprites, this`Repr, Repr
    {
      lineHeight > 0 && Owned() &&
      forall i :: 0 <= i < |sprites| && sprites[i].Streamer? ==> Distinct(sprites[i].g.parts)
    }

    /** Held entries, all well formed and alive. */
    ghost predicate Sound()
      reads this`sprites, this`Repr, Repr
    {
      Held() && AllOk(Shapes(), lineHeight)
    }

    ghost predicate Valid()
      reads this, Repr
    {
      Sound() && (addLine == 1 || addLine == 2)
    }

    /** Lines 581-582: no entries, and a group is due on the first pass. */
    constructor (h: int)
      requires h > 0
      ensures Valid() && lineHeight == h && State() == Start
    {
      lineHeight := h;
      addLine := 1;
      sprites := [];
      Repr := {};
    }
  
    /** Appends an entry whose objects are not yet the saver's. */
    method Append(s: Sprite)
      requires Sound() && this !in Objects(s) && Objects(s) !! Repr
      requires ShapeOk(Value(s), lineHeight) && !IsGone(Value(s))
      requires s.Streamer? ==> Distinct(s.g.parts)
      modifies this`sprites, this`Repr
      ensures sprites == old(sprites) + [s] && Repr == old(Repr) + Objects(s)
      ensures Sound() && Shapes() == old(Shapes()) + [Value(s)]
    {
      ghost var before := Shapes();
      AppendOwned(sprites, Repr, s);
      sprites := sprites + [s];
      Repr := Repr + Objects(s);
      AppendOk(before, Value(s), lineHeight);
    }

    /** Lines 591-599: a new group at the top of column `d.column`. */
    method StartGroup(d: Draws) returns (s: Sprite)
      requires Sound() && 0 <= d.fast && 1 <= d.slow <= 2 && 1 <= d.column <= Width / TextWidth && |d.code| > 0
      modifies this`sprites, this`Repr
      ensures Sound() && Shapes() == old(Shapes()) + [Stream(NewTrail(d.code, Speed(d), Column(d.column), -lineHeight))]
      ensures sprites == old(sprites) + [s]
      ensures old(Repr) <= Repr && forall o :: o in Repr && o !in old(Repr) ==> fresh(o)
    {
      var speed := if d.fast == 0 then 3 else d.slow;
      var g := new Group(Column(d.column), -lineHeight, speed, d.code);
      NewStreamOk(lineHeight, d);
      s := Streamer(g);
      assert Value(s) == Stream(NewTrail(d.code, Speed(d), Column(d.column), -lineHeight));
      Append(s);
    }

    /** Lines 601-607: a stray particle at the drawn column and row. */
    method DropStray(d: Draws) returns (s: Sprite)
      requires Sound() && 1 <= d.strayColumn <= Width / TextWidth + 1 && 1 <= d.strayRow <= Height / lineHeight + 1
      requires 0 <= d.strayFrame <= |d.strayCode| - 1
      modifies this`sprites, this`Repr
      ensures Sound()
      ensures Shapes() == old(Shapes()) + [Stray(Fresh(Column(d.strayColumn), d.strayRow * lineHeight, d.strayFrame, d.strayCode))]
      ensures sprites == old(sprites) + [s]
      ensures old(Repr) <= Repr && forall o :: o in Repr && o !in old(Repr) ==> fresh(o)
    {
      var p := new Particle(Column(d.strayColumn), d.strayRow * lineHeight, d.strayFrame, d.strayCode);
      NewStrayOk(lineHeight, d);
      s := Loner(p);
      Append(s);
    }

    /** Lines 589-599: count down, and start a group when the count runs
        out, restarting it at 2. */
    method CountDown(d: Draws) returns (ghost born: seq<Sprite>)
      requires Valid() && 0 <= d.fast && 1 <= d.slow <= 2 && 1 <= d.column <= Width / TextWidth && |d.code| > 0
      modifies this`addLine, this`sprites, this`Repr
      ensures Valid() && addLine == 3 - old(addLine)
      ensures Shapes() == if old(addLine) == 1 then old(Shapes()) + [Stream(NewTrail(d.code, Speed(d), Column(d.column), -lineHeight))]
                          else old(Shapes())
      ensures sprites == old(sprites) + born && |born| <= 1
      ensures old(Repr) <= Repr && forall o :: o in Repr && o !in old(Repr) ==> fresh(o)
    {
      born := [];
      addLine := addLine - 1;
      if addLine == 0 {
        addLine := 2;
        var s := StartGroup(d);
        born := [s];
      }
    }

    /** Lines 589-607: the count down and the stray particle when `lone`
        is 50. */
    method AddSprites(d: Draws) returns (ghost born: seq<Sprite>)
      requires Valid() && DrawsOk(d, lineHeight)
      modifies this`addLine, this`sprites, this`Repr
      ensures Valid() && Shapes() == Added(old(State()), lineHeight, d)
      ensures addLine == Pass(old(State()), lineHeight, d).addLine
      ensures sprites == old(sprites) + born && |born| <= 2
      ensures old(Repr) <= Repr && forall o :: o in Repr && o !in old(Repr) ==> fresh(o)
    {
      born := CountDown(d);
      if d.lone == 50 {
        var s := DropStray(d);
        born := born + [s];
      }
    }

    /** Line 610 for a stray particle at index `i`. */
    method StepStray(i: nat, k: Draw)
      requires Held() && i < |sprites| && sprites[i].Loner?
      modifies sprites[i].p
      ensures Held() && Shapes() == old(Shapes())[i := Stray(Advance(old(Shapes())[i].g, k))]
    {
      ghost var before := Shapes();
      var p := sprites[i].p;
      p.Modernize(k);
      forall j | 0 <= j < |sprites| && j != i
        ensures Objects(sprites[j]) == old(Objects(sprites[j]))
      {
        assert p in old(Objects(sprites[i]));
      }
      assert Owned();
      forall j | 0 <= j < |sprites|
        ensures Shapes()[j] == before[i := Stray(Advance(before[i].g, k))][j]
      {
        if j != i {
          assert p !in Objects(sprites[j]);
        }
      }
    }

    /** `group.modernize` for the group at index `i`: afterwards the group
        owns only objects it owned before or new ones, and the saver owns
        them too. */
    method ModernizeGroup(i: nat, k: nat -> Draw)
      requires Held() && i < |sprites| && sprites[i].Streamer? && TrailOk(sprites[i].g.Model())
      modifies Objects(sprites[i]), this`Repr
      ensures sprites[i].g.Model() == Tick(old(sprites[i].g.Model()), Height, lineHeight, k)
      ensures Distinct(sprites[i].g.parts) && TrailOk(sprites[i].g.Model())
      ensures forall o :: o in Objects(sprites[i]) ==> o in old(Objects(sprites[i])) || fresh(o)
      ensures Repr == old(Repr) + Objects(sprites[i])
    {
      var g := sprites[i].g;
      var born := g.Modernize(Height, lineHeight, k);
      forall q | q in g.parts
        ensures q in old(g.parts) || q in born
      {
        WithoutMembers(old(g.parts) + born, DeadOnes(old(g.parts) + born), q);
      }
      Repr := Repr + Objects(sprites[i]);
    }

    /** Line 610 for a group at index `i`. */
    method StepGroup(i: nat, k: nat -> Draw)
      requires Held() && i < |sprites| && sprites[i].Streamer? && TrailOk(sprites[i].g.Model())
      modifies Objects(sprites[i]), this`Repr
      ensures Held() && sprites == old(sprites)
      ensures Shapes() == old(Shapes())[i := Stream(Tick(old(Shapes())[i].t, Height, lineHeight, k))]
      ensures old(Repr) <= Repr && forall o :: o in Repr && o !in old(Repr) ==> fresh(o)
    {
      ghost var before := Shapes();
      ghost var objs := Objects(sprites[i]);
      ModernizeGroup(i, k);
      forall j | 0 <= j < |sprites| && j != i
        ensures Objects(sprites[j]) == old(Objects(sprites[j]))
      {
        assert sprites[i].g in objs;
      }
      assert Owned();
      forall j | 0 <= j < |sprites|
        ensures Shapes()[j] == before[i := Stream(Tick(before[i].t, Height, lineHeight, k))][j]
      {
        if j != i {
          assert Objects(sprites[j]) !! objs;
        }
      }
    }

    /** No entry of a sound saver has its flag set. */
    lemma SoundLive()
      requires Sound()
      ensures forall s :: s in sprites ==> !Done(s)
    {
      forall s | s in sprites
        ensures !Done(s)
      {
        var j :| 0 <= j < |sprites| && sprites[j] == s;
        assert Shapes()[j] == Value(s);
      }
    }

    /** Owned entries are pairwise different objects. */
    lemma OwnedDistinct()
      requires Owned()
      ensures Distinct(sprites)
    {
      forall i, j | 0 <= i < j < |sprites|
        ensures sprites[i] != sprites[j]
      {
        assert Head(sprites[i]) in Objects(sprites[i]);
      }
    }

    /** Line 612: `groups.remove` of the entry at index `i`, which the
        saver then no longer owns. */
    method RemoveSprite(i: nat)
      requires Held() && i < |sprites|
      modifies this`sprites, this`Repr
      ensures sprites == old(sprites[..i] + sprites[i + 1..]) && Repr == old(Repr - Objects(sprites[i]))
      ensures Held() && Shapes() == old(Shapes()[..i] + Shapes()[i + 1..])
    {
      OwnedDistinct();
      DropOwned(sprites, Repr, i);
      RemoveFirstAt(sprites, i);
      Repr := Repr - Objects(sprites[i]);
      sprites := RemoveFirst(sprites, sprites[i]);
    }

    /** Line 610: entry `i` takes one step with the draws `k`. */
    method StepSprite(i: nat, k: nat -> Draw)
      requires Sound() && i < |sprites|
      modifies this`Repr, Objects(sprites[i])
      ensures Held() && sprites == old(sprites)
      ensures Shapes() == old(Shapes())[i := ShapeStep(old(Shapes())[i], lineHeight, k)]
      ensures Done(sprites[i]) == IsGone(Shapes()[i])
      ensures forall o :: o in Repr && o !in old(Repr) ==> fresh(o)
    {
      assert Shapes()[i] == Value(sprites[i]);
      assert ShapeOk(Shapes()[i], lineHeight);
      if sprites[i].Streamer? {
        StepGroup(i, k);
      } else {
        StepStray(i, k(0));
      }
      assert Shapes()[i] == Value(sprites[i]);
    }

    /** Lines 611-612 for the done entry at index `i`, which is then marked
        removed. */
    method DropSprite(i: nat, ghost all: seq<Sprite>, ghost removed: set<Sprite>) returns (ghost removed': set<Sprite>)
      requires Held() && i < |sprites| && Done(sprites[i]) && Distinct(all) && sprites == Without(all, removed)
      requires forall s :: s in removed ==> s in all && Done(s) && Head(s) !in Repr
      modifies this`sprites, this`Repr
      ensures Held() && Shapes() == old(Shapes()[..i] + Shapes()[i + 1..])
      ensures sprites == Without(all, removed') && |sprites| == old(|sprites|) - 1
      ensures forall s :: s in removed' ==> s in all && Done(s) && Head(s) !in Repr
      ensures Repr <= old(Repr)
    {
      var sp := sprites[i];
      WithoutMembers(all, removed, sp);
      WithoutRemove(all, removed, i);
      assert Head(sp) in Objects(sp);
      RemoveSprite(i);
      removed' := removed + {sp};
    }

    /** One iteration of lines 609-612 at index `i`: the entries left are
        the entries of `all` not marked removed, every removed entry is
        done and no longer the saver's, and the sweep goes on from the next
        index as it would have from this one. */
    method SweepOne(i: nat, ks: nat -> nat -> Draw, ghost all: seq<Sprite>, ghost removed: set<Sprite>)
      returns (ghost removed': set<Sprite>)
      requires Sound() && i < |sprites| && Distinct(all) && sprites == Without(all, removed)
      requires forall s :: s in removed ==> s in all && Done(s) && Head(s) !in Repr
      modifies this`sprites, this`Repr, Objects(sprites[i])
      ensures Sound() && sprites == Without(all, removed')
      ensures |sprites| == old(|sprites|) || |sprites| == old(|sprites|) - 1
      ensures forall s :: s in removed' ==> s in all && Done(s) && Head(s) !in Repr
      ensures forall o :: o in Repr && o !in old(Repr) ==> fresh(o)
      ensures Loop(Shapes(), i + 1, ks, StepAt(lineHeight), IsGone) == Loop(old(Shapes()), i, ks, StepAt(lineHeight), IsGone)
    {
      removed' := removed;
      ghost var sh := Shapes();
      ghost var y := ShapeStep(sh[i], lineHeight, ks(i));
      var sp := sprites[i];
      WithoutMembers(all, removed, sp);
      StepOk(sh[i], lineHeight, ks(i));
      assert forall s :: s in removed ==> Head(s) !in Objects(sp);
      StepSprite(i, ks(i));
      assert forall s :: s in removed ==> Done(s) && Head(s) !in Repr;
      if Done(sp) {
        removed' := DropSprite(i, all, removed);
        DropOk(sh, i, lineHeight);
        assert sh[i := y][..i] + sh[i := y][i + 1..] == sh[..i] + sh[i + 1..];
        assert Loop(sh, i, ks, StepAt(lineHeight), IsGone) == Loop(sh[..i] + sh[i + 1..], i + 1, ks, StepAt(lineHeight), IsGone);
      } else {
        UpdateOk(sh, i, y, lineHeight);
        assert Loop(sh, i, ks, StepAt(lineHeight), IsGone) == Loop(sh[i := y], i + 1, ks, StepAt(lineHeight), IsGone);
      }
    }

    /** Lines 609-612: every entry takes its step, and an entry that is
        then done is removed from the list being walked, so that the entry
        after it is not visited on this pass. */
    method SweepSprites(ks: nat -> nat -> Draw) returns (ghost removed: set<Sprite>)
      requires Sound()
      modifies this`sprites, this`Repr, Repr
      ensures Sound() && sprites == Without(old(sprites), removed)
      ensures removed == DoneOnes(old(sprites))
      ensures forall o :: o in Repr && o !in old(Repr) ==> fresh(o)
      ensures Shapes() == Loop(old(Shapes()), 0, ks, StepAt(lineHeight), IsGone)
    {
      ghost var all := sprites;
      OwnedDistinct();
      removed := {};
      WithoutNone(all);
      var i := 0;
      while i < |sprites|
        invariant 0 <= i <= |sprites| + 1
        invariant Sound() && sprites == Without(all, removed)
        invariant forall s :: s in removed ==> s in all && Done(s) && Head(s) !in Repr
        invariant forall o :: o in Repr && o !in old(Repr) ==> fresh(o)
        invariant Loop(Shapes(), i, ks, StepAt(lineHeight), IsGone) == Loop(old(Shapes()), 0, ks, StepAt(lineHeight), IsGone)
        decreases |sprites| + 1 - i
      {
        assert Objects(sprites[i]) <= Repr;
        removed := SweepOne(i, ks, all, removed);
        i := i + 1;
      }
      SoundLive();
      forall s | s in all && Done(s)
        ensures s in removed
      {
        WithoutMembers(all, removed, s);
      }
    }

    /** Lines 589-612: one pass of the screensaver's drawing loop. The new
        state is the one `Pass` gives, and the entries are the old ones and
        the new ones less those that came out done. */
    method Animate(d: Draws) returns (ghost born: seq<Sprite>, ghost removed: set<Sprite>)
      requires Valid() && DrawsOk(d, lineHeight)
      modifies this, Repr
      ensures Valid() && State() == Pass(old(State()), lineHeight, d)
      ensures sprites == Without(old(sprites) + born, removed) && removed == DoneOnes(old(sprites) + born)
      ensures |born| <= 2
      ensures forall o :: o in Repr && o !in old(Repr) ==> fresh(o)
    {
      born := AddSprites(d);
      removed := SweepSprites(d.steps);
    }
  }
}
