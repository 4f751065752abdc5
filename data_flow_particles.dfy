/**
 * components/DataFlowBackground.jsx: a pool of 180 falling glyphs ("0",
 * "1" and JSON fragments) in three speed layers. A glyph falls a little
 * every frame, is pulled toward a nearby pointer, and is put back above the
 * top edge once it passes the bottom. Drawing is left out.
 */
module DataFlowParticles {
  import opened Wrappers
  import opened Draws

  /** The canvas element; resizeCanvas sets its size to the window's. */
  class Canvas {
    var width: nat
    var height: nat

    constructor(innerWidth: nat, innerHeight: nat)
      ensures width == innerWidth && height == innerHeight
    {
      width := innerWidth;
      height := innerHeight;
    }

    method Resize(innerWidth: nat, innerHeight: nat)
      modifies this
      ensures width == innerWidth && height == innerHeight
    {
      width := innerWidth;
      height := innerHeight;
    }
  }

  /**
   * The scroll speed of a scroll event: the distance scrolled since the last
   * event, with no upper bound.
   */
  function ScrollDistance(scrollY: real, lastScrollY: real): (speed: real)
    ensures speed >= 0.0
    ensures speed == 0.0 <==> scrollY == lastScrollY
  {
    if scrollY >= lastScrollY then scrollY - lastScrollY else lastScrollY - scrollY
  }

  /** The state the window listeners share: pointer position and scroll speed. */
  class Listeners {
    var mouseX: Option<real>
    var mouseY: Option<real>
    var scrollSpeed: real
    var lastScrollY: real

    ghost predicate Valid()
      reads this
    {
      scrollSpeed >= 0.0
    }

    constructor(scrollY: real)
      ensures Valid()
      ensures mouseX == None && mouseY == None && scrollSpeed == 0.0 && lastScrollY == scrollY
    {
      mouseX, mouseY := None, None;
      scrollSpeed, lastScrollY := 0.0, scrollY;
    }

    /** mousemove: the pointer is at the event's client coordinates. */
    method MouseMove(clientX: real, clientY: real)
      modifies this`mouseX, this`mouseY
      ensures mouseX == Some(clientX) && mouseY == Some(clientY)
    {
      mouseX, mouseY := Some(clientX), Some(clientY);
    }

    /** mouseout: the pointer is forgotten. */
    method MouseOut()
      modifies this`mouseX, this`mouseY
      ensures mouseX == None && mouseY == None
    {
      mouseX, mouseY := None, None;
    }

    /** scroll: the speed becomes the distance scrolled; the position is remembered. */
    method Scroll(scrollY: real)
      modifies this`scrollSpeed, this`lastScrollY
      ensures Valid()
      ensures scrollSpeed == ScrollDistance(scrollY, old(lastScrollY)) && lastScrollY == scrollY
    {
      scrollSpeed := ScrollDistance(scrollY, lastScrollY);
      lastScrollY := scrollY;
    }

    /** The timer 50 ms after a scroll event: the speed drops to 85%. */
    method DecayScroll()
      requires Valid()
      modifies this`scrollSpeed
      ensures Valid()
      ensures scrollSpeed == old(scrollSpeed) * 0.85 && scrollSpeed <= old(scrollSpeed)
    {
      scrollSpeed := scrollSpeed * 0.85;
    }
  }

  datatype Kind = Binary | Json

  const JsonSnippets: seq<string> := ["{", "}", "[]", "\"key\":", "\"value\"", "null", "true", "false", ":", ","]

  /** getRandomJSON: the snippet at floor(r * 10), so always one of the ten. */
  function GetRandomJSON(r: real): (s: string)
    requires 0.0 <= r < 1.0
    ensures s in JsonSnippets
  {
    JsonSnippets[(r * 10.0).Floor]
  }

  /** speedFactor by layer: 0.8 for layer 1, 1 for layer 2, 1.2 otherwise. */
  function SpeedFactor(layer: nat): (f: real)
    ensures 0.8 <= f <= 1.2
  {
    if layer == 1 then 0.8 else if layer == 2 then 1.0 else 1.2
  }

  /** The font size by layer: 14, 12, or 10. */
  function Size(layer: nat): (s: nat)
    ensures 10 <= s <= 14
  {
    if layer == 1 then 14 else if layer == 2 then 12 else 10
  }

  /** Where reset puts a particle. */
  datatype Placement = Placement(x: real, y: real, speed: real, opacity: real)

  /**
   * reset, from the four draws starting at cursor: x across the width, y in
   * the band of one canvas height above the top edge, speed in [1, 4),
   * opacity in [0.1, 0.8).
   */
  function Place(draws: nat -> real, cursor: nat, width: nat, height: nat): (p: Placement)
    requires UnitDraws(draws)
    ensures 0.0 <= p.x && (width > 0 ==> p.x < width as real)
    ensures -(height as real) <= p.y <= 0.0 && (height > 0 ==> p.y < 0.0)
    ensures 1.0 <= p.speed < 4.0
    ensures 0.1 <= p.opacity < 0.8
  {
    var w, h := width as real, height as real;
    var rx, ry := draws(cursor), draws(cursor + 1);
    var rs, ro := draws(cursor + 2), draws(cursor + 3);
    var x, y := rx * w, ry * h - h;
    DrawScaled(rx, w, x);
    DrawBand(ry, h, y);
    assert height > 0 ==> h > 0.0;
    Placement(x, y, 1.0 + rs * 3.0, 0.1 + ro * 0.7)
  }

  lemma DrawScaled(r: real, extent: real, v: real)
    requires 0.0 <= r < 1.0 && 0.0 <= extent && v == r * extent
    ensures 0.0 <= v <= extent
    ensures extent > 0.0 ==> v < extent
  {
    var rest := 1.0 - r;
    assert extent - v == rest * extent;
    ProductSign(r, extent, v);
    ProductSign(rest, extent, extent - v);
  }

  lemma ProductSign(a: real, b: real, p: real)
    requires 0.0 <= a && 0.0 <= b && p == a * b
    ensures 0.0 <= p
    ensures 0.0 < a && 0.0 < b ==> 0.0 < p
  {
  }

  lemma DrawBand(r: real, extent: real, v: real)
    requires 0.0 <= r < 1.0 && 0.0 <= extent && v == r * extent - extent
    ensures -extent <= v <= 0.0
    ensures extent > 0.0 ==> v < 0.0
  {
    DrawScaled(r, extent, v + extent);
  }

  /** `mouseX && mouseY`: both defined and neither 0. */
  predicate PointerPresent(mouseX: Option<real>, mouseY: Option<real>) {
    mouseX.Some? && mouseY.Some? && mouseX.value != 0.0 && mouseY.value != 0.0
  }

  /**
   * The pull of update toward the pointer: none unless the pointer is
   * present and nearer than 150; otherwise 2 * (150 - distance) / 150 along
   * the direction to the pointer, where atan2(0, 0) = 0 makes a pointer
   * exactly on the particle push it 2 to the right.
   */
  function Attraction(x: real, y: real, mouseX: Option<real>, mouseY: Option<real>, sqrt: real -> real)
    : (pull: Option<(real, real)>)
    requires IsSqrt(sqrt)
    ensures !PointerPresent(mouseX, mouseY) ==> pull == None
    ensures PointerPresent(mouseX, mouseY) ==>
      var dx := mouseX.value - x;
      var dy := mouseY.value - y;
      (dx * dx + dy * dy >= 22500.0 ==> pull == None)
      && (dx == 0.0 && dy == 0.0 ==> pull == Some((2.0, 0.0)))
      && (0.0 < dx * dx + dy * dy < 22500.0 ==>
            pull.Some?
            && (pull.value.0 > 0.0 <==> dx > 0.0) && (pull.value.0 < 0.0 <==> dx < 0.0)
            && (pull.value.1 > 0.0 <==> dy > 0.0) && (pull.value.1 < 0.0 <==> dy < 0.0))
  {
    if PointerPresent(mouseX, mouseY) then
      var dx := mouseX.value - x;
      var dy := mouseY.value - y;
      DistanceFacts(sqrt, dx, dy);
      var distance := sqrt(dx * dx + dy * dy);
      if distance < 150.0 then
        var force := (150.0 - distance) / 150.0;
        SquareBelow(distance, 150.0);
        assert force > 0.0;
        if distance > 0.0 then
          SquareBelow(0.0, distance);
          Toward(dx, distance, force * 2.0);
          Toward(dy, distance, force * 2.0);
          Some((dx / distance * force * 2.0, dy / distance * force * 2.0))
        else
          assert dx == 0.0 && dy == 0.0 && force == 1.0;
          Some((force * 2.0, 0.0))
      else
        SquareAtLeast(distance, 150.0);
        None
    else
      None
  }

  /** The base fall of one frame: always at least 0.8. */
  function Fall(speed: real, speedFactor: real, scrollSpeed: real): (d: real)
    requires 1.0 <= speed && 0.8 <= speedFactor && 0.0 <= scrollSpeed
    ensures d >= 0.8
  {
    var boost := 1.0 + scrollSpeed / 50.0;
    assert speed * speedFactor >= 0.8;
    assert speed * speedFactor * boost >= speed * speedFactor;
    speed * speedFactor * boost
  }

  /** The opacity after an attraction: up by 0.02, never above 1. */
  function Brighten(opacity: real): (r: real)
    ensures r <= 1.0
    ensures opacity <= 1.0 ==> opacity <= r
    ensures opacity <= 0.98 ==> r == opacity + 0.02
  {
    if opacity + 0.02 < 1.0 then opacity + 0.02 else 1.0
  }

  /**
   * The movement half of update, before the bottom-edge check: fall by
   * Fall, then follow the pointer's pull and brighten. The speed is kept; with
   * no pull the particle moves straight down.
   */
  function Moved(p: Placement, speedFactor: real, scrollSpeed: real,
                 mouseX: Option<real>, mouseY: Option<real>, sqrt: real -> real): (q: Placement)
    requires 1.0 <= p.speed && 0.8 <= speedFactor && 0.0 <= scrollSpeed && IsSqrt(sqrt)
    ensures q.speed == p.speed
    ensures var fallen := p.y + Fall(p.speed, speedFactor, scrollSpeed);
      match Attraction(p.x, fallen, mouseX, mouseY, sqrt)
      case None => q.x == p.x && q.y == fallen && q.y > p.y && q.opacity == p.opacity
      case Some(pull) => q.x == p.x + pull.0 && q.y == fallen + pull.1 && q.opacity == Brighten(p.opacity)
    ensures p.opacity <= 1.0 ==> p.opacity <= q.opacity <= 1.0
  {
    var fallen := p.y + Fall(p.speed, speedFactor, scrollSpeed);
    match Attraction(p.x, fallen, mouseX, mouseY, sqrt)
    case None => p.(y := fallen)
    case Some(pull) => p.(x := p.x + pull.0, y := fallen + pull.1, opacity := Brighten(p.opacity))
  }

  /**
   * What one update leaves of a particle that stood at `before`: the move of
   * Moved, or, when that move ends below the bottom edge, a placement from
   * draws taken at some cursor from lo on.
   */
  ghost predicate UpdatedFrom(before: Placement, after: Placement, speedFactor: real, scrollSpeed: real,
                              mouseX: Option<real>, mouseY: Option<real>, sqrt: real -> real,
                              draws: nat -> real, width: nat, height: nat, lo: nat)
  {
    1.0 <= before.speed && 0.8 <= speedFactor && 0.0 <= scrollSpeed && IsSqrt(sqrt) && UnitDraws(draws)
    && var moved := Moved(before, speedFactor, scrollSpeed, mouseX, mouseY, sqrt);
    if moved.y > height as real then
      exists c :: lo <= c && after == Place(draws, c, width, height)
    else
      after == moved
  }

  class Particle {
    var x: real
    var y: real
    var speed: real
    var opacity: real
    var layer: nat
    var speedFactor: real
    var kind: Kind
    var text: string
    var size: nat
    const canvas: Canvas

    /** The four fields reset draws and update moves. */
    function At(): Placement
      reads this`x, this`y, this`speed, this`opacity
    {
      Placement(x, y, speed, opacity)
    }

    /** What update never changes: layer, speed factor, kind, text and size. */
    function Traits(): (nat, real, Kind, string, nat)
      reads this`layer, this`speedFactor, this`kind, this`text, this`size
    {
      (layer, speedFactor, kind, text, size)
    }

    ghost predicate Valid()
      reads this
    {
      1.0 <= speed < 4.0
      && 0.1 <= opacity <= 1.0
      && speedFactor == SpeedFactor(layer)
      && size == Size(layer)
      && (kind == Binary ==> text == "0" || text == "1")
      && (kind == Json ==> text in JsonSnippets)
    }

    /**
     * new Particle(layer): reset from draws cursor..cursor+3, then the kind
     * from draw cursor+4 and the text from draw cursor+5.
     */
    constructor(layer: nat, canvas: Canvas, draws: nat -> real, cursor: nat)
      requires UnitDraws(draws)
      ensures Valid()
      ensures this.layer == layer && this.canvas == canvas
      ensures Placement(x, y, speed, opacity) == Place(draws, cursor, canvas.width, canvas.height)
      ensures speedFactor == SpeedFactor(layer) && size == Size(layer)
      ensures kind == (if draws(cursor + 4) > 0.5 then Binary else Json)
      ensures kind == Binary ==> text == (if draws(cursor + 5) > 0.5 then "0" else "1")
      ensures kind == Json ==> text == GetRandomJSON(draws(cursor + 5))
    {
      this.canvas := canvas;
      new;
      Reset(draws, cursor);
      this.layer := layer;
      speedFactor := SpeedFactor(layer);
      kind := if draws(cursor + 4) > 0.5 then Binary else Json;
      text := if kind == Binary then (if draws(cursor + 5) > 0.5 then "0" else "1")
              else GetRandomJSON(draws(cursor + 5));
      size := Size(layer);
    }

    /** reset: a new placement from the four draws starting at cursor; nothing else changes. */
    method Reset(draws: nat -> real, cursor: nat)
      requires UnitDraws(draws)
      modifies this`x, this`y, this`speed, this`opacity
      ensures Placement(x, y, speed, opacity) == Place(draws, cursor, canvas.width, canvas.height)
    {
      var p := Place(draws, cursor, canvas.width, canvas.height);
      x := p.x;
      y := p.y;
      speed := p.speed;
      opacity := p.opacity;
    }

    /**
     * update: the move of Moved, then a reset from the four draws at cursor
     * if the particle ends below the bottom edge.
     */
    method Update(scrollSpeed: real, mouseX: Option<real>, mouseY: Option<real>, sqrt: real -> real,
                  draws: nat -> real, cursor: nat)
      returns (wasReset: bool, next: nat)
      requires Valid()
      requires 0.0 <= scrollSpeed && IsSqrt(sqrt) && UnitDraws(draws)
      modifies this`x, this`y, this`speed, this`opacity
      ensures Valid()
      ensures y <= canvas.height as real
      ensures var moved := Moved(old(Placement(x, y, speed, opacity)), speedFactor, scrollSpeed, mouseX, mouseY, sqrt);
        (wasReset <==> moved.y > canvas.height as real)
        && (wasReset ==> Placement(x, y, speed, opacity) == Place(draws, cursor, canvas.width, canvas.height)
                         && next == cursor + 4)
        && (!wasReset ==> Placement(x, y, speed, opacity) == moved && next == cursor)
    {
      var moved := Moved(Placement(x, y, speed, opacity), speedFactor, scrollSpeed, mouseX, mouseY, sqrt);
      x, y, opacity := moved.x, moved.y, moved.opacity;
      wasReset := y > canvas.height as real;
      next := cursor;
      if wasReset {
        Reset(draws, cursor);
        next := cursor + 4;
      }
    }
  }

  /** A pointer on the left or top edge (coordinate 0) pulls nothing. */
  lemma PointerAtZeroIgnored(x: real, y: real, mouseX: Option<real>, mouseY: Option<real>, sqrt: real -> real)
    requires IsSqrt(sqrt)
    requires mouseX == Some(0.0) || mouseY == Some(0.0)
    ensures Attraction(x, y, mouseX, mouseY, sqrt) == None
  {
  }

  /** The layer of the k-th particle createParticles makes: 50 of layer 1, 80 of layer 2, 50 of layer 3. */
  function LayerOf(k: nat): (layer: nat)
    ensures 1 <= layer <= 3
    ensures layer == 1 <==> k < 50
    ensures layer == 3 <==> 130 <= k
  {
    if k < 50 then 1 else if k < 130 then 2 else 3
  }

  /** The particle pool and the loop that animates it. */
  class ParticleField {
    const canvas: Canvas
    var particles: seq<Particle>

    ghost predicate Valid()
      reads this, particles
    {
      (forall p :: p in particles ==> p.canvas == canvas && p.Valid())
      && (forall j, k :: 0 <= j < k < |particles| ==> particles[j] != particles[k])
    }

    constructor(canvas: Canvas)
      ensures Valid() && this.canvas == canvas && particles == []
    {
      this.canvas := canvas;
      particles := [];
    }

    /** `particles.push(new Particle(layer))`, drawing from cursor on. */
    method AddParticle(layer: nat, draws: nat -> real, cursor: nat)
      requires Valid() && UnitDraws(draws)
      modifies this
      ensures Valid()
      ensures |particles| == |old(particles)| + 1 && particles[..|old(particles)|] == old(particles)
      ensures fresh(particles[|old(particles)|]) && particles[|old(particles)|].layer == layer
    {
      var p := new Particle(layer, canvas, draws, cursor);
      particles := particles + [p];
    }

    /**
     * createParticles: 50 particles of layer 1, 80 of layer 2 and 50 of
     * layer 3, appended in that order, each taking six draws.
     */
    method CreateParticles(draws: nat -> real, cursor: nat) returns (next: nat)
      requires Valid() && UnitDraws(draws)
      modifies this
      ensures Valid()
      ensures |particles| == |old(particles)| + 180
      ensures particles[..|old(particles)|] == old(particles)
      ensures forall k :: |old(particles)| <= k < |particles| ==>
        fresh(particles[k]) && particles[k].layer == LayerOf(k - |old(particles)|)
      ensures next == cursor + 180 * 6
    {
      next := cursor;
      ghost var before := |particles|;
      var i := 0;
      while i < 50
        invariant 0 <= i <= 50 && |particles| == before + i && next == cursor + 6 * i
        invariant particles[..before] == old(particles)
        invariant Valid()
        invariant forall k :: before <= k < |particles| ==> fresh(particles[k]) && particles[k].layer == LayerOf(k - before)
      {
        AddParticle(1, draws, next);
        next := next + 6;
        i := i + 1;
      }
      i := 0;
      while i < 80
        invariant 0 <= i <= 80 && |particles| == before + 50 + i && next == cursor + 6 * (50 + i)
        invariant particles[..before] == old(particles)
        invariant Valid()
        invariant forall k :: before <= k < |particles| ==> fresh(particles[k]) && particles[k].layer == LayerOf(k - before)
      {
        AddParticle(2, draws, next);
        next := next + 6;
        i := i + 1;
      }
      i := 0;
      while i < 50
        invariant 0 <= i <= 50 && |particles| == before + 130 + i && next == cursor + 6 * (130 + i)
        invariant particles[..before] == old(particles)
        invariant Valid()
        invariant forall k :: before <= k < |particles| ==> fresh(particles[k]) && particles[k].layer == LayerOf(k - before)
      {
        AddParticle(3, draws, next);
        next := next + 6;
        i := i + 1;
      }
    }

    /** The update of particle p = particles[i] within a frame, drawing from cursor on; no other particle changes. */
    method UpdateOne(p: Particle, i: nat, scrollSpeed: real, mouseX: Option<real>, mouseY: Option<real>,
                     sqrt: real -> real, draws: nat -> real, cursor: nat)
      returns (next: nat)
      requires Valid() && i < |particles| && p == particles[i]
      requires 0.0 <= scrollSpeed && IsSqrt(sqrt) && UnitDraws(draws)
      modifies p`x, p`y, p`speed, p`opacity
      ensures Valid()
      ensures UpdatedFrom(old(p.At()), p.At(), p.speedFactor, scrollSpeed,
                          mouseX, mouseY, sqrt, draws, canvas.width, canvas.height, cursor)
      ensures p.y <= canvas.height as real
      ensures forall k :: 0 <= k < |particles| && k != i ==> particles[k].At() == old(particles[k].At())
      ensures forall k :: 0 <= k < |particles| ==> particles[k].Traits() == old(particles[k].Traits())
      ensures next >= cursor
    {
      assert p in particles;
      forall k | 0 <= k < |particles| && k != i
        ensures particles[k] != p
      {
      }
      ghost var before := p.At();
      var wasReset;
      wasReset, next := p.Update(scrollSpeed, mouseX, mouseY, sqrt, draws, cursor);
      UpdateStep(before, p.At(), p.speedFactor, scrollSpeed, mouseX, mouseY, sqrt, draws,
                 canvas.width, canvas.height, wasReset, cursor, next);
    }

    /**
     * One frame of animate: every particle is updated once, in order. None
     * is removed or added; each ends where UpdatedFrom says, at or above the
     * bottom edge, and keeps its Traits.
     */
    method Animate(scrollSpeed: real, mouseX: Option<real>, mouseY: Option<real>, sqrt: real -> real,
                   draws: nat -> real, cursor: nat)
      returns (next: nat)
      requires Valid()
      requires 0.0 <= scrollSpeed && IsSqrt(sqrt) && UnitDraws(draws)
      modifies particles
      ensures Valid()
      ensures particles == old(particles)
      ensures forall k :: 0 <= k < |particles| ==>
        UpdatedFrom(old(particles[k].At()), particles[k].At(), particles[k].speedFactor, scrollSpeed,
                    mouseX, mouseY, sqrt, draws, canvas.width, canvas.height, cursor)
      ensures forall k :: 0 <= k < |particles| ==> particles[k].y <= canvas.height as real
      ensures forall k :: 0 <= k < |particles| ==> particles[k].Traits() == old(particles[k].Traits())
      ensures next >= cursor
    {
      next := cursor;
      var i := 0;
      ghost var done: seq<Placement> := [];
      while i < |particles|
        invariant 0 <= i <= |particles| && |done| == i
        invariant Valid()
        invariant next >= cursor
        invariant forall k :: 0 <= k < i ==> particles[k].At() == done[k] && done[k].y <= canvas.height as real
        invariant forall k :: 0 <= k < i ==>
          UpdatedFrom(old(particles[k].At()), done[k], old(particles[k].speedFactor), scrollSpeed,
                      mouseX, mouseY, sqrt, draws, canvas.width, canvas.height, cursor)
        invariant forall k :: i <= k < |particles| ==> particles[k].At() == old(particles[k].At())
        invariant forall k :: 0 <= k < |particles| ==> particles[k].Traits() == old(particles[k].Traits())
      {
        var lo := next;
        next := UpdateOne(particles[i], i, scrollSpeed, mouseX, mouseY, sqrt, draws, lo);
        done := done + [particles[i].At()];
        i := i + 1;
      }
    }
  }

  /** What Particle.Update ensures, read as one UpdatedFrom step drawing from lo on. */
  lemma UpdateStep(before: Placement, after: Placement, speedFactor: real, scrollSpeed: real,
                   mouseX: Option<real>, mouseY: Option<real>, sqrt: real -> real,
                   draws: nat -> real, width: nat, height: nat, wasReset: bool, lo: nat, next: nat)
    requires 1.0 <= before.speed && 0.8 <= speedFactor && 0.0 <= scrollSpeed && IsSqrt(sqrt) && UnitDraws(draws)
    requires var moved := Moved(before, speedFactor, scrollSpeed, mouseX, mouseY, sqrt);
      (wasReset <==> moved.y > height as real)
      && (wasReset ==> after == Place(draws, lo, width, height) && next == lo + 4)
      && (!wasReset ==> after == moved && next == lo)
    ensures UpdatedFrom(before, after, speedFactor, scrollSpeed, mouseX, mouseY, sqrt, draws, width, height, lo)
  {
    if wasReset {
      assert lo <= lo;
    }
  }

}
