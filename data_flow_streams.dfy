/**
 * components/DataFlowBackground.tsx: the canvas background of 24 polyline
 * streams in three layers. Modelled here: the construction of the streams,
 * the scroll-speed clamp, the per-frame turbulence update, the pointer
 * influence and the index arithmetic of the segment and particle loops.
 * Drawing, sin, cos and the colour work are left out.
 */
module DataFlowStreams {
  import opened Wrappers
  import opened Draws

  datatype Point = Point(x: real, y: real)

  datatype DataStream = DataStream(
    points: seq<Point>,
    width: real,
    speed: real,
    color: string,
    offset: real,
    direction: int,
    layer: nat)

  datatype LayerConfig = LayerConfig(count: nat, speed: real, color: string)

  /** The three layers: 8 fast green, 10 purple, 6 dark streams. */
  const Layers: seq<LayerConfig> := [
    LayerConfig(8, 0.8, "#00FF9D"),
    LayerConfig(10, 1.0, "#7B2FFF"),
    LayerConfig(6, 1.2, "#2A0F47")
  ]

  /** The number of streams built before layer l. */
  function StreamsBefore(l: nat): nat
    requires l <= 3
  {
    if l == 0 then 0 else StreamsBefore(l - 1) + Layers[l - 1].count
  }

  /** The layer of the k-th stream built. */
  function LayerOf(k: nat): nat {
    if k < 8 then 0 else if k < 18 then 1 else 2
  }

  function SquaredDistance(p: Point, q: Point): real {
    (q.x - p.x) * (q.x - p.x) + (q.y - p.y) * (q.y - p.y)
  }

  /**
   * The step from one point to the next, (cos(angle) * distance,
   * sin(angle) * distance) for the angle drawn: all this model keeps of it
   * is that its length is the distance.
   */
  ghost predicate IsTurn(turn: (real, real) -> Point) {
    forall angleDraw: real, distance: real ::
      turn(angleDraw, distance).x * turn(angleDraw, distance).x
      + turn(angleDraw, distance).y * turn(angleDraw, distance).y == distance * distance
  }

  /** What every stream built for the k-th position satisfies. */
  ghost predicate WellFormedStream(s: DataStream, k: nat, width: real, height: real) {
    s.layer == LayerOf(k) && s.layer < 3
    && s.speed == Layers[s.layer].speed && s.color == Layers[s.layer].color
    && 5 <= |s.points| <= 8
    && (s.direction == 1 || s.direction == -1)
    && 0.5 <= s.width < 2.0
    && 0.0 <= s.offset < 100.0
    && 0.0 <= s.points[0].x < width && 0.0 <= s.points[0].y < height
    && forall j :: 0 <= j < |s.points| - 1 ==>
         2500.0 <= SquaredDistance(s.points[j], s.points[j + 1]) < 22500.0
  }

  lemma SquareBounds(d: real)
    requires 50.0 <= d < 150.0
    ensures 2500.0 <= d * d < 22500.0
  {
    assert d * d >= 50.0 * d >= 2500.0;
    assert d * d < 150.0 * d;
  }

  /**
   * The mouse influence on one point as written: toward the pointer with a
   * strength that fades to 0 at distance 200, and a division by the distance
   * with no guard for a pointer exactly on the point.
   */
  datatype Num = Finite(v: real) | NaN | Infinite(positive: bool)

  /** IEEE division by a non-negative divisor. */
  function Divide(a: real, b: real): (r: Num)
    requires b >= 0.0
    ensures b > 0.0 ==> r == Finite(a / b)
    ensures b == 0.0 && a == 0.0 ==> r == NaN
  {
    if b != 0.0 then Finite(a / b)
    else if a == 0.0 then NaN
    else Infinite(a > 0.0)
  }

  function Scale(n: Num, p: real): Num {
    match n
    case Finite(v) => Finite(v * p)
    case NaN => NaN
    case Infinite(positive) => if p == 0.0 then NaN else Infinite(positive == (p > 0.0))
  }

  /**
   * createDataStreams: layer by layer, config.count streams each, every
   * stream a polyline of 5 to 8 points whose consecutive points lie 50 to
   * 150 apart. The random draws are taken in the order the source makes
   * them, starting at cursor; next is the first draw left unused.
   */
  method CreateDataStreams(width: real, height: real, draws: nat -> real, cursor: nat,
                           turn: (real, real) -> Point)
    returns (streams: seq<DataStream>, next: nat)
    requires width > 0.0 && height > 0.0
    requires UnitDraws(draws)
    requires IsTurn(turn)
    ensures |streams| == 24
    ensures forall k :: 0 <= k < |streams| ==> WellFormedStream(streams[k], k, width, height)
    ensures next >= cursor + 24 * 16
  {
    streams := [];
    next := cursor;
    var layerIndex := 0;
    while layerIndex < 3
      invariant 0 <= layerIndex <= 3
      invariant |streams| == StreamsBefore(layerIndex)
      invariant forall k :: 0 <= k < |streams| ==> WellFormedStream(streams[k], k, width, height)
      invariant next >= cursor + 16 * |streams|
    {
      var config := Layers[layerIndex];
      var i := 0;
      while i < config.count
        invariant 0 <= i <= config.count
        invariant |streams| == StreamsBefore(layerIndex) + i
        invariant forall k :: 0 <= k < |streams| ==> WellFormedStream(streams[k], k, width, height)
        invariant next >= cursor + 16 * |streams|
      {
        var stream;
        stream, next := CreateStream(width, height, draws, next, turn, layerIndex);
        streams := streams + [stream];
        i := i + 1;
      }
      layerIndex := layerIndex + 1;
    }
  }

  /** The body of the inner loop: one stream of the given layer. */
  method CreateStream(width: real, height: real, draws: nat -> real, cursor: nat,
                      turn: (real, real) -> Point, layerIndex: nat)
    returns (stream: DataStream, next: nat)
    requires width > 0.0 && height > 0.0
    requires UnitDraws(draws)
    requires IsTurn(turn)
    requires layerIndex < 3
    ensures forall k :: LayerOf(k) == layerIndex ==> WellFormedStream(stream, k, width, height)
    ensures next >= cursor + 16
  {
    var config := Layers[layerIndex];
    var streamWidth := draws(cursor) * 1.5 + 0.5;
    var direction := if draws(cursor + 1) > 0.5 then 1 else -1;
    var points: seq<Point> := [];
    var x := draws(cursor + 2) * width;
    var y := draws(cursor + 3) * height;
    var segmentCount := (draws(cursor + 4) * 4.0).Floor + 5;
    next := cursor + 5;
    var j := 0;
    while j < segmentCount
      invariant 0 <= j <= segmentCount
      invariant |points| == j
      invariant next == cursor + 5 + 2 * j
      invariant j == 0 ==> x == draws(cursor + 2) * width && y == draws(cursor + 3) * height
      invariant j > 0 ==> points[0] == Point(draws(cursor + 2) * width, draws(cursor + 3) * height)
      invariant j > 0 ==> 2500.0 <= SquaredDistance(points[j - 1], Point(x, y)) < 22500.0
      invariant forall i :: 0 <= i < j - 1 ==> 2500.0 <= SquaredDistance(points[i], points[i + 1]) < 22500.0
    {
      points := points + [Point(x, y)];
      var angleDraw := draws(next);
      var distance := draws(next + 1) * 100.0 + 50.0;
      var step := turn(angleDraw, distance);
      SquareBounds(distance);
      assert step.x * step.x + step.y * step.y == distance * distance;
      assert SquaredDistance(Point(x, y), Point(x + step.x, y + step.y)) == step.x * step.x + step.y * step.y;
      x := x + step.x;
      y := y + step.y;
      next := next + 2;
      j := j + 1;
    }
    var offset := draws(next) * 100.0;
    next := next + 1;
    stream := DataStream(points, streamWidth, config.speed, config.color, offset, direction, layerIndex);
  }

  function Abs(v: real): real {
    if v < 0.0 then -v else v
  }

  /**
   * The scroll listener: no new speed unless time has passed; otherwise ten
   * times the scrolled distance per millisecond, capped at 5.
   */
  function ScrollSpeed(scrollY: real, lastScrollPosition: real, timeDelta: real): (r: Option<real>)
    ensures r.Some? <==> timeDelta > 0.0
    ensures r.Some? ==> 0.0 <= r.value <= 5.0
    ensures r.Some? ==> (r.value == 5.0 <==> Abs(scrollY - lastScrollPosition) * 10.0 >= 5.0 * timeDelta)
  {
    if timeDelta > 0.0 then
      var speed := Abs(scrollY - lastScrollPosition) / timeDelta * 10.0;
      SpeedCap(Abs(scrollY - lastScrollPosition), timeDelta);
      Some(if speed < 5.0 then speed else 5.0)
    else
      None
  }

  lemma SpeedCap(delta: real, timeDelta: real)
    requires delta >= 0.0 && timeDelta > 0.0
    ensures delta / timeDelta * 10.0 >= 0.0
    ensures delta / timeDelta * 10.0 >= 5.0 <==> delta * 10.0 >= 5.0 * timeDelta
  {
    var q := delta / timeDelta;
    assert q * timeDelta == delta;
    assert q >= 0.0;
    assert (q * 10.0 - 5.0) * timeDelta == delta * 10.0 - 5.0 * timeDelta;
    if q * 10.0 >= 5.0 {
      assert (q * 10.0 - 5.0) * timeDelta >= 0.0;
    } else {
      assert (5.0 - q * 10.0) * timeDelta > 0.0;
    }
  }

  /** The delayed decay of the scroll speed keeps it in [0, 5]. */
  function DecayedScrollSpeed(prev: real): (r: real)
    requires 0.0 <= prev <= 5.0
    ensures 0.0 <= r <= prev
    ensures prev > 0.0 ==> r < prev
  {
    prev * 0.9
  }

  /**
   * One frame's turbulence update: add a hundredth of the scroll speed, cap
   * at 5, then damp by 0.99. It never leaves [0, 4.95], and below 0.99
   * times the scroll speed it rises without passing it.
   */
  function TurbulenceStep(turbulence: real, scrollSpeed: real): (r: real)
    requires 0.0 <= turbulence && 0.0 <= scrollSpeed
    ensures 0.0 <= r <= 4.95
    ensures 0.0 <= scrollSpeed <= 5.0 && turbulence <= 0.99 * scrollSpeed ==>
      turbulence <= r <= 0.99 * scrollSpeed
  {
    var raised := turbulence + scrollSpeed * 0.01;
    (if raised < 5.0 then raised else 5.0) * 0.99
  }

  /** The turbulence after n frames of one render run, which starts at 0. */
  function TurbulenceAfter(n: nat, scrollSpeed: real): (r: real)
    requires 0.0 <= scrollSpeed <= 5.0
    ensures 0.0 <= r <= 0.99 * scrollSpeed <= 4.95
  {
    if n == 0 then 0.0 else TurbulenceStep(TurbulenceAfter(n - 1, scrollSpeed), scrollSpeed)
  }

  /** Within one render run the turbulence never falls. */
  lemma {:induction false} TurbulenceRises(n: nat, m: nat, scrollSpeed: real)
    requires 0.0 <= scrollSpeed <= 5.0
    requires n <= m
    ensures TurbulenceAfter(n, scrollSpeed) <= TurbulenceAfter(m, scrollSpeed)
    decreases m
  {
    if n < m {
      TurbulenceRises(n, m - 1, scrollSpeed);
    }
  }

  /** turbulenceAmount: the turbulence plus a base of 1.5, 1 or 0.5 by layer. */
  function TurbulenceAmount(turbulence: real, layer: nat): (r: real)
    requires 0.0 <= turbulence <= 4.95
    ensures 0.5 <= r <= 6.45
    ensures r - turbulence == (if layer == 0 then 1.5 else if layer == 1 then 1.0 else 0.5)
  {
    turbulence + (if layer == 0 then 1.5 else if layer == 1 then 1.0 else 0.5)
  }

  datatype Influence = Influence(x: Num, y: Num)

  /**
   * The pointer's pull on a point: none from 200 away or more; nearer, a
   * vector toward the pointer, scaled by (1 - dist / 200) * strength; on the
   * point itself 0 / 0, so NaN in both coordinates.
   */
  function MouseInfluence(mouse: Point, point: Point, strength: real, sqrt: real -> real): (r: Influence)
    requires IsSqrt(sqrt)
    requires strength > 0.0
    ensures SquaredDistance(point, mouse) >= 40000.0 ==> r == Influence(Finite(0.0), Finite(0.0))
    ensures mouse == point ==> r == Influence(NaN, NaN)
    ensures 0.0 < SquaredDistance(point, mouse) < 40000.0 ==>
      r.x.Finite? && r.y.Finite?
      && (r.x.v > 0.0 <==> mouse.x > point.x) && (r.x.v < 0.0 <==> mouse.x < point.x)
      && (r.y.v > 0.0 <==> mouse.y > point.y) && (r.y.v < 0.0 <==> mouse.y < point.y)
  {
    var distX := mouse.x - point.x;
    var distY := mouse.y - point.y;
    var dist := sqrt(distX * distX + distY * distY);
    assert distX * distX + distY * distY == SquaredDistance(point, mouse);
    if dist < 200.0 then
      var power := (1.0 - dist / 200.0) * strength;
      SquareBelow(dist, 200.0);
      InfluencePower(dist, strength);
      if dist > 0.0 then
        SquareBelow(0.0, dist);
        Toward(distX, dist, power);
        Toward(distY, dist, power);
        Influence(Scale(Divide(distX, dist), power), Scale(Divide(distY, dist), power))
      else
        Influence(Scale(Divide(distX, dist), power), Scale(Divide(distY, dist), power))
    else
      SquareAtLeast(dist, 200.0);
      Influence(Finite(0.0), Finite(0.0))
  }

  lemma InfluencePower(dist: real, strength: real)
    requires 0.0 <= dist < 200.0 && strength > 0.0
    ensures 0.0 < (1.0 - dist / 200.0) * strength <= strength
  {
    var f := 1.0 - dist / 200.0;
    assert 0.0 < f <= 1.0;
  }

  /** Scaling by a positive power keeps the sign of the offset. */
  /**
   * The segment loop: the pairs (points[i], points[i + 1]) it reads, each
   * with i + 1 < |points|; none for fewer than two points.
   */
  datatype Segment = Segment(start: Point, end: Point)

  method SegmentPairs(points: seq<Point>) returns (pairs: seq<Segment>)
    ensures |pairs| == if |points| == 0 then 0 else |points| - 1
    ensures forall i :: 0 <= i < |pairs| ==> pairs[i] == Segment(points[i], points[i + 1])
  {
    pairs := [];
    var i := 0;
    while i < |points| - 1
      invariant 0 <= i
      invariant |points| > 0 ==> i <= |points| - 1
      invariant |points| == 0 ==> i == 0
      invariant |pairs| == i
      invariant forall k :: 0 <= k < i ==> pairs[k] == Segment(points[k], points[k + 1])
    {
      var startPoint := points[i];
      var endPoint := points[i + 1];
      pairs := pairs + [Segment(startPoint, endPoint)];
      i := i + 1;
    }
  }

  /**
   * The particle loop of layers 0 and 1: floor(n / 2) + 1 particles at
   * points floor(i * (n - 1) / (particleCount - 1)), from the first point to
   * the last; layer 2 draws none. Streams have at least two points, so the
   * divisor is never 0.
   */
  method ParticleIndices(layer: nat, n: nat) returns (indices: seq<nat>)
    requires layer < 3
    requires layer < 2 ==> n >= 2
    ensures layer == 2 ==> indices == []
    ensures layer < 2 ==> |indices| == n / 2 + 1
    ensures layer < 2 && n >= 4 ==> |indices| >= 3
    ensures forall k :: 0 <= k < |indices| ==> indices[k] < n
    ensures forall k, l :: 0 <= k <= l < |indices| ==> indices[k] <= indices[l]
    ensures layer < 2 ==> indices[0] == 0 && indices[|indices| - 1] == n - 1
  {
    indices := [];
    if layer == 0 || layer == 1 {
      var particleCount := n / 2 + 1;
      var i := 0;
      while i < particleCount
        invariant 0 <= i <= particleCount
        invariant |indices| == i
        invariant i > 0 ==> indices[i - 1] == PointIndex(i - 1, n, particleCount)
        invariant i > 0 ==> indices[0] == 0
        invariant forall k :: 0 <= k < i ==> indices[k] < n
        invariant forall k, l :: 0 <= k <= l < i ==> indices[k] <= indices[l]
      {
        var pointIndex := PointIndex(i, n, particleCount);
        IndexBounds(i, n, particleCount);
        if i > 0 {
          IndexStep(i - 1, n, particleCount);
        }
        indices := indices + [pointIndex];
        i := i + 1;
      }
      IndexBounds(particleCount - 1, n, particleCount);
    }
  }

  /** pointIndex = Math.floor(i * (points.length - 1) / (particleCount - 1)). */
  function PointIndex(i: nat, n: nat, particleCount: nat): nat
    requires n >= 1 && particleCount >= 2
  {
    i * (n - 1) / (particleCount - 1)
  }

  /**
   * For 0 <= i < particleCount the index is at most n - 1, 0 for the first
   * particle and n - 1 for the last.
   */
  lemma IndexBounds(i: nat, n: nat, particleCount: nat)
    requires n >= 1 && particleCount >= 2 && i < particleCount
    ensures PointIndex(i, n, particleCount) <= n - 1
    ensures i == 0 ==> PointIndex(i, n, particleCount) == 0
    ensures i == particleCount - 1 ==> PointIndex(i, n, particleCount) == n - 1
  {
    var m := n - 1;
    var d := particleCount - 1;
    MulLeft(i, d, m);
    DivMonotone(i * m, d * m, d);
    MulDiv(m, d);
  }

  /** The index grows with i. */
  lemma IndexStep(i: nat, n: nat, particleCount: nat)
    requires n >= 1 && particleCount >= 2
    ensures PointIndex(i, n, particleCount) <= PointIndex(i + 1, n, particleCount)
  {
    var m := n - 1;
    MulLeft(i, i + 1, m);
    DivMonotone(i * m, (i + 1) * m, particleCount - 1);
  }

  lemma MulLeft(x: int, y: int, d: int)
    requires d >= 0 && x <= y
    ensures x * d <= y * d
  {
    assert y * d - x * d == (y - x) * d;
  }

  lemma MulDiv(m: nat, d: nat)
    requires d > 0
    ensures d * m / d == m
  {
    var q := d * m / d;
    assert q * d + (d * m) % d == d * m;
    if q < m {
      MulLeft(q + 1, m, d);
      assert false;
    } else if q > m {
      MulLeft(m + 1, q, d);
      assert false;
    }
  }

  lemma DivMonotone(a: nat, b: nat, d: nat)
    requires 0 < d && a <= b
    ensures a / d <= b / d
  {
    var qa := a / d;
    var qb := b / d;
    assert qa * d + a % d == a;
    assert qb * d + b % d == b;
    if qa > qb {
      MulLeft(qb + 1, qa, d);
      assert false;
    }
  }

  /**
   * The component's state between events: the window size, the streams, the
   * scroll speed, the pointer, and the counters of the running render loop.
   * Any change of size, pointer or scroll speed re-runs the render effect,
   * which restarts progress and turbulence at 0.
   */
  class DataFlowScene {
    var width: nat
    var height: nat
    var streams: seq<DataStream>
    var scrollSpeed: real
    var mouse: Option<Point>
    var progress: real
    var turbulence: real
    var running: bool
    var lastScrollPosition: real
    var lastScrollTime: real

    ghost predicate Valid()
      reads this
    {
      0.0 <= scrollSpeed <= 5.0
      && 0.0 <= turbulence <= 0.99 * scrollSpeed
      && 0.0 <= progress
      && (running ==> width > 0 && height > 0)
      && (width > 0 && height > 0 ==> |streams| == 24)
    }

    /** The render effect has just re-run: running exactly when the canvas has a size, one frame drawn. */
    ghost predicate Restarted()
      reads this
    {
      0.0 <= scrollSpeed
      && (running <==> width > 0 && height > 0)
      && (running ==> progress == 0.01 && turbulence == TurbulenceStep(0.0, scrollSpeed))
    }

    /** The render loop goes on as it was. */
    ghost predicate Untouched(wasRunning: bool, oldProgress: real, oldTurbulence: real)
      reads this
    {
      running == wasRunning && progress == oldProgress && turbulence == oldTurbulence
    }

    /**
     * The first render: no size yet, no streams, nothing running; the scroll
     * effect remembers the page position and the clock at mount time.
     */
    constructor(scrollY: real, now: real)
      ensures Valid()
      ensures width == 0 && height == 0 && streams == [] && !running
      ensures scrollSpeed == 0.0 && mouse == None
      ensures lastScrollPosition == scrollY && lastScrollTime == now
    {
      lastScrollPosition := scrollY;
      lastScrollTime := now;
      width := 0;
      height := 0;
      streams := [];
      scrollSpeed := 0.0;
      mouse := None;
      progress := 0.0;
      turbulence := 0.0;
      running := false;
    }

    /**
     * The render effect: the previous loop is cancelled; with either
     * dimension 0 nothing runs, otherwise the counters restart and the first
     * frame is drawn.
     */
    method RestartRender()
      requires 0.0 <= scrollSpeed <= 5.0
      requires width > 0 && height > 0 ==> |streams| == 24
      modifies this`running, this`progress, this`turbulence
      ensures Valid()
      ensures running <==> width > 0 && height > 0
      ensures running ==> progress == 0.01 && turbulence == TurbulenceStep(0.0, scrollSpeed)
      ensures Restarted()
    {
      if width == 0 || height == 0 {
        running := false;
        progress := 0.0;
        turbulence := 0.0;
      } else {
        running := true;
        progress := 0.0;
        turbulence := 0.0;
        Frame();
      }
    }

    /** One call of render: advance progress, raise and damp the turbulence. */
    method Frame()
      requires Valid() && running
      modifies this`progress, this`turbulence
      ensures Valid()
      ensures progress == old(progress) + 0.01
      ensures turbulence == TurbulenceStep(old(turbulence), scrollSpeed)
    {
      progress := progress + 0.01;
      var raised := turbulence + scrollSpeed * 0.01;
      turbulence := (if raised < 5.0 then raised else 5.0) * 0.99;
    }

    /**
     * A resize: the new size is stored; streams are rebuilt unless a
     * dimension is 0, in which case the old ones stay and nothing runs.
     */
    method Resize(w: nat, h: nat, draws: nat -> real, cursor: nat, turn: (real, real) -> Point)
      returns (next: nat)
      requires Valid()
      requires UnitDraws(draws) && IsTurn(turn)
      modifies this
      ensures Valid()
      ensures width == w && height == h
      ensures w == 0 || h == 0 ==> streams == old(streams) && !running && next == cursor
      ensures w > 0 && h > 0 ==>
        running && |streams| == 24
        && forall k :: 0 <= k < 24 ==> WellFormedStream(streams[k], k, w as real, h as real)
      ensures scrollSpeed == old(scrollSpeed) && mouse == old(mouse)
      ensures Restarted()
      ensures lastScrollPosition == old(lastScrollPosition) && lastScrollTime == old(lastScrollTime)
    {
      width := w;
      height := h;
      next := cursor;
      if w > 0 && h > 0 {
        streams, next := CreateDataStreams(w as real, h as real, draws, cursor, turn);
      }
      RestartRender();
    }

    /**
     * A scroll event at page position scrollY and clock reading currentTime:
     * when time has passed since the remembered event, the speed is taken
     * from the distance and the position and time are remembered; a changed
     * speed restarts rendering.
     */
    method Scroll(scrollY: real, currentTime: real)
      requires Valid()
      modifies this
      ensures Valid()
      ensures var s := ScrollSpeed(scrollY, old(lastScrollPosition), currentTime - old(lastScrollTime));
        scrollSpeed == (if s.Some? then s.value else old(scrollSpeed))
      ensures currentTime - old(lastScrollTime) > 0.0 ==>
        lastScrollPosition == scrollY && lastScrollTime == currentTime
      ensures currentTime - old(lastScrollTime) <= 0.0 ==>
        lastScrollPosition == old(lastScrollPosition) && lastScrollTime == old(lastScrollTime)
      ensures scrollSpeed != old(scrollSpeed) ==> Restarted()
      ensures scrollSpeed == old(scrollSpeed) ==> Untouched(old(running), old(progress), old(turbulence))
      ensures width == old(width) && height == old(height) && streams == old(streams) && mouse == old(mouse)
    {
      var timeDelta := currentTime - lastScrollTime;
      var newSpeed := ScrollSpeed(scrollY, lastScrollPosition, timeDelta);
      if newSpeed.Some? {
        lastScrollPosition := scrollY;
        lastScrollTime := currentTime;
        if newSpeed.value != scrollSpeed {
          scrollSpeed := newSpeed.value;
          RestartRender();
        }
      }
    }

    /** The timer 100 ms after a scroll: the speed drops to 0.9 of itself; a changed speed restarts rendering. */
    method DecayScroll()
      requires Valid()
      modifies this
      ensures Valid()
      ensures scrollSpeed == DecayedScrollSpeed(old(scrollSpeed))
      ensures scrollSpeed != old(scrollSpeed) ==> Restarted()
      ensures scrollSpeed == old(scrollSpeed) ==> Untouched(old(running), old(progress), old(turbulence))
      ensures width == old(width) && height == old(height) && streams == old(streams) && mouse == old(mouse)
      ensures lastScrollPosition == old(lastScrollPosition) && lastScrollTime == old(lastScrollTime)
    {
      var decayed := DecayedScrollSpeed(scrollSpeed);
      if decayed != scrollSpeed {
        scrollSpeed := decayed;
        RestartRender();
      }
    }

    /** mousemove: a new position object, so rendering always restarts. */
    method MouseMove(p: Point)
      requires Valid()
      modifies this
      ensures Valid()
      ensures mouse == Some(p)
      ensures Restarted()
      ensures lastScrollPosition == old(lastScrollPosition) && lastScrollTime == old(lastScrollTime)
      ensures width == old(width) && height == old(height) && streams == old(streams)
      ensures scrollSpeed == old(scrollSpeed)
    {
      mouse := Some(p);
      RestartRender();
    }

    /** mouseleave: the pointer is gone; rendering restarts if it was there. */
    method MouseLeave()
      requires Valid()
      modifies this
      ensures Valid()
      ensures mouse == None
      ensures old(mouse).Some? ==> Restarted()
      ensures old(mouse).None? ==> Untouched(old(running), old(progress), old(turbulence))
      ensures lastScrollPosition == old(lastScrollPosition) && lastScrollTime == old(lastScrollTime)
      ensures width == old(width) && height == old(height) && streams == old(streams)
      ensures scrollSpeed == old(scrollSpeed)
    {
      if mouse.Some? {
        mouse := None;
        RestartRender();
      }
    }
  }
}
