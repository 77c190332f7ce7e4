// The `SmolCanvas` engine object: drawing-state flags, the drawing primitives
// over an abstract 2D context, and one tick of the animation loop.

module Canvas {
  import opened JsValues
  import opened MathUtil

  /**
   * What the engine issues, in order: calls on the 2D context, and the calls of
   * the sketch's `update` and `draw` handlers made by a tick.
   */
  datatype Op =
    | Save
    | Restore
    | SetFillStyle(fill: Rgba)
    | SetStrokeStyle(stroke: Rgba)
    | SetLineWidth(lineWidth: real)
    | FillRect(x: real, y: real, w: real, h: real)
    | BeginPath
    | LineTo(x: real, y: real)
    | Arc(x: real, y: real, radius: real)
    | Stroke
    | Fill
    | Translate(x: real, y: real)
    | Scale(x: real, y: real)
    | FillText(x: real, y: real, text: string)
    | CallUpdate(dt: real)
    | CallDraw

  /** The context's saved-state depth after one operation; `restore()` with nothing saved does nothing. */
  function DepthStep(depth: nat, op: Op): (d: nat)
    ensures op == Save ==> d == depth + 1
    ensures op == Restore ==> d == if depth == 0 then 0 else depth - 1
    ensures op != Save && op != Restore ==> d == depth
  {
    match op
    case Save => depth + 1
    case Restore => if depth > 0 then depth - 1 else 0
    case _ => depth
  }

  /** The saved-state depth after a sequence of operations. */
  function DepthAfter(depth: nat, ops: seq<Op>): nat
    decreases |ops|
  {
    if ops == [] then depth else DepthAfter(DepthStep(depth, ops[0]), ops[1..])
  }

  lemma {:induction false} DepthAfterAppend(depth: nat, a: seq<Op>, b: seq<Op>)
    ensures DepthAfter(depth, a + b) == DepthAfter(DepthAfter(depth, a), b)
    decreases |a|
  {
    if a == [] {
      assert a + b == b;
    } else {
      assert (a + b)[0] == a[0];
      assert (a + b)[1..] == a[1..] + b;
      DepthAfterAppend(DepthStep(depth, a[0]), a[1..], b);
    }
  }

  /** Saves minus restores. */
  function Level(ops: seq<Op>): int
    decreases |ops|
  {
    if ops == [] then 0
    else (match ops[0] case Save => 1 case Restore => -1 case _ => 0) + Level(ops[1..])
  }

  /** Every restore matches an earlier save of the same sequence, and every save is restored. */
  predicate Balanced(ops: seq<Op>) {
    Level(ops) == 0 && forall k :: 0 <= k <= |ops| ==> Level(ops[..k]) >= 0
  }

  /** As long as no prefix restores below the starting depth, the depth moves by the level. */
  lemma {:induction false} DepthFollowsLevel(depth: nat, ops: seq<Op>)
    requires forall k :: 0 <= k <= |ops| ==> depth + Level(ops[..k]) >= 0
    ensures DepthAfter(depth, ops) == depth + Level(ops)
    decreases |ops|
  {
    if ops != [] {
      var rest := ops[1..];
      assert ops[..1][1..] == [];
      assert depth + Level(ops[..1]) >= 0;
      forall k | 0 <= k <= |rest|
        ensures DepthStep(depth, ops[0]) + Level(rest[..k]) >= 0
      {
        assert ops[..k + 1][1..] == rest[..k];
        assert depth + Level(ops[..k + 1]) >= 0;
      }
      DepthFollowsLevel(DepthStep(depth, ops[0]), rest);
    }
  }

  /** Balanced operations leave the depth where they found it. */
  lemma BalancedKeepsDepth(depth: nat, ops: seq<Op>)
    requires Balanced(ops)
    ensures DepthAfter(depth, ops) == depth
  {
    DepthFollowsLevel(depth, ops);
  }

  /** What a tick issues: `update(dt)` if registered, then save, then `draw()` if registered, then restore. */
  function TickOps(dt: real, hasUpdate: bool, draw: Option<seq<Op>>): (ops: seq<Op>)
    ensures |ops| == (if hasUpdate then 1 else 0) + 2 + (if draw.Some? then 1 + |draw.value| else 0)
    ensures ops[|ops| - 1] == Restore
    ensures hasUpdate ==> ops[0] == CallUpdate(dt) && ops[1] == Save
    ensures !hasUpdate ==> ops[0] == Save
    ensures draw.Some? ==> ops[|ops| - 2 - |draw.value|] == CallDraw
    ensures draw.Some? ==> ops[|ops| - 1 - |draw.value|..|ops| - 1] == draw.value
  {
    (if hasUpdate then [CallUpdate(dt)] else [])
    + [Save]
    + (if draw.Some? then [CallDraw] + draw.value else [])
    + [Restore]
  }

  /** The four parts of a tick, concatenated. */
  lemma TickOpsParts(dt: real, hasUpdate: bool, draw: Option<seq<Op>>)
    ensures TickOps(dt, hasUpdate, draw)
      == (if hasUpdate then [CallUpdate(dt)] else []) + [Save]
         + (if draw.Some? then [CallDraw] + draw.value else []) + [Restore]
  {
  }

  /** A tick's depth change: one save, then whatever `draw` does, then one restore. */
  lemma TickDepth(depth: nat, dt: real, hasUpdate: bool, draw: Option<seq<Op>>)
    ensures DepthAfter(depth, TickOps(dt, hasUpdate, draw))
         == DepthStep(DepthAfter(depth + 1, if draw.Some? then draw.value else []), Restore)
  {
    var pre: seq<Op> := if hasUpdate then [CallUpdate(dt)] else [];
    var mid: seq<Op> := if draw.Some? then [CallDraw] + draw.value else [];
    assert TickOps(dt, hasUpdate, draw) == pre + [Save] + mid + [Restore];
    DepthAfterAppend(depth, pre + [Save] + mid, [Restore]);
    DepthAfterAppend(depth, pre + [Save], mid);
    DepthAfterAppend(depth, pre, [Save]);
    assert DepthAfter(depth, pre) == depth;
    if draw.Some? {
      DepthAfterAppend(depth + 1, [CallDraw], draw.value);
    }
  }

  /** A tick whose `draw` is balanced (or absent) leaves the context's saved-state depth unchanged. */
  lemma TickKeepsDepth(depth: nat, dt: real, hasUpdate: bool, draw: Option<seq<Op>>)
    requires draw.Some? ==> Balanced(draw.value)
    ensures DepthAfter(depth, TickOps(dt, hasUpdate, draw)) == depth
  {
    TickDepth(depth, dt, hasUpdate, draw);
    if draw.Some? {
      BalancedKeepsDepth(depth + 1, draw.value);
    }
  }

  /** The frame-timing fields after a tick, and the elapsed time handed to `update`. */
  datatype FrameTiming = FrameTiming(dt: real, fps: real, lastTime: real)

  /**
   * The timing part of `animationFrame(timestamp)`: a zero `lastTime` means no
   * earlier frame, so `dt` is 0 and `fps` is kept; otherwise `dt` is the gap in
   * seconds and `fps` moves a tenth of the way towards `1 / dt`.
   */
  function Timing(lastTime: real, fps: real, timestamp: real): (t: FrameTiming)
    requires lastTime == 0.0 || timestamp != lastTime
    ensures t.lastTime == timestamp
    ensures lastTime == 0.0 ==> t.dt == 0.0 && t.fps == fps
    ensures lastTime != 0.0 ==> t.dt * 1000.0 == timestamp - lastTime
  {
    if lastTime != 0.0 then
      var dt := (timestamp - lastTime) / 1000.0;
      var rate := 1.0 / dt;
      FrameTiming(dt, fps * 0.9 + rate * (1.0 - 0.9), timestamp)
    else
      FrameTiming(0.0, fps, timestamp)
  }

  /**
   * After a frame with an earlier one, the smoothed rate has moved a tenth of the
   * way from its old value towards the instantaneous rate `1 / dt`, so it lies
   * between the two, and it stays positive when time moves forward.
   */
  lemma SmoothedRateBetween(lastTime: real, fps: real, timestamp: real)
    requires lastTime != 0.0 && timestamp != lastTime
    ensures var t := Timing(lastTime, fps, timestamp);
      t.fps - fps == (1.0 / t.dt - fps) / 10.0 &&
      (fps <= 1.0 / t.dt ==> fps <= t.fps <= 1.0 / t.dt) &&
      (1.0 / t.dt <= fps ==> 1.0 / t.dt <= t.fps <= fps) &&
      (0.0 <= fps && lastTime < timestamp ==> 0.0 < t.fps)
  {
    var t := Timing(lastTime, fps, timestamp);
    if lastTime < timestamp {
      PositiveReciprocal(t.dt);
    }
  }

  lemma PositiveReciprocal(x: real)
    requires 0.0 < x
    ensures 0.0 < 1.0 / x
  {
  }

  /** From `fps` 0, a frame 16 ms after the previous one gives `fps` 6.25. */
  lemma SixteenMillisecondFrame(lastTime: real)
    requires lastTime != 0.0
    ensures Timing(lastTime, 0.0, lastTime + 16.0).fps == 6.25
  {
    var t := Timing(lastTime, 0.0, lastTime + 16.0);
    assert t.dt == 0.016;
  }

  /**
   * Ticks at timestamps 0, 16 and 32 from the initial state: the timestamp 0
   * leaves the "no earlier frame" sentinel in place, so only the third tick has a
   * non-zero `dt`.
   */
  lemma TimestampsFromZero()
    ensures var t1 := Timing(0.0, 0.0, 0.0);
      var t2 := Timing(t1.lastTime, t1.fps, 16.0);
      var t3 := Timing(t2.lastTime, t2.fps, 32.0);
      t1.dt == 0.0 && t2.dt == 0.0 && t3.dt == 0.016 && t3.fps == 6.25
  {
    var t2 := Timing(0.0, 0.0, 16.0);
    var t3 := Timing(t2.lastTime, t2.fps, 32.0);
    assert t3.dt == 0.016;
  }

  /** `k` further ticks, each `gap` milliseconds after the previous one. */
  function SteadyTicks(t: FrameTiming, gap: real, k: nat): (r: FrameTiming)
    requires 0.0 < t.lastTime && 0.0 < gap
    ensures 0.0 < r.lastTime
  {
    if k == 0 then t
    else
      var p := SteadyTicks(t, gap, k - 1);
      Timing(p.lastTime, p.fps, p.lastTime + gap)
  }

  function Power(x: real, k: nat): real {
    if k == 0 then 1.0 else x * Power(x, k - 1)
  }

  /**
   * At a steady frame gap the smoothed rate converges to the true rate
   * `1000 / gap`: after `k` ticks the remaining error is `0.9^k` of the initial one.
   */
  lemma {:induction false} SteadyRateConverges(t: FrameTiming, gap: real, k: nat)
    requires 0.0 < t.lastTime && 0.0 < gap
    ensures SteadyTicks(t, gap, k).fps - 1000.0 / gap == Power(0.9, k) * (t.fps - 1000.0 / gap)
  {
    if k > 0 {
      SteadyRateConverges(t, gap, k - 1);
      var p := SteadyTicks(t, gap, k - 1);
      var r := Timing(p.lastTime, p.fps, p.lastTime + gap);
      assert r.dt == gap / 1000.0;
      ReciprocalOfMilliseconds(gap);
      var e := t.fps - 1000.0 / gap;
      assert r.fps - 1000.0 / gap == 0.9 * (p.fps - 1000.0 / gap);
      assert Power(0.9, k) * e == 0.9 * (Power(0.9, k - 1) * e);
    }
  }

  lemma ReciprocalOfMilliseconds(gap: real)
    requires 0.0 < gap
    ensures 1.0 / (gap / 1000.0) == 1000.0 / gap
  {
  }

  /** `height || width` for the optional `height` argument of `size`. */
  function HeightOrWidth(height: Option<real>, width: real): (r: real)
    ensures height.None? ==> r == width
    ensures height == Some(0.0) ==> r == width
    ensures height.Some? && height.value != 0.0 ==> r == height.value
  {
    if height.Some? && height.value != 0.0 then height.value else width
  }

  /** The circle's operations: the path, a stroke if stroking is on, then a fill if filling is on. */
  function CircleOps(x: real, y: real, radius: real, stroke: bool, fill: bool): (ops: seq<Op>)
    ensures |ops| == 2 + (if stroke then 1 else 0) + (if fill then 1 else 0)
    ensures ops[..2] == [BeginPath, Arc(x, y, radius)]
    ensures Stroke in ops <==> stroke
    ensures Fill in ops <==> fill
    ensures stroke && fill ==> ops[2] == Stroke && ops[3] == Fill
  {
    [BeginPath, Arc(x, y, radius)] + (if stroke then [Stroke] else []) + (if fill then [Fill] else [])
  }

  class SmolCanvas {
    var mouseX: real
    var mouseY: real
    var width: real
    var height: real
    var fillActive: bool
    var strokeActive: bool
    var fps: real
    /** The previous frame's timestamp; 0 means there was none. */
    var lastTime: real
    /** How many states the 2D context has saved and not yet restored. */
    var depth: nat
    /** Everything issued so far, oldest first. */
    var trace: seq<Op>

    /** `new SmolCanvas(canvas)` for a canvas of the given size. */
    constructor (canvasWidth: real, canvasHeight: real)
      ensures mouseX == 0.0 && mouseY == 0.0
      ensures width == canvasWidth && height == canvasHeight
      ensures !fillActive && !strokeActive
      ensures fps == 0.0 && lastTime == 0.0
      ensures depth == 0 && trace == []
    {
      mouseX, mouseY := 0.0, 0.0;
      width, height := canvasWidth, canvasHeight;
      fillActive, strokeActive := false, false;
      fps, lastTime := 0.0, 0.0;
      depth, trace := 0, [];
    }

    /** `size(width, height)`: the height falls back to the width when absent or 0. */
    method Size(w: real, h: Option<real>)
      modifies this`width, this`height
      ensures width == w
      ensures height == HeightOrWidth(h, w)
      ensures h.None? ==> height == w
    {
      width := w;
      height := HeightOrWidth(h, w);
    }

    /** `fillRGB(r, g, b, a = 1)`. */
    method FillRGB(r: real, g: real, b: real, a: Option<real>)
      modifies this`fillActive, this`trace
      ensures fillActive
      ensures trace == old(trace) + [SetFillStyle(ToRgba(r, g, b, a.GetOr(1.0)))]
    {
      trace := trace + [SetFillStyle(ToRgba(r, g, b, a.GetOr(1.0)))];
      fillActive := true;
    }

    /** `fill(value, alpha = 1)`: a grey fill. */
    method Fill(value: real, alpha: Option<real>)
      modifies this`fillActive, this`trace
      ensures fillActive
      ensures trace == old(trace) + [SetFillStyle(ToRgba(value, value, value, alpha.GetOr(1.0)))]
    {
      trace := trace + [SetFillStyle(ToRgba(value, value, value, alpha.GetOr(1.0)))];
      fillActive := true;
    }

    /** `noFill()`. */
    method NoFill()
      modifies this`fillActive
      ensures !fillActive
    {
      fillActive := false;
    }

    /** `strokeRGB(r, g, b, a = 1)`. */
    method StrokeRGB(r: real, g: real, b: real, a: Option<real>)
      modifies this`strokeActive, this`trace
      ensures strokeActive
      ensures trace == old(trace) + [SetStrokeStyle(ToRgba(r, g, b, a.GetOr(1.0)))]
    {
      trace := trace + [SetStrokeStyle(ToRgba(r, g, b, a.GetOr(1.0)))];
      strokeActive := true;
    }

    /** `noStroke()`. */
    method NoStroke()
      modifies this`strokeActive
      ensures !strokeActive
    {
      strokeActive := false;
    }

    /** `strokeWeight(weight)`. */
    method StrokeWeight(weight: real)
      modifies this`trace
      ensures trace == old(trace) + [SetLineWidth(weight)]
    {
      trace := trace + [SetLineWidth(weight)];
    }

    /** `backgroundRGB(r, g, b)`: sets the fill colour (and turns filling on), then fills the whole canvas. */
    method BackgroundRGB(r: real, g: real, b: real)
      modifies this`fillActive, this`trace
      ensures fillActive
      ensures trace == old(trace) + [SetFillStyle(ToRgba(r, g, b, 1.0)), FillRect(0.0, 0.0, width, height)]
    {
      FillRGB(r, g, b, None);
      trace := trace + [FillRect(0.0, 0.0, width, height)];
    }

    /** `background(value)`: a grey background. */
    method Background(value: real)
      modifies this`fillActive, this`trace
      ensures fillActive
      ensures trace == old(trace) + [SetFillStyle(ToRgba(value, value, value, 1.0)), FillRect(0.0, 0.0, width, height)]
    {
      BackgroundRGB(value, value, value);
    }

    /** `text(x, y, text)`. */
    method Text(x: real, y: real, text: string)
      modifies this`trace
      ensures trace == old(trace) + [FillText(x, y, text)]
    {
      trace := trace + [FillText(x, y, text)];
    }

    /** `line(x1, y1, x2, y2)`: always stroked, whatever `strokeActive` says. */
    method Line(x1: real, y1: real, x2: real, y2: real)
      modifies this`trace
      ensures trace == old(trace) + [BeginPath, LineTo(x1, y1), LineTo(x2, y2), Stroke]
    {
      trace := trace + [BeginPath, LineTo(x1, y1), LineTo(x2, y2), Stroke];
    }

    /** `rect(x, y, width, height)`: always filled, whatever `fillActive` says. */
    method Rect(x: real, y: real, w: real, h: real)
      modifies this`trace
      ensures trace == old(trace) + [FillRect(x, y, w, h)]
    {
      trace := trace + [FillRect(x, y, w, h)];
    }

    /** `circle(x, y, radius)`: stroked if `strokeActive`, then filled if `fillActive`. */
    method Circle(x: real, y: real, radius: real)
      modifies this`trace
      ensures trace == old(trace) + CircleOps(x, y, radius, strokeActive, fillActive)
    {
      trace := trace + [BeginPath, Arc(x, y, radius)];
      if strokeActive {
        trace := trace + [Stroke];
      }
      if fillActive {
        trace := trace + [Op.Fill];
      }
    }

    /** `transformPush()`: `ctx.save()`. */
    method TransformPush()
      modifies this`depth, this`trace
      ensures depth == old(depth) + 1
      ensures trace == old(trace) + [Save]
    {
      depth := depth + 1;
      trace := trace + [Save];
    }

    /** `transformPop()`: `ctx.restore()`, which does nothing when no state is saved. */
    method TransformPop()
      modifies this`depth, this`trace
      ensures depth == if old(depth) > 0 then old(depth) - 1 else 0
      ensures trace == old(trace) + [Restore]
    {
      depth := DepthStep(depth, Restore);
      trace := trace + [Restore];
    }

    /** `translate(x, y)`. */
    method Translate(x: real, y: real)
      modifies this`trace
      ensures trace == old(trace) + [Op.Translate(x, y)]
    {
      trace := trace + [Op.Translate(x, y)];
    }

    /** `scale(x, y)`: the y factor falls back to the x factor when absent or 0. */
    method Scale(x: real, y: Option<real>)
      modifies this`trace
      ensures trace == old(trace) + [Op.Scale(x, HeightOrWidth(y, x))]
      ensures y.None? ==> trace == old(trace) + [Op.Scale(x, x)]
    {
      trace := trace + [Op.Scale(x, HeightOrWidth(y, x))];
    }

    /** The first lines of `animationFrame(timestamp)`: elapsed time, smoothed rate and the new `lastTime`. */
    method AdvanceTiming(timestamp: real) returns (dt: real)
      requires lastTime == 0.0 || timestamp != lastTime
      modifies this`fps, this`lastTime
      ensures var t := Timing(old(lastTime), old(fps), timestamp);
        dt == t.dt && fps == t.fps && lastTime == t.lastTime
    {
      dt := 0.0;
      if lastTime != 0.0 {
        dt := timestamp - lastTime;
        dt := dt / 1000.0;
        var rate := 1.0 / dt;
        var smoothing := 0.9;
        fps := fps * smoothing + rate * (1.0 - smoothing);
      }
      lastTime := timestamp;
    }

    /**
     * The rest of `animationFrame`: `update(dt)` if registered, then `draw()`
     * (if registered) between `transformPush()` and `transformPop()`. `draw` is
     * `None` when no handler is registered and otherwise the context operations
     * the handler issues.
     */
    method RunHandlers(dt: real, hasUpdate: bool, draw: Option<seq<Op>>)
      modifies this`depth, this`trace
      ensures trace == old(trace) + ((if hasUpdate then [CallUpdate(dt)] else []) + [Save]
                       + (if draw.Some? then [CallDraw] + draw.value else []) + [Restore])
      ensures depth == DepthStep(DepthAfter(old(depth) + 1, if draw.Some? then draw.value else []), Restore)
    {
      ghost var pre: seq<Op> := if hasUpdate then [CallUpdate(dt)] else [];
      ghost var drawn: seq<Op> := if draw.Some? then draw.value else [];
      ghost var mid: seq<Op> := if draw.Some? then [CallDraw] + drawn else [];
      if hasUpdate {
        trace := trace + [CallUpdate(dt)];
      }
      TransformPush();
      assert trace == old(trace) + (pre + [Save]);
      if draw.Some? {
        trace := trace + ([CallDraw] + draw.value);
        depth := DepthAfter(depth, draw.value);
      }
      assert trace == old(trace) + (pre + [Save] + mid);
      assert depth == DepthAfter(old(depth) + 1, drawn);
      TransformPop();
    }

    /**
     * One `animationFrame(timestamp)` tick, with the handlers as for `RunHandlers`.
     * Rescheduling through `requestAnimationFrame` is the host's loop and is not part of a tick.
     */
    method AnimationFrame(timestamp: real, hasUpdate: bool, draw: Option<seq<Op>>)
      requires lastTime == 0.0 || timestamp != lastTime
      modifies this`fps, this`lastTime, this`depth, this`trace
      ensures var t := Timing(old(lastTime), old(fps), timestamp);
        fps == t.fps && lastTime == t.lastTime &&
        trace == old(trace) + TickOps(t.dt, hasUpdate, draw) &&
        depth == DepthAfter(old(depth), TickOps(t.dt, hasUpdate, draw))
      ensures (draw.Some? ==> Balanced(draw.value)) ==> depth == old(depth)
    {
      ghost var t := Timing(lastTime, fps, timestamp);
      ghost var ops := TickOps(t.dt, hasUpdate, draw);
      TickOpsParts(t.dt, hasUpdate, draw);
      TickDepth(depth, t.dt, hasUpdate, draw);
      if draw.None? || Balanced(draw.value) {
        TickKeepsDepth(depth, t.dt, hasUpdate, draw);
      }
      var dt := AdvanceTiming(timestamp);
      assert dt == t.dt;
      RunHandlers(dt, hasUpdate, draw);
      assert trace == old(trace) + ops;
    }
  }
}
