/** Resampling a recording's captures to a fixed frame rate
    (crates/vs-daemon/src/daemon/record.rs). */
module Resampling {

  import opened Results

  type Picture = seq<nat>
  type Image = seq<nat>

  /** A captured picture, when it was taken, and what the cursor did. */
  datatype Cap = Cap(t: nat, png: Picture, cursor: nat)

  /** An encoded frame: a decoded picture with the cursor drawn in. */
  datatype Frame = Frame(base: Image, cursor: nat)

  predicate InTimeOrder(caps: seq<Cap>) { forall i, j :: 0 <= i < j < |caps| ==> caps[i].t <= caps[j].t }

  /** The rate is clamped to 1..30 before recording starts. */
  function Clamped(fps: nat): (f: nat)
    ensures 1 <= f <= 30
  {
    if fps < 1 then 1 else if fps > 30 then 30 else fps
  }

  /** Milliseconds between frames, the fraction dropped. */
  function StepMs(fps: nat): (step: nat)
    ensures step >= 33
  {
    1000 / Clamped(fps)
  }

  /** The last capture at or before `t`, or the first one. */
  predicate IsSource(caps: seq<Cap>, src: nat, t: nat)
  {
    && src < |caps|
    && (src > 0 ==> caps[src].t <= t)
    && forall j :: src < j < |caps| ==> caps[j].t > t
  }

  /** Frames until the tick that reaches the last capture. */
  function FrameCount(end: nat, step: nat): nat
    requires step > 0
  {
    (end + step - 1) / step + 1
  }

  /** The frame of a tick: the latest capture decoded, with that capture's cursor. */
  ghost predicate ShownAt(frame: Frame, caps: seq<Cap>, t: nat, decode: Picture -> Option<Image>)
  {
    exists src: nat :: IsSource(caps, src, t) && decode(caps[src].png) == Some(frame.base)
        && frame.cursor == caps[src].cursor
  }

  ghost predicate Shows(frames: seq<Frame>, caps: seq<Cap>, step: nat, decode: Picture -> Option<Image>)
  {
    forall k :: 0 <= k < |frames| ==> ShownAt(frames[k], caps, k * step, decode)
  }

  method Resample(caps: seq<Cap>, fps: nat, decode: Picture -> Option<Image>) returns (r: Option<seq<Frame>>)
    requires InTimeOrder(caps)
    ensures caps == [] ==> r == None
    ensures r.Some? ==>
              && Shows(r.value, caps, StepMs(fps), decode)
              && |r.value| == FrameCount(caps[|caps|-1].t, StepMs(fps))
    ensures r.None? && caps != [] ==> exists i :: 0 <= i < |caps| && decode(caps[i].png) == None
  {
    hide StepMs, Shows, FrameCount;
    if caps == [] { return None; }
    var step, end := StepMs(fps), caps[|caps|-1].t;
    var src: nat, t: nat := 0, 0;
    var cached: Option<nat> := None;
    var base: Image := [];
    var frames: seq<Frame> := [];
    NothingShown(caps, step, decode);
    while true
      invariant src < |caps| && (src > 0 ==> caps[src].t <= t)
      invariant t == |frames| * step && (|frames| > 0 ==> t < end + step)
      invariant cached.Some? ==> cached.value < |caps| && decode(caps[cached.value].png) == Some(base)
      invariant Shows(frames, caps, step, decode)
      decreases end + step - t
    {
      src := Advance(caps, src, t);
      if cached != Some(src) {
        var image := decode(caps[src].png);
        if image.None? { return None; }
        base := image.value;
        cached := Some(src);
      }
      OneMoreShown(frames, caps, step, decode, src, Frame(base, caps[src].cursor), t);
      frames := frames + [Frame(base, caps[src].cursor)];
      if t >= end {
        LastTick(|frames| - 1, step, t, end);
        return Some(frames);
      }
      NextTick(|frames| - 1, step);
      t := t + step;
    }
  }

  /** Move on to the latest capture at or before `t`. */
  method Advance(caps: seq<Cap>, start: nat, t: nat) returns (src: nat)
    requires InTimeOrder(caps) && start < |caps| && (start > 0 ==> caps[start].t <= t)
    ensures IsSource(caps, src, t)
  {
    src := start;
    while src + 1 < |caps| && caps[src + 1].t <= t
      invariant src < |caps| && (src > 0 ==> caps[src].t <= t)
    {
      src := src + 1;
    }
  }

  lemma NothingShown(caps: seq<Cap>, step: nat, decode: Picture -> Option<Image>)
    ensures Shows([], caps, step, decode)
  {
  }

  lemma OneMoreShown(frames: seq<Frame>, caps: seq<Cap>, step: nat, decode: Picture -> Option<Image>,
      src: nat, frame: Frame, t: nat)
    requires Shows(frames, caps, step, decode) && t == |frames| * step && IsSource(caps, src, t)
    requires decode(caps[src].png) == Some(frame.base) && frame.cursor == caps[src].cursor
    ensures Shows(frames + [frame], caps, step, decode)
  {
    hide IsSource;
    assert ShownAt(frame, caps, t, decode);
    forall k | 0 <= k < |frames + [frame]| ensures ShownAt((frames + [frame])[k], caps, k * step, decode) {
      if k < |frames| { assert ShownAt(frames[k], caps, k * step, decode); }
    }
  }

  lemma NextTick(k: nat, step: nat)
    ensures k * step + step == (k + 1) * step
  {
  }

  lemma LastTick(k: nat, step: nat, t: nat, end: nat)
    requires step > 0 && t == k * step && end <= t && (k > 0 ==> t < end + step)
    ensures k + 1 == FrameCount(end, step)
  {
    var q := (end + step - 1) / step;
    assert q * step <= end + step - 1 < q * step + step by { Quotient(end + step - 1, step); }
    if k > q {
      Apart(q, k, step);
    } else if k < q {
      Apart(k, q, step);
    }
  }

  lemma Quotient(n: nat, d: nat)
    requires d > 0
    ensures n / d * d <= n < n / d * d + d
  {
  }

  lemma Apart(a: nat, b: nat, step: nat)
    requires a < b
    ensures a * step + step <= b * step
  {
    assert (a + 1) * step <= b * step;
  }

  /** A rate in range is kept, and one out of range moved to the end it is nearer to. */
  lemma RateKept(fps: nat)
    ensures 1 <= fps <= 30 ==> StepMs(fps) == 1000 / fps && Clamped(fps) == fps
    ensures fps == 0 ==> StepMs(fps) == 1000
    ensures fps > 30 ==> StepMs(fps) == 33
  {
  }

  /** A frame is played `1000/fps` milliseconds after the one before but shows the page
      `step` later: playback keeps time exactly when the rate divides a second. */
  lemma PlaybackKeepsTime(fps: nat, k: nat)
    requires k > 0
    ensures k * StepMs(fps) * Clamped(fps) == k * 1000 <==> 1000 % Clamped(fps) == 0
  {
    var f := Clamped(fps);
    Quotient(1000, f);
    assert 1000 == StepMs(fps) * f + 1000 % f;
    assert k * StepMs(fps) * f == k * (StepMs(fps) * f);
    if 1000 % f != 0 {
      Apart(StepMs(fps) * f, 1000, k);
    }
  }
}
