/**
 * The per-frame closure of `src/lib.rs`: measure the time since the previous
 * frame, update the emitter unless that delta is too large, always render, and
 * remember the current time for the next frame.
 */
module Frame {
  import opened Particle

  /** Deltas of 150 ms or more (a stalled or hidden tab) skip the update. */
  const MaxTimeDelta: real := 0.15

  /** What the closure keeps between frames. */
  datatype FrameState = FrameState(emitter: Emitter, startTime: real, prevTime: real)

  /** The view matrix for the time elapsed since start (the orbiting camera). */
  type Camera = real -> Mat4

  datatype FrameResult = FrameResult(next: FrameState, updated: bool, draw: DrawCall)

  /** The state before the first frame: `prev_time` starts at `start_time`. */
  function Start(e: Emitter, startTime: real): FrameState
  {
    FrameState(e, startTime, startTime)
  }

  /**
   * One frame at `currentTime`. The update runs exactly when the delta is below
   * 150 ms; the render always runs, after it; `prev_time` always advances.
   */
  function Step(sys: UpdateSystem, projection: Mat4, camera: Camera, s: FrameState, currentTime: real): (r: FrameResult)
    requires s.emitter.Valid()
    ensures r.next.emitter.Valid()
    ensures r.updated <==> currentTime - s.prevTime < MaxTimeDelta
    ensures r.updated ==> r.next.emitter == Update(sys, s.emitter, currentTime - s.prevTime)
    ensures !r.updated ==> r.next.emitter == s.emitter
    ensures r.next.emitter.generation == s.emitter.generation + (if r.updated then 1 else 0)
    ensures r.next.emitter.options == s.emitter.options
    ensures r.next.prevTime == currentTime && r.next.startTime == s.startTime
    ensures r.draw == Render(r.next.emitter, projection, camera(currentTime - s.startTime))
    ensures r.updated ==> r.draw.bufferIndex != WriteIndex(s.emitter.generation)
  {
    var timeDelta := currentTime - s.prevTime;
    var time := currentTime - s.startTime;
    var emitter := if timeDelta < MaxTimeDelta then Update(sys, s.emitter, timeDelta) else s.emitter;
    var draw := Render(emitter, projection, camera(time));
    FrameResult(FrameState(emitter, s.startTime, currentTime), timeDelta < MaxTimeDelta, draw)
  }

  datatype RunResult = RunResult(final: FrameState, draws: seq<DrawCall>)

  /** Frames at the given successive times: one draw per frame, generation grows by at most one each. */
  function Run(sys: UpdateSystem, projection: Mat4, camera: Camera, s: FrameState, times: seq<real>): (r: RunResult)
    requires s.emitter.Valid()
    ensures r.final.emitter.Valid()
    ensures |r.draws| == |times|
    ensures r.final.emitter.options == s.emitter.options
    ensures s.emitter.generation <= r.final.emitter.generation <= s.emitter.generation + |times|
    ensures r.final.prevTime == (if |times| == 0 then s.prevTime else times[|times| - 1])
    ensures r.final.startTime == s.startTime
    decreases |times|
  {
    if |times| == 0 then RunResult(s, [])
    else
      var f := Step(sys, projection, camera, s, times[0]);
      var rest := Run(sys, projection, camera, f.next, times[1..]);
      RunResult(rest.final, [f.draw] + rest.draws)
  }

  /** Draw k of a run is the draw of frame k, taken from the state the first k frames leave. */
  lemma {:induction false} RunDrawAt(sys: UpdateSystem, projection: Mat4, camera: Camera, s: FrameState, times: seq<real>, k: nat)
    requires s.emitter.Valid()
    requires k < |times|
    ensures Run(sys, projection, camera, s, times[..k]).final.emitter.Valid()
    ensures Run(sys, projection, camera, s, times).draws[k]
         == Step(sys, projection, camera, Run(sys, projection, camera, s, times[..k]).final, times[k]).draw
    decreases k
  {
    var f := Step(sys, projection, camera, s, times[0]);
    if k == 0 {
      assert times[..0] == [];
    } else {
      var tail := times[1..];
      RunDrawAt(sys, projection, camera, f.next, tail, k - 1);
      assert times[..k][0] == times[0];
      assert times[..k][1..] == tail[..k - 1];
      assert Run(sys, projection, camera, s, times[..k]).final
          == Run(sys, projection, camera, f.next, tail[..k - 1]).final;
      assert tail[k - 1] == times[k];
    }
  }

  /**
   * From the start state, the first frame updates exactly when less than
   * 150 ms have passed since start, and over any run the generation grows by
   * the number of short deltas, the first measured from the start time.
   */
  lemma RunFromStart(sys: UpdateSystem, projection: Mat4, camera: Camera, e: Emitter, startTime: real, times: seq<real>)
    requires e.Valid()
    ensures forall t :: Step(sys, projection, camera, Start(e, startTime), t).updated <==> t - startTime < MaxTimeDelta
    ensures Run(sys, projection, camera, Start(e, startTime), times).final.startTime == startTime
    ensures Run(sys, projection, camera, Start(e, startTime), times).final.emitter.generation
         == e.generation + ShortDeltas(Deltas(startTime, times))
  {
    RunGeneration(sys, projection, camera, Start(e, startTime), times);
  }

  /** The time delta each frame sees: its time minus the previous frame's (or the start's). */
  function Deltas(prevTime: real, times: seq<real>): (ds: seq<real>)
    ensures |ds| == |times|
  {
    seq(|times|, k requires 0 <= k < |times| => times[k] - (if k == 0 then prevTime else times[k - 1]))
  }

  /** How many of the deltas are below the threshold. */
  function ShortDeltas(ds: seq<real>): nat {
    if |ds| == 0 then 0 else (if ds[0] < MaxTimeDelta then 1 else 0) + ShortDeltas(ds[1..])
  }

  /** Over any run, the generation grows by exactly the number of frames whose delta was below 150 ms. */
  lemma {:induction false} RunGeneration(sys: UpdateSystem, projection: Mat4, camera: Camera, s: FrameState, times: seq<real>)
    requires s.emitter.Valid()
    ensures Run(sys, projection, camera, s, times).final.emitter.generation
         == s.emitter.generation + ShortDeltas(Deltas(s.prevTime, times))
    decreases |times|
  {
    if |times| > 0 {
      var f := Step(sys, projection, camera, s, times[0]);
      var rest := Run(sys, projection, camera, f.next, times[1..]);
      assert Run(sys, projection, camera, s, times).final == rest.final;
      RunGeneration(sys, projection, camera, f.next, times[1..]);
      var ds := Deltas(s.prevTime, times);
      DeltasTail(s.prevTime, times);
      assert ShortDeltas(ds) == (if ds[0] < MaxTimeDelta then 1 else 0) + ShortDeltas(ds[1..]);
      assert f.next.emitter.generation == s.emitter.generation + (if ds[0] < MaxTimeDelta then 1 else 0);
    }
  }

  lemma DeltasTail(prevTime: real, times: seq<real>)
    requires |times| > 0
    ensures Deltas(prevTime, times)[0] == times[0] - prevTime
    ensures Deltas(prevTime, times)[1..] == Deltas(times[0], times[1..])
  {
    var ds := Deltas(prevTime, times);
    var tail := Deltas(times[0], times[1..]);
    assert |ds[1..]| == |tail|;
    forall k | 0 <= k < |tail|
      ensures ds[1..][k] == tail[k]
    {
      assert ds[1..][k] == ds[k + 1];
    }
  }
}
