/** The speed trace of the stirrer controllers: two buffers of sample
    times and speeds bounded like `deque(maxlen=1000)`, and the plot view
    drawn from them, the last ten seconds with a zoom of plus or minus
    200 RPM around the latest speed. */
module RpmTrace {
  import opened Wrappers

  const BufferCapacity: nat := 1000
  const PlotWindowSec: real := 10.0
  const ZoomRange: real := 200.0

  predicate Sorted(ts: seq<real>)
  {
    forall k :: 0 < k < |ts| ==> ts[k - 1] <= ts[k]
  }

  /** Appending to a bounded deque: once full, the oldest sample drops out,
      so the buffer always holds the newest samples. */
  function Push(buf: seq<real>, x: real): (r: seq<real>)
    requires |buf| <= BufferCapacity
    ensures |r| == if |buf| < BufferCapacity then |buf| + 1 else BufferCapacity
    ensures r == (buf + [x])[|buf| + 1 - |r|..]
  {
    if |buf| < BufferCapacity then buf + [x] else buf[1..] + [x]
  }

  /** Samples pushed in time order stay in time order. */
  lemma PushKeepsOrder(buf: seq<real>, x: real)
    requires |buf| <= BufferCapacity
    requires Sorted(buf)
    requires buf == [] || buf[|buf| - 1] <= x
    ensures Sorted(Push(buf, x))
  {
    var d := if |buf| < BufferCapacity then 0 else 1;
    var r := buf[d..] + [x];
    assert Push(buf, x) == r;
    forall k | 0 < k < |r|
      ensures r[k - 1] <= r[k]
    {
      if k < |r| - 1 {
        assert r[k - 1] == buf[d + k - 1] && r[k] == buf[d + k];
      } else {
        assert r[k - 1] == buf[|buf| - 1];
      }
    }
  }

  /** `[t for t in time_buffer if t >= t0]`. */
  function Recent(ts: seq<real>, t0: real): (w: seq<real>)
    ensures |w| <= |ts|
    ensures forall k :: 0 <= k < |w| ==> w[k] >= t0
    ensures ts != [] && ts[|ts| - 1] >= t0 ==> w != [] && w[|w| - 1] == ts[|ts| - 1]
  {
    if ts == [] then []
    else Recent(ts[..|ts| - 1], t0) + (if ts[|ts| - 1] >= t0 then [ts[|ts| - 1]] else [])
  }

  /** The window keeps every sample at or after `t0` and nothing else. */
  lemma {:induction false} RecentMembers(ts: seq<real>, t0: real, t: real)
    ensures t in Recent(ts, t0) <==> t in ts && t >= t0
  {
    if ts != [] {
      var init := ts[..|ts| - 1];
      RecentMembers(init, t0, t);
      assert ts == init + [ts[|ts| - 1]];
    }
  }

  /** In a time-ordered buffer the samples of the window are a suffix. */
  lemma {:induction false} RecentIsSuffix(ts: seq<real>, t0: real)
    requires Sorted(ts)
    ensures Recent(ts, t0) == ts[|ts| - |Recent(ts, t0)|..]
  {
    if ts != [] {
      var init := ts[..|ts| - 1];
      assert Sorted(init);
      RecentIsSuffix(init, t0);
      if ts[|ts| - 1] < t0 {
        RecentBelow(ts, t0);
      } else {
        RecentExtends(ts, t0);
      }
    }
  }

  /** A sample inside the window extends the window of the samples before it. */
  lemma RecentExtends(ts: seq<real>, t0: real)
    requires ts != [] && ts[|ts| - 1] >= t0
    requires var init := ts[..|ts| - 1]; Recent(init, t0) == init[|init| - |Recent(init, t0)|..]
    ensures Recent(ts, t0) == ts[|ts| - |Recent(ts, t0)|..]
  {
    var n := |ts|;
    var init := ts[..n - 1];
    var w := Recent(init, t0);
    assert Recent(ts, t0) == w + [ts[n - 1]];
    SuffixGrows(ts, |init| - |w|);
  }

  lemma SuffixGrows(ts: seq<real>, k: nat)
    requires k < |ts|
    ensures ts[..|ts| - 1][k..] + [ts[|ts| - 1]] == ts[k..]
  {
  }

  /** A time-ordered buffer whose newest sample is before `t0` has an empty window. */
  lemma {:induction false} RecentBelow(ts: seq<real>, t0: real)
    requires Sorted(ts)
    requires ts != [] && ts[|ts| - 1] < t0
    ensures Recent(ts, t0) == []
  {
    var init := ts[..|ts| - 1];
    if init != [] {
      assert init[|init| - 1] <= ts[|ts| - 1];
      RecentBelow(init, t0);
    }
  }

  /** `list(buffer)[-n:]` for `n >= 1`: the last `n` samples, or all of them. */
  function Tail(xs: seq<real>, n: nat): (r: seq<real>)
    requires n >= 1
    ensures |r| == if n < |xs| then n else |xs|
    ensures r == xs[|xs| - |r|..]
  {
    if n >= |xs| then xs else xs[|xs| - n..]
  }

  /** What `update_plot` draws: the samples of the window, the x range of
      both axes and the y range of the zoomed axis. */
  datatype View = View(times: seq<real>, speeds: seq<real>, xMin: real, xMax: real, zoomMin: real, zoomMax: real)

  /** `update_plot`: nothing to draw before the first sample. */
  function PlotView(ts: seq<real>, rs: seq<real>): (v: Option<View>)
    requires |ts| == |rs|
    ensures v.None? <==> ts == []
    ensures v.Some? ==>
      var last := ts[|ts| - 1];
      && v.value.times == Recent(ts, last - PlotWindowSec)
      && |v.value.speeds| == |v.value.times| > 0
      && v.value.speeds == rs[|rs| - |v.value.times|..]
      && v.value.times[|v.value.times| - 1] == last
      && v.value.speeds[|v.value.speeds| - 1] == rs[|rs| - 1]
      && v.value.xMax == last
      && v.value.xMin == (if last - PlotWindowSec > 0.0 then last - PlotWindowSec else 0.0)
      && v.value.zoomMin == rs[|rs| - 1] - ZoomRange
      && v.value.zoomMax == rs[|rs| - 1] + ZoomRange
  {
    if ts == [] then None
    else
      var t0 := ts[|ts| - 1] - PlotWindowSec;
      var times := Recent(ts, t0);
      var speeds := Tail(rs, |times|);
      var c := speeds[|speeds| - 1];
      var v := View(times, speeds, if t0 > 0.0 then t0 else 0.0, ts[|ts| - 1], c - ZoomRange, c + ZoomRange);
      assert |speeds| == |times| > 0;
      assert v.speeds[|v.speeds| - 1] == rs[|rs| - 1];
      Some(v)
  }

  /** With time-ordered samples each plotted speed is drawn at the time it
      was recorded with. */
  lemma PlotAligned(ts: seq<real>, rs: seq<real>)
    requires |ts| == |rs| && ts != []
    requires Sorted(ts)
    ensures var v := PlotView(ts, rs).value;
      var start := |ts| - |v.times|;
      v.times == ts[start..] && v.speeds == rs[start..]
  {
    RecentIsSuffix(ts, ts[|ts| - 1] - PlotWindowSec);
  }
}
