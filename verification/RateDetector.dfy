/** The arrival-rate detector: a rolling window over frame times that flags a
    sustained excursion above five times the expected rate.

    The daemon divides doubles; here `count / seconds > fps * 5` is the exact
    cross-multiplied comparison. `Observe` is one call of the online code. The
    independent reading is `Cut`: chop the whole list of frame times into
    windows, each closing at the first frame at least two seconds after its
    start, and judge every closed window on its own. */
module RateDetector {
  import opened Types

  const WINDOW: nat := 2 * NS_PER_S
  const FACTOR: nat := 5

  datatype Detector = Detector(windowStart: int, frameCount: nat, active: bool)

  predicate TooFast(fps: nat, count: nat, elapsed: int) {
    fps > 0 && count * NS_PER_S > FACTOR * fps * elapsed
  }

  /** The detector after one more frame. */
  function Observe(fps: nat, d: Detector, t: int): Detector {
    var count := d.frameCount + 1;
    var elapsed := t - d.windowStart;
    if elapsed < WINDOW then d.(frameCount := count)
    else Detector(t, 0, TooFast(fps, count, elapsed))
  }

  /** Whether that frame opens a new episode, which is what gets counted. */
  predicate OpensEpisode(fps: nat, d: Detector, t: int) {
    !d.active && Observe(fps, d, t).active
  }

  /** The detector of a session that began at `start` and delivered frames at `ts`. */
  function After(fps: nat, start: int, ts: seq<int>): Detector {
    if ts == [] then Detector(start, 0, false)
    else Observe(fps, After(fps, start, Init(ts)), Last(ts))
  }

  /** The episodes counted in such a session. */
  function Episodes(fps: nat, start: int, ts: seq<int>): nat {
    if ts == [] then 0
    else Episodes(fps, start, Init(ts)) + (if OpensEpisode(fps, After(fps, start, Init(ts)), Last(ts)) then 1 else 0)
  }

  // ---- Windows --------------------------------------------------------------

  datatype Window = Window(start: int, frames: seq<int>)

  /** The number of leading frames that fall short of two seconds after `start`. */
  function Short(start: int, ts: seq<int>): (k: nat)
    ensures k <= |ts|
    ensures forall i :: 0 <= i < k ==> ts[i] - start < WINDOW
    ensures k < |ts| ==> ts[k] - start >= WINDOW
  {
    if ts == [] || ts[0] - start >= WINDOW then 0 else 1 + Short(start, ts[1..])
  }

  /** The session chopped into windows; the last one is still open. */
  function Cut(start: int, ts: seq<int>): (ws: seq<Window>)
    ensures ws != []
    decreases |ts|
  {
    var k := Short(start, ts);
    if k == |ts| then [Window(start, ts)]
    else [Window(start, ts[..k + 1])] + Cut(ts[k], ts[k + 1..])
  }

  predicate Verdict(fps: nat, w: Window) {
    w.frames != [] && TooFast(fps, |w.frames|, Last(w.frames) - w.start)
  }

  function Verdicts(fps: nat, ws: seq<Window>): seq<bool> {
    seq(|ws|, i requires 0 <= i < |ws| => Verdict(fps, ws[i]))
  }

  /** Rising edges of a verdict sequence that starts from "not active". */
  function RisingEdges(vs: seq<bool>): nat {
    if vs == [] then 0
    else RisingEdges(Init(vs)) + (if Last(vs) && (|vs| == 1 || !vs[|vs| - 2]) then 1 else 0)
  }

  function AllFrames(ws: seq<Window>): seq<int> {
    if ws == [] then [] else ws[0].frames + AllFrames(ws[1..])
  }

  /** A window closed properly: only its last frame is two seconds or more after its start. */
  predicate ClosesOnTime(w: Window) {
    && w.frames != []
    && Last(w.frames) - w.start >= 2_000_000_000
    && forall i :: 0 <= i < |w.frames| - 1 ==> w.frames[i] - w.start < 2_000_000_000
  }

  /** Every frame lies in exactly one window, in order. */
  lemma {:induction false} CutPartitions(start: int, ts: seq<int>)
    ensures AllFrames(Cut(start, ts)) == ts
    decreases |ts|
  {
    var k := Short(start, ts);
    if k == |ts| {
      assert AllFrames([Window(start, ts)][1..]) == [];
    } else {
      CutPartitions(ts[k], ts[k + 1..]);
      assert Cut(start, ts)[1..] == Cut(ts[k], ts[k + 1..]);
      assert ts == ts[..k + 1] + ts[k + 1..];
    }
  }

  ghost predicate WellCut(start: int, ws: seq<Window>)
    requires ws != []
  {
    && ws[0].start == start
    && (forall i :: 0 <= i < |ws| - 1 ==> ClosesOnTime(ws[i]) && ws[i + 1].start == Last(ws[i].frames))
    && (forall i :: 0 <= i < |Last(ws).frames| ==> Last(ws).frames[i] - Last(ws).start < 2_000_000_000)
  }

  /** Every closed window ends at the first frame two seconds or more after its start,
      the next one starts there, and the open one is not yet two seconds long. */
  lemma {:induction false} CutClosesOnTime(start: int, ts: seq<int>)
    ensures WellCut(start, Cut(start, ts))
    decreases |ts|
  {
    var k := Short(start, ts);
    if k < |ts| {
      CutClosesOnTime(ts[k], ts[k + 1..]);
      var rest, ws := Cut(ts[k], ts[k + 1..]), Cut(start, ts);
      assert ClosesOnTime(ws[0]) && Last(ws[0].frames) == ts[k];
      forall i | 0 <= i < |ws| - 1
        ensures ClosesOnTime(ws[i]) && ws[i + 1].start == Last(ws[i].frames)
      {
        assert i > 0 ==> ws[i] == rest[i - 1];
        assert ws[i + 1] == rest[i];
      }
      assert Last(ws) == Last(rest);
    }
  }

  lemma {:induction false} ShortSnoc(start: int, ts: seq<int>, t: int)
    ensures Short(start, ts + [t])
         == if Short(start, ts) == |ts| && t - start < WINDOW then |ts| + 1 else Short(start, ts)
  {
    if ts != [] && ts[0] - start < WINDOW {
      assert (ts + [t])[1..] == ts[1..] + [t];
      ShortSnoc(start, ts[1..], t);
    }
  }

  lemma {:induction false} SliceSnoc(ts: seq<int>, t: int, k: nat)
    requires k <= |ts|
    ensures (ts + [t])[..k] == ts[..k] && (ts + [t])[k..] == ts[k..] + [t]
  {
  }

  /** The windows after one more frame: it joins the open window or closes it. */
  function Extend(ws: seq<Window>, t: int): seq<Window>
    requires ws != []
  {
    var open := Last(ws);
    Init(ws) + [Window(open.start, open.frames + [t])] + (if t - open.start < WINDOW then [] else [Window(t, [])])
  }

  lemma {:induction false} CutOpen(start: int, ts: seq<int>)
    requires Short(start, ts) == |ts|
    ensures Cut(start, ts) == [Window(start, ts)]
  {
  }

  lemma {:induction false} CutClosing(start: int, ts: seq<int>, t: int)
    requires Short(start, ts) == |ts| && t - start >= WINDOW
    ensures Cut(start, ts + [t]) == [Window(start, ts + [t]), Window(t, [])]
  {
    ShortSnoc(start, ts, t);
    var all := ts + [t];
    assert all[..|ts| + 1] == all && all[|ts| + 1..] == [] && all[|ts|] == t;
    CutOpen(t, []);
  }

  lemma {:induction false} CutSnocOpen(start: int, ts: seq<int>, t: int)
    requires Short(start, ts) == |ts|
    ensures Cut(start, ts + [t]) == Extend(Cut(start, ts), t)
  {
    CutOpen(start, ts);
    if t - start >= WINDOW {
      CutClosing(start, ts, t);
    } else {
      ShortSnoc(start, ts, t);
      CutOpen(start, ts + [t]);
    }
  }

  lemma {:induction false} ExtendBehind(w: Window, rest: seq<Window>, t: int)
    requires rest != []
    ensures Extend([w] + rest, t) == [w] + Extend(rest, t)
  {
    assert Init([w] + rest) == [w] + Init(rest) && Last([w] + rest) == Last(rest);
  }

  lemma {:induction false} CutSnoc(start: int, ts: seq<int>, t: int)
    ensures Cut(start, ts + [t]) == Extend(Cut(start, ts), t)
    decreases |ts|
  {
    var k := Short(start, ts);
    if k == |ts| {
      CutSnocOpen(start, ts, t);
    } else {
      ShortSnoc(start, ts, t);
      SliceSnoc(ts, t, k + 1);
      CutSnoc(ts[k], ts[k + 1..], t);
      ExtendBehind(Window(start, ts[..k + 1]), Cut(ts[k], ts[k + 1..]), t);
    }
  }

  lemma {:induction false} VerdictsSnoc(fps: nat, ws: seq<Window>, w: Window)
    ensures Verdicts(fps, ws + [w]) == Verdicts(fps, ws) + [Verdict(fps, w)]
  {
  }

  /** What the online detector holds, read off the windows. */
  ghost predicate Summarizes(fps: nat, d: Detector, episodes: nat, ws: seq<Window>)
    requires ws != []
  {
    && d.windowStart == Last(ws).start
    && d.frameCount == |Last(ws).frames|
    && (d.active <==> |ws| > 1 && Verdict(fps, ws[|ws| - 2]))
    && episodes == RisingEdges(Verdicts(fps, Init(ws)))
  }

  lemma {:induction false} ExtendKeepsSummary(fps: nat, d: Detector, episodes: nat, ws: seq<Window>, t: int)
    requires ws != [] && Summarizes(fps, d, episodes, ws)
    ensures Summarizes(fps, Observe(fps, d, t), episodes + (if OpensEpisode(fps, d, t) then 1 else 0), Extend(ws, t))
  {
    var open, next := Last(ws), Extend(ws, t);
    var closed := Window(open.start, open.frames + [t]);
    if t - open.start < WINDOW {
      assert Init(next) == Init(ws);
      assert |ws| > 1 ==> next[|next| - 2] == ws[|ws| - 2];
    } else {
      assert Init(next) == Init(ws) + [closed];
      assert Last(closed.frames) == t;
      VerdictsSnoc(fps, Init(ws), closed);
      var vs := Verdicts(fps, Init(ws));
      SnocParts(vs, Verdict(fps, closed));
      assert |ws| > 1 ==> vs[|vs| - 1] == Verdict(fps, ws[|ws| - 2]);
    }
  }

  /** The online detector computes the window reading: it holds the start and size of
      the open window and the verdict of the last closed one, and the episodes it
      counts are the rising edges of the verdicts. */
  lemma {:induction false} DetectorRefinesWindows(fps: nat, start: int, ts: seq<int>)
    ensures Summarizes(fps, After(fps, start, ts), Episodes(fps, start, ts), Cut(start, ts))
    decreases |ts|
  {
    if ts == [] {
      assert Verdicts(fps, Init(Cut(start, ts))) == [];
    } else {
      var t, before := Last(ts), Init(ts);
      assert ts == before + [t];
      DetectorRefinesWindows(fps, start, before);
      CutSnoc(start, before, t);
      ExtendKeepsSummary(fps, After(fps, start, before), Episodes(fps, start, before), Cut(start, before), t);
    }
  }

  // ---- Soundness ------------------------------------------------------------

  /** The time a frame is measured against: the previous frame, or the session start. */
  function Previous(start: int, ts: seq<int>, i: nat): int
    requires i < |ts|
  {
    if i == 0 then start else ts[i - 1]
  }

  lemma {:induction false} SlowWindow(fps: nat, d: nat, count: nat, elapsed: int)
    requires FACTOR * fps * d >= NS_PER_S
    requires elapsed >= count * d
    ensures !TooFast(fps, count, elapsed)
  {
    var r := FACTOR * fps;
    assert r * elapsed >= r * (count * d) by {
      assert r * (elapsed - count * d) >= 0;
    }
    assert r * (count * d) == count * (r * d);
    assert count * (r * d) >= count * NS_PER_S by {
      assert count * (r * d - NS_PER_S) >= 0;
    }
  }

  /** Soundness: while no gap is shorter than a fifth of the expected interval, no
      anomaly is ever recorded, and none is active. */
  lemma {:induction false} NoFalseAlarm(fps: nat, start: int, ts: seq<int>, d: nat)
    requires 5 * fps * d >= 1_000_000_000
    requires forall i {:trigger Previous(start, ts, i)} :: 0 <= i < |ts| ==> ts[i] - Previous(start, ts, i) >= d
    ensures Episodes(fps, start, ts) == 0 && !After(fps, start, ts).active
    ensures (if ts == [] then start else Last(ts)) - After(fps, start, ts).windowStart
         >= After(fps, start, ts).frameCount * d
    decreases |ts|
  {
    if ts != [] {
      var before, n := Init(ts), |ts| - 1;
      assert forall i {:trigger Previous(start, before, i)} ::
          0 <= i < |before| ==> before[i] == ts[i] && Previous(start, before, i) == Previous(start, ts, i);
      NoFalseAlarm(fps, start, before, d);
      var a := After(fps, start, before);
      assert ts[n] - Previous(start, ts, n) >= d;
      assert (a.frameCount + 1) * d == a.frameCount * d + d;
      assert ts[n] - a.windowStart >= (a.frameCount + 1) * d;
      SlowWindow(fps, d, a.frameCount + 1, ts[n] - a.windowStart);
    }
  }

  /** With no rate expected nothing is ever recorded, however fast frames come. */
  lemma {:induction false} NoRateNoEpisode(start: int, ts: seq<int>)
    ensures Episodes(0, start, ts) == 0 && !After(0, start, ts).active
    decreases |ts|
  {
    if ts != [] {
      NoRateNoEpisode(start, Init(ts));
    }
  }

  lemma {:induction false} Quotient(count: real, seconds: real, limit: real)
    requires seconds > 0.0
    ensures count / seconds > limit <==> count > limit * seconds
  {
    var q := count / seconds;
    assert q * seconds == count;
    if q > limit {
      assert (q - limit) * seconds > 0.0;
    } else {
      assert (limit - q) * seconds >= 0.0;
    }
  }

  /** The verdict on a window compares frames by seconds with five times the expected rate,
      if there is one. */
  lemma {:induction false} TooFastIff(fps: nat, count: nat, elapsed: int)
    requires elapsed > 0
    ensures TooFast(fps, count, elapsed)
       <==> fps > 0 && count as real / (elapsed as real / 1_000_000_000.0) > fps as real * 5.0
  {
    Quotient(count as real, elapsed as real / 1_000_000_000.0, fps as real * 5.0);
    assert (fps * elapsed) as real == fps as real * elapsed as real;
  }

  // ---- Completeness ---------------------------------------------------------

  lemma {:induction false} FastWindow(fps: nat, g: nat, count: nat, elapsed: int)
    requires fps > 0 && FACTOR * fps * g < NS_PER_S
    requires 1 <= count && elapsed <= count * g
    ensures TooFast(fps, count, elapsed)
  {
    var r := FACTOR * fps;
    assert r * elapsed <= r * (count * g) by {
      assert r * (count * g - elapsed) >= 0;
    }
    assert r * (count * g) == count * (r * g);
    assert count * (r * g) < count * NS_PER_S by {
      assert count * (NS_PER_S - r * g) > 0;
    }
  }

  /** Frame times do not run backwards. */
  ghost predicate NeverBack(start: int, ts: seq<int>) {
    forall i {:trigger Previous(start, ts, i)} :: 0 <= i < |ts| ==> Previous(start, ts, i) <= ts[i]
  }

  /** From `instant` on every gap is at most `g`: the first frame at or after it
      has index `j`. */
  ghost predicate Floods(start: int, ts: seq<int>, j: nat, instant: int, g: nat) {
    && j < |ts|
    && Previous(start, ts, j) <= instant <= ts[j] <= instant + g
    && forall i {:trigger Previous(start, ts, i)} :: j < i < |ts| ==> ts[i] - Previous(start, ts, i) <= g
  }

  ghost predicate FloodFrom(start: int, ts: seq<int>, j: nat, instant: int, g: nat) {
    Floods(start, ts, j, instant, g) && NeverBack(start, ts)
  }

  lemma {:induction false} NeverBackPrefix(start: int, ts: seq<int>, k: nat)
    requires k <= |ts| && NeverBack(start, ts)
    ensures NeverBack(start, ts[..k])
  {
    assert forall i {:trigger Previous(start, ts[..k], i)} ::
        0 <= i < k ==> Previous(start, ts[..k], i) == Previous(start, ts, i);
  }

  /** Before the flood the open window started no later than the last frame. */
  lemma {:induction false} WindowStartsInThePast(fps: nat, start: int, ts: seq<int>)
    requires NeverBack(start, ts)
    ensures After(fps, start, ts).windowStart <= (if ts == [] then start else Last(ts))
    decreases |ts|
  {
    if ts != [] {
      var before := Init(ts);
      NeverBackPrefix(start, ts, |before|);
      assert Previous(start, ts, |before|) <= ts[|before|];
      WindowStartsInThePast(fps, start, before);
    }
  }

  /** Still in the window that the flood found open. */
  ghost predicate Straddling(d: Detector, now: int, records: int, instant: int, begun: bool) {
    d.windowStart <= instant && (begun ==> now < d.windowStart + WINDOW) && records == 0
  }

  /** In the first window that lies wholly in the flood. */
  ghost predicate FirstFullWindow(d: Detector, now: int, records: int, instant: int, g: nat) {
    && d.windowStart <= instant + WINDOW + g
    && now < d.windowStart + WINDOW
    && now - d.windowStart <= d.frameCount * g
    && 0 <= records && records + (if d.active then 0 else 1) <= 1
  }

  /** Flagged, and every later window keeps it so. */
  ghost predicate Flagged(d: Detector, now: int, records: int, g: nat) {
    d.active && now - d.windowStart <= d.frameCount * g && 0 <= records <= 1
  }

  lemma {:induction false} StraddlingStep(fps: nat, d: Detector, now: int, records: int, instant: int, begun: bool, g: nat, t: int)
    requires Straddling(d, now, records, instant, begun)
    requires if begun then t - now <= g else t <= instant + g
    ensures var e, r := Observe(fps, d, t), records + (if OpensEpisode(fps, d, t) then 1 else 0);
      Straddling(e, t, r, instant, true) || FirstFullWindow(e, t, r, instant, g)
  {
  }

  lemma {:induction false} FullWindowStep(fps: nat, d: Detector, now: int, records: int, instant: int, g: nat, t: int)
    requires fps > 0 && FACTOR * fps * g < NS_PER_S
    requires FirstFullWindow(d, now, records, instant, g) || Flagged(d, now, records, g)
    requires t - now <= g
    ensures var e, r := Observe(fps, d, t), records + (if OpensEpisode(fps, d, t) then 1 else 0);
      FirstFullWindow(e, t, r, instant, g) || Flagged(e, t, r, g)
  {
    var count, elapsed := d.frameCount + 1, t - d.windowStart;
    assert count * g == d.frameCount * g + g;
    if elapsed >= WINDOW {
      FastWindow(fps, g, count, elapsed);
    }
  }

  ghost predicate Stage(d: Detector, now: int, records: int, instant: int, begun: bool, g: nat) {
    || Straddling(d, now, records, instant, begun)
    || (begun && (FirstFullWindow(d, now, records, instant, g) || Flagged(d, now, records, g)))
  }

  lemma {:induction false} StageStep(fps: nat, d: Detector, now: int, records: int, instant: int, begun: bool, g: nat, t: int)
    requires fps > 0 && FACTOR * fps * g < NS_PER_S
    requires Stage(d, now, records, instant, begun, g)
    requires if begun then t - now <= g else t <= instant + g
    ensures Stage(Observe(fps, d, t), t, records + (if OpensEpisode(fps, d, t) then 1 else 0), instant, true, g)
  {
    if Straddling(d, now, records, instant, begun) {
      StraddlingStep(fps, d, now, records, instant, begun, g, t);
    } else {
      FullWindowStep(fps, d, now, records, instant, g, t);
    }
  }

  /** The time of the last of the first `k` frames, or the session start. */
  function Clock(start: int, ts: seq<int>, k: nat): int
    requires k <= |ts|
  {
    if k == 0 then start else ts[k - 1]
  }

  lemma {:induction false} PrefixStep(fps: nat, start: int, ts: seq<int>, k: nat)
    requires 0 < k <= |ts|
    ensures var d := After(fps, start, ts[..k - 1]);
      && After(fps, start, ts[..k]) == Observe(fps, d, ts[k - 1])
      && Episodes(fps, start, ts[..k])
         == Episodes(fps, start, ts[..k - 1]) + (if OpensEpisode(fps, d, ts[k - 1]) then 1 else 0)
  {
    assert Init(ts[..k]) == ts[..k - 1] && Last(ts[..k]) == ts[k - 1];
  }

  lemma {:induction false} FloodBegins(fps: nat, start: int, ts: seq<int>, j: nat, instant: int, g: nat)
    requires FloodFrom(start, ts, j, instant, g)
    ensures Stage(After(fps, start, ts[..j]), Clock(start, ts, j), 0, instant, false, g)
  {
    NeverBackPrefix(start, ts, j);
    WindowStartsInThePast(fps, start, ts[..j]);
    assert Clock(start, ts, j) == Previous(start, ts, j);
  }

  /** The stage of the detector after the first `k` frames of a session with a flood. */
  lemma {:induction false} FloodAdvances(fps: nat, start: int, ts: seq<int>, j: nat, instant: int, g: nat, k: nat)
    requires fps > 0 && FACTOR * fps * g < NS_PER_S
    requires FloodFrom(start, ts, j, instant, g)
    requires j <= k <= |ts|
    ensures Stage(After(fps, start, ts[..k]), Clock(start, ts, k),
                  Episodes(fps, start, ts[..k]) - Episodes(fps, start, ts[..j]), instant, k > j, g)
    decreases k
  {
    if k == j {
      FloodBegins(fps, start, ts, j, instant, g);
    } else {
      FloodAdvances(fps, start, ts, j, instant, g, k - 1);
      PrefixStep(fps, start, ts, k);
      assert Previous(start, ts, k - 1) == Clock(start, ts, k - 1);
      StageStep(fps, After(fps, start, ts[..k - 1]), Clock(start, ts, k - 1),
                Episodes(fps, start, ts[..k - 1]) - Episodes(fps, start, ts[..j]), instant, k - 1 > j, g, ts[k - 1]);
    }
  }

  /** Completeness: a flood that began at `instant` has been flagged by the time four
      seconds and two gaps have passed, so that the detector is active when the first frame
      after that time comes; it stays active, and the flood costs at most one record. */
  lemma {:induction false} FloodIsFlagged(fps: nat, start: int, ts: seq<int>, j: nat, instant: int, g: nat)
    requires fps > 0 && 5 * fps * g < 1_000_000_000
    requires FloodFrom(start, ts, j, instant, g)
    ensures forall k :: j < k < |ts| && ts[k] >= instant + 4_000_000_000 + 2 * g ==> After(fps, start, ts[..k]).active
    ensures forall k :: j < k <= |ts| && ts[k - 1] >= instant + 4_000_000_000 + 2 * g ==> After(fps, start, ts[..k]).active
    ensures Episodes(fps, start, ts[..j]) <= Episodes(fps, start, ts) <= Episodes(fps, start, ts[..j]) + 1
  {
    forall k | j < k < |ts| && ts[k] >= instant + 2 * WINDOW + 2 * g
      ensures After(fps, start, ts[..k]).active
    {
      FloodAdvances(fps, start, ts, j, instant, g, k);
      assert Previous(start, ts, k) == Clock(start, ts, k);
    }
    forall k | j < k <= |ts| && ts[k - 1] >= instant + 2 * WINDOW + 2 * g
      ensures After(fps, start, ts[..k]).active
    {
      FloodAdvances(fps, start, ts, j, instant, g, k);
    }
    FloodAdvances(fps, start, ts, j, instant, g, |ts|);
    assert ts[..|ts|] == ts;
  }
}
