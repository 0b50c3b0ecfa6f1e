/**
 * The settle-then-detach watch of Assets/Scripts/Augment.cs (DetachParentWait),
 * as an explicit state polled once per frame: the number of consecutive
 * frames whose sampled world position equalled the previous sample, and that
 * previous sample. Three equal comparisons in a row (four identical
 * positions, counting the one taken when the watch started) fire it.
 */
module SettleWatch {

  /** A world position; samples are compared only for equality. */
  datatype Vec3 = Vec3(x: real, y: real, z: real)

  datatype Watch = Idle | Watching(counter: nat, last: Vec3)

  datatype StepResult = StepResult(next: Watch, fired: bool)

  /** One frame-end resumption with the content's current world position. */
  function Step(w: Watch, pos: Vec3): (r: StepResult)
    ensures r.fired <==> w.Watching? && pos == w.last && w.counter >= 2
    ensures r.fired || w.Idle? ==> r.next == Idle
    ensures !r.fired && w.Watching? ==> r.next.Watching? && r.next.last == pos
    ensures !r.fired && w.Watching? ==> r.next.counter == if pos == w.last then w.counter + 1 else 0
    ensures r.next.Watching? ==> r.next.counter <= 2
  {
    match w
    case Idle => StepResult(Idle, false)
    case Watching(counter, last) =>
      var c := if pos == last then counter + 1 else 0;
      if c > 2 then StepResult(Idle, true) else StepResult(Watching(c, pos), false)
  }

  datatype Outcome = Outcome(final: Watch, fires: nat)

  /** The watch fed one sample per frame; `fires` counts the frames on which it fired. */
  function Run(w: Watch, samples: seq<Vec3>): Outcome
    decreases |samples|
  {
    if samples == [] then Outcome(w, 0)
    else
      var s := Step(w, samples[0]);
      var rest := Run(s.next, samples[1..]);
      Outcome(rest.final, rest.fires + if s.fired then 1 else 0)
  }

  /** A cancelled (or finished) watch never fires again, whatever the samples. */
  lemma {:induction false} IdleNeverFires(samples: seq<Vec3>)
    ensures Run(Idle, samples) == Outcome(Idle, 0)
    decreases |samples|
  {
    if samples != [] {
      IdleNeverFires(samples[1..]);
    }
  }

  /** Whatever it is fed, a watch fires at most once. */
  lemma {:induction false} FiresAtMostOnce(w: Watch, samples: seq<Vec3>)
    ensures Run(w, samples).fires <= 1
    decreases |samples|
  {
    if samples != [] {
      var s := Step(w, samples[0]);
      if s.fired {
        IdleNeverFires(samples[1..]);
      } else {
        FiresAtMostOnce(s.next, samples[1..]);
      }
    }
  }

  /** Once it has fired, the watch is over: it ends Idle. */
  lemma {:induction false} FiredWatchEndsIdle(w: Watch, samples: seq<Vec3>)
    requires Run(w, samples).fires > 0
    ensures Run(w, samples).final == Idle
    decreases |samples|
  {
    var s := Step(w, samples[0]);
    if s.fired {
      IdleNeverFires(samples[1..]);
    } else {
      FiredWatchEndsIdle(s.next, samples[1..]);
    }
  }

  /** The number of consecutive equal pairs at the end of a position history. */
  function Streak(h: seq<Vec3>): nat
    decreases |h|
  {
    if |h| < 2 || h[|h| - 1] != h[|h| - 2] then 0 else 1 + Streak(h[..|h| - 1])
  }

  /** The last four positions of the history are identical. */
  ghost predicate Settled(h: seq<Vec3>) {
    |h| >= 4 && h[|h| - 1] == h[|h| - 2] && h[|h| - 2] == h[|h| - 3] && h[|h| - 3] == h[|h| - 4]
  }

  lemma StreakSettled(h: seq<Vec3>)
    ensures Streak(h) >= 3 <==> Settled(h)
  {
    var n := |h|;
    if n >= 2 && h[n - 1] == h[n - 2] {
      var h1 := h[..n - 1];
      assert Streak(h) == 1 + Streak(h1);
      assert |h1| >= 2 ==> h1[|h1| - 1] == h[n - 2] && h1[|h1| - 2] == h[n - 3];
      if |h1| >= 2 && h1[|h1| - 1] == h1[|h1| - 2] {
        var h2 := h1[..|h1| - 1];
        assert Streak(h1) == 1 + Streak(h2);
        assert |h2| >= 2 ==> h2[|h2| - 1] == h[n - 3] && h2[|h2| - 2] == h[n - 4];
        if |h2| >= 2 && h2[|h2| - 1] == h2[|h2| - 2] {
          assert Streak(h2) == 1 + Streak(h2[..|h2| - 1]);
        }
      }
    }
  }

  /**
   * One sample against a watch whose counter is the streak of the history:
   * it fires exactly when the sample completes four identical positions, and
   * otherwise the new counter is the streak of the extended history.
   */
  lemma StepTracksStreak(h: seq<Vec3>, pos: Vec3)
    requires h != [] && Streak(h) <= 2
    ensures var r := Step(Watching(Streak(h), h[|h| - 1]), pos);
      (r.fired <==> Settled(h + [pos])) &&
      (!r.fired ==> r.next == Watching(Streak(h + [pos]), pos))
  {
  }

  /** After the first n samples, the history ends in four identical positions. */
  ghost predicate SettlesAt(h: seq<Vec3>, samples: seq<Vec3>, n: nat)
    requires n <= |samples|
  {
    Settled(h + samples[..n])
  }

  /** Some sample completes four identical positions at the end of the history. */
  ghost predicate EverSettles(h: seq<Vec3>, samples: seq<Vec3>) {
    exists n :: 1 <= n <= |samples| && SettlesAt(h, samples, n)
  }

  /**
   * A watch whose counter is the streak of the positions seen so far fires,
   * over the coming samples, exactly when some extension of that history
   * ends in four identical positions.
   */
  lemma {:induction false} RunTracksHistory(h: seq<Vec3>, samples: seq<Vec3>)
    requires h != [] && Streak(h) <= 2
    ensures Run(Watching(Streak(h), h[|h| - 1]), samples).fires == if EverSettles(h, samples) then 1 else 0
    decreases |samples|
  {
    if samples != [] {
      var x := samples[0];
      var h' := h + [x];
      var rest := samples[1..];
      assert samples[..1] == [x];
      StepTracksStreak(h, x);
      var s := Step(Watching(Streak(h), h[|h| - 1]), x);
      if s.fired {
        IdleNeverFires(rest);
        assert SettlesAt(h, samples, 1);
      } else {
        RunTracksHistory(h', rest);
        assert !SettlesAt(h, samples, 1);
        forall n | 2 <= n <= |samples|
          ensures SettlesAt(h, samples, n) <==> SettlesAt(h', rest, n - 1)
        {
          assert h + samples[..n] == h' + rest[..n - 1];
        }
        if EverSettles(h, samples) {
          var n :| 1 <= n <= |samples| && SettlesAt(h, samples, n);
          assert SettlesAt(h', rest, n - 1);
        }
        if EverSettles(h', rest) {
          var m :| 1 <= m <= |rest| && SettlesAt(h', rest, m);
          assert SettlesAt(h, samples, m + 1);
        }
      }
    }
  }

  /**
   * A watch started at position p fires (once) exactly when the samples
   * bring four identical positions in a row, counting p itself.
   */
  lemma FiresExactlyWhenSettled(p: Vec3, samples: seq<Vec3>)
    ensures Run(Watching(0, p), samples).fires == if EverSettles([p], samples) then 1 else 0
  {
    RunTracksHistory([p], samples);
  }

  /**
   * The watch fires on the sample that first completes four identical
   * positions, and not on any sample before it.
   */
  lemma FiresOnFirstSettledSample(p: Vec3, samples: seq<Vec3>, n: nat)
    requires 1 <= n <= |samples| && SettlesAt([p], samples, n)
    requires forall m :: 1 <= m < n ==> !SettlesAt([p], samples, m)
    ensures Run(Watching(0, p), samples[..n - 1]).fires == 0
    ensures Run(Watching(0, p), samples[..n]).fires == 1
  {
    FiresExactlyWhenSettled(p, samples[..n - 1]);
    FiresExactlyWhenSettled(p, samples[..n]);
    var before := samples[..n - 1];
    forall m | 1 <= m <= n - 1
      ensures !SettlesAt([p], before, m)
    {
      assert !SettlesAt([p], samples, m);
      assert before[..m] == samples[..m];
    }
    assert samples[..n][..n] == samples[..n];
    assert SettlesAt([p], samples[..n], n);
  }

  /** A freshly started watch needs at least three samples before it can fire. */
  lemma NoFireWithinTwoSamples(p: Vec3, samples: seq<Vec3>)
    requires |samples| <= 2
    ensures Run(Watching(0, p), samples).fires == 0
  {
    FiresExactlyWhenSettled(p, samples);
    forall n | 1 <= n <= |samples|
      ensures !SettlesAt([p], samples, n)
    {
      assert |[p] + samples[..n]| <= 3;
    }
  }

  /** Three samples at the start position fire the watch on the third, and then it is over. */
  lemma ThreeStillFramesDetach(p: Vec3, later: seq<Vec3>)
    ensures Run(Watching(0, p), [p, p, p] + later) == Outcome(Idle, 1)
  {
    IdleNeverFires(later);
    assert ([p] + later)[1..] == later;
    assert Run(Watching(2, p), [p] + later) == Outcome(Idle, 1);
    assert ([p, p] + later)[1..] == [p] + later;
    assert Run(Watching(1, p), [p, p] + later) == Outcome(Idle, 1);
    assert ([p, p, p] + later)[1..] == [p, p] + later;
  }
}
