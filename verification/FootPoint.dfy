/**
 Where a person's feet are taken to be in one camera's image: a measured foot,
 one extrapolated from body ratios, the remembered one while a jump is
 impossible, or the last one seen.
 */
module FootPoint {
  import opened Options
  import opened PlaneGeometry

  datatype Key = Identity(id: int) | Track(id: int)

  datatype Entry = Entry(point: Point, frame: int, owner: Option<int>)

  type Memory = map<Key, Entry>

  datatype Settings = Settings(maxAge: int, maxJump: Option<real>)

  /** One detection of one frame: the track it is on and the identity it has, if any. */
  datatype Detection = Detection(track: Option<int>, identity: Option<int>, frame: Option<int>)

  function KeyFor(d: Detection): Option<Key> {
    if d.identity.Some? then Some(Identity(d.identity.value))
    else if d.track.Some? then Some(Track(d.track.value))
    else None
  }

  /** Another live track wrote this entry in this very frame. */
  predicate Conflicting(entry: Entry, d: Detection) {
    d.track.Some? && d.frame.Some? && entry.owner.Some?
    && entry.owner != d.track && entry.frame == d.frame.value
  }

  /** The entry that speaks for this detection, unless another track's of the same frame. */
  function EntryFor(memory: Memory, d: Detection): Option<Entry> {
    var key := KeyFor(d);
    if key.None? || d.frame.None? || key.value !in memory || Conflicting(memory[key.value], d) then None
    else Some(memory[key.value])
  }

  function Remember(memory: Memory, d: Detection, foot: Point): Memory {
    var key := KeyFor(d);
    if key.None? || d.frame.None? then memory
    else memory[key.value := Entry(foot, d.frame.value, d.track)]
  }

  function Recall(s: Settings, memory: Memory, d: Detection): Option<Point> {
    var entry := EntryFor(memory, d);
    if entry.None? then None
    else if 0 <= d.frame.value - entry.value.frame <= s.maxAge then Some(entry.value.point)
    else None
  }

  function Allowance(maxJump: real, frames: int): real { maxJump * frames as real }

  /** The remembered point to hold on to, when this foot is further from it than anybody moves. */
  function RejectJump(s: Settings, memory: Memory, d: Detection, foot: Point): Option<Point> {
    var entry := EntryFor(memory, d);
    if entry.None? || s.maxJump.None? || s.maxJump.value <= 0.0 then None
    else
      var delta := d.frame.value - entry.value.frame;
      if delta <= 0 || Within(foot, entry.value.point, Allowance(s.maxJump.value, delta)) then None
      else Some(entry.value.point)
  }

  /** What the pose estimator made of the detection. */
  datatype Pose =
    | NoEstimator
    | InvalidCrop
    | NoLandmarks
    | Landmarks(
        foot: Option<Point>,       // seen at all
        strictlySeen: bool,        // seen with confidence
        lookingDown: bool,
        virtualFoot: Option<Point>) // from the learned ratio, where there is one

  datatype Source = NoPose | BadCrop | NoVisibleAnkle | LastSeen | PhysicsHold | AnatomicalRatio | MediaPipe

  datatype Outcome = Outcome(memory: Memory, foot: Option<Point>, source: Source)

  /** A candidate is taken and remembered, or held back; a held frame leaves the memory alone. */
  function Try(s: Settings, memory: Memory, d: Detection, foot: Point, source: Source): Outcome {
    var held := RejectJump(s, memory, d, foot);
    if held.Some? then Outcome(memory, held, PhysicsHold)
    else Outcome(Remember(memory, d, foot), Some(foot), source)
  }

  function FallBack(s: Settings, memory: Memory, d: Detection, otherwise: Source): Outcome {
    var last := Recall(s, memory, d);
    if last.Some? then Outcome(memory, last, LastSeen) else Outcome(memory, None, otherwise)
  }

  /** The candidate this pose offers, and how it was found. */
  function Candidate(pose: Pose): Option<(Point, Source)> {
    if !pose.Landmarks? then None
    else if pose.virtualFoot.Some? && (pose.lookingDown || (pose.foot.Some? && !pose.strictlySeen))
    then Some((pose.virtualFoot.value, AnatomicalRatio))
    else if pose.foot.Some? then Some((pose.foot.value, MediaPipe))
    else if pose.virtualFoot.Some? then Some((pose.virtualFoot.value, AnatomicalRatio))
    else None
  }

  function Estimate(s: Settings, memory: Memory, d: Detection, pose: Pose): Outcome {
    if pose.NoEstimator? then Outcome(memory, None, NoPose)
    else if pose.InvalidCrop? then FallBack(s, memory, d, BadCrop)
    else
      match Candidate(pose)
      case Some((foot, source)) => Try(s, memory, d, foot, source)
      case None => FallBack(s, memory, d, NoVisibleAnkle)
  }

  /** The caller-owned memory of one camera, updated in place by the cascade of decisions. */
  class Estimator {
    const settings: Settings
    var memory: Memory

    constructor (settings: Settings)
      ensures this.settings == settings && memory == map[]
    {
      this.settings, memory := settings, map[];
    }

    method RememberFootPoint(d: Detection, foot: Point)
      modifies this`memory
      ensures memory == Remember(old(memory), d, foot)
    {
      var key := KeyFor(d);
      if key.Some? && d.frame.Some? {
        memory := memory[key.value := Entry(foot, d.frame.value, d.track)];
      }
    }

    method EstimateFootPoint(d: Detection, pose: Pose) returns (foot: Option<Point>, how: Source)
      modifies this`memory
      ensures Outcome(memory, foot, how) == Estimate(settings, old(memory), d, pose)
    {
      if pose.NoEstimator? {
        return None, NoPose;
      }
      if pose.Landmarks? {
        if pose.virtualFoot.Some? && (pose.lookingDown || (pose.foot.Some? && !pose.strictlySeen)) {
          var held := RejectJump(settings, memory, d, pose.virtualFoot.value);
          if held.Some? {
            return held, PhysicsHold;
          }
          RememberFootPoint(d, pose.virtualFoot.value);
          return pose.virtualFoot, AnatomicalRatio;
        }
        if pose.foot.Some? {
          var held := RejectJump(settings, memory, d, pose.foot.value);
          if held.Some? {
            return held, PhysicsHold;
          }
          RememberFootPoint(d, pose.foot.value);
          return pose.foot, MediaPipe;
        }
        if pose.virtualFoot.Some? {
          var held := RejectJump(settings, memory, d, pose.virtualFoot.value);
          if held.Some? {
            return held, PhysicsHold;
          }
          RememberFootPoint(d, pose.virtualFoot.value);
          return pose.virtualFoot, AnatomicalRatio;
        }
      }
      var last := Recall(settings, memory, d);
      if last.Some? {
        return last, LastSeen;
      }
      return None, if pose.InvalidCrop? then BadCrop else NoVisibleAnkle;
    }
  }

  // --- One call ------------------------------------------------------------

  predicate Accepted(source: Source) { source.AnatomicalRatio? || source.MediaPipe? }

  /** Only an accepted foot is remembered; every other outcome leaves the whole memory as it was. */
  lemma OnlyAcceptedIsRemembered(s: Settings, memory: Memory, d: Detection, pose: Pose)
    ensures var r := Estimate(s, memory, d, pose);
      && (!Accepted(r.source) ==> r.memory == memory)
      && (Accepted(r.source) ==>
            Candidate(pose).Some? && r.foot == Some(Candidate(pose).value.0)
            && r.memory == Remember(memory, d, Candidate(pose).value.0))
  {
  }

  predicate Settled(s: Settings) { s.maxJump.Some? && s.maxJump.value > 0.0 }

  /** In a later frame a candidate is accepted exactly when it lies within the allowance since the stored frame. */
  lemma AcceptedExactlyWithinReach(s: Settings, memory: Memory, d: Detection, pose: Pose, key: Key)
    requires Settled(s) && KeyFor(d) == Some(key) && d.frame.Some? && Candidate(pose).Some?
    requires key in memory && d.frame.value > memory[key].frame
    ensures var reach := s.maxJump.value * (d.frame.value - memory[key].frame) as real;
      Accepted(Estimate(s, memory, d, pose).source) <==> Within(Candidate(pose).value.0, memory[key].point, reach)
    ensures !Accepted(Estimate(s, memory, d, pose).source) ==>
      Estimate(s, memory, d, pose) == Outcome(memory, Some(memory[key].point), PhysicsHold)
  {
  }

  /** In the stored frame, or an earlier one, every candidate is accepted however far away it lies. */
  lemma SameFrameIsUnchecked(s: Settings, memory: Memory, d: Detection, pose: Pose, key: Key)
    requires KeyFor(d) == Some(key) && d.frame.Some? && Candidate(pose).Some?
    requires key in memory && d.frame.value <= memory[key].frame
    ensures var r := Estimate(s, memory, d, pose);
      Accepted(r.source) && r.memory[key] == Entry(Candidate(pose).value.0, d.frame.value, d.track)
  {
    OnlyAcceptedIsRemembered(s, memory, d, pose);
  }

  /** A remembered point is offered again for no more than the age limit, and never to a second track in its frame. */
  lemma LastSeenIsRecent(s: Settings, memory: Memory, d: Detection, pose: Pose)
    requires Estimate(s, memory, d, pose).source.LastSeen?
    ensures KeyFor(d).Some? && d.frame.Some? && KeyFor(d).value in memory
    ensures var entry := memory[KeyFor(d).value];
      && 0 <= d.frame.value - entry.frame <= s.maxAge && !Conflicting(entry, d)
      && Estimate(s, memory, d, pose).foot == Some(entry.point)
  {
  }

  // --- Whole runs ----------------------------------------------------------

  datatype Call = Call(detection: Detection, pose: Pose)

  ghost function After(s: Settings, memory: Memory, calls: seq<Call>): Memory {
    if calls == [] then memory
    else
      var last := calls[|calls| - 1];
      Estimate(s, After(s, memory, calls[..|calls| - 1]), last.detection, last.pose).memory
  }

  /** A detection speaks for the identity it has, or else for the track it is on, in a numbered frame. */
  predicate SpeaksFor(d: Detection, key: Key) {
    && d.frame.Some?
    && match key
       case Identity(id) => d.identity == Some(id)
       case Track(id) => d.identity.None? && d.track == Some(id)
  }

  lemma SpeaksForKey(d: Detection, key: Key)
    ensures SpeaksFor(d, key) <==> KeyFor(d) == Some(key) && d.frame.Some?
  {
  }

  predicate Concerns(call: Call, key: Key) { SpeaksFor(call.detection, key) }

  /** The calls that concern this key come in ever later frames, the first after this one. */
  ghost predicate LaterAndLater(calls: seq<Call>, key: Key, frame: int) {
    && (forall n :: 0 <= n < |calls| && Concerns(calls[n], key) ==> calls[n].detection.frame.value > frame)
    && (forall m, n :: 0 <= m < n < |calls| && Concerns(calls[m], key) && Concerns(calls[n], key) ==>
          calls[m].detection.frame.value < calls[n].detection.frame.value)
  }

  predicate InReach(s: Settings, earlier: Entry, later: Entry) {
    Settled(s) && earlier.frame <= later.frame
    && Within(later.point, earlier.point, s.maxJump.value * (later.frame - earlier.frame) as real)
  }

  lemma ReachSum(s: Settings, a: Entry, b: Entry, c: Entry)
    requires InReach(s, a, b) && InReach(s, b, c)
    ensures InReach(s, a, c)
  {
    var v, t, u := s.maxJump.value, (b.frame - a.frame) as real, (c.frame - b.frame) as real;
    assert v * t + v * u == v * (t + u);
    assert (c.frame - a.frame) as real == t + u;
    Triangle(c.point, b.point, a.point, v * u, v * t);
  }

  lemma StepInReach(s: Settings, memory: Memory, call: Call, key: Key)
    requires Settled(s) && key in memory
    requires Concerns(call, key) ==> call.detection.frame.value > memory[key].frame
    ensures var after := Estimate(s, memory, call.detection, call.pose).memory;
      && key in after && InReach(s, memory[key], after[key])
      && (after[key] == memory[key] || (Concerns(call, key) && after[key].frame == call.detection.frame.value))
  {
    WithinSelf(memory[key].point, 0.0);
    OnlyAcceptedIsRemembered(s, memory, call.detection, call.pose);
    if Concerns(call, key) && Candidate(call.pose).Some? {
      AcceptedExactlyWithinReach(s, memory, call.detection, call.pose, key);
    }
  }

  lemma LastCallIsLater(calls: seq<Call>, key: Key, frame: int)
    requires calls != [] && LaterAndLater(calls, key, frame)
    ensures LaterAndLater(calls[..|calls| - 1], key, frame)
  {
    var front := calls[..|calls| - 1];
    forall m, n | 0 <= m < n < |front| && Concerns(front[m], key) && Concerns(front[n], key)
      ensures front[m].detection.frame.value < front[n].detection.frame.value
    {
      assert front[m] == calls[m] && front[n] == calls[n];
    }
  }

  /** The frame of a key's entry is that of the start, or of one of the calls. */
  ghost predicate FrameFrom(entry: Entry, start: Entry, calls: seq<Call>, key: Key) {
    entry.frame == start.frame
    || exists n :: 0 <= n < |calls| && Concerns(calls[n], key) && entry.frame == calls[n].detection.frame.value
  }

  /**
   Points accepted for one key at increasing frames always respect the jump
   bound, over the whole run and not just from one to the next.
   */
  lemma {:induction false} JumpsStayInReach(s: Settings, memory: Memory, calls: seq<Call>, key: Key)
    requires Settled(s) && key in memory && LaterAndLater(calls, key, memory[key].frame)
    ensures var after := After(s, memory, calls);
      key in after && InReach(s, memory[key], after[key]) && FrameFrom(after[key], memory[key], calls, key)
  {
    if calls == [] {
      WithinSelf(memory[key].point, 0.0);
    } else {
      var front, last := calls[..|calls| - 1], calls[|calls| - 1];
      LastCallIsLater(calls, key, memory[key].frame);
      JumpsStayInReach(s, memory, front, key);
      var before := After(s, memory, front);
      FrameIsPast(memory[key], before[key], calls, key);
      StepInReach(s, before, last, key);
      ReachSum(s, memory[key], before[key], After(s, memory, calls)[key]);
      FrameStillFrom(memory[key], before[key], After(s, memory, calls)[key], calls, key);
    }
  }

  lemma FrameIsPast(start: Entry, entry: Entry, calls: seq<Call>, key: Key)
    requires calls != [] && LaterAndLater(calls, key, start.frame)
    requires FrameFrom(entry, start, calls[..|calls| - 1], key)
    ensures Concerns(calls[|calls| - 1], key) ==> calls[|calls| - 1].detection.frame.value > entry.frame
  {
  }

  lemma FrameStillFrom(start: Entry, before: Entry, after: Entry, calls: seq<Call>, key: Key)
    requires calls != [] && FrameFrom(before, start, calls[..|calls| - 1], key)
    requires var last := calls[|calls| - 1];
      after == before || (Concerns(last, key) && after.frame == last.detection.frame.value)
    ensures FrameFrom(after, start, calls, key)
  {
    var front := calls[..|calls| - 1];
    if after == before && before.frame != start.frame {
      var n :| 0 <= n < |front| && Concerns(front[n], key) && before.frame == front[n].detection.frame.value;
      assert calls[n] == front[n];
    }
  }

  /**
   The frames have to increase: a foot the same frame brings for the key again
   is accepted whatever its distance, beyond any bound on one frame's jump.
   */
  lemma SameFrameBreaksTheBound(s: Settings, memory: Memory, key: Key, d: Detection, distance: real)
    returns (pose: Pose)
    requires Settled(s) && key in memory && KeyFor(d) == Some(key) && d.frame == Some(memory[key].frame)
    requires distance > 0.0
    ensures var after := Estimate(s, memory, d, pose).memory;
      key in after && !InReach(s, memory[key], after[key]) && !Within(after[key].point, memory[key].point, distance)
  {
    var from := memory[key].point;
    var to := (from.0 + distance + 1.0, from.1);
    pose := Landmarks(Some(to), true, false, None);
    SameFrameIsUnchecked(s, memory, d, pose, key);
    assert Allowance(s.maxJump.value, 0) == 0.0;
    BeyondReach(from, to, distance + 1.0, distance);
    BeyondReach(from, to, distance + 1.0, 0.0);
  }

  lemma BeyondReach(from: Point, to: Point, apart: real, reach: real)
    requires to.0 - from.0 == apart && to.1 == from.1 && apart > reach >= 0.0
    ensures !Within(to, from, reach)
  {
    SquareStrict(apart, reach);
  }

  // --- Which foot is offered -----------------------------------------------

  /** The learned foot serves when the measured one is missing, uncertain or seen from above. */
  predicate OffersLearned(pose: Pose) {
    && pose.Landmarks? && pose.virtualFoot.Some?
    && (pose.foot.None? || !pose.strictlySeen || pose.lookingDown)
  }

  /** The measured foot serves unless the learned one does. */
  predicate OffersMeasured(pose: Pose) {
    && pose.Landmarks? && pose.foot.Some?
    && (pose.virtualFoot.None? || (pose.strictlySeen && !pose.lookingDown))
  }

  /** The stored point of the detection's key, unless another track wrote it in this very frame. */
  ghost predicate Remembers(memory: Memory, d: Detection, key: Key) {
    && SpeaksFor(d, key) && key in memory
    && !(d.track.Some? && memory[key].owner.Some? && memory[key].owner != d.track && d.frame == Some(memory[key].frame))
  }

  /**
   What an estimate answers: a foot that is offered is taken, unless a held one
   stands in for it; without any the point last seen is answered while it is
   young enough; and otherwise nothing, with the reason.
   */
  lemma AnsweredExactly(s: Settings, memory: Memory, d: Detection, pose: Pose, key: Key)
    requires SpeaksFor(d, key)
    ensures var r := Estimate(s, memory, d, pose);
      && (Accepted(r.source) || r.source.PhysicsHold? <==> OffersLearned(pose) || OffersMeasured(pose))
      && (r.source.AnatomicalRatio? ==> OffersLearned(pose) && r.foot == pose.virtualFoot)
      && (r.source.MediaPipe? ==> OffersMeasured(pose) && r.foot == pose.foot)
      && (Accepted(r.source) ==> r.memory == memory[key := Entry(r.foot.value, d.frame.value, d.track)])
      && (!Accepted(r.source) ==> r.memory == memory)
      && (r.source.PhysicsHold? ==>
            && Remembers(memory, d, key) && r.foot == Some(memory[key].point)
            && Settled(s) && d.frame.value > memory[key].frame)
      && (r.source.LastSeen? <==>
            && !pose.NoEstimator? && !OffersLearned(pose) && !OffersMeasured(pose) && Remembers(memory, d, key)
            && memory[key].frame <= d.frame.value <= memory[key].frame + s.maxAge)
      && (r.source.LastSeen? ==> r.foot == Some(memory[key].point))
      && (r.source in {NoPose, BadCrop, NoVisibleAnkle} ==> r.foot == None)
      && (r.source.NoPose? <==> pose.NoEstimator?) && (r.source.BadCrop? ==> pose.InvalidCrop?)
      && (r.source.NoVisibleAnkle? ==> !pose.InvalidCrop?)
  {
    SpeaksForKey(d, key);
  }

  // --- What is recalled ----------------------------------------------------

  /** Call `n` accepted this foot for the key. */
  ghost predicate AcceptedAt(s: Settings, calls: seq<Call>, n: nat, key: Key, entry: Entry)
    requires n < |calls|
  {
    var d, r := calls[n].detection, Estimate(s, After(s, map[], calls[..n]), calls[n].detection, calls[n].pose);
    && Concerns(calls[n], key) && Accepted(r.source) && r.foot.Some?
    && entry == Entry(r.foot.value, d.frame.value, d.track)
  }

  /** No later call accepted another. */
  ghost predicate LastAccepted(s: Settings, calls: seq<Call>, n: nat, key: Key) {
    forall m :: n < m < |calls| && Concerns(calls[m], key) ==>
      !Accepted(Estimate(s, After(s, map[], calls[..m]), calls[m].detection, calls[m].pose).source)
  }

  /** The entry of a key is the foot last accepted for it. */
  lemma {:induction false} EntryWasAccepted(s: Settings, calls: seq<Call>, key: Key) returns (n: nat)
    requires key in After(s, map[], calls)
    ensures n < |calls| && AcceptedAt(s, calls, n, key, After(s, map[], calls)[key]) && LastAccepted(s, calls, n, key)
  {
    var front, last := calls[..|calls| - 1], calls[|calls| - 1];
    var before := After(s, map[], front);
    OnlyAcceptedIsRemembered(s, before, last.detection, last.pose);
    if Concerns(last, key) && Accepted(Estimate(s, before, last.detection, last.pose).source) {
      n := |calls| - 1;
    } else {
      n := EntryWasAccepted(s, front, key);
      assert calls[..n] == front[..n];
      forall m | n < m < |calls| && Concerns(calls[m], key)
        ensures !Accepted(Estimate(s, After(s, map[], calls[..m]), calls[m].detection, calls[m].pose).source)
      {
        assert m < |front| ==> front[m] == calls[m] && front[..m] == calls[..m];
      }
    }
  }

  /**
   Whatever the run, a point that is recalled is the foot last accepted for
   the key, no more frames ago than the age limit and not another track's of
   the same frame.
   */
  lemma RecalledWasAccepted(s: Settings, calls: seq<Call>, d: Detection, pose: Pose) returns (n: nat)
    requires Estimate(s, After(s, map[], calls), d, pose).source.LastSeen?
    ensures n < |calls| && KeyFor(d).Some? && d.frame.Some?
    ensures var entry := After(s, map[], calls)[KeyFor(d).value];
      && AcceptedAt(s, calls, n, KeyFor(d).value, entry) && LastAccepted(s, calls, n, KeyFor(d).value)
      && Estimate(s, After(s, map[], calls), d, pose).foot == Some(entry.point)
      && 0 <= d.frame.value - calls[n].detection.frame.value <= s.maxAge
      && (d.frame == calls[n].detection.frame && d.track.Some? && calls[n].detection.track.Some? ==>
            d.track == calls[n].detection.track)
  {
    LastSeenIsRecent(s, After(s, map[], calls), d, pose);
    n := EntryWasAccepted(s, calls, KeyFor(d).value);
  }

  // --- Holds cannot latch --------------------------------------------------

  /** None of the calls is accepted for this key. */
  ghost predicate NeverAccepted(s: Settings, memory: Memory, calls: seq<Call>, key: Key) {
    forall n :: 0 <= n < |calls| && Concerns(calls[n], key) ==>
      !Accepted(Estimate(s, After(s, memory, calls[..n]), calls[n].detection, calls[n].pose).source)
  }

  lemma {:induction false} HeldFramesKeepTheEntry(s: Settings, memory: Memory, calls: seq<Call>, key: Key)
    requires key in memory && NeverAccepted(s, memory, calls, key)
    ensures var after := After(s, memory, calls); key in after && after[key] == memory[key]
  {
    if calls != [] {
      var front, last := calls[..|calls| - 1], calls[|calls| - 1];
      forall n | 0 <= n < |front| && Concerns(front[n], key)
        ensures !Accepted(Estimate(s, After(s, memory, front[..n]), front[n].detection, front[n].pose).source)
      {
        assert front[..n] == calls[..n] && front[n] == calls[n];
      }
      HeldFramesKeepTheEntry(s, memory, front, key);
      assert calls[..|calls| - 1] == front;
      OnlyAcceptedIsRemembered(s, After(s, memory, front), last.detection, last.pose);
    }
  }

  /**
   A hold cannot latch: however many frames were held since the stored one, a
   foot within some distance of the stored point is accepted from the frame on
   in which the allowance has grown to that distance.
   */
  lemma HoldCannotLatch(
    s: Settings, memory: Memory, calls: seq<Call>, key: Key, next: Call, distance: real)
    requires Settled(s) && key in memory && NeverAccepted(s, memory, calls, key)
    requires Concerns(next, key) && Candidate(next.pose).Some? && next.detection.frame.value > memory[key].frame
    requires Within(Candidate(next.pose).value.0, memory[key].point, distance)
    requires (next.detection.frame.value - memory[key].frame) as real >= distance / s.maxJump.value
    ensures Accepted(Estimate(s, After(s, memory, calls), next.detection, next.pose).source)
  {
    HeldFramesKeepTheEntry(s, memory, calls, key);
    var frames, reach := next.detection.frame.value - memory[key].frame, s.maxJump.value;
    assert distance / reach * reach == distance;
    assert Allowance(reach, frames) >= distance by {
      ProductGrows(reach, distance / reach, frames as real);
    }
    WithinMore(Candidate(next.pose).value.0, memory[key].point, distance, Allowance(reach, frames));
    AcceptedExactlyWithinReach(s, After(s, memory, calls), next.detection, next.pose, key);
  }

  lemma ProductGrows(r: real, x: real, y: real)
    requires r > 0.0 && x <= y
    ensures x * r <= r * y
  {
    ProductMonotone(0.0, r, 0.0, y - x);
    assert r * (y - x) == r * y - x * r;
  }
}
