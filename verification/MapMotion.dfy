/** The map position filter: a smoothed position per key that never outruns a person. */
module MapMotion {
  import opened Approach
  import Observations
  import opened Options
  import opened PlaneGeometry

  /** Whom a map position belongs to. */
  datatype MotionKey =
    | Identity(id: int)
    | TemporaryGroup(group: string)
    | LocalTrack(camera: string, track: Option<int>)

  /** The local track that wrote it. */
  datatype Owner = Owner(camera: string, track: Option<int>)

  datatype Entry = Entry(point: Point, time: real, owner: Option<Owner>)

  type Memory = map<MotionKey, Entry>

  /** How a point was obtained; a grade the table does not list smooths like a measured one. */
  datatype Grade = Graded(quality: Observations.Quality) | Unlisted

  datatype Call = Call(
    key: Option<MotionKey>, point: Option<Point>, time: Option<real>, owner: Option<Owner>, grade: Option<Grade>)

  datatype Status = NoId | New | OwnerConflict | SameTime | SpeedHold | Smooth

  datatype Settings = Settings(maxSpeed: real, alpha: real)

  function SmoothingScale(grade: Grade): real {
    match grade
    case Unlisted => 1.0
    case Graded(quality) =>
      match quality
      case Hard => 1.0
      case Soft => 0.35
      case Stale => 0.0
      case NoQuality => 0.0
  }

  function EffectiveAlpha(alpha: real, grade: Option<Grade>): real {
    if grade.None? then alpha else alpha * SmoothingScale(grade.value)
  }

  /** Centimetres a person may cover. */
  function Reach(maxSpeed: real, seconds: real): real { 100.0 * maxSpeed * seconds }

  predicate Conflicting(previous: Entry, owner: Option<Owner>) {
    owner.Some? && previous.owner.Some? && owner != previous.owner
  }

  datatype Outcome = Outcome(memory: Memory, shown: Option<Point>, status: Status)

  function Follow(s: Settings, memory: Memory, key: MotionKey, point: Point, time: real, call: Call): Outcome
    requires key in memory
  {
    var previous := memory[key];
    var dt := time - previous.time;
    if dt <= 0.000001 then
      if Conflicting(previous, call.owner) then Outcome(memory, Some(point), OwnerConflict)
      else Outcome(memory, Some(previous.point), SameTime)
    else if !Within(point, previous.point, Reach(s.maxSpeed, dt)) then
      Outcome(memory[key := Entry(previous.point, time, call.owner)], Some(previous.point), SpeedHold)
    else
      var smoothed := Blend(EffectiveAlpha(s.alpha, call.grade), previous.point, point);
      Outcome(memory[key := Entry(smoothed, time, call.owner)], Some(smoothed), Smooth)
  }

  function Update(s: Settings, memory: Memory, call: Call): Outcome {
    if call.key.None? || call.point.None? || call.time.None? then Outcome(memory, call.point, NoId)
    else if call.key.value !in memory then
      Outcome(memory[call.key.value := Entry(call.point.value, call.time.value, call.owner)], call.point, New)
    else Follow(s, memory, call.key.value, call.point.value, call.time.value, call)
  }

  /** The filter's memory, updated in place. */
  class Filter {
    const settings: Settings
    var memory: Memory

    constructor (settings: Settings)
      ensures this.settings == settings && memory == map[]
    {
      this.settings, memory := settings, map[];
    }

    method UpdateMapMotion(call: Call) returns (shown: Option<Point>, status: Status)
      modifies this`memory
      ensures Outcome(memory, shown, status) == Update(settings, old(memory), call)
    {
      if call.key.None? || call.point.None? || call.time.None? {
        return call.point, NoId;
      }
      var key, raw, time := call.key.value, call.point.value, call.time.value;
      if key !in memory {
        memory := memory[key := Entry(raw, time, call.owner)];
        return Some(raw), New;
      }
      var previous := memory[key];
      var dt := time - previous.time;
      if dt <= 0.000001 && Conflicting(previous, call.owner) {
        return Some(raw), OwnerConflict;
      }
      if dt <= 0.000001 {
        return Some(previous.point), SameTime;
      }
      if !Within(raw, previous.point, Reach(settings.maxSpeed, dt)) {
        memory := memory[key := Entry(previous.point, time, call.owner)];
        return Some(previous.point), SpeedHold;
      }
      var smoothed := Blend(EffectiveAlpha(settings.alpha, call.grade), previous.point, raw);
      memory := memory[key := Entry(smoothed, time, call.owner)];
      return Some(smoothed), Smooth;
    }
  }

  // --- One step ------------------------------------------------------------

  function NotNegative(x: real): real { if x < 0.0 then 0.0 else x }

  /** The distance covered between two stored entries is one a person can cover in the time. */
  predicate Reachable(s: Settings, earlier: Entry, later: Entry) {
    earlier.time <= later.time
    && Within(later.point, earlier.point, Reach(NotNegative(s.maxSpeed), later.time - earlier.time))
  }

  lemma ScaleIsPartial(alpha: real, grade: Option<Grade>)
    requires -1.0 <= alpha <= 1.0
    ensures -1.0 <= EffectiveAlpha(alpha, grade) <= 1.0
  {
  }

  lemma StepReaches(s: Settings, memory: Memory, call: Call, key: MotionKey)
    requires -1.0 <= s.alpha <= 1.0 && key in memory
    ensures var after := Update(s, memory, call).memory;
      key in after && Reachable(s, memory[key], after[key])
  {
    var previous := memory[key];
    WithinSelf(previous.point, 0.0);
    if call.key == Some(key) && call.point.Some? && call.time.Some? {
      var point, dt := call.point.value, call.time.value - previous.time;
      if dt > 0.000001 {
        ReachNotNegative(s.maxSpeed, dt);
        WithinSelf(previous.point, Reach(NotNegative(s.maxSpeed), dt));
        if Within(point, previous.point, Reach(s.maxSpeed, dt)) {
          ScaleIsPartial(s.alpha, call.grade);
          BlendWithin(EffectiveAlpha(s.alpha, call.grade), previous.point, point, Reach(s.maxSpeed, dt));
          ReachMore(s.maxSpeed, dt);
          WithinMore(Blend(EffectiveAlpha(s.alpha, call.grade), previous.point, point), previous.point,
                     Reach(s.maxSpeed, dt), Reach(NotNegative(s.maxSpeed), dt));
        }
      }
    }
  }

  lemma ReachNotNegative(speed: real, dt: real)
    requires dt >= 0.0
    ensures Reach(NotNegative(speed), dt) >= 0.0
  {
    ProductMonotone(0.0, 100.0 * NotNegative(speed), 0.0, dt);
  }

  lemma ReachMore(speed: real, dt: real)
    requires dt >= 0.0
    ensures Reach(speed, dt) <= Reach(NotNegative(speed), dt)
  {
    if speed < 0.0 {
      ProductMonotone(0.0, 100.0 * -speed, 0.0, dt);
      assert Reach(speed, dt) == -((100.0 * -speed) * dt);
    }
  }

  lemma ReachSum(s: Settings, a: Entry, b: Entry, c: Entry)
    requires Reachable(s, a, b) && Reachable(s, b, c)
    ensures Reachable(s, a, c)
  {
    var v := 100.0 * NotNegative(s.maxSpeed);
    var t, u := b.time - a.time, c.time - b.time;
    assert v * t + v * u == v * (t + u);
    assert c.time - a.time == t + u;
    Triangle(c.point, b.point, a.point, v * u, v * t);
  }

  // --- Whole runs ----------------------------------------------------------

  ghost function After(s: Settings, calls: seq<Call>): Memory {
    if calls == [] then map[] else Update(s, After(s, calls[..|calls| - 1]), calls[|calls| - 1]).memory
  }

  /**
   Over any run of calls, whatever keys, owners, grades and times they carry,
   the positions stored for one key at any two moments are no further apart
   than the maximum speed allows in the time between them, through smoothing,
   stale and hold steps alike.
   */
  lemma {:induction false} NobodyOutrunsTheLimit(s: Settings, calls: seq<Call>, n: nat, key: MotionKey)
    requires -1.0 <= s.alpha <= 1.0 && n <= |calls| && key in After(s, calls[..n])
    ensures key in After(s, calls) && Reachable(s, After(s, calls[..n])[key], After(s, calls)[key])
    decreases |calls|
  {
    if n == |calls| {
      assert calls[..n] == calls;
      WithinSelf(After(s, calls)[key].point, 0.0);
    } else {
      var front, last := calls[..|calls| - 1], calls[|calls| - 1];
      assert front[..n] == calls[..n];
      NobodyOutrunsTheLimit(s, front, n, key);
      StepReaches(s, After(s, front), last, key);
      ReachSum(s, After(s, calls[..n])[key], After(s, front)[key], After(s, calls)[key]);
    }
  }

  /** What is shown is the stored position, except to a second owner in the same instant. */
  lemma ShownIsStored(s: Settings, memory: Memory, call: Call, key: MotionKey)
    requires Concerns(call, key)
    ensures var r := Update(s, memory, call);
      && key in r.memory && r.shown.Some?
      && (r.status.OwnerConflict? <==>
            key in memory && call.time.value - memory[key].time <= 0.000001 && Conflicting(memory[key], call.owner))
      && (if r.status.OwnerConflict? then r.memory == memory && r.shown == call.point
          else r.shown.value == r.memory[key].point)
  {
  }

  /** A call that is about this key and has a point and a time. */
  predicate Concerns(call: Call, key: MotionKey) {
    call.key == Some(key) && call.point.Some? && call.time.Some?
  }

  /** What call `n` of a run leaves and shows. */
  ghost function At(s: Settings, calls: seq<Call>, n: nat): Outcome
    requires n < |calls|
  {
    Update(s, After(s, calls[..n]), calls[n])
  }

  /** Call `n` shows the key's own position, and not the raw one to a second owner in the same instant. */
  ghost predicate ShowsOwn(s: Settings, calls: seq<Call>, n: nat, key: MotionKey)
    requires n < |calls|
  {
    Concerns(calls[n], key) && !At(s, calls, n).status.OwnerConflict?
  }

  lemma AfterNext(s: Settings, calls: seq<Call>, n: nat)
    requires n < |calls|
    ensures After(s, calls[..n + 1]) == At(s, calls, n).memory
  {
    assert calls[..n + 1][..n] == calls[..n];
  }

  /** The entry a call leaves is never more than a microsecond older than the call. */
  lemma EntryIsFresh(s: Settings, memory: Memory, call: Call, key: MotionKey)
    requires Concerns(call, key)
    ensures key in Update(s, memory, call).memory
    ensures Update(s, memory, call).memory[key].time >= call.time.value - 0.000001
  {
  }

  /** The clock of a key's calls has not passed `limit`. */
  ghost predicate ClockUpTo(calls: seq<Call>, key: MotionKey, limit: real) {
    forall k :: 0 <= k < |calls| && Concerns(calls[k], key) ==> calls[k].time.value <= limit
  }

  /** A stored time is that of a call. */
  lemma {:induction false} EntryIsPast(s: Settings, calls: seq<Call>, key: MotionKey, limit: real)
    requires ClockUpTo(calls, key, limit) && key in After(s, calls)
    ensures After(s, calls)[key].time <= limit
  {
    if calls != [] {
      var front, last := calls[..|calls| - 1], calls[|calls| - 1];
      forall k | 0 <= k < |front| && Concerns(front[k], key) ensures front[k].time.value <= limit {
        assert front[k] == calls[k];
      }
      if key in After(s, front) {
        EntryIsPast(s, front, key, limit);
      }
      assert Concerns(last, key) ==> last == calls[|calls| - 1];
    }
  }

  /**
   The points shown for one key, by any two calls that show it its own, are no
   further apart than the maximum speed allows between the moments stored with
   them; and if the key's clock does not run back, between the two calls, give
   or take the microsecond within which two times count as the same.
   */
  lemma ShownObeysTheLimit(s: Settings, calls: seq<Call>, m: nat, n: nat, key: MotionKey)
    requires -1.0 <= s.alpha <= 1.0 && m <= n < |calls|
    requires ShowsOwn(s, calls, m, key) && ShowsOwn(s, calls, n, key)
    ensures At(s, calls, m).shown.Some? && At(s, calls, n).shown.Some?
    ensures key in At(s, calls, m).memory && key in At(s, calls, n).memory
    ensures var a, b := At(s, calls, m), At(s, calls, n);
      && a.memory[key].time <= b.memory[key].time
      && Within(b.shown.value, a.shown.value,
                Reach(NotNegative(s.maxSpeed), b.memory[key].time - a.memory[key].time))
      && (ClockUpTo(calls[..n + 1], key, calls[n].time.value) ==>
            Within(b.shown.value, a.shown.value,
                   Reach(NotNegative(s.maxSpeed), calls[n].time.value - calls[m].time.value + 0.000001)))
  {
    ShownIsStored(s, After(s, calls[..m]), calls[m], key);
    ShownIsStored(s, After(s, calls[..n]), calls[n], key);
    AfterNext(s, calls, m);
    AfterNext(s, calls, n);
    assert calls[..n + 1][..m + 1] == calls[..m + 1];
    NobodyOutrunsTheLimit(s, calls[..n + 1], m + 1, key);
    var a, b := At(s, calls, m), At(s, calls, n);
    if ClockUpTo(calls[..n + 1], key, calls[n].time.value) {
      EntryIsFresh(s, After(s, calls[..m]), calls[m], key);
      EntryIsPast(s, calls[..n + 1], key, calls[n].time.value);
      ReachGrows(s.maxSpeed, b.memory[key].time - a.memory[key].time,
                 calls[n].time.value - calls[m].time.value + 0.000001);
      WithinMore(b.shown.value, a.shown.value, Reach(NotNegative(s.maxSpeed), b.memory[key].time - a.memory[key].time),
                 Reach(NotNegative(s.maxSpeed), calls[n].time.value - calls[m].time.value + 0.000001));
    }
  }

  lemma ReachGrows(speed: real, less: real, more: real)
    requires 0.0 <= less <= more
    ensures Reach(NotNegative(speed), less) <= Reach(NotNegative(speed), more)
  {
    var v := 100.0 * NotNegative(speed);
    ProductMonotone(v, v, less, more);
  }

  /**
   The bound needs a smoothing factor of at most one in size: with any larger
   one, a point exactly as far away as the speed allows is overshot.
   */
  lemma LargerFactorOvershoots(s: Settings, memory: Memory, key: MotionKey, time: real) returns (call: Call)
    requires (s.alpha > 1.0 || s.alpha < -1.0) && s.maxSpeed > 0.0
    requires key in memory && time > memory[key].time + 0.000001
    ensures var after := Update(s, memory, call).memory;
      key in after && !Reachable(s, memory[key], after[key])
  {
    var previous, dt := memory[key], time - memory[key].time;
    var r := Reach(s.maxSpeed, dt);
    ProductPositive(100.0 * s.maxSpeed, dt);
    var point := (previous.point.0 + r, previous.point.1);
    call := Call(Some(key), Some(point), Some(time), None, None);
    assert point.0 - previous.point.0 == r;
    assert DistanceSquared(point, previous.point) == r * r;
    SquareNotNegative(r);
    var after := Update(s, memory, call).memory;
    assert after[key].point == Blend(s.alpha, previous.point, point);
    Overshoot(s.alpha, previous.point, point, r);
  }

  lemma MoreThanOne(alpha: real, square: real)
    requires (alpha > 1.0 || alpha < -1.0) && square == alpha * alpha
    ensures square > 1.0
  {
    if alpha > 1.0 {
      AboveOne(alpha, square);
    } else {
      NegatedSquare(alpha);
      AboveOne(-alpha, square);
    }
  }

  lemma AboveOne(x: real, square: real)
    requires x > 1.0 && square == x * x
    ensures square > 1.0
  {
    ProductPositive(x - 1.0, x + 1.0);
    assert (x - 1.0) * (x + 1.0) == x * x - 1.0;
  }

  lemma SquarePositive(r: real, square: real)
    requires r > 0.0 && square == r * r
    ensures square > 0.0
  {
    SquareStrict(r, 0.0);
  }

  lemma Overshoot(alpha: real, a: Point, b: Point, r: real)
    requires (alpha > 1.0 || alpha < -1.0) && r > 0.0 && b.0 - a.0 == r && b.1 == a.1
    ensures !Within(Blend(alpha, a, b), a, r)
  {
    var p := Blend(alpha, a, b);
    var aa, rr := alpha * alpha, r * r;
    BlendPart(alpha, a.0, b.0, r, p.0 - a.0);
    BlendPart(alpha, a.1, b.1, 0.0, p.1 - a.1);
    SquarePositive(r, rr);
    MoreThanOne(alpha, aa);
    assert DistanceSquared(p, a) == aa * rr;
    Exceeds(aa, rr, DistanceSquared(p, a));
    TooFar(p, a, r, rr);
  }

  lemma TooFar(p: Point, a: Point, r: real, square: real)
    requires square == r * r && DistanceSquared(p, a) > square
    ensures !Within(p, a, r)
  {
  }

  lemma Exceeds(factor: real, x: real, y: real)
    requires factor > 1.0 && x > 0.0 && y == factor * x
    ensures y > x
  {
    ProductPositive(factor - 1.0, x);
    assert (factor - 1.0) * x == factor * x - x;
  }

  // --- What each call does, and where it leads -----------------------------

  /** How much of the smoothing factor a point of this grade gets. */
  function Share(grade: Option<Grade>): real {
    match grade
    case Some(Graded(Soft)) => 0.35
    case Some(Graded(Stale)) => 0.0
    case Some(Graded(NoQuality)) => 0.0
    case _ => 1.0
  }

  /** Nobody gets from the one to the other in the time, at so many metres a second. */
  predicate TooFast(maxSpeed: real, from: Point, to: Point, seconds: real) {
    var reach := maxSpeed * seconds * 100.0;
    || reach < 0.0
    || (to.0 - from.0) * (to.0 - from.0) + (to.1 - from.1) * (to.1 - from.1) > reach * reach
  }

  /** The point that lies this share of the way on. */
  predicate PartOfTheWay(part: real, from: Point, to: Point, at: Point) {
    PartOfWay(part, from.0, to.0, at.0) && PartOfWay(part, from.1, to.1, at.1)
  }

  predicate OtherOwner(a: Option<Owner>, b: Option<Owner>) { a.Some? && b.Some? && a != b }

  lemma TooFastExactly(maxSpeed: real, from: Point, to: Point, seconds: real)
    ensures TooFast(maxSpeed, from, to, seconds) <==> !Within(to, from, Reach(maxSpeed, seconds))
  {
    assert Reach(maxSpeed, seconds) == maxSpeed * seconds * 100.0;
  }

  lemma BlendIsPart(part: real, from: Point, to: Point)
    ensures PartOfTheWay(part, from, to, Blend(part, from, to))
  {
    PartMoved(part, from.0, to.0);
    PartMoved(part, from.1, to.1);
  }

  lemma PartMoved(part: real, a: real, b: real)
    ensures ((1.0 - part) * a + part * b) - a == part * (b - a)
  {
  }

  /**
   What a call with a key, a point and a time does: a first point is taken as
   it is; in the same instant the stored point stands, another owner being
   shown its own; a point out of reach is held back; and any other moves the
   stored point its share of the way.
   */
  lemma CallExactly(s: Settings, memory: Memory, call: Call, key: MotionKey)
    requires Concerns(call, key)
    ensures var r, raw, time := Update(s, memory, call), call.point.value, call.time.value;
      if key !in memory then r == Outcome(memory[key := Entry(raw, time, call.owner)], Some(raw), New)
      else
        var stored := memory[key];
        if time <= stored.time + 0.000001 then
          r == if OtherOwner(call.owner, stored.owner) then Outcome(memory, Some(raw), OwnerConflict)
               else Outcome(memory, Some(stored.point), SameTime)
        else if TooFast(s.maxSpeed, stored.point, raw, time - stored.time) then
          r == Outcome(memory[key := Entry(stored.point, time, call.owner)], Some(stored.point), SpeedHold)
        else
          && r.status == Smooth && r.shown.Some?
          && r.memory == memory[key := Entry(r.shown.value, time, call.owner)]
          && PartOfTheWay(s.alpha * Share(call.grade), stored.point, raw, r.shown.value)
  {
    if key in memory {
      var stored := memory[key];
      TooFastExactly(s.maxSpeed, stored.point, call.point.value, call.time.value - stored.time);
      BlendIsPart(EffectiveAlpha(s.alpha, call.grade), stored.point, call.point.value);
      assert EffectiveAlpha(s.alpha, call.grade) == s.alpha * Share(call.grade);
    }
  }

  ghost function AfterFrom(s: Settings, memory: Memory, calls: seq<Call>): Memory {
    if calls == [] then memory else Update(s, AfterFrom(s, memory, calls[..|calls| - 1]), calls[|calls| - 1]).memory
  }

  /** This call smooths towards the point, with this share. */
  ghost predicate PullsTo(s: Settings, memory: Memory, call: Call, key: MotionKey, to: Point, part: real) {
    && Concerns(call, key) && call.point == Some(to) && s.alpha * Share(call.grade) == part
    && Update(s, memory, call).status.Smooth?
  }

  /** Every call does. */
  ghost predicate Pulls(s: Settings, memory: Memory, calls: seq<Call>, key: MotionKey, to: Point, part: real) {
    calls == [] ||
    var front, last := calls[..|calls| - 1], calls[|calls| - 1];
    Pulls(s, memory, front, key, to, part) && PullsTo(s, AfterFrom(s, memory, front), last, key, to, part)
  }

  /** Of the way from the one point to the other, this much is left after so many calls. */
  predicate PointLeft(n: nat, part: real, from: Point, to: Point, at: Point) {
    LeftAfter(n, part, from.0, to.0, at.0) && LeftAfter(n, part, from.1, to.1, at.1)
  }

  lemma PointLeftNext(n: nat, part: real, from: Point, to: Point, before: Point, at: Point)
    requires PointLeft(n, part, from, to, before) && PartOfTheWay(part, before, to, at)
    ensures PointLeft(n + 1, part, from, to, at)
  {
    LeftNext(n, part, from.0, to.0, before.0, at.0);
    LeftNext(n, part, from.1, to.1, before.1, at.1);
  }

  lemma PullStep(s: Settings, memory: Memory, call: Call, key: MotionKey, to: Point, part: real)
    requires key in memory && PullsTo(s, memory, call, key, to, part)
    ensures key in Update(s, memory, call).memory
    ensures PartOfTheWay(part, memory[key].point, to, Update(s, memory, call).memory[key].point)
  {
    CallExactly(s, memory, call, key);
  }

  /**
   While a key's points keep falling on one place, all of one grade and none
   held back, what lies between the stored point and that place shrinks by the
   same factor with every call; for a stale point it does not shrink at all.
   */
  lemma {:induction false} PulledTowards(
    s: Settings, memory: Memory, calls: seq<Call>, key: MotionKey, to: Point, part: real)
    requires key in memory && Pulls(s, memory, calls, key, to, part)
    ensures key in AfterFrom(s, memory, calls)
    ensures PointLeft(|calls|, part, memory[key].point, to, AfterFrom(s, memory, calls)[key].point)
  {
    if calls != [] {
      var front, last := calls[..|calls| - 1], calls[|calls| - 1];
      var before := AfterFrom(s, memory, front);
      PulledTowards(s, memory, front, key, to, part);
      PullStep(s, before, last, key, to, part);
      PointLeftNext(|front|, part, memory[key].point, to, before[key].point, AfterFrom(s, memory, calls)[key].point);
    }
  }
}
