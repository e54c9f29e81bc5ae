/** Whom the lists of suppressed duplicates name, and exactly when they name everybody. */
module DuplicateRecords {
  import opened DisplayDuplicates
  import opened DuplicateProperties
  import opened DuplicateRulings
  import opened Observations
  import opened Options

  // --- The lists of suppressed duplicates ----------------------------------

  /** What is written down of somebody dropped: whom its first camera saw, under which name, how well and where. */
  ghost predicate Describes(record: Suppressed, dropped: Person, reason: string) {
    && record.identity == dropped.identity && record.state == dropped.state && record.center == dropped.center
    && record.reason == reason
    && (if dropped.observations == [] then record.camera.None? && record.track.None?
        else record.camera == Some(dropped.observations[0].camera) && record.track == dropped.observations[0].track)
    && (record.quality == NoQuality ==> forall q :: HasPoint(dropped, q) ==> q == NoQuality)
    && (record.quality != NoQuality ==>
          && HasPoint(dropped, record.quality)
          && forall q :: HasPoint(dropped, q) ==> !BetterSeen(q, record.quality))
  }

  lemma RecordDescribes(dropped: Person, reason: string)
    ensures Describes(Record(dropped, reason), dropped, reason)
  {
    PointsBelow(dropped);
    if dropped.observations == [] {
      assert forall q :: !HasPoint(dropped, q);
    }
  }

  ghost predicate LogInRange(log: seq<Drop>, n: nat) {
    forall k :: 0 <= k < |log| ==> log[k].dropped < n && log[k].keeper < n
  }

  /** What is written down for everybody dropped in favour of `i`, in order. */
  ghost function Records(people: seq<Person>, log: seq<Drop>, i: nat): seq<Suppressed>
    requires LogInRange(log, |people|)
  {
    if log == [] then []
    else
      var last := log[|log| - 1];
      Records(people, log[..|log| - 1], i)
      + (if last.keeper == i
         then [Record(people[last.dropped], ReasonFor(people[last.keeper], people[last.dropped]))] else [])
  }

  lemma {:induction false} LogOkInRange(people: seq<Person>, log: seq<Drop>)
    requires LogOk(people, log)
    ensures LogInRange(log, |people|)
  {
    if log != [] {
      LogOkInRange(people, log[..|log| - 1]);
    }
  }

  lemma SettleWrites(people: seq<Person>, pass: Pass, f: Finding, i: nat)
    requires f.left < f.right < |people| && i < |people|
    requires PassOk(people, pass) && PassOk(people, Settle(pass, f))
    requires LogInRange(pass.log, |people|) && LogInRange(Settle(pass, f).log, |people|)
    requires pass.people[i].suppressed == people[i].suppressed + Records(people, pass.log, i)
    ensures Settle(pass, f).people[i].suppressed
         == people[i].suppressed + Records(people, Settle(pass, f).log, i)
  {
    assert SameButList(pass.people[f.left], people[f.left]);
    assert SameButList(pass.people[f.right], people[f.right]);
    ListDecidesNothing(Settings(0.0, (p, q) => 0.0), pass.people[f.left], pass.people[f.right],
                       people[f.left], people[f.right]);
    var ruling := Authority(people[f.left], people[f.right]);
    RulingExactly(people[f.left], people[f.right]);
    if |Settle(pass, f).log| > |pass.log| {
      if ruling.KeepLeft? {
        TakeOverWrites(people, pass, f.right, f.left, ruling.reason, i);
      } else {
        TakeOverWrites(people, pass, f.left, f.right, ruling.reason, i);
      }
    }
  }

  lemma TakeOverWrites(people: seq<Person>, pass: Pass, dropped: nat, keeper: nat, reason: string, i: nat)
    requires |pass.people| == |people| && dropped < |people| && keeper < |people| && i < |people|
    requires SameButList(pass.people[dropped], people[dropped])
    requires reason == ReasonFor(people[keeper], people[dropped])
    requires LogInRange(pass.log, |people|) && LogInRange(TakeOver(pass, dropped, keeper, reason).log, |people|)
    requires pass.people[i].suppressed == people[i].suppressed + Records(people, pass.log, i)
    ensures TakeOver(pass, dropped, keeper, reason).people[i].suppressed
         == people[i].suppressed + Records(people, TakeOver(pass, dropped, keeper, reason).log, i)
  {
    var log, last := pass.log, Drop(dropped, keeper);
    var record := Record(people[dropped], reason);
    assert (log + [last])[..|log|] == log;
    RecordIgnoresList(pass.people[dropped], people[dropped]);
    assert Records(people, log + [last], i) == Records(people, log, i) + (if keeper == i then [record] else []);
    var next := TakeOver(pass, dropped, keeper, reason);
    assert next.people[i].suppressed == pass.people[i].suppressed + (if keeper == i then [record] else []);
  }

  lemma RecordIgnoresList(a: Person, b: Person)
    requires SameButList(a, b)
    ensures forall reason :: Record(a, reason) == Record(b, reason)
  {
    assert a.observations == b.observations && a.identity == b.identity;
    assert a.state == b.state && a.center == b.center;
  }

  lemma {:induction false} SettleAllWrites(people: seq<Person>, findings: seq<Finding>, i: nat)
    requires InList(findings, |people|) && i < |people|
    requires forall k :: 0 <= k < |findings| ==> findings[k].left < findings[k].right
    ensures LogInRange(SettleAll(people, findings).log, |people|)
    ensures SettleAll(people, findings).people[i].suppressed
         == people[i].suppressed + Records(people, SettleAll(people, findings).log, i)
  {
    if findings != [] {
      var front := findings[..|findings| - 1];
      SettleAllWrites(people, front, i);
      SettleAllOk(people, front);
      SettleAllOk(people, findings);
      LogOkInRange(people, SettleAll(people, findings).log);
      SettleWrites(people, SettleAll(people, front), findings[|findings| - 1], i);
    }
  }

  /** The list of everybody left grows by exactly one record per person dropped in its favour. */
  lemma ListsExactly(settings: Settings, people: seq<Person>, k: nat)
    requires k < |Suppress(settings, people)|
    ensures var log := FinalPass(settings, people).log;
      var indices := KeptIndices(DroppedIn(log), |people|);
      && LogInRange(log, |people|) && k < |indices|
      && Suppress(settings, people)[k].suppressed
         == people[indices[k]].suppressed + Records(people, log, indices[k])
  {
    var findings := Findings(settings, people);
    var indices := KeptIndices(DroppedIn(FinalPass(settings, people).log), |people|);
    FindingsFit(settings, people);
    FinalPassOk(settings, people);
    SettleAllWrites(people, findings, indices[k]);
  }

  /** Records on the lists of the people at `indices`. */
  ghost function Listed(people: seq<Person>, log: seq<Drop>, indices: seq<nat>): nat
    requires LogInRange(log, |people|)
  {
    if indices == [] then 0
    else Listed(people, log, indices[..|indices| - 1]) + |Records(people, log, indices[|indices| - 1])|
  }

  ghost predicate KeeperIn(drop: Drop, indices: seq<nat>) {
    exists k :: 0 <= k < |indices| && indices[k] == drop.keeper
  }

  /** Drops whose keeper is itself left on the map. */
  ghost function KeepersLeft(log: seq<Drop>, indices: seq<nat>): nat {
    if log == [] then 0
    else KeepersLeft(log[..|log| - 1], indices) + (if KeeperIn(log[|log| - 1], indices) then 1 else 0)
  }

  lemma {:induction false} ListedStep(people: seq<Person>, log: seq<Drop>, indices: seq<nat>)
    requires LogInRange(log, |people|) && log != [] && Ascending(indices)
    ensures LogInRange(log[..|log| - 1], |people|)
    ensures Listed(people, log, indices)
         == Listed(people, log[..|log| - 1], indices) + (if KeeperIn(log[|log| - 1], indices) then 1 else 0)
  {
    if indices != [] {
      var front, last := indices[..|indices| - 1], log[|log| - 1];
      ListedStep(people, log, front);
      if KeeperIn(last, indices) {
        var k :| 0 <= k < |indices| && indices[k] == last.keeper;
        assert k < |front| ==> front[k] == last.keeper;
      }
      if KeeperIn(last, front) {
        var k :| 0 <= k < |front| && front[k] == last.keeper;
        assert indices[k] == last.keeper && indices[k] < indices[|indices| - 1];
      }
    }
  }

  lemma {:induction false} ListedCounts(people: seq<Person>, log: seq<Drop>, indices: seq<nat>)
    requires LogInRange(log, |people|) && Ascending(indices)
    ensures Listed(people, log, indices) == KeepersLeft(log, indices)
  {
    if log == [] {
      NothingListed(people, indices);
    } else {
      ListedStep(people, log, indices);
      ListedCounts(people, log[..|log| - 1], indices);
    }
  }

  ghost predicate AllKeepersIn(log: seq<Drop>, indices: seq<nat>) {
    forall n :: 0 <= n < |log| ==> KeeperIn(log[n], indices)
  }

  lemma {:induction false} KeepersLeftBound(log: seq<Drop>, indices: seq<nat>)
    ensures KeepersLeft(log, indices) <= |log|
    ensures KeepersLeft(log, indices) == |log| <==> AllKeepersIn(log, indices)
  {
    if log != [] {
      KeepersLeftBound(log[..|log| - 1], indices);
      AllKeepersSplit(log, indices);
    }
  }

  lemma AllKeepersSplit(log: seq<Drop>, indices: seq<nat>)
    requires log != []
    ensures AllKeepersIn(log, indices)
       <==> AllKeepersIn(log[..|log| - 1], indices) && KeeperIn(log[|log| - 1], indices)
  {
    var front := log[..|log| - 1];
    if AllKeepersIn(log, indices) {
      forall n | 0 <= n < |front| ensures KeeperIn(front[n], indices) {
        assert front[n] == log[n];
      }
    }
    if AllKeepersIn(front, indices) && KeeperIn(log[|log| - 1], indices) {
      forall n | 0 <= n < |log| ensures KeeperIn(log[n], indices) {
        assert n < |front| ==> front[n] == log[n];
      }
    }
  }

  lemma {:induction false} NothingListed(people: seq<Person>, indices: seq<nat>)
    ensures Listed(people, [], indices) == 0
  {
    if indices != [] {
      NothingListed(people, indices[..|indices| - 1]);
    }
  }

  /** The lists on the map name all the dropped people if and only if no keeper was itself dropped later. */
  lemma AllListedWhenKeepersStay(settings: Settings, people: seq<Person>)
    ensures var log := FinalPass(settings, people).log;
      var indices := KeptIndices(DroppedIn(log), |people|);
      && LogInRange(log, |people|)
      && Listed(people, log, indices) <= |log|
      && (Listed(people, log, indices) == |log| <==> AllKeepersIn(log, indices))
  {
    var log := FinalPass(settings, people).log;
    FinalPassOk(settings, people);
    LogOkInRange(people, log);
    KeptAscends(DroppedIn(log), |people|);
    ListedCounts(people, log, KeptIndices(DroppedIn(log), |people|));
    KeepersLeftBound(log, KeptIndices(DroppedIn(log), |people|));
  }

  // --- Which findings take effect ------------------------------------------

  ghost predicate Decisive(people: seq<Person>, f: Finding)
    requires f.left < |people| && f.right < |people|
  {
    Prevails(people[f.left], people[f.right], true) || Prevails(people[f.right], people[f.left], false)
  }

  ghost function Loser(people: seq<Person>, f: Finding): nat
    requires f.left < |people| && f.right < |people|
  {
    if Prevails(people[f.left], people[f.right], true) then f.right else f.left
  }

  ghost function Winner(people: seq<Person>, f: Finding): nat
    requires f.left < |people| && f.right < |people|
  {
    if Prevails(people[f.left], people[f.right], true) then f.left else f.right
  }

  ghost predicate RemovedAt(people: seq<Person>, findings: seq<Finding>, effects: seq<bool>, m: int, x: nat)
    requires InList(findings, |people|) && |effects| <= |findings|
  {
    0 <= m < |effects| && effects[m] && Loser(people, findings[m]) == x
  }

  ghost predicate Removed(people: seq<Person>, findings: seq<Finding>, effects: seq<bool>, x: nat)
    requires InList(findings, |people|) && |effects| <= |findings|
  {
    exists m :: RemovedAt(people, findings, effects, m, x)
  }

  /** A finding takes effect when it rules and nothing before it that takes effect has removed either of its people. */
  ghost predicate TakesEffect(people: seq<Person>, findings: seq<Finding>, before: seq<bool>, f: Finding)
    requires InList(findings, |people|) && |before| <= |findings| && f.left < |people| && f.right < |people|
  {
    && Decisive(people, f)
    && !Removed(people, findings, before, f.left) && !Removed(people, findings, before, f.right)
  }

  /** These are the findings that take effect; there is exactly one such marking. */
  ghost predicate Marks(people: seq<Person>, findings: seq<Finding>, effects: seq<bool>)
    requires InList(findings, |people|)
  {
    && |effects| == |findings|
    && forall n :: 0 <= n < |effects| ==> effects[n] == TakesEffect(people, findings, effects[..n], findings[n])
  }

  /** The drops of the findings that take effect, in order. */
  ghost function EffectiveDrops(people: seq<Person>, findings: seq<Finding>, effects: seq<bool>): seq<Drop>
    requires InList(findings, |people|) && |effects| <= |findings|
  {
    if effects == [] then []
    else
      var n := |effects| - 1;
      EffectiveDrops(people, findings, effects[..n])
      + (if effects[n] then [Drop(Loser(people, findings[n]), Winner(people, findings[n]))] else [])
  }

  lemma RemovedNext(people: seq<Person>, findings: seq<Finding>, effects: seq<bool>, x: nat)
    requires InList(findings, |people|) && 0 < |effects| <= |findings|
    ensures Removed(people, findings, effects, x)
       <==> Removed(people, findings, effects[..|effects| - 1], x)
            || RemovedAt(people, findings, effects, |effects| - 1, x)
  {
    var before := effects[..|effects| - 1];
    if Removed(people, findings, before, x) {
      var m :| RemovedAt(people, findings, before, m, x);
      assert RemovedAt(people, findings, effects, m, x);
    }
    if Removed(people, findings, effects, x) {
      var m :| RemovedAt(people, findings, effects, m, x);
      assert m == |effects| - 1 || RemovedAt(people, findings, before, m, x);
    }
  }

  lemma DroppedNext(log: seq<Drop>, more: bool, drop: Drop, x: nat, longer: seq<Drop>)
    requires longer == log + (if more then [drop] else [])
    ensures x in DroppedIn(longer) <==> x in DroppedIn(log) || (more && drop.dropped == x)
  {
    if more {
      assert longer[..|log|] == log;
    }
  }

  lemma {:induction false} DroppedByEffects(people: seq<Person>, findings: seq<Finding>, effects: seq<bool>, x: nat)
    requires InList(findings, |people|) && |effects| <= |findings|
    ensures x in DroppedIn(EffectiveDrops(people, findings, effects)) <==> Removed(people, findings, effects, x)
  {
    if effects != [] {
      var n := |effects| - 1;
      DroppedByEffects(people, findings, effects[..n], x);
      RemovedNext(people, findings, effects, x);
      DroppedNext(EffectiveDrops(people, findings, effects[..n]), effects[n],
                  Drop(Loser(people, findings[n]), Winner(people, findings[n])), x,
                  EffectiveDrops(people, findings, effects));
    }
  }

  lemma SettleDrops(people: seq<Person>, pass: Pass, f: Finding)
    requires PassOk(people, pass) && f.left < |people| && f.right < |people|
    ensures Settle(pass, f).log == pass.log
      + (if Decisive(people, f) && f.left !in DroppedIn(pass.log) && f.right !in DroppedIn(pass.log)
         then [Drop(Loser(people, f), Winner(people, f))] else [])
  {
    SameRuling(people, pass, f.left, f.right);
    RulingExactly(people[f.left], people[f.right]);
  }

  lemma MarksNext(people: seq<Person>, findings: seq<Finding>, effects: seq<bool>, n: nat)
    requires InList(findings, |people|) && Marks(people, findings, effects) && n < |findings|
    ensures effects[..n + 1] == effects[..n] + [TakesEffect(people, findings, effects[..n], findings[n])]
  {
  }

  /** The pass over the first `n` findings. */
  ghost function PassUpTo(people: seq<Person>, findings: seq<Finding>, n: nat): (pass: Pass)
    requires InList(findings, |people|) && n <= |findings|
    ensures |pass.people| == |people|
  {
    if n == 0 then Pass(people, [], 0) else Settle(PassUpTo(people, findings, n - 1), findings[n - 1])
  }

  lemma {:induction false} PassUpToIs(people: seq<Person>, findings: seq<Finding>, n: nat)
    requires InList(findings, |people|) && Proper(findings) && n <= |findings|
    ensures InList(findings[..n], |people|) && PassUpTo(people, findings, n) == SettleAll(people, findings[..n])
    ensures PassOk(people, PassUpTo(people, findings, n))
  {
    if n > 0 {
      PassUpToIs(people, findings, n - 1);
      SettleLast(people, findings[..n], findings[..n - 1], findings[n - 1]);
    }
    SettleAllOk(people, findings[..n]);
  }

  /** What the pass drops is exactly what takes effect, in that order. */
  lemma {:induction false} SettledExactly(people: seq<Person>, findings: seq<Finding>, effects: seq<bool>, n: nat)
    requires InList(findings, |people|) && Proper(findings) && Marks(people, findings, effects) && n <= |findings|
    ensures PassUpTo(people, findings, n).log == EffectiveDrops(people, findings, effects[..n])
  {
    if n > 0 {
      SettledExactly(people, findings, effects, n - 1);
      PassUpToIs(people, findings, n - 1);
      MarksNext(people, findings, effects, n - 1);
      SettledNext(people, findings, effects[..n - 1], PassUpTo(people, findings, n - 1), effects[..n]);
    }
  }

  lemma SettledNext(people: seq<Person>, findings: seq<Finding>, before: seq<bool>, pass: Pass, longer: seq<bool>)
    requires InList(findings, |people|) && |before| < |findings| && PassOk(people, pass)
    requires pass.log == EffectiveDrops(people, findings, before)
    requires longer == before + [TakesEffect(people, findings, before, findings[|before|])]
    ensures Settle(pass, findings[|before|]).log == EffectiveDrops(people, findings, longer)
  {
    var f := findings[|before|];
    SettleDrops(people, pass, f);
    DroppedByEffects(people, findings, before, f.left);
    DroppedByEffects(people, findings, before, f.right);
    assert longer[..|before|] == before;
  }

  /** How many of the findings neither rule nor concern anybody removed before. */
  ghost function Undecided(people: seq<Person>, findings: seq<Finding>, effects: seq<bool>): nat
    requires InList(findings, |people|) && |effects| <= |findings|
  {
    if effects == [] then 0
    else
      var n := |effects| - 1;
      var before, f := effects[..n], findings[n];
      var removed := Removed(people, findings, before, f.left) || Removed(people, findings, before, f.right);
      Undecided(people, findings, before) + (if Decisive(people, f) || removed then 0 else 1)
  }

  /** And exactly those are counted as unresolved. */
  lemma {:induction false} UnresolvedExactly(people: seq<Person>, findings: seq<Finding>, effects: seq<bool>, n: nat)
    requires InList(findings, |people|) && Proper(findings) && Marks(people, findings, effects) && n <= |findings|
    ensures PassUpTo(people, findings, n).unresolved == Undecided(people, findings, effects[..n])
  {
    if n > 0 {
      UnresolvedExactly(people, findings, effects, n - 1);
      SettledExactly(people, findings, effects, n - 1);
      PassUpToIs(people, findings, n - 1);
      MarksNext(people, findings, effects, n - 1);
      UnresolvedNext(people, findings, effects[..n - 1], PassUpTo(people, findings, n - 1), effects[..n]);
    }
  }

  lemma UnresolvedNext(people: seq<Person>, findings: seq<Finding>, before: seq<bool>, pass: Pass, longer: seq<bool>)
    requires InList(findings, |people|) && |before| < |findings| && PassOk(people, pass)
    requires pass.log == EffectiveDrops(people, findings, before)
    requires pass.unresolved == Undecided(people, findings, before)
    requires |longer| == |before| + 1 && longer[..|before|] == before
    ensures Settle(pass, findings[|before|]).unresolved == Undecided(people, findings, longer)
  {
    var f := findings[|before|];
    DroppedByEffects(people, findings, before, f.left);
    DroppedByEffects(people, findings, before, f.right);
    SettleCounts(people, pass, f);
  }

  lemma SettleCounts(people: seq<Person>, pass: Pass, f: Finding)
    requires PassOk(people, pass) && f.left < |people| && f.right < |people|
    ensures Settle(pass, f).unresolved == pass.unresolved
      + (if !Decisive(people, f) && f.left !in DroppedIn(pass.log) && f.right !in DroppedIn(pass.log) then 1 else 0)
  {
    SameRuling(people, pass, f.left, f.right);
    RulingExactly(people[f.left], people[f.right]);
  }

  /** There is a marking of the first `n` findings. */
  lemma {:induction false} MarkedUpTo(people: seq<Person>, findings: seq<Finding>, n: nat) returns (effects: seq<bool>)
    requires InList(findings, |people|) && n <= |findings|
    ensures |effects| == n
    ensures forall k :: 0 <= k < n ==> effects[k] == TakesEffect(people, findings, effects[..k], findings[k])
  {
    if n == 0 {
      effects := [];
    } else {
      var before := MarkedUpTo(people, findings, n - 1);
      effects := before + [TakesEffect(people, findings, before, findings[n - 1])];
      forall k | 0 <= k < n ensures effects[k] == TakesEffect(people, findings, effects[..k], findings[k]) {
        assert effects[..k] == before[..k];
      }
    }
  }

  ghost predicate Touches(f: Finding, x: nat) { f.left == x || f.right == x }

  lemma RemovedExactly(people: seq<Person>, findings: seq<Finding>, before: seq<bool>, f: Finding)
    requires InList(findings, |people|) && |before| <= |findings|
    ensures !Removed(people, findings, before, f.left) && !Removed(people, findings, before, f.right)
       <==> forall m :: 0 <= m < |before| && before[m] ==> !Touches(f, Loser(people, findings[m]))
  {
    if forall m :: 0 <= m < |before| && before[m] ==> !Touches(f, Loser(people, findings[m])) {
    } else {
      var m :| 0 <= m < |before| && before[m] && Touches(f, Loser(people, findings[m]));
      assert RemovedAt(people, findings, before, m, f.left) || RemovedAt(people, findings, before, m, f.right);
    }
  }

  /** What it means to take effect, without the order of computation. */
  lemma EffectExactly(people: seq<Person>, findings: seq<Finding>, effects: seq<bool>, n: nat)
    requires InList(findings, |people|) && Marks(people, findings, effects) && n < |findings|
    ensures effects[n] <==>
      && Decisive(people, findings[n])
      && forall m :: 0 <= m < n && effects[m] ==> !Touches(findings[n], Loser(people, findings[m]))
  {
    RemovedExactly(people, findings, effects[..n], findings[n]);
    assert forall m :: 0 <= m < n ==> effects[..n][m] == effects[m];
  }

  // --- Exactly when everybody is listed ------------------------------------

  ghost function DropOf(people: seq<Person>, f: Finding): Drop
    requires f.left < |people| && f.right < |people|
  {
    Drop(Loser(people, f), Winner(people, f))
  }

  lemma {:induction false} DropOfEffect(people: seq<Person>, findings: seq<Finding>, effects: seq<bool>, m: nat)
    requires InList(findings, |people|) && m < |effects| <= |findings| && effects[m]
    ensures DropOf(people, findings[m]) in EffectiveDrops(people, findings, effects)
  {
    if m < |effects| - 1 {
      DropOfEffect(people, findings, effects[..|effects| - 1], m);
    }
  }

  lemma {:induction false} EffectOfDrop(people: seq<Person>, findings: seq<Finding>, effects: seq<bool>, d: Drop)
    returns (m: nat)
    requires InList(findings, |people|) && |effects| <= |findings| && d in EffectiveDrops(people, findings, effects)
    ensures m < |effects| && effects[m] && d == DropOf(people, findings[m])
  {
    var n := |effects| - 1;
    if effects[n] && d == DropOf(people, findings[n]) {
      m := n;
    } else {
      m := EffectOfDrop(people, findings, effects[..n], d);
    }
  }

  /** The keeper of one finding that takes effect is the one dropped by a later one. */
  ghost predicate Relay(people: seq<Person>, findings: seq<Finding>, effects: seq<bool>, m: int, n: int)
    requires InList(findings, |people|) && |effects| == |findings|
  {
    0 <= m < n < |findings| && effects[m] && effects[n] && Winner(people, findings[m]) == Loser(people, findings[n])
  }

  lemma KeeperGoneIsRelay(people: seq<Person>, findings: seq<Finding>, effects: seq<bool>, m: nat) returns (n: nat)
    requires InList(findings, |people|) && Proper(findings) && Marks(people, findings, effects)
    requires m < |findings| && effects[m] && Removed(people, findings, effects, Winner(people, findings[m]))
    ensures Relay(people, findings, effects, m, n)
  {
    n :| RemovedAt(people, findings, effects, n, Winner(people, findings[m]));
    EffectExactly(people, findings, effects, m);
    assert Touches(findings[m], Winner(people, findings[m]));
  }

  lemma KeeperStays(people: seq<Person>, log: seq<Drop>, d: Drop)
    requires d.keeper < |people|
    ensures KeeperIn(d, KeptIndices(DroppedIn(log), |people|)) <==> d.keeper !in DroppedIn(log)
  {
    if d.keeper !in DroppedIn(log) {
      KeptMembers(DroppedIn(log), |people|, d.keeper);
    }
  }

  lemma LogOfEffects(settings: Settings, people: seq<Person>, effects: seq<bool>)
    requires InList(Findings(settings, people), |people|) && Marks(people, Findings(settings, people), effects)
    ensures Proper(Findings(settings, people))
    ensures FinalPass(settings, people).log == EffectiveDrops(people, Findings(settings, people), effects)
  {
    var findings := Findings(settings, people);
    FinalPassOk(settings, people);
    SettledExactly(people, findings, effects, |findings|);
    PassUpToIs(people, findings, |findings|);
    assert findings[..|findings|] == findings && effects[..|findings|] == effects;
  }

  /**
   The lists on the map name everybody dropped if and only if no finding that
   takes effect removes the keeper of an earlier one that does; otherwise they
   name fewer. Which findings take effect is settled by the people alone.
   */
  lemma AllListedExactly(settings: Settings, people: seq<Person>, effects: seq<bool>)
    requires InList(Findings(settings, people), |people|) && Marks(people, Findings(settings, people), effects)
    ensures var log := FinalPass(settings, people).log;
      var indices := KeptIndices(DroppedIn(log), |people|);
      && LogInRange(log, |people|)
      && Listed(people, log, indices) <= |log|
      && (Listed(people, log, indices) == |log|
          <==> !exists m, n :: Relay(people, Findings(settings, people), effects, m, n))
  {
    LogOfEffects(settings, people, effects);
    AllListedWhenKeepersStay(settings, people);
    KeepersStayExactly(people, Findings(settings, people), effects, FinalPass(settings, people).log);
  }

  lemma KeepersStayExactly(people: seq<Person>, findings: seq<Finding>, effects: seq<bool>, log: seq<Drop>)
    requires InList(findings, |people|) && Proper(findings) && Marks(people, findings, effects)
    requires log == EffectiveDrops(people, findings, effects) && LogInRange(log, |people|)
    ensures AllKeepersIn(log, KeptIndices(DroppedIn(log), |people|))
       <==> !exists m, n :: Relay(people, findings, effects, m, n)
  {
    var kept := KeptIndices(DroppedIn(log), |people|);
    forall k | 0 <= k < |log| && !KeeperIn(log[k], kept) ensures exists m, n :: Relay(people, findings, effects, m, n) {
      var m := EffectOfDrop(people, findings, effects, log[k]);
      KeeperStays(people, log, log[k]);
      DroppedByEffects(people, findings, effects, log[k].keeper);
      var n := KeeperGoneIsRelay(people, findings, effects, m);
    }
    forall m, n | Relay(people, findings, effects, m, n) ensures !AllKeepersIn(log, kept) {
      RelayLosesKeeper(people, findings, effects, log, m, n);
    }
  }

  lemma RelayLosesKeeper(
    people: seq<Person>, findings: seq<Finding>, effects: seq<bool>, log: seq<Drop>, m: nat, n: nat)
    requires InList(findings, |people|) && Marks(people, findings, effects) && Relay(people, findings, effects, m, n)
    requires log == EffectiveDrops(people, findings, effects) && LogInRange(log, |people|)
    ensures !AllKeepersIn(log, KeptIndices(DroppedIn(log), |people|))
  {
    var d := DropOf(people, findings[m]);
    DropOfEffect(people, findings, effects, m);
    assert RemovedAt(people, findings, effects, n, d.keeper);
    DroppedByEffects(people, findings, effects, d.keeper);
    KeeperStays(people, log, d);
    var k :| 0 <= k < |log| && log[k] == d;
    assert !KeeperIn(log[k], KeptIndices(DroppedIn(log), |people|));
  }

  // --- What can be seen of it without settling anything --------------------

  /** What the list holds of two people, if they are duplicates. */
  function PairOf(settings: Settings, people: seq<Person>, a: nat, b: nat): Finding
    requires a < |people| && b < |people|
  {
    if a < b then FindingOf(settings, people, a, b) else FindingOf(settings, people, b, a)
  }

  /** The two are duplicates and `w` prevails. */
  ghost predicate Beats(settings: Settings, people: seq<Person>, w: nat, l: nat) {
    Duplicated(settings, people, w, l) && Outdoes(people, w, l)
  }

  /** Two different people who are duplicates, in the order of the list. */
  ghost predicate Duplicated(settings: Settings, people: seq<Person>, a: nat, b: nat) {
    && a < |people| && b < |people| && a != b
    && (if a < b then AreDuplicates(settings, people[a], people[b]) else AreDuplicates(settings, people[b], people[a]))
  }

  predicate Earlier(f: Finding, g: Finding) { Sooner(f, g) && f != g }

  /** A finding that rules is the pair of its winner and loser. */
  lemma RulingBeats(settings: Settings, people: seq<Person>, f: Finding)
    requires f in Findings(settings, people) && f.left < |people| && f.right < |people| && Decisive(people, f)
    ensures var w, l := Winner(people, f), Loser(people, f);
      Beats(settings, people, w, l) && f == PairOf(settings, people, w, l)
  {
    FindingsExact(settings, people);
    DuplicatesExactly(settings, people[f.left], people[f.right]);
  }

  lemma BeatsRules(settings: Settings, people: seq<Person>, w: nat, l: nat) returns (n: nat)
    requires Beats(settings, people, w, l) && InList(Findings(settings, people), |people|)
    ensures n < |Findings(settings, people)| && Findings(settings, people)[n] == PairOf(settings, people, w, l)
    ensures var f := Findings(settings, people)[n];
      Decisive(people, f) && Winner(people, f) == w && Loser(people, f) == l
  {
    var a, b := if w < l then w else l, if w < l then l else w;
    DuplicatesExactly(settings, people[a], people[b]);
    n := DuplicateListed(settings, people, a, b);
    var f := Findings(settings, people)[n];
    RulingExactly(people[a], people[b]);
    assert f in Findings(settings, people);
    FindingsExact(settings, people);
  }

  lemma EarlierIsBefore(settings: Settings, people: seq<Person>, i: nat, j: nat)
    requires i < |Findings(settings, people)| && j < |Findings(settings, people)|
    requires Earlier(Findings(settings, people)[i], Findings(settings, people)[j])
    ensures i < j
  {
    if j < i {
      FindingsInOrder(settings, people, j, i);
      SoonerAntisymmetric(Findings(settings, people)[i], Findings(settings, people)[j]);
    }
  }

  /** Someone beats one duplicate and is beaten by another that is settled later. */
  ghost predicate Overtakes(settings: Settings, people: seq<Person>, x: nat, k: nat, m: nat) {
    && Beats(settings, people, k, x) && Beats(settings, people, m, k)
    && Earlier(PairOf(settings, people, x, k), PairOf(settings, people, k, m))
  }

  lemma RelayOvertakes(settings: Settings, people: seq<Person>, effects: seq<bool>, m: nat, n: nat)
    requires InList(Findings(settings, people), |people|) && Proper(Findings(settings, people))
    requires Marks(people, Findings(settings, people), effects)
    requires Relay(people, Findings(settings, people), effects, m, n)
    ensures var findings := Findings(settings, people);
      Overtakes(settings, people, Loser(people, findings[m]), Winner(people, findings[m]), Winner(people, findings[n]))
  {
    var findings := Findings(settings, people);
    EffectExactly(people, findings, effects, m);
    EffectExactly(people, findings, effects, n);
    assert findings[m] in findings && findings[n] in findings;
    RulingBeats(settings, people, findings[m]);
    RulingBeats(settings, people, findings[n]);
    FindingsInOrder(settings, people, m, n);
  }

  /** Where nobody beats one duplicate and is beaten by another settled later, everybody dropped is listed. */
  lemma NobodyBetween(settings: Settings, people: seq<Person>)
    requires forall x, k, m :: !Overtakes(settings, people, x, k, m)
    ensures var log := FinalPass(settings, people).log;
      LogInRange(log, |people|) && Listed(people, log, KeptIndices(DroppedIn(log), |people|)) == |log|
  {
    var findings := Findings(settings, people);
    FinalPassOk(settings, people);
    var effects := MarkedUpTo(people, findings, |findings|);
    AllListedExactly(settings, people, effects);
    forall m, n | Relay(people, findings, effects, m, n) ensures false {
      RelayOvertakes(settings, people, effects, m, n);
    }
  }

  /**
   And nothing stands in the way of it: neither of the first pair loses to
   anybody sooner, and the last one to nobody before it beats the second.
   */
  ghost predicate Unhindered(settings: Settings, people: seq<Person>, x: nat, k: nat, m: nat) {
    && Overtakes(settings, people, x, k, m)
    && (forall y, z :: Beats(settings, people, y, z) && (z == x || z == k) ==>
          !Earlier(PairOf(settings, people, y, z), PairOf(settings, people, x, k)))
    && (forall y :: Beats(settings, people, y, m) ==>
          !Earlier(PairOf(settings, people, y, m), PairOf(settings, people, k, m)))
  }

  lemma {:induction false} FirstIndex(findings: seq<Finding>, n: nat) returns (i: nat)
    requires n < |findings|
    ensures i <= n && findings[i] == findings[n] && forall p :: 0 <= p < i ==> findings[p] != findings[n]
  {
    i := n;
    if p: nat :| p < n && findings[p] == findings[n] {
      i := FirstIndex(findings, p);
    }
  }

  /** A finding that takes effect before the first place of another is an earlier victory. */
  lemma EarlierVictory(settings: Settings, people: seq<Person>, effects: seq<bool>, p: nat, n: nat)
    requires InList(Findings(settings, people), |people|) && Marks(people, Findings(settings, people), effects)
    requires p < n < |effects| && effects[p] && Findings(settings, people)[p] != Findings(settings, people)[n]
    ensures var f := Findings(settings, people)[p];
      && Beats(settings, people, Winner(people, f), Loser(people, f))
      && Earlier(PairOf(settings, people, Winner(people, f), Loser(people, f)), Findings(settings, people)[n])
  {
    EffectExactly(people, Findings(settings, people), effects, p);
    assert Findings(settings, people)[p] in Findings(settings, people);
    RulingBeats(settings, people, Findings(settings, people)[p]);
    FindingsInOrder(settings, people, p, n);
  }

  lemma PairTakesEffect(
    settings: Settings, people: seq<Person>, effects: seq<bool>, x: nat, k: nat, m: nat) returns (i: nat)
    requires InList(Findings(settings, people), |people|) && Marks(people, Findings(settings, people), effects)
    requires Unhindered(settings, people, x, k, m)
    ensures i < |effects| && effects[i] && Findings(settings, people)[i] == PairOf(settings, people, x, k)
    ensures Winner(people, Findings(settings, people)[i]) == k && Loser(people, Findings(settings, people)[i]) == x
  {
    var findings := Findings(settings, people);
    var n := BeatsRules(settings, people, k, x);
    i := FirstIndex(findings, n);
    EffectExactly(people, findings, effects, i);
    forall p | 0 <= p < i && effects[p] ensures !Touches(findings[i], Loser(people, findings[p])) {
      EarlierVictory(settings, people, effects, p, i);
    }
  }

  /** Whatever keeps the second pair from taking effect has removed the second person after the first pair did. */
  lemma HinderedByRelay(
    settings: Settings, people: seq<Person>, effects: seq<bool>, x: nat, k: nat, m: nat, i: nat, j: nat, p: nat)
    requires InList(Findings(settings, people), |people|) && Marks(people, Findings(settings, people), effects)
    requires Unhindered(settings, people, x, k, m) && i < j < |effects| && effects[i] && p < j && effects[p]
    requires Findings(settings, people)[i] == PairOf(settings, people, x, k)
    requires Findings(settings, people)[j] == PairOf(settings, people, k, m)
    requires Findings(settings, people)[p] != Findings(settings, people)[j]
    requires Winner(people, Findings(settings, people)[i]) == k && Loser(people, Findings(settings, people)[i]) == x
    requires Touches(Findings(settings, people)[j], Loser(people, Findings(settings, people)[p]))
    ensures Relay(people, Findings(settings, people), effects, i, p)
  {
    var f := Findings(settings, people)[p];
    EarlierVictory(settings, people, effects, p, j);
    NotBeatenBefore(settings, people, x, k, m, Winner(people, f), Loser(people, f));
    EffectExactly(people, Findings(settings, people), effects, i);
    assert Touches(Findings(settings, people)[i], k);
  }

  lemma NotBeatenBefore(settings: Settings, people: seq<Person>, x: nat, k: nat, m: nat, y: nat, z: nat)
    requires Unhindered(settings, people, x, k, m) && Beats(settings, people, y, z)
    requires Earlier(PairOf(settings, people, y, z), PairOf(settings, people, k, m))
    ensures z != m
  {
  }

  lemma UnhinderedRelays(settings: Settings, people: seq<Person>, effects: seq<bool>, x: nat, k: nat, m: nat)
    returns (i: nat, p: nat)
    requires InList(Findings(settings, people), |people|) && Marks(people, Findings(settings, people), effects)
    requires Unhindered(settings, people, x, k, m)
    ensures Relay(people, Findings(settings, people), effects, i, p)
  {
    var findings := Findings(settings, people);
    i := PairTakesEffect(settings, people, effects, x, k, m);
    var n := BeatsRules(settings, people, m, k);
    var j := FirstIndex(findings, n);
    EarlierIsBefore(settings, people, i, j);
    EffectExactly(people, findings, effects, j);
    p := j;
    if !effects[j] {
      p :| 0 <= p < j && effects[p] && Touches(findings[j], Loser(people, findings[p]));
      HinderedByRelay(settings, people, effects, x, k, m, i, j, p);
    }
  }

  /** Then the record of the first one is lost, whoever else is about. */
  lemma UnhinderedLoses(settings: Settings, people: seq<Person>, x: nat, k: nat, m: nat)
    requires Unhindered(settings, people, x, k, m)
    ensures var log := FinalPass(settings, people).log;
      LogInRange(log, |people|) && Listed(people, log, KeptIndices(DroppedIn(log), |people|)) < |log|
  {
    var findings := Findings(settings, people);
    FinalPassOk(settings, people);
    var effects := MarkedUpTo(people, findings, |findings|);
    AllListedExactly(settings, people, effects);
    var i, p := UnhinderedRelays(settings, people, effects, x, k, m);
  }

  // --- Who is dropped for whom ---------------------------------------------

  /** Every takeover is one duplicate's of another over whom it prevails. */
  lemma TakenOverRightly(settings: Settings, people: seq<Person>, d: Drop)
    requires d in FinalPass(settings, people).log
    ensures Beats(settings, people, d.keeper, d.dropped)
  {
    var findings := Findings(settings, people);
    FinalPassOk(settings, people);
    var effects := MarkedUpTo(people, findings, |findings|);
    LogOfEffects(settings, people, effects);
    var m := EffectOfDrop(people, findings, effects, d);
    EffectExactly(people, findings, effects, m);
    assert findings[m] in findings;
    RulingBeats(settings, people, findings[m]);
  }

  /** Nobody with better evidence is a duplicate of anybody with this master. */
  ghost predicate Unbeaten(settings: Settings, people: seq<Person>, master: int) {
    forall x: nat, y: nat :: Duplicated(settings, people, y, x) && people[x].identity == Some(master) ==>
      !BetterShown(people[y], people[x])
  }

  lemma {:induction false} MasterHandedOn(
    settings: Settings, people: seq<Person>, path: seq<nat>, master: int, m: nat)
    requires Climbs(people, FinalPass(settings, people).log, path) && m < |path|
    requires Unbeaten(settings, people, master) && people[path[0]].identity == Some(master)
    ensures people[path[m]].identity == Some(master)
  {
    if m > 0 {
      MasterHandedOn(settings, people, path, master, m - 1);
      TakenOverRightly(settings, people, Drop(path[m - 1], path[m]));
    }
  }

  /** A master whom nobody with better evidence displaces stays on the map. */
  lemma MasterStays(settings: Settings, people: seq<Person>, master: int, x: nat) returns (k: nat)
    requires x < |people| && people[x].identity == Some(master) && Unbeaten(settings, people, master)
    ensures k < |Suppress(settings, people)| && Suppress(settings, people)[k].identity == Some(master)
  {
    var log := FinalPass(settings, people).log;
    var path, indices := Chain(log, x), KeptIndices(DroppedIn(log), |people|);
    EverybodyRepresented(settings, people, x);
    MasterHandedOn(settings, people, path, master, |path| - 1);
    k :| 0 <= k < |indices| && indices[k] == path[|path| - 1];
    LengthFallsByDrops(settings, people);
    assert SameButList(Suppress(settings, people)[k], people[indices[k]]);
  }

  // --- A person nobody lists -----------------------------------------------

  function OnALine(camera: string, x: real, quality: Quality): Person {
    Singleton(Observation(camera, Some(1), None, None, None, false, false, quality, Some((x, 0.0)), 0.0))
  }

  const LINE := Settings(35.0, (p: Point, q: Point) => Abs(p.0 - q.0))
  const SOFT := OnALine("a", 0.0, Soft)
  const STALE := OnALine("b", 10.0, Stale)
  const HARD := OnALine("c", 30.0, Hard)
  const SOFT_STALE := Finding(true, Some(10.0), 0, 1)
  const SOFT_HARD := Finding(true, Some(30.0), 0, 2)
  const STALE_HARD := Finding(true, Some(20.0), 1, 2)

  /**
   Three views of one place: the stale one yields to the soft one, and the
   soft one to the hard one, which never hears of the first.
   */
  lemma LostRecord()
    ensures FinalPass(LINE, [SOFT, STALE, HARD]).log == [Drop(1, 0), Drop(0, 2)]
    ensures KeptIndices(DroppedIn(FinalPass(LINE, [SOFT, STALE, HARD]).log), 3) == [2]
    ensures |Records([SOFT, STALE, HARD], FinalPass(LINE, [SOFT, STALE, HARD]).log, 2)| == 1
  {
    LineFindings();
    LineSettled();
    var log := [Drop(1, 0), Drop(0, 2)];
    assert log[..1] == [Drop(1, 0)] && log[..1][..0] == [];
    assert DroppedIn(log[..1]) == {1} && DroppedIn(log) == {0, 1};
    assert KeptIndices({0, 1}, 0) == [];
    assert KeptIndices({0, 1}, 1) == [];
    assert KeptIndices({0, 1}, 2) == [];
    assert Records([SOFT, STALE, HARD], log[..1][..0], 2) == [];
    assert Records([SOFT, STALE, HARD], log[..1], 2) == [];
  }

  predicate Fits(f: Finding, n: nat) { f.left < n && f.right < n }

  lemma ThreeSteps(people: seq<Person>, x: Finding, y: Finding, z: Finding)
    requires Fits(x, |people|) && Fits(y, |people|) && Fits(z, |people|)
    ensures InList([x, y, z], |people|)
    ensures SettleAll(people, [x, y, z]) == Settle(Settle(Settle(Pass(people, [], 0), x), y), z)
  {
    var one, two, three := [x], [x, y], [x, y, z];
    assert one[..0] == [] && two[..1] == one && three[..2] == two;
    SettleLast(people, one, [], x);
    SettleLast(people, two, one, y);
    SettleLast(people, three, two, z);
  }

  lemma SettleLast(people: seq<Person>, all: seq<Finding>, front: seq<Finding>, last: Finding)
    requires InList(front, |people|) && Fits(last, |people|)
    requires |all| == |front| + 1 && all[..|front|] == front && all[|front|] == last
    ensures InList(all, |people|)
    ensures SettleAll(people, all) == Settle(SettleAll(people, front), last)
  {
    forall k | 0 <= k < |all| ensures all[k].left < |people| && all[k].right < |people| {
      assert k < |front| ==> all[k] == front[k];
    }
  }

  /** The first yields to the third after it has taken over from the second. */
  lemma TakenOverInTurn(people: seq<Person>, x: Finding, y: Finding, z: Finding, reason: string)
    requires |people| == 3
    requires x.left == 0 && x.right == 1 && y.left == 1 && y.right == 2 && z.left == 0 && z.right == 2
    requires Authority(people[0], people[1]) == KeepLeft(reason)
    requires Authority(people[0], people[2]) == KeepRight(reason)
    ensures Settle(Settle(Settle(Pass(people, [], 0), x), y), z).log == [Drop(1, 0), Drop(0, 2)]
  {
    var start := Pass(people, [], 0);
    assert DroppedIn(start.log) == {};
    var first := Settle(start, x);
    assert first == TakeOver(start, 1, 0, reason);
    assert first.log == [Drop(1, 0)] && [Drop(1, 0)][..0] == [];
    assert DroppedIn(first.log) == {1};
    assert Settle(first, y) == first;
    ListDecidesNothing(LINE, first.people[0], first.people[2], people[0], people[2]);
    assert Settle(first, z) == TakeOver(first, 0, 2, reason);
  }

  lemma LineSettled()
    ensures InList([SOFT_STALE, STALE_HARD, SOFT_HARD], 3)
    ensures SettleAll([SOFT, STALE, HARD], [SOFT_STALE, STALE_HARD, SOFT_HARD]).log == [Drop(1, 0), Drop(0, 2)]
  {
    LineRulings();
    ThreeSteps([SOFT, STALE, HARD], SOFT_STALE, STALE_HARD, SOFT_HARD);
    TakenOverInTurn([SOFT, STALE, HARD], SOFT_STALE, STALE_HARD, SOFT_HARD, "better_position_evidence");
  }

  lemma LineRulings()
    ensures Authority(SOFT, STALE) == KeepLeft("better_position_evidence")
    ensures Authority(SOFT, HARD) == KeepRight("better_position_evidence")
  {
    SoleRank(SOFT, 2);
    SoleRank(STALE, 1);
    SoleRank(HARD, 3);
  }

  lemma SoleRank(p: Person, rank: nat)
    requires |p.observations| == 1 && p.observations[0].point.Some? && Rank(p.observations[0].quality) == rank
    ensures DisplayRank(p) == rank
  {
    var o := p.observations[0];
    assert p.observations == [o] && [o][1..] == [];
    assert Positioned([]) == [] && BestRank([]) == 0;
    assert Positioned([o]) == [o];
  }

  lemma LineFound()
    ensures Find(LINE, [SOFT, STALE, HARD], 0, 1) == [SOFT_STALE]
    ensures Find(LINE, [SOFT, STALE, HARD], 0, 2) == [SOFT_HARD]
    ensures Find(LINE, [SOFT, STALE, HARD], 1, 2) == [STALE_HARD]
  {
    var people := [SOFT, STALE, HARD];
    assert people[0] == SOFT && people[1] == STALE && people[2] == HARD;
    LinePair(SOFT, STALE, "a", "b", 10.0);
    LinePair(SOFT, HARD, "a", "c", 30.0);
    LinePair(STALE, HARD, "b", "c", 20.0);
  }

  lemma LinePair(p: Person, q: Person, a: string, b: string, distance: real)
    requires p.sources == [a] && q.sources == [b] && a != b
    requires p.identity.None? && q.identity.None?
    requires p.center.Some? && q.center.Some?
    requires Abs(p.center.value.0 - q.center.value.0) == distance <= 35.0
    ensures IsDuplicate(LINE, p, q) && !SharesMaster(p, q) && Distance(LINE, p, q) == Some(distance)
  {
  }

  lemma LineFindings()
    ensures Findings(LINE, [SOFT, STALE, HARD]) == [SOFT_STALE, STALE_HARD, SOFT_HARD]
  {
    var people := [SOFT, STALE, HARD];
    LineFound();
    assert FindRow(LINE, people, 0, 2) == [SOFT_STALE];
    assert FindRow(LINE, people, 0, 3) == [SOFT_STALE, SOFT_HARD];
    assert FindRow(LINE, people, 1, 3) == [STALE_HARD];
    assert FindRow(LINE, people, 2, 3) == [];
    assert FindAll(LINE, people, 0) == [];
    assert FindAll(LINE, people, 1) == [SOFT_STALE, SOFT_HARD];
    assert FindAll(LINE, people, 2) == [SOFT_STALE, SOFT_HARD, STALE_HARD];
    assert FindAll(LINE, people, 3) == [SOFT_STALE, SOFT_HARD, STALE_HARD];
    LineSorted();
  }

  lemma LineSorted()
    ensures StableSort.SortBy([SOFT_STALE, SOFT_HARD, STALE_HARD], Sooner) == [SOFT_STALE, STALE_HARD, SOFT_HARD]
  {
    assert [SOFT_STALE, SOFT_HARD, STALE_HARD][1..] == [SOFT_HARD, STALE_HARD];
    assert [SOFT_HARD, STALE_HARD][1..] == [STALE_HARD] && [STALE_HARD][1..] == [];
    assert StableSort.SortBy([STALE_HARD], Sooner) == [STALE_HARD];
    assert StableSort.Insert(SOFT_HARD, [], Sooner) == [SOFT_HARD];
    assert StableSort.Insert(SOFT_HARD, [STALE_HARD], Sooner) == [STALE_HARD, SOFT_HARD];
  }
}
