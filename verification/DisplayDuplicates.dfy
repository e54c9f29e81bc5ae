/** Stopping one person from being drawn twice by two disagreeing cameras. */
module DisplayDuplicates {
  import opened Observations
  import opened Options
  import StableSort

  /** The distance is a parameter: nothing below depends on how it is computed. */
  datatype Settings = Settings(limit: real, dist: (Point, Point) -> real)

  // --- When two people are duplicates --------------------------------------

  predicate SharesSource(a: Person, b: Person) {
    exists s :: s in a.sources && s in b.sources
  }

  predicate SharesMaster(a: Person, b: Person) {
    a.identity.Some? && a.identity == b.identity
  }

  function Distance(settings: Settings, a: Person, b: Person): Option<real> {
    if a.center.Some? && b.center.Some? then Some(settings.dist(a.center.value, b.center.value)) else None
  }

  predicate TooClose(settings: Settings, a: Person, b: Person) {
    var d := Distance(settings, a, b);
    d.Some? && settings.limit > 0.0 && d.value <= settings.limit
  }

  /** Seen by different cameras, and one master or one place. */
  predicate IsDuplicate(settings: Settings, a: Person, b: Person) {
    !SharesSource(a, b) && (SharesMaster(a, b) || TooClose(settings, a, b))
  }

  // --- Which of the two owns the dot ---------------------------------------

  function Decimal(n: nat): string {
    if n < 10 then ["0123456789"[n]] else Decimal(n / 10) + ["0123456789"[n % 10]]
  }

  function TrackText(track: Option<int>): string {
    match track
    case None => "None"
    case Some(n) => if n < 0 then "-" + Decimal(-n) else Decimal(n)
  }

  /** Text order, character by character. */
  predicate TextLe(a: string, b: string) {
    if a == "" then true
    else if b == "" then false
    else if a[0] != b[0] then a[0] < b[0]
    else TextLe(a[1..], b[1..])
  }

  lemma {:induction false} TextLeAntisymmetric(a: string, b: string)
    ensures TextLe(a, b) || TextLe(b, a)
    ensures TextLe(a, b) && TextLe(b, a) ==> a == b
    ensures a == b ==> TextLe(a, b)
  {
    if a != "" && b != "" {
      TextLeAntisymmetric(a[1..], b[1..]);
      assert a == [a[0]] + a[1..] && b == [b[0]] + b[1..];
    }
  }

  datatype OrderKey = OrderKey(sources: nat, camera: string, track: string)

  function KeyFor(person: Person): OrderKey {
    if person.observations == [] then OrderKey(|person.sources|, "None", "None")
    else OrderKey(|person.sources|, person.observations[0].camera, TrackText(person.observations[0].track))
  }

  /** More sources first, then camera and track text. */
  predicate KeyLe(a: OrderKey, b: OrderKey) {
    if a.sources != b.sources then a.sources > b.sources
    else if a.camera != b.camera then TextLe(a.camera, b.camera)
    else TextLe(a.track, b.track)
  }

  lemma KeyLeAntisymmetric(a: OrderKey, b: OrderKey)
    ensures KeyLe(a, b) || KeyLe(b, a)
    ensures KeyLe(a, b) && KeyLe(b, a) <==> a == b
  {
    TextLeAntisymmetric(a.camera, b.camera);
    TextLeAntisymmetric(a.track, b.track);
  }

  datatype Ruling = KeepLeft(reason: string) | KeepRight(reason: string) | LeaveBoth

  function Favour(left: bool, reason: string): Ruling {
    if left then KeepLeft(reason) else KeepRight(reason)
  }

  function Authority(left: Person, right: Person): Ruling {
    if DisplayRank(left) != DisplayRank(right) then
      Favour(DisplayRank(left) > DisplayRank(right), "better_position_evidence")
    else if left.identity.None? != right.identity.None? then
      Favour(left.identity.Some?, "only_one_side_has_a_master")
    else if left.identity.Some? && left.identity != right.identity then LeaveBoth
    else Favour(KeyLe(KeyFor(left), KeyFor(right)), "deterministic_tiebreak")
  }

  /** The two are left alone exactly for equal evidence and two different names. */
  lemma LeftAloneExactly(left: Person, right: Person)
    ensures Authority(left, right) == LeaveBoth <==>
      && DisplayRank(left) == DisplayRank(right)
      && left.identity.Some? && right.identity.Some? && left.identity != right.identity
  {
  }

  /**
   The ruling does not depend on which of the two came first, except when
   both have the same number of sources, camera and track: then, and only
   then, and only when nothing earlier decides, the first one wins.
   */
  lemma AuthorityIgnoresOrder(a: Person, b: Person)
    ensures Authority(a, b) == LeaveBoth <==> Authority(b, a) == LeaveBoth
    ensures Authority(a, b) != LeaveBoth ==>
      ((Authority(a, b).KeepLeft? <==> Authority(b, a).KeepRight?) <==>
        (DisplayRank(a) != DisplayRank(b) || a.identity != b.identity || KeyFor(a) != KeyFor(b)))
  {
    KeyLeAntisymmetric(KeyFor(a), KeyFor(b));
  }

  // --- The candidate list --------------------------------------------------

  /** Positions of two duplicate people; `distance` is absent when one has no position. */
  datatype Finding = Finding(physical: bool, distance: Option<real>, left: nat, right: nat)

  /** Proximity before shared masters, then closest first, then list order. */
  predicate Sooner(a: Finding, b: Finding) {
    if a.physical != b.physical then a.physical
    else if a.distance != b.distance then
      b.distance.None? || (a.distance.Some? && a.distance.value <= b.distance.value)
    else if a.left != b.left then a.left < b.left
    else a.right <= b.right
  }

  function Find(settings: Settings, people: seq<Person>, i: nat, j: nat): seq<Finding>
    requires i < |people| && j < |people|
  {
    if IsDuplicate(settings, people[i], people[j]) then [FindingOf(settings, people, i, j)] else []
  }

  function FindRow(settings: Settings, people: seq<Person>, i: nat, j: nat): seq<Finding>
    requires i < j <= |people|
  {
    if j == i + 1 then [] else FindRow(settings, people, i, j - 1) + Find(settings, people, i, j - 1)
  }

  function FindAll(settings: Settings, people: seq<Person>, i: nat): seq<Finding>
    requires i <= |people|
  {
    if i == 0 then []
    else FindAll(settings, people, i - 1) + FindRow(settings, people, i - 1, |people|)
  }

  function Findings(settings: Settings, people: seq<Person>): seq<Finding> {
    StableSort.SortBy(FindAll(settings, people, |people|), Sooner)
  }

  function FindingOf(settings: Settings, people: seq<Person>, i: nat, j: nat): Finding
    requires i < |people| && j < |people|
  {
    Finding(!SharesMaster(people[i], people[j]), Distance(settings, people[i], people[j]), i, j)
  }

  lemma InSum<T>(x: T, a: seq<T>, b: seq<T>)
    ensures x in a + b <==> x in a || x in b
  {
  }

  ghost predicate Sound(settings: Settings, people: seq<Person>, f: Finding) {
    && f.left < f.right < |people| && IsDuplicate(settings, people[f.left], people[f.right])
    && f == FindingOf(settings, people, f.left, f.right)
  }

  lemma FindHas(settings: Settings, people: seq<Person>, i: nat, j: nat, f: Finding)
    requires i < j < |people|
    ensures f in Find(settings, people, i, j) <==> Sound(settings, people, f) && f.left == i && f.right == j
  {
  }

  lemma {:induction false} FindRowHas(settings: Settings, people: seq<Person>, i: nat, j: nat, f: Finding)
    requires i < j <= |people|
    ensures f in FindRow(settings, people, i, j) <==> Sound(settings, people, f) && f.left == i && f.right < j
  {
    if j > i + 1 {
      FindRowHas(settings, people, i, j - 1, f);
      FindHas(settings, people, i, j - 1, f);
      InSum(f, FindRow(settings, people, i, j - 1), Find(settings, people, i, j - 1));
    }
  }

  lemma {:induction false} FindAllHas(settings: Settings, people: seq<Person>, i: nat, f: Finding)
    requires i <= |people|
    ensures f in FindAll(settings, people, i) <==> Sound(settings, people, f) && f.left < i
  {
    if i > 0 {
      FindAllHas(settings, people, i - 1, f);
      FindRowHas(settings, people, i - 1, |people|, f);
      InSum(f, FindAll(settings, people, i - 1), FindRow(settings, people, i - 1, |people|));
    }
  }

  ghost predicate Located(f: Finding, a: nat, b: nat) { f.left == a && f.right == b }

  /** The list holds the duplicates of the people, all of them and nothing else. */
  lemma FindingsExact(settings: Settings, people: seq<Person>)
    ensures forall f :: f in Findings(settings, people) ==> Sound(settings, people, f)
    ensures forall a, b :: 0 <= a < b < |people| && IsDuplicate(settings, people[a], people[b]) ==>
      exists f :: f in Findings(settings, people) && Located(f, a, b)
  {
    var all := FindAll(settings, people, |people|);
    StableSort.SortByKeepsMembers(all, Sooner);
    forall f | f in Findings(settings, people) ensures Sound(settings, people, f) {
      FindAllHas(settings, people, |people|, f);
    }
    forall a, b | 0 <= a < b < |people| && IsDuplicate(settings, people[a], people[b])
      ensures exists f :: f in Findings(settings, people) && Located(f, a, b)
    {
      var f := FindingOf(settings, people, a, b);
      FindAllHas(settings, people, |people|, f);
      assert Located(f, a, b);
    }
  }

  lemma SoonerIsTotal()
    ensures StableSort.TotalPreorder(Sooner)
  {
  }

  lemma SoonerAntisymmetric(a: Finding, b: Finding)
    requires Sooner(a, b) && Sooner(b, a)
    ensures a == b
  {
  }

  /**
   The duplicates are settled in order: those too close before those that
   share a master, and among either kind the closest first, those without a
   distance last, and among equals in the order of the list.
   */
  lemma FindingsInOrder(settings: Settings, people: seq<Person>, i: nat, j: nat)
    requires i < j < |Findings(settings, people)|
    ensures var f, g := Findings(settings, people)[i], Findings(settings, people)[j];
      && Sooner(f, g)
      && (g.physical ==> f.physical)
      && (f.physical == g.physical ==>
            g.distance.None? || (f.distance.Some? && f.distance.value <= g.distance.value))
      && (f.physical == g.physical && f.distance == g.distance ==>
            f.left < g.left || (f.left == g.left && f.right <= g.right))
  {
    SoonerIsTotal();
    StableSort.SortBySorted(FindAll(settings, people, |people|), Sooner);
  }

  // --- Settling the candidates ---------------------------------------------

  /** `keeper` took the place of `dropped`. */
  datatype Drop = Drop(dropped: nat, keeper: nat)

  datatype Pass = Pass(people: seq<Person>, log: seq<Drop>, unresolved: nat)

  function DroppedIn(log: seq<Drop>): set<nat> {
    if log == [] then {} else DroppedIn(log[..|log| - 1]) + {log[|log| - 1].dropped}
  }

  function Record(dropped: Person, reason: string): Suppressed {
    if dropped.observations == [] then
      Suppressed(None, None, dropped.identity, dropped.state, NoQuality, dropped.center, reason)
    else
      Suppressed(Some(dropped.observations[0].camera), dropped.observations[0].track, dropped.identity,
                 dropped.state, GradeOf(DisplayRank(dropped)), dropped.center, reason)
  }

  function GradeOf(rank: nat): Quality {
    if rank == 3 then Hard else if rank == 2 then Soft else if rank == 1 then Stale else NoQuality
  }

  function TakeOver(pass: Pass, dropped: nat, keeper: nat, reason: string): Pass
    requires dropped < |pass.people| && keeper < |pass.people|
  {
    var merged := pass.people[keeper].(suppressed :=
                    pass.people[keeper].suppressed + [Record(pass.people[dropped], reason)]);
    Pass(pass.people[keeper := merged], pass.log + [Drop(dropped, keeper)], pass.unresolved)
  }

  function Settle(pass: Pass, f: Finding): (next: Pass)
    requires f.left < |pass.people| && f.right < |pass.people|
    ensures |next.people| == |pass.people|
  {
    if f.left in DroppedIn(pass.log) || f.right in DroppedIn(pass.log) then pass
    else
      match Authority(pass.people[f.left], pass.people[f.right])
      case KeepLeft(reason) => TakeOver(pass, f.right, f.left, reason)
      case KeepRight(reason) => TakeOver(pass, f.left, f.right, reason)
      case LeaveBoth => pass.(unresolved := pass.unresolved + 1)
  }

  predicate InList(findings: seq<Finding>, n: nat) {
    forall k :: 0 <= k < |findings| ==> findings[k].left < n && findings[k].right < n
  }

  lemma FindingsFit(settings: Settings, people: seq<Person>)
    ensures InList(Findings(settings, people), |people|)
    ensures forall k :: 0 <= k < |Findings(settings, people)| ==> Sound(settings, people, Findings(settings, people)[k])
  {
    var findings := Findings(settings, people);
    FindingsExact(settings, people);
    forall k | 0 <= k < |findings| ensures Sound(settings, people, findings[k]) {
      assert findings[k] in findings;
    }
  }

  function SettleAll(people: seq<Person>, findings: seq<Finding>): (pass: Pass)
    requires InList(findings, |people|)
    ensures |pass.people| == |people|
  {
    if findings == [] then Pass(people, [], 0)
    else Settle(SettleAll(people, findings[..|findings| - 1]), findings[|findings| - 1])
  }

  /** The indices below `n` that were not dropped, in order. */
  function KeptIndices(dropped: set<nat>, n: nat): (r: seq<nat>)
    ensures forall k :: 0 <= k < |r| ==> r[k] < n && r[k] !in dropped
  {
    if n == 0 then []
    else KeptIndices(dropped, n - 1) + (if n - 1 in dropped then [] else [n - 1])
  }

  function Pick(people: seq<Person>, indices: seq<nat>): seq<Person>
    requires forall k :: 0 <= k < |indices| ==> indices[k] < |people|
  {
    seq(|indices|, k requires 0 <= k < |indices| => people[indices[k]])
  }

  function FinalPass(settings: Settings, people: seq<Person>): (pass: Pass)
    ensures |pass.people| == |people|
  {
    FindingsFit(settings, people);
    SettleAll(people, Findings(settings, people))
  }

  function Suppress(settings: Settings, people: seq<Person>): seq<Person> {
    var pass := FinalPass(settings, people);
    Pick(pass.people, KeptIndices(DroppedIn(pass.log), |people|))
  }

  method CollectFindings(settings: Settings, people: seq<Person>) returns (candidates: seq<Finding>)
    ensures candidates == FindAll(settings, people, |people|)
  {
    candidates := [];
    for i := 0 to |people|
      invariant candidates == FindAll(settings, people, i)
    {
      var row := CollectRow(settings, people, i);
      candidates := candidates + row;
    }
  }

  method CollectRow(settings: Settings, people: seq<Person>, i: nat) returns (row: seq<Finding>)
    requires i < |people|
    ensures row == FindRow(settings, people, i, |people|)
  {
    row := [];
    for j := i + 1 to |people|
      invariant row == FindRow(settings, people, i, j)
    {
      row := row + Find(settings, people, i, j);
    }
  }

  method SettleFindings(people: seq<Person>, findings: seq<Finding>)
    returns (survivors: seq<Person>, dropped: set<nat>, log: seq<Drop>, unresolved: nat)
    requires InList(findings, |people|)
    ensures SettleAll(people, findings) == Pass(survivors, log, unresolved)
    ensures dropped == DroppedIn(log) && |survivors| == |people|
  {
    survivors, dropped, log, unresolved := people, {}, [], 0;
    for n := 0 to |findings|
      invariant |survivors| == |people| && dropped == DroppedIn(log)
      invariant SettleAll(people, findings[..n]) == Pass(survivors, log, unresolved)
    {
      assert findings[..n + 1][..n] == findings[..n];
      var left, right := findings[n].left, findings[n].right;
      if left !in dropped && right !in dropped {
        var ruling := Authority(survivors[left], survivors[right]);
        if ruling == LeaveBoth {
          unresolved := unresolved + 1;
        } else {
          var keeper, loser := left, right;
          if ruling.KeepRight? {
            keeper, loser := right, left;
          }
          var record := Record(survivors[loser], ruling.reason);
          var merged := survivors[keeper].(suppressed := survivors[keeper].suppressed + [record]);
          survivors := survivors[keeper := merged];
          assert (log + [Drop(loser, keeper)])[..|log|] == log;
          log := log + [Drop(loser, keeper)];
          dropped := dropped + {loser};
        }
      }
    }
    assert findings[..|findings|] == findings;
  }

  method SuppressDisplayDuplicates(settings: Settings, people: seq<Person>)
    returns (kept: seq<Person>, suppressed: nat, unresolved: nat)
    ensures kept == Suppress(settings, people)
    ensures suppressed == |FinalPass(settings, people).log|
    ensures unresolved == FinalPass(settings, people).unresolved
  {
    var candidates := CollectFindings(settings, people);
    var findings := StableSort.SortBy(candidates, Sooner);
    FindingsFit(settings, people);
    var survivors, dropped, log, left := SettleFindings(people, findings);
    suppressed, unresolved := |log|, left;
    kept := KeepSurvivors(survivors, dropped);
  }

  method KeepSurvivors(survivors: seq<Person>, dropped: set<nat>) returns (kept: seq<Person>)
    ensures kept == Pick(survivors, KeptIndices(dropped, |survivors|))
  {
    kept := [];
    for n := 0 to |survivors|
      invariant kept == Pick(survivors, KeptIndices(dropped, n))
    {
      if n !in dropped {
        kept := kept + [survivors[n]];
      }
    }
  }
}
