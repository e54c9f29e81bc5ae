/** Which pairs of one update are accepted, and that each evaluated pair is judged once. */
module ProvisionalProperties {
  import opened OneToOnePairing
  import opened Options
  import opened ProvisionalPairs

  // --- Every evaluated pair has exactly one event --------------------------

  ghost predicate DistinctKeys(items: seq<Item>) {
    forall i, j :: 0 <= i < j < |items| ==> items[i].key != items[j].key
  }

  /** No camera reports one track twice in an update. */
  ghost predicate DistinctTracks(input: Input) {
    input.Cameras? ==> DistinctKeys(input.left) && DistinctKeys(input.right)
  }

  /** No two usable observations of a stream name one track. */
  ghost predicate DistinctRaws(camera: string, raws: seq<Raw>) {
    forall m, n :: 0 <= m < n < |raws| && ItemOf(camera, raws[m]).Some? && ItemOf(camera, raws[n]).Some? ==>
      ItemOf(camera, raws[m]).value.key != ItemOf(camera, raws[n]).value.key
  }

  lemma {:induction false} NormalizeSource(camera: string, raws: seq<Raw>, k: nat) returns (n: nat)
    requires k < |Normalize(camera, raws)|
    ensures n < |raws| && ItemOf(camera, raws[n]) == Some(Normalize(camera, raws)[k])
  {
    var front := raws[..|raws| - 1];
    if k < |Normalize(camera, front)| {
      n := NormalizeSource(camera, front, k);
    } else {
      n := |raws| - 1;
    }
  }

  lemma {:induction false} NormalizeDistinct(camera: string, raws: seq<Raw>)
    requires DistinctRaws(camera, raws)
    ensures DistinctKeys(Normalize(camera, raws))
  {
    if raws != [] {
      var front, last := raws[..|raws| - 1], raws[|raws| - 1];
      NormalizeDistinct(camera, front);
      var items := Normalize(camera, front);
      forall k | 0 <= k < |items| && ItemOf(camera, last).Some? ensures items[k].key != ItemOf(camera, last).value.key {
        var n := NormalizeSource(camera, front, k);
        assert raws[n] == front[n];
      }
    }
  }

  /** Tracks are distinct in an update whose streams each report every usable track once. */
  lemma ReportsDistinct(report: Report)
    requires report.Streams? ==>
      forall c :: 0 <= c < |report.cameras| ==> DistinctRaws(report.cameras[c].0, report.cameras[c].1)
    ensures DistinctTracks(InputOf(report))
  {
    if report.Streams? && |report.cameras| >= 2 {
      NormalizeDistinct(report.cameras[0].0, report.cameras[0].1);
      NormalizeDistinct(report.cameras[1].0, report.cameras[1].1);
    }
  }

  ghost predicate DistinctAts(events: seq<Event>) {
    forall m, n :: 0 <= m < n < |events| ==> events[m].at != events[n].at
  }

  ghost predicate Screened(p: Params, input: Input, scan: Scan)
    requires EventsIn(input, scan.rejected) && EntriesIn(input, scan.entries)
  {
    && (forall n :: 0 <= n < |scan.rejected| ==>
          && Screen(p, input, scan.rejected[n].at.0, scan.rejected[n].at.1).Reject?
          && scan.rejected[n]
             == Fail(scan.rejected[n].at, Screen(p, input, scan.rejected[n].at.0, scan.rejected[n].at.1).reason))
    && (forall n :: 0 <= n < |scan.entries| ==>
          Screen(p, input, scan.entries[n].pair.0, scan.entries[n].pair.1)
          == ProvisionalPairs.Consider(scan.entries[n].cost))
  }

  ghost predicate EventsBefore(events: seq<Event>, i: nat, j: nat) {
    DistinctAts(events) && forall n :: 0 <= n < |events| ==> Before(events[n].at, i, j)
  }

  ghost predicate ScanOk(p: Params, input: Input, scan: Scan, i: nat, j: nat) {
    && EventsIn(input, scan.rejected) && EntriesIn(input, scan.entries)
    && Screened(p, input, scan)
    && EventsBefore(scan.rejected, i, j)
    && InOrder(scan.entries, i, j)
  }

  lemma {:induction false} ScanRowOk(p: Params, input: Input, scan: Scan, i: nat, j: nat)
    requires input.Cameras? && i < |input.left| && j <= |input.right|
    requires ScanOk(p, input, scan, i, 0)
    ensures ScanOk(p, input, ScanRow(p, input, scan, i, j), i, j)
  {
    if j > 0 {
      ScanRowOk(p, input, scan, i, j - 1);
      ScanPairOk(p, input, ScanRow(p, input, scan, i, j - 1), i, j - 1);
    }
  }

  lemma ScanPairOk(p: Params, input: Input, scan: Scan, i: nat, j: nat)
    requires input.Cameras? && i < |input.left| && j < |input.right|
    requires ScanOk(p, input, scan, i, j)
    ensures ScanOk(p, input, ScanPair(p, input, scan, i, j), i, j + 1)
  {
    AppendInOrder(scan.entries, i, j);
    forall n | 0 <= n < |scan.rejected|
      ensures Before(scan.rejected[n].at, i, j + 1) && scan.rejected[n].at != (i, j)
    {
      assert Before(scan.rejected[n].at, i, j);
    }
  }

  lemma {:induction false} ScanRowsOk(p: Params, input: Input, i: nat)
    requires input.Cameras? && i <= |input.left|
    ensures ScanOk(p, input, ScanRows(p, input, i), i, 0)
  {
    if i > 0 {
      ScanRowsOk(p, input, i - 1);
      var scan := ScanRow(p, input, ScanRows(p, input, i - 1), i - 1, |input.right|);
      ScanRowOk(p, input, ScanRows(p, input, i - 1), i - 1, |input.right|);
      forall n | 0 <= n < |scan.rejected| ensures Before(scan.rejected[n].at, i, 0) {
        assert InInput(input, scan.rejected[n].at) && Before(scan.rejected[n].at, i - 1, |input.right|);
      }
      forall n | 0 <= n < |scan.entries| ensures Before(scan.entries[n].pair, i, 0) {
        assert InInput(input, scan.entries[n].pair) && Before(scan.entries[n].pair, i - 1, |input.right|);
      }
    }
  }

  ghost predicate Mentions(events: seq<Event>, at: Pair) {
    exists n :: 0 <= n < |events| && events[n].at == at
  }

  lemma {:induction false} ScanRowCovers(p: Params, input: Input, scan: Scan, i: nat, j: nat, at: Pair)
    requires input.Cameras? && i < |input.left| && j <= |input.right|
    requires Mentions(scan.rejected, at) || Lists(scan.entries, at) || (at.0 == i && at.1 < j)
    ensures var after := ScanRow(p, input, scan, i, j);
      Mentions(after.rejected, at) || Lists(after.entries, at)
  {
    if j > 0 {
      var before := ScanRow(p, input, scan, i, j - 1);
      var after := ScanPair(p, input, before, i, j - 1);
      if at == (i, j - 1) && !Mentions(scan.rejected, at) && !Lists(scan.entries, at) {
        if |after.rejected| > |before.rejected| {
          assert after.rejected[|before.rejected|].at == at;
        } else {
          assert after.entries[|before.entries|].pair == at;
        }
      } else {
        ScanRowCovers(p, input, scan, i, j - 1, at);
        if Mentions(before.rejected, at) {
          var n :| 0 <= n < |before.rejected| && before.rejected[n].at == at;
          assert after.rejected[n].at == at;
        } else {
          var n :| 0 <= n < |before.entries| && before.entries[n].pair == at;
          assert after.entries[n].pair == at;
        }
      }
    }
  }

  lemma {:induction false} ScanRowsCover(p: Params, input: Input, i: nat, at: Pair)
    requires InInput(input, at) && at.0 < i <= |input.left|
    ensures var scan := ScanRows(p, input, i); Mentions(scan.rejected, at) || Lists(scan.entries, at)
  {
    if at.0 < i - 1 {
      ScanRowsCover(p, input, i - 1, at);
    }
    ScanRowCovers(p, input, ScanRows(p, input, i - 1), i - 1, |input.right|, at);
  }

  /** Each decision in the list comes from one of the first `n` candidates. */
  lemma {:induction false} DecidedSource(
    p: Params, entries: seq<Candidate>, best: seq<Pair>, n: nat, accepted: bool, k: nat) returns (m: nat)
    requires n <= |entries| && k < |Decided(p, entries, best, n, accepted)|
    ensures m < n && Decided(p, entries, best, n, accepted)[k] == Decide(p, entries, best, entries[m])
    ensures Decide(p, entries, best, entries[m]).Accept? == accepted
  {
    if k < |Decided(p, entries, best, n - 1, accepted)| {
      m := DecidedSource(p, entries, best, n - 1, accepted, k);
    } else {
      m := n - 1;
    }
  }

  lemma {:induction false} DecidedDistinct(
    p: Params, entries: seq<Candidate>, best: seq<Pair>, n: nat, accepted: bool)
    requires n <= |entries| && DistinctPairs(entries)
    ensures DistinctAts(Decided(p, entries, best, n, accepted))
  {
    if n > 0 {
      DecidedDistinct(p, entries, best, n - 1, accepted);
      var before := Decided(p, entries, best, n - 1, accepted);
      forall k | 0 <= k < |before| ensures before[k].at != entries[n - 1].pair {
        var m := DecidedSource(p, entries, best, n - 1, accepted, k);
      }
    }
  }

  lemma {:induction false} DecidedMentions(p: Params, entries: seq<Candidate>, best: seq<Pair>, n: nat, m: nat)
    requires m < n <= |entries|
    ensures Mentions(Decided(p, entries, best, n, Decide(p, entries, best, entries[m]).Accept?), entries[m].pair)
  {
    var accepted := Decide(p, entries, best, entries[m]).Accept?;
    var after := Decided(p, entries, best, n, accepted);
    if m == n - 1 {
      assert after[|after| - 1].at == entries[m].pair;
    } else {
      DecidedMentions(p, entries, best, n - 1, m);
      var before := Decided(p, entries, best, n - 1, accepted);
      var k :| 0 <= k < |before| && before[k].at == entries[m].pair;
      assert after[k] == before[k];
    }
  }

  lemma EventAtsDistinct(p: Params, input: Input)
    ensures DistinctAts(EventsOf(p, input))
  {
    if input.Cameras? {
      var scan := ScanRows(p, input, |input.left|);
      var entries, size := scan.entries, |scan.entries|;
      var best := BestPairs(|input.left|, |input.right|, entries);
      var failed := Decided(p, entries, best, size, false);
      var accepted := Decided(p, entries, best, size, true);
      ScanRowsOk(p, input, |input.left|);
      DecidedDistinct(p, entries, best, size, false);
      DecidedDistinct(p, entries, best, size, true);
      forall m, n | 0 <= m < |scan.rejected| && 0 <= n < |failed| ensures scan.rejected[m].at != failed[n].at {
        var k := DecidedSource(p, entries, best, size, false, n);
      }
      forall m, n | 0 <= m < |scan.rejected| && 0 <= n < |accepted| ensures scan.rejected[m].at != accepted[n].at {
        var k := DecidedSource(p, entries, best, size, true, n);
      }
      forall m, n | 0 <= m < |failed| && 0 <= n < |accepted| ensures failed[m].at != accepted[n].at {
        var k := DecidedSource(p, entries, best, size, false, m);
        var l := DecidedSource(p, entries, best, size, true, n);
        assert k != l;
        assert entries[k].pair != entries[l].pair;
      }
      JoinDistinct(scan.rejected, failed, accepted);
    }
  }

  lemma JoinDistinct(a: seq<Event>, b: seq<Event>, c: seq<Event>)
    requires DistinctAts(a) && DistinctAts(b) && DistinctAts(c)
    requires forall m, n :: 0 <= m < |a| && 0 <= n < |b| ==> a[m].at != b[n].at
    requires forall m, n :: 0 <= m < |a| && 0 <= n < |c| ==> a[m].at != c[n].at
    requires forall m, n :: 0 <= m < |b| && 0 <= n < |c| ==> b[m].at != c[n].at
    ensures DistinctAts(a + b + c)
  {
  }

  lemma JoinMentions(a: seq<Event>, b: seq<Event>, c: seq<Event>, at: Pair)
    requires Mentions(a, at) || Mentions(b, at) || Mentions(c, at)
    ensures Mentions(a + b + c, at)
  {
    if Mentions(a, at) {
      var n :| 0 <= n < |a| && a[n].at == at;
      assert (a + b + c)[n].at == at;
    } else if Mentions(b, at) {
      var n :| 0 <= n < |b| && b[n].at == at;
      assert (a + b + c)[|a| + n].at == at;
    } else {
      var n :| 0 <= n < |c| && c[n].at == at;
      assert (a + b + c)[|a| + |b| + n].at == at;
    }
  }

  lemma EventsMention(p: Params, input: Input, at: Pair)
    requires InInput(input, at)
    ensures Mentions(EventsOf(p, input), at)
  {
    var scan := ScanRows(p, input, |input.left|);
    var best := BestPairs(|input.left|, |input.right|, scan.entries);
    var size := |scan.entries|;
    ScanRowsCover(p, input, |input.left|, at);
    if !Mentions(scan.rejected, at) {
      var m :| 0 <= m < size && scan.entries[m].pair == at;
      DecidedMentions(p, scan.entries, best, size, m);
    }
    JoinMentions(scan.rejected, Decided(p, scan.entries, best, size, false),
                 Decided(p, scan.entries, best, size, true), at);
  }

  ghost predicate OncePerKey(input: Input, events: seq<Event>)
    requires EventsIn(input, events)
  {
    forall m, n :: 0 <= m < n < |events| ==> KeyAt(input, events[m].at) != KeyAt(input, events[n].at)
  }

  ghost function KeysOf(input: Input, events: seq<Event>): set<PairKey>
    requires EventsIn(input, events)
  {
    set n | 0 <= n < |events| :: KeyAt(input, events[n].at)
  }

  /** Every evaluated pair has an event, and no other pair has any. */
  lemma EventsCoverPairs(p: Params, input: Input)
    ensures EventsIn(input, EventsOf(p, input))
    ensures KeysOf(input, EventsOf(p, input)) == Evaluated(input)
  {
    var events := EventsOf(p, input);
    EventsInInput(p, input);
    forall key | key in Evaluated(input) ensures key in KeysOf(input, events) {
      var i, j :| 0 <= i < |input.left| && 0 <= j < |input.right| && KeyAt(input, (i, j)) == key;
      EventsMention(p, input, (i, j));
      var n :| 0 <= n < |events| && events[n].at == (i, j);
    }
    forall key | key in KeysOf(input, events) ensures key in Evaluated(input) {
      var n :| 0 <= n < |events| && KeyAt(input, events[n].at) == key;
      var at := events[n].at;
      assert InInput(input, at);
      assert key == KeyAt(input, (at.0, at.1));
    }
  }

  /** With distinct tracks each of them has only one. */
  lemma OneEventPerPair(p: Params, input: Input)
    requires DistinctTracks(input)
    ensures EventsIn(input, EventsOf(p, input))
    ensures OncePerKey(input, EventsOf(p, input))
    ensures KeysOf(input, EventsOf(p, input)) == Evaluated(input)
  {
    var events := EventsOf(p, input);
    EventsCoverPairs(p, input);
    EventAtsDistinct(p, input);
    forall m, n | 0 <= m < n < |events| ensures KeyAt(input, events[m].at) != KeyAt(input, events[n].at) {
      var a, b := events[m].at, events[n].at;
      assert InInput(input, a) && InInput(input, b) && a != b;
    }
  }

  /** An update turns pairs down before it accepts any. */
  ghost predicate AcceptsLast(events: seq<Event>) {
    forall m, n :: 0 <= m < n < |events| && events[m].Accept? ==> events[n].Accept?
  }

  lemma EventsAcceptLast(p: Params, input: Input)
    ensures AcceptsLast(EventsOf(p, input))
  {
    if input.Cameras? {
      var scan := ScanRows(p, input, |input.left|);
      var size, best := |scan.entries|, BestPairs(|input.left|, |input.right|, scan.entries);
      var failed, accepted := Decided(p, scan.entries, best, size, false), Decided(p, scan.entries, best, size, true);
      RejectedAreFailures(p, input, |input.left|);
      forall k | 0 <= k < |failed| ensures failed[k].Fail? {
        var m := DecidedSource(p, scan.entries, best, size, false, k);
      }
      forall k | 0 <= k < |accepted| ensures accepted[k].Accept? {
        var m := DecidedSource(p, scan.entries, best, size, true, k);
      }
      JoinAcceptsLast(scan.rejected, failed, accepted);
    }
  }

  lemma JoinAcceptsLast(a: seq<Event>, b: seq<Event>, c: seq<Event>)
    requires (forall e :: e in a ==> e.Fail?) && (forall k :: 0 <= k < |b| ==> b[k].Fail?)
    requires forall k :: 0 <= k < |c| ==> c[k].Accept?
    ensures AcceptsLast(a + b + c)
  {
    forall k | 0 <= k < |a| ensures a[k].Fail? {
      assert a[k] in a;
    }
  }

  // --- What acceptance means -----------------------------------------------

  /**
   An accepted pair passed every gate, belongs to the best pairing, and beats
   every other candidate for either of its two people by the full margin.
   */
  lemma AcceptedIsUnambiguous(p: Params, input: Input, at: Pair, other: Pair)
    requires Accept(at) in EventsOf(p, input)
    ensures InInput(input, at) && Screen(p, input, at.0, at.1).Consider?
    ensures at in BestPairs(|input.left|, |input.right|, ScanRows(p, input, |input.left|).entries)
    ensures InInput(input, other) && Screen(p, input, other.0, other.1).Consider? && SharesOneEnd(other, at)
      ==> Screen(p, input, other.0, other.1).cost >= Screen(p, input, at.0, at.1).cost + p.margin
  {
    var scan := ScanRows(p, input, |input.left|);
    var best := BestPairs(|input.left|, |input.right|, scan.entries);
    var accepted := Decided(p, scan.entries, best, |scan.entries|, true);
    ScanRowsOk(p, input, |input.left|);
    AcceptedComesFromCandidates(p, input, at);
    var k :| 0 <= k < |accepted| && accepted[k] == Accept(at);
    var m := DecidedSource(p, scan.entries, best, |scan.entries|, true, k);
    assert scan.entries[m].pair == at && !HasRival(p, scan.entries, scan.entries[m]);
    assert InInput(input, scan.entries[m].pair);
    if InInput(input, other) && Screen(p, input, other.0, other.1).Consider? && SharesOneEnd(other, at) {
      ScanRowsCover(p, input, |input.left|, other);
      forall n | 0 <= n < |scan.rejected| ensures scan.rejected[n].at != other {
        assert Screen(p, input, scan.rejected[n].at.0, scan.rejected[n].at.1).Reject?;
      }
      var n :| 0 <= n < |scan.entries| && scan.entries[n].pair == other;
    }
  }

  lemma AcceptedComesFromCandidates(p: Params, input: Input, at: Pair)
    requires input.Cameras? && Accept(at) in EventsOf(p, input)
    ensures var entries := ScanRows(p, input, |input.left|).entries;
      Accept(at) in Decided(p, entries, BestPairs(|input.left|, |input.right|, entries), |entries|, true)
  {
    var scan := ScanRows(p, input, |input.left|);
    var best := BestPairs(|input.left|, |input.right|, scan.entries);
    RejectedAreFailures(p, input, |input.left|);
    var failed := Decided(p, scan.entries, best, |scan.entries|, false);
    if Accept(at) in failed {
      var k :| 0 <= k < |failed| && failed[k] == Accept(at);
      var m := DecidedSource(p, scan.entries, best, |scan.entries|, false, k);
    }
  }

  lemma {:induction false} RejectedAreFailures(p: Params, input: Input, i: nat)
    requires input.Cameras? && i <= |input.left|
    ensures forall e :: e in ScanRows(p, input, i).rejected ==> e.Fail?
  {
    if i > 0 {
      RejectedAreFailures(p, input, i - 1);
      RowRejectedAreFailures(p, input, ScanRows(p, input, i - 1), i - 1, |input.right|);
    }
  }

  lemma {:induction false} RowRejectedAreFailures(p: Params, input: Input, scan: Scan, i: nat, j: nat)
    requires input.Cameras? && i < |input.left| && j <= |input.right|
    requires forall e :: e in scan.rejected ==> e.Fail?
    ensures forall e :: e in ScanRow(p, input, scan, i, j).rejected ==> e.Fail?
  {
    if j > 0 {
      RowRejectedAreFailures(p, input, scan, i, j - 1);
    }
  }
}
