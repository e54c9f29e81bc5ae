/** The fusion cycle as the tracker runs it: loops over a pair memory updated in place. */
module FusionPass {
  import opened CameraFusion
  import opened Observations
  import opened OneToOnePairing
  import opened Options

  class Fuser {
    var pairMemory: Memory

    constructor ()
      ensures pairMemory == map[]
    {
      pairMemory := map[];
    }

    /** Looks at one pair; records or clears violations; yields a cost when it may be matched. */
    method Examine(cfg: Config, l: Observation, r: Observation) returns (cost: Option<real>)
      modifies this
      ensures Judge(cfg, old(pairMemory), l, r) == Verdict(pairMemory, cost)
    {
      var key := KeyOf(l, r);
      var held := PreviouslyFused(pairMemory, l, r);
      var skew := Skew(l, r);
      if l.point.None? || r.point.None? {
        if !(SameMaster(l, r) || SameGroup(l, r)) || skew > cfg.maxSkew {
          return None;
        }
        return Some(cfg.Tolerance() + cfg.maxDistance);
      }
      var distance := cfg.dist(l.point.value, r.point.value);
      if distance > cfg.maxDistance {
        if distance > cfg.Tolerance() || !held {
          return None;
        }
        if !(IsSoft(l.quality) || IsSoft(r.quality)) {
          var entry := Recall(pairMemory, key);
          pairMemory := pairMemory[key := entry.(violations := entry.violations + 1)];
          if entry.violations + 1 >= SPLIT_FRAMES {
            return None;
          }
        }
      } else if key in pairMemory {
        pairMemory := pairMemory[key := pairMemory[key].(violations := 0)];
      }
      cost := Gate(cfg, held, l, r, distance);
    }

    method SurveyPairs(cfg: Config, left: seq<Observation>, right: seq<Observation>)
      returns (seen: set<PairKey>, entries: seq<Candidate>)
      modifies this
      ensures SurveyRows(cfg, old(pairMemory), left, right, |left|) == Survey(pairMemory, seen, entries)
    {
      seen, entries := {}, [];
      for i := 0 to |left|
        invariant SurveyRows(cfg, old(pairMemory), left, right, i) == Survey(pairMemory, seen, entries)
      {
        ghost var row := Survey(pairMemory, seen, entries);
        for j := 0 to |right|
          invariant SurveyRow(cfg, row, i, left[i], right, j) == Survey(pairMemory, seen, entries)
        {
          seen := seen + {KeyOf(left[i], right[j])};
          var cost := Examine(cfg, left[i], right[j]);
          if cost.Some? {
            entries := entries + [Candidate((i, j), cost.value)];
          }
        }
      }
    }

    method CommitFused(left: seq<Observation>, right: seq<Observation>, pairs: seq<Pair>)
      returns (fusedKeys: set<PairKey>, people: seq<Person>)
      requires IndicesWithin(pairs, |left|, |right|)
      modifies this
      ensures CommitPairs(old(pairMemory), left, right, pairs) == Commit(pairMemory, fusedKeys)
      ensures people == FusePairs(left, right, pairs)
    {
      fusedKeys, people := {}, [];
      for n := 0 to |pairs|
        invariant CommitPairs(old(pairMemory), left, right, pairs[..n]) == Commit(pairMemory, fusedKeys)
        invariant people == FusePairs(left, right, pairs[..n])
      {
        var l, r := left[pairs[n].0], right[pairs[n].1];
        assert pairs[..n + 1][..n] == pairs[..n];
        FusePairsLast(left, right, pairs[..n + 1]);
        var key := KeyOf(l, r);
        fusedKeys := fusedKeys + {key};
        pairMemory := Credit(pairMemory, key);
        people := people + [Fuse(l, r)];
      }
      assert pairs[..|pairs|] == pairs;
    }

    /** Ages every remembered pairing and forgets those unseen for too long. */
    method Age(seen: set<PairKey>, fused: set<PairKey>)
      modifies this
      ensures pairMemory == AgeMemory(old(pairMemory), seen, fused)
    {
      var todo := pairMemory.Keys;
      while todo != {}
        invariant todo <= old(pairMemory).Keys
        invariant forall key :: key in todo ==> key in pairMemory && pairMemory[key] == old(pairMemory)[key]
        invariant forall key :: key in old(pairMemory) && key !in todo ==>
          var aged := Aged(old(pairMemory)[key], key in seen, key in fused);
          if aged.Some? then key in pairMemory && pairMemory[key] == aged.value else key !in pairMemory
        invariant pairMemory.Keys <= old(pairMemory).Keys
      {
        var key :| key in todo;
        todo := todo - {key};
        var entry := pairMemory[key];
        if key in fused {
          pairMemory := pairMemory[key := entry.(age := 0)];
        } else if key in seen {
          var remaining := entry.fused - 1;
          pairMemory := pairMemory[key := entry.(age := 0, fused := if remaining > 0 then remaining else 0)];
        } else if entry.age + 1 > MAX_IDLE_CYCLES {
          pairMemory := pairMemory - {key};
        } else {
          pairMemory := pairMemory[key := entry.(age := entry.age + 1)];
        }
      }
    }

    method KeepTimed(sightings: seq<Sighting>) returns (kept: seq<Observation>)
      ensures kept == Normalize(sightings)
    {
      kept := [];
      for n := 0 to |sightings|
        invariant kept == Normalize(sightings[..n])
      {
        var s := sightings[n];
        assert sightings[..n + 1][..n] == sightings[..n];
        if s.time.None? {
          continue;
        }
        var candidate := s.seen.(capturedAt := s.time.value);
        if candidate.point.None? {
          candidate := candidate.(quality := NoQuality);
        }
        kept := kept + [candidate];
      }
      assert sightings[..|sightings|] == sightings;
    }

    method KeepAllTimed(cameras: seq<seq<Sighting>>) returns (kept: seq<seq<Observation>>)
      ensures kept == NormalizeAll(cameras)
    {
      kept := [];
      for c := 0 to |cameras|
        invariant kept == NormalizeAll(cameras[..c])
      {
        var camera := KeepTimed(cameras[c]);
        kept := kept + [camera];
      }
      assert cameras[..|cameras|] == cameras;
    }

    method FuseCameraPoints(cfg: Config, sightings: seq<seq<Sighting>>)
      returns (pairs: seq<Pair>, people: seq<Person>)
      modifies this
      ensures FuseCycle(cfg, old(pairMemory), NormalizeAll(sightings)) == Cycle(pairMemory, pairs, people)
    {
      var cameras := KeepAllTimed(sightings);
      if |cameras| < 2 {
        return [], Singletons(cameras);
      }
      var left, right := cameras[0], cameras[1];
      var seen, entries := SurveyPairs(cfg, left, right);
      pairs := FindBestPairs(|left|, |right|, entries);
      SurveyBest(cfg, old(pairMemory), left, right);
      var fusedKeys, fused := CommitFused(left, right, pairs);
      Age(seen, fusedKeys);
      people := fused
        + Unpaired(left, Lefts(pairs), |left|)
        + Unpaired(right, Rights(pairs), |right|)
        + Singletons(cameras[2..]);
    }
  }
}
