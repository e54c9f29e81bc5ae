/** When two people are duplicates and which of them stays, told from what the cameras saw. */
module DuplicateRulings {
  import opened DisplayDuplicates
  import opened Observations
  import opened Options
  import StableSort

  // --- Duplicates ----------------------------------------------------------

  predicate NearEnough(settings: Settings, a: Person, b: Person) {
    && settings.limit > 0.0 && a.center.Some? && b.center.Some?
    && settings.dist(a.center.value, b.center.value) <= settings.limit
  }

  /** No camera sees both, and they carry one master or stand within the limit. */
  ghost predicate AreDuplicates(settings: Settings, a: Person, b: Person) {
    && (forall s :: s in a.sources ==> s !in b.sources)
    && ((a.identity.Some? && b.identity == a.identity) || NearEnough(settings, a, b))
  }

  lemma DuplicatesExactly(settings: Settings, a: Person, b: Person)
    ensures AreDuplicates(settings, a, b) <==> IsDuplicate(settings, a, b)
  {
  }

  /** The list of findings holds the duplicates, all of them and nothing else, with what they are. */
  lemma ListedExactly(settings: Settings, people: seq<Person>, f: Finding)
    ensures f in Findings(settings, people) <==>
      && f.left < f.right < |people| && AreDuplicates(settings, people[f.left], people[f.right])
      && var a, b := people[f.left], people[f.right];
         && (f.physical <==> !(a.identity.Some? && b.identity == a.identity))
         && f.distance == (if a.center.Some? && b.center.Some?
                           then Some(settings.dist(a.center.value, b.center.value)) else None)
  {
    var all := FindAll(settings, people, |people|);
    StableSort.SortByKeepsMembers(all, Sooner);
    FindAllHas(settings, people, |people|, f);
    if f.left < f.right < |people| {
      DuplicatesExactly(settings, people[f.left], people[f.right]);
    }
  }

  // --- Whose evidence is better --------------------------------------------

  /** The person has a point of this grade. */
  ghost predicate HasPoint(person: Person, q: Quality) {
    exists o :: o in person.observations && o.point.Some? && o.quality == q
  }

  /** A graded point of the one is better seen than every point of the other. */
  ghost predicate BetterShown(a: Person, b: Person) {
    exists q :: q != NoQuality && HasPoint(a, q) && forall r :: HasPoint(b, r) ==> BetterSeen(q, r)
  }

  ghost predicate EquallyShown(a: Person, b: Person) { !BetterShown(a, b) && !BetterShown(b, a) }

  lemma PointsBelow(person: Person)
    ensures forall q :: HasPoint(person, q) ==> Rank(q) <= DisplayRank(person)
    ensures DisplayRank(person) > 0 ==> exists q :: HasPoint(person, q) && Rank(q) == DisplayRank(person)
  {
    var positioned := Positioned(person.observations);
    PositionedMembers(person.observations);
    BestRankBounds(positioned);
    forall q | HasPoint(person, q) ensures Rank(q) <= DisplayRank(person) {
      var o :| o in person.observations && o.point.Some? && o.quality == q;
      assert o in positioned;
    }
    if DisplayRank(person) > 0 {
      var o :| o in positioned && Rank(o.quality) == DisplayRank(person);
      assert HasPoint(person, o.quality);
    }
  }

  lemma BetterShownExactly(a: Person, b: Person)
    ensures BetterShown(a, b) <==> DisplayRank(a) > DisplayRank(b)
  {
    PointsBelow(a);
    PointsBelow(b);
    if BetterShown(a, b) {
      var q :| q != NoQuality && HasPoint(a, q) && forall r :: HasPoint(b, r) ==> BetterSeen(q, r);
      if DisplayRank(b) > 0 {
        var r :| HasPoint(b, r) && Rank(r) == DisplayRank(b);
        assert BetterSeen(q, r);
      }
    }
    if DisplayRank(a) > DisplayRank(b) {
      var q :| HasPoint(a, q) && Rank(q) == DisplayRank(a);
      forall r | HasPoint(b, r) ensures BetterSeen(q, r) {}
    }
  }

  lemma EquallyShownExactly(a: Person, b: Person)
    ensures EquallyShown(a, b) <==> DisplayRank(a) == DisplayRank(b)
  {
    BetterShownExactly(a, b);
    BetterShownExactly(b, a);
  }

  // --- Text ----------------------------------------------------------------

  /** Where two texts first differ, or where the first one ends. */
  ghost predicate DiffersAt(a: string, b: string, n: nat) {
    && n <= |a| && n < |b| && a[..n] == b[..n] && (n == |a| || a[n] < b[n])
  }

  ghost predicate TextBefore(a: string, b: string) { exists n :: DiffersAt(a, b, n) }

  lemma {:induction false} TextLeMeans(a: string, b: string)
    ensures TextLe(a, b) <==> a == b || TextBefore(a, b)
  {
    if a == "" || b == "" {
      if a == "" && b != "" {
        assert DiffersAt(a, b, 0);
      }
    } else {
      var a', b' := a[1..], b[1..];
      TextLeMeans(a', b');
      assert a == [a[0]] + a' && b == [b[0]] + b';
      if a[0] < b[0] {
        assert DiffersAt(a, b, 0);
      }
      if a[0] == b[0] && TextBefore(a', b') {
        var n: nat :| DiffersAt(a', b', n);
        assert a[..n + 1] == [a[0]] + a'[..n] && b[..n + 1] == [b[0]] + b'[..n];
        assert DiffersAt(a, b, n + 1);
      }
      if TextBefore(a, b) {
        var n: nat :| DiffersAt(a, b, n);
        if n > 0 {
          assert a[..n] == [a[0]] + a'[..n - 1] && b[..n] == [b[0]] + b'[..n - 1];
          assert a[..n][0] == b[..n][0];
          assert a[..n][1..] == a'[..n - 1] && b[..n][1..] == b'[..n - 1];
          assert DiffersAt(a', b', n - 1);
        }
      }
    }
  }

  predicate Digit(c: char) { '0' <= c <= '9' }

  function ValueOf(text: string): int {
    if text == "" then 0 else 10 * ValueOf(text[..|text| - 1]) + (text[|text| - 1] as int - '0' as int)
  }

  /** Only digits, no leading zero, and that value. */
  ghost predicate Numeral(text: string, n: nat) {
    && text != "" && (forall k :: 0 <= k < |text| ==> Digit(text[k]))
    && ValueOf(text) == n && (text[0] == '0' ==> text == "0")
  }

  lemma {:induction false} DecimalExactly(n: nat)
    ensures Numeral(Decimal(n), n) && (Decimal(n)[0] == '0' ==> n == 0)
  {
    var text := Decimal(n);
    if n < 10 {
      assert text[..0] == "" && ValueOf(text[..0]) == 0;
      DigitValue(n);
    } else {
      var front := Decimal(n / 10);
      DecimalExactly(n / 10);
      DigitValue(n % 10);
      assert text[..|text| - 1] == front && text[0] == front[0];
    }
  }

  /** A track is written as its number, after a sign where it is negative, and a missing one as a word. */
  lemma TrackTextExactly(n: int)
    ensures TrackText(None) == "None"
    ensures var text := TrackText(Some(n));
      if n < 0 then text != "" && text[0] == '-' && Numeral(text[1..], -n) else Numeral(text, n)
  {
    DecimalExactly(if n < 0 then -n else n);
  }

  lemma DigitValue(d: nat)
    requires d < 10
    ensures Digit("0123456789"[d]) && ("0123456789"[d] as int - '0' as int) == d && ("0123456789"[d] == '0' <==> d == 0)
  {
    assert d in {0, 1, 2, 3, 4, 5, 6, 7, 8, 9};
  }

  // --- Who stays -----------------------------------------------------------

  function CameraOf(person: Person): string {
    if person.observations == [] then "None" else person.observations[0].camera
  }

  function TrackOf(person: Person): string {
    if person.observations == [] then "None" else TrackText(person.observations[0].track)
  }

  /** More sources, else the earlier camera, else the earlier track, as texts, else the earlier place in the list. */
  ghost predicate GoesFirst(a: Person, b: Person, listedFirst: bool) {
    if |a.sources| != |b.sources| then |a.sources| > |b.sources|
    else if CameraOf(a) != CameraOf(b) then TextBefore(CameraOf(a), CameraOf(b))
    else if TrackOf(a) != TrackOf(b) then TextBefore(TrackOf(a), TrackOf(b))
    else listedFirst
  }

  /**
   The first stays: it is better seen; or they are seen equally well, and it
   alone has a master, or they agree on the master and it goes first.
   */
  ghost predicate Prevails(a: Person, b: Person, listedFirst: bool) {
    || BetterShown(a, b)
    || (EquallyShown(a, b) && a.identity.Some? && b.identity.None?)
    || (EquallyShown(a, b) && a.identity == b.identity && GoesFirst(a, b, listedFirst))
  }

  ghost function ReasonFor(a: Person, b: Person): string {
    if BetterShown(a, b) then "better_position_evidence"
    else if a.identity != b.identity then "only_one_side_has_a_master"
    else "deterministic_tiebreak"
  }

  lemma GoesFirstExactly(a: Person, b: Person)
    ensures GoesFirst(a, b, true) <==> KeyLe(KeyFor(a), KeyFor(b))
    ensures GoesFirst(b, a, false) <==> !KeyLe(KeyFor(a), KeyFor(b))
  {
    TextLeMeans(CameraOf(a), CameraOf(b));
    TextLeMeans(CameraOf(b), CameraOf(a));
    TextLeMeans(TrackOf(a), TrackOf(b));
    TextLeMeans(TrackOf(b), TrackOf(a));
    TextLeAntisymmetric(CameraOf(a), CameraOf(b));
    TextLeAntisymmetric(TrackOf(a), TrackOf(b));
  }

  /** Which of two people stays, in the order of the list, and why. */
  lemma RulingExactly(a: Person, b: Person)
    ensures Authority(a, b) ==
      if Prevails(a, b, true) then KeepLeft(ReasonFor(a, b))
      else if Prevails(b, a, false) then KeepRight(ReasonFor(b, a))
      else LeaveBoth
    ensures !(Prevails(a, b, true) && Prevails(b, a, false))
  {
    BetterShownExactly(a, b);
    BetterShownExactly(b, a);
    GoesFirstExactly(a, b);
  }

  /** Neither stays for the other exactly when they are seen equally well under two different masters. */
  lemma NeitherPrevailsExactly(a: Person, b: Person)
    ensures !Prevails(a, b, true) && !Prevails(b, a, false) <==>
      EquallyShown(a, b) && a.identity.Some? && b.identity.Some? && a.identity != b.identity
  {
    RulingExactly(a, b);
    EquallyShownExactly(a, b);
    LeftAloneExactly(a, b);
  }
}
