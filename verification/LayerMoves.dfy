/**
 The moves `sort_layers` makes, on permutations: the stored order is described by a
 permutation `p`, the element at index `i` being the `p[i]`-th of the chain. A move puts a
 misplaced successor next to its predecessor, and every move lowers a measure.
 */
module LayerMoves {
  import opened Common

  /** `p` is a permutation of the indices of the chain. */
  ghost predicate IsPerm(p: seq<int>) {
    && Distinct(p)
    && (forall i :: 0 <= i < |p| ==> 0 <= p[i] < |p|)
    && (forall v :: 0 <= v < |p| ==> v in p)
  }

  /** The element at `j` is the chain's last, or has its successor right behind it. */
  ghost predicate Good(p: seq<int>, j: int)
    requires 0 <= j < |p|
  {
    p[j] == |p| - 1 || (j + 1 < |p| && p[j + 1] == p[j] + 1)
  }

  ghost predicate GoodUpTo(p: seq<int>, o: int)
    requires 0 <= o <= |p|
  {
    forall j :: 0 <= j < o ==> Good(p, j)
  }

  /** The chain rotated so that it starts with its `p[0]`-th element. */
  ghost predicate IsRotation(p: seq<int>) {
    forall j :: 0 <= j < |p| ==> p[j] == if p[0] + j < |p| then p[0] + j else p[0] + j - |p|
  }

  /** How many leading positions are good. */
  ghost function Lead(p: seq<int>, j: nat): (n: nat)
    requires j <= |p| && GoodUpTo(p, j)
    ensures j <= n <= |p| && GoodUpTo(p, n) && (n < |p| ==> !Good(p, n))
    decreases |p| - j
  {
    if j < |p| && Good(p, j) then Lead(p, j + 1) else j
  }

  lemma LeadIs(p: seq<int>, o: nat)
    requires o <= |p| && GoodUpTo(p, o)
    ensures Lead(p, 0) >= o
    ensures o < |p| && !Good(p, o) ==> Lead(p, 0) == o
  {
  }

  /** Up to the first bad position the list is one run of the chain ... */
  ghost predicate OneRun(p: seq<int>, o: int)
    requires 0 <= o < |p|
  {
    forall j :: 0 <= j <= o ==> p[j] == p[0] + j
  }

  /** ... or a run to the chain's end followed by a run from further ahead. */
  ghost predicate TwoRuns(p: seq<int>, o: int)
    requires 0 <= o < |p|
  {
    var t := |p| - 1 - p[0];
    && 0 <= t < o
    && (forall j :: 0 <= j <= t ==> p[j] == p[0] + j)
    && (forall j :: t < j <= o ==> p[j] == p[t + 1] + (j - t - 1))
    && p[o] < p[0]
  }

  lemma {:induction false} Runs(p: seq<int>, o: nat)
    requires IsPerm(p) && o < |p| && GoodUpTo(p, o)
    ensures OneRun(p, o) || TwoRuns(p, o)
  {
    if o > 0 {
      Runs(p, o - 1);
      assert Good(p, o - 1);
      var t := |p| - 1 - p[0];
      if OneRun(p, o - 1) {
        if p[o - 1] == |p| - 1 {
          assert t == o - 1;
          AboveRunTaken(p, o);
          assert TwoRuns(p, o);
        } else {
          assert OneRun(p, o);
        }
      } else {
        assert p[o] == p[o - 1] + 1;
        assert p[o] != p[0];
        assert TwoRuns(p, o);
      }
    }
  }

  lemma Apart(p: seq<int>, i: int, j: int)
    ensures Distinct(p) && 0 <= i < |p| && 0 <= j < |p| && i != j ==> p[i] != p[j]
  {
  }

  /** Once the run from `p[0]` reached the chain's end, every other element is further ahead. */
  lemma AboveRunTaken(p: seq<int>, i: nat)
    requires IsPerm(p) && i < |p| && |p| - 1 - p[0] < i
    requires forall j :: 0 <= j <= |p| - 1 - p[0] ==> p[j] == p[0] + j
    ensures p[i] < p[0]
  {
    Apart(p, i, p[i] - p[0]);
  }

  /** The successor of the element at the first bad position. */
  ghost predicate Misplaced(p: seq<int>, o: int, i: int) {
    0 <= o < |p| && 0 <= i < |p| && p[i] == p[o] + 1 && i != o + 1 && GoodUpTo(p, o)
  }

  ghost function Swapped<T>(s: seq<T>, i: int, j: int): seq<T>
    requires 0 <= i < |s| && 0 <= j < |s|
  {
    s[i := s[j]][j := s[i]]
  }

  /** Where the misplaced successor can be. */
  lemma MisplacedWhere(p: seq<int>, o: int, i: int)
    requires IsPerm(p) && Misplaced(p, o, i)
    ensures !Good(p, o)
    ensures i == 0 || i > o + 1
    ensures i == 0 ==> TwoRuns(p, o) && p[0] == p[o] + 1
  {
    Runs(p, o);
    assert p[o] + 1 == p[i] < |p|;
  }

  /** Swapping a successor that lies behind: the first element stays, the good prefix grows. */
  lemma SwapGrows(p: seq<int>, o: int, i: int)
    requires IsPerm(p) && Misplaced(p, o, i) && i > o + 1
    ensures var q := Swapped(p, o + 1, i); q[0] == p[0] && GoodUpTo(q, o + 1)
  {
    var q := Swapped(p, o + 1, i);
    forall j | 0 <= j < o + 1
      ensures Good(q, j)
    {
      assert j < o ==> Good(p, j);
    }
  }

  /** Swapping the first element away: an element further ahead in the chain becomes first. */
  lemma SwapLowers(p: seq<int>, o: int)
    requires IsPerm(p) && Misplaced(p, o, 0) && o + 1 < |p|
    ensures Swapped(p, o + 1, 0)[0] < p[0]
  {
    MisplacedWhere(p, o, 0);
    AboveRunTaken(p, o + 1);
  }

  /** With nothing behind the bad position the list is a rotation, and the element to move
      is its first. */
  lemma LastIsRotation(p: seq<int>, i: int)
    requires IsPerm(p) && p != [] && Misplaced(p, |p| - 1, i)
    ensures i == 0 && p[0] > 0 && IsRotation(p)
  {
    var o := |p| - 1;
    MisplacedWhere(p, o, i);
    assert TwoRuns(p, o);
  }

  lemma RotateOnce(p: seq<int>)
    requires p != [] && IsRotation(p) && 0 < p[0] < |p|
    ensures var q := p[1..] + [p[0]]; IsRotation(q) && q[0] == (if p[0] + 1 == |p| then 0 else p[0] + 1)
  {
  }

  lemma RotationGood(p: seq<int>, o: int)
    requires IsRotation(p) && 0 <= o < |p| - 1 && 0 <= p[0] < |p|
    ensures Good(p, o)
  {
  }

  lemma RotationBadAtEnd(p: seq<int>, o: int, i: int)
    requires IsPerm(p) && IsRotation(p) && Misplaced(p, o, i)
    ensures o == |p| - 1
  {
    if o < |p| - 1 { RotationGood(p, o); }
  }

  // ----- The termination measure -----

  ghost function Phase(p: seq<int>): nat {
    if IsRotation(p) then 0 else 1
  }

  ghost function Distance(p: seq<int>): int {
    if p == [] || p[0] == 0 then 0 else if IsRotation(p) then |p| - p[0] else p[0]
  }

  /** What one move of the loop does to the list. */
  ghost function Move<T>(s: seq<T>, o: int, i: int): seq<T>
    requires 0 <= o < |s| && 0 <= i < |s|
  {
    if o + 1 == |s| then s[..i] + s[i + 1..] + [s[i]] else Swapped(s, o + 1, i)
  }

  lemma SwapIsPerm(p: seq<int>, i: int, j: int)
    requires IsPerm(p) && 0 <= i < |p| && 0 <= j < |p|
    ensures IsPerm(Swapped(p, i, j))
  {
    var q := Swapped(p, i, j);
    forall v | 0 <= v < |p|
      ensures v in q
    {
      assert v in p;
      var k :| 0 <= k < |p| && p[k] == v;
      assert q[if k == i then j else if k == j then i else k] == v;
    }
  }

  lemma RotateIsPerm(p: seq<int>)
    requires IsPerm(p) && p != []
    ensures IsPerm(p[1..] + [p[0]])
  {
    var q := p[1..] + [p[0]];
    forall v | 0 <= v < |p|
      ensures v in q
    {
      assert v in p;
      var k :| 0 <= k < |p| && p[k] == v;
      assert q[if k == 0 then |p| - 1 else k - 1] == v;
    }
  }

  /** Every move keeps a permutation and lowers the measure. */
  lemma MoveDecreases(p: seq<int>, o: int, i: int)
    requires IsPerm(p) && Misplaced(p, o, i)
    ensures var q := Move(p, o, i);
      && IsPerm(q)
      && 0 <= Distance(q)
      && (|| Phase(q) < Phase(p)
          || (Phase(q) == Phase(p) && Distance(q) < Distance(p))
          || (Phase(q) == Phase(p) && Distance(q) == Distance(p) && Lead(p, 0) < Lead(q, 0)))
  {
    var q := Move(p, o, i);
    MisplacedWhere(p, o, i);
    if o + 1 == |p| {
      LastIsRotation(p, i);
      assert q == p[1..] + [p[0]];
      RotateOnce(p);
      RotateIsPerm(p);
    } else {
      SwapIsPerm(p, o + 1, i);
      if IsRotation(p) { RotationBadAtEnd(p, o, i); }
      if i == 0 {
        SwapLowers(p, o);
      } else {
        SwapGrows(p, o, i);
        LeadIs(p, o);
        LeadIs(q, o + 1);
      }
    }
  }

  /** With nothing misplaced the list is the chain. */
  lemma {:induction false} AllGoodIsIdentity(p: seq<int>, j: nat)
    requires IsPerm(p) && GoodUpTo(p, |p|) && j < |p|
    ensures p[j] == j
    decreases |p| - j
  {
    assert Good(p, j) && Good(p, |p| - 1);
    if j + 1 < |p| { AllGoodIsIdentity(p, j + 1); }
  }
}
