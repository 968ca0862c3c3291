/** Left-to-right searching (`finditer`) for a pattern that has at most one match at each place, and when a search can
    be split in two. Which characters the pattern looks at is left to the patterns. */
module PatternScan {
  import opened Redaction

  /** `ends(i)` is where the match that starts at `i` ends; 0 means there is none. */
  ghost predicate Proper(ends: nat -> nat, length: nat) {
    forall i: nat :: ends(i) == 0 || i < ends(i) <= length
  }

  function Scan(ends: nat -> nat, length: nat, i: nat): seq<(nat, nat)>
    decreases length - i
  {
    if i >= length then []
    else if i < ends(i) <= length then [(i, ends(i))] + Scan(ends, length, ends(i))
    else Scan(ends, length, i + 1)
  }

  function ShiftMatches(ms: seq<(nat, nat)>, offset: nat): seq<(nat, nat)> {
    seq(|ms|, k requires 0 <= k < |ms| => (ms[k].0 + offset, ms[k].1 + offset))
  }

  /** The cut falls strictly inside one of the matches. */
  predicate Crossed(ms: seq<(nat, nat)>, cut: nat) {
    exists k :: 0 <= k < |ms| && ms[k].0 < cut < ms[k].1
  }

  lemma PrependedMatch(m: (nat, nat), ms: seq<(nat, nat)>, length: nat)
    requires MatchesOk(ms, length) && m.0 < m.1 <= length && forall k | 0 <= k < |ms| :: m.1 <= ms[k].0
    ensures MatchesOk([m] + ms, length)
    ensures forall k | 0 <= k < |[m] + ms| :: m.0 <= ([m] + ms)[k].0
  {
  }

  lemma {:induction false} ScanInOrder(ends: nat -> nat, length: nat, i: nat)
    ensures MatchesOk(Scan(ends, length, i), length)
    ensures forall k | 0 <= k < |Scan(ends, length, i)| :: i <= Scan(ends, length, i)[k].0
    decreases length - i
  {
    if i >= length {
    } else if i < ends(i) <= length {
      ScanInOrder(ends, length, ends(i));
      PrependedMatch((i, ends(i)), Scan(ends, length, ends(i)), length);
    } else {
      ScanInOrder(ends, length, i + 1);
    }
  }

  /** What a search finds matches where it says. */
  lemma {:induction false} ScanIsSound(ends: nat -> nat, length: nat, i: nat, m: (nat, nat))
    requires m in Scan(ends, length, i)
    ensures i <= m.0 < m.1 <= length && m.1 == ends(m.0)
    decreases length - i
  {
    if i < ends(i) <= length {
      if m != (i, ends(i)) {
        ScanIsSound(ends, length, ends(i), m);
      }
    } else {
      ScanIsSound(ends, length, i + 1, m);
    }
  }

  /** A pattern whose matches cannot overlap is found wherever it matches. */
  lemma {:induction false} ScanIsComplete(ends: nat -> nat, length: nat, i: nat, m: (nat, nat))
    requires Proper(ends, length) && forall j: nat, k: nat | j < k < ends(j) :: ends(k) == 0
    requires i <= m.0 && m.1 == ends(m.0) && m.1 != 0
    ensures m in Scan(ends, length, i)
    decreases length - i
  {
    assert m.0 < ends(m.0) <= length;
    if i < ends(i) <= length {
      if m.0 != i {
        assert m.0 >= ends(i);
        ScanIsComplete(ends, length, ends(i), m);
      }
    } else {
      assert m.0 != i;
      ScanIsComplete(ends, length, i + 1, m);
    }
  }

  lemma {:induction false} NothingToFind(ends: nat -> nat, length: nat, i: nat)
    requires forall j: nat | i <= j :: ends(j) == 0
    ensures Scan(ends, length, i) == []
    decreases length - i
  {
    if i < length {
      NothingToFind(ends, length, i + 1);
    }
  }

  // ---- Splitting a search ----

  /** Left of the cut the left part has the same matches, as far as they end there; right of it the right part has the
      same matches. */
  ghost predicate Agree(ends: nat -> nat, left: nat -> nat, right: nat -> nat, cut: nat) {
    && (forall i: nat | i < cut && ends(i) <= cut :: left(i) == ends(i))
    && (forall i: nat | i >= cut :: right(i - cut) == if ends(i) == 0 then 0 else ends(i) - cut)
  }

  lemma ShiftedCons(m: (nat, nat), ms: seq<(nat, nat)>, offset: nat)
    ensures ShiftMatches([m] + ms, offset) == [(m.0 + offset, m.1 + offset)] + ShiftMatches(ms, offset)
    ensures ShiftMatches([], offset) == []
  {
  }

  lemma ScanHit(ends: nat -> nat, length: nat, i: nat)
    requires i < ends(i) <= length
    ensures Scan(ends, length, i) == [(i, ends(i))] + Scan(ends, length, ends(i))
  {
  }

  lemma {:induction false} ScanShifts(ends: nat -> nat, right: nat -> nat, length: nat, cut: nat, i: nat)
    requires cut <= i && cut <= length && Proper(ends, length)
    requires forall j: nat | j >= cut :: right(j - cut) == if ends(j) == 0 then 0 else ends(j) - cut
    ensures Scan(ends, length, i) == ShiftMatches(Scan(right, length - cut, i - cut), cut)
    decreases length - i
  {
    var i', e := i - cut, ends(i);
    assert right(i') == if e == 0 then 0 else e - cut;
    if i >= length {
      ShiftedCons((0, 0), [], cut);
    } else if e != 0 {
      ScanShifts(ends, right, length, cut, e);
      ScanHit(ends, length, i);
      ScanHit(right, length - cut, i');
      ShiftedCons((i', e - cut), Scan(right, length - cut, e - cut), cut);
    } else {
      ScanShifts(ends, right, length, cut, i + 1);
    }
  }

  lemma {:induction false} ScanSplits(
    ends: nat -> nat, left: nat -> nat, right: nat -> nat, length: nat, cut: nat, i: nat)
    requires i <= cut <= length && Proper(ends, length) && Agree(ends, left, right, cut)
    requires !Crossed(Scan(ends, length, i), cut)
    ensures Scan(ends, length, i) == Scan(left, cut, i) + ShiftMatches(Scan(right, length - cut, 0), cut)
    decreases length - i
  {
    if i == cut {
      ScanShifts(ends, right, length, cut, i);
    } else if ends(i) != 0 {
      var all := Scan(ends, length, i);
      assert all[0] == (i, ends(i));
      assert ends(i) <= cut && left(i) == ends(i);
      var rest := Scan(ends, length, ends(i));
      assert all[1..] == rest;
      RestNotCrossed(all, cut);
      ScanSplits(ends, left, right, length, cut, ends(i));
      JoinedThree((i, ends(i)), Scan(left, cut, ends(i)), ShiftMatches(Scan(right, length - cut, 0), cut));
    } else {
      assert left(i) == 0;
      ScanSplits(ends, left, right, length, cut, i + 1);
    }
  }

  lemma RestNotCrossed(ms: seq<(nat, nat)>, cut: nat)
    requires ms != [] && !Crossed(ms, cut)
    ensures !Crossed(ms[1..], cut)
  {
    assert forall k | 0 <= k < |ms[1..]| :: ms[1..][k] == ms[k + 1];
  }

  lemma JoinedThree(m: (nat, nat), a: seq<(nat, nat)>, b: seq<(nat, nat)>)
    ensures [m] + (a + b) == ([m] + a) + b
  {
  }

  lemma SplitIsNotCrossed(a: seq<(nat, nat)>, b: seq<(nat, nat)>, cut: nat)
    requires MatchesOk(a, cut)
    ensures !Crossed(a + ShiftMatches(b, cut), cut)
  {
  }

  /** Exactness: a search splits at a cut where the pattern agrees on both sides if and only if the cut is inside none
      of the matches found. */
  lemma SplitsIffNotCrossed(ends: nat -> nat, left: nat -> nat, right: nat -> nat, length: nat, cut: nat)
    requires cut <= length && Proper(ends, length) && Agree(ends, left, right, cut)
    ensures Scan(ends, length, 0) == Scan(left, cut, 0) + ShiftMatches(Scan(right, length - cut, 0), cut)
            <==> !Crossed(Scan(ends, length, 0), cut)
  {
    if Crossed(Scan(ends, length, 0), cut) {
      ScanInOrder(left, cut, 0);
      SplitIsNotCrossed(Scan(left, cut, 0), Scan(right, length - cut, 0), cut);
    } else {
      ScanSplits(ends, left, right, length, cut, 0);
    }
  }

  /** Two searches that agree before the cut cross it together. */
  lemma {:induction false} CrossTogether(a: nat -> nat, lengthA: nat, b: nat -> nat, lengthB: nat, cut: nat, i: nat)
    requires cut <= lengthA && cut <= lengthB && Proper(a, lengthA) && Proper(b, lengthB)
    requires forall j: nat | j < cut :: a(j) == b(j)
    ensures Crossed(Scan(a, lengthA, i), cut) <==> Crossed(Scan(b, lengthB, i), cut)
    decreases cut - i
  {
    if i >= cut {
      NotCrossedFrom(a, lengthA, cut, i);
      NotCrossedFrom(b, lengthB, cut, i);
    } else if a(i) != 0 {
      CrossTogether(a, lengthA, b, lengthB, cut, a(i));
      CrossedCons((i, a(i)), Scan(a, lengthA, a(i)), cut);
      CrossedCons((i, a(i)), Scan(b, lengthB, a(i)), cut);
    } else {
      CrossTogether(a, lengthA, b, lengthB, cut, i + 1);
    }
  }

  lemma NotCrossedFrom(ends: nat -> nat, length: nat, cut: nat, i: nat)
    requires cut <= i
    ensures !Crossed(Scan(ends, length, i), cut)
  {
    ScanInOrder(ends, length, i);
  }

  lemma CrossedCons(m: (nat, nat), ms: seq<(nat, nat)>, cut: nat)
    ensures Crossed([m] + ms, cut) <==> m.0 < cut < m.1 || Crossed(ms, cut)
  {
    var all := [m] + ms;
    if k :| 0 <= k < |ms| && ms[k].0 < cut < ms[k].1 {
      assert all[k + 1].0 < cut < all[k + 1].1;
    }
    if m.0 < cut < m.1 {
      assert all[0].0 < cut < all[0].1;
    }
    if k :| 0 <= k < |all| && all[k].0 < cut < all[k].1 {
      assert k > 0 ==> ms[k - 1] == all[k];
    }
  }

  /** The two together: whether the cut is inside a match can be seen from a search that agrees with this one before the
      cut, and if it is not, the search splits. */
  lemma SplitsIffOtherNotCrossed(
    ends: nat -> nat, length: nat, before: nat -> nat, other: nat, left: nat -> nat, right: nat -> nat, cut: nat,
    rest: nat)
    requires cut + rest == length && cut <= other && Proper(ends, length) && Proper(before, other)
             && Agree(ends, left, right, cut)
    requires forall j: nat | j < cut :: ends(j) == before(j)
    ensures Crossed(Scan(ends, length, 0), cut) <==> Crossed(Scan(before, other, 0), cut)
    ensures !Crossed(Scan(before, other, 0), cut) ==>
              Scan(ends, length, 0) == Scan(left, cut, 0) + ShiftMatches(Scan(right, rest, 0), cut)
  {
    CrossTogether(ends, length, before, other, cut, 0);
    SplitsIffNotCrossed(ends, left, right, length, cut);
  }
}
