/**
 * Reordering: `moveSliceFwd` / `moveWedgeFwd` swap a slice with its
 * successor so that both keep their arc lengths, and `moveSliceBwd` /
 * `moveWedgeBwd` do the same with the predecessor. Written as functions of
 * the old slice list; the classes in pie.dfy and wheel.dfy compute them.
 */
module Move {
  import opened Util
  import opened Partition

  /**
   * The list after moving the slice at `i` one place forward. The successor
   * `j` takes over `i`'s start and the moved slice starts `next_len` (the
   * successor's arc length) later; then the two swap places in the list.
   * With a single slice `i == j` and the second assignment undoes the first.
   */
  function MoveFwdLayout(s: seq<Slice>, i: nat): (r: seq<Slice>)
    requires i < |s|
    ensures |r| == |s|
    ensures |s| >= 2 ==> r[i] == s[Succ(i, |s|)].(angle := s[i].angle)
    ensures |s| >= 2 ==>
      var j := Succ(i, |s|);
      r[j] == s[i].(angle := Mod(s[i].angle + ArcLength(s[j].angle, s[Succ(j, |s|)].angle), TWO_PI))
    ensures forall p :: 0 <= p < |s| && p != i && p != Succ(i, |s|) ==> r[p] == s[p]
  {
    var n := |s|;
    var j := Succ(i, n);
    var k := Succ(j, n);
    var nextLen := ArcLength(s[j].angle, s[k].angle);
    var t := s[i := s[i].(angle := Mod(s[i].angle + nextLen, TWO_PI))];
    var u := t[j := t[j].(angle := s[i].angle)];
    u[i := u[j]][j := u[i]]
  }

  /** A pie of one slice is left as it is. */
  lemma MoveFwdSingle(s: seq<Slice>)
    requires |s| == 1
    ensures MoveFwdLayout(s, 0) == s
  {
    assert Succ(0, 1) == 0;
    assert MoveFwdLayout(s, 0)[0] == s[0];
  }

  /**
   * Moving forward keeps the partition and exchanges the arc lengths of the
   * two swapped positions: position `i` now holds the successor with its old
   * length, position `j` the moved slice with its old length; every other
   * length is unchanged.
   */
  lemma MoveFwdArcLengths(s: seq<Slice>, i: nat)
    requires IsPartition(Angles(s)) && |s| >= 2 && i < |s|
    ensures var lens := ArcLengths(Angles(s));
            var j := Succ(i, |s|);
            ArcLengths(Angles(MoveFwdLayout(s, i))) == lens[i := lens[j]][j := lens[i]]
    ensures IsPartition(Angles(MoveFwdLayout(s, i)))
  {
    var a := Angles(s);
    var lens := ArcLengths(a);
    var n := |s|;
    var j := Succ(i, n);
    var r := Angles(MoveFwdLayout(s, i));
    var swapped := lens[i := lens[j]][j := lens[i]];
    MovedStarts(s, i);
    forall p | 0 <= p < n
      ensures ArcLengths(r)[p] == swapped[p]
    {
      if p == i {
        MovedArcAtFront(s, i);
      } else if p == j {
        MovedArcAtBack(s, i);
      } else {
        MovedArcElsewhere(s, i, p);
      }
    }
    assert ArcLengths(r) == swapped;
    SumSwap(lens, i, j);
  }

  /** The new starts: `i` keeps its start, `j` moves by the successor's length, the rest stay. */
  lemma MovedStarts(s: seq<Slice>, i: nat)
    requires AllAngles(Angles(s)) && |s| >= 2 && i < |s|
    ensures var a := Angles(s);
            var r := Angles(MoveFwdLayout(s, i));
            var j := Succ(i, |s|);
            r[i] == a[i] &&
            r[j] == Mod(a[i] + ArcLengths(a)[j], TWO_PI) &&
            r[Succ(j, |s|)] == a[Succ(j, |s|)] &&
            AllAngles(r)
  {
    var r := Angles(MoveFwdLayout(s, i));
    forall p | 0 <= p < |s|
      ensures IsAngle(r[p])
    {
      assert p != i && p != Succ(i, |s|) ==> r[p] == Angles(s)[p];
    }
  }

  lemma MovedArcAtFront(s: seq<Slice>, i: nat)
    requires IsPartition(Angles(s)) && |s| >= 2 && i < |s|
    ensures ArcLengths(Angles(MoveFwdLayout(s, i)))[i] == ArcLengths(Angles(s))[Succ(i, |s|)]
  {
    var a := Angles(s);
    var j := Succ(i, |s|);
    MovedStarts(s, i);
    ArcLengthOfStep(a[i], ArcLengths(a)[j]);
  }

  lemma MovedArcAtBack(s: seq<Slice>, i: nat)
    requires IsPartition(Angles(s)) && |s| >= 2 && i < |s|
    ensures ArcLengths(Angles(MoveFwdLayout(s, i)))[Succ(i, |s|)] == ArcLengths(Angles(s))[i]
  {
    var a := Angles(s);
    var lens := ArcLengths(a);
    var j := Succ(i, |s|);
    var k := Succ(j, |s|);
    MovedStarts(s, i);
    FollowingStart(a, i);
    var x := Mod(a[i] + lens[j], TWO_PI);
    ModAddMod(a[i] + lens[j], lens[i]);
    assert a[i] + lens[j] + lens[i] == a[i] + lens[i] + lens[j];
    ArcLengthUnique(x, a[k], lens[i]);
  }

  /** The start after next is reached from `i` by both lengths: `a[k] == (a[i] + L_i + L_j) mod 2π`. */
  lemma FollowingStart(a: seq<real>, i: nat)
    requires AllAngles(a) && i < |a|
    ensures var lens := ArcLengths(a);
            var j := Succ(i, |a|);
            a[Succ(j, |a|)] == Mod(a[i] + lens[i] + lens[j], TWO_PI)
  {
    var lens := ArcLengths(a);
    var j := Succ(i, |a|);
    assert a[j] == Mod(a[i] + lens[i], TWO_PI);
    assert a[Succ(j, |a|)] == Mod(a[j] + lens[j], TWO_PI);
    ModAddMod(a[i] + lens[i], lens[j]);
  }

  lemma MovedArcElsewhere(s: seq<Slice>, i: nat, p: nat)
    requires AllAngles(Angles(s)) && |s| >= 2 && i < |s|
    requires p < |s| && p != i && p != Succ(i, |s|)
    ensures ArcLengths(Angles(MoveFwdLayout(s, i)))[p] == ArcLengths(Angles(s))[p]
  {
    MovedStarts(s, i);
    var q := Succ(p, |s|);
    assert q != Succ(i, |s|);
    assert Angles(MoveFwdLayout(s, i))[q] == Angles(s)[q];
  }

  /** Exchanging two entries keeps the sum. */
  lemma SumSwap(xs: seq<real>, i: nat, j: nat)
    requires i < |xs| && j < |xs| && i != j
    ensures Sum(xs[i := xs[j]][j := xs[i]]) == Sum(xs)
  {
    SumUpdate(xs, i, xs[j]);
    SumUpdate(xs[i := xs[j]], j, xs[i]);
  }

  /**
   * The index `moveSliceBwd` hands on: `mod(i - 1, n)` for the position `i`
   * of the id, where a missing id makes `i == -1`. An empty list has no
   * such index (the source then reads a property of `undefined`).
   */
  function BwdIndex(s: seq<Slice>, id: string): (h: Option<nat>)
    ensures h.Some? <==> |s| >= 1
    ensures h.Some? ==> h.value < |s|
    ensures h.Some? && FindIndex(s, id) >= 0 ==> Succ(h.value, |s|) == FindIndex(s, id)
    ensures h.Some? && FindIndex(s, id) < 0 && |s| >= 2 ==> h.value == |s| - 2
  {
    if |s| == 0 then None
    else
      var i := FindIndex(s, id);
      if i >= 0 then Some(Pred(i, |s|)) else Some((|s| - 2) % |s|)
  }

  /**
   * `mod(i - 1, n)` for the position `i` that `findIndex` returns (`-1` when
   * the id is missing) is the index `BwdIndex` names.
   */
  lemma BwdIndexIsMod(s: seq<Slice>, id: string)
    requires |s| >= 1
    ensures BwdIndex(s, id) == Some(((FindIndex(s, id) - 1) % |s|) as nat)
  {
    var i := FindIndex(s, id);
    var n := |s|;
    if i >= 1 {
      ModOfIndex(i - 1, n);
    } else if i == 0 {
      ModOfNegIndex(-1, n);
    } else if n >= 2 {
      ModOfNegIndex(-2, n);
      ModOfIndex(n - 2, n);
    }
  }

  lemma ModOfIndex(x: int, n: int)
    requires 0 <= x < n
    ensures x % n == x
  {
  }

  lemma ModOfNegIndex(x: int, n: int)
    requires -n <= x < 0
    ensures x % n == x + n
  {
  }

  /**
   * `moveSliceBwd`: moving forward the slice found under the id of the
   * slice at `BwdIndex`; `None` where the source throws.
   */
  function MoveBwdLayout(s: seq<Slice>, id: string): (r: Option<seq<Slice>>)
    ensures r.Some? <==> |s| >= 1
    ensures r.Some? ==> |r.value| == |s|
  {
    match BwdIndex(s, id)
    case None => None
    case Some(h) =>
      var i := FindIndex(s, s[h].id);
      Some(MoveFwdLayout(s, i))
  }

  /**
   * `moveSliceFwd` followed by `moveSliceBwd` on the same id gives back the
   * original list, angles included, when the ids are distinct and the
   * slices form a partition of two or more.
   */
  lemma FwdThenBwd(s: seq<Slice>, i: nat)
    requires IsPartition(Angles(s)) && DistinctIds(s) && |s| >= 2 && i < |s|
    ensures MoveBwdLayout(MoveFwdLayout(s, i), s[i].id) == Some(s)
  {
    var n := |s|;
    var j := Succ(i, n);
    var t := MoveFwdLayout(s, i);
    MovedIds(s, i);
    FindDistinct(t, j);
    assert Pred(j, n) == i;
    FindDistinct(t, i);
    MoveFwdArcLengths(s, i);
    MoveBack(s, i);
  }

  /** The moved list still has distinct ids, with `s[i]`'s id at `j` and `s[j]`'s at `i`. */
  lemma MovedIds(s: seq<Slice>, i: nat)
    requires DistinctIds(s) && |s| >= 2 && i < |s|
    ensures DistinctIds(MoveFwdLayout(s, i))
  {
    var t := MoveFwdLayout(s, i);
    var n := |s|;
    var j := Succ(i, n);
    forall p, q | 0 <= p < q < n
      ensures t[p].id != t[q].id
    {
      var p' := if p == i then j else if p == j then i else p;
      var q' := if q == i then j else if q == j then i else q;
      assert t[p].id == s[p'].id && t[q].id == s[q'].id;
      assert p' != q';
      SameIdSameIndex(s, p', q');
    }
    DistinctByPairs(t);
  }

  /** Moving the slice now at `i` forward again puts both slices and starts back. */
  lemma MoveBack(s: seq<Slice>, i: nat)
    requires IsPartition(Angles(s)) && |s| >= 2 && i < |s|
    requires IsPartition(Angles(MoveFwdLayout(s, i)))
    requires var lens := ArcLengths(Angles(s));
             var j := Succ(i, |s|);
             ArcLengths(Angles(MoveFwdLayout(s, i))) == lens[i := lens[j]][j := lens[i]]
    ensures MoveFwdLayout(MoveFwdLayout(s, i), i) == s
  {
    var n := |s|;
    var j := Succ(i, n);
    var t := MoveFwdLayout(s, i);
    var u := MoveFwdLayout(t, i);
    var a := Angles(s);
    var lens := ArcLengths(a);
    assert ArcLengths(Angles(t))[j] == lens[i];
    assert u[i] == t[j].(angle := t[i].angle);
    assert u[j] == t[i].(angle := Mod(t[i].angle + ArcLengths(Angles(t))[j], TWO_PI));
    assert a[j] == Mod(a[i] + lens[i], TWO_PI);
    forall p | 0 <= p < n
      ensures u[p] == s[p]
    {
    }
  }
}
