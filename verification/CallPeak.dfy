/** The most people in a call at once, found by one sweep over the moments they came and went. */
module CallPeak {
  datatype Stay = Stay(joinedAt: real, leftAt: real)
  datatype Move = Move(at: real, delta: int)

  /** Earlier first; at one moment those who leave before those who join. */
  predicate Before(a: Move, b: Move) { a.at < b.at || (a.at == b.at && a.delta <= b.delta) }

  predicate Sorted(moves: seq<Move>) {
    forall i, j :: 0 <= i < j < |moves| ==> Before(moves[i], moves[j])
  }

  function MovesOf(stays: seq<Stay>): seq<Move> {
    if stays == [] then []
    else [Move(stays[0].joinedAt, 1), Move(stays[0].leftAt, -1)] + MovesOf(stays[1..])
  }

  function Insert(move: Move, sorted: seq<Move>): seq<Move> {
    if sorted == [] || Before(move, sorted[0]) then [move] + sorted
    else [sorted[0]] + Insert(move, sorted[1..])
  }

  function SortMoves(moves: seq<Move>): seq<Move> {
    if moves == [] then [] else Insert(moves[0], SortMoves(moves[1..]))
  }

  /** How many have come less how many have gone, up to and at the moment `t`. */
  ghost function Net(moves: seq<Move>, t: real): int {
    if moves == [] then 0 else (if moves[0].at <= t then moves[0].delta else 0) + Net(moves[1..], t)
  }

  ghost function Inside(stays: seq<Stay>, t: real): int {
    if stays == [] then 0
    else (if stays[0].joinedAt <= t then 1 else 0) - (if stays[0].leftAt <= t then 1 else 0) + Inside(stays[1..], t)
  }

  /** How many stays, each from its joining up to but not at its leaving, contain the moment `t`. */
  ghost function Occupancy(stays: seq<Stay>, t: real): nat {
    if stays == [] then 0
    else (if stays[0].joinedAt <= t < stays[0].leftAt then 1 else 0) + Occupancy(stays[1..], t)
  }

  lemma {:induction false} InsideIsOccupancy(stays: seq<Stay>, t: real)
    requires forall s :: s in stays ==> s.joinedAt <= s.leftAt
    ensures Inside(stays, t) == Occupancy(stays, t)
  {
    if stays != [] {
      assert stays[0] in stays;
      InsideIsOccupancy(stays[1..], t);
    }
  }

  lemma {:induction false} NetOfStays(stays: seq<Stay>, t: real)
    ensures Net(MovesOf(stays), t) == Inside(stays, t)
  {
    if stays != [] {
      NetOfStays(stays[1..], t);
      var m := MovesOf(stays);
      assert m[1..][1..] == MovesOf(stays[1..]);
    }
  }

  lemma {:induction false} InsertKeepsNet(move: Move, sorted: seq<Move>, t: real)
    ensures Net(Insert(move, sorted), t) == Net([move] + sorted, t)
  {
    var r := Insert(move, sorted);
    assert ([move] + sorted)[1..] == sorted;
    if r != [move] + sorted {
      InsertKeepsNet(move, sorted[1..], t);
      assert r[1..] == Insert(move, sorted[1..]);
      assert ([move] + sorted[1..])[1..] == sorted[1..];
    }
  }

  lemma {:induction false} InsertSorts(move: Move, sorted: seq<Move>)
    requires Sorted(sorted)
    ensures Sorted(Insert(move, sorted))
    ensures forall x :: x in Insert(move, sorted) ==> x == move || x in sorted
  {
    if sorted != [] && !Before(move, sorted[0]) {
      InsertSorts(move, sorted[1..]);
      var r := Insert(move, sorted[1..]);
      assert forall x :: x in r ==> Before(sorted[0], x);
      assert forall j :: 0 <= j < |r| ==> r[j] in r;
    } else if sorted != [] {
      assert forall j :: 0 <= j < |sorted| ==> Before(move, sorted[j]);
    }
  }

  lemma {:induction false} SortMovesSorts(moves: seq<Move>, t: real)
    ensures Sorted(SortMoves(moves))
    ensures Net(SortMoves(moves), t) == Net(moves, t)
    ensures forall m :: m in SortMoves(moves) ==> m in moves
  {
    if moves != [] {
      SortMovesSorts(moves[1..], t);
      InsertSorts(moves[0], SortMoves(moves[1..]));
      InsertKeepsNet(moves[0], SortMoves(moves[1..]), t);
      assert ([moves[0]] + SortMoves(moves[1..]))[1..] == SortMoves(moves[1..]);
    }
  }

  // ---------------------------------------------------------------- the sweep

  /** The count inside after the first `n` moves. */
  ghost function After(moves: seq<Move>, n: nat): int
    requires n <= |moves|
  {
    if n == 0 then 0 else After(moves, n - 1) + moves[n - 1].delta
  }

  lemma {:induction false} AfterShift(moves: seq<Move>, n: nat)
    requires n < |moves|
    ensures After(moves, n + 1) == moves[0].delta + After(moves[1..], n)
  {
    if n > 0 { AfterShift(moves, n - 1); }
  }

  /** In sorted moves the count at a moment is the count after the moves up to and at it. */
  lemma {:induction false} NetIsAfter(moves: seq<Move>, t: real) returns (k: nat)
    requires Sorted(moves)
    ensures k <= |moves| && Net(moves, t) == After(moves, k)
    ensures forall i :: 0 <= i < k ==> moves[i].at <= t
    ensures forall i :: k <= i < |moves| ==> t < moves[i].at
  {
    k := 0;
    if moves != [] {
      if moves[0].at <= t {
        var k' := NetIsAfter(moves[1..], t);
        k := k' + 1;
        AfterShift(moves, k');
        assert forall i :: 0 < i < |moves| ==> moves[i] == moves[1..][i - 1];
      } else {
        var k' := NetIsAfter(moves[1..], t);
        assert k' == 0;
      }
    }
  }

  /** Once a move raises the count, the moves left at the same moment only raise it further. */
  lemma {:induction false} RestOfMomentRaises(moves: seq<Move>, f: nat, k: nat)
    requires Sorted(moves) && f < k <= |moves|
    requires moves[f].delta > 0
    requires forall i :: f <= i < k ==> moves[i].at == moves[f].at
    ensures After(moves, f + 1) <= After(moves, k)
  {
    if f + 1 < k {
      RestOfMomentRaises(moves, f, k - 1);
      assert Before(moves[f], moves[k - 1]);
    }
  }

  /** `people` is the highest count after any of the first `n` moves, and the move at `first` reached it first. */
  ghost predicate PeakSoFar(moves: seq<Move>, n: nat, people: int, first: nat)
    requires n <= |moves|
  {
    && 0 <= people
    && (forall i :: 0 <= i <= n ==> After(moves, i) <= people)
    && (people > 0 ==> first < n && After(moves, first + 1) == people
                       && forall i :: 0 <= i <= first ==> After(moves, i) < people)
  }

  lemma PeakIsExact(stays: seq<Stay>, moves: seq<Move>, people: int, first: nat, t: real)
    requires moves == SortMoves(MovesOf(stays)) && PeakSoFar(moves, |moves|, people, first)
    ensures Inside(stays, t) <= people
    ensures people > 0 && t == moves[first].at ==> Inside(stays, t) == people
    ensures people > 0 && t < moves[first].at ==> Inside(stays, t) < people
  {
    SortMovesSorts(MovesOf(stays), t);
    NetOfStays(stays, t);
    var k := NetIsAfter(moves, t);
    if people > 0 && t == moves[first].at {
      assert After(moves, first + 1) == After(moves, first) + moves[first].delta;
      assert forall i :: first <= i < k ==> moves[i].at == moves[first].at by {
        forall i | first < i < k ensures moves[i].at == moves[first].at { assert Before(moves[first], moves[i]); }
      }
      RestOfMomentRaises(moves, first, k);
    }
  }

  /** Sweeping joins before leaves at one moment would count two people who only meet at the door. */
  lemma JoinsFirstOvercount(x: real, y: real, z: real, t: real)
    requires x < y < z
    ensures var stays := [Stay(x, y), Stay(y, z)];
            var joinsFirst := [Move(x, 1), Move(y, 1), Move(y, -1), Move(z, -1)];
            && multiset(joinsFirst) == multiset(MovesOf(stays))
            && After(joinsFirst, 2) == 2 && Occupancy(stays, t) <= 1
  {
    var stays := [Stay(x, y), Stay(y, z)];
    var joinsFirst := [Move(x, 1), Move(y, 1), Move(y, -1), Move(z, -1)];
    assert stays[1..] == [Stay(y, z)] && stays[1..][1..] == [];
    assert MovesOf(stays[1..]) == [Move(y, 1), Move(z, -1)] + MovesOf([]);
    assert MovesOf(stays) == [Move(x, 1), Move(y, -1), Move(y, 1), Move(z, -1)];
    assert After(joinsFirst, 1) == 1;
    assert Occupancy(stays[1..][1..], t) == 0;
  }

  /** The most people in the call at once and when that first was; the call's start when nobody ever was. */
  method PeakOf(startedAt: real, stays: seq<Stay>) returns (people: int, at: real)
    ensures 0 <= people
    ensures forall t: real :: Inside(stays, t) <= people
    ensures people == 0 ==> at == startedAt
    ensures people > 0 ==> Inside(stays, at) == people && forall t: real :: t < at ==> Inside(stays, t) < people
    ensures (forall s :: s in stays ==> s.joinedAt <= s.leftAt) ==> forall t: real :: Inside(stays, t) == Occupancy(stays, t)
  {
    var moves := SortMoves(MovesOf(stays));
    var inside := 0;
    people, at := 0, startedAt;
    ghost var first := 0;
    for n := 0 to |moves|
      invariant inside == After(moves, n)
      invariant PeakSoFar(moves, n, people, first)
      invariant at == if people > 0 then moves[first].at else startedAt
    {
      inside := inside + moves[n].delta;
      if inside > people {
        people, at, first := inside, moves[n].at, n;
      }
    }
    forall t: real
      ensures Inside(stays, t) <= people
      ensures people > 0 && t == at ==> Inside(stays, t) == people
      ensures people > 0 && t < at ==> Inside(stays, t) < people
    {
      PeakIsExact(stays, moves, people, first, t);
    }
    if forall s :: s in stays ==> s.joinedAt <= s.leftAt {
      forall t: real ensures Inside(stays, t) == Occupancy(stays, t) { InsideIsOccupancy(stays, t); }
    }
  }
}
