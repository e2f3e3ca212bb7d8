// orderRSSIAscend and trilateration_process: the access points of one device
// are sorted in place and the first three locate it.
module Positioning {
  import opened Trilateration

  datatype AccessPoint = AccessPoint(x: real, y: real, z: real, distance: real, macAddress: string)

  const NO_FLOORS: real := 3.0

  /** Closer readings than 0.1 stand for "not heard". */
  predicate Heard(p: AccessPoint) { p.distance > 0.1 }

  /** A C float is never equal to the double 0.1 it is compared with. */
  predicate FloatDistances(s: seq<AccessPoint>)
  {
    forall i :: 0 <= i < |s| ==> s[i].distance != 0.1
  }

  /** Heard access points first, nearest first; the others after them. */
  predicate Arranged(s: seq<AccessPoint>)
  {
    forall i, j :: 0 <= i < j < |s| && Heard(s[j]) ==> Heard(s[i]) && s[i].distance <= s[j].distance
  }

  /** The exchange test of the inner loop (WifiNode.c:141). */
  predicate Exchanges(p: AccessPoint, q: AccessPoint)
  {
    (p.distance > q.distance && q.distance > 0.1) || p.distance < 0.1
  }

  ghost predicate SettledBefore(s: seq<AccessPoint>, i: nat)
  {
    forall p, q :: 0 <= p < i && p < q < |s| && Heard(s[q]) ==> Heard(s[p]) && s[p].distance <= s[q].distance
  }

  ghost predicate LeadsUpTo(s: seq<AccessPoint>, i: nat, j: nat)
    requires i < |s|
  {
    forall q :: i < q < j && q < |s| && Heard(s[q]) ==> Heard(s[i]) && s[i].distance <= s[q].distance
  }

  lemma SwapKeeps(s: seq<AccessPoint>, i: nat, j: nat)
    requires i < j < |s| && FloatDistances(s)
    ensures var t := s[i := s[j]][j := s[i]];
            && multiset(t) == multiset(s) && FloatDistances(t)
            && (SettledBefore(s, i) ==> SettledBefore(t, i))
            && (LeadsUpTo(s, i, j) && Exchanges(s[i], s[j]) ==> LeadsUpTo(t, i, j + 1))
  {
  }

  lemma NoSwapKeeps(s: seq<AccessPoint>, i: nat, j: nat)
    requires i < j < |s| && FloatDistances(s) && LeadsUpTo(s, i, j) && !Exchanges(s[i], s[j])
    ensures LeadsUpTo(s, i, j + 1)
  {
  }

  lemma LeaderSettles(s: seq<AccessPoint>, i: nat)
    requires i < |s| && SettledBefore(s, i) && LeadsUpTo(s, i, |s|)
    ensures SettledBefore(s, i + 1)
  {
  }

  /** The inner loop: brings the nearest heard access point of slots i.. to slot i. */
  method SettleSlot(temp: array<AccessPoint>, i: nat)
    requires i < temp.Length && FloatDistances(temp[..]) && SettledBefore(temp[..], i)
    modifies temp
    ensures multiset(temp[..]) == multiset(old(temp[..]))
    ensures FloatDistances(temp[..]) && SettledBefore(temp[..], i + 1)
  {
    assert LeadsUpTo(temp[..], i, i + 1);
    hide FloatDistances, SettledBefore, LeadsUpTo, Exchanges;
    for j := i + 1 to temp.Length
      invariant multiset(temp[..]) == multiset(old(temp[..])) && FloatDistances(temp[..])
      invariant SettledBefore(temp[..], i) && LeadsUpTo(temp[..], i, j)
    {
      ghost var s := temp[..];
      if Exchanges(temp[i], temp[j]) {
        SwapKeeps(s, i, j);
        temp[i], temp[j] := temp[j], temp[i];
        assert temp[..] == s[i := s[j]][j := s[i]];
      } else {
        NoSwapKeeps(s, i, j);
      }
    }
    LeaderSettles(temp[..], i);
  }

  method OrderRSSIAscend(nodes: array<AccessPoint>)
    requires FloatDistances(nodes[..])
    modifies nodes
    ensures multiset(nodes[..]) == multiset(old(nodes[..]))
    ensures Arranged(nodes[..])
    ensures forall i, j :: 0 <= i < j < nodes.Length && nodes[j].distance > 0.1 ==>
              0.1 < nodes[i].distance <= nodes[j].distance
  {
    var n := nodes.Length;
    var temp := new AccessPoint[n](k requires 0 <= k < n reads nodes => nodes[k]);
    assert temp[..] == nodes[..];
    for i := 0 to n
      invariant nodes[..] == old(nodes[..])
      invariant multiset(temp[..]) == multiset(old(nodes[..])) && FloatDistances(temp[..])
      invariant SettledBefore(temp[..], i)
    {
      SettleSlot(temp, i);
    }
    ghost var sorted := temp[..];
    forall k | 0 <= k < n {
      nodes[k] := temp[k];
    }
    assert nodes[..] == sorted;
  }

  lemma TakeOut(s: seq<AccessPoint>, i: nat)
    requires i < |s|
    ensures multiset(s) == multiset(s[..i]) + (multiset{s[i]} + multiset(s[i + 1..]))
  {
    assert s == s[..i] + ([s[i]] + s[i + 1..]);
  }

  lemma JoinThree(x: AccessPoint, y: AccessPoint, z: AccessPoint,
                  u: multiset<AccessPoint>, t: multiset<AccessPoint>, s: multiset<AccessPoint>)
    requires multiset{z} <= u && multiset{y} + u <= t && multiset{x} + t <= s
    ensures multiset{x, y, z} <= s
  {
    assert multiset{x, y, z} == multiset{x} + (multiset{y} + multiset{z});
  }

  lemma ThreeOfMany(s: seq<AccessPoint>, i: nat, j: nat, k: nat)
    requires i < j < k < |s|
    ensures multiset{s[i], s[j], s[k]} <= multiset(s)
  {
    var t := s[i + 1..];
    var u := t[j - i..];
    TakeOut(s, i);
    TakeOut(t, j - i - 1);
    TakeOut(u, k - j - 1);
    assert t[j - i - 1] == s[j] && u[k - j - 1] == s[k];
    JoinThree(s[i], s[j], s[k], multiset(u), multiset(t), multiset(s));
  }

  lemma HeardStay(three: multiset<AccessPoint>, first: seq<AccessPoint>, rest: seq<AccessPoint>)
    requires three <= multiset(first + rest) && (forall p :: p in three ==> Heard(p))
    requires forall q :: 0 <= q < |rest| ==> !Heard(rest[q])
    ensures three <= multiset(first)
  {
    hide Heard;
    assert forall p :: p in three ==> p !in rest;
    assert multiset(first + rest) == multiset(first) + multiset(rest);
  }

  /** Three heard elements cannot all fit into the first two slots. */
  lemma ThreeHeardReachSlotTwo(three: multiset<AccessPoint>, s: seq<AccessPoint>)
    requires three <= multiset(s) && |three| == 3 && Arranged(s) && |s| >= 3
    requires forall p :: p in three ==> Heard(p)
    ensures Heard(s[2])
  {
    if !Heard(s[2]) {
      var first, rest := s[..2], s[2..];
      assert s == first + rest;
      forall q | 0 <= q < |rest| ensures !Heard(rest[q]) {
        assert rest[q] == s[2 + q];
      }
      hide Arranged, Heard;
      HeardStay(three, first, rest);
      SubMultisetSize(three, multiset(first));
    }
  }

  /** With three access points heard, slots 0 to 2 are heard and no other heard
      access point is nearer than slot 2. */
  lemma FirstThreeAreNearest(before: seq<AccessPoint>, s: seq<AccessPoint>, i: nat, j: nat, k: nat)
    requires multiset(s) == multiset(before) && Arranged(s)
    requires i < j < k < |before| && Heard(before[i]) && Heard(before[j]) && Heard(before[k])
    ensures |s| >= 3 && Heard(s[0]) && Heard(s[1]) && Heard(s[2])
    ensures s[0].distance <= s[1].distance <= s[2].distance
    ensures forall q :: 3 <= q < |s| && Heard(s[q]) ==> s[2].distance <= s[q].distance
  {
    assert |s| == |multiset(s)| == |multiset(before)| == |before|;
    ThreeOfMany(before, i, j, k);
    ThreeHeardReachSlotTwo(multiset{before[i], before[j], before[k]}, s);
  }

  lemma SubMultisetSize(a: multiset<AccessPoint>, b: multiset<AccessPoint>)
    requires a <= b
    ensures |a| <= |b|
  {
    assert b == a + (b - a);
  }

  /** C's round: half away from zero. */
  function Round(r: real): int
  {
    if r >= 0.0 then (r + 0.5).Floor else -((0.5 - r).Floor)
  }

  function AnchorOf(p: AccessPoint): Anchor { Anchor(Point(p.x, p.y), p.distance) }

  class InsNode {
    const wifiAccessPointNode: array<AccessPoint>
    var planar: Option<Point>  // nodeCartPosition[0] and [1]; None: not finite
    var floor: int             // nodeCartPosition[2]

    constructor (slots: array<AccessPoint>)
      ensures wifiAccessPointNode == slots
    {
      wifiAccessPointNode := slots;
      planar, floor := Some(Point(0.0, 0.0)), 0;
    }

    /** The formulas on three given access points: the point whose power with
        respect to the three circles is equal, unless they are collinear. */
    static method Solve(p1: AccessPoint, p2: AccessPoint, p3: AccessPoint) returns (planar: Option<Point>)
      ensures planar == Locate(AnchorOf(p1), AnchorOf(p2), AnchorOf(p3))
      ensures planar == None <==> InLine(p1, p2, p3)
      ensures planar.Some? ==> SamePower(planar.value, p1, p2) && SamePower(planar.value, p1, p3)
    {
      hide SamePower, InLine;
      var d1, d2, d3 := p1.distance, p2.distance, p3.distance;
      var A := p1.x * p1.x + p1.y * p1.y - d1 * d1;
      var B := p2.x * p2.x + p2.y * p2.y - d2 * d2;
      var C := p3.x * p3.x + p3.y * p3.y - d3 * d3;
      var X32, X13, X21 := p3.x - p2.x, p1.x - p3.x, p2.x - p1.x;
      var Y32, Y13, Y21 := p3.y - p2.y, p1.y - p3.y, p2.y - p1.y;
      var dx := 2.0 * (p1.x * Y32 + p2.x * Y13 + p3.x * Y21);
      var dy := 2.0 * (p1.y * X32 + p2.y * X13 + p3.y * X21);
      var nx := A * Y32 + B * Y13 + C * Y21;
      var ny := A * X32 + B * X13 + C * X21;
      ghost var a, b, c := AnchorOf(p1), AnchorOf(p2), AnchorOf(p3);
      assert A == Constant(a) && B == Constant(b) && C == Constant(c);
      hide Constant;
      assert nx == NumeratorX(a, b, c) && ny == NumeratorY(a, b, c);
      assert dx == DenominatorX(a.at, b.at, c.at) && dy == DenominatorY(a.at, b.at, c.at);
      hide NumeratorX, NumeratorY, DenominatorX, DenominatorY;
      planar := if dx == 0.0 || dy == 0.0 then None else Some(Point(nx / dx, ny / dy));
      assert planar == Locate(a, b, c);
      hide Locate;
      LocatedInFields(p1, p2, p3);
    }

    /** Sorts the slots and solves for the position: the planar part has equal
        power with respect to the first three, and is not finite exactly when they
        are collinear; the third coordinate is the mean height of three, rounded
        half away from zero. */
    method TrilaterationProcess()
      requires wifiAccessPointNode.Length >= 3 && FloatDistances(wifiAccessPointNode[..])
      modifies this, wifiAccessPointNode
      ensures multiset(wifiAccessPointNode[..]) == multiset(old(wifiAccessPointNode[..]))
      ensures Arranged(wifiAccessPointNode[..])
      ensures
        var p1, p2, p3 := wifiAccessPointNode[0], wifiAccessPointNode[1], wifiAccessPointNode[2];
        && planar == Locate(AnchorOf(p1), AnchorOf(p2), AnchorOf(p3))
        && (planar == None <==> InLine(p1, p2, p3))
        && (planar.Some? ==> SamePower(planar.value, p1, p2) && SamePower(planar.value, p1, p3))
      ensures
        var height := wifiAccessPointNode[0].z + wifiAccessPointNode[1].z + wifiAccessPointNode[2].z;
        var off := 3.0 * floor as real - height;
        -1.5 <= off <= 1.5 && (off == 1.5 ==> height > 0.0) && (off == -1.5 ==> height < 0.0)
    {
      OrderRSSIAscend(wifiAccessPointNode);
      hide Locate, SamePower, InLine, Round;
      var p1, p2, p3 := wifiAccessPointNode[0], wifiAccessPointNode[1], wifiAccessPointNode[2];
      planar := Solve(p1, p2, p3);
      floor := Round((p1.z + p2.z + p3.z) / NO_FLOORS);
      RoundedMean(p1.z + p2.z + p3.z);
    }
  }

  /** The three access points stand in line. */
  predicate InLine(p1: AccessPoint, p2: AccessPoint, p3: AccessPoint)
  {
    (p2.x - p1.x) * (p3.y - p1.y) == (p3.x - p1.x) * (p2.y - p1.y)
  }

  /** Equal power with respect to the circles around two access points. */
  predicate SamePower(q: Point, p1: AccessPoint, p2: AccessPoint)
  {
    Square(q.x - p1.x) + Square(q.y - p1.y) - Square(p1.distance)
    == Square(q.x - p2.x) + Square(q.y - p2.y) - Square(p2.distance)
  }

  lemma LocatedHasEqualPowers(a: Anchor, b: Anchor, c: Anchor)
    ensures Locate(a, b, c) == None <==> Collinear(a.at, b.at, c.at)
    ensures Locate(a, b, c).Some? ==> EqualPowers(Locate(a, b, c).value, a, b, c)
  {
    LocateFailsIffCollinear(a, b, c);
    if Locate(a, b, c).Some? {
      LocateIsRadicalCentre(a, b, c, Locate(a, b, c).value);
    }
  }

  lemma LocatedInFields(p1: AccessPoint, p2: AccessPoint, p3: AccessPoint)
    ensures var planar := Locate(AnchorOf(p1), AnchorOf(p2), AnchorOf(p3));
      && (planar == None <==> InLine(p1, p2, p3))
      && (planar.Some? ==> SamePower(planar.value, p1, p2) && SamePower(planar.value, p1, p3))
  {
    hide Locate, Square;
    LocatedHasEqualPowers(AnchorOf(p1), AnchorOf(p2), AnchorOf(p3));
  }

  /** A device at q whose heard access points report their true distances is
      located at q, in whatever order and among whatever unheard slots they were
      stored, when three are heard and the three nearest are not collinear. */
  lemma DeviceIsLocatedExactly(before: seq<AccessPoint>, s: seq<AccessPoint>, i: nat, j: nat, k: nat, q: Point)
    requires multiset(s) == multiset(before) && Arranged(s)
    requires i < j < k < |before| && Heard(before[i]) && Heard(before[j]) && Heard(before[k])
    requires forall p :: p in before && p.distance > 0.1 ==>
               Square(q.x - p.x) + Square(q.y - p.y) == Square(p.distance)
    ensures |s| >= 3
    ensures var p1, p2, p3 := s[0], s[1], s[2];
            !InLine(p1, p2, p3) ==> Locate(AnchorOf(p1), AnchorOf(p2), AnchorOf(p3)) == Some(q)
  {
    hide Square, InLine, Locate;
    FirstThreeAreNearest(before, s, i, j, k);
    forall p | p in s ensures p in before {
      assert p in multiset(s) && p in multiset(before);
    }
    assert s[0] in s && s[1] in s && s[2] in s;
    ThreeTrueDistances(s[0], s[1], s[2], q);
  }

  lemma ThreeTrueDistances(p1: AccessPoint, p2: AccessPoint, p3: AccessPoint, q: Point)
    requires Square(q.x - p1.x) + Square(q.y - p1.y) == Square(p1.distance)
    requires Square(q.x - p2.x) + Square(q.y - p2.y) == Square(p2.distance)
    requires Square(q.x - p3.x) + Square(q.y - p3.y) == Square(p3.distance)
    ensures !InLine(p1, p2, p3) ==> Locate(AnchorOf(p1), AnchorOf(p2), AnchorOf(p3)) == Some(q)
  {
    hide Square, Locate;
    if !InLine(p1, p2, p3) {
      LocateIsExact(AnchorOf(p1), AnchorOf(p2), AnchorOf(p3), q);
    }
  }

  /** To the nearest integer; of two that are equally near, to the one away from
      zero. */
  lemma RoundIsNearest(r: real)
    ensures var off := Round(r) as real - r;
      -0.5 <= off <= 0.5 && (off == 0.5 ==> r > 0.0) && (off == -0.5 ==> r < 0.0)
  {
  }

  lemma RoundedMean(height: real)
    ensures var off := 3.0 * Round(height / NO_FLOORS) as real - height;
      -1.5 <= off <= 1.5 && (off == 1.5 ==> height > 0.0) && (off == -1.5 ==> height < 0.0)
  {
    RoundIsNearest(height / NO_FLOORS);
    hide Round;
  }
}
