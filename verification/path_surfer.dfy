/** kc.mega.move.PathSurfer: a best-first search over movement plans on up to
    three incoming waves. Every node of the search tree extends its parent's
    plan by one per-tick direction list (an "extension"); the children of a node
    are kept in a TreeSet ordered by danger, duplicates by padded extension are
    refused, and the search prunes a child once its danger plus an estimate of
    the danger still to come (the A* heuristic) exceeds the best leaf found so
    far. The estimate is not proved to be a lower bound.
    Simulation of a plan, the danger oracles and Math.random are inputs. */
module PathSurfers {
  import opened Wrappers
  import opened MathUtils
  import opened Ranges
  import opened WaveModel
  import Paths

  /** Dangers on the third wave come from an approximate search and are discounted. */
  const THIRD_WAVE_DISCOUNT: real := 0.75
  /** Deepest node of the search tree: one precise level per wave on two waves
      and one approximate level on the third. */
  const MAX_DEPTH: nat := 3

  /** A square-root oracle positive on positive inputs. */
  ghost predicate RootPositive(sqrt: real -> real) {
    forall x: real :: x > 0.0 ==> sqrt(x) > 0.0
  }

  ghost predicate RootMonotone(sqrt: real -> real) {
    forall x: real, y: real :: 0.0 < x <= y ==> sqrt(x) <= sqrt(y)
  }

  /** PathSurfer.getWaveWeight: heavier bullets and nearer waves weigh more. */
  function WaveWeight(w: Wave, sqrt: real -> real): (r: real)
    requires RootPositive(sqrt)
    ensures w.power > -0.2 <==> r > 0.0
  {
    var d := sqrt((4 + MaxInt(1, w.ticksUntilBreak)) as real);
    assert d > 0.0;
    (0.2 + w.power) / d
  }

  /** A wave that breaks no later than another of the same power weighs at least as much. */
  lemma NearerWavesWeighMore(a: Wave, b: Wave, sqrt: real -> real)
    requires RootPositive(sqrt) && RootMonotone(sqrt)
    requires a.power == b.power && a.power >= 0.0
    requires a.ticksUntilBreak <= b.ticksUntilBreak
    ensures WaveWeight(a, sqrt) >= WaveWeight(b, sqrt)
  {
    var da := sqrt((4 + MaxInt(1, a.ticksUntilBreak)) as real);
    var db := sqrt((4 + MaxInt(1, b.ticksUntilBreak)) as real);
    assert 0.0 < da <= db;
    QuotientAntitone(0.2 + a.power, da, db);
  }

  lemma QuotientAntitone(p: real, x: real, y: real)
    requires p > 0.0 && 0.0 < x <= y
    ensures p / x >= p / y
  {
    assert p / x - p / y == p * (y - x) / (x * y);
    MulNonNegative(p, y - x);
  }

  // ---------------------------------------------------------------------------
  // VisitRanges: the reachable GF range of each wave, keyed by wave id

  type VisitRanges = map<nat, Range>

  /** `inner` lies inside `outer`. */
  predicate Within(inner: Range, outer: Range) {
    outer.start <= inner.start && inner.end <= outer.end
  }

  /** Every range of `a` is still present in `b`, possibly grown. */
  predicate Widens(a: VisitRanges, b: VisitRanges) {
    forall k :: k in a ==> k in b && Within(a[k], b[k])
  }

  /** VisitRanges.add: merge into the wave's existing range, or insert a new one. */
  function Add(vr: VisitRanges, id: nat, gf: Range): (r: VisitRanges)
    ensures r.Keys == vr.Keys + {id}
    ensures Widens(vr, r) && Within(gf, r[id])
    ensures forall k :: k in vr && k != id ==> r[k] == vr[k]
    ensures id !in vr ==> r[id] == gf
  {
    if id in vr then vr[id := Merge(vr[id], gf)] else vr[id := gf]
  }

  /** The order-free reference for VisitRanges.addAll: every wave of either map,
      with the merge of both ranges where both have one. */
  function MergeAll(vr: VisitRanges, other: VisitRanges): (r: VisitRanges)
    ensures r.Keys == vr.Keys + other.Keys
    ensures Widens(vr, r) && Widens(other, r)
  {
    map k | k in vr.Keys + other.Keys ::
      if k in vr && k in other then Merge(vr[k], other[k])
      else if k in vr then vr[k] else other[k]
  }

  /** VisitRanges.addAll as executed: `add` on a copy of each entry of `other`,
      in the order the hash map happens to list its keys. */
  function AddEntries(vr: VisitRanges, other: VisitRanges, keys: seq<nat>): VisitRanges
    requires forall k :: k in keys ==> k in other
    decreases |keys|
  {
    if |keys| == 0 then vr
    else AddEntries(Add(vr, keys[0], Copy(other[keys[0]])), other, keys[1..])
  }

  /** Merging `other` only on the waves in `s`. */
  function MergeOn(vr: VisitRanges, other: VisitRanges, s: set<nat>): VisitRanges
    requires s <= other.Keys
  {
    map k | k in vr.Keys + s ::
      if k in vr && k in s then Merge(vr[k], other[k])
      else if k in vr then vr[k] else other[k]
  }

  /** One `add` of a wave not yet merged moves it into the merged set. */
  lemma MergeOnStep(vr: VisitRanges, other: VisitRanges, s: set<nat>, k0: nat)
    requires s <= other.Keys && k0 in other && k0 !in s
    ensures MergeOn(Add(vr, k0, other[k0]), other, s) == MergeOn(vr, other, s + {k0})
  {
    var a := MergeOn(Add(vr, k0, other[k0]), other, s);
    var b := MergeOn(vr, other, s + {k0});
    assert a.Keys == b.Keys;
    forall k | k in a.Keys ensures a[k] == b[k] {
      if k == k0 {
        assert a[k] == Add(vr, k0, other[k0])[k0];
      }
    }
  }

  /** The set of keys a listing names. */
  function KeySet(keys: seq<nat>): (r: set<nat>)
    ensures forall k :: k in r <==> k in keys
  {
    set k | k in keys
  }

  lemma {:induction false} AddEntriesMergesOn(vr: VisitRanges, other: VisitRanges, keys: seq<nat>)
    requires forall k :: k in keys ==> k in other
    requires forall i, j :: 0 <= i < j < |keys| ==> keys[i] != keys[j]
    ensures AddEntries(vr, other, keys) == MergeOn(vr, other, KeySet(keys))
    decreases |keys|, 1
  {
    if |keys| == 0 {
      assert MergeOn(vr, other, {}) == vr;
    } else {
      AddEntriesMergesOnFrom(vr, other, keys);
    }
  }

  lemma {:induction false} AddEntriesMergesOnFrom(vr: VisitRanges, other: VisitRanges, keys: seq<nat>)
    requires |keys| > 0
    requires forall k :: k in keys ==> k in other
    requires forall i, j :: 0 <= i < j < |keys| ==> keys[i] != keys[j]
    ensures AddEntries(vr, other, keys) == MergeOn(vr, other, KeySet(keys))
    decreases |keys|, 0
  {
    var k0 := keys[0];
    var rest := keys[1..];
    DistinctTail(keys);
    assert Copy(other[k0]) == other[k0];
    var vr1 := Add(vr, k0, other[k0]);
    assert AddEntries(vr, other, keys) == AddEntries(vr1, other, rest);
    AddEntriesMergesOn(vr1, other, rest);
    MergeOnStep(vr, other, KeySet(rest), k0);
  }

  /** The tail of a duplicate-free key list is duplicate-free and lacks the head. */
  lemma DistinctTail(keys: seq<nat>)
    requires |keys| > 0
    requires forall i, j :: 0 <= i < j < |keys| ==> keys[i] != keys[j]
    ensures forall i, j :: 0 <= i < j < |keys[1..]| ==> keys[1..][i] != keys[1..][j]
    ensures keys[0] !in KeySet(keys[1..])
    ensures KeySet(keys) == KeySet(keys[1..]) + {keys[0]}
  {
    var rest := keys[1..];
    forall i, j | 0 <= i < j < |rest| ensures rest[i] != rest[j] {
      assert rest[i] == keys[i + 1] && rest[j] == keys[j + 1];
    }
    forall j | 0 <= j < |rest| ensures rest[j] != keys[0] {
      assert rest[j] == keys[j + 1];
    }
    assert keys == [keys[0]] + rest;
  }

  /** VisitRanges.addAll: whatever order the hash map lists the entries in, the
      result is the order-free merge. */
  lemma AddAllIsOrderFree(vr: VisitRanges, other: VisitRanges, keys: seq<nat>)
    requires (set k | k in keys) == other.Keys
    requires forall i, j :: 0 <= i < j < |keys| ==> keys[i] != keys[j]
    ensures AddEntries(vr, other, keys) == MergeAll(vr, other)
  {
    AddEntriesMergesOn(vr, other, keys);
    assert KeySet(keys) == other.Keys;
    assert MergeOn(vr, other, other.Keys) == MergeAll(vr, other);
  }

  /** An approximate-danger oracle (DangerEstimator.getBestApproximateDanger's
      danger, at the distance the surfer asks for) that never reports a negative danger. */
  ghost predicate DangerNonNegative(approx: (Wave, Range) -> real) {
    forall w: Wave, g: Range :: approx(w, g) >= 0.0
  }

  /** VisitRanges.getMinDanger: an estimate of the danger still to come on
      the wave at `waveIndex`, nothing for a wave beyond the list or one with no
      reachable range. */
  function MinDanger(vr: VisitRanges, waves: seq<Wave>, waveIndex: nat,
                     approx: (Wave, Range) -> real, sqrt: real -> real): (r: real)
    requires RootPositive(sqrt)
    ensures waveIndex >= |waves| ==> r == 0.0
    ensures waveIndex < |waves| && waves[waveIndex].id !in vr ==> r == 0.0
    ensures DangerNonNegative(approx) && (waveIndex < |waves| ==> waves[waveIndex].power >= 0.0) ==> r >= 0.0
  {
    if waveIndex >= |waves| then 0.0
    else
      var w := waves[waveIndex];
      if w.id !in vr then 0.0
      else
        var weighted := Times(0.9 * WaveWeight(w, sqrt), approx(w, vr[w.id]));
        assert DangerNonNegative(approx) && w.power >= 0.0 ==> weighted >= 0.0 by {
          if DangerNonNegative(approx) && w.power >= 0.0 {
            MulNonNegative(0.9 * WaveWeight(w, sqrt), approx(w, vr[w.id]));
          }
        }
        weighted
  }

  predicate PowersNonNegative(waves: seq<Wave>) {
    forall k :: 0 <= k < |waves| ==> waves[k].power >= 0.0
  }

  /** Two consecutive waves break within three ticks of each other. */
  predicate Overlapping(waves: seq<Wave>) {
    || (|waves| >= 2 && waves[1].ticksUntilBreak - waves[0].ticksUntilBreak <= 3)
    || (|waves| >= 3 && waves[2].ticksUntilBreak - waves[1].ticksUntilBreak <= 3)
  }

  /** The A* heuristic of PathSurfer.surf: for a node at depth d, an estimate
      of the danger on the waves it has not reached yet. Overlapping
      waves switch pruning off. */
  function MinFutureDanger(waves: seq<Wave>, vr: VisitRanges,
                           approx: (Wave, Range) -> real, sqrt: real -> real): (r: seq<real>)
    requires RootPositive(sqrt)
    ensures |r| == MAX_DEPTH && r[2] == 0.0
    ensures Overlapping(waves) || |waves| <= 1 ==> r == [0.0, 0.0, 0.0]
    ensures DangerNonNegative(approx) && PowersNonNegative(waves) ==> r[0] >= r[1] >= r[2]
  {
    if Overlapping(waves) then [0.0, 0.0, 0.0]
    else
      var third := MinDanger(vr, waves, 2, approx, sqrt) * THIRD_WAVE_DISCOUNT;
      [third + MinDanger(vr, waves, 1, approx, sqrt), third, 0.0]
  }

  // ---------------------------------------------------------------------------
  // Extensions and duplicate detection

  /** Direction `i` of an extension that keeps repeating its last direction
      once it runs out (an empty extension repeats 0). */
  function PadAt(s: seq<int>, i: nat): int {
    if i < |s| then s[i] else if |s| == 0 then 0 else s[|s| - 1]
  }

  /** Two extensions that plan the same move on every tick once padded. */
  predicate SamePadded(a: seq<int>, b: seq<int>) {
    forall i: nat :: i < MaxInt(|a|, |b|) ==> PadAt(a, i) == PadAt(b, i)
  }

  /** A node of the search tree: its depth, its extension of the parent's
      plan, the anti-ram evade side, getDanger() and the danger multiplier as
      the simulation produced them, whether it continues the current plan,
      whether it is an approximate third-wave node, and its visit ranges. */
  datatype Node = Node(depth: nat, extension: seq<int>, evadeSide: int, danger: real,
                       multiplier: real, fromCurrentPlan: bool, approximate: bool,
                       visits: VisitRanges)

  /** The relation extensionMatch decides. */
  predicate Matches(child: Node, ext: seq<int>, side: int) {
    child.evadeSide == side && SamePadded(ext, child.extension)
  }

  /** Node.extensionMatch, the loop as written. */
  method ExtensionMatch(child: Node, ext: seq<int>, side: int) returns (r: bool)
    ensures r <==> Matches(child, ext, side)
  {
    if child.evadeSide != side {
      return false;
    }
    var pathDirection := 0;
    var childDirection := 0;
    var n := MaxInt(|ext|, |child.extension|);
    var i := 0;
    while i < n
      invariant 0 <= i <= n
      invariant pathDirection == (if i == 0 then 0 else PadAt(ext, i - 1))
      invariant childDirection == (if i == 0 then 0 else PadAt(child.extension, i - 1))
      invariant forall k: nat :: k < i ==> PadAt(ext, k) == PadAt(child.extension, k)
    {
      if i < |ext| {
        pathDirection := ext[i];
      }
      if i < |child.extension| {
        childDirection := child.extension[i];
      }
      assert pathDirection == PadAt(ext, i) && childDirection == PadAt(child.extension, i);
      if pathDirection != childDirection {
        return false;
      }
      i := i + 1;
    }
    return true;
  }

  /** Node.extensionInChildren. */
  predicate InChildren(cs: seq<Node>, ext: seq<int>, side: int) {
    exists i :: 0 <= i < |cs| && Matches(cs[i], ext, side)
  }

  /** Two children that would be duplicates of each other. */
  predicate Same(a: Node, b: Node) {
    Matches(a, b.extension, b.evadeSide)
  }

  lemma SameSymmetric(a: Node, b: Node)
    ensures Same(a, b) <==> Same(b, a)
  {
    assert MaxInt(|a.extension|, |b.extension|) == MaxInt(|b.extension|, |a.extension|);
  }

  /** No two children plan the same moves on the same evade side. */
  predicate Distinct(cs: seq<Node>) {
    forall i, j :: 0 <= i < |cs| && 0 <= j < |cs| && i != j ==> !Same(cs[i], cs[j])
  }

  // ---------------------------------------------------------------------------
  // The children TreeSet

  /** The key compareTo orders by: danger, with a bonus for the current plan. */
  function Key(n: Node): real {
    n.danger - (if n.fromCurrentPlan then 100.0 else 0.0)
  }

  /** Node.compareTo: (int) Math.signum of the key difference. */
  function CompareTo(a: Node, b: Node): (r: int)
    ensures r == 0 <==> Key(a) == Key(b)
    ensures r < 0 <==> Key(a) < Key(b)
  {
    Truncate(Signum(a.danger - (if a.fromCurrentPlan then 100.0 else 0.0) - b.danger
                    + (if b.fromCurrentPlan then 100.0 else 0.0)))
  }

  lemma CompareToAntisymmetric(a: Node, b: Node)
    ensures CompareTo(a, b) == -CompareTo(b, a)
  {
  }

  predicate Sorted(cs: seq<Node>) {
    forall i, j :: 0 <= i < j < |cs| ==> Key(cs[i]) < Key(cs[j])
  }

  predicate HasKey(cs: seq<Node>, k: real) {
    exists i :: 0 <= i < |cs| && Key(cs[i]) == k
  }

  /** TreeSet.add: insert in key order; a node whose key equals a present one
      is silently dropped. */
  function Insert(cs: seq<Node>, c: Node): (r: seq<Node>)
    ensures forall x :: x in r ==> x in cs || x == c
    ensures |r| <= |cs| + 1
    decreases |cs|
  {
    if |cs| == 0 then [c]
    else if CompareTo(c, cs[0]) < 0 then [c] + cs
    else if CompareTo(c, cs[0]) == 0 then cs
    else [cs[0]] + Insert(cs[1..], c)
  }

  lemma HasKeyTail(cs: seq<Node>, k: real)
    requires |cs| > 0 && Key(cs[0]) != k
    ensures HasKey(cs, k) <==> HasKey(cs[1..], k)
  {
    if HasKey(cs, k) {
      var i :| 0 <= i < |cs| && Key(cs[i]) == k;
      assert Key(cs[1..][i - 1]) == k;
    }
    if HasKey(cs[1..], k) {
      var i :| 0 <= i < |cs[1..]| && Key(cs[1..][i]) == k;
      assert Key(cs[i + 1]) == k;
    }
  }

  lemma SortedTail(cs: seq<Node>, x: Node)
    requires Sorted(cs) && |cs| > 0 && x in multiset(cs[1..])
    ensures Key(cs[0]) < Key(x)
  {
    var i :| 0 <= i < |cs[1..]| && cs[1..][i] == x;
    assert x == cs[i + 1];
  }

  /** Inserting into a key-ordered set keeps it ordered... */
  lemma {:induction false} InsertSorted(cs: seq<Node>, c: Node)
    requires Sorted(cs)
    ensures Sorted(Insert(cs, c))
    decreases |cs|
  {
    if |cs| == 0 {
    } else if CompareTo(c, cs[0]) < 0 {
      forall x | x in multiset(cs) ensures Key(c) < Key(x) {
        if x != cs[0] {
          assert x in multiset(cs[1..]) by { assert cs == [cs[0]] + cs[1..]; }
          SortedTail(cs, x);
        }
      }
      SortedCons(c, cs);
    } else if CompareTo(c, cs[0]) == 0 {
    } else {
      var rest := Insert(cs[1..], c);
      InsertSorted(cs[1..], c);
      assert cs == [cs[0]] + cs[1..];
      forall x | x in multiset(rest) ensures Key(cs[0]) < Key(x) {
        if x != c {
          assert x in rest;
          assert x in multiset(cs[1..]);
          SortedTail(cs, x);
        }
      }
      SortedCons(cs[0], rest);
    }
  }

  /** ...drops a node whose key is taken... */
  lemma {:induction false} InsertDropsTakenKey(cs: seq<Node>, c: Node)
    requires Sorted(cs) && HasKey(cs, Key(c))
    ensures Insert(cs, c) == cs
    decreases |cs|
  {
    if CompareTo(c, cs[0]) > 0 {
      HasKeyTail(cs, Key(c));
      InsertDropsTakenKey(cs[1..], c);
      assert cs == [cs[0]] + cs[1..];
    }
  }

  /** ...and otherwise adds exactly that node. */
  lemma {:induction false} InsertAddsFreshKey(cs: seq<Node>, c: Node)
    requires !HasKey(cs, Key(c))
    ensures multiset(Insert(cs, c)) == multiset(cs) + multiset{c}
    decreases |cs|
  {
    if |cs| > 0 && CompareTo(c, cs[0]) > 0 {
      HasKeyTail(cs, Key(c));
      InsertAddsFreshKey(cs[1..], c);
      assert cs == [cs[0]] + cs[1..];
    }
  }

  lemma SortedCons(h: Node, t: seq<Node>)
    requires Sorted(t) && forall x :: x in multiset(t) ==> Key(h) < Key(x)
    ensures Sorted([h] + t)
  {
    forall i, j | 0 <= i < j < |[h] + t| ensures Key(([h] + t)[i]) < Key(([h] + t)[j]) {
      if i == 0 {
        assert ([h] + t)[j] == t[j - 1];
        assert t[j - 1] in multiset(t);
      } else {
        assert ([h] + t)[i] == t[i - 1] && ([h] + t)[j] == t[j - 1];
      }
    }
  }

  /** Inserting a node that duplicates no child keeps the children distinct. */
  lemma {:induction false} InsertDistinct(cs: seq<Node>, c: Node)
    requires Distinct(cs)
    requires forall i :: 0 <= i < |cs| ==> !Same(cs[i], c)
    ensures Distinct(Insert(cs, c))
    decreases |cs|
  {
    forall i | 0 <= i < |cs| ensures !Same(c, cs[i]) {
      SameSymmetric(c, cs[i]);
    }
    var r := Insert(cs, c);
    if |cs| == 0 {
    } else if CompareTo(c, cs[0]) < 0 {
      forall i, j | 0 <= i < |r| && 0 <= j < |r| && i != j ensures !Same(r[i], r[j]) {
        if i > 0 && j > 0 {
          assert r[i] == cs[i - 1] && r[j] == cs[j - 1];
        } else if i == 0 {
          assert r[j] == cs[j - 1];
        } else {
          assert r[i] == cs[i - 1];
        }
      }
    } else if CompareTo(c, cs[0]) > 0 {
      var tail := cs[1..];
      assert Distinct(tail) by {
        forall i, j | 0 <= i < |tail| && 0 <= j < |tail| && i != j ensures !Same(tail[i], tail[j]) {
          assert tail[i] == cs[i + 1] && tail[j] == cs[j + 1];
        }
      }
      assert forall i :: 0 <= i < |tail| ==> !Same(tail[i], c) by {
        forall i | 0 <= i < |tail| ensures !Same(tail[i], c) {
          assert tail[i] == cs[i + 1];
        }
      }
      InsertDistinct(tail, c);
      var rest := Insert(tail, c);
      assert r == [cs[0]] + rest;
      forall x | x in rest ensures !Same(cs[0], x) && !Same(x, cs[0]) {
        SameSymmetric(x, cs[0]);
        if x != c {
          var k :| 0 <= k < |tail| && tail[k] == x;
          assert x == cs[k + 1];
        }
      }
      forall i, j | 0 <= i < |r| && 0 <= j < |r| && i != j ensures !Same(r[i], r[j]) {
        if i > 0 && j > 0 {
          assert r[i] == rest[i - 1] && r[j] == rest[j - 1];
        } else if i == 0 {
          assert r[j] == rest[j - 1];
          assert r[j] in rest;
        } else {
          assert r[i] == rest[i - 1];
          assert r[i] in rest;
        }
      }
    }
  }

  // ---------------------------------------------------------------------------
  // Growing the tree

  /** What `new Node(parent, extension, antiRamEvadeSide, surfWave)` learns from
      its Simulation: the simulated extension (the requested one, canonicalised
      and extended until the wave passes), getDanger(), the danger multiplier and
      the visit ranges. */
  datatype Sim = Sim(extension: seq<int>, danger: real, multiplier: real, visits: VisitRanges)

  /** The simulation oracle of one parent node, by requested extension and evade side. */
  type Simulate = (seq<int>, int) -> Sim

  function ChildOf(parent: Node, s: Sim, side: int, fromCurrentPlan: bool): Node {
    Node(parent.depth + 1, s.extension, side, s.danger, s.multiplier, fromCurrentPlan, false, s.visits)
  }

  /** Node.addChild: simulate the requested extension unless it duplicates a
      child, and keep the result unless its simulated extension does. Returns
      the new children and the node made (which the TreeSet may still have
      dropped for an equal key). */
  function AddChild(parent: Node, cs: seq<Node>, ext: Option<seq<int>>, side: int,
                    isCurrent: bool, sim: Simulate): (r: (seq<Node>, Option<Node>))
    requires Sorted(cs) && Distinct(cs)
    ensures Sorted(r.0) && Distinct(r.0)
    ensures r.1.Some? <==> ext.Some? && !InChildren(cs, ext.value, side)
                            && !InChildren(cs, sim(ext.value, side).extension, side)
    ensures r.1.Some? ==> r.1.value == ChildOf(parent, sim(ext.value, side), side, isCurrent)
    ensures r.1.None? ==> r.0 == cs
    ensures |r.0| <= |cs| + 1
    ensures forall x :: x in cs ==> x in r.0
    ensures forall x :: x in r.0 ==> x in cs || Some(x) == r.1
  {
    if ext.Some? && !InChildren(cs, ext.value, side) then
      var child := ChildOf(parent, sim(ext.value, side), side, isCurrent);
      if !InChildren(cs, child.extension, side) then
        var r := Insert(cs, child);
        assert Sorted(r) && Distinct(r) && forall x :: x in cs ==> x in r by {
          InsertSorted(cs, child);
          InsertDistinct(cs, child);
          if HasKey(cs, Key(child)) {
            InsertDropsTakenKey(cs, child);
          } else {
            InsertAddsFreshKey(cs, child);
            assert forall x :: x in cs ==> x in multiset(r);
          }
        }
        (r, Some(child))
      else (cs, None)
    else (cs, None)
  }

  /** `new Node(parent, surfWave)`, the approximate third-wave child: it reuses
      the parent's Simulation, so it shares the parent's extension, evade side,
      plan membership and multiplier; its danger and visit range come from the
      approximate danger search. */
  function ApproximateChild(parent: Node, danger: real, visits: VisitRanges): Node {
    Node(parent.depth + 1, parent.extension, parent.evadeSide, danger, parent.multiplier,
         parent.fromCurrentPlan, true, visits)
  }

  /** A precise child of `node` made by AddChild. */
  predicate PreciseChildOf(c: Node, node: Node) {
    c.depth == node.depth + 1 && !c.approximate
  }

  /** A children set as the TreeSet keeps it: ordered, duplicate-free, and
      every member a precise child of `node`. */
  predicate Brood(cs: seq<Node>, node: Node) {
    Sorted(cs) && Distinct(cs) && forall c :: c in cs ==> PreciseChildOf(c, node)
  }

  /** addChild keeps a children set a brood and grows it by at most one. */
  lemma AddChildKeepsBrood(node: Node, cs: seq<Node>, ext: Option<seq<int>>, side: int,
                           isCurrent: bool, sim: Simulate)
    requires Brood(cs, node)
    ensures Brood(AddChild(node, cs, ext, side, isCurrent, sim).0, node)
    ensures |AddChild(node, cs, ext, side, isCurrent, sim).0| <= |cs| + 1
  {
  }

  /** addChild on each requested (extension, evade side) in turn, none of them
      from the current plan. */
  function AddRequests(node: Node, cs: seq<Node>, requests: seq<(seq<int>, int)>, sim: Simulate): (r: seq<Node>)
    requires Sorted(cs) && Distinct(cs)
    ensures Sorted(r) && Distinct(r) && |r| <= |cs| + |requests|
    ensures forall c :: c in r ==> c in cs || (PreciseChildOf(c, node) && !c.fromCurrentPlan)
    decreases |requests|
  {
    if |requests| == 0 then cs
    else
      var next := AddChild(node, cs, Some(requests[0].0), requests[0].1, false, sim).0;
      AddRequests(node, next, requests[1..], sim)
  }

  /** Against a rambot: halt, forward and backward, each on both evade sides. */
  const ANTI_RAM_REQUESTS: seq<(seq<int>, int)> :=
    [(Paths.HALT_PATH, 1), (Paths.HALT_PATH, -1), (Paths.FORWARD_PATH, 1),
     (Paths.FORWARD_PATH, -1), (Paths.BACKWARD_PATH, 1), (Paths.BACKWARD_PATH, -1)]

  /** The usual children: the current plan's continuation (when this node lies
      on the current plan), forward, backward, halt, and when a wave is left to
      surf two candidate paths proposed from the forward and backward children
      (or from the current-plan child when one of those was a duplicate).
      `candidate` is getCandidateExtension with its random target velocity.
      None is the NullPointerException of calling it on a null child. */
  function SurfChildren(node: Node, wave: Option<Wave>, planExt: Option<seq<int>>, sim: Simulate,
                        candidate: Node -> Option<seq<int>>): (r: Option<seq<Node>>)
    ensures r.Some? ==> Brood(r.value, node) && |r.value| <= 6
  {
    var cur := if node.fromCurrentPlan && planExt.Some? then AddChild(node, [], planExt, 1, true, sim)
               else ([], None);
    AddChildKeepsBrood(node, [], planExt, 1, true, sim);
    var fwd := AddChild(node, cur.0, Some(Paths.FORWARD_PATH), 1, false, sim);
    AddChildKeepsBrood(node, cur.0, Some(Paths.FORWARD_PATH), 1, false, sim);
    var forward := if fwd.1.None? then cur.1 else fwd.1;
    var bwd := AddChild(node, fwd.0, Some(Paths.BACKWARD_PATH), 1, false, sim);
    AddChildKeepsBrood(node, fwd.0, Some(Paths.BACKWARD_PATH), 1, false, sim);
    var backward := if bwd.1.None? then cur.1 else bwd.1;
    var halt := AddChild(node, bwd.0, Some(Paths.HALT_PATH), 1, false, sim);
    AddChildKeepsBrood(node, bwd.0, Some(Paths.HALT_PATH), 1, false, sim);
    if wave.None? then Some(halt.0)
    else if forward.None? then None
    else
      var fromForward := AddChild(node, halt.0, candidate(forward.value), 1, false, sim);
      AddChildKeepsBrood(node, halt.0, candidate(forward.value), 1, false, sim);
      if backward.None? then None
      else
        AddChildKeepsBrood(node, fromForward.0, candidate(backward.value), 1, false, sim);
        Some(AddChild(node, fromForward.0, candidate(backward.value), 1, false, sim).0)
  }

  /** Node.addChildren. `wave` is the next wave to surf (s.getSurfWave());
      `planExt` is the current plan's extension at this depth when the plan is
      that long; `approxDanger` and `approxVisits` are what the approximate
      child would learn. None is a NullPointerException. */
  function AddChildren(node: Node, wave: Option<Wave>, antiRam: bool, planExt: Option<seq<int>>,
                       sim: Simulate, approxDanger: real, approxVisits: VisitRanges,
                       candidate: Node -> Option<seq<int>>): (r: Option<seq<Node>>)
    ensures node.depth == MAX_DEPTH ==> r == Some([])
    ensures node.depth > 0 && wave.None? ==> r == Some([])
    ensures node.depth == 2 && wave.Some? ==>
              && r.Some? && |r.value| <= 1
              && (|r.value| == 1 <==> !wave.value.isVirtual)
              && forall c :: c in r.value ==> c.approximate && c.depth == MAX_DEPTH
    ensures node.depth < 2 ==> r.Some? ==> forall c :: c in r.value ==> PreciseChildOf(c, node)
    ensures r.Some? ==> Sorted(r.value) && Distinct(r.value) && |r.value| <= 6
  {
    if node.depth == MAX_DEPTH then Some([])
    else if wave.None? && node.depth > 0 then Some([])
    else if node.depth == 2 then
      if wave.value.isVirtual then Some([]) else Some([ApproximateChild(node, approxDanger, approxVisits)])
    else if antiRam then Some(AddRequests(node, [], ANTI_RAM_REQUESTS, sim))
    else SurfChildren(node, wave, planExt, sim, candidate)
  }

  /** The first simulated direction is the requested one, or the halt the
      Simulation stores instead of a reversal at speed (Simulation.simulate). */
  predicate LeadKept(ext: seq<int>, simulated: seq<int>, v: real)
    requires |ext| > 0 && Paths.IsDirection(ext[0])
  {
    |simulated| > 0 && (simulated[0] == ext[0] || simulated[0] == Paths.StoredStep(v, ext[0]))
  }

  /** A simulation oracle for a parent whose end velocity is `v`. */
  ghost predicate KeepsLead(sim: Simulate, v: real) {
    forall ext: seq<int>, side: int ::
      |ext| > 0 && Paths.IsDirection(ext[0]) ==> LeadKept(ext, sim(ext, side).extension, v)
  }

  /** A forward and a backward simulation never start with the same direction. */
  lemma ForwardBackwardDiffer(sim: Simulate, v: real)
    requires KeepsLead(sim, v)
    ensures var f := sim(Paths.FORWARD_PATH, 1).extension;
            var b := sim(Paths.BACKWARD_PATH, 1).extension;
            |f| > 0 && |b| > 0 && f[0] != b[0] && f[0] != -1
  {
    assert LeadKept(Paths.FORWARD_PATH, sim(Paths.FORWARD_PATH, 1).extension, v);
    assert LeadKept(Paths.BACKWARD_PATH, sim(Paths.BACKWARD_PATH, 1).extension, v);
  }

  /** addChildren never calls getCandidateExtension on a null child: when the
      current plan's child is missing, forward and backward are both new. */
  lemma SurfChildrenNeverNull(node: Node, wave: Option<Wave>, planExt: Option<seq<int>>, sim: Simulate,
                              candidate: Node -> Option<seq<int>>, v: real)
    requires KeepsLead(sim, v)
    ensures SurfChildren(node, wave, planExt, sim, candidate).Some?
  {
    var cur := if node.fromCurrentPlan && planExt.Some? then AddChild(node, [], planExt, 1, true, sim)
               else ([], None);
    if cur.1.None? {
      var fwd := AddChild(node, [], Some(Paths.FORWARD_PATH), 1, false, sim);
      assert fwd.1.Some?;
      var f := fwd.1.value;
      assert fwd.0 == [f];
      var b := sim(Paths.BACKWARD_PATH, 1).extension;
      ForwardBackwardDiffer(sim, v);
      assert !Matches(f, Paths.BACKWARD_PATH, 1) by {
        assert PadAt(Paths.BACKWARD_PATH, 0) != PadAt(f.extension, 0);
      }
      assert !Matches(f, b, 1) by {
        assert PadAt(b, 0) != PadAt(f.extension, 0);
      }
      assert !InChildren([f], Paths.BACKWARD_PATH, 1);
      assert !InChildren([f], b, 1);
    }
  }

  /** On the current plan, the plan's continuation is always among the
      children, and it is the only child marked as coming from the plan. */
  lemma CurrentPlanReconsidered(node: Node, wave: Option<Wave>, planExt: Option<seq<int>>, sim: Simulate,
                                candidate: Node -> Option<seq<int>>)
    requires node.fromCurrentPlan && planExt.Some?
    ensures var r := SurfChildren(node, wave, planExt, sim, candidate);
            var current := ChildOf(node, sim(planExt.value, 1), 1, true);
            r.Some? ==> current in r.value && forall c :: c in r.value && c.fromCurrentPlan ==> c == current
  {
    var current := ChildOf(node, sim(planExt.value, 1), 1, true);
    var cur := AddChild(node, [], planExt, 1, true, sim);
    assert cur.0 == [current];
    assert OnlyCurrent(cur.0, current);
    var fwd := AddChild(node, cur.0, Some(Paths.FORWARD_PATH), 1, false, sim);
    AddChildKeepsOnlyCurrent(node, cur.0, Some(Paths.FORWARD_PATH), sim, current);
    var forward := if fwd.1.None? then cur.1 else fwd.1;
    var bwd := AddChild(node, fwd.0, Some(Paths.BACKWARD_PATH), 1, false, sim);
    AddChildKeepsOnlyCurrent(node, fwd.0, Some(Paths.BACKWARD_PATH), sim, current);
    var backward := if bwd.1.None? then cur.1 else bwd.1;
    var halt := AddChild(node, bwd.0, Some(Paths.HALT_PATH), 1, false, sim);
    AddChildKeepsOnlyCurrent(node, bwd.0, Some(Paths.HALT_PATH), sim, current);
    if wave.Some? && forward.Some? {
      var fromForward := AddChild(node, halt.0, candidate(forward.value), 1, false, sim);
      AddChildKeepsOnlyCurrent(node, halt.0, candidate(forward.value), sim, current);
      if backward.Some? {
        AddChildKeepsOnlyCurrent(node, fromForward.0, candidate(backward.value), sim, current);
      }
    }
  }

  /** `current` is among the children and is the only one from the current plan. */
  predicate OnlyCurrent(cs: seq<Node>, current: Node) {
    current in cs && forall c :: c in cs && c.fromCurrentPlan ==> c == current
  }

  /** A child added for anything but the current plan keeps OnlyCurrent. */
  lemma AddChildKeepsOnlyCurrent(parent: Node, cs: seq<Node>, ext: Option<seq<int>>, sim: Simulate, current: Node)
    requires Sorted(cs) && Distinct(cs) && OnlyCurrent(cs, current)
    ensures OnlyCurrent(AddChild(parent, cs, ext, 1, false, sim).0, current)
  {
  }

  // ---------------------------------------------------------------------------
  // Search

  /** The search tree as addChildren grows it: each node with its children in
      TreeSet order. */
  datatype Tree = Tree(node: Node, children: seq<Tree>)

  /** Nodes with children sit above the last level, so the heuristic has an
      entry for them. */
  predicate Searchable(t: Tree) {
    && (|t.children| > 0 ==> t.node.depth < MAX_DEPTH)
    && forall i :: 0 <= i < |t.children| ==> Searchable(t.children[i])
  }

  /** `n` is a leaf of the tree `t`. */
  predicate IsLeafOf(n: Node, t: Tree) {
    || (|t.children| == 0 && n == t.node)
    || exists i :: 0 <= i < |t.children| && IsLeafOf(n, t.children[i])
  }

  /** `x` is strictly below the bound; None is +infinity. */
  predicate Below(x: real, bound: Option<real>) {
    bound.None? || x < bound.value
  }

  /** A child whose danger plus the heuristic for the waves still to come
      exceeds the best danger found so far. */
  predicate Pruned(child: Node, future: real, bound: Option<real>) {
    bound.Some? && child.danger + Times(future, child.multiplier) > bound.value
  }

  /** Node.search: a childless node is its own answer; otherwise the best leaf
      strictly below the bound found among the children in order, stopping at
      the first child the A* test prunes. None is a null result. */
  function Search(t: Tree, bound: Option<real>, minFuture: seq<real>): (r: Option<Node>)
    requires Searchable(t) && |minFuture| == MAX_DEPTH
    ensures |t.children| == 0 ==> r == Some(t.node)
    ensures r.Some? ==> IsLeafOf(r.value, t)
    ensures |t.children| > 0 && r.Some? ==> Below(r.value.danger, bound)
    ensures bound.None? ==> r.Some?
    decreases t, |t.children| + 1
  {
    if |t.children| == 0 then Some(t.node)
    else SearchFrom(t, 0, bound, None, minFuture)
  }

  /** The loop of Node.search from child `i` on, with the best danger so far
      `bound` and the best leaf so far `best`. */
  function SearchFrom(t: Tree, i: nat, bound: Option<real>, best: Option<Node>, minFuture: seq<real>): (r: Option<Node>)
    requires Searchable(t) && |minFuture| == MAX_DEPTH && i <= |t.children|
    requires |t.children| > 0
    ensures r.Some? ==> r == best || (Below(r.value.danger, bound) && IsLeafOf(r.value, t))
    ensures best.Some? ==> r.Some?
    ensures bound.None? && i < |t.children| ==> r.Some?
    ensures i < |t.children| && Pruned(t.children[i].node, minFuture[t.node.depth], bound) ==> r == best
    decreases t, |t.children| - i
  {
    if i == |t.children| then best
    else
      var child := t.children[i];
      if Pruned(child.node, minFuture[t.node.depth], bound) then best
      else
        var d := Search(child, bound, minFuture);
        if d.Some? && Below(d.value.danger, bound) then
          var r := SearchFrom(t, i + 1, Some(d.value.danger), d, minFuture);
          assert r.Some? ==> IsLeafOf(r.value, t) by {
            if r.Some? && r == d {
              assert IsLeafOf(d.value, t.children[i]);
            }
          }
          r
        else SearchFrom(t, i + 1, bound, best, minFuture)
  }

  // ---------------------------------------------------------------------------
  // Plans and visit ranges across turns

  /** The per-tick directions a plan still holds, node after node. */
  function Steps(plan: seq<Node>): seq<int> {
    if |plan| == 0 then [] else plan[0].extension + Steps(plan[1..])
  }

  predicate NoEmptyNode(plan: seq<Node>) {
    forall k :: 0 <= k < |plan| ==> |plan[k].extension| > 0
  }

  /** The start of PathSurfer.surf: last turn's plan loses the tick just
      executed, and its first node goes once that node has no ticks left.
      The first node's extension must be non-empty (List.remove(0) throws otherwise). */
  function Consume(plan: seq<Node>): (r: seq<Node>)
    requires |plan| > 0 ==> |plan[0].extension| > 0
    ensures |plan| == 0 ==> r == []
    ensures |plan| > 0 ==> Steps(r) == Steps(plan)[1..]
    ensures NoEmptyNode(plan) ==> NoEmptyNode(r)
    ensures |plan| > 0 && |plan[0].extension| == 1 ==> r == plan[1..]
    ensures |plan| > 0 && |plan[0].extension| > 1 ==> |r| == |plan| && r[1..] == plan[1..]
  {
    if |plan| == 0 then []
    else
      var rest := plan[0].extension[1..];
      if |rest| == 0 then plan[1..]
      else
        var r := [plan[0].(extension := rest)] + plan[1..];
        assert r[1..] == plan[1..];
        r
  }

  /** Node.updateVisitRange: fold the children's visit ranges into `vr`, and
      with `full` the ranges of all their descendants as well. */
  function UpdateVisitRange(ts: seq<Tree>, vr: VisitRanges, full: bool): (r: VisitRanges)
    ensures Widens(vr, r)
    ensures forall i :: 0 <= i < |ts| ==> Widens(ts[i].node.visits, r)
    decreases ts
  {
    if |ts| == 0 then vr
    else
      var merged := MergeAll(vr, ts[0].node.visits);
      var below := if full then UpdateVisitRange(ts[0].children, merged, full) else merged;
      var r := UpdateVisitRange(ts[1..], below, full);
      WidensTransitive(vr, merged, below);
      WidensTransitive(vr, below, r);
      WidensTransitive(ts[0].node.visits, merged, below);
      WidensTransitive(ts[0].node.visits, below, r);
      assert forall i :: 1 <= i < |ts| ==> ts[i] == ts[1..][i - 1];
      r
  }

  lemma WidensTransitive(a: VisitRanges, b: VisitRanges, c: VisitRanges)
    requires Widens(a, b) && Widens(b, c)
    ensures Widens(a, c)
  {
  }
}
