/** What the flat traversal is: every node of the tree exactly once, under its path from the root, in
    pre-order or post-order; and what one pass over it visits. */
module WalkOrder {
  import opened Options
  import opened Walk

  // ----- nodes by the positions on the way to them -----

  /** The way to a node: its position among its siblings, on every level from the root down. */
  type Way = seq<nat>

  function Count(e: Entries): nat { if e.NoEntries? then 0 else 1 + Count(e.rest) }

  function Nth(e: Entries, i: nat): (r: Entries)
    requires i < Count(e)
    ensures r.Entry?
  {
    if i == 0 then e else Nth(e.rest, i - 1)
  }

  function NodeAt(node: Node, way: Way): Option<Node>
    decreases |way|
  {
    if way == [] then Some(node)
    else if node.Dir? && node.opens && way[0] < Count(node.entries) then NodeAt(Nth(node.entries, way[0]).node, way[1..])
    else None
  }

  /** The names on the way to a node, behind slashes. */
  function PathAt(path: string, node: Node, way: Way): string
    requires NodeAt(node, way).Some?
    decreases |way|
  {
    if way == [] then path
    else
      var e := Nth(node.entries, way[0]);
      PathAt(path + "/" + e.name, e.node, way[1..])
  }

  /** A directory that cannot be opened, or whose listing breaks off, has a broken place where its first or
      its next entry would be. */
  predicate BreaksAt(node: Node, way: Way)
    decreases |way|
  {
    way != [] && node.Dir? &&
    if !node.opens then way == [0]
    else if way[0] < Count(node.entries) then BreaksAt(Nth(node.entries, way[0]).node, way[1..])
    else !node.ends && way == [Count(node.entries)]
  }

  /** A node comes before its descendants in pre-order and after them in post-order; siblings, and all that
      lies below them, come in the order of the directory. */
  predicate Before(a: Way, b: Way, post: bool) {
    if a == [] then !post && b != []
    else if b == [] then post
    else a[0] < b[0] || (a[0] == b[0] && Before(a[1..], b[1..], post))
  }

  // ----- the traversal, by ways -----

  function Under(i: nat, ways: seq<Way>): (r: seq<Way>)
    ensures |r| == |ways| && forall k :: 0 <= k < |ways| ==> r[k] == [i] + ways[k]
  {
    seq(|ways|, k requires 0 <= k < |ways| => [i] + ways[k])
  }

  /** The ways to the places of a traversal. */
  function Ways(node: Node, post: bool): seq<Way>
    decreases node, 1
  {
    var kids := if node.Dir? then InsideWays(node, post) else [];
    if post then kids + [[]] else [[]] + kids
  }

  function InsideWays(node: Node, post: bool): seq<Way>
    requires node.Dir?
    decreases node, 0
  {
    if node.opens then AllWays(node.entries, 0, post) + (if node.ends then [] else [[Count(node.entries)]]) else [[0]]
  }

  function AllWays(e: Entries, i: nat, post: bool): seq<Way>
    decreases e, 0
  {
    match e
    case NoEntries => []
    case Entry(_, node, rest) => Under(i, Ways(node, post)) + AllWays(rest, i + 1, post)
  }

  /** The place at the end of a way. */
  predicate IsPlace(p: Place, path: string, node: Node, level: nat, way: Way) {
    match NodeAt(node, way)
    case Some(n) => if n.Missing? then p.Broken? else p.See? && p.visit == Visit(PathAt(path, node, way), n.Dir?, level + |way|)
    case None => p.Broken? && BreaksAt(node, way)
  }

  predicate Places(f: seq<Place>, path: string, node: Node, level: nat, ways: seq<Way>) {
    |f| == |ways| && forall k :: 0 <= k < |f| ==> IsPlace(f[k], path, node, level, ways[k])
  }

  /** The same for the entries of a directory from the `i`th on. */
  predicate IsEntryPlace(p: Place, path: string, e: Entries, i: nat, level: nat, way: Way) {
    && way != [] && i <= way[0] < i + Count(e)
    && var x := Nth(e, way[0] - i);
    IsPlace(p, path + "/" + x.name, x.node, level, way[1..])
  }

  lemma {:induction false} FlatPlaces(path: string, node: Node, level: nat, post: bool)
    ensures Places(Flat(path, node, level, post), path, node, level, Ways(node, post))
    decreases node, 1
  {
    hide IsPlace;
    RootPlace(path, node, level);
    if node.Dir? {
      InsidePlaces(path, node, level, post);
    } else if node.Missing? {
      NoKids(node, post);
    }
  }

  lemma NoKids(node: Node, post: bool)
    requires !node.Dir?
    ensures Ways(node, post) == [[]]
  {
  }

  lemma RootPlace(path: string, node: Node, level: nat)
    ensures node.Missing? ==> IsPlace(Broken, path, node, level, [])
    ensures !node.Missing? ==> forall below :: IsPlace(See(VisitOf(path, node, level), below), path, node, level, [])
  {
  }

  lemma {:induction false} InsidePlaces(path: string, node: Node, level: nat, post: bool)
    requires node.Dir?
    ensures Places(Inside(path, node, level, post), path, node, level, InsideWays(node, post))
    decreases node, 0
  {
    if node.opens {
      EntryPlaces(path, node.entries, 0, level + 1, post);
      var f, ways := FlatAll(path, node.entries, level + 1, post), AllWays(node.entries, 0, post);
      forall k | 0 <= k < |f| ensures IsPlace(f[k], path, node, level, ways[k]) {
        EntryIsPlace(f[k], path, node, level, ways[k]);
      }
    }
  }

  lemma EntryIsPlace(p: Place, path: string, node: Node, level: nat, way: Way)
    requires node.Dir? && node.opens && IsEntryPlace(p, path, node.entries, 0, level + 1, way)
    ensures IsPlace(p, path, node, level, way)
  {
    var x := Nth(node.entries, way[0]);
    assert NodeAt(node, way) == NodeAt(x.node, way[1..]);
  }

  lemma {:induction false} EntryPlaces(path: string, e: Entries, i: nat, level: nat, post: bool)
    ensures var f, ways := FlatAll(path, e, level, post), AllWays(e, i, post);
      |f| == |ways| && forall k :: 0 <= k < |f| ==> IsEntryPlace(f[k], path, e, i, level, ways[k])
    decreases e, 0
  {
    hide IsPlace;
    if e.Entry? {
      var first, ways := Flat(Child(path, e.name), e.node, level, post), Ways(e.node, post);
      FlatPlaces(Child(path, e.name), e.node, level, post);
      EntryPlaces(path, e.rest, i + 1, level, post);
      var rest, restWays := FlatAll(path, e.rest, level, post), AllWays(e.rest, i + 1, post);
      var all, allWays := first + rest, Under(i, ways) + restWays;
      forall k | 0 <= k < |all| ensures IsEntryPlace(all[k], path, e, i, level, allWays[k]) {
        if k < |first| {
          assert allWays[k] == [i] + ways[k] && allWays[k][1..] == ways[k];
        } else {
          assert allWays[k] == restWays[k - |first|] && all[k] == rest[k - |first|];
          NthRest(e, allWays[k][0] - i);
        }
      }
    }
  }

  lemma NthRest(e: Entries, i: nat)
    requires e.Entry? && 0 < i < Count(e)
    ensures Nth(e, i) == Nth(e.rest, i - 1)
  {
  }

  // ----- the order -----

  predicate Sorted(ways: seq<Way>, post: bool) {
    forall i, j :: 0 <= i < j < |ways| ==> Before(ways[i], ways[j], post)
  }

  lemma {:induction false} WaysSorted(node: Node, post: bool)
    ensures Sorted(Ways(node, post), post)
    decreases node, 1
  {
    if node.Dir? {
      var kids := InsideWays(node, post);
      InsideSorted(node, post);
    }
  }

  lemma {:induction false} InsideSorted(node: Node, post: bool)
    requires node.Dir?
    ensures Sorted(InsideWays(node, post), post) && forall k :: 0 <= k < |InsideWays(node, post)| ==> InsideWays(node, post)[k] != []
    decreases node, 0
  {
    if node.opens { AllSorted(node.entries, 0, post); }
  }

  lemma {:induction false} AllSorted(e: Entries, i: nat, post: bool)
    ensures var ways := AllWays(e, i, post);
      Sorted(ways, post) && forall k :: 0 <= k < |ways| ==> ways[k] != [] && i <= ways[k][0] < i + Count(e)
    decreases e, 0
  {
    if e.Entry? {
      WaysSorted(e.node, post);
      AllSorted(e.rest, i + 1, post);
      UnderSorted(i, Ways(e.node, post), post);
    }
  }

  lemma UnderSorted(i: nat, ways: seq<Way>, post: bool)
    requires Sorted(ways, post)
    ensures Sorted(Under(i, ways), post)
  {
    var r := Under(i, ways);
    forall a, b | 0 <= a < b < |r| ensures Before(r[a], r[b], post) {
      assert r[a][1..] == ways[a] && r[b][1..] == ways[b];
    }
  }

  /** No node is left out. */
  lemma {:induction false} WaysComplete(node: Node, post: bool, way: Way)
    requires NodeAt(node, way).Some? || BreaksAt(node, way)
    ensures way in Ways(node, post)
    decreases |way|
  {
    var kids := if node.Dir? then InsideWays(node, post) else [];
    if way == [] {
      var ways := Ways(node, post);
      assert ways[if post then |kids| else 0] == [];
    } else {
      if node.opens && way[0] < Count(node.entries) {
        WaysComplete(Nth(node.entries, way[0]).node, post, way[1..]);
        EntryComplete(node.entries, 0, post, way);
      }
      assert way in kids;
    }
  }

  lemma {:induction false} EntryComplete(e: Entries, i: nat, post: bool, way: Way)
    requires way != [] && i <= way[0] < i + Count(e) && way[1..] in Ways(Nth(e, way[0] - i).node, post)
    ensures way in AllWays(e, i, post)
    decreases e
  {
    if way[0] == i {
      var ways := Ways(e.node, post);
      var k :| 0 <= k < |ways| && ways[k] == way[1..];
      assert Under(i, ways)[k] == [i] + way[1..] == way;
    } else {
      NthRest(e, way[0] - i);
      EntryComplete(e.rest, i + 1, post, way);
    }
  }

  // ----- what a skip jumps over -----

  /** The places a place says lie below it are exactly those whose way goes through it. */
  predicate Belows(f: seq<Place>, ways: seq<Way>) {
    && |f| == |ways|
    && forall i, j :: 0 <= i < j < |f| && f[i].See? ==> (j <= i + f[i].below <==> ways[i] <= ways[j])
  }

  lemma {:induction false} FlatBelows(path: string, node: Node, level: nat)
    ensures Belows(Flat(path, node, level, false), Ways(node, false))
    decreases node, 1
  {
    if node.Dir? {
      InsideBelows(path, node, level);
      var f, ways := Flat(path, node, level, false), Ways(node, false);
      var kids, kidWays := Inside(path, node, level, false), InsideWays(node, false);
      forall i, j | 0 <= i < j < |f| && f[i].See? ensures j <= i + f[i].below <==> ways[i] <= ways[j] {
        if i > 0 { assert f[i] == kids[i - 1] && f[j] == kids[j - 1]; }
      }
    } else {
      NoKids(node, false);
    }
  }

  lemma {:induction false} InsideBelows(path: string, node: Node, level: nat)
    requires node.Dir?
    ensures Belows(Inside(path, node, level, false), InsideWays(node, false))
    decreases node, 0
  {
    if node.opens {
      AllBelows(path, node.entries, 0, level + 1);
      AllSorted(node.entries, 0, false);
      FlatAllNested(path, node.entries, level + 1, false);
    }
  }

  lemma {:induction false} AllBelows(path: string, e: Entries, i: nat, level: nat)
    ensures Belows(FlatAll(path, e, level, false), AllWays(e, i, false))
    decreases e, 0
  {
    if e.Entry? {
      var first, ways := Flat(Child(path, e.name), e.node, level, false), Ways(e.node, false);
      var rest, restWays := FlatAll(path, e.rest, level, false), AllWays(e.rest, i + 1, false);
      FlatBelows(Child(path, e.name), e.node, level);
      AllBelows(path, e.rest, i + 1, level);
      AllSorted(e.rest, i + 1, false);
      FlatNested(Child(path, e.name), e.node, level, false);
      JoinBelows(first, ways, i, rest, restWays);
    }
  }

  lemma JoinBelows(first: seq<Place>, ways: seq<Way>, i: nat, rest: seq<Place>, restWays: seq<Way>)
    requires Belows(first, ways) && Belows(rest, restWays) && Nested(first)
    requires forall k :: 0 <= k < |restWays| ==> restWays[k] != [] && i < restWays[k][0]
    ensures Belows(first + rest, Under(i, ways) + restWays)
  {
    var f, all, under := first + rest, Under(i, ways) + restWays, Under(i, ways);
    forall a, b | 0 <= a < b < |f| && f[a].See? ensures b <= a + f[a].below <==> all[a] <= all[b] {
      var n := |first|;
      if b < n {
        UnderPrefix(i, ways[a], ways[b]);
      } else if a >= n {
        assert f[a] == rest[a - n] && all[a] == restWays[a - n] && all[b] == restWays[b - n];
      } else {
        assert all[a][0] == i && all[b] == restWays[b - n];
      }
    }
  }

  lemma UnderPrefix(i: nat, a: Way, b: Way)
    ensures [i] + a <= [i] + b <==> a <= b
  {
    assert ([i] + a)[1..] == a && ([i] + b)[1..] == b;
    if a <= b { assert b[..|a|] == a; assert ([i] + b)[..|a| + 1] == [i] + a; }
    if [i] + a <= [i] + b { assert b[..|a|] == ([i] + b)[..|a| + 1][1..] == a; }
  }

  /** The traversal is what its name says: its places are the nodes and breaks of the tree, each under its
      path and level; strictly sorted, so each is there once; none is left out; and in pre-order what a
      skip jumps over is exactly what lies below. */
  lemma Traversal(path: string, node: Node, level: nat, post: bool)
    ensures var f, ways := Flat(path, node, level, post), Ways(node, post);
      && Places(f, path, node, level, ways) && Sorted(ways, post)
      && (forall way :: NodeAt(node, way).Some? || BreaksAt(node, way) ==> way in ways)
      && (if post then NoneBelow(f) else Belows(f, ways))
  {
    FlatPlaces(path, node, level, post);
    WaysSorted(node, post);
    forall way | NodeAt(node, way).Some? || BreaksAt(node, way) ensures way in Ways(node, post) {
      WaysComplete(node, post, way);
    }
    if post { PostHasNoneBelow(path, node, level); } else { FlatBelows(path, node, level); }
  }

  // ----- what a pass visits -----

  /** Where a pass goes on after place `i`. */
  function NextPlace(places: seq<Place>, i: nat, a: Answer): nat
    requires i < |places| && places[i].See?
  {
    if a == Skip then i + 1 + places[i].below else i + 1
  }

  /** The visits from place `i` on: each is the place itself, and then the one it leads to; they end behind
      the last place, at a broken one, or at an answer that stops or fails the walk. */
  predicate Visits(places: seq<Place>, i: nat, k: nat, answers: nat -> Answer, visits: seq<Visit>, outcome: Outcome)
    decreases |visits|
  {
    if i >= |places| then visits == [] && outcome == Finished
    else if places[i].Broken? then visits == [] && outcome == Failed
    else
      && visits != [] && visits[0] == places[i].visit
      && if answers(k) == Stop then visits == [places[i].visit] && outcome == Stopped
         else if answers(k) == Fail then visits == [places[i].visit] && outcome == Failed
         else Visits(places, NextPlace(places, i, answers(k)), k + 1, answers, visits[1..], outcome)
  }

  lemma {:induction false} PassVisits(places: seq<Place>, i: nat, k: nat, answers: nat -> Answer)
    requires Nested(places) && i <= |places|
    ensures var (visits, outcome) := Pass(places[i..], k, answers); Visits(places, i, k, answers, visits, outcome)
    decreases |places| - i
  {
    var from := places[i..];
    if i < |places| && places[i].See? && (answers(k) == Cont || answers(k) == Skip) {
      var next := NextPlace(places, i, answers(k));
      PassVisits(places, next, k + 1, answers);
      NestedDrop(places, i);
      PassStep(from, k, answers, next - i);
      assert from[next - i..] == places[next..];
      var r := Pass(places[next..], k + 1, answers);
      assert ([places[i].visit] + r.0)[1..] == r.0;
    }
  }

  // ----- names -----

  /** The two names every directory has, and no others, are passed over; the rest keep their order. */
  lemma {:induction false} DotsLeftOut(names: seq<string>, name: string)
    ensures name in WithoutDots(names) <==> name in names && name != "." && name != ".."
    decreases |names|
  {
    if names != [] {
      assert names == [names[0]] + names[1..];
      DotsLeftOut(names[1..], name);
    }
  }

  lemma {:induction false} DotsInOrder(a: seq<string>, b: seq<string>)
    ensures WithoutDots(a + b) == WithoutDots(a) + WithoutDots(b)
    decreases |a|
  {
    if a == [] {
      assert a + b == b;
    } else {
      assert (a + b)[1..] == a[1..] + b;
      DotsInOrder(a[1..], b);
    }
  }
}
