/** `nob__walk_dir_opt_impl` (nob.h): a recursive directory walk that keeps the current path in one
    shared buffer and lets its callback skip, stop or fail. */
module Walk {
  import opened Text

  // ----- the file tree -----

  datatype Stat = Gone | Directory | Other

  /** What reading a directory gives: whether it opens, the names, and whether they end cleanly. */
  datatype Listing = Listing(opens: bool, names: seq<string>, ends: bool)

  /** The file system, asked by path. */
  datatype Fs = Fs(stat: string -> Stat, list: string -> Listing)

  /** The tree below a path, without `.` and `..`. */
  datatype Node = Missing | File | Dir(opens: bool, entries: Entries, ends: bool)
  datatype Entries = NoEntries | Entry(name: string, node: Node, rest: Entries)

  predicate IsDot(name: string) { name == "." || name == ".." }

  function Names(e: Entries): seq<string> {
    match e
    case NoEntries => []
    case Entry(name, _, rest) => [name] + Names(rest)
  }

  function WithoutDots(names: seq<string>): seq<string> {
    if names == [] then []
    else if IsDot(names[0]) then WithoutDots(names[1..])
    else [names[0]] + WithoutDots(names[1..])
  }

  function Child(path: string, name: string): string { path + "/" + name }

  /** The file system has exactly this tree at a path. */
  predicate Holds(fs: Fs, path: string, node: Node)
    decreases node
  {
    match node
    case Missing => fs.stat(path) == Gone
    case File => fs.stat(path) == Other
    case Dir(opens, entries, ends) =>
      && fs.stat(path) == Directory && fs.list(path).opens == opens && fs.list(path).ends == ends
      && WithoutDots(fs.list(path).names) == Names(entries)
      && HoldsAll(fs, path, entries)
  }

  predicate HoldsAll(fs: Fs, path: string, e: Entries)
    decreases e
  {
    match e
    case NoEntries => true
    case Entry(name, node, rest) => NulFree(name) && Holds(fs, Child(path, name), node) && HoldsAll(fs, path, rest)
  }

  // ----- the reference: a flat traversal and one pass over it -----

  datatype Visit = Visit(path: string, isDir: bool, level: nat)

  /** The callback's verdict; Fail is returning false. */
  datatype Answer = Cont | Skip | Stop | Fail

  datatype Outcome = Finished | Stopped | Failed

  /** A place in the traversal: a file, with the number of places of its subtree that follow it, or
      something the operating system cannot read. */
  datatype Place = See(visit: Visit, below: nat) | Broken

  function VisitOf(path: string, node: Node, level: nat): Visit { Visit(path, node.Dir?, level) }

  /** The pre-order or post-order traversal of a tree. */
  function Flat(path: string, node: Node, level: nat, post: bool): seq<Place>
    decreases node, 1
  {
    if node.Missing? then [Broken]
    else
      var kids := if node.Dir? then Inside(path, node, level, post) else [];
      if post then kids + [See(VisitOf(path, node, level), 0)] else [See(VisitOf(path, node, level), |kids|)] + kids
  }

  function Inside(path: string, node: Node, level: nat, post: bool): seq<Place>
    requires node.Dir?
    decreases node, 0
  {
    if node.opens then FlatAll(path, node.entries, level + 1, post) + (if node.ends then [] else [Broken]) else [Broken]
  }

  function FlatAll(path: string, e: Entries, level: nat, post: bool): seq<Place>
    decreases e, 0
  {
    match e
    case NoEntries => []
    case Entry(name, node, rest) => Flat(Child(path, name), node, level, post) + FlatAll(path, rest, level, post)
  }

  /** One pass over a traversal, asking the callback from its `k`th call on: the visits made, and how
      it ends. */
  function Pass(places: seq<Place>, k: nat, answers: nat -> Answer): (seq<Visit>, Outcome)
    decreases |places|
  {
    if places == [] then ([], Finished)
    else if places[0].Broken? then ([], Failed)
    else
      var v := places[0].visit;
      match answers(k)
      case Fail => ([v], Failed)
      case Stop => ([v], Stopped)
      case Cont => Then(v, Pass(places[1..], k + 1, answers))
      case Skip =>
        if 1 + places[0].below <= |places| then Then(v, Pass(places[1 + places[0].below..], k + 1, answers)) else ([v], Finished)
  }

  function Then(v: Visit, r: (seq<Visit>, Outcome)): (seq<Visit>, Outcome) { ([v] + r.0, r.1) }

  /** Subtrees do not reach beyond the end. */
  predicate Nested(places: seq<Place>) {
    forall i :: 0 <= i < |places| && places[i].See? ==> i + 1 + places[i].below <= |places|
  }

  lemma NestedConcat(a: seq<Place>, b: seq<Place>)
    requires Nested(a) && Nested(b)
    ensures Nested(a + b)
  {
    forall i | 0 <= i < |a + b| && (a + b)[i].See? ensures i + 1 + (a + b)[i].below <= |a + b| {
      assert (a + b)[i] == if i < |a| then a[i] else b[i - |a|];
    }
  }

  lemma NestedDrop(a: seq<Place>, n: nat)
    requires Nested(a) && n <= |a|
    ensures Nested(a[n..])
  {
    forall i | 0 <= i < |a[n..]| && a[n..][i].See? ensures i + 1 + a[n..][i].below <= |a[n..]| {
      assert a[n..][i] == a[n + i];
    }
  }

  lemma {:induction false} FlatNested(path: string, node: Node, level: nat, post: bool)
    ensures Nested(Flat(path, node, level, post))
    decreases node, 1
  {
    if !node.Missing? {
      var v := VisitOf(path, node, level);
      var kids := if node.Dir? then Inside(path, node, level, post) else [];
      if node.Dir? { InsideNested(path, node, level, post); }
      if post {
        NestedConcat(kids, [See(v, 0)]);
      } else {
        var all := [See(v, |kids|)] + kids;
        forall i | 0 <= i < |all| && all[i].See? ensures i + 1 + all[i].below <= |all| {
          if i > 0 { assert all[i] == kids[i - 1]; }
        }
      }
    }
  }

  lemma {:induction false} InsideNested(path: string, node: Node, level: nat, post: bool)
    requires node.Dir?
    ensures Nested(Inside(path, node, level, post))
    decreases node, 0
  {
    if node.opens {
      FlatAllNested(path, node.entries, level + 1, post);
      NestedConcat(FlatAll(path, node.entries, level + 1, post), if node.ends then [] else [Broken]);
    }
  }

  lemma {:induction false} FlatAllNested(path: string, e: Entries, level: nat, post: bool)
    ensures Nested(FlatAll(path, e, level, post))
    decreases e, 0
  {
    if e.Entry? {
      FlatNested(Child(path, e.name), e.node, level, post);
      FlatAllNested(path, e.rest, level, post);
      NestedConcat(Flat(Child(path, e.name), e.node, level, post), FlatAll(path, e.rest, level, post));
    }
  }

  function Join(r: (seq<Visit>, Outcome), more: (seq<Visit>, Outcome)): (seq<Visit>, Outcome) {
    if r.1.Finished? then (r.0 + more.0, more.1) else r
  }

  /** A pass over two traversals, one after the other. */
  lemma {:induction false} PassConcat(a: seq<Place>, b: seq<Place>, k: nat, answers: nat -> Answer)
    requires Nested(a)
    ensures var r := Pass(a, k, answers); Pass(a + b, k, answers) == Join(r, Pass(b, k + |r.0|, answers))
    decreases |a|
  {
    if a == [] {
      assert a + b == b && [] + Pass(b, k, answers).0 == Pass(b, k, answers).0;
    } else if a[0].See? && (answers(k).Skip? || answers(k).Cont?) {
      var m := if answers(k).Skip? then 1 + a[0].below else 1;
      NestedDrop(a, m);
      PassConcat(a[m..], b, k + 1, answers);
      PassConcatStep(a, b, k, answers, m);
    }
  }

  lemma PassConcatStep(a: seq<Place>, b: seq<Place>, k: nat, answers: nat -> Answer, m: nat)
    requires a != [] && a[0].See? && m <= |a|
    requires (answers(k).Skip? && m == 1 + a[0].below) || (answers(k).Cont? && m == 1)
    requires var r := Pass(a[m..], k + 1, answers);
      Pass(a[m..] + b, k + 1, answers) == Join(r, Pass(b, k + 1 + |r.0|, answers))
    ensures var r := Pass(a, k, answers); Pass(a + b, k, answers) == Join(r, Pass(b, k + |r.0|, answers))
  {
    hide Pass, Join, Then;
    var r := Pass(a[m..], k + 1, answers);
    assert (a + b)[0] == a[0] && (a + b)[m..] == a[m..] + b;
    PassStep(a, k, answers, m);
    PassStep(a + b, k, answers, m);
    ThenJoin(a[0].visit, r, Pass(b, k + 1 + |r.0|, answers));
  }

  lemma PassStep(places: seq<Place>, k: nat, answers: nat -> Answer, m: nat)
    requires places != [] && places[0].See? && m <= |places|
    requires (answers(k).Skip? && m == 1 + places[0].below) || (answers(k).Cont? && m == 1)
    ensures Pass(places, k, answers) == Then(places[0].visit, Pass(places[m..], k + 1, answers))
  {
  }

  lemma ThenJoin(v: Visit, r: (seq<Visit>, Outcome), more: (seq<Visit>, Outcome))
    ensures Then(v, Join(r, more)) == Join(Then(v, r), more) && |Then(v, r).0| == 1 + |r.0|
  {
    assert [v] + (r.0 + more.0) == [v] + r.0 + more.0;
  }

  // ----- what a pass visits -----

  /** The files of a traversal, up to the first thing that cannot be read. */
  function Visible(places: seq<Place>): seq<Visit> {
    if places == [] || places[0].Broken? then [] else [places[0].visit] + Visible(places[1..])
  }

  /** Without skips the visits are a prefix of the traversal, and all of it when nothing stops it. */
  lemma {:induction false} PassIsPrefix(places: seq<Place>, k: nat, answers: nat -> Answer)
    requires forall i :: k <= i ==> answers(i) != Skip
    ensures var (visits, outcome) := Pass(places, k, answers);
      && visits <= Visible(places)
      && (outcome == Finished ==> visits == Visible(places) && Broken !in places)
      && ((forall i :: k <= i ==> answers(i) == Cont) ==> visits == Visible(places))
    decreases |places|
  {
    if places != [] && places[0].See? {
      PassIsPrefix(places[1..], k + 1, answers);
      assert Visible(places) == [places[0].visit] + Visible(places[1..]);
      if Pass(places, k, answers).1 == Finished { assert places == [places[0]] + places[1..]; }
    }
  }

  /** Nothing a skip could jump over. */
  predicate NoneBelow(places: seq<Place>) {
    forall i :: 0 <= i < |places| && places[i].See? ==> places[i].below == 0
  }

  /** In a post-order traversal skipping is the same as going on. */
  lemma {:induction false} PostSkip(places: seq<Place>, k: nat, answers: nat -> Answer)
    requires NoneBelow(places)
    ensures Pass(places, k, answers) == Pass(places, k, (i: nat) => if answers(i) == Skip then Cont else answers(i))
    decreases |places|
  {
    if places != [] {
      var rest := places[1..];
      assert forall i :: 0 <= i < |rest| ==> rest[i] == places[i + 1];
      PostSkip(rest, k + 1, answers);
    }
  }

  lemma NoneBelowConcat(a: seq<Place>, b: seq<Place>)
    requires NoneBelow(a) && NoneBelow(b)
    ensures NoneBelow(a + b)
  {
  }

  lemma {:induction false} PostHasNoneBelow(path: string, node: Node, level: nat)
    ensures NoneBelow(Flat(path, node, level, true))
    decreases node, 1
  {
    hide NoneBelow;
    if !node.Missing? {
      var last := [See(VisitOf(path, node, level), 0)];
      assert NoneBelow(last) && NoneBelow([Broken]) && NoneBelow([]) by { SmallNoneBelow(VisitOf(path, node, level)); }
      if node.Dir? {
        PostAllNoneBelow(path, node.entries, level + 1);
        NoneBelowConcat(FlatAll(path, node.entries, level + 1, true), if node.ends then [] else [Broken]);
        NoneBelowConcat(Inside(path, node, level, true), last);
      } else {
        NoneBelowConcat([], last);
      }
    } else {
      SmallNoneBelow(VisitOf(path, node, level));
    }
  }

  lemma SmallNoneBelow(v: Visit)
    ensures NoneBelow([See(v, 0)]) && NoneBelow([Broken]) && NoneBelow([])
  {
  }

  lemma {:induction false} PostAllNoneBelow(path: string, e: Entries, level: nat)
    ensures NoneBelow(FlatAll(path, e, level, true))
    decreases e, 0
  {
    if e.Entry? {
      PostHasNoneBelow(Child(path, e.name), e.node, level);
      PostAllNoneBelow(path, e.rest, level);
      NoneBelowConcat(Flat(Child(path, e.name), e.node, level, true), FlatAll(path, e.rest, level, true));
    }
  }
}
