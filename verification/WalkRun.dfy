/** The walk as the C code has it, against the flat traversal. */
module WalkRun {
  import opened Text
  import opened Walk

  /** `Nob_String_Builder`; `items` is its memory, with whatever is left behind the `count` bytes. */
  class PathBuffer {
    var items: string
    var count: nat

    ghost predicate Valid() reads this { count <= |items| }

    /** The buffer holds exactly this path and its NUL. */
    ghost predicate HoldsPath(path: string)
      reads this
    {
      Valid() && count == |path| + 1 && items[..count] == path + "\0" && NulFree(path)
    }

    constructor ()
      ensures Valid() && count == 0
    {
      items, count := "", 0;
    }

    /** `nob_sb_appendf` and `nob_sb_append_null`: bytes go behind the first `count`. */
    method Append(s: string)
      requires Valid()
      modifies this
      ensures Valid() && count == old(count) + |s| && items[..count] == old(items[..count]) + s
    {
      items := items[..count] + s + (if count + |s| <= |items| then items[count + |s|..] else "");
      count := count + |s|;
    }

    /** `file_path->count = n; nob_da_last(file_path) = '\0';` */
    method Restore(n: nat)
      requires 0 < n <= |items|
      modifies this
      ensures Valid() && count == n && items[..n] == old(items)[..n - 1] + "\0"
    {
      count := n;
      items := items[n - 1 := '\0'];
    }
  }

  /** The callback, with the visits it has seen; its `k`th verdict is `answers(k)`. */
  class Callback {
    const answers: nat -> Answer
    var seen: seq<Visit>

    constructor (answers: nat -> Answer)
      ensures this.answers == answers && seen == []
    {
      this.answers, seen := answers, [];
    }

    method Call(v: Visit) returns (answer: Answer)
      modifies this
      ensures seen == old(seen) + [v] && answer == answers(|old(seen)|)
    {
      answer := answers(|seen|);
      seen := seen + [v];
    }
  }

  /** What the reference says the callback has seen in the end, and how the walk ends, when these
      places are still to come. */
  ghost function ToCome(seen: seq<Visit>, places: seq<Place>, answers: nat -> Answer): (seq<Visit>, Outcome) {
    var r := Pass(places, |seen|, answers);
    (seen + r.0, r.1)
  }

  lemma CPath(items: string, path: string)
    requires |path| < |items| && items[..|path| + 1] == path + "\0" && NulFree(path)
    ensures CStr(items) == path
  {
    assert items[|path|] == (path + "\0")[|path|];
    forall i | 0 <= i < |path| ensures items[i] == path[i] { assert items[i] == items[..|path| + 1][i]; }
    var r := CStr(items);
    if |r| != |path| { assert false; }
  }

  /** One visit by the callback. */
  lemma VisitStep(seen: seq<Visit>, v: Visit, below: nat, rest: seq<Place>, answers: nat -> Answer)
    ensures var all := ToCome(seen, [See(v, below)] + rest, answers);
      match answers(|seen|)
      case Cont => all == ToCome(seen + [v], rest, answers)
      case Skip => below == |rest| ==> all == (seen + [v], Finished)
      case Stop => all == (seen + [v], Stopped)
      case Fail => all == (seen + [v], Failed)
  {
    var places := [See(v, below)] + rest;
    assert places[1..] == rest;
    if below == |rest| && answers(|seen|) == Skip {
      assert places[1 + below..] == [];
      assert Pass(places, |seen|, answers) == Then(v, Pass([], |seen| + 1, answers));
      assert Pass([], |seen| + 1, answers) == ([], Finished);
    }
    var r := Pass(rest, |seen| + 1, answers);
    assert seen + ([v] + r.0) == (seen + [v]) + r.0;
    assert seen + ([v] + []) == seen + [v];
  }

  /** One subtree in front of the rest. */
  lemma SubtreeStep(seen: seq<Visit>, first: seq<Place>, rest: seq<Place>, answers: nat -> Answer)
    requires Nested(first)
    ensures var sub := ToCome(seen, first, answers);
      ToCome(seen, first + rest, answers) == if sub.1.Finished? then ToCome(sub.0, rest, answers) else sub
  {
    PassConcat(first, rest, |seen|, answers);
    var a := Pass(first, |seen|, answers);
    var b := Pass(rest, |seen| + |a.0|, answers);
    assert seen + (a.0 + b.0) == seen + a.0 + b.0;
  }

  lemma BrokenStep(seen: seq<Visit>, rest: seq<Place>, answers: nat -> Answer)
    ensures ToCome(seen, [Broken] + rest, answers) == (seen, Failed)
  {
    assert seen + [] == seen;
  }

  lemma NothingStep(seen: seq<Visit>, answers: nat -> Answer)
    ensures ToCome(seen, [], answers) == (seen, Finished)
  {
    assert seen + [] == seen;
  }

  /** Returning false, `*stop`, or neither. */
  predicate Ends(ok: bool, stop: bool, outcome: Outcome) {
    match outcome
    case Failed => !ok && !stop
    case Stopped => ok && stop
    case Finished => ok && !stop
  }

  /** The call of `func` and the switch on its action; `done` when the walk of this file is over. */
  method Visiting(buf: PathBuffer, cb: Callback, isDir: bool, level: nat, ghost path: string)
    returns (done: bool, ok: bool, stop: bool, ghost answer: Answer)
    requires buf.HoldsPath(path)
    modifies cb
    ensures cb.seen == old(cb.seen) + [Visit(path, isDir, level)] && answer == cb.answers(|old(cb.seen)|)
    ensures done == (answer != Cont) && ok == (answer != Fail) && stop == (answer == Stop)
  {
    CPath(buf.items, path);
    var a := cb.Call(Visit(CStr(buf.items), isDir, level));
    answer := a;
    return a != Cont, a != Fail, a == Stop, a;
  }

  /** The entries loop of a directory: `e` are the entries the names stand for. */
  method Children(fs: Fs, buf: PathBuffer, cb: Callback, names: seq<string>, saved: nat, level: nat, post: bool,
                  ghost path: string, ghost e: Entries) returns (ok: bool, stop: bool)
    requires buf.HoldsPath(path) && saved == |path| + 1
    requires WithoutDots(names) == Names(e) && HoldsAll(fs, path, e)
    modifies buf, cb
    ensures saved <= |buf.items| && buf.items[..saved - 1] == path
    ensures var r := ToCome(old(cb.seen), FlatAll(path, e, level + 1, post), cb.answers);
      cb.seen == r.0 && Ends(ok, stop, r.1)
    decreases e, 0, |names|
  {
    hide ToCome, Flat, FlatAll, WithoutDots;
    ok, stop := true, false;
    assert buf.items[..saved - 1] == path by { assert buf.items[..saved - 1] == buf.items[..saved][..saved - 1]; }
    var i := 0;
    ghost var left := e;
    ghost var all := ToCome(cb.seen, FlatAll(path, e, level + 1, post), cb.answers);
    while i < |names|
      invariant i <= |names| && saved <= |buf.items| && buf.items[..saved - 1] == path
      invariant WithoutDots(names[i..]) == Names(left) && HoldsAll(fs, path, left)
      invariant left == e || left < e
      invariant ToCome(cb.seen, FlatAll(path, left, level + 1, post), cb.answers) == all
      invariant ok && !stop
    {
      var name := names[i];
      NamesHead(names[i..]);
      assert names[i..][1..] == names[i + 1..];
      i := i + 1;
      if name == "." || name == ".." { continue; }
      NamesStep(name, names[i..], left);
      ghost var child := Child(path, name);
      buf.count := saved - 1;
      buf.Append("/" + name);
      buf.Append("\0");
      ChildPath(path, name);
      ghost var first, rest := Flat(child, left.node, level + 1, post), FlatAll(path, left.rest, level + 1, post);
      FlatNested(child, left.node, level + 1, post);
      FlatAllStep(path, left, level + 1, post);
      SubtreeStep(cb.seen, first, rest, cb.answers);
      ok, stop := WalkFile(fs, buf, cb, level + 1, post, child, left.node);
      assert buf.items[..saved - 1] == path by { PathPrefix(buf.items, path, name); }
      if !ok { return false, false; }
      if stop { return true, true; }
      left := left.rest;
    }
    assert names[i..] == [];
    NoNames(left);
    FlatAllStep(path, left, level + 1, post);
    NothingStep(cb.seen, cb.answers);
  }

  lemma FlatAllStep(path: string, e: Entries, level: nat, post: bool)
    ensures FlatAll(path, e, level, post)
         == if e.NoEntries? then [] else Flat(Child(path, e.name), e.node, level, post) + FlatAll(path, e.rest, level, post)
  {
    hide Flat;
  }

  lemma NoNames(e: Entries)
    requires WithoutDots([]) == Names(e)
    ensures e == NoEntries
  {
  }

  lemma NamesHead(names: seq<string>)
    requires names != []
    ensures WithoutDots(names) == if IsDot(names[0]) then WithoutDots(names[1..]) else WithoutDots([names[0]] + names[1..])
  {
    assert names == [names[0]] + names[1..];
  }

  lemma NamesStep(name: string, names: seq<string>, e: Entries)
    requires WithoutDots([name] + names) == Names(e) && !IsDot(name)
    ensures e.Entry? && e.name == name && WithoutDots(names) == Names(e.rest)
  {
    assert ([name] + names)[1..] == names;
    assert ([name] + WithoutDots(names))[0] == name && ([name] + WithoutDots(names))[1..] == WithoutDots(names);
    if e.Entry? { assert ([e.name] + Names(e.rest))[1..] == Names(e.rest); }
  }

  lemma ChildPath(path: string, name: string)
    requires NulFree(path) && NulFree(name)
    ensures NulFree(Child(path, name)) && path + ("/" + name) + "\0" == Child(path, name) + "\0"
  {
    NulFreeConcat(path, "/");
    NulFreeConcat(path + "/", name);
  }

  lemma PathPrefix(items: string, path: string, name: string)
    requires |Child(path, name)| + 1 <= |items| && items[..|Child(path, name)| + 1] == Child(path, name) + "\0"
    ensures items[..|path|] == path
  {
    var c := Child(path, name) + "\0";
    assert items[..|path|] == items[..|c|][..|path|] == c[..|path|] == path;
  }

  /** `nob__walk_dir_opt_impl`: the callback sees exactly the visits of the reference, each with the
      exact path in the buffer; the result and `*stop` say how it ended; and the buffer is restored on
      every return. */
  method WalkFile(fs: Fs, buf: PathBuffer, cb: Callback, level: nat, post: bool, ghost path: string, ghost node: Node)
    returns (ok: bool, stop: bool)
    requires buf.HoldsPath(path) && Holds(fs, path, node)
    modifies buf, cb
    ensures buf.HoldsPath(path)
    ensures var r := ToCome(old(cb.seen), Flat(path, node, level, post), cb.answers);
      cb.seen == r.0 && Ends(ok, stop, r.1)
    decreases node, 1
  {
    var saved := buf.count;
    ghost var visit := VisitOf(path, node, level);
    CPath(buf.items, path);
    var kind := fs.stat(CStr(buf.items));
    if kind == Gone {
      BrokenStep(cb.seen, [], cb.answers);
      assert [Broken] + [] == [Broken];
      return false, false;
    }
    if !post {
      ghost var kids := if node.Dir? then Inside(path, node, level, post) else [];
      VisitStep(cb.seen, visit, |kids|, kids, cb.answers);
      var done, visited, stopped, answer := Visiting(buf, cb, kind == Directory, level, path);
      if done { return visited, stopped; }
    }
    ok, stop := true, false;
    if post { PostKids(cb.seen, path, node, level, cb.answers); }
    if kind == Directory {
      ok, stop := WalkDirectory(fs, buf, cb, level, post, path, node);
      if !ok || stop { return; }
    } else if !post {
      NothingStep(cb.seen, cb.answers);
    }
    if post {
      VisitStep(cb.seen, visit, 0, [], cb.answers);
      var done, visited, stopped, answer := Visiting(buf, cb, kind == Directory, level, path);
      NothingStep(cb.seen, cb.answers);
      return visited, stopped;
    }
  }

  /** In post-order a file comes after what is inside it. */
  lemma PostKids(seen: seq<Visit>, path: string, node: Node, level: nat, answers: nat -> Answer)
    requires !node.Missing?
    ensures var last := [See(VisitOf(path, node, level), 0)];
      var all := ToCome(seen, Flat(path, node, level, true), answers);
      && last + [] == last
      && (!node.Dir? ==> all == ToCome(seen, last, answers))
      && (node.Dir? ==>
        var sub := ToCome(seen, Inside(path, node, level, true), answers);
        all == if sub.1.Finished? then ToCome(sub.0, last, answers) else sub)
  {
    var last := [See(VisitOf(path, node, level), 0)];
    if node.Dir? {
      InsideNested(path, node, level, true);
      SubtreeStep(seen, Inside(path, node, level, true), last, answers);
    } else {
      assert [] + last == last;
    }
  }

  /** The directory part of the walk, and the restoring of the buffer. */
  method WalkDirectory(fs: Fs, buf: PathBuffer, cb: Callback, level: nat, post: bool, ghost path: string, ghost node: Node)
    returns (ok: bool, stop: bool)
    requires buf.HoldsPath(path) && Holds(fs, path, node) && node.Dir?
    modifies buf, cb
    ensures buf.HoldsPath(path)
    ensures var r := ToCome(old(cb.seen), Inside(path, node, level, post), cb.answers);
      cb.seen == r.0 && Ends(ok, stop, r.1)
    decreases node, 0
  {
    var saved := buf.count;
    CPath(buf.items, path);
    var listing := fs.list(CStr(buf.items));
    if !listing.opens {
      BrokenStep(cb.seen, [], cb.answers);
      assert [Broken] + [] == [Broken];
      return false, false;
    }
    ghost var kids, tail := FlatAll(path, node.entries, level + 1, post), if node.ends then [] else [Broken];
    FlatAllNested(path, node.entries, level + 1, post);
    SubtreeStep(cb.seen, kids, tail, cb.answers);
    ok, stop := Children(fs, buf, cb, listing.names, saved, level, post, path, node.entries);
    if ok && !stop && !listing.ends {
      BrokenStep(cb.seen, [], cb.answers);
      assert [Broken] + [] == [Broken];
      ok := false;
    }
    NothingStep(cb.seen, cb.answers);
    buf.Restore(saved);
  }

  /** `nob_walk_dir_opt`. */
  method WalkDir(fs: Fs, root: string, cb: Callback, post: bool, ghost node: Node) returns (ok: bool)
    requires NulFree(root) && Holds(fs, root, node)
    modifies cb
    ensures var r := ToCome(old(cb.seen), Flat(root, node, 0, post), cb.answers);
      cb.seen == r.0 && ok == !r.1.Failed?
  {
    var buf := new PathBuffer();
    buf.Append(root);
    buf.Append("\0");
    assert "" + root + "\0" == root + "\0";
    var stop;
    ok, stop := WalkFile(fs, buf, cb, 0, post, root, node);
  }
}
