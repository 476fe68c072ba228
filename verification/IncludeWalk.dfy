/**
 The include-graph walk of the dialect loader: depth-first, each file loaded once, cycles
 reported (build_support/xml_loader.rs).

 Loading a file yields the files it includes or an error.  The walk is proved against
 reachability and paths in that graph.
 */
module IncludeWalk {

  datatype Loaded<K> = Includes(keys: seq<K>) | LoadError(reason: string)

  datatype Outcome<K> = Done | Cycle(key: K) | LoadFailed(key: K, reason: string)

  // ---------- The graph ----------

  ghost predicate Edge<K>(load: K -> Loaded<K>, a: K, b: K) {
    load(a).Includes? && b in load(a).keys
  }

  ghost predicate IsPath<K>(load: K -> Loaded<K>, p: seq<K>) {
    && p != []
    && forall i {:trigger p[i]} :: 0 <= i < |p| - 1 ==> Edge(load, p[i], p[i + 1])
  }

  ghost predicate Connects<K>(load: K -> Loaded<K>, p: seq<K>, a: K, b: K) {
    IsPath(load, p) && p[0] == a && p[|p| - 1] == b
  }

  ghost predicate Reaches<K(!new)>(load: K -> Loaded<K>, a: K, b: K) {
    exists p :: Connects(load, p, a, b)
  }

  /** `k` lies on a cycle of includes. */
  ghost predicate OnCycle<K(!new)>(load: K -> Loaded<K>, k: K) {
    exists p :: Connects(load, p, k, k) && |p| > 1
  }

  ghost predicate Closed<K(!new)>(load: K -> Loaded<K>, nodes: set<K>) {
    forall k, x :: k in nodes && Edge(load, k, x) ==> x in nodes
  }

  lemma PathAppend<K>(load: K -> Loaded<K>, p: seq<K>, q: seq<K>)
    requires IsPath(load, p) && IsPath(load, q) && p[|p| - 1] == q[0]
    ensures Connects(load, p + q[1..], p[0], q[|q| - 1])
  {
    var r := p + q[1..];
    forall i | 0 <= i < |r| - 1
      ensures Edge(load, r[i], r[i + 1])
    {
      if i >= |p| - 1 {
        assert r[i] == q[i - |p| + 1];
        assert r[i + 1] == q[i - |p| + 2];
      } else {
        assert r[i] == p[i] && r[i + 1] == p[i + 1];
      }
    }
  }

  // ---------- Finished files ----------

  /** Files in the order they finished: each loads, and includes only files finished before it. */
  ghost predicate Topological<K>(load: K -> Loaded<K>, order: seq<K>) {
    && (forall i, j :: 0 <= i < j < |order| ==> order[i] != order[j])
    && (forall i :: 0 <= i < |order| ==> load(order[i]).Includes?)
    && (forall i, k :: 0 <= i < |order| && k in load(order[i]).keys ==> k in order[..i])
  }

  /** Along a path from a finished file, positions in the finishing order go down. */
  lemma {:induction false} PathDescends<K>(load: K -> Loaded<K>, order: seq<K>, p: seq<K>, i: nat) returns (j: nat)
    requires Topological(load, order) && IsPath(load, p)
    requires i < |order| && order[i] == p[0]
    ensures j <= i && order[j] == p[|p| - 1]
    ensures |p| > 1 ==> j < i
    decreases |p|
  {
    if |p| == 1 {
      j := i;
    } else {
      assert Edge(load, p[0], p[1]);
      assert p[1] in order[..i];
      var k :| 0 <= k < i && order[..i][k] == p[1];
      var q := p[1..];
      forall x | 0 <= x < |q| - 1
        ensures Edge(load, q[x], q[x + 1])
      {
        assert q[x] == p[x + 1] && q[x + 1] == p[x + 2];
      }
      j := PathDescends(load, order, q, k);
    }
  }

  /** So everything reachable from a finished file is finished, loads, and is on no cycle. */
  lemma FinishedIsClosed<K(!new)>(load: K -> Loaded<K>, order: seq<K>, root: K, k: K)
    requires Topological(load, order) && root in order && Reaches(load, root, k)
    ensures k in order && load(k).Includes? && !OnCycle(load, k)
  {
    var i :| 0 <= i < |order| && order[i] == root;
    var p :| Connects(load, p, root, k);
    var j := PathDescends(load, order, p, i);
    if OnCycle(load, k) {
      var c :| Connects(load, c, k, k) && |c| > 1;
      var m := PathDescends(load, order, c, j);
    }
  }

  lemma TopologicalSnoc<K>(load: K -> Loaded<K>, order: seq<K>, k: K)
    requires Topological(load, order) && k !in order
    requires load(k).Includes? && forall x :: x in load(k).keys ==> x in order
    ensures Topological(load, order + [k])
  {
    var next := order + [k];
    forall i, x | 0 <= i < |next| && x in load(next[i]).keys
      ensures x in next[..i]
    {
      if i < |order| {
        assert next[..i] == order[..i] && next[i] == order[i];
      } else {
        assert next[..i] == order;
      }
    }
  }

  // ---------- The walk ----------

  class Walker<K(==,!new)> {
    const load: K -> Loaded<K>
    var visited: set<K>
    var inProgress: set<K>
    /** the files loaded, in order */
    var loads: seq<K>
    ghost var order: seq<K>

    constructor (load: K -> Loaded<K>)
      ensures this.load == load && visited == {} && inProgress == {} && loads == [] && order == []
    {
      this.load := load;
      visited, inProgress, loads, order := {}, {}, [], [];
    }

    /** Every file visited has been loaded once; the finished ones are those not in progress. */
    ghost predicate Consistent()
      reads this
    {
      && inProgress <= visited
      && (forall k :: k in visited <==> k in loads)
      && (forall i, j :: 0 <= i < j < |loads| ==> loads[i] != loads[j])
      && Topological(load, order)
      && (forall k :: k in order <==> k in visited && k !in inProgress)
    }

    /** The files in progress are the path from the root down to the current file. */
    ghost predicate OnStack(stack: seq<K>, root: K, key: K)
      reads this
    {
      && (forall k :: k in inProgress <==> k in stack)
      && Connects(load, stack + [key], root, key)
    }

    lemma StackReaches(stack: seq<K>, root: K, key: K)
      requires OnStack(stack, root, key)
      ensures Reaches(load, root, key)
      ensures key in stack ==> OnCycle(load, key)
    {
      var p := stack + [key];
      assert Connects(load, p, root, key);
      if key in stack {
        var i :| 0 <= i < |stack| && stack[i] == key;
        var c := p[i..];
        forall x | 0 <= x < |c| - 1
          ensures Edge(load, c[x], c[x + 1])
        {
          assert c[x] == p[i + x] && c[x + 1] == p[i + x + 1];
        }
        assert Connects(load, c, key, key);
      }
    }

    lemma StackPush(stack: seq<K>, root: K, key: K, inc: K)
      requires Connects(load, stack + [key], root, key) && Edge(load, key, inc)
      ensures Connects(load, stack + [key] + [inc], root, inc)
    {
      assert IsPath(load, [key, inc]);
      PathAppend(load, stack + [key], [key, inc]);
      assert [key, inc][1..] == [inc];
    }

    ghost predicate Failure(r: Outcome<K>, root: K) {
      match r
      case Done => false
      case Cycle(k) => Reaches(load, root, k) && OnCycle(load, k)
      case LoadFailed(k, reason) => Reaches(load, root, k) && load(k) == LoadError(reason)
    }

    /** Mark a file as being visited and load it. */
    method Enter(key: K)
      requires Consistent() && key !in visited
      modifies this
      ensures Consistent()
      ensures visited == old(visited) + {key} && inProgress == old(inProgress) + {key} && order == old(order)
      ensures loads == old(loads) + [key]
    {
      hide Topological;
      visited := visited + {key};
      inProgress := inProgress + {key};
      loads := loads + [key];
    }

    /** All includes of a file have finished. */
    method Finish(key: K)
      requires Consistent() && key in inProgress
      requires load(key).Includes? && forall x :: x in load(key).keys ==> x in order
      modifies this`inProgress, this`order
      ensures Consistent()
      ensures inProgress == old(inProgress) - {key} && order == old(order) + [key]
    {
      hide Topological;
      TopologicalSnoc(load, order, key);
      order := order + [key];
      inProgress := inProgress - {key};
    }

    /** Every file visited since is reachable from the root. */
    ghost predicate Reached(root: K, before: set<K>)
      reads this
    {
      before <= visited && forall k :: k in visited && k !in before ==> Reaches(load, root, k)
    }

    method WalkInner(key: K, ghost root: K, ghost stack: seq<K>, ghost nodes: set<K>) returns (r: Outcome<K>)
      requires Consistent() && OnStack(stack, root, key)
      requires visited <= nodes && key in nodes && Closed(load, nodes)
      modifies this
      ensures r.Done? ==>
        Consistent() && inProgress == old(inProgress) && visited <= nodes && key in order && Reached(root, old(visited))
      ensures !r.Done? ==> Failure(r, root)
      decreases |nodes - visited|, 0
    {
      hide Topological, Connects, Reaches, OnCycle, Closed, Consistent;
      StackReaches(stack, root, key);
      if key in inProgress {
        return Cycle(key);
      }
      if key in visited {
        VisitedIsFinished(key);
        return Done;
      }
      Smaller(nodes, visited, visited + {key}, key);
      Enter(key);
      match load(key) {
        case LoadError(reason) => return LoadFailed(key, reason);
        case Includes(includes) => r := Descend(key, includes, root, stack, nodes);
      }
    }

    lemma VisitedIsFinished(key: K)
      requires Consistent() && key in visited && key !in inProgress
      ensures key in order
    {}

    /** Walk the includes of a file that has been entered, and finish it. */
    method Descend(key: K, includes: seq<K>, ghost root: K, ghost stack: seq<K>, ghost nodes: set<K>)
      returns (r: Outcome<K>)
      requires Consistent() && load(key) == Includes(includes)
      requires forall k :: k in inProgress <==> k in stack + [key]
      requires Connects(load, stack + [key], root, key)
      requires visited <= nodes && key in nodes && Closed(load, nodes)
      modifies this
      ensures r.Done? ==>
        && Consistent() && inProgress == old(inProgress) - {key} && visited <= nodes
        && key in order && Reached(root, old(visited))
      ensures !r.Done? ==> Failure(r, root)
      decreases |nodes - visited|, 2
    {
      hide Topological, Connects, Reaches, OnCycle, Closed, Consistent;
      r := WalkAll(key, includes, root, stack, nodes);
      if r.Done? {
        Finish(key);
      }
    }

    /** Walk the includes of a file in turn. */
    method WalkAll(key: K, includes: seq<K>, ghost root: K, ghost stack: seq<K>, ghost nodes: set<K>)
      returns (r: Outcome<K>)
      requires Consistent() && load(key) == Includes(includes)
      requires forall k :: k in inProgress <==> k in stack + [key]
      requires Connects(load, stack + [key], root, key)
      requires visited <= nodes && key in nodes && Closed(load, nodes)
      modifies this
      ensures r.Done? ==>
        && Consistent() && inProgress == old(inProgress) && visited <= nodes && Reached(root, old(visited))
        && forall x :: x in includes ==> x in order
      ensures !r.Done? ==> Failure(r, root)
      decreases |nodes - visited|, 1
    {
      hide Topological, Connects, Reaches, OnCycle;
      for i := 0 to |includes|
        invariant Consistent()
        invariant inProgress == old(inProgress) && visited <= nodes && Reached(root, old(visited))
        invariant forall j :: 0 <= j < i ==> includes[j] in order
      {
        assert Edge(load, key, includes[i]);
        StackPush(stack, root, key, includes[i]);
        NoLarger(nodes, old(visited), visited);
        ghost var before, finished := visited, order;
        r := WalkInner(includes[i], root, stack + [key], nodes);
        if !r.Done? {
          return r;
        }
        StillFinished(finished, before, old(inProgress));
      }
      return Done;
    }

    /** What had finished before stays finished. */
    lemma StillFinished(finished: seq<K>, before: set<K>, busy: set<K>)
      requires Consistent() && inProgress == busy && before <= visited
      requires forall k :: k in finished <==> k in before && k !in busy
      ensures forall k :: k in finished ==> k in order
    {}

    static lemma NoLarger(nodes: set<K>, before: set<K>, now: set<K>)
      requires before <= now
      ensures |nodes - now| <= |nodes - before|
    {
      assert nodes - before == (nodes - now) + ((nodes - before) - (nodes - now));
    }

    static lemma Smaller(nodes: set<K>, before: set<K>, now: set<K>, key: K)
      requires key in nodes && key !in before && before + {key} <= now
      ensures |nodes - now| < |nodes - before|
    {
      assert nodes - before == (nodes - now) + ((nodes - before) - (nodes - now));
      assert key in (nodes - before) - (nodes - now);
    }
  }

  /**
   On any finite graph the walk ends.  It succeeds exactly when everything reachable from
   the root loads and no reachable file is on a cycle of includes, and has then loaded
   each reachable file once and nothing else.  A reported cycle or load failure names a
   reachable file that is on a cycle, or does not load.
   */
  method WalkIncludes<K(==,!new)>(root: K, load: K -> Loaded<K>, ghost nodes: set<K>)
    returns (r: Outcome<K>, loads: seq<K>)
    requires root in nodes
    requires Closed(load, nodes)
    ensures r.Done? <==> forall k :: Reaches(load, root, k) ==> load(k).Includes? && !OnCycle(load, k)
    ensures r.Done? ==> (forall k :: k in loads <==> Reaches(load, root, k))
                        && (forall i, j :: 0 <= i < j < |loads| ==> loads[i] != loads[j])
    ensures r.Cycle? ==> Reaches(load, root, r.key) && OnCycle(load, r.key)
    ensures r.LoadFailed? ==> Reaches(load, root, r.key) && load(r.key) == LoadError(r.reason)
  {
    var w := new Walker(load);
    assert Connects(load, [root], root, root);
    assert [] + [root] == [root];
    r := w.WalkInner(root, root, [], nodes);
    loads := w.loads;
    if r.Done? {
      forall k | Reaches(load, root, k)
        ensures k in loads && load(k).Includes? && !OnCycle(load, k)
      {
        FinishedIsClosed(load, w.order, root, k);
      }
    }
  }
}
