/**
  Subflow call-cycle detection (core/analyzer/metrics.go, `detectCircularDeps`).

  The detector runs Tarjan's algorithm on a call graph whose adjacency is a hash map,
  so neighbours come in an arbitrary order. Here that order is a nondeterministic choice,
  and the result is specified by plain reachability alone.
 */
module CallCycles {

  /** Subflow identifiers are only ever compared for equality. */
  type Id(==, !new)
  type Graph = map<Id, set<Id>>

  /** Indexing the adjacency map with an unknown subflow yields no callees. */
  function Callees(g: Graph, v: Id): set<Id> {
    if v in g then g[v] else {}
  }

  // ----- The specification: call paths -----

  ghost predicate IsPath(g: Graph, p: seq<Id>) {
    |p| > 0 && forall i :: 0 < i < |p| ==> p[i] in Callees(g, p[i - 1])
  }

  ghost predicate PathBetween(g: Graph, p: seq<Id>, x: Id, y: Id) {
    IsPath(g, p) && p[0] == x && p[|p| - 1] == y
  }

  ghost predicate Reach(g: Graph, x: Id, y: Id) {
    exists p :: PathBetween(g, p, x, y)
  }

  /** `x` has a call path of at least one call back to itself. */
  ghost predicate OnCycle(g: Graph, x: Id) {
    exists p :: PathBetween(g, p, x, x) && |p| >= 2
  }

  lemma ReachSelf(g: Graph, x: Id)
    ensures Reach(g, x, x)
  {
    assert PathBetween(g, [x], x, x);
  }

  lemma ReachCall(g: Graph, x: Id, y: Id)
    requires y in Callees(g, x)
    ensures Reach(g, x, y)
  {
    assert PathBetween(g, [x, y], x, y);
  }

  lemma ReachTrans(g: Graph, x: Id, y: Id, z: Id)
    requires Reach(g, x, y) && Reach(g, y, z)
    ensures Reach(g, x, z)
    ensures x != y ==> x == z ==> OnCycle(g, x)
  {
    var p :| PathBetween(g, p, x, y);
    var q :| PathBetween(g, q, y, z);
    assert PathBetween(g, p + q[1..], x, z);
  }

  lemma ReachThrough(g: Graph, from: set<Id>, v: Id, w: Id)
    requires w in Callees(g, v) && forall x :: x in from ==> Reach(g, x, v)
    ensures forall x :: x in from + {v} ==> Reach(g, x, w)
  {
    ReachCall(g, v, w);
    forall x | x in from ensures Reach(g, x, w) {
      ReachTrans(g, x, v, w);
    }
  }

  /** A set closed under calls is never left. */
  lemma {:induction false} ReachClosed(g: Graph, closed: set<Id>, p: seq<Id>)
    requires forall v, w :: v in closed && w in Callees(g, v) ==> w in closed
    requires IsPath(g, p) && p[0] in closed
    ensures p[|p| - 1] in closed
    decreases |p|
  {
    if |p| > 1 {
      assert p[1] in Callees(g, p[0]);
      var q := p[1..];
      assert forall i :: 0 < i < |q| ==> q[i] == p[i + 1] && q[i - 1] == p[i];
      ReachClosed(g, closed, q);
    }
  }

  // ----- The algorithm's state and its invariant -----

  /** The variables shared by the recursive calls (`low` is specified per call). */
  datatype Search = Search(index: map<Id, nat>, stack: seq<Id>, onStack: set<Id>, onCycle: set<Id>, next: nat)

  ghost predicate StackNumbered(s: Search) {
    && (forall x :: x in s.index ==> s.index[x] < s.next)
    && (forall x :: x in s.onStack <==> x in s.stack)
    && s.onStack <= s.index.Keys
    && (forall i, j :: 0 <= i < j < |s.stack| ==> s.index[s.stack[i]] < s.index[s.stack[j]])
  }

  /** Everything called by a finished subflow has been visited. */
  ghost predicate Explored(g: Graph, s: Search, open: set<Id>) {
    forall x, y :: x in s.index && x !in open && y in Callees(g, x) ==> y in s.index
  }

  /** Subflows whose component is complete call only such subflows. */
  ghost predicate SettledClosed(g: Graph, s: Search) {
    forall x, y :: x in s.index && x !in s.onStack && y in Callees(g, x) ==> y in s.index && y !in s.onStack
  }

  /** An open call reaches everything stacked above it. */
  ghost predicate ReachesDown(g: Graph, s: Search, open: set<Id>)
    requires s.onStack <= s.index.Keys && open <= s.onStack
  {
    forall x, y :: x in open && y in s.onStack && s.index[x] <= s.index[y] ==> Reach(g, x, y)
  }

  ghost predicate ReachesOpen(g: Graph, s: Search, open: set<Id>, y: Id)
    requires y in s.index && open <= s.index.Keys
  {
    exists x :: x in open && s.index[x] <= s.index[y] && Reach(g, y, x)
  }

  /** The answer is final for the subflows that have left the stack. */
  ghost predicate Answered(g: Graph, s: Search) {
    && s.onCycle <= s.index.Keys - s.onStack
    && (forall x :: x in s.index && x !in s.onStack ==> (x in s.onCycle <==> OnCycle(g, x)))
  }

  ghost predicate Inv(g: Graph, s: Search, open: set<Id>) {
    && StackNumbered(s)
    && open <= s.onStack
    && Explored(g, s, open)
    && SettledClosed(g, s)
    && ReachesDown(g, s, open)
    && (forall y {:trigger ReachesOpen(g, s, open, y)} :: y in s.onStack ==> ReachesOpen(g, s, open, y))
    && Answered(g, s)
  }

  // ----- The three state changes -----

  function Push(s: Search, v: Id): Search {
    s.(index := s.index[v := s.next], stack := s.stack + [v], onStack := s.onStack + {v}, next := s.next + 1)
  }

  lemma PushReachesOpen(g: Graph, s: Search, open: set<Id>, v: Id, y: Id)
    requires s.onStack <= s.index.Keys && open <= s.onStack && v !in s.index
    requires y in s.onStack ==> ReachesOpen(g, s, open, y)
    requires y in s.onStack + {v}
    ensures ReachesOpen(g, Push(s, v), open + {v}, y)
  {
    var t := Push(s, v);
    var x := v;
    if y == v {
      ReachSelf(g, v);
    } else {
      x :| x in open && s.index[x] <= s.index[y] && Reach(g, y, x);
    }
    assert x in open + {v} && t.index[x] <= t.index[y] && Reach(g, y, x);
  }

  lemma PushKeepsInv(g: Graph, s: Search, open: set<Id>, v: Id)
    requires Inv(g, s, open) && v !in s.index
    requires forall x :: x in open ==> Reach(g, x, v)
    ensures Inv(g, Push(s, v), open + {v})
  {
    var t := Push(s, v);
    ReachSelf(g, v);
    assert StackNumbered(t) by {
      assert forall i :: 0 <= i < |s.stack| ==> s.stack[i] in s.onStack && t.index[s.stack[i]] == s.index[s.stack[i]];
    }
    forall y {:trigger ReachesOpen(g, t, open + {v}, y)} | y in t.onStack ensures ReachesOpen(g, t, open + {v}, y) {
      assert y in s.onStack ==> ReachesOpen(g, s, open, y);
      PushReachesOpen(g, s, open, v, y);
    }
  }

  lemma ReturnReachesOpen(g: Graph, s: Search, open: set<Id>, v: Id, u: Id, y: Id)
    requires s.onStack <= s.index.Keys && open + {v} <= s.onStack && u in s.onStack && y in s.onStack
    requires s.index[u] < s.index[v] && Reach(g, v, u)
    requires ReachesOpen(g, s, open + {v}, u) && ReachesOpen(g, s, open + {v}, y)
    ensures ReachesOpen(g, s, open, y)
  {
    var x :| x in open + {v} && s.index[x] <= s.index[y] && Reach(g, y, x);
    if x == v {
      var top :| top in open + {v} && s.index[top] <= s.index[u] && Reach(g, u, top);
      ReachTrans(g, y, v, u);
      ReachTrans(g, y, u, top);
      assert top in open && s.index[top] <= s.index[y];
    } else {
      assert x in open;
    }
  }

  /** `v` returns with its component still open: it reaches an older stack entry. */
  lemma ReturnKeepsInv(g: Graph, s: Search, open: set<Id>, v: Id, u: Id)
    requires Inv(g, s, open + {v}) && v !in open
    requires u in s.onStack && s.index[u] < s.index[v] && Reach(g, v, u)
    requires forall y :: y in Callees(g, v) ==> y in s.index
    ensures Inv(g, s, open)
  {
    assert ReachesOpen(g, s, open + {v}, u);
    forall y {:trigger ReachesOpen(g, s, open, y)} | y in s.onStack ensures ReachesOpen(g, s, open, y) {
      assert ReachesOpen(g, s, open + {v}, y);
      ReturnReachesOpen(g, s, open, v, u, y);
    }
  }

  /** No call leaves the part of the stack from `base` on, except to settled subflows. */
  ghost predicate Sealed(g: Graph, s: Search, base: nat)
    requires base <= |s.stack|
  {
    forall x, y :: x in s.stack[base..] && y in Callees(g, x) ==> y in s.index && y !in s.stack[..base]
  }

  function Pop(g: Graph, s: Search, base: nat): Search
    requires base < |s.stack|
  {
    var scc := set x | x in s.stack[base..];
    var cyclic := |s.stack[base..]| > 1 || s.stack[base] in Callees(g, s.stack[base]);
    s.(stack := s.stack[..base], onStack := s.onStack - scc, onCycle := s.onCycle + if cyclic then scc else {})
  }

  /** A sealed part cannot reach an older stack entry. */
  lemma SealedUnreachable(g: Graph, s: Search, base: nat, x: Id, y: Id)
    requires StackNumbered(s) && SettledClosed(g, s) && base <= |s.stack| && Sealed(g, s, base)
    requires x in s.index && x !in s.stack[..base] && Reach(g, x, y)
    ensures y in s.index && y !in s.stack[..base]
  {
    var p :| PathBetween(g, p, x, y);
    var closed := set z | z in s.index && z !in s.stack[..base];
    assert s.stack == s.stack[..base] + s.stack[base..];
    ReachClosed(g, closed, p);
  }

  /** In a sealed part whose only open call is its lowest entry, every entry reaches that entry. */
  lemma SealedReturns(g: Graph, s: Search, open: set<Id>, base: nat, x: Id)
    requires base < |s.stack| && Inv(g, s, open + {s.stack[base]}) && Sealed(g, s, base)
    requires open <= set z | z in s.stack[..base]
    requires x in s.stack[base..]
    ensures Reach(g, x, s.stack[base]) && Reach(g, s.stack[base], x)
  {
    var v := s.stack[base];
    var k :| base <= k < |s.stack| && s.stack[k] == x;
    assert ReachesOpen(g, s, open + {v}, x);
    var o :| o in open + {v} && s.index[o] <= s.index[x] && Reach(g, x, o);
    if o != v {
      assert x !in s.stack[..base];
      SealedUnreachable(g, s, base, x, o);
    }
    assert s.index[v] <= s.index[x];
  }

  lemma SealedCyclic(g: Graph, s: Search, open: set<Id>, base: nat, x: Id)
    requires base < |s.stack| && Inv(g, s, open + {s.stack[base]}) && Sealed(g, s, base)
    requires open <= set z | z in s.stack[..base]
    requires x in s.stack[base..]
    ensures OnCycle(g, x) <==> |s.stack[base..]| > 1 || s.stack[base] in Callees(g, s.stack[base])
  {
    var v := s.stack[base];
    SealedReturns(g, s, open, base, x);
    if |s.stack[base..]| > 1 {
      var w := s.stack[base + 1];
      assert w in s.stack[base..] && w != v;
      SealedReturns(g, s, open, base, w);
      if x == v { ReachTrans(g, v, w, v); } else { ReachTrans(g, x, v, x); }
    } else {
      assert x == v;
      if v in Callees(g, v) {
        assert PathBetween(g, [v, v], v, v);
      } else if OnCycle(g, v) {
        var p :| PathBetween(g, p, v, v) && |p| >= 2;
        var w := p[1];
        assert w in Callees(g, p[0]) && v in s.stack[base..];
        assert w in s.index && w !in s.onStack by {
          assert s.stack == s.stack[..base] + s.stack[base..];
          assert s.stack[base..] == [v];
        }
        var settled := set z | z in s.index && z !in s.onStack;
        ReachClosed(g, settled, p[1..]);
        assert false;
      }
    }
  }

  lemma PopReachesOpen(g: Graph, s: Search, open: set<Id>, base: nat, y: Id)
    requires base < |s.stack| && StackNumbered(s) && open + {s.stack[base]} <= s.onStack
    requires y in s.stack[..base] && ReachesOpen(g, s, open + {s.stack[base]}, y)
    ensures ReachesOpen(g, Pop(g, s, base), open, y)
  {
    var v := s.stack[base];
    var x :| x in open + {v} && s.index[x] <= s.index[y] && Reach(g, y, x);
    var k :| 0 <= k < base && s.stack[k] == y;
    assert s.index[s.stack[k]] < s.index[s.stack[base]];
    assert x in open;
  }

  lemma PopStack(g: Graph, s: Search, base: nat)
    requires base < |s.stack| && StackNumbered(s)
    ensures var t := Pop(g, s, base); StackNumbered(t) && (forall y :: y in t.onStack <==> y in s.stack[..base])
    ensures forall y :: y in s.onStack <==> y in s.stack[..base] || y in s.stack[base..]
  {
    hide Callees;
    var t := Pop(g, s, base);
    assert s.stack == s.stack[..base] + s.stack[base..];
    assert forall x :: x in s.stack[base..] ==> x !in s.stack[..base];
    assert forall y :: y in t.onStack <==> y in s.stack[..base];
  }

  lemma PopStructure(g: Graph, s: Search, open: set<Id>, base: nat)
    requires base < |s.stack| && Inv(g, s, open + {s.stack[base]}) && Sealed(g, s, base)
    requires open <= set z | z in s.stack[..base]
    ensures var t := Pop(g, s, base);
            && StackNumbered(t) && open <= t.onStack && (forall y :: y in t.onStack <==> y in s.stack[..base])
            && Explored(g, t, open) && SettledClosed(g, t)
  {
    assert s.stack[base] in s.stack[base..];
    PopStack(g, s, base);
    hide StackNumbered, ReachesDown, ReachesOpen, Answered, Callees;
  }

  lemma PopKeepsInv(g: Graph, s: Search, open: set<Id>, base: nat)
    requires base < |s.stack| && Inv(g, s, open + {s.stack[base]}) && Sealed(g, s, base)
    requires open <= set z | z in s.stack[..base]
    ensures Inv(g, Pop(g, s, base), open)
  {
    var t := Pop(g, s, base);
    PopStructure(g, s, open, base);
    forall y {:trigger ReachesOpen(g, t, open, y)} | y in t.onStack ensures ReachesOpen(g, t, open, y) {
      assert ReachesOpen(g, s, open + {s.stack[base]}, y);
      PopReachesOpen(g, s, open, base, y);
    }
    forall x | x in t.index && x !in t.onStack ensures x in t.onCycle <==> OnCycle(g, x) {
      if x in s.onStack { SealedCyclic(g, s, open, base, x); }
    }
  }

  // ----- What one recursive call adds -----

  /** Earlier numbers and the earlier stack stay; new numbers are larger. */
  ghost predicate Extends(s: Search, t: Search) {
    && (forall x :: x in s.index ==> x in t.index && t.index[x] == s.index[x])
    && (forall x :: x in t.index && x !in s.index ==> t.index[x] >= s.next)
    && s.next <= t.next
    && s.stack <= t.stack
  }

  lemma ExtendsTrans(s: Search, t: Search, u: Search)
    requires Extends(s, t) && Extends(t, u)
    ensures Extends(s, u)
  {}

  /** `lowest` bounds every call from the stack above `base` into the stack below it,
      apart from the calls of `v` still to be followed. */
  ghost predicate CallsBounded(g: Graph, s: Search, base: nat, v: Id, pending: set<Id>, lowest: nat)
    requires base <= |s.stack| && StackNumbered(s)
  {
    forall x, y ::
      x in s.stack[base..] && y in Callees(g, x) && y in s.stack[..base] && !(x == v && y in pending) ==>
        lowest <= s.index[y]
  }

  /** `lowest` is the number of a stacked subflow that `v` reaches. */
  ghost predicate LowWitness(g: Graph, s: Search, v: Id, u: Id, lowest: nat) {
    u in s.onStack && u in s.index && s.index[u] == lowest && Reach(g, v, u)
  }

  lemma BoundedSealed(g: Graph, s: Search, open: set<Id>, base: nat, lowest: nat)
    requires base < |s.stack| && Inv(g, s, open + {s.stack[base]})
    requires CallsBounded(g, s, base, s.stack[base], {}, lowest) && lowest == s.index[s.stack[base]]
    requires forall y :: y in Callees(g, s.stack[base]) ==> y in s.index
    requires open <= set z | z in s.stack[..base]
    ensures Sealed(g, s, base)
  {
    forall x, y | x in s.stack[base..] && y in Callees(g, x) ensures y in s.index && y !in s.stack[..base] {
      var k :| base <= k < |s.stack| && s.stack[k] == x;
      assert x in s.index && (x in open + {s.stack[base]} ==> x == s.stack[base]);
      assert forall m :: 0 <= m < base ==> s.index[s.stack[m]] < lowest;
    }
  }

  /** Following a call to `w` that was new: `w`'s own bound joins the caller's. */
  lemma BoundAfterCall(g: Graph, s: Search, t: Search, base: nat, v: Id, w: Id, pending: set<Id>, lowV: nat, lowW: nat)
    requires StackNumbered(s) && StackNumbered(t) && Extends(s, t) && base <= |s.stack|
    requires w !in s.index
    requires CallsBounded(g, s, base, v, pending, lowV)
    requires t.stack == s.stack || CallsBounded(g, t, |s.stack|, w, {}, lowW)
    ensures CallsBounded(g, t, base, v, pending - {w}, Min(lowV, lowW))
  {
    var lowest := Min(lowV, lowW);
    assert t.stack[..base] == s.stack[..base];
    forall x, y | x in t.stack[base..] && y in Callees(g, x) && y in t.stack[..base] && !(x == v && y in pending - {w})
      ensures lowest <= t.index[y]
    {
      var k :| base <= k < |t.stack| && t.stack[k] == x;
      assert y in s.stack && y in s.index && y != w;
      if k < |s.stack| {
        assert s.stack[k] == x && x in s.stack[base..];
        assert lowV <= s.index[y];
      } else {
        assert x in t.stack[|s.stack|..] && y in t.stack[..|s.stack|];
      }
    }
  }

  lemma WitnessAfterCall(g: Graph, s: Search, t: Search, v: Id, w: Id, lowV: nat, lowW: nat)
    requires StackNumbered(s) && StackNumbered(t) && Extends(s, t) && v in s.index && w in Callees(g, v)
    requires exists u :: LowWitness(g, s, v, u, lowV)
    requires if w in t.onStack then exists u :: LowWitness(g, t, w, u, lowW) else lowV <= lowW
    ensures exists u :: LowWitness(g, t, v, u, Min(lowV, lowW))
  {
    if lowW < lowV {
      var u :| LowWitness(g, t, w, u, lowW);
      ReachCall(g, v, w);
      ReachTrans(g, v, w, u);
      assert LowWitness(g, t, v, u, Min(lowV, lowW));
    } else {
      var u :| LowWitness(g, s, v, u, lowV);
      var k :| 0 <= k < |s.stack| && s.stack[k] == u;
      assert t.stack[k] == u;
      assert LowWitness(g, t, v, u, Min(lowV, lowW));
    }
  }

  function Min(a: nat, b: nat): nat {
    if b < a then b else a
  }

  /** `v`, entered in state `s0`, is being explored; the calls in `rest` are still to be followed. */
  ghost predicate Exploring(g: Graph, s0: Search, s: Search, open: set<Id>, v: Id, rest: set<Id>, lowV: nat) {
    && Inv(g, s, open + {v}) && Extends(Push(s0, v), s)
    && rest <= Callees(g, v) && (forall y :: y in Callees(g, v) && y !in rest ==> y in s.index)
    && lowV <= s.index[v] && (exists u :: LowWitness(g, s, v, u, lowV))
    && CallsBounded(g, s, |s0.stack|, v, rest, lowV)
  }

  /** What a finished call on `v`, entered in state `s0`, tells its caller. */
  ghost predicate Visited(g: Graph, s0: Search, s: Search, v: Id, lowV: nat) {
    && StackNumbered(s) && Extends(s0, s) && v in s.index && s.index[v] == s0.next
    && if v in s.onStack then
         && lowV < s.index[v] && (exists u :: LowWitness(g, s, v, u, lowV))
         && CallsBounded(g, s, |s0.stack|, v, {}, lowV)
       else
         s.stack == s0.stack && lowV == s.index[v]
  }

  lemma EnterExplores(g: Graph, s: Search, open: set<Id>, v: Id)
    requires Inv(g, s, open) && v !in s.index
    requires forall x :: x in open ==> Reach(g, x, v)
    ensures Exploring(g, s, Push(s, v), open, v, Callees(g, v), s.next)
  {
    PushKeepsInv(g, s, open, v);
    ReachSelf(g, v);
    var t := Push(s, v);
    assert LowWitness(g, t, v, v, s.next);
    assert t.stack[|s.stack|..] == [v];
  }

  lemma FollowNew(
    g: Graph, s0: Search, s: Search, t: Search, open: set<Id>, v: Id, w: Id, rest: set<Id>, lowV: nat, lowW: nat)
    requires Exploring(g, s0, s, open, v, rest, lowV) && w in rest && w !in s.index
    requires Inv(g, t, open + {v}) && Visited(g, s, t, w, lowW)
    ensures Exploring(g, s0, t, open, v, rest - {w}, Min(lowV, lowW))
  {
    ExtendsTrans(Push(s0, v), s, t);
    BoundAfterCall(g, s, t, |s0.stack|, v, w, rest, lowV, lowW);
    WitnessAfterCall(g, s, t, v, w, lowV, lowW);
  }

  lemma SeenBounded(g: Graph, s: Search, base: nat, v: Id, w: Id, rest: set<Id>, lowV: nat)
    requires base <= |s.stack| && StackNumbered(s) && w in s.index && CallsBounded(g, s, base, v, rest, lowV)
    ensures CallsBounded(g, s, base, v, rest - {w}, if w in s.onStack then Min(lowV, s.index[w]) else lowV)
  {
  }

  lemma FollowSeen(g: Graph, s0: Search, s: Search, open: set<Id>, v: Id, w: Id, rest: set<Id>, lowV: nat)
    requires Exploring(g, s0, s, open, v, rest, lowV) && w in rest && w in s.index
    ensures Exploring(g, s0, s, open, v, rest - {w}, if w in s.onStack then Min(lowV, s.index[w]) else lowV)
  {
    assert StackNumbered(s) && |s0.stack| <= |s.stack|;
    SeenBounded(g, s, |s0.stack|, v, w, rest, lowV);
    hide Inv, Extends, Reach, CallsBounded, StackNumbered;
    ReachCall(g, v, w);
    assert w in s.onStack ==> LowWitness(g, s, v, w, s.index[w]);
  }

  lemma LeaveOpen(g: Graph, s0: Search, s: Search, open: set<Id>, v: Id, lowV: nat)
    requires Exploring(g, s0, s, open, v, {}, lowV) && v !in s0.index && StackNumbered(s0) && open <= s0.onStack
    requires lowV != s.index[v]
    ensures Inv(g, s, open) && Visited(g, s0, s, v, lowV)
  {
    var u :| LowWitness(g, s, v, u, lowV);
    ReturnKeepsInv(g, s, open, v, u);
    assert Push(s0, v).index[v] == s0.next;
  }

  lemma LeaveClosed(g: Graph, s0: Search, s: Search, open: set<Id>, v: Id, lowV: nat)
    requires Exploring(g, s0, s, open, v, {}, lowV) && v !in s0.index && StackNumbered(s0) && open <= s0.onStack
    requires lowV == s.index[v]
    ensures |s0.stack| < |s.stack| && s.stack[|s0.stack|] == v
    ensures var t := Pop(g, s, |s0.stack|); Inv(g, t, open) && Visited(g, s0, t, v, lowV)
  {
    var base := |s0.stack|;
    assert s.stack[..base] == s0.stack && s.stack[base] == v by {
      var p := Push(s0, v);
      assert p.stack <= s.stack && p.stack[base] == v;
    }
    BoundedSealed(g, s, open, base, lowV);
    PopKeepsInv(g, s, open, base);
    assert v in s.stack[base..];
  }

  // ----- The algorithm -----

  class Detector {
    const g: Graph
    ghost const nodes: set<Id>
    var index: map<Id, nat>
    var low: map<Id, nat>
    var stack: seq<Id>
    var onStack: set<Id>
    var onCycle: set<Id>
    var next: nat

    ghost function State(): Search
      reads this
    {
      Search(index, stack, onStack, onCycle, next)
    }

    /** Only subflows of the call graph are numbered, and those have a low-link. */
    ghost predicate Within()
      reads this
    {
      low.Keys == index.Keys <= nodes && (forall v :: v in nodes ==> Callees(g, v) <= nodes)
    }

    constructor (g: Graph, ghost nodes: set<Id>)
      requires forall v :: v in nodes ==> Callees(g, v) <= nodes
      ensures Inv(g, State(), {}) && Within() && this.g == g && this.nodes == nodes
    {
      this.g, this.nodes := g, nodes;
      index, low, stack, onStack, onCycle, next := map[], map[], [], {}, {}, 0;
    }

    /** Removes the stack down to `v` and records it as one component. */
    method PopComponent(v: Id, ghost base: nat)
      requires StackNumbered(State()) && base < |stack| && stack[base] == v
      modifies this`stack, this`onStack, this`onCycle
      ensures State() == Pop(g, old(State()), base)
    {
      var top := FindOnStack(v, base);
      hide StackNumbered, Callees;
      var scc := stack[top..];
      stack := stack[..top];
      var cyclic := |scc| > 1 || v in Callees(g, v);
      MarkComponent(scc, cyclic);
    }

    method FindOnStack(v: Id, ghost base: nat) returns (top: nat)
      requires StackNumbered(State()) && base < |stack| && stack[base] == v
      ensures top == base
    {
      assert forall k :: base < k < |stack| ==> index[stack[base]] < index[stack[k]];
      hide StackNumbered;
      top := |stack| - 1;
      while stack[top] != v
        invariant base <= top < |stack|
        decreases top
      {
        top := top - 1;
      }
    }

    method MarkComponent(scc: seq<Id>, cyclic: bool)
      modifies this`onStack, this`onCycle
      ensures onStack == old(onStack) - set x | x in scc
      ensures onCycle == old(onCycle) + if cyclic then set x | x in scc else {}
    {
      for i := 0 to |scc|
        invariant onStack == old(onStack) - set x | x in scc[..i]
        invariant onCycle == old(onCycle) + if cyclic then set x | x in scc[..i] else {}
      {
        onStack := onStack - {scc[i]};
        if cyclic {
          onCycle := onCycle + {scc[i]};
        }
        assert scc[..i + 1] == scc[..i] + [scc[i]];
      }
      assert scc[..|scc|] == scc;
    }

    method VisitAll(ids: seq<Id>)
      requires Inv(g, State(), {}) && Within() && forall k :: 0 <= k < |ids| ==> ids[k] in nodes
      modifies this
      ensures forall k :: 0 <= k < |ids| ==> (ids[k] in onCycle <==> OnCycle(g, ids[k]))
    {
      hide Inv, Reach, CallsBounded, LowWitness;
      for i := 0 to |ids|
        invariant Inv(g, State(), {}) && Within()
        invariant forall k :: 0 <= k < i ==> ids[k] in index
      {
        if ids[i] !in index {
          Connect(ids[i], {});
        }
      }
      AllSettled(g, State());
    }

    /** Visits `v` and everything it reaches that is still unvisited. */
    method Connect(v: Id, ghost open: set<Id>)
      requires Inv(g, State(), open) && Within() && v !in index && v in nodes
      requires forall x :: x in open ==> Reach(g, x, v)
      modifies this`index, this`low, this`stack, this`onStack, this`onCycle, this`next
      ensures Inv(g, State(), open) && Within() && v in low && Visited(g, old(State()), State(), v, low[v])
      ensures forall x :: x in old(low) ==> x in low && low[x] == old(low[x])
      decreases nodes - index.Keys, 0
    {
      hide Reach, CallsBounded, LowWitness, Explored, SettledClosed, ReachesDown, ReachesOpen, Answered;
      ghost var s0 := State();
      EnterExplores(g, s0, open, v);
      index, low := index[v := next], low[v := next];
      next := next + 1;
      stack := stack + [v];
      onStack := onStack + {v};
      assert State() == Push(s0, v);
      var rest := Callees(g, v);
      while rest != {}
        invariant Within() && v in low && Exploring(g, s0, State(), open, v, rest, low[v])
        invariant forall x :: x in old(low) ==> x in low && low[x] == old(low[x])
      {
        var w :| w in rest;
        Follow(v, w, s0, open, rest);
        rest := rest - {w};
      }
      if low[v] != index[v] {
        LeaveOpen(g, s0, State(), open, v, low[v]);
        return;
      }
      LeaveClosed(g, s0, State(), open, v, low[v]);
      PopComponent(v, |s0.stack|);
    }

    /** The body of the loop over the callees of `v`. */
    method Follow(v: Id, w: Id, ghost s0: Search, ghost open: set<Id>, ghost rest: set<Id>)
      requires Within() && v in low && Exploring(g, s0, State(), open, v, rest, low[v])
      requires w in rest && forall x :: x in open ==> Reach(g, x, v)
      modifies this`index, this`low, this`stack, this`onStack, this`onCycle, this`next
      ensures Within() && v in low && Exploring(g, s0, State(), open, v, rest - {w}, low[v])
      ensures forall x :: x in old(low) && x != v ==> x in low && low[x] == old(low[x])
      decreases nodes - index.Keys, 1
    {
      hide Inv, Reach, CallsBounded, LowWitness;
      ghost var s := State();
      if w !in index {
        ReachThrough(g, open, v, w);
        Connect(w, open + {v});
        ghost var t, lowest := State(), Min(low[v], low[w]);
        FollowNew(g, s0, s, t, open, v, w, rest, low[v], low[w]);
        low := low[v := Min(low[v], low[w])];
        assert State() == t && low[v] == lowest;
      } else {
        FollowSeen(g, s0, s, open, v, w, rest, low[v]);
        if w in onStack {
          low := low[v := Min(low[v], index[w])];
        }
        assert State() == s;
      }
    }
  }

  // ----- The result -----

  /** The subflows of `ids` on a call cycle, each at its first occurrence. */
  ghost function CycleReport(g: Graph, ids: seq<Id>): seq<Id> {
    if ids == [] then []
    else
      var before, id := ids[..|ids| - 1], ids[|ids| - 1];
      CycleReport(g, before) + if OnCycle(g, id) && id !in before then [id] else []
  }

  /** The position of the first occurrence of `id`. */
  function FirstAt(ids: seq<Id>, id: Id): (k: nat)
    requires id in ids
    ensures k < |ids| && ids[k] == id && id !in ids[..k]
  {
    if ids[0] == id then 0 else 1 + FirstAt(ids[1..], id)
  }

  /** The report holds exactly the subflows on a cycle, once each, in document order. */
  lemma {:induction false} CycleReportMeaning(g: Graph, ids: seq<Id>)
    ensures forall id :: id in CycleReport(g, ids) <==> id in ids && OnCycle(g, id)
    ensures forall i, j :: 0 <= i < j < |CycleReport(g, ids)| ==>
              FirstAt(ids, CycleReport(g, ids)[i]) < FirstAt(ids, CycleReport(g, ids)[j])
  {
    if ids != [] {
      var before, last := ids[..|ids| - 1], ids[|ids| - 1];
      assert ids == before + [last];
      CycleReportMeaning(g, before);
      forall id | id in before ensures FirstAt(ids, id) == FirstAt(before, id) < |before| {
        FirstAtUnique(ids, id, FirstAt(before, id));
      }
      if last !in before { FirstAtUnique(ids, last, |before|); }
    }
  }

  lemma FirstAtUnique(ids: seq<Id>, id: Id, k: nat)
    requires k < |ids| && ids[k] == id && id !in ids[..k]
    ensures id in ids && FirstAt(ids, id) == k
  {
    if k > 0 {
      assert ids[1..][..k - 1] == ids[..k][1..] && ids[0] == ids[..k][0];
      FirstAtUnique(ids[1..], id, k - 1);
    }
  }

  ghost function Nodes(g: Graph, ids: seq<Id>): set<Id> {
    (set v | v in ids) + (set v, w | v in g && w in g[v] :: w)
  }

  method DetectCircularDeps(ids: seq<Id>, g: Graph) returns (cycles: seq<Id>)
    ensures cycles == CycleReport(g, ids)
  {
    var d := new Detector(g, Nodes(g, ids));
    d.VisitAll(ids);
    cycles := ReportOnce(ids, d.onCycle, g);
  }

  /** The final loop: each reported identifier is struck off, so it is reported once. */
  method ReportOnce(ids: seq<Id>, found: set<Id>, ghost g: Graph) returns (cycles: seq<Id>)
    requires forall k :: 0 <= k < |ids| ==> (ids[k] in found <==> OnCycle(g, ids[k]))
    ensures cycles == CycleReport(g, ids)
  {
    cycles := [];
    var onCycle := found;
    for i := 0 to |ids|
      invariant forall id :: id in onCycle <==> id in found && id !in ids[..i]
      invariant cycles == CycleReport(g, ids[..i])
    {
      assert ids[..i + 1][..i] == ids[..i];
      if ids[i] in onCycle {
        cycles := cycles + [ids[i]];
        onCycle := onCycle - {ids[i]};
      }
    }
    assert ids[..|ids|] == ids;
  }

  lemma NoneOpen(g: Graph, s: Search, x: Id)
    requires x in s.index
    ensures !ReachesOpen(g, s, {}, x)
  {}

  /** With no call open, the stack is empty and every answer is final. */
  lemma AllSettled(g: Graph, s: Search)
    requires Inv(g, s, {})
    ensures forall x :: x in s.index ==> (x in s.onCycle <==> OnCycle(g, x))
  {
    forall x | x in s.index ensures x in s.onCycle <==> OnCycle(g, x) {
      NoneOpen(g, s, x);
    }
  }
}
