/**
  Which variables carry untrusted input (core/analyzer/rule_sql_injection.go, `buildTaintedVars`): a worklist
  over reference edges, against the least set closed under taint propagation. Maps are walked in any order.
 */
module TaintFlow {

  type Id(==, !new)
  type Var(==, !new)

  /** A writer block: whether its raw type is an untrusted source, and the variables its value refers to. */
  datatype Writer = Writer(isSource: bool, refs: seq<Var>)

  datatype Context = Context(blocks: map<Id, Writer>, writersByVar: map<Var, seq<Id>>)

  // ----- The specification -----

  /** `id` is a known block writing `v`. */
  predicate Writes(c: Context, id: Id, v: Var) {
    v in c.writersByVar && id in c.writersByVar[v] && id in c.blocks
  }

  ghost predicate FromSource(c: Context, v: Var) {
    exists id :: Writes(c, id, v) && c.blocks[id].isSource
  }

  /** Some writer's value refers to `r`. */
  ghost predicate Carries(c: Context, v: Var, r: Var) {
    exists id :: Writes(c, id, v) && r in c.blocks[id].refs
  }

  ghost predicate Closed(c: Context, s: set<Var>) {
    && (forall v :: FromSource(c, v) ==> v in s)
    && (forall v, r :: r in s && Carries(c, v, r) ==> v in s)
  }

  ghost predicate IsLeastClosed(c: Context, s: set<Var>) {
    Closed(c, s) && forall t :: Closed(c, t) ==> s <= t
  }

  /** There is only one such set, so the order of iteration cannot matter. */
  lemma LeastIsUnique(c: Context, s: set<Var>, t: set<Var>)
    requires IsLeastClosed(c, s) && IsLeastClosed(c, t)
    ensures s == t
  {
    hide Closed;
    assert s <= t && t <= s;
  }

  // ----- The worklist -----

  function Lookup(m: map<Var, seq<Var>>, r: Var): seq<Var> {
    if r in m then m[r] else []
  }

  /** Every recorded edge is real: the dependent has a writer whose value references the variable. */
  ghost predicate EdgesSound(c: Context, dependents: map<Var, seq<Var>>) {
    forall r, v :: v in Lookup(dependents, r) ==> Carries(c, v, r)
  }

  /** Every reference of the writers of `v` seen so far has its edge, unless the writer is a source. */
  ghost predicate EdgesOf(c: Context, dependents: map<Var, seq<Var>>, v: Var, ids: seq<Id>) {
    forall i, r :: 0 <= i < |ids| && ids[i] in c.blocks && !c.blocks[ids[i]].isSource && r in c.blocks[ids[i]].refs ==>
      v in Lookup(dependents, r)
  }

  ghost predicate Distinct(s: seq<Var>) {
    forall i, j :: 0 <= i < j < |s| ==> s[i] != s[j]
  }

  /** The marks and the queue: `log` is every variable ever enqueued, of which the last ones are waiting. */
  ghost predicate Marked(tainted: set<Var>, log: seq<Var>) {
    Distinct(log) && forall v :: v in tainted <==> v in log
  }

  lemma MarkStep(tainted: set<Var>, log: seq<Var>, v: Var)
    requires Marked(tainted, log) && v !in tainted
    ensures Marked(tainted + {v}, log + [v])
  {}

  method Mark(tainted: set<Var>, log: seq<Var>, v: Var) returns (more: set<Var>, longer: seq<Var>)
    requires Marked(tainted, log)
    ensures Marked(more, longer) && more == tainted + {v} && log <= longer
    ensures v in tainted ==> longer == log
  {
    more, longer := tainted, log;
    if v !in tainted {
      MarkStep(tainted, log, v);
      more, longer := tainted + {v}, log + [v];
    }
  }

  method AddEdges(dependents: map<Var, seq<Var>>, refs: seq<Var>, v: Var) returns (more: map<Var, seq<Var>>)
    ensures forall r, w :: w in Lookup(more, r) <==> w in Lookup(dependents, r) || (w == v && r in refs)
  {
    more := dependents;
    for i := 0 to |refs|
      invariant forall r, w :: w in Lookup(more, r) <==> w in Lookup(dependents, r) || (w == v && r in refs[..i])
    {
      assert refs[..i + 1] == refs[..i] + [refs[i]];
      more := more[refs[i] := Lookup(more, refs[i]) + [v]];
    }
    assert refs[..|refs|] == refs;
  }

  /** The writers of one variable: marks it if one is a source, and records the other ones' references. */
  method ScanWriters(c: Context, v: Var, tainted: set<Var>, log: seq<Var>, dependents: map<Var, seq<Var>>)
    returns (marks: set<Var>, longer: seq<Var>, edges: map<Var, seq<Var>>)
    requires v in c.writersByVar && Marked(tainted, log) && EdgesSound(c, dependents)
    ensures Marked(marks, longer) && log <= longer && EdgesSound(c, edges)
    ensures marks == tainted + (if FromSource(c, v) then {v} else {})
    ensures EdgesOf(c, edges, v, c.writersByVar[v])
    ensures forall r, w :: w in Lookup(dependents, r) ==> w in Lookup(edges, r)
  {
    hide Marked;
    var ids := c.writersByVar[v];
    marks, longer, edges := tainted, log, dependents;
    for i := 0 to |ids|
      invariant Marked(marks, longer) && log <= longer && EdgesSound(c, edges)
      invariant tainted <= marks <= tainted + {v}
      invariant v in marks && v !in tainted ==> FromSource(c, v)
      invariant forall k :: 0 <= k < i && ids[k] in c.blocks && c.blocks[ids[k]].isSource ==> v in marks
      invariant EdgesOf(c, edges, v, ids[..i])
      invariant forall r, w :: w in Lookup(dependents, r) ==> w in Lookup(edges, r)
    {
      if ids[i] in c.blocks {
        var w := c.blocks[ids[i]];
        assert Writes(c, ids[i], v);
        if w.isSource {
          marks, longer := Mark(marks, longer, v);
        } else {
          ghost var was := edges;
          edges := AddEdges(edges, w.refs, v);
          assert EdgesSound(c, edges) by {
            forall r, x | x in Lookup(edges, r) ensures Carries(c, x, r) {
              if x !in Lookup(was, r) { assert Writes(c, ids[i], x); }
            }
          }
        }
      }
    }
    assert ids[..|ids|] == ids;
    if FromSource(c, v) {
      var id :| Writes(c, id, v) && c.blocks[id].isSource;
      var k :| 0 <= k < |ids| && ids[k] == id;
      assert v in marks;
    }
  }

  /** `buildTaintedVars`. `enqueued` lists the variables in the order they entered the queue. */
  method BuildTaintedVars(c: Context) returns (tainted: set<Var>, enqueued: seq<Var>)
    ensures IsLeastClosed(c, tainted)
    ensures Distinct(enqueued) && forall v :: v in tainted <==> v in enqueued
  {
    var dependents: map<Var, seq<Var>>;
    tainted, enqueued, dependents := Seed(c);
    tainted, enqueued := Propagate(c, tainted, enqueued, dependents);
  }

  method Seed(c: Context) returns (tainted: set<Var>, log: seq<Var>, dependents: map<Var, seq<Var>>)
    ensures Marked(tainted, log) && EdgesSound(c, dependents)
    ensures forall v :: v in tainted <==> FromSource(c, v)
    ensures forall v :: v in c.writersByVar ==> EdgesOf(c, dependents, v, c.writersByVar[v])
  {
    hide Marked, FromSource, EdgesSound;
    tainted, log, dependents := {}, [], map[];
    Nothing(c);
    var rest := c.writersByVar.Keys;
    while rest != {}
      invariant rest <= c.writersByVar.Keys && Marked(tainted, log) && EdgesSound(c, dependents)
      invariant forall v :: v in tainted ==> FromSource(c, v)
      invariant forall v :: v in c.writersByVar && v !in rest && FromSource(c, v) ==> v in tainted
      invariant forall v :: v in c.writersByVar && v !in rest ==> EdgesOf(c, dependents, v, c.writersByVar[v])
    {
      var v :| v in rest;
      tainted, log, dependents := ScanWriters(c, v, tainted, log, dependents);
      rest := rest - {v};
    }
    SourcesAreWritten(c);
  }

  lemma Nothing(c: Context)
    ensures Marked({}, []) && EdgesSound(c, map[])
  {}

  lemma SourcesAreWritten(c: Context)
    ensures forall v :: FromSource(c, v) ==> v in c.writersByVar
  {}

  method Propagate(c: Context, seeds: set<Var>, log: seq<Var>, dependents: map<Var, seq<Var>>)
    returns (tainted: set<Var>, enqueued: seq<Var>)
    requires Marked(seeds, log) && EdgesSound(c, dependents) && forall v :: v in seeds <==> FromSource(c, v)
    requires forall v :: v in c.writersByVar ==> EdgesOf(c, dependents, v, c.writersByVar[v])
    ensures IsLeastClosed(c, tainted)
    ensures Distinct(enqueued) && forall v :: v in tainted <==> v in enqueued
  {
    hide Closed, FromSource, Carries, Marked, EdgesOf, EdgesSound;
    tainted, enqueued := seeds, log;
    SeedsLeast(c, seeds);
    WrittenOnly(c, seeds);
    // The queue is what has been enqueued and not yet taken: enqueued[taken..].
    var taken := 0;
    while taken < |enqueued|
      invariant taken <= |enqueued| && Marked(tainted, enqueued) && seeds <= tainted <= c.writersByVar.Keys
      invariant forall t :: Closed(c, t) ==> tainted <= t
      invariant forall k, v :: 0 <= k < taken && v in Lookup(dependents, enqueued[k]) ==> v in tainted
      decreases c.writersByVar.Keys - tainted, |enqueued| - taken
    {
      LoggedIsTainted(tainted, enqueued, taken);
      ghost var before, marks := enqueued, tainted;
      tainted, enqueued := MarkDependents(c, enqueued[taken], tainted, enqueued, dependents);
      assert forall k :: 0 <= k <= taken ==> enqueued[k] == before[k];
      taken := taken + 1;
    }
    FixpointClosed(c, tainted, enqueued, dependents);
  }

  lemma LoggedIsTainted(tainted: set<Var>, log: seq<Var>, k: nat)
    requires Marked(tainted, log) && k < |log|
    ensures log[k] in tainted
  {}

  method MarkDependents(c: Context, r: Var, tainted: set<Var>, log: seq<Var>, dependents: map<Var, seq<Var>>)
    returns (more: set<Var>, longer: seq<Var>)
    requires r in tainted && tainted <= c.writersByVar.Keys && Marked(tainted, log) && EdgesSound(c, dependents)
    requires forall t :: Closed(c, t) ==> tainted <= t
    ensures tainted <= more <= c.writersByVar.Keys && Marked(more, longer) && log <= longer
    ensures more == tainted ==> longer == log
    ensures forall t :: Closed(c, t) ==> more <= t
    ensures forall v :: v in Lookup(dependents, r) ==> v in more
  {
    hide Closed, Marked, EdgesSound;
    more, longer := tainted, log;
    var ds := Lookup(dependents, r);
    for i := 0 to |ds|
      invariant tainted <= more <= c.writersByVar.Keys && Marked(more, longer) && log <= longer
      invariant more == tainted ==> longer == log
      invariant forall t :: Closed(c, t) ==> more <= t
      invariant forall k :: 0 <= k < i ==> ds[k] in more
    {
      EdgeForces(c, dependents, r, ds[i], more);
      more, longer := Mark(more, longer, ds[i]);
    }
  }

  /** Once the queue is empty, the marks are closed. */
  lemma FixpointClosed(c: Context, tainted: set<Var>, log: seq<Var>, dependents: map<Var, seq<Var>>)
    requires Marked(tainted, log) && forall v :: FromSource(c, v) ==> v in tainted
    requires forall v :: v in c.writersByVar ==> EdgesOf(c, dependents, v, c.writersByVar[v])
    requires forall k, v :: 0 <= k < |log| && v in Lookup(dependents, log[k]) ==> v in tainted
    ensures Closed(c, tainted) && Distinct(log) && forall v :: v in tainted <==> v in log
  {
    forall v, r | r in tainted && Carries(c, v, r) ensures v in tainted {
      var id :| Writes(c, id, v) && r in c.blocks[id].refs;
      if c.blocks[id].isSource {
        assert FromSource(c, v);
      } else {
        var i :| 0 <= i < |c.writersByVar[v]| && c.writersByVar[v][i] == id;
        assert v in Lookup(dependents, r);
        var k :| 0 <= k < |log| && log[k] == r;
      }
    }
  }

  lemma SeedsLeast(c: Context, seeds: set<Var>)
    requires forall v :: v in seeds <==> FromSource(c, v)
    ensures forall t :: Closed(c, t) ==> seeds <= t
  {}

  lemma WrittenOnly(c: Context, seeds: set<Var>)
    requires forall v :: v in seeds <==> FromSource(c, v)
    ensures seeds <= c.writersByVar.Keys
  {}

  lemma EdgeForces(c: Context, dependents: map<Var, seq<Var>>, r: Var, v: Var, tainted: set<Var>)
    requires EdgesSound(c, dependents) && v in Lookup(dependents, r) && r in tainted
    requires forall t :: Closed(c, t) ==> tainted <= t
    ensures v in c.writersByVar && forall t :: Closed(c, t) ==> tainted + {v} <= t
  {
    assert Carries(c, v, r);
  }
}
