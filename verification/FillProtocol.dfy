/**
  The fenced fill protocol of a declared cache (core/cache/typed.go, `GetOrFill` and
  `fillAndStore`), as a state machine over the steps that other goroutines can come between.

  A value is represented by the key it was read for and its version: how often the key had been
  written when the value was read. `fenceOf` gives the fence a key's callers pass along with it.
 */
module FillProtocol {

  type Key(==, !new)
  type Fence(==, !new)
  type Caller = nat
  type Writer = nat

  /** A value read by a fill. `live`: the filler's context had not ended when the fill returned. */
  datatype Value = Value(key: Key, version: nat, live: bool)

  /** How a fill, or the flight around it, ends. */
  datatype Outcome = Got(value: Value) | Failed | LeaderGone

  /** The progress of `fillAndStore`. */
  datatype Stage =
    | Begin
    | Captured(fence: nat)
    | Returned(fence: nat, result: Outcome)
    | Storing(fence: nat, value: Value)

  /** The progress of `GetOrFill`. */
  datatype Phase =
    | Probing
    | Trying(attempt: nat)
    | Joined(attempt: nat, leader: Caller)
    | Rechecking(attempt: nat)
    | Leading(attempt: nat, stage: Stage)
    | Delivered(attempt: nat, result: Outcome)
    | FillingAlone(stage: Stage)
    | Done(answer: Answer)

  datatype Answer = Served(value: Value) | ContextError | FillError

  /** `fills` counts how often this caller ran its fill function. */
  datatype CallerState = CallerState(key: Key, live: bool, fills: nat, phase: Phase)

  /** An invalidation in progress. The protocol writes, bumps the fence, then deletes the key. */
  datatype Invalidation = Wrote(key: Key) | FirstDone(key: Key)

  datatype State = State(
    writes: map<Key, nat>,
    generation: map<Fence, nat>,
    cache: map<Key, Value>,
    flights: map<Key, Caller>,
    callers: map<Caller, CallerState>,
    invalidations: map<Writer, Invalidation>)

  const MAX_FLIGHT_ATTEMPTS: nat := 3

  /** `bumpFirst` is the documented order; without it the key is deleted before the fence is bumped. */
  datatype Config = Config(fenceOf: Key -> Fence, bumpFirst: bool)

  const INITIAL := State(map[], map[], map[], map[], map[], map[])

  function Count<T(==)>(m: map<T, nat>, t: T): nat {
    if t in m then m[t] else 0
  }

  function CurrentVersion(s: State, k: Key): nat {
    Count(s.writes, k)
  }

  function Generation(c: Config, s: State, k: Key): nat {
    Count(s.generation, c.fenceOf(k))
  }

  // ----- The steps -----

  datatype Action =
    | Arrive(caller: Caller, key: Key)
    | EndContext(caller: Caller)
    | Probe(caller: Caller)
    | EnterFlight(caller: Caller)
    | Recheck(caller: Caller)
    | LoadFence(caller: Caller)
    | RunFill(caller: Caller, fails: bool)
    | CheckContext(caller: Caller)
    | CheckAndStore(caller: Caller)
    | Receive(caller: Caller)
    | Write(writer: Writer, target: Key)
    | FirstCleanup(writer: Writer)
    | SecondCleanup(writer: Writer)
    | Evict(key: Key)

  /** The caller is inside `fillAndStore`. */
  predicate Filling(s: State, c: Caller) {
    c in s.callers && (s.callers[c].phase.Leading? || s.callers[c].phase.FillingAlone?)
  }

  predicate Enabled(s: State, a: Action) {
    match a
    case Arrive(c, _) => c !in s.callers
    case EndContext(c) => c in s.callers
    case Probe(c) => c in s.callers && s.callers[c].phase.Probing?
    case EnterFlight(c) => c in s.callers && s.callers[c].phase.Trying?
    case Recheck(c) => c in s.callers && s.callers[c].phase.Rechecking?
    case LoadFence(c) => Filling(s, c) && s.callers[c].phase.stage.Begin?
    case RunFill(c, _) => Filling(s, c) && s.callers[c].phase.stage.Captured?
    case CheckContext(c) => Filling(s, c) && s.callers[c].phase.stage.Returned?
    case CheckAndStore(c) => Filling(s, c) && s.callers[c].phase.stage.Storing?
    case Receive(c) => c in s.callers && s.callers[c].phase.Delivered?
    case Write(w, _) => w !in s.invalidations
    case FirstCleanup(w) => w in s.invalidations && s.invalidations[w].Wrote?
    case SecondCleanup(w) => w in s.invalidations && s.invalidations[w].FirstDone?
    case Evict(_) => true
  }

  function SetPhase(s: State, c: Caller, p: Phase): State
    requires c in s.callers
  {
    s.(callers := s.callers[c := s.callers[c].(phase := p)])
  }

  function SetStage(s: State, c: Caller, g: Stage): State
    requires Filling(s, c)
  {
    SetPhase(s, c, s.callers[c].phase.(stage := g))
  }

  /** What a fill's end does: a leader closes its flight and everyone in it gets the result. */
  function Conclude(s: State, c: Caller, r: Outcome): (t: State)
    requires Filling(s, c) || (c in s.callers && s.callers[c].phase.Rechecking?)
    ensures t == s.(flights := t.flights, callers := t.callers) && t.callers.Keys == s.callers.Keys
    ensures forall d :: d in s.callers ==> t.callers[d] == s.callers[d].(phase := t.callers[d].phase)
    ensures forall d :: d in s.callers && t.callers[d] != s.callers[d] ==>
              t.callers[d].phase.Delivered? && t.callers[d].phase.result == r
    ensures t.callers[c].phase.Delivered? && t.callers[c].phase.result == r
  {
    var cs := s.callers[c];
    if cs.phase.FillingAlone? then
      SetPhase(s, c, Delivered(MAX_FLIGHT_ATTEMPTS, r))
    else
      var delivered := map d | d in s.callers ::
        if d == c || (s.callers[d].phase.Joined? && s.callers[d].phase.leader == c)
        then s.callers[d].(phase := Delivered(s.callers[d].phase.attempt, r))
        else s.callers[d];
      s.(flights := s.flights - {cs.key}, callers := delivered)
  }

  /** How `GetOrFill` goes on from a result. */
  function AfterResult(cs: CallerState): Phase
    requires cs.phase.Delivered?
  {
    match cs.phase.result
    case Got(v) => Done(Served(v))
    case Failed => Done(if cs.live then FillError else ContextError)
    case LeaderGone =>
      if !cs.live then Done(ContextError)
      else if cs.phase.attempt + 1 < MAX_FLIGHT_ATTEMPTS then Trying(cs.phase.attempt + 1)
      else if cs.phase.attempt + 1 == MAX_FLIGHT_ATTEMPTS then FillingAlone(Begin)
      else Done(FillError)
  }

  function Do(c: Config, s: State, a: Action): State
    requires Enabled(s, a)
  {
    match a
    case Arrive(d, k) => s.(callers := s.callers[d := CallerState(k, true, 0, Probing)])
    case EndContext(d) => s.(callers := s.callers[d := s.callers[d].(live := false)])
    case Probe(d) =>
      var k := s.callers[d].key;
      SetPhase(s, d, if k in s.cache then Done(Served(s.cache[k])) else Trying(0))
    case EnterFlight(d) =>
      var k, n := s.callers[d].key, s.callers[d].phase.attempt;
      if k in s.flights then SetPhase(s, d, Joined(n, s.flights[k]))
      else SetPhase(s.(flights := s.flights[k := d]), d, Rechecking(n))
    case Recheck(d) =>
      var k := s.callers[d].key;
      if k in s.cache then Conclude(s, d, Got(s.cache[k]))
      else SetPhase(s, d, Leading(s.callers[d].phase.attempt, Begin))
    case LoadFence(d) => SetStage(s, d, Captured(Generation(c, s, s.callers[d].key)))
    case RunFill(d, fails) =>
      var cs := s.callers[d];
      var r := if fails then Failed else Got(Value(cs.key, CurrentVersion(s, cs.key), cs.live));
      var t := SetStage(s, d, Returned(cs.phase.stage.fence, r));
      t.(callers := t.callers[d := t.callers[d].(fills := cs.fills + 1)])
    case CheckContext(d) =>
      var cs := s.callers[d];
      var g := cs.phase.stage;
      if !cs.live then Conclude(s, d, LeaderGone)
      else if g.result.Got? then SetStage(s, d, Storing(g.fence, g.result.value))
      else Conclude(s, d, g.result)
    case CheckAndStore(d) =>
      var k, g := s.callers[d].key, s.callers[d].phase.stage;
      var t := if g.fence == Generation(c, s, k) then s.(cache := s.cache[k := g.value]) else s;
      Conclude(t, d, Got(g.value))
    case Receive(d) => SetPhase(s, d, AfterResult(s.callers[d]))
    case Write(w, k) =>
      s.(writes := s.writes[k := CurrentVersion(s, k) + 1], invalidations := s.invalidations[w := Wrote(k)])
    case FirstCleanup(w) =>
      var k := s.invalidations[w].key;
      Cleanup(c, s, k, c.bumpFirst).(invalidations := s.invalidations[w := FirstDone(k)])
    case SecondCleanup(w) =>
      Cleanup(c, s, s.invalidations[w].key, !c.bumpFirst).(invalidations := s.invalidations - {w})
    case Evict(k) => s.(cache := s.cache - {k})
  }

  function Cleanup(c: Config, s: State, k: Key, bump: bool): State {
    if bump then s.(generation := s.generation[c.fenceOf(k) := Generation(c, s, k) + 1])
    else s.(cache := s.cache - {k})
  }

  /** `actions` can be taken one after the other from `s`, ending in `t`. */
  ghost predicate Run(c: Config, s: State, actions: seq<Action>, t: State)
    decreases |actions|
  {
    if actions == [] then s == t
    else Enabled(s, actions[0]) && Run(c, Do(c, s, actions[0]), actions[1..], t)
  }

  // ----- No stale value stays cached -----

  ghost predicate Invalidating(s: State, k: Key) {
    exists w :: w in s.invalidations && s.invalidations[w].key == k
  }

  ghost predicate AwaitingBump(s: State, k: Key) {
    exists w :: w in s.invalidations && s.invalidations[w] == Wrote(k)
  }

  /** A cached value is current unless its key's invalidation has still to delete it. */
  ghost predicate CacheFresh(s: State) {
    forall k :: k in s.cache && !Invalidating(s, k) ==> s.cache[k].version == CurrentVersion(s, k)
  }

  /** A fill whose fence still agrees holds the current value, unless a bump is yet to come. */
  predicate FillFenced(g: Stage, generation: nat, version: nat, awaitingBump: bool) {
    && (!g.Begin? ==> g.fence <= generation)
    && (!g.Begin? && g.fence == generation && !awaitingBump ==>
          && (g.Returned? && g.result.Got? ==> g.result.value.version == version)
          && (g.Storing? ==> g.value.version == version))
  }

  ghost predicate CallerFenced(c: Config, s: State, d: Caller)
    requires Filling(s, d)
  {
    var k := s.callers[d].key;
    FillFenced(s.callers[d].phase.stage, Generation(c, s, k), CurrentVersion(s, k), AwaitingBump(s, k))
  }

  ghost predicate Fresh(c: Config, s: State) {
    CacheFresh(s) && forall d :: Filling(s, d) ==> CallerFenced(c, s, d)
  }

  /** The actions that move one caller on and leave the source and the fences alone. */
  predicate IsCallerAction(a: Action) {
    !a.Write? && !a.FirstCleanup? && !a.SecondCleanup? && !a.Evict?
  }

  /** What a caller's step leaves alone. */
  ghost predicate Frame(s: State, t: State, a: Action)
    requires IsCallerAction(a)
  {
    && t.writes == s.writes && t.generation == s.generation && t.invalidations == s.invalidations
    && (!a.CheckAndStore? ==> t.cache == s.cache)
    && (forall d :: Filling(t, d) && d != a.caller ==> Filling(s, d) && t.callers[d] == s.callers[d])
  }

  lemma CallerActionFrame(c: Config, s: State, a: Action)
    requires Enabled(s, a) && IsCallerAction(a)
    ensures Frame(s, Do(c, s, a), a)
  {
    hide Conclude;
    if IsConcluding(a) { ConcludingFrame(c, s, a); } else { PhaseFrame(c, s, a); }
  }

  lemma ConcludingFrame(c: Config, s: State, a: Action)
    requires Enabled(s, a) && IsConcluding(a)
    ensures Frame(s, Do(c, s, a), a)
  {
    hide Do, Frame, Enabled;
    match a {
      case Recheck(d) => RecheckFrame(c, s, d);
      case CheckContext(d) => ContextFrame(c, s, d);
      case CheckAndStore(d) => StoreFrame(c, s, d);
    }
  }

  lemma RecheckFrame(c: Config, s: State, d: Caller)
    requires Enabled(s, Recheck(d))
    ensures Frame(s, Do(c, s, Recheck(d)), Recheck(d))
  {
    hide Conclude;
    var k := s.callers[d].key;
    if k in s.cache {
      ConcludeFrame(s, d, Got(s.cache[k]));
    } else {
      PhaseOnly(s, d, Leading(s.callers[d].phase.attempt, Begin));
    }
  }

  lemma ContextFrame(c: Config, s: State, d: Caller)
    requires Enabled(s, CheckContext(d))
    ensures Frame(s, Do(c, s, CheckContext(d)), CheckContext(d))
  {
    hide Conclude;
    var cs := s.callers[d];
    if !cs.live {
      ConcludeFrame(s, d, LeaderGone);
    } else if !cs.phase.stage.result.Got? {
      ConcludeFrame(s, d, cs.phase.stage.result);
    }
  }

  lemma StoreFrame(c: Config, s: State, d: Caller)
    requires Enabled(s, CheckAndStore(d))
    ensures Frame(s, Do(c, s, CheckAndStore(d)), CheckAndStore(d))
  {
    hide Conclude;
    var k, g := s.callers[d].key, s.callers[d].phase.stage;
    ConcludeFrame(if g.fence == Generation(c, s, k) then s.(cache := s.cache[k := g.value]) else s, d, Got(g.value));
  }

  lemma ConcludeFrame(s: State, c: Caller, r: Outcome)
    requires Filling(s, c) || (c in s.callers && s.callers[c].phase.Rechecking?)
    ensures var t := Conclude(s, c, r);
            forall d :: Filling(t, d) && d != c ==> Filling(s, d) && t.callers[d] == s.callers[d]
  {
    hide Conclude;
  }

  lemma PhaseOnly(s: State, c: Caller, p: Phase)
    requires c in s.callers
    ensures var t := SetPhase(s, c, p);
            forall d :: Filling(t, d) && d != c ==> Filling(s, d) && t.callers[d] == s.callers[d]
  {
  }

  lemma PhaseFrame(c: Config, s: State, a: Action)
    requires Enabled(s, a) && IsCallerAction(a) && !IsConcluding(a)
    ensures Frame(s, Do(c, s, a), a)
  {
    hide Conclude;
  }

  lemma CallerActionFenced(c: Config, s: State, a: Action)
    requires Enabled(s, a) && IsCallerAction(a)
    requires forall d :: Filling(s, d) ==> CallerFenced(c, s, d)
    ensures Filling(Do(c, s, a), a.caller) ==> CallerFenced(c, Do(c, s, a), a.caller)
  {
    hide Conclude;
    CallerActionFrame(c, s, a);
    assert Filling(s, a.caller) ==> CallerFenced(c, s, a.caller);
  }

  lemma CallerActionCache(c: Config, s: State, a: Action)
    requires Fresh(c, s) && Enabled(s, a) && IsCallerAction(a)
    ensures CacheFresh(Do(c, s, a))
  {
    hide Conclude;
    var t := Do(c, s, a);
    CallerActionFrame(c, s, a);
    assert forall j :: Invalidating(t, j) <==> Invalidating(s, j);
    if a.CheckAndStore? {
      var k := s.callers[a.caller].key;
      assert CallerFenced(c, s, a.caller);
      assert forall j :: j in t.cache && j != k ==> j in s.cache && t.cache[j] == s.cache[j];
      assert AwaitingBump(s, k) ==> Invalidating(s, k);
    }
  }

  lemma CallerActionKeepsFresh(c: Config, s: State, a: Action)
    requires Fresh(c, s) && Enabled(s, a) && IsCallerAction(a)
    ensures Fresh(c, Do(c, s, a))
  {
    var t := Do(c, s, a);
    CallerActionFrame(c, s, a);
    CallerActionFenced(c, s, a);
    CallerActionCache(c, s, a);
    hide Do, CacheFresh, Enabled;
    forall d | Filling(t, d) ensures CallerFenced(c, t, d) {
      if d != a.caller { assert CallerFenced(c, s, d); }
    }
  }

  lemma StillInvalidating(s: State, t: State)
    requires forall w :: w in s.invalidations ==>
             w in t.invalidations && t.invalidations[w].key == s.invalidations[w].key
    ensures forall k :: Invalidating(s, k) ==> Invalidating(t, k)
  {
    forall k | Invalidating(s, k) ensures Invalidating(t, k) {
      var w :| w in s.invalidations && s.invalidations[w].key == k;
      assert w in t.invalidations;
    }
  }

  lemma WriteKeepsFresh(c: Config, s: State, w: Writer, k: Key)
    requires Fresh(c, s) && w !in s.invalidations
    ensures Fresh(c, Do(c, s, Write(w, k)))
  {
    var t := Do(c, s, Write(w, k));
    assert t.invalidations[w] == Wrote(k) && Invalidating(t, k) && AwaitingBump(t, k);
    StillInvalidating(s, t);
    forall d | Filling(t, d) ensures CallerFenced(c, t, d) {
      assert CallerFenced(c, s, d);
      var j := s.callers[d].key;
      if AwaitingBump(s, j) {
        var v :| v in s.invalidations && s.invalidations[v] == Wrote(j);
        assert t.invalidations[v] == Wrote(j);
      }
    }
  }

  lemma BumpKeepsFresh(c: Config, s: State, w: Writer)
    requires c.bumpFirst && Fresh(c, s) && Enabled(s, FirstCleanup(w))
    ensures Fresh(c, Do(c, s, FirstCleanup(w)))
  {
    var t, k := Do(c, s, FirstCleanup(w)), s.invalidations[w].key;
    StillInvalidating(s, t);
    forall d | Filling(t, d) ensures CallerFenced(c, t, d) {
      assert CallerFenced(c, s, d);
      var j := s.callers[d].key;
      if c.fenceOf(j) != c.fenceOf(k) && AwaitingBump(s, j) {
        var v :| v in s.invalidations && s.invalidations[v] == Wrote(j);
        assert v != w && t.invalidations[v] == Wrote(j);
      }
    }
  }

  lemma DeleteKeepsFresh(c: Config, s: State, w: Writer)
    requires c.bumpFirst && Fresh(c, s) && Enabled(s, SecondCleanup(w))
    ensures Fresh(c, Do(c, s, SecondCleanup(w)))
  {
    var t, k := Do(c, s, SecondCleanup(w)), s.invalidations[w].key;
    forall j | j in t.cache && !Invalidating(t, j) ensures t.cache[j].version == CurrentVersion(t, j) {
      assert j != k && forall v :: v in s.invalidations && v != w ==>
                         v in t.invalidations && t.invalidations[v] == s.invalidations[v];
    }
    forall d | Filling(t, d) ensures CallerFenced(c, t, d) {
      assert CallerFenced(c, s, d);
      var j := s.callers[d].key;
      if AwaitingBump(s, j) {
        var v :| v in s.invalidations && s.invalidations[v] == Wrote(j);
        assert v != w && t.invalidations[v] == Wrote(j);
      }
    }
  }

  lemma StepKeepsFresh(c: Config, s: State, a: Action)
    requires c.bumpFirst && Fresh(c, s) && Enabled(s, a)
    ensures Fresh(c, Do(c, s, a))
  {
    if IsCallerAction(a) {
      CallerActionKeepsFresh(c, s, a);
    } else {
      match a {
        case Write(w, k) => WriteKeepsFresh(c, s, w, k);
        case FirstCleanup(w) => BumpKeepsFresh(c, s, w);
        case SecondCleanup(w) => DeleteKeepsFresh(c, s, w);
        case Evict(k) => EvictKeepsFresh(c, s, k);
      }
    }
  }

  lemma EvictKeepsFresh(c: Config, s: State, k: Key)
    requires Fresh(c, s)
    ensures Fresh(c, Do(c, s, Evict(k)))
  {
    var t := Do(c, s, Evict(k));
    assert forall j :: Invalidating(t, j) <==> Invalidating(s, j);
    forall d | Filling(t, d) ensures CallerFenced(c, t, d) {
      assert CallerFenced(c, s, d);
      assert AwaitingBump(t, s.callers[d].key) <==> AwaitingBump(s, s.callers[d].key);
    }
  }

  lemma {:induction false} RunKeepsFresh(c: Config, s: State, actions: seq<Action>, t: State)
    requires c.bumpFirst && Fresh(c, s) && Run(c, s, actions, t)
    ensures Fresh(c, t)
    decreases |actions|
  {
    hide Do, Enabled, Fresh;
    if actions != [] {
      StepKeepsFresh(c, s, actions[0]);
      RunKeepsFresh(c, Do(c, s, actions[0]), actions[1..], t);
    }
  }

  /** In every interleaving: with no invalidation of `k` in progress, what is cached under `k`
      was read after the last write of `k`. */
  lemma NoStaleValueCached(c: Config, actions: seq<Action>, t: State, k: Key)
    requires c.bumpFirst && Run(c, INITIAL, actions, t)
    requires k in t.cache && !Invalidating(t, k)
    ensures t.cache[k].version == CurrentVersion(t, k)
  {
    RunKeepsFresh(c, INITIAL, actions, t);
  }

  // ----- Who fills, and whose result is used -----

  predicate Leads(cs: CallerState) {
    cs.phase.Rechecking? || cs.phase.Leading?
  }

  /** One flight per key: its leader is filling that very key, and joiners wait for that leader. */
  ghost predicate FlightsMatch(s: State) {
    && (forall k :: k in s.flights ==> FlightMatches(s.flights, s.callers, k))
    && (forall d :: d in s.callers ==> CallerMatches(s.flights, s.callers[d], d))
  }

  predicate FlightMatches(flights: map<Key, Caller>, callers: map<Caller, CallerState>, k: Key)
    requires k in flights
  {
    var d := flights[k];
    d in callers && Leads(callers[d]) && callers[d].key == k
  }

  predicate CallerMatches(flights: map<Key, Caller>, cs: CallerState, d: Caller) {
    && (Leads(cs) ==> cs.key in flights && flights[cs.key] == d)
    && (cs.phase.Joined? ==> cs.key in flights && flights[cs.key] == cs.phase.leader)
  }

  /** What a caller knows: it has filled at most once, and holds only values read in time. */
  predicate CallerSound(cs: CallerState) {
    match cs.phase
    case Probing => cs.fills == 0
    case Trying(n) => cs.fills == 0 && n < MAX_FLIGHT_ATTEMPTS
    case Joined(n, _) => cs.fills == 0 && n < MAX_FLIGHT_ATTEMPTS
    case Rechecking(n) => cs.fills == 0 && n < MAX_FLIGHT_ATTEMPTS
    case Leading(n, g) => n < MAX_FLIGHT_ATTEMPTS && StageSound(cs, g)
    case FillingAlone(g) => StageSound(cs, g)
    case Delivered(n, r) =>
      && cs.fills <= 1 && n <= MAX_FLIGHT_ATTEMPTS && (r.Got? ==> r.value.live)
      && (r.LeaderGone? && (cs.fills == 1 || n == MAX_FLIGHT_ATTEMPTS) ==> !cs.live)
    case Done(r) => cs.fills <= 1 && (r.Served? ==> r.value.live)
  }

  predicate StageSound(cs: CallerState, g: Stage) {
    && cs.fills == (if g.Begin? || g.Captured? then 0 else 1)
    && (g.Returned? && g.result.Got? && !g.result.value.live ==> !cs.live)
    && (g.Returned? ==> !g.result.LeaderGone?)
    && (g.Storing? ==> g.value.live)
  }

  /** Only values whose filler was still there when the fill returned are cached or handed on. */
  ghost predicate ValuesSound(s: State) {
    && (forall d :: d in s.callers ==> CallerSound(s.callers[d]))
    && (forall k :: k in s.cache ==> s.cache[k].live)
  }

  lemma ConcludeValues(s: State, c: Caller, r: Outcome)
    requires ValuesSound(s) && (Filling(s, c) || (c in s.callers && s.callers[c].phase.Rechecking?))
    requires r.Got? ==> r.value.live
    requires r.LeaderGone? ==> !s.callers[c].live
    ensures ValuesSound(Conclude(s, c, r))
  {
    var t := Conclude(s, c, r);
    forall d | d in t.callers ensures CallerSound(t.callers[d]) {
      assert CallerSound(s.callers[d]);
    }
  }

  lemma UpdateValues(s: State, t: State, d: Caller)
    requires ValuesSound(s) && t.cache == s.cache && d in t.callers && t.callers == s.callers[d := t.callers[d]]
    requires CallerSound(t.callers[d])
    ensures ValuesSound(t)
  {
  }

  /** The actions that may end a fill. */
  predicate IsConcluding(a: Action) {
    a.Recheck? || a.CheckContext? || a.CheckAndStore?
  }

  lemma ConcludingKeepsValues(c: Config, s: State, a: Action)
    requires ValuesSound(s) && Enabled(s, a) && IsConcluding(a)
    ensures ValuesSound(Do(c, s, a))
  {
    hide ValuesSound, Do, Enabled;
    match a {
      case Recheck(d) => RecheckKeepsValues(c, s, d);
      case CheckContext(d) => ContextKeepsValues(c, s, d);
      case CheckAndStore(d) => StoreKeepsValues(c, s, d);
    }
  }

  lemma RecheckKeepsValues(c: Config, s: State, d: Caller)
    requires ValuesSound(s) && Enabled(s, Recheck(d))
    ensures ValuesSound(Do(c, s, Recheck(d)))
  {
    var cs, t := s.callers[d], Do(c, s, Recheck(d));
    assert CallerSound(cs);
    assert cs.key in s.cache ==> s.cache[cs.key].live;
    hide ValuesSound, Conclude;
    if cs.key in s.cache {
      ConcludeValues(s, d, Got(s.cache[cs.key]));
    } else {
      UpdateValues(s, t, d);
    }
  }

  lemma ContextKeepsValues(c: Config, s: State, d: Caller)
    requires ValuesSound(s) && Enabled(s, CheckContext(d))
    ensures ValuesSound(Do(c, s, CheckContext(d)))
  {
    var cs, t := s.callers[d], Do(c, s, CheckContext(d));
    assert CallerSound(cs);
    hide ValuesSound, Conclude;
    if !cs.live {
      ConcludeValues(s, d, LeaderGone);
    } else if cs.phase.stage.result.Got? {
      UpdateValues(s, t, d);
    } else {
      ConcludeValues(s, d, cs.phase.stage.result);
    }
  }

  lemma StoreKeepsValues(c: Config, s: State, d: Caller)
    requires ValuesSound(s) && Enabled(s, CheckAndStore(d))
    ensures ValuesSound(Do(c, s, CheckAndStore(d)))
  {
    var cs := s.callers[d];
    var g := cs.phase.stage;
    assert CallerSound(cs);
    assert ValuesSound(s.(cache := s.cache[cs.key := g.value]));
    hide ValuesSound, Conclude;
    var stored := if g.fence == Generation(c, s, cs.key) then s.(cache := s.cache[cs.key := g.value]) else s;
    ConcludeValues(stored, d, Got(g.value));
  }

  /** The caller that moves stays sound. */
  lemma CallerStepSound(c: Config, s: State, a: Action)
    requires ValuesSound(s) && Enabled(s, a) && IsCallerAction(a) && !IsConcluding(a)
    ensures a.caller in Do(c, s, a).callers && CallerSound(Do(c, s, a).callers[a.caller])
  {
    assert a.caller in s.callers ==> CallerSound(s.callers[a.caller]);
    assert a.Probe? && s.callers[a.caller].key in s.cache ==> s.cache[s.callers[a.caller].key].live;
    hide ValuesSound, Conclude;
  }

  lemma StepKeepsValues(c: Config, s: State, a: Action)
    requires ValuesSound(s) && Enabled(s, a)
    ensures ValuesSound(Do(c, s, a))
  {
    if IsConcluding(a) {
      ConcludingKeepsValues(c, s, a);
    } else if IsCallerAction(a) {
      hide Conclude;
      CallerStepSound(c, s, a);
      hide ValuesSound, CallerSound;
      UpdateValues(s, Do(c, s, a), a.caller);
    }
  }

  lemma ConcludeFlights(s: State, c: Caller, r: Outcome)
    requires FlightsMatch(s) && (Filling(s, c) || (c in s.callers && s.callers[c].phase.Rechecking?))
    ensures FlightsMatch(Conclude(s, c, r))
  {
    var t := Conclude(s, c, r);
    assert CallerMatches(s.flights, s.callers[c], c);
    forall k | k in t.flights ensures FlightMatches(t.flights, t.callers, k) {
      assert FlightMatches(s.flights, s.callers, k);
    }
    forall d | d in t.callers ensures CallerMatches(t.flights, t.callers[d], d) {
      assert CallerMatches(s.flights, s.callers[d], d);
    }
  }

  /** Changing one caller that neither starts nor stops leading, and does not join, changes no flight. */
  lemma UpdateFlights(s: State, t: State, d: Caller)
    requires FlightsMatch(s) && t.flights == s.flights && d in t.callers && t.callers == s.callers[d := t.callers[d]]
    requires !t.callers[d].phase.Joined? || (d in s.callers && s.callers[d].phase == t.callers[d].phase)
    requires if d in s.callers then Leads(s.callers[d]) == Leads(t.callers[d]) && s.callers[d].key == t.callers[d].key
             else !Leads(t.callers[d])
    ensures FlightsMatch(t)
  {
  }

  lemma ConcludingKeepsFlights(c: Config, s: State, a: Action)
    requires FlightsMatch(s) && Enabled(s, a) && IsConcluding(a)
    ensures FlightsMatch(Do(c, s, a))
  {
    hide Conclude;
    var cs, t := s.callers[a.caller], Do(c, s, a);
    assert a.CheckAndStore? ==> FlightsMatch(s.(cache := s.cache[cs.key := cs.phase.stage.value]));
    hide FlightsMatch;
    match a {
      case Recheck(d) =>
        if cs.key in s.cache { ConcludeFlights(s, d, Got(s.cache[cs.key])); } else { UpdateFlights(s, t, d); }
      case CheckContext(d) =>
        if !cs.live { ConcludeFlights(s, d, LeaderGone); }
        else if cs.phase.stage.result.Got? { UpdateFlights(s, t, d); }
        else { ConcludeFlights(s, d, cs.phase.stage.result); }
      case CheckAndStore(d) =>
        var g := cs.phase.stage;
        ConcludeFlights(if g.fence == Generation(c, s, cs.key) then s.(cache := s.cache[cs.key := g.value])
                        else s, d, Got(g.value));
    }
  }

  lemma StartFlight(s: State, t: State, d: Caller)
    requires FlightsMatch(s) && d in s.callers && !Leads(s.callers[d]) && s.callers[d].key !in s.flights
    requires t.flights == s.flights[s.callers[d].key := d] && d in t.callers &&
             t.callers == s.callers[d := t.callers[d]]
    requires t.callers[d].key == s.callers[d].key && Leads(t.callers[d]) && !t.callers[d].phase.Joined?
    ensures FlightsMatch(t)
  {
  }

  lemma JoinFlight(s: State, t: State, d: Caller)
    requires FlightsMatch(s) && d in s.callers && !Leads(s.callers[d]) && s.callers[d].key in s.flights
    requires t.flights == s.flights && d in t.callers && t.callers == s.callers[d := t.callers[d]]
    requires t.callers[d].key == s.callers[d].key && t.callers[d].phase.Joined?
    requires t.callers[d].phase.leader == s.flights[s.callers[d].key]
    ensures FlightsMatch(t)
  {
  }

  lemma EnteringKeepsFlights(c: Config, s: State, d: Caller)
    requires FlightsMatch(s) && Enabled(s, EnterFlight(d))
    ensures FlightsMatch(Do(c, s, EnterFlight(d)))
  {
    hide FlightsMatch;
    if s.callers[d].key in s.flights {
      JoinFlight(s, Do(c, s, EnterFlight(d)), d);
    } else {
      StartFlight(s, Do(c, s, EnterFlight(d)), d);
    }
  }

  lemma StepKeepsFlights(c: Config, s: State, a: Action)
    requires FlightsMatch(s) && Enabled(s, a)
    ensures FlightsMatch(Do(c, s, a))
  {
    if IsConcluding(a) {
      ConcludingKeepsFlights(c, s, a);
    } else if a.EnterFlight? {
      EnteringKeepsFlights(c, s, a.caller);
    } else if IsCallerAction(a) {
      hide FlightsMatch, Conclude;
      UpdateFlights(s, Do(c, s, a), a.caller);
    }
  }

  lemma {:induction false} RunKeepsSound(c: Config, s: State, actions: seq<Action>, t: State)
    requires ValuesSound(s) && FlightsMatch(s) && Run(c, s, actions, t)
    ensures ValuesSound(t) && FlightsMatch(t)
    decreases |actions|
  {
    hide Do, Enabled, ValuesSound, FlightsMatch;
    if actions != [] {
      StepKeepsValues(c, s, actions[0]);
      StepKeepsFlights(c, s, actions[0]);
      RunKeepsSound(c, Do(c, s, actions[0]), actions[1..], t);
    }
  }

  /** In every interleaving, in either clean-up order: a value read by a fill whose context ended
      before it returned is neither cached, nor handed to a joiner, nor served. */
  lemma AbandonedFillNeverUsed(c: Config, actions: seq<Action>, t: State)
    requires Run(c, INITIAL, actions, t)
    ensures forall k :: k in t.cache ==> t.cache[k].live
    ensures forall d :: d in t.callers && t.callers[d].phase.Delivered? && t.callers[d].phase.result.Got? ==>
              t.callers[d].phase.result.value.live
    ensures forall d :: d in t.callers && t.callers[d].phase.Done? && t.callers[d].phase.answer.Served? ==>
              t.callers[d].phase.answer.value.live
  {
    RunKeepsSound(c, INITIAL, actions, t);
    forall d | d in t.callers ensures CallerSound(t.callers[d]) {}
  }

  /** No caller runs its fill function twice, whatever leaders it joined; and fills of one key
      inside flights never overlap. */
  lemma FillsAreShared(c: Config, actions: seq<Action>, t: State)
    requires Run(c, INITIAL, actions, t)
    ensures forall d :: d in t.callers ==> t.callers[d].fills <= 1
    ensures forall d, e ::
              d in t.callers && e in t.callers && Leads(t.callers[d]) && Leads(t.callers[e]) &&
                t.callers[d].key == t.callers[e].key ==>
                d == e
    ensures forall d :: d in t.callers && t.callers[d].phase.Joined? ==>
              var l := t.callers[d].phase.leader;
              l in t.callers && Leads(t.callers[l]) && t.callers[l].key == t.callers[d].key
  {
    RunKeepsSound(c, INITIAL, actions, t);
    forall d | d in t.callers ensures CallerSound(t.callers[d]) {}
  }

  // ----- Why the fence is bumped before the key is deleted -----

  lemma {:induction false} RunThen(c: Config, s: State, actions: seq<Action>, t: State, a: Action)
    requires Run(c, s, actions, t) && Enabled(t, a)
    ensures Run(c, s, actions + [a], Do(c, t, a))
    decreases |actions|
  {
    hide Do, Enabled;
    if actions == [] {
      assert ([a])[1..] == [];
      assert Run(c, Do(c, s, a), [], Do(c, t, a));
    } else {
      RunThen(c, Do(c, s, actions[0]), actions[1..], t, a);
      assert (actions + [a])[1..] == actions[1..] + [a];
    }
  }

  /** A caller has read the original value of `k` and is about to store it. */
  lemma ReadBeforeWrite(c: Config, k: Key) returns (r: seq<Action>, t: State)
    ensures Run(c, INITIAL, r, t)
    ensures t == INITIAL.(flights := map[k := 0],
                          callers := map[0 := CallerState(k, true, 1, Leading(0, Storing(0, Value(k, 0, true))))])
  {
    hide Run, Conclude;
    NoSteps(c, INITIAL);
    r, t := Then(c, [], INITIAL, Arrive(0, k));
    r, t := Then(c, r, t, Probe(0));
    r, t := Then(c, r, t, EnterFlight(0));
    r, t := Then(c, r, t, Recheck(0));
    r, t := Then(c, r, t, LoadFence(0));
    r, t := Then(c, r, t, RunFill(0, false));
    r, t := Then(c, r, t, CheckContext(0));
  }

  /** Deleting first leaves a gap: a fill that read before the write stores after the delete. */
  lemma DeleteFirstLeavesStale(c: Config, k: Key)
    requires !c.bumpFirst
    ensures exists actions, t :: Run(c, INITIAL, actions, t) &&
              k in t.cache && !Invalidating(t, k) && t.cache[k].version < CurrentVersion(t, k)
  {
    hide Run, Conclude;
    var r, t := ReadBeforeWrite(c, k);
    r, t := Then(c, r, t, Write(0, k));
    r, t := Then(c, r, t, FirstCleanup(0));
    r, t := Then(c, r, t, CheckAndStore(0));
    r, t := Then(c, r, t, SecondCleanup(0));
    assert t.invalidations == map[];
  }

  lemma NoSteps(c: Config, s: State)
    ensures Run(c, s, [], s)
  {}

  lemma Then(c: Config, actions: seq<Action>, t: State, a: Action) returns (longer: seq<Action>, u: State)
    requires Run(c, INITIAL, actions, t) && Enabled(t, a)
    ensures u == Do(c, t, a) && Run(c, INITIAL, longer, u)
  {
    longer, u := actions + [a], Do(c, t, a);
    RunThen(c, INITIAL, actions, t, a);
  }
}
