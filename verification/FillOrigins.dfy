/**
  Where the answers of the fill protocol come from (core/cache/typed.go, `GetOrFill`): a caller gets values read for
  its own key, waits for its own flight, and ends in an error only for a reason of its own.
 */
module FillOrigins {
  import opened FillProtocol

  // ----- What a run's fills did -----

  /** The value a step's fill reads, if the step is a fill that succeeds. */
  ghost function ReadNow(s: State, a: Action): set<Value> {
    if a.RunFill? && !a.fails && a.caller in s.callers then
      var cs := s.callers[a.caller];
      {Value(cs.key, CurrentVersion(s, cs.key), cs.live)}
    else {}
  }

  ghost function FailedNow(s: State, a: Action): set<Key> {
    if a.RunFill? && a.fails && a.caller in s.callers then {s.callers[a.caller].key} else {}
  }

  /** All values read by the fills of a run, and the keys whose fills failed. */
  ghost function ValuesRead(c: Config, s: State, actions: seq<Action>): set<Value>
    decreases |actions|
  {
    if actions == [] || !Enabled(s, actions[0]) then {}
    else ReadNow(s, actions[0]) + ValuesRead(c, Do(c, s, actions[0]), actions[1..])
  }

  ghost function FillsFailed(c: Config, s: State, actions: seq<Action>): set<Key>
    decreases |actions|
  {
    if actions == [] || !Enabled(s, actions[0]) then {}
    else FailedNow(s, actions[0]) + FillsFailed(c, Do(c, s, actions[0]), actions[1..])
  }

  // ----- Values and errors have their source in a fill of the same key -----

  ghost predicate ValueFor(k: Key, version: nat, v: Value, read: set<Value>) {
    v in read && v.key == k && v.version <= version
  }

  ghost predicate OutcomeFor(k: Key, version: nat, r: Outcome, read: set<Value>, failed: set<Key>) {
    match r
    case Got(v) => ValueFor(k, version, v, read)
    case Failed => k in failed
    case LeaderGone => true
  }

  ghost predicate StageFor(k: Key, version: nat, g: Stage, read: set<Value>, failed: set<Key>) {
    match g
    case Returned(_, r) => OutcomeFor(k, version, r, read, failed)
    case Storing(_, v) => ValueFor(k, version, v, read)
    case _ => true
  }

  ghost predicate CallerFor(cs: CallerState, version: nat, read: set<Value>, failed: set<Key>) {
    match cs.phase
    case Leading(_, g) => StageFor(cs.key, version, g, read, failed)
    case FillingAlone(g) => StageFor(cs.key, version, g, read, failed)
    case Delivered(_, r) => OutcomeFor(cs.key, version, r, read, failed)
    case Done(Served(v)) => ValueFor(cs.key, version, v, read)
    case Done(FillError) => cs.key in failed
    case Done(ContextError) => !cs.live
    case _ => true
  }

  ghost predicate Sourced(s: State, read: set<Value>, failed: set<Key>) {
    && (forall d :: d in s.callers ==> CallerFor(s.callers[d], CurrentVersion(s, s.callers[d].key), read, failed))
    && (forall k :: k in s.cache ==> ValueFor(k, CurrentVersion(s, k), s.cache[k], read))
  }

  /** More versions, values and failures leave everything with a source. */
  lemma StillSourced(s: State, t: State, read: set<Value>, failed: set<Key>, read': set<Value>, failed': set<Key>)
    requires Sourced(s, read, failed) && read <= read' && failed <= failed'
    requires t.callers == s.callers && forall k :: k in t.cache ==> k in s.cache && t.cache[k] == s.cache[k]
    requires forall k :: CurrentVersion(s, k) <= CurrentVersion(t, k)
    ensures Sourced(t, read', failed')
  {
    hide CurrentVersion;
  }

  /** One caller moving on. */
  lemma CallerMoves(s: State, t: State, d: Caller, read: set<Value>, failed: set<Key>)
    requires Sourced(s, read, failed) && t.cache == s.cache && t.writes == s.writes
    requires d in t.callers && t.callers == s.callers[d := t.callers[d]]
    requires CallerFor(t.callers[d], CurrentVersion(t, t.callers[d].key), read, failed)
    ensures Sourced(t, read, failed)
  {
    hide CallerFor, ValueFor;
  }

  /** Everyone in a flight waits for the flight's own key. */
  lemma ConcludeFor(s: State, c: Caller, r: Outcome, read: set<Value>, failed: set<Key>)
    requires Sourced(s, read, failed) && FlightsMatch(s)
    requires Filling(s, c) || (c in s.callers && s.callers[c].phase.Rechecking?)
    requires OutcomeFor(s.callers[c].key, CurrentVersion(s, s.callers[c].key), r, read, failed)
    ensures Sourced(Conclude(s, c, r), read, failed)
  {
    hide OutcomeFor, ValueFor, CurrentVersion;
    var t := Conclude(s, c, r);
    forall d | d in t.callers ensures CallerFor(t.callers[d], CurrentVersion(t, t.callers[d].key), read, failed) {
      SameVersions(s, t, t.callers[d].key);
      assert CallerFor(s.callers[d], CurrentVersion(s, s.callers[d].key), read, failed);
      if t.callers[d] != s.callers[d] {
        ConcludedKey(s, c, r, d);
      }
    }
    forall k | k in t.cache ensures ValueFor(k, CurrentVersion(t, k), t.cache[k], read) {
      SameVersions(s, t, k);
    }
  }

  lemma SameVersions(s: State, t: State, k: Key)
    requires s.writes == t.writes
    ensures CurrentVersion(s, k) == CurrentVersion(t, k)
  {
  }

  /** A result is handed to callers of the leader's key only. */
  lemma ConcludedKey(s: State, c: Caller, r: Outcome, d: Caller)
    requires FlightsMatch(s) && (Filling(s, c) || (c in s.callers && s.callers[c].phase.Rechecking?))
    requires d in s.callers && Conclude(s, c, r).callers[d] != s.callers[d]
    ensures s.callers[d].key == s.callers[c].key
  {
    if d != c {
      assert CallerMatches(s.flights, s.callers[d], d);
      assert s.callers[d].key in s.flights && FlightMatches(s.flights, s.callers, s.callers[d].key);
    }
  }

  lemma StoredFor(s: State, k: Key, v: Value, read: set<Value>, failed: set<Key>)
    requires Sourced(s, read, failed) && ValueFor(k, CurrentVersion(s, k), v, read)
    ensures Sourced(s.(cache := s.cache[k := v]), read, failed)
  {
    hide CallerFor, ValueFor;
    assert forall j :: CurrentVersion(s.(cache := s.cache[k := v]), j) == CurrentVersion(s, j);
  }

  lemma ConcludingKeepsSource(c: Config, s: State, a: Action, read: set<Value>, failed: set<Key>)
    requires Sourced(s, read, failed) && FlightsMatch(s) && Enabled(s, a) && IsConcluding(a)
    ensures Sourced(Do(c, s, a), read, failed)
  {
    hide Sourced, FlightsMatch, Do, Enabled;
    match a {
      case Recheck(d) => RecheckKeepsSource(c, s, d, read, failed);
      case CheckContext(d) => ContextKeepsSource(c, s, d, read, failed);
      case CheckAndStore(d) => StoreKeepsSource(c, s, d, read, failed);
    }
  }

  lemma RecheckKeepsSource(c: Config, s: State, d: Caller, read: set<Value>, failed: set<Key>)
    requires Sourced(s, read, failed) && FlightsMatch(s) && Enabled(s, Recheck(d))
    ensures Sourced(Do(c, s, Recheck(d)), read, failed)
  {
    var cs, t := s.callers[d], Do(c, s, Recheck(d));
    assert cs.key in s.cache ==> ValueFor(cs.key, CurrentVersion(s, cs.key), s.cache[cs.key], read);
    hide Conclude, Sourced, FlightsMatch;
    if cs.key in s.cache {
      ConcludeFor(s, d, Got(s.cache[cs.key]), read, failed);
    } else {
      CallerMoves(s, t, d, read, failed);
    }
  }

  lemma ContextKeepsSource(c: Config, s: State, d: Caller, read: set<Value>, failed: set<Key>)
    requires Sourced(s, read, failed) && FlightsMatch(s) && Enabled(s, CheckContext(d))
    ensures Sourced(Do(c, s, CheckContext(d)), read, failed)
  {
    var cs, t := s.callers[d], Do(c, s, CheckContext(d));
    assert CallerFor(cs, CurrentVersion(s, cs.key), read, failed);
    hide Conclude, Sourced, FlightsMatch;
    if !cs.live {
      ConcludeFor(s, d, LeaderGone, read, failed);
    } else if cs.phase.stage.result.Got? {
      SameVersions(s, t, cs.key);
      CallerMoves(s, t, d, read, failed);
    } else {
      ConcludeFor(s, d, cs.phase.stage.result, read, failed);
    }
  }

  lemma StoreKeepsSource(c: Config, s: State, d: Caller, read: set<Value>, failed: set<Key>)
    requires Sourced(s, read, failed) && FlightsMatch(s) && Enabled(s, CheckAndStore(d))
    ensures Sourced(Do(c, s, CheckAndStore(d)), read, failed)
  {
    var k, g := s.callers[d].key, s.callers[d].phase.stage;
    assert CallerFor(s.callers[d], CurrentVersion(s, k), read, failed);
    hide Conclude, Sourced;
    var stored := s.(cache := s.cache[k := g.value]);
    StoredFor(s, k, g.value, read, failed);
    assert FlightsMatch(stored);
    SameVersions(s, stored, k);
    hide FlightsMatch;
    ConcludeFor(if g.fence == Generation(c, s, k) then stored else s, d, Got(g.value), read, failed);
  }

  /** The other steps of a caller. */
  lemma MovingKeepsSource(c: Config, s: State, a: Action, read: set<Value>, failed: set<Key>)
    requires Sourced(s, read, failed) && ValuesSound(s) && Enabled(s, a) && IsCallerAction(a) && !IsConcluding(a)
    requires ReadNow(s, a) <= read && FailedNow(s, a) <= failed
    ensures Sourced(Do(c, s, a), read, failed)
  {
    var d, t := a.caller, Do(c, s, a);
    MovedCaller(c, s, a, read, failed);
    hide Sourced, CallerFor, CurrentVersion, ValuesSound, Conclude;
    CallerMoves(s, t, d, read, failed);
  }

  lemma MovedCaller(c: Config, s: State, a: Action, read: set<Value>, failed: set<Key>)
    requires Sourced(s, read, failed) && ValuesSound(s) && Enabled(s, a) && IsCallerAction(a) && !IsConcluding(a)
    requires ReadNow(s, a) <= read && FailedNow(s, a) <= failed
    ensures var t := Do(c, s, a);
            && a.caller in t.callers
            && CallerFor(t.callers[a.caller], CurrentVersion(t, t.callers[a.caller].key), read, failed)
  {
    var d, t := a.caller, Do(c, s, a);
    if d in s.callers {
      var k := s.callers[d].key;
      assert CallerFor(s.callers[d], CurrentVersion(s, k), read, failed) && CallerSound(s.callers[d]);
      assert k in s.cache ==> ValueFor(k, CurrentVersion(s, k), s.cache[k], read);
      hide Conclude, Sourced, ValuesSound;
      SameVersions(s, t, k);
    }
  }

  lemma StepKeepsSource(c: Config, s: State, a: Action, read: set<Value>, failed: set<Key>)
    requires Sourced(s, read, failed) && ValuesSound(s) && FlightsMatch(s) && Enabled(s, a)
    requires ReadNow(s, a) <= read && FailedNow(s, a) <= failed
    ensures Sourced(Do(c, s, a), read, failed)
  {
    if IsConcluding(a) {
      ConcludingKeepsSource(c, s, a, read, failed);
    } else if IsCallerAction(a) {
      MovingKeepsSource(c, s, a, read, failed);
    } else {
      hide Sourced, ValuesSound, FlightsMatch, Conclude;
      StillSourced(s, Do(c, s, a), read, failed, read, failed);
    }
  }

  lemma {:induction false} RunKeepsSource(
    c: Config, s: State, actions: seq<Action>, t: State, read: set<Value>, failed: set<Key>)
    requires Run(c, s, actions, t) && Sourced(s, read, failed) && ValuesSound(s) && FlightsMatch(s)
    ensures Sourced(t, read + ValuesRead(c, s, actions), failed + FillsFailed(c, s, actions))
    decreases |actions|
  {
    hide Do, Enabled, Sourced, ValuesSound, FlightsMatch, ReadNow, FailedNow;
    if actions != [] {
      var a, rest := actions[0], actions[1..];
      var more, worse := read + ReadNow(s, a), failed + FailedNow(s, a);
      StillSourced(s, s, read, failed, more, worse);
      StepKeepsSource(c, s, a, more, worse);
      StepKeepsValues(c, s, a);
      StepKeepsFlights(c, s, a);
      RunKeepsSource(c, Do(c, s, a), rest, t, more, worse);
      assert more + ValuesRead(c, Do(c, s, a), rest) == read + ValuesRead(c, s, actions);
      assert worse + FillsFailed(c, Do(c, s, a), rest) == failed + FillsFailed(c, s, actions);
    } else {
      assert read + {} == read && failed + {} == failed;
    }
  }

  lemma NothingYet()
    ensures Sourced(INITIAL, {}, {}) && ValuesSound(INITIAL) && FlightsMatch(INITIAL)
  {
  }

  /** In every interleaving: a value cached under `k`, handed to a caller of `k` or served to one was read by a fill
      of `k` in that run, and is no newer than the source. A caller that ends in a fill error does so because a fill
      of its key failed, and one that ends in a context error because its own context ended. */
  lemma AnswersHaveSources(c: Config, actions: seq<Action>, t: State)
    requires Run(c, INITIAL, actions, t)
    ensures var read := ValuesRead(c, INITIAL, actions);
            && (forall k :: k in t.cache ==> ValueFor(k, CurrentVersion(t, k), t.cache[k], read))
            && (forall d :: d in t.callers && t.callers[d].phase.Delivered? && t.callers[d].phase.result.Got? ==>
                  var k, v := t.callers[d].key, t.callers[d].phase.result.value;
                  ValueFor(k, CurrentVersion(t, k), v, read))
            && (forall d :: d in t.callers && t.callers[d].phase.Done? && t.callers[d].phase.answer.Served? ==>
                  var k, v := t.callers[d].key, t.callers[d].phase.answer.value;
                  ValueFor(k, CurrentVersion(t, k), v, read))
    ensures forall d :: d in t.callers && t.callers[d].phase == Done(FillError) ==>
              t.callers[d].key in FillsFailed(c, INITIAL, actions)
    ensures forall d :: d in t.callers && t.callers[d].phase == Done(ContextError) ==> !t.callers[d].live
  {
    hide Run, ValuesRead, FillsFailed, CurrentVersion, ValueFor;
    NothingYet();
    RunKeepsSource(c, INITIAL, actions, t, {}, {});
    var read, failed := ValuesRead(c, INITIAL, actions), FillsFailed(c, INITIAL, actions);
    assert {} + read == read && {} + failed == failed;
    forall d | d in t.callers ensures CallerFor(t.callers[d], CurrentVersion(t, t.callers[d].key), read, failed) {}
  }

  // ----- Waiting for one's own flight -----

  /** A caller that joined a flight stays in it until the leader's fill ends, and then gets what the leader gets; the
      leader is gone exactly when its own context had ended. */
  lemma JoinerWaits(c: Config, s: State, a: Action, d: Caller)
    requires ValuesSound(s) && Enabled(s, a) && d in s.callers && s.callers[d].phase.Joined?
    ensures var t, l, n := Do(c, s, a), s.callers[d].phase.leader, s.callers[d].phase.attempt;
            && d in t.callers && t.callers[d].key == s.callers[d].key
            && (t.callers[d].phase != s.callers[d].phase ==>
                  && IsConcluding(a) && a.caller == l && l in t.callers && t.callers[l].phase.Delivered?
                  && t.callers[d].phase == Delivered(n, t.callers[l].phase.result)
                  && (t.callers[d].phase.result.LeaderGone? ==> a.CheckContext? && !s.callers[l].live))
  {
    if IsConcluding(a) {
      ConcludingStep(c, s, a);
      assert CallerSound(s.callers[a.caller]);
      hide Do, ValuesSound;
      if Concludes(c, s, a) {
        ConcludeReaches(Stored(c, s, a), a.caller, ResultOf(s, a), d);
      }
    } else {
      hide Conclude, ValuesSound;
    }
  }

  /** When the leader's fill ends everyone in its flight gets the result. */
  lemma FlightEnds(c: Config, s: State, a: Action, d: Caller)
    requires Enabled(s, a) && IsConcluding(a) && d in s.callers && s.callers[d].phase.Joined?
    requires s.callers[a.caller].phase.Leading? || s.callers[a.caller].phase.Rechecking?
    requires s.callers[d].phase.leader == a.caller && Do(c, s, a).callers[a.caller].phase.Delivered?
    ensures var t := Do(c, s, a);
            t.callers[d].phase == Delivered(s.callers[d].phase.attempt, t.callers[a.caller].phase.result)
  {
    ConcludingStep(c, s, a);
    hide Do;
    if Concludes(c, s, a) {
      ConcludeReaches(Stored(c, s, a), a.caller, ResultOf(s, a), d);
    }
  }

  /** Whether a step ends a fill, with which result, and what it stores first. */
  predicate Concludes(c: Config, s: State, a: Action)
    requires Enabled(s, a) && IsConcluding(a)
  {
    var cs := s.callers[a.caller];
    match a
    case Recheck(_) => cs.key in s.cache
    case CheckContext(_) => !cs.live || !cs.phase.stage.result.Got?
    case CheckAndStore(_) => true
  }

  function ResultOf(s: State, a: Action): Outcome
    requires Enabled(s, a) && IsConcluding(a)
  {
    var cs := s.callers[a.caller];
    match a
    case Recheck(_) => if cs.key in s.cache then Got(s.cache[cs.key]) else Failed
    case CheckContext(_) => if cs.live then cs.phase.stage.result else LeaderGone
    case CheckAndStore(_) => Got(cs.phase.stage.value)
  }

  function Stored(c: Config, s: State, a: Action): State
    requires Enabled(s, a) && IsConcluding(a)
  {
    var cs := s.callers[a.caller];
    if a.CheckAndStore? && cs.phase.stage.fence == Generation(c, s, cs.key)
    then s.(cache := s.cache[cs.key := cs.phase.stage.value])
    else s
  }

  lemma ConcludingStep(c: Config, s: State, a: Action)
    requires Enabled(s, a) && IsConcluding(a)
    ensures Stored(c, s, a).callers == s.callers
    ensures Concludes(c, s, a) ==> Do(c, s, a) == Conclude(Stored(c, s, a), a.caller, ResultOf(s, a))
    ensures !Concludes(c, s, a) ==>
              && Do(c, s, a).callers == s.callers[a.caller := Do(c, s, a).callers[a.caller]]
              && Do(c, s, a).callers[a.caller].key == s.callers[a.caller].key
              && !Do(c, s, a).callers[a.caller].phase.Delivered?
  {
    hide Conclude;
  }

  lemma ConcludeReaches(s: State, c: Caller, r: Outcome, d: Caller)
    requires Filling(s, c) || (c in s.callers && s.callers[c].phase.Rechecking?)
    requires d in s.callers && s.callers[d].phase.Joined?
    ensures var t := Conclude(s, c, r); var p := s.callers[d].phase;
            t.callers[d].phase ==
            if p.leader == c && !s.callers[c].phase.FillingAlone? then Delivered(p.attempt, r) else p
  {
  }

  // ----- Going on from a result -----

  /** How a caller ends, or goes on: a value is served, a failed fill is reported to a caller that is still there, a
      caller whose context has ended gets a context error, and a live caller whose leader is gone tries again, having
      filled nothing itself, in a flight or, after the last attempt, alone. */
  lemma ReceiveMeaning(c: Config, actions: seq<Action>, s: State, d: Caller)
    requires Run(c, INITIAL, actions, s) && Enabled(s, Receive(d))
    ensures var cs := s.callers[d];
            var r, n, next := cs.phase.result, cs.phase.attempt, Do(c, s, Receive(d)).callers[d].phase;
            && (next.Done? && next.answer.Served? <==> r.Got?) && (r.Got? ==> next.answer.value == r.value)
            && (next == Done(FillError) <==> r.Failed? && cs.live)
            && (next == Done(ContextError) <==> !r.Got? && !cs.live)
            && (next.Trying? || next.FillingAlone? <==> r.LeaderGone? && cs.live)
            && (r.LeaderGone? && cs.live ==>
                  && cs.fills == 0 && n < MAX_FLIGHT_ATTEMPTS
                  && next == if n + 1 < MAX_FLIGHT_ATTEMPTS then Trying(n + 1) else FillingAlone(Begin))
  {
    hide Run;
    NothingYet();
    RunKeepsSound(c, INITIAL, actions, s);
    assert CallerSound(s.callers[d]);
  }

  // ----- An undisturbed fill is cached -----

  lemma {:induction false} GenerationsGrow(c: Config, s: State, actions: seq<Action>, t: State, k: Key)
    requires Run(c, s, actions, t)
    ensures Generation(c, s, k) <= Generation(c, t, k)
    decreases |actions|
  {
    hide Do, Enabled;
    if actions != [] {
      StepGeneration(c, s, actions[0], k);
      GenerationsGrow(c, Do(c, s, actions[0]), actions[1..], t, k);
    }
  }

  lemma StepGeneration(c: Config, s: State, a: Action, k: Key)
    requires Enabled(s, a)
    ensures Generation(c, s, k) <= Generation(c, Do(c, s, a), k)
  {
    hide Conclude;
  }

  /** A caller's fence, once loaded, is the one it checks, until it loads another. */
  ghost predicate Holds(s: State, d: Caller, fence: nat) {
    Filling(s, d) ==> s.callers[d].phase.stage.Begin? || s.callers[d].phase.stage.fence == fence
  }

  lemma StepHolds(c: Config, s: State, a: Action, d: Caller, fence: nat)
    requires Enabled(s, a) && Holds(s, d, fence) && a != LoadFence(d)
    ensures Holds(Do(c, s, a), d, fence)
  {
    if IsCallerAction(a) {
      if a.caller != d {
        CallerActionFrame(c, s, a);
        hide Do, Enabled;
      } else {
        hide Conclude;
      }
    }
  }

  lemma {:induction false} RunHolds(c: Config, s: State, actions: seq<Action>, t: State, d: Caller, fence: nat)
    requires Run(c, s, actions, t) && Holds(s, d, fence) && LoadFence(d) !in actions
    ensures Holds(t, d, fence)
    decreases |actions|
  {
    hide Do, Enabled, Holds;
    if actions != [] {
      StepHolds(c, s, actions[0], d, fence);
      RunHolds(c, Do(c, s, actions[0]), actions[1..], t, d, fence);
    }
  }

  /** A fill stores its value exactly when nobody bumped the key's fence since it was loaded; otherwise the cache
      stays as it is. */
  lemma StoredUnlessBumped(c: Config, s: State, d: Caller, actions: seq<Action>, t: State)
    requires Enabled(s, LoadFence(d)) && Run(c, Do(c, s, LoadFence(d)), actions, t)
    requires LoadFence(d) !in actions && Enabled(t, CheckAndStore(d))
    ensures var k, u := t.callers[d].key, Do(c, t, CheckAndStore(d));
            && k == s.callers[d].key && Generation(c, s, k) <= Generation(c, t, k)
            && u.cache ==
               if Generation(c, s, k) == Generation(c, t, k) then t.cache[k := t.callers[d].phase.stage.value]
               else t.cache
  {
    var k, first := s.callers[d].key, Do(c, s, LoadFence(d));
    assert Holds(first, d, Generation(c, s, k)) && first.callers[d].key == k;
    RunHolds(c, first, actions, t, d, Generation(c, s, k));
    RunKeepsKey(c, first, actions, t, d);
    GenerationsGrow(c, first, actions, t, k);
    hide Conclude, Run;
  }

  lemma {:induction false} RunKeepsKey(c: Config, s: State, actions: seq<Action>, t: State, d: Caller)
    requires Run(c, s, actions, t) && d in s.callers
    ensures d in t.callers && t.callers[d].key == s.callers[d].key
    decreases |actions|
  {
    hide Do, Enabled;
    if actions != [] {
      StepKeepsKey(c, s, actions[0], d);
      RunKeepsKey(c, Do(c, s, actions[0]), actions[1..], t, d);
    }
  }

  lemma StepKeepsKey(c: Config, s: State, a: Action, d: Caller)
    requires Enabled(s, a) && d in s.callers
    ensures d in Do(c, s, a).callers && Do(c, s, a).callers[d].key == s.callers[d].key
  {
    hide Conclude;
  }
}
