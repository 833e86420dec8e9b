/**
  The analyzer's report cache (core/analyzer/cache.go): one report per flow and tenant, bounded by count
  and by bytes, least recently used out first. Its accounting needs the key encoding to be injective.
  A lookup holds the read lock only, so it draws its recency stamp in one step and stores it in another;
  writers run when no lookup is under way.
 */
module ReportCache {
  import opened Options
  import opened KeyCodec

  type Report(==, !new)

  datatype ReportKey = ReportKey(enc: string, tenant: Part, flow: string, path: string)

  /** `stamp` is the recency number, `cost` what the report is charged. */
  datatype CachedReport = CachedReport(report: Report, tenant: Part, flow: string, path: string, cost: nat, stamp: nat)

  type Entries = map<string, CachedReport>

  const SEPARATOR := "/"
  const DEFAULT_ENTRIES: nat := 50
  const DEFAULT_BUDGET: nat := 96 * 1048576

  predicate HasPrefix(s: string, p: string) {
    |p| <= |s| && s[..|p|] == p
  }

  /** One path contains the other. */
  predicate PathsOverlap(a: string, b: string) {
    a != "" && b != "" && (HasPrefix(b, a + SEPARATOR) || HasPrefix(a, b + SEPARATOR))
  }

  /** Two reports that must not be held together. */
  predicate Clashes(tenant: Part, flow: string, path: string, e: CachedReport) {
    e.tenant == tenant && (e.flow == flow || PathsOverlap(path, e.path))
  }

  // ----- Keys -----

  /** The declared parts of a report key: tenant, resource, version, rule profile, content. */
  function ReportParts(tenant: Part, flow: string, rest: seq<Part>): seq<Part> {
    [tenant, Part(KindResource, "", flow)] + rest
  }

  ghost predicate KeyNames(enc: string, tenant: Part, flow: string) {
    exists rest :: NoZero(rest) && enc == EncodeParts(ReportParts(tenant, flow, rest))
  }

  /** What `reportKey` returns: a key built from this very tenant and flow. */
  ghost predicate WellKeyed(k: ReportKey) {
    !k.tenant.IsZero() && KeyNames(k.enc, k.tenant, k.flow)
  }

  /** A key determines its tenant and flow. */
  lemma KeyNamesOne(enc: string, t: Part, f: string, t': Part, f': string)
    requires !t.IsZero() && !t'.IsZero() && KeyNames(enc, t, f) && KeyNames(enc, t', f')
    ensures t == t' && f == f'
  {
    var r :| NoZero(r) && enc == EncodeParts(ReportParts(t, f, r));
    var r' :| NoZero(r') && enc == EncodeParts(ReportParts(t', f', r'));
    var p, p' := ReportParts(t, f, r), ReportParts(t', f', r');
    hide EncodeParts;
    EncodingInjective(p, p');
    assert p[0] == p'[0] && p[1] == p'[1];
  }

  /** The kinds the report cache declares. */
  function ReportKinds(): (ks: seq<Kind>)
    ensures |ks| == 5
  {
    [KindTenant, KindResource, KindVersion, KindRuleProfile, KindContent]
  }

  /** The arguments `reportKey` gives, in declared order; an empty text makes a zero part. */
  function ReportArguments(
    tenant: Part, flow: string, version: string, profile: string, content: string): (ps: seq<Part>)
    ensures |ps| == 5
  {
    [tenant, MakePart(KindResource, "", flow), MakePart(KindVersion, "", version),
     MakePart(KindRuleProfile, "", profile), MakePart(KindContent, "", content)]
  }

  /** `reportKey`: a key for a tenant and a document with an identity, unless a part is empty or the tenant part is
      of another kind. */
  method MakeReportKey(tenant: Part, flow: string, version: string, profile: string, content: string, path: string)
    returns (r: Option<ReportKey>)
    ensures r.Some? <==> tenant.kind == KindTenant && flow != "" && version != "" && profile != "" && content != ""
    ensures r.Some? ==> WellKeyed(r.value) && r.value == ReportKey(r.value.enc, tenant, flow, path)
  {
    hide KindsOf, NoZero, EncodeParts, KeyNames, FirstMissing, FirstSurplus, ReportKinds, ReportArguments;
    if tenant.IsZero() || flow == "" {
      return None;
    }
    var parts := ReportArguments(tenant, flow, version, profile, content);
    ArgumentsMatch(tenant, flow, version, profile, content);
    var key, _ := BuildKey(ReportKinds(), parts);
    if !key.Key? {
      return None;
    }
    ghost var order :| Arranges(ReportKinds(), parts, order) && key.enc == EncodeParts(Select(parts, order));
    InDeclaredOrder(parts, order);
    NamesTenantAndFlow(tenant, flow, parts);
    r := Some(ReportKey(key.enc, tenant, flow, path));
  }

  /** Which arguments are a key's. */
  lemma ArgumentsMatch(tenant: Part, flow: string, version: string, profile: string, content: string)
    requires flow != ""
    ensures var parts := ReportArguments(tenant, flow, version, profile, content);
            && Declarable(ReportKinds())
            && (NoZero(parts) && multiset(KindsOf(parts)) == multiset(ReportKinds()) <==>
                tenant.kind == KindTenant && version != "" && profile != "" && content != "")
            && (NoZero(parts) && tenant.kind == KindTenant ==> KindsOf(parts) == ReportKinds())
            && parts[0] == tenant && parts[1] == Part(KindResource, "", flow)
  {
    var parts := ReportArguments(tenant, flow, version, profile, content);
    ArgumentKinds(tenant, flow, version, profile, content);
    hide ReportKinds, ReportArguments, NoZero;
    if NoZero(parts) && multiset(KindsOf(parts)) == multiset(ReportKinds()) {
      FirstKindFits(KindsOf(parts));
    }
  }

  lemma ArgumentKinds(tenant: Part, flow: string, version: string, profile: string, content: string)
    requires flow != ""
    ensures var parts := ReportArguments(tenant, flow, version, profile, content);
            && Declarable(ReportKinds()) && parts[0] == tenant && parts[1] == Part(KindResource, "", flow)
            && (NoZero(parts) <==> !tenant.IsZero() && version != "" && profile != "" && content != "")
            && (NoZero(parts) ==> forall i :: 1 <= i < 5 ==> KindsOf(parts)[i] == ReportKinds()[i])
            && (NoZero(parts) && tenant.kind == KindTenant ==> KindsOf(parts) == ReportKinds())
  {
    var parts := ReportArguments(tenant, flow, version, profile, content);
    assert NoZero(parts) ==> !parts[0].IsZero() && !parts[2].IsZero() && !parts[3].IsZero() && !parts[4].IsZero();
  }

  /** Only the first declared kind is a tenant, so only a tenant fits there. */
  lemma FirstKindFits(ks: seq<Kind>)
    requires |ks| == 5 && multiset(ks) == multiset(ReportKinds())
    requires forall i :: 1 <= i < 5 ==> ks[i] == ReportKinds()[i]
    ensures ks[0] == KindTenant
  {
    assert ReportKinds()[0] in multiset(ks);
    assert KindTenant in ks;
  }

  /** Arguments given in declared order, all of different kinds, stay in that order. */
  lemma InDeclaredOrder(parts: seq<Part>, order: seq<nat>)
    requires |parts| == 5 && KindsOf(parts) == ReportKinds() && Arranges(ReportKinds(), parts, order)
    ensures Select(parts, order) == parts
  {
    forall k | 0 <= k < 5 ensures order[k] == k {
      assert KindsOf(parts)[order[k]] == ReportKinds()[k] == KindsOf(parts)[k];
    }
  }

  lemma NamesTenantAndFlow(tenant: Part, flow: string, parts: seq<Part>)
    requires |parts| == 5 && NoZero(parts) && parts[0] == tenant && parts[1] == Part(KindResource, "", flow)
    ensures KeyNames(EncodeParts(parts), tenant, flow)
  {
    hide EncodeParts;
    var rest := parts[2..];
    assert parts == ReportParts(tenant, flow, rest) && NoZero(rest);
  }

  // ----- Accounting -----

  ghost function Bytes(m: Entries): nat {
    if m == map[] then 0 else var k :| k in m; m[k].cost + Bytes(m - {k})
  }

  lemma {:induction false} BytesRemove(m: Entries, k: string)
    requires k in m
    ensures Bytes(m) == m[k].cost + Bytes(m - {k})
    decreases |m|
  {
    var j :| j in m && Bytes(m) == m[j].cost + Bytes(m - {j});
    if j != k {
      BytesRemove(m - {j}, k);
      assert m - {j} - {k} == m - {k} - {j};
      BytesRemove(m - {k}, j);
    }
  }

  lemma BytesInsert(m: Entries, k: string, e: CachedReport)
    requires k !in m
    ensures Bytes(m[k := e]) == Bytes(m) + e.cost
  {
    BytesRemove(m[k := e], k);
    assert m[k := e] - {k} == m;
  }

  lemma BytesRestamp(m: Entries, k: string, stamp: nat)
    requires k in m
    ensures Bytes(m[k := m[k].(stamp := stamp)]) == Bytes(m)
  {
    var n := m[k := m[k].(stamp := stamp)];
    BytesRemove(m, k);
    BytesRemove(n, k);
    assert n - {k} == m - {k};
  }

  // ----- The invariant -----

  /** Within both bounds, with room for one more report of `cost`. */
  ghost predicate Room(m: Entries, cost: nat, maxSize: nat, maxBytes: nat) {
    m == map[] || (|m| < maxSize && Bytes(m) + cost <= maxBytes)
  }

  /** Entries lie under keys that name their tenant and flow. */
  ghost predicate Keyed(m: Entries) {
    forall k :: k in m ==> !m[k].tenant.IsZero() && KeyNames(k, m[k].tenant, m[k].flow)
  }

  /** Stamps are distinct and were drawn. */
  ghost predicate Stamped(m: Entries, last: nat) {
    && (forall k :: k in m ==> m[k].stamp <= last)
    && (forall j, k :: j in m && k in m && j != k ==> m[j].stamp != m[k].stamp)
  }

  ghost predicate Filed(m: Entries, last: nat) {
    Keyed(m) && Stamped(m, last)
  }

  /** A stamp drawn by a lookup that has not stored it yet. */
  datatype Ticket = Ticket(key: string, stamp: nat)

  /** Lookups under way are about held entries, and their stamps are nobody else's. */
  ghost predicate Waiting(m: Entries, pending: set<Ticket>, used: map<string, nat>) {
    && (forall t :: t in pending ==> t.key in m && t.key in used && t.stamp <= used[t.key])
    && (forall t, k :: t in pending && k in m ==> m[k].stamp != t.stamp)
    && (forall t, u :: t in pending && u in pending && t.stamp == u.stamp ==> t == u)
  }

  /** `used` is when each entry was last used: its stamp is that or an earlier one. */
  ghost predicate Dated(m: Entries, used: map<string, nat>, last: nat) {
    forall k :: k in m ==> k in used && m[k].stamp <= used[k] <= last
  }

  /** The last use of every entry is its stamp, or is still to be stored. */
  ghost predicate Tracked(m: Entries, used: map<string, nat>, pending: set<Ticket>) {
    forall k :: k in m ==> k in used && (m[k].stamp == used[k] || Ticket(k, used[k]) in pending)
  }

  /** No tenant holds two reports of one flow, or of nested paths. */
  ghost predicate Apart(m: Entries) {
    forall j, k :: j in m && k in m && j != k ==> !Clashes(m[j].tenant, m[j].flow, m[j].path, m[k])
  }

  /** `kept` are the most recently used of `all`. */
  ghost predicate MostRecent(kept: Entries, all: Entries) {
    && (forall k :: k in kept ==> k in all && all[k] == kept[k])
    && (forall j, k :: j in all && j !in kept && k in kept ==> all[j].stamp < kept[k].stamp)
  }

  /** The entries that may stay beside a new report under `k`. */
  ghost function Compatible(m: Entries, k: ReportKey): Entries {
    map j | j in m && !Clashes(k.tenant, k.flow, k.path, m[j]) :: m[j]
  }

  ghost function Unpicked(m: Entries, select: CachedReport -> bool): Entries {
    map j | j in m && !select(m[j]) :: m[j]
  }

  /** `kept` is what eviction leaves of `all`: the most recent ones, with room for the new report, and
      stopping at the first eviction that made the room. */
  ghost predicate MadeRoom(kept: Entries, all: Entries, cost: nat, maxSize: nat, maxBytes: nat) {
    MostRecent(kept, all) && Room(kept, cost, maxSize, maxBytes) && Needed(kept, all, cost, maxSize, maxBytes)
  }

  /** Nothing was evicted, or without the last eviction there was no room. */
  ghost predicate Needed(kept: Entries, all: Entries, cost: nat, maxSize: nat, maxBytes: nat) {
    kept == all || exists j :: LastEvicted(kept, all, j) && !Room(kept[j := all[j]], cost, maxSize, maxBytes)
  }

  ghost predicate LastEvicted(kept: Entries, all: Entries, j: string) {
    j in all && j !in kept && MostRecent(kept[j := all[j]], all)
  }

  class Cache {
    const maxSize: nat
    const maxBytes: nat
    var entries: Entries
    var bytes: int
    var last: nat
    ghost var pending: set<Ticket>
    ghost var used: map<string, nat>

    /** What holds while lookups are under way. */
    ghost predicate Shared()
      reads this
    {
      && maxSize > 0 && maxBytes > 0
      && Filed(entries, last) && Apart(entries) && Waiting(entries, pending, used) && Dated(entries, used, last)
      && bytes == Bytes(entries) && bytes <= maxBytes && |entries| <= maxSize
    }

    /** What holds when a writer has the lock. */
    ghost predicate Valid()
      reads this
    {
      Shared() && pending == {}
    }

    /** Stamps tell the order of last uses. */
    ghost predicate InOrder()
      reads this
    {
      Tracked(entries, used, {})
    }

    /** A bound of 0 or less means the default. */
    constructor (maxSize: int, maxBytes: int)
      ensures Valid() && InOrder() && entries == map[]
      ensures this.maxSize == (if maxSize <= 0 then DEFAULT_ENTRIES else maxSize)
      ensures this.maxBytes == (if maxBytes <= 0 then DEFAULT_BUDGET else maxBytes)
    {
      this.maxSize := if maxSize <= 0 then DEFAULT_ENTRIES else maxSize;
      this.maxBytes := if maxBytes <= 0 then DEFAULT_BUDGET else maxBytes;
      entries, bytes, last := map[], 0, 0;
      pending, used := {}, map[];
    }

    method Remove(key: string)
      requires bytes == Bytes(entries)
      modifies this`entries, this`bytes
      ensures bytes == Bytes(entries) && entries == old(entries) - {key}
    {
      if key in entries {
        BytesRemove(entries, key);
        bytes := bytes - entries[key].cost;
        entries := entries - {key};
      } else {
        assert entries - {key} == entries;
      }
    }

    /** The first half of a lookup: finds the entry and draws a stamp. */
    method Draw(k: ReportKey) returns (r: Option<Report>, t: Ticket)
      requires Shared()
      modifies this`last, this`pending, this`used
      ensures Shared()
      ensures k.enc !in entries ==> r == None && last == old(last) && pending == old(pending) && used == old(used)
      ensures k.enc in entries ==>
                && r == Some(entries[k.enc].report) && last == old(last) + 1 && t == Ticket(k.enc, last)
                && pending == old(pending) + {t} && used == old(used)[k.enc := last]
      ensures old(Tracked(entries, used, pending)) ==> Tracked(entries, used, pending)
    {
      hide Bytes, Filed, Apart, Waiting, Dated;
      t := Ticket(k.enc, last + 1);
      if k.enc !in entries { return None, t; }
      DrawKeeps(entries, last, pending, used, k.enc);
      last := last + 1;
      pending, used := pending + {t}, used[k.enc := last];
      r := Some(entries[k.enc].report);
    }

    /** The second half: stores the stamp. A later stamp of the same entry may have been stored first; only then
        can the last use be lost. */
    method Store(t: Ticket)
      requires Shared() && t in pending
      modifies this`entries, this`pending
      ensures Shared() && pending == old(pending) - {t}
      ensures entries == old(entries)[t.key := old(entries)[t.key].(stamp := t.stamp)]
      ensures old(Tracked(entries, used, pending)) ==>
                (Tracked(entries, used, pending) <==> !(old(entries)[t.key].stamp == used[t.key]))
    {
      hide Bytes, Filed, Apart, Waiting, Dated, Tracked;
      StoreKeeps(entries, last, pending, used, t);
      if Tracked(entries, used, pending) {
        StoreTracks(entries, pending, used, t);
      }
      BytesRestamp(entries, t.key, t.stamp);
      entries := entries[t.key := entries[t.key].(stamp := t.stamp)];
      pending := pending - {t};
    }

    /** A lookup by itself: a hit is stamped as the most recent use. */
    method Get(k: ReportKey) returns (r: Option<Report>)
      requires Valid()
      modifies this`entries, this`last, this`pending, this`used
      ensures Valid() && (old(InOrder()) ==> InOrder())
      ensures k.enc !in old(entries) ==> r == None && entries == old(entries)
      ensures k.enc in old(entries) ==>
                && r == Some(old(entries)[k.enc].report) && last > old(last)
                && entries == old(entries)[k.enc := old(entries)[k.enc].(stamp := last)]
    {
      hide Shared, Tracked;
      ghost var start, was := last, entries;
      StampsDrawn();
      var t: Ticket;
      r, t := Draw(k);
      if r.Some? {
        Store(t);
      }
    }

    lemma StampsDrawn()
      requires Shared()
      ensures forall k :: k in entries ==> entries[k].stamp <= last
    {
    }

    /** Drops every entry `select` picks. */
    method Drop(select: CachedReport -> bool)
      requires Valid()
      modifies this`entries, this`bytes
      ensures Valid() && (old(InOrder()) ==> InOrder()) && entries == Unpicked(old(entries), select)
    {
      hide Bytes, Filed, Apart, Waiting, Dated, Tracked;
      var rest := entries.Keys;
      while rest != {}
        invariant rest <= entries.Keys && bytes == Bytes(entries)
        invariant forall j :: j in entries <==> j in old(entries) && (j in rest || !select(old(entries)[j]))
        invariant forall j :: j in entries ==> entries[j] == old(entries)[j]
      {
        var j :| j in rest;
        if select(entries[j]) {
          Remove(j);
        }
        rest := rest - {j};
      }
      Shrunk(old(entries), entries, last, used);
    }

    /** Removes the entry with the smallest stamp. */
    method EvictOldest(ghost all: Entries) returns (ghost k: string)
      requires Stamped(entries, last) && bytes == Bytes(entries) && entries != map[] && MostRecent(entries, all)
      modifies this`entries, this`bytes
      ensures Stamped(entries, last) && bytes == Bytes(entries) && MostRecent(entries, all)
      ensures k in old(entries) && entries == old(entries) - {k}
      ensures forall j :: j in entries ==> old(entries)[k].stamp < entries[j].stamp
    {
      hide Bytes, MostRecent;
      var rest := entries.Keys;
      var oldest :| oldest in rest;
      while rest != {}
        invariant rest <= entries.Keys && oldest in entries
        invariant forall j :: j in entries && j !in rest ==> entries[oldest].stamp <= entries[j].stamp
      {
        var j :| j in rest;
        if entries[j].stamp < entries[oldest].stamp {
          oldest := j;
        }
        rest := rest - {j};
      }
      k := oldest;
      OldestLeaves(entries, all, oldest);
      Remove(oldest);
    }

    /** `put`. What clashes with the new report goes first; then the entries with the smallest stamps, and no
        more of them than both bounds ask for. A report over the whole budget is not kept. */
    method Put(k: ReportKey, report: Report, cost: nat)
      requires Valid() && WellKeyed(k)
      modifies this`entries, this`bytes, this`last, this`used
      ensures Valid() && last >= old(last) && (old(InOrder()) ==> InOrder())
      ensures cost > maxBytes ==> entries == Compatible(old(entries), k)
      ensures cost <= maxBytes ==>
                && k.enc in entries && entries[k.enc] == CachedReport(report, k.tenant, k.flow, k.path, cost, last)
                && MadeRoom(entries - {k.enc}, Compatible(old(entries), k), cost, maxSize, maxBytes)
      // While stamps tell the order of last uses, what is evicted was used before all that stays.
      ensures old(InOrder()) && cost <= maxBytes ==>
                forall i, j :: i in Compatible(old(entries), k) && i !in entries && j in entries && j != k.enc ==>
                  i in old(used) && j in old(used) && old(used)[i] < old(used)[j]
    {
      hide Bytes, Filed, Apart, MadeRoom, Clashes, Tracked, WellKeyed, Waiting, Dated;
      ghost var all := Compatible(entries, k);
      KeyIsFree(entries, last, k);
      Drop(e => Clashes(k.tenant, k.flow, k.path, e));
      assert entries == all;
      if cost > maxBytes { return; }
      MakeRoom(cost, all);
      ghost var kept := entries;
      AddReport(k, CachedReport(report, k.tenant, k.flow, k.path, cost, last + 1), all);
      assert entries - {k.enc} == kept;
      if old(InOrder()) {
        EvictedUsedBefore(old(entries), old(used), k, kept, cost, maxSize, maxBytes);
      }
    }

    /** Files the new report once there is room for it. */
    method AddReport(k: ReportKey, e: CachedReport, ghost all: Entries)
      requires Valid() && WellKeyed(k) && k.enc !in all && MadeRoom(entries, all, e.cost, maxSize, maxBytes) &&
               e.cost <= maxBytes
      requires forall j :: j in all ==> !Clashes(k.tenant, k.flow, k.path, all[j])
      requires e.tenant == k.tenant && e.flow == k.flow && e.path == k.path && e.stamp == last + 1
      modifies this`entries, this`bytes, this`last, this`used
      ensures Valid() && (old(InOrder()) ==> InOrder())
      ensures entries == old(entries)[k.enc := e] && k.enc !in old(entries) && last == old(last) + 1
    {
      hide Bytes, MadeRoom, Apart, Filed, Clashes, WellKeyed, Waiting, Dated, Tracked;
      RoomKept(entries, all, e.cost, maxSize, maxBytes);
      Arrival(entries, last, used, k, e);
      BytesInsert(entries, k.enc, e);
      last := last + 1;
      entries := entries[k.enc := e];
      used := used[k.enc := last];
      bytes := bytes + e.cost;
    }

    method MakeRoom(cost: nat, ghost all: Entries)
      requires Valid() && cost <= maxBytes && entries == all
      modifies this`entries, this`bytes
      ensures Valid() && (old(InOrder()) ==> InOrder()) && MadeRoom(entries, all, cost, maxSize, maxBytes)
    {
      hide Bytes, Keyed, Stamped, MostRecent, Apart, Waiting, Dated, Tracked, Room, Needed;
      EvictUntilRoom(cost, all);
      MostRecentPart(entries, all);
      Shrunk(all, entries, last, used);
    }

    /** The eviction loop. */
    method EvictUntilRoom(cost: nat, ghost all: Entries)
      requires Stamped(entries, last) && bytes == Bytes(entries) && entries == all
      modifies this`entries, this`bytes
      ensures bytes == Bytes(entries) && MadeRoom(entries, all, cost, maxSize, maxBytes)
    {
      hide Bytes, Stamped, MostRecent, Room, Needed;
      NothingEvicted(all, cost, maxSize, maxBytes);
      while |entries| > 0 && (|entries| >= maxSize || bytes + cost > maxBytes)
        invariant Stamped(entries, last) && bytes == Bytes(entries) && MostRecent(entries, all)
        invariant Needed(entries, all, cost, maxSize, maxBytes)
        decreases |entries|
      {
        ghost var was := entries;
        ghost var k := EvictOldest(all);
        EvictionNeeded(was, all, k, cost, maxSize, maxBytes);
        assert entries.Keys < was.Keys;
      }
      EnoughRoom(entries, cost, maxSize, maxBytes);
    }
  }

  // ----- Lookups that overlap -----

  lemma DrawKeeps(m: Entries, last: nat, pending: set<Ticket>, used: map<string, nat>, k: string)
    requires Filed(m, last) && Waiting(m, pending, used) && Dated(m, used, last) && k in m
    ensures Filed(m, last + 1) && Dated(m, used[k := last + 1], last + 1)
    ensures Waiting(m, pending + {Ticket(k, last + 1)}, used[k := last + 1])
  {
    hide Keyed;
  }

  lemma StoreKeeps(m: Entries, last: nat, pending: set<Ticket>, used: map<string, nat>, t: Ticket)
    requires Filed(m, last) && Apart(m) && Waiting(m, pending, used) && Dated(m, used, last) && t in pending
    ensures t.key in m
    ensures var n := m[t.key := m[t.key].(stamp := t.stamp)];
            Filed(n, last) && Apart(n) && Waiting(n, pending - {t}, used) && Dated(n, used, last) && |n| == |m|
  {
    StoreStamps(m, last, pending, used, t);
    SameButStamp(m, t.key, t.stamp);
    hide Keyed, Apart, Stamped, Waiting, Dated;
    var n := m[t.key := m[t.key].(stamp := t.stamp)];
    assert n.Keys == m.Keys;
    assert |n| == |n.Keys| && |m| == |m.Keys|;
  }

  lemma StoreStamps(m: Entries, last: nat, pending: set<Ticket>, used: map<string, nat>, t: Ticket)
    requires Stamped(m, last) && Waiting(m, pending, used) && Dated(m, used, last) && t in pending
    ensures t.key in m
    ensures var n := m[t.key := m[t.key].(stamp := t.stamp)];
            Stamped(n, last) && Waiting(n, pending - {t}, used) && Dated(n, used, last)
  {
  }

  /** Keys and clashes do not depend on stamps. */
  lemma SameButStamp(m: Entries, k: string, stamp: nat)
    requires Keyed(m) && Apart(m) && k in m
    ensures var n := m[k := m[k].(stamp := stamp)]; Keyed(n) && Apart(n)
  {
    hide KeyNames, PathsOverlap;
  }

  lemma StoreTracks(m: Entries, pending: set<Ticket>, used: map<string, nat>, t: Ticket)
    requires Waiting(m, pending, used) && t in pending && Tracked(m, used, pending)
    ensures t.key in m && t.key in used
    ensures Tracked(m[t.key := m[t.key].(stamp := t.stamp)], used, pending - {t}) <==> m[t.key].stamp != used[t.key]
  {
    var n := m[t.key := m[t.key].(stamp := t.stamp)];
    if m[t.key].stamp != used[t.key] {
      forall k | k in n ensures k in used && (n[k].stamp == used[k] || Ticket(k, used[k]) in pending - {t}) {
      }
    } else {
      assert Ticket(t.key, used[t.key]) !in pending;
      assert t.key in n && n[t.key].stamp == t.stamp != used[t.key];
    }
  }

  /** Two lookups of one entry that store in the opposite order can make a more recently used entry look older:
      whatever the cache holds, this schedule does. */
  method Inversion(c: Cache, a: ReportKey, b: ReportKey)
    requires c.Valid() && a.enc in c.entries && b.enc in c.entries && a.enc != b.enc
    modifies c
    ensures c.Valid() && a.enc in c.entries && b.enc in c.entries && a.enc in c.used && b.enc in c.used
    ensures c.used[b.enc] < c.used[a.enc] && c.entries[a.enc].stamp < c.entries[b.enc].stamp
  {
    hide c.Shared;
    var _, first := c.Draw(a);
    var _, other := c.Draw(b);
    c.Store(other);
    var _, second := c.Draw(a);
    c.Store(second);
    c.Store(first);
  }

  // ----- Writers -----

  lemma Shrunk(m: Entries, part: Entries, last: nat, used: map<string, nat>)
    requires Filed(m, last) && Apart(m) && Dated(m, used, last) && forall j :: j in part ==> j in m && part[j] == m[j]
    ensures Filed(part, last) && Apart(part) && Waiting(part, {}, used) && Dated(part, used, last)
    ensures Bytes(part) <= Bytes(m) && |part| <= |m|
    ensures Tracked(m, used, {}) ==> Tracked(part, used, {})
  {
    hide Keyed, Stamped, Apart, Bytes;
    PartBytes(m, part);
    PartFiled(m, part, last);
  }

  lemma PartFiled(m: Entries, part: Entries, last: nat)
    requires Filed(m, last) && Apart(m) && forall j :: j in part ==> j in m && part[j] == m[j]
    ensures Filed(part, last) && Apart(part)
  {
    hide KeyNames, Clashes;
  }

  lemma {:induction false} PartBytes(m: Entries, part: Entries)
    requires forall j :: j in part ==> j in m && part[j] == m[j]
    ensures Bytes(part) <= Bytes(m) && |part| <= |m|
    decreases |m|
  {
    if m == map[] {
      assert part == map[];
    } else {
      var k :| k in m;
      BytesRemove(m, k);
      PartBytes(m - {k}, part - {k});
      if k in part { BytesRemove(part, k); } else { assert part - {k} == part; }
    }
  }

  lemma EnoughRoom(m: Entries, cost: nat, maxSize: nat, maxBytes: nat)
    requires !(|m| > 0 && (|m| >= maxSize || Bytes(m) + cost > maxBytes))
    ensures Room(m, cost, maxSize, maxBytes)
  {}

  lemma NothingEvicted(m: Entries, cost: nat, maxSize: nat, maxBytes: nat)
    ensures MostRecent(m, m) && Needed(m, m, cost, maxSize, maxBytes)
  {}

  lemma EvictionNeeded(was: Entries, all: Entries, k: string, cost: nat, maxSize: nat, maxBytes: nat)
    requires k in was && MostRecent(was, all) && |was| > 0 && (|was| >= maxSize || Bytes(was) + cost > maxBytes)
    ensures Needed(was - {k}, all, cost, maxSize, maxBytes)
  {
    hide Bytes;
    assert (was - {k})[k := all[k]] == was;
    assert LastEvicted(was - {k}, all, k);
  }

  lemma MostRecentPart(kept: Entries, all: Entries)
    requires MostRecent(kept, all)
    ensures forall j :: j in kept ==> j in all && kept[j] == all[j]
  {}

  lemma OldestLeaves(m: Entries, all: Entries, k: string)
    requires k in m && MostRecent(m, all) && forall j :: j in m && j != k ==> m[k].stamp < m[j].stamp
    ensures MostRecent(m - {k}, all)
  {}

  lemma EvictedUsedBefore(
    m: Entries, used: map<string, nat>, k: ReportKey, kept: Entries, cost: nat, maxSize: nat, maxBytes: nat)
    requires Tracked(m, used, {}) && MadeRoom(kept, Compatible(m, k), cost, maxSize, maxBytes)
    ensures forall i, j :: i in Compatible(m, k) && i !in kept && j in kept ==>
            i in used && j in used && used[i] < used[j]
  {
    hide Clashes, Bytes;
  }

  lemma RoomKept(kept: Entries, all: Entries, cost: nat, maxSize: nat, maxBytes: nat)
    requires MadeRoom(kept, all, cost, maxSize, maxBytes) && maxSize > 0 && cost <= maxBytes
    ensures |kept| < maxSize && Bytes(kept) + cost <= maxBytes
    ensures forall j :: j in kept ==> j in all && kept[j] == all[j]
  {}

  /** What does not clash with `k` cannot lie under its key: the key would name the same tenant and flow. */
  lemma KeyIsFree(m: Entries, last: nat, k: ReportKey)
    requires Filed(m, last) && WellKeyed(k)
    ensures k.enc !in Compatible(m, k)
  {
    if k.enc in m {
      KeyNamesOne(k.enc, k.tenant, k.flow, m[k.enc].tenant, m[k.enc].flow);
    }
  }

  /** Filing a report that clashes with nothing held. */
  lemma Arrival(kept: Entries, last: nat, used: map<string, nat>, k: ReportKey, e: CachedReport)
    requires Filed(kept, last) && Apart(kept) && Dated(kept, used, last) && WellKeyed(k) && k.enc !in kept
    requires forall j :: j in kept ==> !Clashes(k.tenant, k.flow, k.path, kept[j])
    requires e.tenant == k.tenant && e.flow == k.flow && e.path == k.path && e.stamp == last + 1
    ensures var n := kept[k.enc := e];
            && Filed(n, last + 1) && Apart(n) && Waiting(n, {}, used[k.enc := last + 1]) &&
              Dated(n, used[k.enc := last + 1], last + 1)
            && (Tracked(kept, used, {}) ==> Tracked(n, used[k.enc := last + 1], {}))
  {
    hide KeyNames, HasPrefix;
  }
}
