/**
 The prompt cache.  One map is shared by all providers, each with its own key, lifetime, size limit and
 eviction order.  Times are nanoseconds; the content hash is any function to 32 characters.
 */
module PromptCache {
  import opened Common
  import opened Utf8

  const SECOND := 1_000_000_000

  datatype Entry = Entry(key: string, content: string, provider: string, createdAt: int, expiresAt: int,
                         accessCount: int, lastAccessedAt: int, cost: real, payload: string)

  type Hash = string -> string

  ghost predicate FixedLength(h: Hash) { forall s :: |h(s)| == 32 }

  // ---------------------------------------------------------------------------------------------
  // Strategies
  // ---------------------------------------------------------------------------------------------

  datatype Strategy = Default | Claude | OpenAI

  function StrategyOf(provider: string): Strategy {
    if provider == "claude" then Claude else if provider == "openai" then OpenAI else Default
  }

  predicate CanCache(s: Strategy, content: string) {
    var n := |Encode(content)|;
    match s
    case Default => 100 < n < 1000000
    case Claude => 500 < n < 5000000
    case OpenAI => 100 < n < 3000000
  }

  function CacheKey(h: Hash, s: Strategy, provider: string, content: string): string {
    match s
    case Default => provider + ":" + h(content)
    case Claude => "claude:" + h(content)
    case OpenAI => "openai:" + h(content)
  }

  function TTL(s: Strategy): int {
    match s
    case Default => 3600 * SECOND
    case Claude => 300 * SECOND
    case OpenAI => 86400 * SECOND
  }

  function MaxSize(s: Strategy): nat { if s.OpenAI? then 5000 else 1000 }

  /** Claude and OpenAI lifetimes slide with every access. */
  function OnAccess(s: Strategy, e: Entry, now: int): Entry {
    var seen := e.(accessCount := e.accessCount + 1, lastAccessedAt := now);
    if s.Default? then seen else seen.(expiresAt := now + TTL(s))
  }

  /** `a` is evicted in preference to `b`: least recent, least used or cheapest. */
  predicate Before(s: Strategy, a: Entry, b: Entry) {
    match s
    case Default => a.lastAccessedAt < b.lastAccessedAt
    case Claude => a.accessCount < b.accessCount
    case OpenAI => a.cost < b.cost
  }

  method EvictionPolicy(s: Strategy, entries: seq<Entry>) returns (r: Option<Entry>)
    ensures r.None? <==> entries == []
    ensures r.Some? ==> r.value in entries && forall e :: e in entries ==> !Before(s, e, r.value)
    ensures r.Some? && s == Default ==> forall e :: e in entries ==> r.value.lastAccessedAt <= e.lastAccessedAt
    ensures r.Some? && s == Claude ==> forall e :: e in entries ==> r.value.accessCount <= e.accessCount
    ensures r.Some? && s == OpenAI ==> forall e :: e in entries ==> r.value.cost <= e.cost
  {
    if |entries| == 0 {
      return None;
    }
    var least := entries[0];
    for i := 1 to |entries|
      invariant least in entries
      invariant forall j :: 0 <= j < i ==> !Before(s, entries[j], least)
    {
      if Before(s, entries[i], least) {
        least := entries[i];
      }
    }
    return Some(least);
  }

  /** The key of a pair is its provider and hash, whichever strategy makes it. */
  function Key(h: Hash, provider: string, content: string): string { provider + ":" + h(content) }

  lemma StrategiesAgreeOnKeys(h: Hash, provider: string, content: string)
    ensures CacheKey(h, StrategyOf(provider), provider, content) == Key(h, provider, content)
  {
  }

  /** Colons in provider names do no harm: the hash has a fixed length. */
  lemma KeysSeparate(h: Hash, p: string, c: string, p': string, c': string)
    requires FixedLength(h) && Key(h, p, c) == Key(h, p', c')
    ensures p == p' && h(c) == h(c')
  {
    var k := Key(h, p, c);
    assert |p| == |k| - 33 == |p'|;
    assert p == k[..|p|] && p' == k[..|p'|];
    assert h(c) == k[|p| + 1..] && h(c') == k[|p'| + 1..];
  }

  // ---------------------------------------------------------------------------------------------
  // The cache as a value
  // ---------------------------------------------------------------------------------------------

  type Entries = map<string, Entry>

  datatype Cache = Cache(entries: Entries, hits: nat, misses: nat)

  datatype Op =
    | Get(provider: string, content: string, now: int)
    | Set(provider: string, content: string, entry: Entry, now: int, victim: Option<string>)
    | Invalidate(provider: string, content: string)
    | InvalidateByPattern(pattern: string)
    | Clear
    | Prune(now: int)

  function Lookup(h: Hash, c: Cache, provider: string, content: string, now: int): Option<Entry> {
    var key := Key(h, provider, content);
    if key in c.entries && now <= c.entries[key].expiresAt then
      Some(OnAccess(StrategyOf(provider), c.entries[key], now))
    else None
  }

  /** What Set stores for a caller's entry. */
  function Stored(h: Hash, provider: string, content: string, e: Entry, now: int): Entry {
    e.(key := Key(h, provider, content), provider := provider, createdAt := now,
       expiresAt := now + TTL(StrategyOf(provider)))
  }

  predicate MatchPattern(key: string, pattern: string) {
    pattern == "*" || (pattern != "" && pattern <= key)
  }

  function Without(m: Entries, victim: Option<string>): Entries {
    if victim.Some? then m - {victim.value} else m
  }

  /** Set evicts when the map is as large as the setter's limit, and then one entry that the
      setter's policy puts before all others. */
  ghost predicate LegalVictim(m: Entries, s: Strategy, victim: Option<string>) {
    if |m| < MaxSize(s) then victim.None?
    else victim.Some? && victim.value in m && forall k :: k in m ==> !Before(s, m[k], m[victim.value])
  }

  /** By provider: the least recently accessed, the least often accessed or the cheapest entry. */
  ghost predicate IsLeast(provider: string, m: Entries, v: string) {
    && v in m
    && forall k :: k in m ==>
         if provider == "claude" then m[v].accessCount <= m[k].accessCount
         else if provider == "openai" then m[v].cost <= m[k].cost
         else m[v].lastAccessedAt <= m[k].lastAccessedAt
  }

  /** The shared map is full for openai at 5000 entries and for every other provider at 1000, and then the
      least entry by the setter's measure goes. */
  lemma VictimIsLeast(m: Entries, provider: string, victim: Option<string>)
    requires LegalVictim(m, StrategyOf(provider), victim)
    ensures victim.Some? <==> |m| >= if provider == "openai" then 5000 else 1000
    ensures victim.Some? ==> IsLeast(provider, m, victim.value)
  {
  }

  /** Which contents are cached, by their length in bytes. */
  lemma CachedLengths(provider: string, content: string)
    ensures var n := |Encode(content)|;
            CanCache(StrategyOf(provider), content) <==>
            if provider == "claude" then 500 < n < 5_000_000
            else if provider == "openai" then 100 < n < 3_000_000
            else 100 < n < 1_000_000
  {
  }

  lemma LeastIsLegal(s: Strategy, m: Entries, list: seq<Entry>, least: Entry)
    requires |m| >= MaxSize(s)
    requires forall k :: k in m ==> m[k].key == k
    requires forall e: Entry :: e in list <==> e.key in m && m[e.key] == e
    requires least in list && forall e :: e in list ==> !Before(s, e, least)
    ensures LegalVictim(m, s, Some(least.key))
  {
    assert forall k :: k in m ==> m[k] in list;
  }

  function Next(h: Hash, c: Cache, op: Op): Cache {
    match op
    case Get(p, x, now) =>
      var key := Key(h, p, x);
      var found := Lookup(h, c, p, x, now);
      if found.Some? then Cache(c.entries[key := found.value], c.hits + 1, c.misses)
      else Cache(c.entries - {key}, c.hits, c.misses + 1)
    case Set(p, x, e, now, victim) =>
      if CanCache(StrategyOf(p), x) then
        c.(entries := Without(c.entries, victim)[Key(h, p, x) := Stored(h, p, x, e, now)])
      else c
    case Invalidate(p, x) => c.(entries := c.entries - {Key(h, p, x)})
    case InvalidateByPattern(pattern) =>
      c.(entries := map k | k in c.entries && !MatchPattern(k, pattern) :: c.entries[k])
    case Clear => c.(entries := map[])
    case Prune(now) => c.(entries := map k | k in c.entries && now <= c.entries[k].expiresAt :: c.entries[k])
  }

  /** What patterns remove: a star everything, the empty pattern nothing, any other one the keys it begins; so a
      provider name with its colon removes all that provider's entries. */
  lemma PatternsRemove(h: Hash, c: Cache, pattern: string, key: string)
    requires key in c.entries
    ensures var c' := Next(h, c, InvalidateByPattern(pattern));
            && (key !in c'.entries <==>
                  pattern == "*" || (|pattern| > 0 && |pattern| <= |key| && key[..|pattern|] == pattern))
            && (key in c'.entries ==> c'.entries[key] == c.entries[key])
            && c'.hits == c.hits && c'.misses == c.misses
  {
  }

  lemma ProviderIsRemoved(h: Hash, c: Cache, provider: string, content: string)
    requires provider != ""
    ensures Key(h, provider, content) !in Next(h, c, InvalidateByPattern(provider + ":")).entries
  {
    assert Key(h, provider, content)[..|provider| + 1] == provider + ":";
  }

  // ---------------------------------------------------------------------------------------------
  // The cache manager
  // ---------------------------------------------------------------------------------------------

  lemma RemoveOne(m: Entries, k: string)
    requires k in m
    ensures |m - {k}| == |m| - 1
  {
    assert (m - {k}).Keys == m.Keys - {k};
  }

  class CacheManager {
    const hash: Hash
    var entries: map<string, Entry>
    var hits: nat
    var misses: nat
    var evictions: nat

    ghost predicate Valid()
      reads this
    {
      forall k :: k in entries ==> entries[k].key == k
    }

    ghost function Contents(): Cache
      reads this
    {
      Cache(entries, hits, misses)
    }

    constructor (hash: Hash)
      ensures Valid() && Contents() == Cache(map[], 0, 0) && evictions == 0 && this.hash == hash
    {
      this.hash := hash;
      entries, hits, misses, evictions := map[], 0, 0, 0;
    }

    method Get(provider: string, content: string, now: int) returns (r: Option<Entry>)
      requires Valid()
      modifies this
      ensures Valid() && evictions == old(evictions)
      ensures r == old(Lookup(hash, Contents(), provider, content, now))
      ensures Contents() == Next(hash, old(Contents()), Op.Get(provider, content, now))
    {
      var strategy := StrategyOf(provider);
      var cacheKey := CacheKey(hash, strategy, provider, content);
      StrategiesAgreeOnKeys(hash, provider, content);
      if cacheKey !in entries {
        misses := misses + 1;
        assert entries - {cacheKey} == entries;
        return None;
      }
      var entry := entries[cacheKey];
      if now > entry.expiresAt {
        entries := entries - {cacheKey};
        misses := misses + 1;
        return None;
      }
      hits := hits + 1;
      entry := OnAccess(strategy, entry, now);
      entries := entries[cacheKey := entry];
      return Some(entry);
    }

    /** The entries in any order. */
    method EntriesList() returns (list: seq<Entry>)
      requires Valid()
      ensures |list| == |entries|
      ensures forall e :: e in list <==> e.key in entries && entries[e.key] == e
    {
      list := [];
      var names := entries.Keys;
      while names != {}
        invariant names <= entries.Keys
        invariant |list| + |names| == |entries.Keys|
        invariant forall e: Entry :: e in list <==> e.key in entries && e.key !in names && entries[e.key] == e
        decreases |names|
      {
        var k :| k in names;
        names := names - {k};
        list := list + [entries[k]];
      }
    }

    /** Evict one entry if the map is as large as the strategy allows. */
    method MakeRoom(strategy: Strategy) returns (ghost victim: Option<string>)
      requires Valid()
      modifies this`entries, this`evictions
      ensures Valid() && LegalVictim(old(entries), strategy, victim)
      ensures entries == Without(old(entries), victim)
      ensures evictions == old(evictions) + if victim.Some? then 1 else 0
    {
      victim := None;
      if |entries| >= MaxSize(strategy) {
        var list := EntriesList();
        var toEvict := EvictionPolicy(strategy, list);
        if toEvict.Some? {
          victim := Some(toEvict.value.key);
          LeastIsLegal(strategy, entries, list, toEvict.value);
          entries := entries - {toEvict.value.key};
          evictions := evictions + 1;
        }
      }
    }

    /** Set, naming the evicted key; the caller's entry comes back with its stamps filled in. */
    method Set(provider: string, content: string, entry: Entry, now: int)
      returns (stamped: Entry, ghost victim: Option<string>)
      requires Valid()
      modifies this
      ensures Valid()
      ensures Contents() == Next(hash, old(Contents()), Op.Set(provider, content, entry, now, victim))
      ensures CanCache(StrategyOf(provider), content) ==>
                && LegalVictim(old(entries), StrategyOf(provider), victim)
                && stamped == Stored(hash, provider, content, entry, now)
                && evictions == old(evictions) + (if victim.Some? then 1 else 0)
      ensures !CanCache(StrategyOf(provider), content) ==> stamped == entry && evictions == old(evictions)
    {
      victim := None;
      stamped := entry;
      var strategy := StrategyOf(provider);
      if !CanCache(strategy, content) {
        return;
      }
      var cacheKey := CacheKey(hash, strategy, provider, content);
      StrategiesAgreeOnKeys(hash, provider, content);
      stamped := stamped.(key := cacheKey, provider := provider, createdAt := now,
                          expiresAt := now + TTL(strategy));
      assert stamped == Stored(hash, provider, content, entry, now);
      victim := MakeRoom(strategy);
      entries := entries[cacheKey := stamped];
    }

    method Invalidate(provider: string, content: string)
      requires Valid()
      modifies this
      ensures Valid() && evictions == old(evictions)
      ensures Contents() == Next(hash, old(Contents()), Op.Invalidate(provider, content))
    {
      var cacheKey := CacheKey(hash, StrategyOf(provider), provider, content);
      StrategiesAgreeOnKeys(hash, provider, content);
      if cacheKey in entries {
        entries := entries - {cacheKey};
      } else {
        assert entries - {cacheKey} == entries;
      }
    }

    method InvalidateByPattern(pattern: string) returns (count: nat)
      requires Valid()
      modifies this
      ensures Valid() && evictions == old(evictions)
      ensures Contents() == Next(hash, old(Contents()), Op.InvalidateByPattern(pattern))
      ensures count == |old(entries)| - |entries|
    {
      count := 0;
      var names := entries.Keys;
      while names != {}
        invariant names <= entries.Keys
        invariant hits == old(hits) && misses == old(misses) && evictions == old(evictions)
        invariant count == |old(entries)| - |entries|
        invariant entries == map k | k in old(entries) && (k in names || !MatchPattern(k, pattern)) :: old(entries)[k]
        decreases |names|
      {
        var key :| key in names;
        names := names - {key};
        if MatchPattern(key, pattern) {
          RemoveOne(entries, key);
          entries := entries - {key};
          count := count + 1;
        }
      }
    }

    method Clear()
      requires Valid()
      modifies this
      ensures Valid() && evictions == old(evictions)
      ensures Contents() == Next(hash, old(Contents()), Op.Clear)
    {
      entries := map[];
    }

    method Prune(now: int) returns (count: nat)
      requires Valid()
      modifies this
      ensures Valid() && evictions == old(evictions)
      ensures Contents() == Next(hash, old(Contents()), Op.Prune(now))
      ensures count == |old(entries)| - |entries|
    {
      count := 0;
      var names := entries.Keys;
      while names != {}
        invariant names <= entries.Keys
        invariant hits == old(hits) && misses == old(misses) && evictions == old(evictions)
        invariant count == |old(entries)| - |entries|
        invariant entries == map k |
                      k in old(entries) && (k in names || now <= old(entries)[k].expiresAt) :: old(entries)[k]
        decreases |names|
      {
        var key :| key in names;
        names := names - {key};
        if now > entries[key].expiresAt {
          RemoveOne(entries, key);
          entries := entries - {key};
          count := count + 1;
        }
      }
    }
  }

  // ---------------------------------------------------------------------------------------------
  // Runs
  // ---------------------------------------------------------------------------------------------

  function After(h: Hash, run: seq<Op>): Cache {
    if run == [] then Cache(map[], 0, 0) else Next(h, After(h, run[..|run| - 1]), run[|run| - 1])
  }

  /** A run in which every Set evicts as the code does. */
  ghost predicate IsRun(h: Hash, run: seq<Op>) {
    forall i :: 0 <= i < |run| && run[i].Set? && CanCache(StrategyOf(run[i].provider), run[i].content) ==>
      LegalVictim(After(h, run[..i]).entries, StrategyOf(run[i].provider), run[i].victim)
  }

  /** The operation writes an entry under `key`. */
  predicate Writes(h: Hash, op: Op, key: string) {
    op.Set? && CanCache(StrategyOf(op.provider), op.content) && Key(h, op.provider, op.content) == key
  }

  /** The operation asks for an entry to go. */
  predicate Removes(h: Hash, op: Op, key: string) {
    || op.Clear?
    || (op.Invalidate? && Key(h, op.provider, op.content) == key)
    || (op.InvalidateByPattern? && MatchPattern(key, op.pattern))
  }

  predicate Reads(h: Hash, op: Op, key: string) { op.Get? && Key(h, op.provider, op.content) == key }

  /** Position `j` is the last write of `key`, and the key was not invalidated since. */
  ghost predicate IsLastWrite(h: Hash, run: seq<Op>, j: nat, key: string) {
    && j < |run| && Writes(h, run[j], key)
    && forall k :: j < k < |run| ==> !Writes(h, run[k], key) && !Removes(h, run[k], key)
  }

  /** The entry written at `j` as the reads since then have left it. */
  function Aged(h: Hash, run: seq<Op>, j: nat, key: string): Entry
    requires j < |run| && run[j].Set?
    decreases |run|
  {
    var n := |run| - 1;
    if j == n then Stored(h, run[j].provider, run[j].content, run[j].entry, run[j].now)
    else
      var e := Aged(h, run[..n], j, key);
      if Reads(h, run[n], key) then OnAccess(StrategyOf(run[n].provider), e, run[n].now) else e
  }

  /** One step, seen from one key. */
  lemma StepAtKey(h: Hash, c: Cache, op: Op, key: string)
    requires key in Next(h, c, op).entries
    ensures Writes(h, op, key) ==>
              Next(h, c, op).entries[key] == Stored(h, op.provider, op.content, op.entry, op.now)
    ensures !Writes(h, op, key) ==>
              && key in c.entries && !Removes(h, op, key)
              && Next(h, c, op).entries[key]
                 == if Reads(h, op, key) then OnAccess(StrategyOf(op.provider), c.entries[key], op.now)
                    else c.entries[key]
  {
  }

  lemma LastWriteStays(h: Hash, run: seq<Op>, j: nat, key: string)
    requires run != [] && IsLastWrite(h, run[..|run| - 1], j, key)
    requires var op := run[|run| - 1]; !Writes(h, op, key) && !Removes(h, op, key)
    ensures IsLastWrite(h, run, j, key)
  {
    var init := run[..|run| - 1];
    assert init[j] == run[j];
    assert forall k :: 0 <= k < |init| ==> run[k] == init[k];
  }

  lemma AgedStep(h: Hash, run: seq<Op>, j: nat, key: string)
    requires j < |run| - 1 && run[j].Set?
    ensures var op := run[|run| - 1]; var e := Aged(h, run[..|run| - 1], j, key);
            Aged(h, run, j, key) == if Reads(h, op, key) then OnAccess(StrategyOf(op.provider), e, op.now) else e
  {
  }

  /** Every entry present is the one last written under its key, aged by the reads since. */
  lemma {:induction false} EntriesAreLastWrites(h: Hash, run: seq<Op>, key: string) returns (j: nat)
    requires key in After(h, run).entries
    ensures IsLastWrite(h, run, j, key) && After(h, run).entries[key] == Aged(h, run, j, key)
    decreases |run|
  {
    var n := |run| - 1;
    StepAtKey(h, After(h, run[..n]), run[n], key);
    if Writes(h, run[n], key) {
      j := n;
    } else {
      j := EntriesAreLastWrites(h, run[..n], key);
      LastWriteStays(h, run, j, key);
      AgedStep(h, run, j, key);
    }
  }

  /** The moment the entry was last touched: written or read. */
  function LastTouch(h: Hash, run: seq<Op>, j: nat, key: string): int
    requires j < |run| && run[j].Set?
    decreases |run|
  {
    var n := |run| - 1;
    if j == n then run[j].now
    else if Reads(h, run[n], key) then run[n].now
    else LastTouch(h, run[..n], j, key)
  }

  /** How often the entry written at `j` has been read since. */
  function ReadsSince(h: Hash, run: seq<Op>, j: nat, key: string): nat
    requires j < |run|
    decreases |run|
  {
    var n := |run| - 1;
    if j == n then 0 else ReadsSince(h, run[..n], j, key) + if Reads(h, run[n], key) then 1 else 0
  }

  /** Reads are counted, and the last one is remembered; until then the caller's figures stand. */
  lemma {:induction false} AgedCounts(h: Hash, run: seq<Op>, j: nat, key: string)
    requires j < |run| && Writes(h, run[j], key)
    ensures var e := Aged(h, run, j, key); var w := run[j].entry;
            && e.accessCount == w.accessCount + ReadsSince(h, run, j, key)
            && e.lastAccessedAt == if ReadsSince(h, run, j, key) == 0 then w.lastAccessedAt
                                   else LastTouch(h, run, j, key)
    decreases |run|
  {
    if j < |run| - 1 {
      AgedCounts(h, run[..|run| - 1], j, key);
    }
  }

  /** The last touch is the last read, or the write when there was none. */
  lemma {:induction false} LastTouchIsLast(h: Hash, run: seq<Op>, j: nat, k: nat, key: string)
    requires j <= k < |run| && run[j].Set? && (k == j || Reads(h, run[k], key))
    requires forall i :: k < i < |run| ==> !Reads(h, run[i], key)
    ensures LastTouch(h, run, j, key) == run[k].now
    decreases |run|
  {
    if k < |run| - 1 {
      LastTouchIsLast(h, run[..|run| - 1], j, k, key);
    }
  }

  /** Reads leave the cached material alone and decide the expiry: one hour after the write, or five
      minutes or a day after the last touch. */
  lemma {:induction false} AgedEntry(h: Hash, run: seq<Op>, j: nat, key: string)
    requires FixedLength(h) && j < |run| && Writes(h, run[j], key)
    ensures var e := Aged(h, run, j, key); var w := run[j].entry; var s := StrategyOf(run[j].provider);
            && e.key == key && e.provider == run[j].provider && e.createdAt == run[j].now
            && e.content == w.content && e.cost == w.cost && e.payload == w.payload
            && e.expiresAt == TTL(s) + if s.Default? then run[j].now else LastTouch(h, run, j, key)
    decreases |run|
  {
    var n := |run| - 1;
    if j < n {
      AgedEntry(h, run[..n], j, key);
      if Reads(h, run[n], key) {
        KeysSeparate(h, run[n].provider, run[n].content, run[j].provider, run[j].content);
      }
    }
  }

  /** A hit returns what was last Set for the same provider and an equally hashed content and not
      since invalidated, within its lifetime. */
  lemma HitIsLastSet(h: Hash, run: seq<Op>, provider: string, content: string, now: int) returns (j: nat)
    requires FixedLength(h) && Lookup(h, After(h, run), provider, content, now).Some?
    ensures IsLastWrite(h, run, j, Key(h, provider, content))
    ensures run[j].provider == provider && h(run[j].content) == h(content)
    ensures var e := Lookup(h, After(h, run), provider, content, now).value;
            e.content == run[j].entry.content && e.cost == run[j].entry.cost && e.payload == run[j].entry.payload
    ensures var s := StrategyOf(provider);
            now <= TTL(s) + if s.Default? then run[j].now else LastTouch(h, run, j, Key(h, provider, content))
  {
    var key := Key(h, provider, content);
    j := EntriesAreLastWrites(h, run, key);
    AgedEntry(h, run, j, key);
    KeysSeparate(h, run[j].provider, run[j].content, provider, content);
  }

  // What it takes to hit.

  /** When the entry written at `j` runs out. */
  function Expiry(h: Hash, run: seq<Op>, j: nat, key: string): int
    requires j < |run| && run[j].Set?
  {
    var s := StrategyOf(run[j].provider);
    TTL(s) + if s.Default? then run[j].now else LastTouch(h, run, j, key)
  }

  predicate Evicts(op: Op, key: string) {
    op.Set? && CanCache(StrategyOf(op.provider), op.content) && op.victim == Some(key)
  }

  /** Step `k` makes the entry go: by request, by eviction, or because it looks at it too late. */
  predicate Loses(h: Hash, run: seq<Op>, j: nat, k: nat, key: string)
    requires j < k < |run| && run[j].Set?
  {
    || Removes(h, run[k], key)
    || Evicts(run[k], key)
    || ((Reads(h, run[k], key) || run[k].Prune?) && run[k].now > Expiry(h, run[..k], j, key))
  }

  predicate Ends(h: Hash, run: seq<Op>, j: nat, k: nat, key: string)
    requires j < k < |run| && run[j].Set?
  {
    Writes(h, run[k], key) || Loses(h, run, j, k, key)
  }

  /** None of the steps between `j` and `n` writes `key` again or loses it. */
  ghost predicate LastsUntil(h: Hash, run: seq<Op>, j: nat, n: nat, key: string)
    requires j < n <= |run| && run[j].Set?
  {
    forall k :: j < k < n ==> !Ends(h, run, j, k, key)
  }

  /** Position `j` writes `key`, and no step since writes it again or loses it. */
  ghost predicate IsKept(h: Hash, run: seq<Op>, j: nat, key: string) {
    j < |run| && Writes(h, run[j], key) && LastsUntil(h, run, j, |run|, key)
  }

  /** One step that does not write the key: the entry is there afterwards exactly when it was before and
      the step does not make it go. */
  lemma StepKeepsKey(h: Hash, c: Cache, op: Op, key: string)
    requires !Writes(h, op, key)
    ensures key in Next(h, c, op).entries <==>
            && key in c.entries && !Removes(h, op, key) && !Evicts(op, key)
            && (Reads(h, op, key) || op.Prune? ==> op.now <= c.entries[key].expiresAt)
  {
  }

  lemma EndsAlike(h: Hash, run: seq<Op>, n: nat, j: nat, k: nat, key: string)
    requires j < k < n <= |run| && run[j].Set?
    ensures Ends(h, run[..n], j, k, key) <==> Ends(h, run, j, k, key)
  {
    assert run[..n][..k] == run[..k];
  }

  lemma LastsAlike(h: Hash, run: seq<Op>, n: nat, j: nat, key: string)
    requires j < n <= |run| && run[j].Set?
    ensures LastsUntil(h, run[..n], j, n, key) <==> LastsUntil(h, run, j, n, key)
  {
    forall k | j < k < n
      ensures Ends(h, run[..n], j, k, key) <==> Ends(h, run, j, k, key)
    {
      EndsAlike(h, run, n, j, k, key);
    }
  }

  lemma LastsStep(h: Hash, run: seq<Op>, j: nat, n: nat, key: string)
    requires j < n < |run| && run[j].Set?
    ensures LastsUntil(h, run, j, n + 1, key) <==> LastsUntil(h, run, j, n, key) && !Ends(h, run, j, n, key)
  {
  }

  lemma KeptStep(h: Hash, run: seq<Op>, j: nat, key: string)
    requires j < |run| - 1 && run[j].Set?
    ensures var n := |run| - 1;
            IsKept(h, run, j, key) <==> IsKept(h, run[..n], j, key) && !Ends(h, run, j, n, key)
  {
    LastsAlike(h, run, |run| - 1, j, key);
    LastsStep(h, run, j, |run| - 1, key);
  }

  lemma {:induction false} KeptIsPresent(h: Hash, run: seq<Op>, j: nat, key: string)
    requires FixedLength(h) && IsKept(h, run, j, key)
    ensures key in After(h, run).entries && After(h, run).entries[key] == Aged(h, run, j, key)
    ensures After(h, run).entries[key].expiresAt == Expiry(h, run, j, key)
    decreases |run|
  {
    var n := |run| - 1;
    AgedEntry(h, run, j, key);
    if j < n {
      KeptStep(h, run, j, key);
      KeptIsPresent(h, run[..n], j, key);
      StepKeepsKey(h, After(h, run[..n]), run[n], key);
      StepAtKey(h, After(h, run[..n]), run[n], key);
      AgedStep(h, run, j, key);
    }
  }

  lemma {:induction false} PresentIsKept(h: Hash, run: seq<Op>, key: string) returns (j: nat)
    requires FixedLength(h) && key in After(h, run).entries
    ensures IsKept(h, run, j, key)
    decreases |run|
  {
    var n := |run| - 1;
    if Writes(h, run[n], key) {
      j := n;
    } else {
      StepKeepsKey(h, After(h, run[..n]), run[n], key);
      j := PresentIsKept(h, run[..n], key);
      KeptIsPresent(h, run[..n], j, key);
      KeptStep(h, run, j, key);
    }
  }

  /** A Get hits exactly when a Set of the same provider and an equally hashed content was neither
      overwritten nor lost since and has not run out. */
  lemma HitIffKept(h: Hash, run: seq<Op>, provider: string, content: string, now: int)
    requires FixedLength(h)
    ensures var key := Key(h, provider, content);
            Lookup(h, After(h, run), provider, content, now).Some? <==>
            exists j :: IsKept(h, run, j, key) && now <= Expiry(h, run, j, key)
  {
    var key := Key(h, provider, content);
    if Lookup(h, After(h, run), provider, content, now).Some? {
      var j := PresentIsKept(h, run, key);
      KeptIsPresent(h, run, j, key);
    } else if j :| IsKept(h, run, j, key) && now <= Expiry(h, run, j, key) {
      KeptIsPresent(h, run, j, key);
    }
  }

  /** What is Set can be got back, by length and age alone: cached when it is long and short enough, and
      there for an hour, five minutes for claude, or a day for openai. */
  lemma SetThenGet(h: Hash, run: seq<Op>, provider: string, content: string, e: Entry, now: int,
                   victim: Option<string>, later: int)
    requires FixedLength(h) && Key(h, provider, content) !in After(h, run).entries
    ensures var n := |Encode(content)|;
            var found := Lookup(h, After(h, run + [Set(provider, content, e, now, victim)]), provider, content, later);
            && (found.Some? <==>
                  if provider == "claude" then 500 < n < 5_000_000 && later <= now + 300 * 1_000_000_000
                  else if provider == "openai" then 100 < n < 3_000_000 && later <= now + 86400 * 1_000_000_000
                  else 100 < n < 1_000_000 && later <= now + 3600 * 1_000_000_000)
            && (found.Some? ==> found.value.content == e.content && found.value.payload == e.payload
                                && found.value.cost == e.cost && found.value.provider == provider
                                && found.value.createdAt == now && found.value.accessCount == e.accessCount + 1
                                && found.value.lastAccessedAt == later)
  {
    var longer := run + [Set(provider, content, e, now, victim)];
    assert longer[..|run|] == run;
    CachedLengths(provider, content);
  }

  /** Without hash collisions among the contents in play, a hit never comes from another pair. */
  lemma HitIsForThePair(h: Hash, run: seq<Op>, provider: string, content: string, now: int) returns (j: nat)
    requires FixedLength(h) && Lookup(h, After(h, run), provider, content, now).Some?
    requires forall i :: 0 <= i < |run| && run[i].Set? && h(run[i].content) == h(content) ==> run[i].content == content
    ensures IsLastWrite(h, run, j, Key(h, provider, content))
    ensures run[j].provider == provider && run[j].content == content
    ensures Lookup(h, After(h, run), provider, content, now).value.payload == run[j].entry.payload
  {
    j := HitIsLastSet(h, run, provider, content, now);
  }

  // ---------------------------------------------------------------------------------------------
  // Capacity and statistics
  // ---------------------------------------------------------------------------------------------

  lemma FilteringShrinks(m: Entries, m': Entries)
    requires m'.Keys <= m.Keys
    ensures |m'| <= |m|
  {
    SubsetSize(m'.Keys, m.Keys);
    assert |m'| == |m'.Keys| && |m| == |m.Keys|;
  }

  lemma {:induction false} SubsetSize(a: set<string>, b: set<string>)
    requires a <= b
    ensures |a| <= |b|
  {
    assert b == a + (b - a);
  }

  lemma AddingGrowsByOne(m: Entries, k: string, e: Entry)
    ensures |m[k := e]| <= |m| + 1
  {
    assert m[k := e].Keys == m.Keys + {k};
    if k in m {
      assert m.Keys + {k} == m.Keys;
    }
  }

  lemma StepSize(h: Hash, c: Cache, op: Op)
    requires op.Set? && CanCache(StrategyOf(op.provider), op.content) ==>
               LegalVictim(c.entries, StrategyOf(op.provider), op.victim)
    ensures |Next(h, c, op).entries| <=
            if op.Set? && |c.entries| < MaxSize(StrategyOf(op.provider)) then |c.entries| + 1 else |c.entries|
  {
    var m := c.entries;
    match op {
      case Set(p, x, e, now, victim) =>
        if CanCache(StrategyOf(p), x) {
          AddingGrowsByOne(Without(m, victim), Key(h, p, x), Stored(h, p, x, e, now));
          if victim.Some? {
            RemoveOne(m, victim.value);
          }
        }
      case Get(p, x, now) =>
        FilteringShrinks(m, Next(h, c, op).entries);
      case _ =>
        FilteringShrinks(m, Next(h, c, op).entries);
    }
  }

  lemma LastIsLegal(h: Hash, run: seq<Op>)
    requires IsRun(h, run) && run != []
    ensures var n := |run| - 1; var op := run[n];
            IsRun(h, run[..n])
            && (op.Set? && CanCache(StrategyOf(op.provider), op.content) ==>
                  LegalVictim(After(h, run[..n]).entries, StrategyOf(op.provider), op.victim))
  {
    var init := run[..|run| - 1];
    assert forall i :: 0 <= i < |init| ==> init[i] == run[i] && init[..i] == run[..i];
  }

  /** Although limits differ, no run takes the shared map past the largest limit among its setters. */
  lemma {:induction false} CapacityIsBounded(h: Hash, run: seq<Op>, limit: nat)
    requires IsRun(h, run)
    requires forall i :: 0 <= i < |run| && run[i].Set? ==> MaxSize(StrategyOf(run[i].provider)) <= limit
    ensures |After(h, run).entries| <= limit
    decreases |run|
  {
    if run != [] {
      var n := |run| - 1;
      LastIsLegal(h, run);
      CapacityIsBounded(h, run[..n], limit);
      StepSize(h, After(h, run[..n]), run[n]);
    }
  }

  lemma NeverMoreThan5000(h: Hash, run: seq<Op>)
    requires IsRun(h, run)
    ensures |After(h, run).entries| <= 5000
    ensures (forall i :: 0 <= i < |run| && run[i].Set? ==> run[i].provider != "openai") ==>
              |After(h, run).entries| <= 1000
  {
    CapacityIsBounded(h, run, 5000);
    if forall i :: 0 <= i < |run| && run[i].Set? ==> run[i].provider != "openai" {
      CapacityIsBounded(h, run, 1000);
    }
  }

  function Gets(run: seq<Op>): nat {
    if run == [] then 0 else Gets(run[..|run| - 1]) + if run[|run| - 1].Get? then 1 else 0
  }

  /** How many Gets find their entry. */
  function Finds(h: Hash, run: seq<Op>): nat {
    if run == [] then 0
    else
      var n := |run| - 1;
      Finds(h, run[..n])
      + if run[n].Get? && Lookup(h, After(h, run[..n]), run[n].provider, run[n].content, run[n].now).Some? then 1 else 0
  }

  /** The hits counted are the Gets that found their entry. */
  lemma {:induction false} HitsAreFinds(h: Hash, run: seq<Op>)
    ensures After(h, run).hits == Finds(h, run)
    decreases |run|
  {
    if run != [] {
      HitsAreFinds(h, run[..|run| - 1]);
    }
  }

  /** Every Get is counted once, as a hit or as a miss. */
  lemma {:induction false} HitsAndMissesAreGets(h: Hash, run: seq<Op>)
    ensures After(h, run).hits + After(h, run).misses == Gets(run)
    decreases |run|
  {
    if run != [] {
      HitsAndMissesAreGets(h, run[..|run| - 1]);
    }
  }
}
