/**
 The tiered memory manager: a logical clock, the tier boundary
 (`mainMemoryLimit`), the L1 cache and the two backing stores. Global
 addresses below the boundary live in the primary store; the others live in
 the secondary store at `address - limit`. Reads go through the cache and fill
 it on a miss; writes land only in the cache (write-back).
 */
module MemoryManager {
  import opened Wrappers
  import opened Process
  import opened L1Cache

  datatype State = State(
    timestamp: nat,
    limit: nat,
    cache: Cache,
    primary: seq<nat>,
    secondary: seq<nat>)

  datatype ReadOutcome = ReadOutcome(value: nat, state: State, counters: Counters)

  datatype WriteOutcome = WriteOutcome(state: State, counters: Counters)

  /** What the constructor establishes and every access keeps: the boundary is
      the primary size, the cache is well formed, and no line carries a stamp
      from the future. */
  predicate Valid(s: State) {
    && s.limit == |s.primary|
    && WellFormed(s.cache)
    && forall a :: a in s.cache.lastUsed ==> s.cache.lastUsed[a] <= s.timestamp
  }

  /** The global address space: primary, then secondary, without gaps. */
  function Capacity(s: State): nat {
    |s.primary| + |s.secondary|
  }

  /** The level a cache miss on `a` is routed to. */
  function TierOf(s: State, a: nat): Tier {
    if a < s.limit then PrimaryTier else SecondaryTier
  }

  /** The tier-local address that routing produces lies inside its tier. */
  predicate TierAddressable(s: State, a: nat) {
    if a < s.limit then a < |s.primary| else a - s.limit < |s.secondary|
  }

  /** A read can complete: it hits, or the store it is routed to holds it. */
  predicate Readable(s: State, a: nat) {
    a in s.cache.lines || TierAddressable(s, a)
  }

  /** `ReadMem` on the store that `a` is routed to. */
  function TierRead(s: State, a: nat): nat
    requires TierAddressable(s, a)
  {
    if a < s.limit then s.primary[a] else s.secondary[a - s.limit]
  }

  /** Once the boundary is the primary size, routing stays inside a tier
      exactly for the addresses of the global address space. */
  lemma AddressableIffInRange(s: State, a: nat)
    requires Valid(s)
    ensures TierAddressable(s, a) <==> a < Capacity(s)
  {
  }

  /** The constructor: clock at zero, boundary at the primary size, empty
      cache. The tier contents are supplied by the caller. */
  function Init(primary: seq<nat>, secondary: seq<nat>): (s: State)
    ensures s.timestamp == 0 && s.limit == |primary|
    ensures s.primary == primary && s.secondary == secondary
    ensures forall a :: Get(s.cache, a) == None
    ensures Valid(s)
  {
    State(0, |primary|, Empty(), primary, secondary)
  }

  /** `MemoryManager::read`. */
  function Read(s: State, w: Weights, c: Counters, address: nat): (r: ReadOutcome)
    requires Readable(s, address)
    // one tick of the clock, one read, no write
    ensures r.state.timestamp == s.timestamp + 1
    ensures r.counters.total == c.total + 1 && r.counters.readCount == c.readCount + 1
    ensures r.counters.writeCount == c.writeCount
    // a read never modifies the tiers or the boundary
    ensures r.state.limit == s.limit && r.state.primary == s.primary && r.state.secondary == s.secondary
    // hit: the cached value at cache cost, cache untouched
    ensures address in s.cache.lines ==>
              && r.value == s.cache.lines[address]
              && r.state.cache == s.cache
              && r.counters == c.(total := c.total + 1, readCount := c.readCount + 1,
                                  cacheAcc := c.cacheAcc + 1, cycles := c.cycles + w.cache)
    // miss below the boundary: the primary store at the same address
    ensures address !in s.cache.lines && address < s.limit ==>
              && r.value == s.primary[address]
              && r.counters == c.(total := c.total + 1, readCount := c.readCount + 1,
                                  primaryAcc := c.primaryAcc + 1, cycles := c.cycles + w.primary)
    // miss at or above the boundary: the secondary store, rebased
    ensures address !in s.cache.lines && address >= s.limit ==>
              && r.value == s.secondary[address - s.limit]
              && r.counters == c.(total := c.total + 1, readCount := c.readCount + 1,
                                  secondaryAcc := c.secondaryAcc + 1, cycles := c.cycles + w.secondary)
    // miss: the fetched value is now resident as a clean line stamped with the
    // current time, and no other line changed its value, dirty flag or stamp
    ensures address !in s.cache.lines ==>
              && Get(r.state.cache, address) == Some(r.value)
              && address !in r.state.cache.dirty
              && address in r.state.cache.lastUsed
              && r.state.cache.lastUsed[address] == r.state.timestamp
              && (forall b :: b != address ==> Get(r.state.cache, b) == Get(s.cache, b))
              && (forall b :: b != address ==> (b in r.state.cache.dirty <==> b in s.cache.dirty))
              && (forall b :: b != address ==> (b in r.state.cache.lastUsed <==> b in s.cache.lastUsed))
              && (forall b :: b != address && b in s.cache.lastUsed ==>
                    r.state.cache.lastUsed[b] == s.cache.lastUsed[b])
    ensures Valid(s) ==> Valid(r.state)
    ensures Balanced(c) ==> Balanced(r.counters)
    ensures Accounted(c, w) ==> Accounted(r.counters, w)
  {
    var ts := s.timestamp + 1;
    var counted := CountRead(c);
    CountThenChargeKeepsInvariants(c, w, CacheTier);
    CountThenChargeKeepsInvariants(c, w, TierOf(s, address));
    match Get(s.cache, address)
    case Some(v) =>
      ReadOutcome(v, s.(timestamp := ts), Charge(counted, w, CacheTier))
    case None =>
      var v := TierRead(s, address);
      ReadOutcome(v, s.(timestamp := ts, cache := Put(s.cache, address, v, ts)),
                  Charge(counted, w, TierOf(s, address)))
  }

  /** `MemoryManager::write`: write-back, so only the cache changes. */
  function Write(s: State, w: Weights, c: Counters, address: nat, data: nat): (r: WriteOutcome)
    ensures r.state.timestamp == s.timestamp + 1
    ensures r.state.limit == s.limit && r.state.primary == s.primary && r.state.secondary == s.secondary
    ensures Get(r.state.cache, address) == Some(data) && address in r.state.cache.dirty
    ensures forall b :: b != address ==> Get(r.state.cache, b) == Get(s.cache, b)
    ensures forall b :: b != address ==> (b in r.state.cache.dirty <==> b in s.cache.dirty)
    ensures r.state.cache.lastUsed == s.cache.lastUsed
    ensures r.counters == c.(total := c.total + 1, writeCount := c.writeCount + 1,
                             cacheAcc := c.cacheAcc + 1, cycles := c.cycles + w.cache)
    ensures Valid(s) ==> Valid(r.state)
    ensures Balanced(c) ==> Balanced(r.counters)
    ensures Accounted(c, w) ==> Accounted(r.counters, w)
  {
    CountThenChargeKeepsInvariants(c, w, CacheTier);
    WriteOutcome(s.(timestamp := s.timestamp + 1, cache := Update(s.cache, address, data)),
                 Charge(CountWrite(c), w, CacheTier))
  }

  /** The value the memory holds at `a` as a program sees it: the cached copy
      when there is one, the home tier's otherwise. */
  function Load(s: State, a: nat): nat
    requires Readable(s, a)
  {
    if a in s.cache.lines then s.cache.lines[a] else TierRead(s, a)
  }

  /** The addresses a program can observe: those of the address space that
      route into a tier, plus any line a write has allocated outside it. */
  function Domain(s: State): set<nat> {
    s.cache.lines.Keys + (set a: nat | a < Capacity(s) && TierAddressable(s, a))
  }

  /** The whole hierarchy seen as one flat memory. */
  function View(s: State): (m: map<nat, nat>)
    requires Valid(s)
  {
    map a | a in Domain(s) :: Load(s, a)
  }

  /** A freshly constructed manager shows exactly the tier contents: the
      primary store first, the secondary store after it. */
  lemma InitialView(primary: seq<nat>, secondary: seq<nat>)
    ensures forall a: nat :: a in View(Init(primary, secondary)) <==> a < |primary| + |secondary|
    ensures forall a :: 0 <= a < |primary| ==> View(Init(primary, secondary))[a] == primary[a]
    ensures forall a :: |primary| <= a < |primary| + |secondary| ==>
              a in View(Init(primary, secondary)) &&
              View(Init(primary, secondary))[a] == secondary[a - |primary|]
  {
    var s := Init(primary, secondary);
    forall a | 0 <= a < |primary| + |secondary|
      ensures a in View(s)
    {
      AddressableIffInRange(s, a);
      assert a in (set b: nat | b < Capacity(s) && TierAddressable(s, b));
    }
  }

  /** A read returns what the flat memory holds and leaves it as it was;
      this covers a hit on a line a write allocated outside the address space. */
  lemma ReadRefinesView(s: State, w: Weights, c: Counters, a: nat)
    requires Valid(s) && Readable(s, a)
    ensures a in View(s) && Read(s, w, c, a).value == View(s)[a]
    ensures View(Read(s, w, c, a).state) == View(s)
  {
    var s' := Read(s, w, c, a).state;
    var space := set b: nat | b < Capacity(s) && TierAddressable(s, b);
    assert (set b: nat | b < Capacity(s') && TierAddressable(s', b)) == space;
    if a !in s.cache.lines {
      AddressableIffInRange(s, a);
      assert a in space;
      assert s'.cache.lines.Keys == s.cache.lines.Keys + {a};
    }
    assert Domain(s') == Domain(s);
    forall b | b in Domain(s)
      ensures View(s')[b] == View(s)[b]
    {
      AddressableIffInRange(s, b);
      AddressableIffInRange(s', b);
    }
  }

  /** A write changes the flat memory at exactly one address. */
  lemma WriteRefinesView(s: State, w: Weights, c: Counters, a: nat, d: nat)
    requires Valid(s)
    ensures View(Write(s, w, c, a, d).state) == View(s)[a := d]
  {
    var s' := Write(s, w, c, a, d).state;
    assert Domain(s') == Domain(s) + {a};
    forall b | b in Domain(s')
      ensures View(s')[b] == View(s)[a := d][b]
    {
      AddressableIffInRange(s, b);
      AddressableIffInRange(s', b);
    }
  }

  /** Reading an address twice in a row: the second read hits, returns the
      same value, and leaves the cache and both tiers exactly as they were. */
  lemma ReadTwiceHits(s: State, w: Weights, c: Counters, a: nat)
    requires Readable(s, a)
    ensures var r1 := Read(s, w, c, a);
            && a in r1.state.cache.lines
            && var r2 := Read(r1.state, w, r1.counters, a);
            && r2.value == r1.value
            && r2.state.cache == r1.state.cache
            && r2.state.primary == s.primary && r2.state.secondary == s.secondary
            && r2.counters.cacheAcc == r1.counters.cacheAcc + 1
            && r2.counters.primaryAcc == r1.counters.primaryAcc
            && r2.counters.secondaryAcc == r1.counters.secondaryAcc
  {
  }

  /** A read right after a write of the same address hits and returns the
      written data, without consulting either tier. */
  lemma ReadAfterWriteHits(s: State, w: Weights, c: Counters, a: nat, d: nat)
    ensures var r1 := Write(s, w, c, a, d);
            && a in r1.state.cache.lines
            && var r2 := Read(r1.state, w, r1.counters, a);
            && r2.value == d
            && r2.state.primary == s.primary && r2.state.secondary == s.secondary
            && r2.counters.primaryAcc == c.primaryAcc
            && r2.counters.secondaryAcc == c.secondaryAcc
  {
  }
}
