# Tiered memory manager

A Dafny model of the memory manager of a process/CPU simulator
(`src/memory/MemoryManager.cpp`). The manager holds a logical timestamp, a
tier boundary (`mainMemoryLimit`), an L1 cache and two backing stores: a
primary store (RAM) and a secondary store (disk). It charges every access to
the counters of the process that issued it.

- `read` ticks the clock and counts one access and one read. It then asks the
  cache. On a hit it charges one cache access at the cache weight and returns
  the cached value. On a miss it routes the address: below the boundary it
  reads the primary store at the same address; otherwise it reads the
  secondary store at `address - limit`. It charges that tier and its weight,
  fills the cache with the fetched value stamped with the current time, and
  returns the value.
- `write` ticks the clock and counts one access and one write. It is
  write-back: it only updates the cache (the line becomes dirty) and charges
  one cache access. It never touches either tier.

Files:

- `wrappers.dfy` (`Wrappers`): `Option`, the result of a cache lookup.
- `process.dfy` (`Process`): the process's cost weights (`memWeights`), its
  seven counters, and the two counter invariants. `Balanced` says
  total = reads + writes = cache + primary + secondary accesses. `Accounted`
  says cycles = the weighted sum of the per-level access counts.
- `cache.dfy` (`L1Cache`): the cache as an abstract line table. Each line has
  a value, a dirty flag and a fill timestamp. `Get`, `Put` and `Update` model
  `get`, `put` and `update`.
- `memory_manager.dfy` (`MemoryManager`): the state record, the constructor
  (`Init`), `Read` and `Write` as pure transition functions, and `View`. `View`
  is the whole hierarchy seen as one flat address-to-value map: a cached copy
  overrides the home tier.
- `trace.dfy` (`Trace`): runs sequences of reads and writes through the
  manager (`Run`) and through a cacheless flat memory (`FlatRun`). It proves
  that the two runs agree, and that the counter invariants hold cumulatively
  from construction.

Reads need only what the source needs. The address must be cached, or the
tier-local address that routing produces must lie inside its tier
(`Readable`). Writes need nothing: the source does no range check, and a write
lands only in the cache.

## Model

| member | source | states |
|---|---|---|
| MemoryManager.Init | src/memory/MemoryManager.cpp:3-9 | the clock starts at 0, the tier boundary is exactly the primary size, the cache is empty, and the manager invariant holds |
| MemoryManager.Read | src/memory/MemoryManager.cpp:11-43 | the clock advances by one; total and reads go up by one and writes stay the same; the tiers and boundary are never modified; a hit returns the cached value, charges one cache access at the cache weight and leaves the cache as it was; a miss below the boundary returns `primary[address]` and charges the primary tier only; a miss at or above it returns `secondary[address - limit]` and charges the secondary tier only; after a miss the returned value is resident at `address` as a clean line with the current timestamp, and every other line keeps its value, its dirty flag and its stamp; the manager invariant and both counter invariants are preserved |
| MemoryManager.Write | src/memory/MemoryManager.cpp:45-54 | the clock advances by one; the counters change by exactly one access, one write, one cache access and the cache weight; `data` is now cached at `address` as a dirty line; every other line keeps its value and dirty flag, and no stamp changes; neither tier nor the boundary is modified; the invariants are preserved |
| MemoryManager.AddressableIffInRange | src/memory/MemoryManager.cpp:26-36 | with the boundary at the primary size, the routed tier-local address is inside its tier exactly when the global address is below primary size plus secondary size |
| MemoryManager.InitialView | src/memory/MemoryManager.cpp:3-9 | a new manager shows the primary store at addresses below its size and the secondary store, rebased, above it, over exactly the global address space |
| MemoryManager.ReadRefinesView | src/memory/MemoryManager.cpp:16-42 | any read `Read` accepts, including a hit on a line a write allocated outside the address space, returns the flat-memory value at its address and leaves the flat memory unchanged: filling the cache on a miss is invisible |
| MemoryManager.WriteRefinesView | src/memory/MemoryManager.cpp:50-54 | a write changes the flat memory at its address to `data` and nowhere else |
| MemoryManager.ReadTwiceHits | src/memory/MemoryManager.cpp:17-42 | after any read, reading the same address again is a hit: it returns the same value, changes neither the cache nor the tiers, and charges a cache access, not a tier access |
| MemoryManager.ReadAfterWriteHits | src/memory/MemoryManager.cpp:17-52 | a read right after a write of the same address hits and returns the written data, with no primary or secondary access |
| Process.Charge | src/memory/MemoryManager.cpp:19-34 | charging level `t` adds one to that level's access counter and leaves the other two levels' counters alone; it adds that level's weight to the cycles, leaves total, reads and writes alone, and keeps cycles equal to the weighted sum |
| Process.CountThenChargeKeepsInvariants | src/memory/MemoryManager.cpp:13-54 | counting a read or write and then charging the level that served it preserves both total = reads + writes = cache + primary + secondary and the cycle sum |
| L1Cache.Empty | src/memory/MemoryManager.cpp:6 | the new cache misses on every address and is well formed |
| L1Cache.Get | src/memory/MemoryManager.cpp:17-18 | a lookup hits exactly when the address is resident, and a hit yields the resident line's value; being a pure query, it changes nothing |
| L1Cache.Put | src/memory/MemoryManager.cpp:40 | after the fill the line holds the value, is clean and carries the given timestamp; every other line keeps its value, its dirty flag and its stamp, and no line gains or loses a stamp |
| L1Cache.Update | src/memory/MemoryManager.cpp:52 | after the update the line holds the value and is dirty, whether or not it was resident; every other line and every stamp are unchanged |
| Trace.Run | src/memory/MemoryManager.cpp:11-54 | over any sequence of accesses: the clock advances by the sequence length; total, reads and writes grow by the number of accesses, reads and writes in it; the tiers are never modified; the manager and counter invariants hold at the end |
| Trace.RunRefinesFlat | src/memory/MemoryManager.cpp:11-54 | for a line table that never evicts, any sequence of accesses returns the same read values, and leaves the same flat memory, as the same sequence on one memory without a cache |
| Trace.CountersFromStart | src/memory/MemoryManager.cpp:3-54 | from construction and zeroed counters: total = number of accesses = reads + writes = cache + primary + secondary accesses, cycles = the weighted sum, and the timestamp equals the number of accesses |

## Left out

- Atomic `fetch_add` and thread safety: the counters are plain naturals in a sequential state.
- `uint32_t` wrap-around of the timestamp, addresses and data, and the `size_t` to `uint32_t` narrowing of a cached value: all are unbounded naturals here.
- The `CACHE_MISS` sentinel: a hit is modelled as the address being resident. Its value is not part of this model. A stored value equal to the sentinel would be misread as a miss, and the read would then fetch the tier value and overwrite the cached line with it.
- The cache's own policy (capacity, eviction, recency refresh): `Cache`, `MAIN_MEMORY` and `SECONDARY_MEMORY` are not part of this model. The cache is an unbounded line table. `Put` marks the filled line clean and stamps it. `Update` marks the line dirty and leaves stamps alone, because the source passes it no timestamp. `Get` has no side effect.
- Eviction and write-back of dirty lines to the tiers: the source says this still has to be implemented (src/memory/MemoryManager.cpp:56-60), so no member claims it happens.
- Bounds checks inside `ReadMem`: `Read` instead requires the routed tier-local address to lie inside its tier when the address is not cached.
- The initial contents of the two stores: the constructor receives only sizes, and the stores' own initialisation is not part of this model, so `Init` takes the contents as parameters whose lengths are the sizes.
- `make_unique` allocation and object ownership.
- Trace.RunRefinesFlat: the theorem holds only because the modelled cache never evicts. Eviction lives in the cache component, and dirty-line write-back is not implemented (src/memory/MemoryManager.cpp:56-60). So when a real cache evicts a dirty line, the written value is lost, a later read returns the stale tier value, and the program no longer behaves like a flat memory.
- Trace.Run: its precondition asks every read of the trace to be inside the global address space. That is stronger than the per-read `Readable` condition, which would also admit a read of a line that an earlier write allocated outside the space.
