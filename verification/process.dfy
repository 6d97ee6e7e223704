/**
 The accounting side of a process (its PCB) as the memory manager sees it:
 a read-only table of per-tier access costs and seven additive counters.
 */
module Process {

  /** Cycle cost of one access at each level (`memWeights`). */
  datatype Weights = Weights(cache: nat, primary: nat, secondary: nat)

  /** The process counters: `mem_accesses_total`, `mem_reads`, `mem_writes`,
      `cache_mem_accesses`, `primary_mem_accesses`, `secondary_mem_accesses`
      and `memory_cycles`. */
  datatype Counters = Counters(
    total: nat,
    readCount: nat,
    writeCount: nat,
    cacheAcc: nat,
    primaryAcc: nat,
    secondaryAcc: nat,
    cycles: nat)

  /** The level of the hierarchy that served an access. */
  datatype Tier = CacheTier | PrimaryTier | SecondaryTier

  function Zero(): Counters {
    Counters(0, 0, 0, 0, 0, 0, 0)
  }

  function Weight(w: Weights, t: Tier): nat {
    match t
    case CacheTier => w.cache
    case PrimaryTier => w.primary
    case SecondaryTier => w.secondary
  }

  /** Every access is either a read or a write, and every access was served
      by exactly one level. */
  predicate Balanced(c: Counters) {
    c.total == c.readCount + c.writeCount == c.cacheAcc + c.primaryAcc + c.secondaryAcc
  }

  /** The cycle counter is the weighted sum of the per-level access counts. */
  predicate Accounted(c: Counters, w: Weights) {
    c.cycles == c.cacheAcc * w.cache + c.primaryAcc * w.primary + c.secondaryAcc * w.secondary
  }

  /** The access counter of level `t`. */
  function Level(c: Counters, t: Tier): nat {
    match t
    case CacheTier => c.cacheAcc
    case PrimaryTier => c.primaryAcc
    case SecondaryTier => c.secondaryAcc
  }

  /** The two increments every read performs before it looks at the cache. */
  function CountRead(c: Counters): Counters {
    c.(total := c.total + 1, readCount := c.readCount + 1)
  }

  /** The two increments every write performs before it touches the cache. */
  function CountWrite(c: Counters): Counters {
    c.(total := c.total + 1, writeCount := c.writeCount + 1)
  }

  /** Charges one access at level `t`: one more access of that level and its
      weight added to the cycles. */
  function Charge(c: Counters, w: Weights, t: Tier): (r: Counters)
    ensures r.total == c.total && r.readCount == c.readCount && r.writeCount == c.writeCount
    ensures Level(r, t) == Level(c, t) + 1
    ensures forall u :: u != t ==> Level(r, u) == Level(c, u)
    ensures r.cacheAcc + r.primaryAcc + r.secondaryAcc == c.cacheAcc + c.primaryAcc + c.secondaryAcc + 1
    ensures r.cycles == c.cycles + Weight(w, t)
    ensures Accounted(c, w) ==> Accounted(r, w)
  {
    match t
    case CacheTier => c.(cacheAcc := c.cacheAcc + 1, cycles := c.cycles + w.cache)
    case PrimaryTier => c.(primaryAcc := c.primaryAcc + 1, cycles := c.cycles + w.primary)
    case SecondaryTier => c.(secondaryAcc := c.secondaryAcc + 1, cycles := c.cycles + w.secondary)
  }

  /** Counting a read or a write and then charging the level that served it
      keeps both counter invariants. */
  lemma CountThenChargeKeepsInvariants(c: Counters, w: Weights, t: Tier)
    ensures Balanced(c) ==> Balanced(Charge(CountRead(c), w, t)) && Balanced(Charge(CountWrite(c), w, t))
    ensures Accounted(c, w) ==> Accounted(Charge(CountRead(c), w, t), w) && Accounted(Charge(CountWrite(c), w, t), w)
  {
  }
}
