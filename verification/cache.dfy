/**
 The L1 cache, abstractly. Its eviction policy and capacity live in a component
 that is not part of this model; what the memory manager relies on is a table
 from addresses to values, the set of lines written since they were filled, and
 the timestamp each fill was stamped with.
 */
module L1Cache {
  import opened Wrappers

  datatype Cache = Cache(lines: map<nat, nat>, dirty: set<nat>, lastUsed: map<nat, nat>)

  /** Dirty flags and recency stamps exist only for resident lines. */
  predicate WellFormed(c: Cache) {
    c.dirty <= c.lines.Keys && c.lastUsed.Keys <= c.lines.Keys
  }

  function Empty(): (c: Cache)
    ensures WellFormed(c)
    ensures forall a :: Get(c, a) == None
  {
    Cache(map[], {}, map[])
  }

  /** `get`: a hit yields the resident value, a miss yields nothing. It is a
      pure query: the cache is not an output. */
  function Get(c: Cache, a: nat): (r: Option<nat>)
    ensures r.Some? <==> a in c.lines
    ensures r.Some? ==> r.value == c.lines[a]
  {
    if a in c.lines then Some(c.lines[a]) else None
  }

  /** `put`: fills line `a` with a clean copy of `v`, stamped with `ts`. */
  function Put(c: Cache, a: nat, v: nat, ts: nat): (r: Cache)
    ensures Get(r, a) == Some(v) && a !in r.dirty
    ensures a in r.lastUsed && r.lastUsed[a] == ts
    ensures forall b :: b != a ==> Get(r, b) == Get(c, b)
    ensures forall b :: b != a ==> (b in r.dirty <==> b in c.dirty)
    ensures forall b :: b != a ==> (b in r.lastUsed <==> b in c.lastUsed)
    ensures forall b :: b != a && b in c.lastUsed ==> r.lastUsed[b] == c.lastUsed[b]
    ensures WellFormed(c) ==> WellFormed(r)
  {
    Cache(c.lines[a := v], c.dirty - {a}, c.lastUsed[a := ts])
  }

  /** `update`: the write-back path; line `a` now holds `v` and is dirty,
      whether or not it was resident before. */
  function Update(c: Cache, a: nat, v: nat): (r: Cache)
    ensures Get(r, a) == Some(v) && a in r.dirty
    ensures forall b :: b != a ==> Get(r, b) == Get(c, b)
    ensures forall b :: b != a ==> (b in r.dirty <==> b in c.dirty)
    ensures r.lastUsed == c.lastUsed
    ensures WellFormed(c) ==> WellFormed(r)
  {
    Cache(c.lines[a := v], c.dirty + {a}, c.lastUsed)
  }
}
