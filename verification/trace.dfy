/**
 Sequences of accesses driven through the memory manager, and the flat memory
 they are measured against: whatever the cache holds, the values a program
 reads are those of one plain address-to-value map that writes overwrite.
 */
module Trace {
  import opened Process
  import opened L1Cache
  import opened MemoryManager

  datatype Access = ReadAccess(address: nat) | WriteAccess(address: nat, data: nat)

  datatype RunOutcome = RunOutcome(values: seq<nat>, state: State, counters: Counters)

  datatype FlatOutcome = FlatOutcome(values: seq<nat>, memory: map<nat, nat>)

  /** Every read of the trace addresses the global address space. */
  predicate ReadsInRange(ops: seq<Access>, n: nat) {
    forall i :: 0 <= i < |ops| && ops[i].ReadAccess? ==> ops[i].address < n
  }

  /** The flat memory holds a value for every address of the space. */
  predicate Covers(m: map<nat, nat>, n: nat) {
    forall a: nat :: a < n ==> a in m
  }

  function ReadCount(ops: seq<Access>): (k: nat)
    ensures k <= |ops|
  {
    if ops == [] then 0
    else (if ops[0].ReadAccess? then 1 else 0) + ReadCount(ops[1..])
  }

  /** Drives `ops` through `Read` and `Write`, collecting the read values. */
  function Run(s: State, w: Weights, c: Counters, ops: seq<Access>): (r: RunOutcome)
    requires Valid(s) && ReadsInRange(ops, Capacity(s))
    ensures Valid(r.state)
    ensures r.state.timestamp == s.timestamp + |ops|
    ensures r.state.limit == s.limit && r.state.primary == s.primary && r.state.secondary == s.secondary
    ensures |r.values| == ReadCount(ops)
    ensures r.counters.total == c.total + |ops|
    ensures r.counters.readCount == c.readCount + ReadCount(ops)
    ensures r.counters.writeCount == c.writeCount + (|ops| - ReadCount(ops))
    ensures Balanced(c) ==> Balanced(r.counters)
    ensures Accounted(c, w) ==> Accounted(r.counters, w)
    decreases |ops|
  {
    if ops == [] then RunOutcome([], s, c)
    else
      TailInRange(ops, Capacity(s));
      match ops[0]
      case ReadAccess(a) =>
        AddressableIffInRange(s, a);
        var step := Read(s, w, c, a);
        var rest := Run(step.state, w, step.counters, ops[1..]);
        RunOutcome([step.value] + rest.values, rest.state, rest.counters)
      case WriteAccess(a, d) =>
        var step := Write(s, w, c, a, d);
        Run(step.state, w, step.counters, ops[1..])
  }

  /** The reference: the same trace on one flat memory. */
  function FlatRun(m: map<nat, nat>, n: nat, ops: seq<Access>): (r: FlatOutcome)
    requires Covers(m, n) && ReadsInRange(ops, n)
    ensures Covers(r.memory, n)
    ensures |r.values| == ReadCount(ops)
    decreases |ops|
  {
    if ops == [] then FlatOutcome([], m)
    else
      TailInRange(ops, n);
      match ops[0]
      case ReadAccess(a) =>
        var rest := FlatRun(m, n, ops[1..]);
        FlatOutcome([m[a]] + rest.values, rest.memory)
      case WriteAccess(a, d) =>
        FlatRun(m[a := d], n, ops[1..])
  }

  lemma ViewCovers(s: State)
    requires Valid(s)
    ensures Covers(View(s), Capacity(s))
  {
    forall a: nat | a < Capacity(s)
      ensures a in View(s)
    {
      AddressableIffInRange(s, a);
      assert a in (set b: nat | b < Capacity(s) && TierAddressable(s, b));
    }
  }

  lemma TailInRange(ops: seq<Access>, n: nat)
    requires ops != [] && ReadsInRange(ops, n)
    ensures ReadsInRange(ops[1..], n)
  {
    forall i | 0 <= i < |ops[1..]| && ops[1..][i].ReadAccess?
      ensures ops[1..][i].address < n
    {
      assert ops[1..][i] == ops[i + 1];
    }
  }

  /** A trace that starts with a read: the read's value comes first, and the
      rest of the trace runs from the state the read left. */
  lemma RunReadUnfolds(s: State, w: Weights, c: Counters, ops: seq<Access>)
    requires Valid(s) && ReadsInRange(ops, Capacity(s))
    requires ops != [] && ops[0].ReadAccess?
    ensures ops[0].address < Capacity(s) && ReadsInRange(ops[1..], Capacity(s))
    ensures var step := Read(s, w, c, ops[0].address);
            var rest := Run(step.state, w, step.counters, ops[1..]);
            Run(s, w, c, ops) == RunOutcome([step.value] + rest.values, rest.state, rest.counters)
  {
    TailInRange(ops, Capacity(s));
  }

  /** The same unfolding on the flat memory. */
  lemma FlatReadUnfolds(m: map<nat, nat>, n: nat, ops: seq<Access>)
    requires Covers(m, n) && ReadsInRange(ops, n)
    requires ops != [] && ops[0].ReadAccess?
    ensures ops[0].address in m && ReadsInRange(ops[1..], n)
    ensures FlatRun(m, n, ops)
            == FlatOutcome([m[ops[0].address]] + FlatRun(m, n, ops[1..]).values, FlatRun(m, n, ops[1..]).memory)
  {
    TailInRange(ops, n);
  }

  /** For a line table that never evicts, the cache is invisible: a trace
      reads the same values, and leaves the same flat memory behind, as it
      would on a memory without a cache. A cache that evicted dirty lines
      without writing them back would break this. */
  lemma {:induction false} RunRefinesFlat(s: State, w: Weights, c: Counters, ops: seq<Access>)
    requires Valid(s) && ReadsInRange(ops, Capacity(s))
    ensures Covers(View(s), Capacity(s))
    ensures Run(s, w, c, ops).values == FlatRun(View(s), Capacity(s), ops).values
    ensures View(Run(s, w, c, ops).state) == FlatRun(View(s), Capacity(s), ops).memory
    decreases |ops|
  {
    ViewCovers(s);
    var n := Capacity(s);
    if ops != [] {
      TailInRange(ops, n);
      match ops[0]
      case ReadAccess(a) =>
        var step := Read(s, w, c, a);
        assert Valid(step.state) && Capacity(step.state) == n && View(step.state) == View(s)
               && step.value == View(s)[a] by {
          ReadRefinesView(s, w, c, a);
        }
        RunRefinesFlat(step.state, w, step.counters, ops[1..]);
        var rest := Run(step.state, w, step.counters, ops[1..]);
        var flatRest := FlatRun(View(s), n, ops[1..]);
        assert Run(s, w, c, ops) == RunOutcome([step.value] + rest.values, rest.state, rest.counters) by {
          RunReadUnfolds(s, w, c, ops);
        }
        assert FlatRun(View(s), n, ops) == FlatOutcome([View(s)[a]] + flatRest.values, flatRest.memory) by {
          FlatReadUnfolds(View(s), n, ops);
        }
      case WriteAccess(a, d) =>
        var step := Write(s, w, c, a, d);
        assert Valid(step.state) && Capacity(step.state) == n && View(step.state) == View(s)[a := d] by {
          WriteRefinesView(s, w, c, a, d);
        }
        RunRefinesFlat(step.state, w, step.counters, ops[1..]);
    }
  }

  /** From a freshly constructed manager and zeroed counters, every access is
      a read or a write, every access was served by exactly one level, and the
      cycles are the weighted sum of the per-level counts. */
  lemma CountersFromStart(primary: seq<nat>, secondary: seq<nat>, w: Weights, ops: seq<Access>)
    requires ReadsInRange(ops, |primary| + |secondary|)
    ensures var r := Run(Init(primary, secondary), w, Zero(), ops);
            && r.counters.total == |ops| == r.counters.readCount + r.counters.writeCount
            && r.counters.total == r.counters.cacheAcc + r.counters.primaryAcc + r.counters.secondaryAcc
            && Accounted(r.counters, w)
            && r.state.timestamp == |ops|
            && r.state.primary == primary && r.state.secondary == secondary
  {
  }
}
