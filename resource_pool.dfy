/** A bounded last-in-first-out pool of owned resources, as kept by the
    rasterizer for its rendering contexts. Each method of the pool holds a
    mutex for its whole body, so a sequential model treats every call as one
    atomic step. */
module ResourcePool {

  /** The C++ `unsigned int` of the pool's capacity. */
  newtype uint32 = x: int | 0 <= x < 0x1_0000_0000

  /** A `std::unique_ptr<T>`: empty, or the only owner of one resource. */
  datatype Ptr<T> = Null | Owned(resource: T)

  /** What one invocation of the resource creator does: the status it
      returns and what it leaves in the pointer it was handed. */
  datatype Created<T> = Created(status: bool, produced: Ptr<T>)

  /** The capacity a pool gets when its constructor is not given one. */
  const DefaultMaximumPoolSize: uint32 := 5

  /** The pool's invariant: at most `max` entries, none of them empty. */
  predicate Bounded<T>(pool: seq<Ptr<T>>, max: int)
  {
    |pool| <= max && forall i :: 0 <= i < |pool| ==> pool[i].Owned?
  }

  /** The outcome of one acquisition: the status, what the caller's pointer
      holds afterwards, the pool afterwards, and whether the creator ran. */
  datatype Acquired<T> = Acquired(ok: bool, resource: Ptr<T>, pool: seq<Ptr<T>>, creatorCalled: bool)

  /** One `AcquireResource` on `pool`, where `next` is what the creator does
      if it is invoked. */
  function AcquireStep<T>(pool: seq<Ptr<T>>, next: Created<T>): (r: Acquired<T>)
    ensures r.creatorCalled <==> pool == []
    ensures pool == [] ==>
      r.pool == [] && r.resource == next.produced &&
      (r.ok <==> next.status && next.produced.Owned?)
    ensures pool != [] ==> r.ok && r.pool + [r.resource] == pool
    ensures forall max: int :: Bounded(pool, max) ==> Bounded(r.pool, max)
    ensures Bounded(pool, |pool|) && r.ok ==> r.resource.Owned?
  {
    if pool == [] then
      Acquired(next.status && next.produced.Owned?, next.produced, [], true)
    else
      Acquired(true, pool[|pool| - 1], pool[..|pool| - 1], false)
  }

  /** The outcome of one return: the status, the pool afterwards, what the
      caller's pointer holds afterwards, and the resource that was deleted
      (`Null` when none was). */
  datatype Returned<T> = Returned(ok: bool, pool: seq<Ptr<T>>, left: Ptr<T>, destroyed: Ptr<T>)

  /** One `ReturnResource(resource)` on a pool of capacity `max`. */
  function ReturnStep<T>(pool: seq<Ptr<T>>, max: int, resource: Ptr<T>): (r: Returned<T>)
    ensures resource.Null? ==>
      !r.ok && r.pool == pool && r.left == Null && r.destroyed == Null
    ensures resource.Owned? ==> r.ok && r.left == Null
    ensures resource.Owned? && |pool| < max ==>
      r.pool == pool + [resource] && r.destroyed == Null
    ensures resource.Owned? && |pool| >= max ==>
      r.pool == pool && r.destroyed == resource
    ensures Bounded(pool, max) ==> Bounded(r.pool, max)
  {
    if resource.Null? then Returned(false, pool, resource, Null)
    else if |pool| < max then Returned(true, pool + [resource], Null, Null)
    else Returned(true, pool, Null, resource)
  }

  /** A call on the pool, for reasoning about sequences of calls. */
  datatype PoolOp<T> = AcquireOp | ReturnOp(resource: Ptr<T>)

  /** The pool after a sequence of calls, the resources that successful
      acquisitions handed out (in order), and the creator's call count. */
  datatype RunResult<T> = RunResult(pool: seq<Ptr<T>>, handedOut: seq<Ptr<T>>, creatorCalls: nat)

  function Run<T>(pool: seq<Ptr<T>>, max: int, creator: nat -> Created<T>, calls: nat, ops: seq<PoolOp<T>>): RunResult<T>
    decreases |ops|
  {
    if ops == [] then RunResult(pool, [], calls)
    else match ops[0]
      case AcquireOp =>
        var a := AcquireStep(pool, creator(calls));
        var rest := Run(a.pool, max, creator, if a.creatorCalled then calls + 1 else calls, ops[1..]);
        RunResult(rest.pool, (if a.ok then [a.resource] else []) + rest.handedOut, rest.creatorCalls)
      case ReturnOp(p) =>
        Run(ReturnStep(pool, max, p).pool, max, creator, calls, ops[1..])
  }

  /** The invariant holds after any sequence of calls. */
  lemma {:induction false} RunKeepsBounded<T>(pool: seq<Ptr<T>>, max: int, creator: nat -> Created<T>, calls: nat, ops: seq<PoolOp<T>>)
    requires Bounded(pool, max)
    ensures Bounded(Run(pool, max, creator, calls, ops).pool, max)
    ensures forall i :: 0 <= i < |Run(pool, max, creator, calls, ops).handedOut| ==>
      Run(pool, max, creator, calls, ops).handedOut[i].Owned?
    decreases |ops|
  {
    if ops != [] {
      match ops[0]
      case AcquireOp =>
        var a := AcquireStep(pool, creator(calls));
        RunKeepsBounded(a.pool, max, creator, if a.creatorCalled then calls + 1 else calls, ops[1..]);
      case ReturnOp(p) =>
        RunKeepsBounded(ReturnStep(pool, max, p).pool, max, creator, calls, ops[1..]);
    }
  }

  /** A returned resource is the next one handed out, and the pool is then
      as it was before the return. */
  lemma ReturnThenAcquire<T>(pool: seq<Ptr<T>>, max: int, x: T, next: Created<T>)
    requires |pool| < max
    ensures var p := ReturnStep(pool, max, Owned(x)).pool;
      var a := AcquireStep(p, next);
      a.ok && !a.creatorCalled && a.resource == Owned(x) && a.pool == pool
  {
  }

  function ReturnsOf<T>(rs: seq<T>): seq<PoolOp<T>>
  {
    seq(|rs|, i requires 0 <= i < |rs| => ReturnOp(Owned(rs[i])))
  }

  function OwnedAll<T>(rs: seq<T>): seq<Ptr<T>>
  {
    seq(|rs|, i requires 0 <= i < |rs| => Owned(rs[i]))
  }

  function Acquires<T>(n: nat): seq<PoolOp<T>>
  {
    seq(n, i => AcquireOp)
  }

  function Reversed<T>(s: seq<T>): seq<T>
  {
    if s == [] then [] else [s[|s| - 1]] + Reversed(s[..|s| - 1])
  }

  lemma {:induction false} RunConcat<T>(pool: seq<Ptr<T>>, max: int, creator: nat -> Created<T>, calls: nat, ops1: seq<PoolOp<T>>, ops2: seq<PoolOp<T>>)
    ensures var first := Run(pool, max, creator, calls, ops1);
      var second := Run(first.pool, max, creator, first.creatorCalls, ops2);
      Run(pool, max, creator, calls, ops1 + ops2) ==
        RunResult(second.pool, first.handedOut + second.handedOut, second.creatorCalls)
    decreases |ops1|
  {
    if ops1 == [] {
      assert ops1 + ops2 == ops2;
    } else {
      assert (ops1 + ops2)[0] == ops1[0];
      assert (ops1 + ops2)[1..] == ops1[1..] + ops2;
      match ops1[0]
      case AcquireOp =>
        var a := AcquireStep(pool, creator(calls));
        RunConcat(a.pool, max, creator, if a.creatorCalled then calls + 1 else calls, ops1[1..], ops2);
      case ReturnOp(p) =>
        RunConcat(ReturnStep(pool, max, p).pool, max, creator, calls, ops1[1..], ops2);
    }
  }

  /** Returning resources while there is room appends them in order. */
  lemma {:induction false} RunReturns<T>(pool: seq<Ptr<T>>, max: int, creator: nat -> Created<T>, calls: nat, rs: seq<T>)
    requires |pool| + |rs| <= max
    ensures Run(pool, max, creator, calls, ReturnsOf(rs)) == RunResult(pool + OwnedAll(rs), [], calls)
    decreases |rs|
  {
    if rs == [] {
      assert ReturnsOf(rs) == [];
      assert pool + OwnedAll(rs) == pool;
    } else {
      assert ReturnsOf(rs)[0] == ReturnOp(Owned(rs[0]));
      assert ReturnsOf(rs)[1..] == ReturnsOf(rs[1..]);
      assert pool + OwnedAll(rs) == (pool + [Owned(rs[0])]) + OwnedAll(rs[1..]);
      RunReturns(pool + [Owned(rs[0])], max, creator, calls, rs[1..]);
    }
  }

  /** Acquiring as many times as there are entries above `pool` hands those
      entries out last-in first-out and never invokes the creator. */
  lemma {:induction false} RunAcquires<T>(pool: seq<Ptr<T>>, max: int, creator: nat -> Created<T>, calls: nat, q: seq<Ptr<T>>)
    ensures Run(pool + q, max, creator, calls, Acquires(|q|)) == RunResult(pool, Reversed(q), calls)
    decreases |q|
  {
    if q == [] {
      assert pool + q == pool;
      assert Acquires<T>(0) == [];
    } else {
      var q' := q[..|q| - 1];
      assert pool + q == (pool + q') + [q[|q| - 1]];
      assert Acquires<T>(|q|)[1..] == Acquires<T>(|q'|);
      RunAcquires(pool, max, creator, calls, q');
    }
  }

  /** The pool is a stack: resources returned while there is room come back
      from the same number of acquisitions in reverse order, and the pool is
      left as it was. */
  lemma LastInFirstOut<T>(pool: seq<Ptr<T>>, max: int, creator: nat -> Created<T>, calls: nat, rs: seq<T>)
    requires |pool| + |rs| <= max
    ensures Run(pool, max, creator, calls, ReturnsOf(rs) + Acquires(|rs|)) ==
      RunResult(pool, Reversed(OwnedAll(rs)), calls)
  {
    RunConcat(pool, max, creator, calls, ReturnsOf(rs), Acquires(|rs|));
    RunReturns(pool, max, creator, calls, rs);
    RunAcquires(pool, max, creator, calls, OwnedAll(rs));
  }

  /** `ThreadSafeResourcePool<T>`: resources are handed out from the back of
      `resourcePool` and returned to its back; the creator is invoked only
      when the pool is empty. The mutex is not modelled. */
  class ThreadSafeResourcePool<T> {
    /** The creator callback; its n-th invocation behaves as `resourceCreator(n)`. */
    const resourceCreator: nat -> Created<T>
    const maximumPoolSize: uint32
    var resourcePool: seq<Ptr<T>>
    /** The number of times the creator has been invoked so far. */
    var creatorCalls: nat
    /** The resources the pool has deleted because it was full. */
    ghost var destroyed: seq<T>

    ghost predicate Valid()
      reads this
    {
      Bounded(resourcePool, maximumPoolSize as int)
    }

    constructor(resourceCreator: nat -> Created<T>, maximumPoolSize: uint32 := DefaultMaximumPoolSize)
      ensures Valid()
      ensures this.resourceCreator == resourceCreator && this.maximumPoolSize == maximumPoolSize
      ensures resourcePool == [] && creatorCalls == 0 && destroyed == []
    {
      this.resourceCreator := resourceCreator;
      this.maximumPoolSize := maximumPoolSize;
      resourcePool := [];
      creatorCalls := 0;
      destroyed := [];
    }

    /** `resource` is what the caller's pointer holds afterwards. */
    method AcquireResource() returns (ok: bool, resource: Ptr<T>)
      requires Valid()
      modifies this
      ensures Valid()
      ensures var a := AcquireStep(old(resourcePool), resourceCreator(old(creatorCalls)));
        ok == a.ok && resource == a.resource && resourcePool == a.pool &&
        creatorCalls == old(creatorCalls) + (if a.creatorCalled then 1 else 0)
      ensures ok ==> resource.Owned?
      ensures destroyed == old(destroyed)
    {
      if resourcePool == [] {
        var outcome := resourceCreator(creatorCalls);
        creatorCalls := creatorCalls + 1;
        resource := outcome.produced;
        if !outcome.status {
          ok := false;
          return;
        }
        if resource.Null? {
          ok := false;
          return;
        }
      } else {
        resource := resourcePool[|resourcePool| - 1];
        resourcePool := resourcePool[..|resourcePool| - 1];
      }
      ok := true;
    }

    /** `left` is what the caller's pointer holds afterwards. */
    method ReturnResource(resource: Ptr<T>) returns (ok: bool, left: Ptr<T>)
      requires Valid()
      modifies this
      ensures Valid()
      ensures var r := ReturnStep(old(resourcePool), maximumPoolSize as int, resource);
        ok == r.ok && left == r.left && resourcePool == r.pool &&
        destroyed == old(destroyed) + (if r.destroyed.Owned? then [r.destroyed.resource] else [])
      ensures creatorCalls == old(creatorCalls)
    {
      if resource.Null? {
        ok, left := false, resource;
        return;
      }
      if |resourcePool| < maximumPoolSize as int {
        resourcePool := resourcePool + [resource];
      } else {
        destroyed := destroyed + [resource.resource];
      }
      ok, left := true, Null;
    }
  }
}
