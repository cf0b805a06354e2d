/**
 The virtual-memory driver as the allocator sees it: physical handles, a map from addresses to handles, and calls that
 may fail. Creating and mapping may fail at any time. A driver that is `reliable` fails in no other call; an unreliable
 one may fail anywhere, and a failed call changes nothing.
 */
module CuMemDriver {

  type Handle = nat
  type Addr = nat

  datatype Mapping = Mapping(size: nat, handle: Handle)

  datatype Call =
    | Create(size: nat) | Map(addr: Addr, size: nat, handle: Handle) | Unmap(addr: Addr, size: nat) | Release(handle: Handle)
    | GetContext | RetainContext | SetContext | GetGranularity | SetAccess(addr: Addr, size: nat)
    | Reserve(size: nat, alignment: nat) | Free(addr: Addr, size: nat)

  /** Handles are numbered in the order they are created. */
  function Range(lo: nat, hi: nat): (r: set<nat>)
    ensures forall h :: h in r <==> lo <= h < hi
    decreases hi - lo
  {
    if lo < hi then Range(lo, hi - 1) + {hi - 1} else {}
  }

  /** The first status that is not 0, or 0 if all calls succeeded. */
  function FirstFailure(statuses: seq<int>): int {
    if statuses == [] then 0
    else
      var before := FirstFailure(statuses[..|statuses| - 1]);
      if before != 0 then before else statuses[|statuses| - 1]
  }

  /** The error code after the given statuses have been checked one by one: the last failure, or what it was before. */
  function Checked(error: int, statuses: seq<int>): int {
    if statuses == [] then error
    else if statuses[|statuses| - 1] != 0 then statuses[|statuses| - 1]
    else Checked(error, statuses[..|statuses| - 1])
  }

  lemma NothingFailed(error: int)
    ensures FirstFailure([]) == 0 && Checked(error, []) == error
  {
  }

  lemma FirstFailureNext(statuses: seq<int>, status: int)
    ensures FirstFailure(statuses + [status]) == if FirstFailure(statuses) != 0 then FirstFailure(statuses) else status
  {
    assert (statuses + [status])[..|statuses|] == statuses;
  }

  lemma CheckedNext(error: int, statuses: seq<int>, status: int)
    ensures Checked(error, statuses + [status]) == if status != 0 then status else Checked(error, statuses)
  {
    assert (statuses + [status])[..|statuses|] == statuses;
  }

  /** Call i is the first that failed. */
  ghost predicate FirstFailed(statuses: seq<int>, i: nat) {
    i < |statuses| && statuses[i] != 0 && forall j :: 0 <= j < i ==> statuses[j] == 0
  }

  /** It is 0 exactly when every call succeeded, and otherwise the status of the first that failed. */
  lemma {:induction false} FirstFailureExactly(statuses: seq<int>)
    ensures FirstFailure(statuses) == 0 <==> forall i :: 0 <= i < |statuses| ==> statuses[i] == 0
    ensures FirstFailure(statuses) != 0 ==> exists i: nat :: FirstFailed(statuses, i) && statuses[i] == FirstFailure(statuses)
  {
    if statuses != [] {
      hide FirstFailure;
      var n := |statuses| - 1;
      var front := statuses[..n];
      FirstFailureExactly(front);
      assert statuses == front + [statuses[n]];
      FirstFailureNext(front, statuses[n]);
      if FirstFailure(front) != 0 {
        var i: nat :| FirstFailed(front, i) && front[i] == FirstFailure(front);
        assert statuses[i] == front[i] != 0;
        assert FirstFailed(statuses, i);
      } else if statuses[n] != 0 {
        assert FirstFailed(statuses, n);
      }
    }
  }

  /** The code is clear afterwards exactly when it was before and every call succeeded. */
  lemma {:induction false} CheckedIsClearExactly(error: int, statuses: seq<int>)
    ensures Checked(error, statuses) == 0 <==> error == 0 && FirstFailure(statuses) == 0
  {
    if statuses != [] { CheckedIsClearExactly(error, statuses[..|statuses| - 1]); }
  }

  lemma {:induction false} CheckedAppend(error: int, xs: seq<int>, ys: seq<int>)
    ensures Checked(error, xs + ys) == Checked(Checked(error, xs), ys)
  {
    if ys == [] {
      assert xs + ys == xs;
    } else {
      var front := ys[..|ys| - 1];
      CheckedAppend(error, xs, front);
      assert (xs + ys)[..|xs + ys| - 1] == xs + front;
    }
  }

  /** A code that was not set before is the status of a call. */
  lemma {:induction false} CheckedIsStatus(statuses: seq<int>)
    requires Checked(0, statuses) != 0
    ensures Checked(0, statuses) in statuses
  {
    if statuses[|statuses| - 1] == 0 { CheckedIsStatus(statuses[..|statuses| - 1]); }
  }

  lemma {:induction false} FirstFailureAppend(xs: seq<int>, ys: seq<int>)
    ensures FirstFailure(xs + ys) == if FirstFailure(xs) != 0 then FirstFailure(xs) else FirstFailure(ys)
  {
    if ys == [] {
      assert xs + ys == xs;
    } else {
      var front := ys[..|ys| - 1];
      FirstFailureAppend(xs, front);
      assert (xs + ys)[..|xs + ys| - 1] == xs + front;
    }
  }

  class Driver {
    const reliable: bool
    const granularity: nat
    var next: Handle
    var live: set<Handle>
    var mapped: map<Addr, Mapping>
    var reserved: map<Addr, nat>
    ghost var calls: seq<Call>
    ghost var statuses: seq<int>

    ghost predicate Valid()
      reads this
    {
      granularity > 0 && forall h :: h in live ==> h < next
    }

    constructor (reliable: bool, granularity: nat)
      requires granularity > 0
      ensures Valid() && live == {} && mapped == map[] && reserved == map[] && next == 0
      ensures calls == [] && statuses == []
      ensures this.reliable == reliable && this.granularity == granularity
    {
      this.reliable, this.granularity := reliable, granularity;
      next, live, mapped, reserved := 0, {}, map[], map[];
      calls, statuses := [], [];
    }

    method Create(size: nat) returns (status: int, h: Handle)
      requires Valid()
      modifies this
      ensures statuses == old(statuses) + [status]
      ensures Valid() && calls == old(calls) + [Call.Create(size)] && mapped == old(mapped) && reserved == old(reserved)
      ensures status == 0 ==> h == old(next) && next == old(next) + 1 && live == old(live) + {h}
      ensures status != 0 ==> next == old(next) && live == old(live)
    {
      calls := calls + [Call.Create(size)];
      h := next;
      status := *;
      if status == 0 {
        live, next := live + {h}, next + 1;
      }
      statuses := statuses + [status];
    }

    /** An address that is already mapped cannot be mapped again. */
    method Map(addr: Addr, size: nat, h: Handle) returns (status: int)
      requires Valid()
      modifies this
      ensures statuses == old(statuses) + [status]
      ensures Valid() && calls == old(calls) + [Call.Map(addr, size, h)] && live == old(live) && next == old(next) && reserved == old(reserved)
      ensures status == 0 ==> addr !in old(mapped) && mapped == old(mapped)[addr := Mapping(size, h)]
      ensures status != 0 ==> mapped == old(mapped)
    {
      calls := calls + [Call.Map(addr, size, h)];
      status := *;
      if addr in mapped { status := 1; }
      if status == 0 {
        mapped := mapped[addr := Mapping(size, h)];
      }
      statuses := statuses + [status];
    }

    /** Only a mapping of exactly this address and size can be unmapped. */
    method Unmap(addr: Addr, size: nat) returns (status: int)
      requires Valid()
      modifies this
      ensures statuses == old(statuses) + [status]
      ensures Valid() && calls == old(calls) + [Call.Unmap(addr, size)] && live == old(live) && next == old(next) && reserved == old(reserved)
      ensures status == 0 ==> addr in old(mapped) && mapped == old(mapped) - {addr}
      ensures status != 0 ==> mapped == old(mapped)
      ensures reliable && addr in old(mapped) && old(mapped)[addr].size == size ==> status == 0
    {
      calls := calls + [Call.Unmap(addr, size)];
      status := *;
      if addr !in mapped || mapped[addr].size != size { status := 1; } else if reliable { status := 0; }
      if status == 0 {
        mapped := mapped - {addr};
      }
      statuses := statuses + [status];
    }

    /** Only a live handle can be released, so no handle is released twice. */
    method Release(h: Handle) returns (status: int)
      requires Valid()
      modifies this
      ensures statuses == old(statuses) + [status]
      ensures Valid() && calls == old(calls) + [Call.Release(h)] && mapped == old(mapped) && next == old(next) && reserved == old(reserved)
      ensures status == 0 ==> h in old(live) && live == old(live) - {h}
      ensures status != 0 ==> live == old(live)
      ensures reliable && h in old(live) ==> status == 0
    {
      calls := calls + [Call.Release(h)];
      status := *;
      if h !in live { status := 1; } else if reliable { status := 0; }
      if status == 0 {
        live := live - {h};
      }
      statuses := statuses + [status];
    }

    /** Context, granularity and access calls: they change nothing here. */
    method Configure(ghost call: Call) returns (status: int)
      modifies `statuses, `calls
      ensures statuses == old(statuses) + [status] && calls == old(calls) + [call] && (reliable ==> status == 0)
    {
      calls := calls + [call];
      status := *;
      if reliable { status := 0; }
      statuses := statuses + [status];
    }

    /** Reserve an address range; with an alignment, the address is a multiple of it. */
    method Reserve(size: nat, alignment: nat) returns (status: int, addr: Addr)
      requires Valid()
      modifies this
      ensures statuses == old(statuses) + [status]
      ensures Valid() && calls == old(calls) + [Call.Reserve(size, alignment)] && live == old(live) && next == old(next) && mapped == old(mapped)
      ensures status == 0 ==> addr !in old(reserved) && reserved == old(reserved)[addr := size]
      ensures status == 0 && alignment != 0 ==> addr % alignment == 0
      ensures status != 0 ==> reserved == old(reserved)
    {
      calls := calls + [Call.Reserve(size, alignment)];
      status, addr := *, *;
      if addr in reserved || (alignment != 0 && addr % alignment != 0) { status := 1; }
      if status == 0 {
        reserved := reserved[addr := size];
      }
      statuses := statuses + [status];
    }

    method FreeAddress(addr: Addr, size: nat) returns (status: int)
      requires Valid()
      modifies this
      ensures statuses == old(statuses) + [status]
      ensures Valid() && calls == old(calls) + [Call.Free(addr, size)] && live == old(live) && next == old(next) && mapped == old(mapped)
      ensures status == 0 ==> reserved == old(reserved) - {addr}
      ensures status != 0 ==> reserved == old(reserved)
      ensures reliable && addr in old(reserved) && old(reserved)[addr] == size ==> status == 0
    {
      calls := calls + [Call.Free(addr, size)];
      status := *;
      if addr !in reserved || reserved[addr] != size { status := 1; } else if reliable { status := 0; }
      if status == 0 {
        reserved := reserved - {addr};
      }
      statuses := statuses + [status];
    }
  }
}
