/** The trackers as the mutable objects they are, each method proved against MemorySpec. */
module MemoryTracker {
  import opened MemorySpec

  class MemoryUsage {
    var amount: int
    var peak: int
    var hardLimit: int

    function View(): Meter
      reads this
    {
      Meter(amount, peak, hardLimit)
    }

    constructor (hardLimit: int)
      ensures View() == Meter(0, 0, hardLimit)
    {
      amount, peak, this.hardLimit := 0, 0, hardLimit;
    }

    /** Adds first, checks the limit, and takes the addition back before throwing. */
    method Alloc(size: int) returns (ok: bool)
      modifies this
      ensures ok <==> old(Admits(View(), size))
      ensures View() == if ok then Charged(old(View()), size) else old(View())
    {
      amount := amount + size;
      var newAmount := amount;
      if newAmount > hardLimit {
        amount := amount - size;
        return false;
      }
      if newAmount > peak {
        peak := newAmount;
      }
      return true;
    }

    method Free(size: int)
      modifies this
      ensures View() == Refunded(old(View()), size)
    {
      amount := amount - size;
    }
  }

  class GlobalTracker {
    const usage: MemoryUsage

    constructor (limit: int)
      ensures fresh(usage) && usage.View() == Opened(limit, 0) == Meter(0, 0, limit)
    {
      usage := new MemoryUsage(if limit != UNLIMITED then limit + 0 else limit);
    }

    method Acquire(size: int) returns (ok: bool)
      modifies usage
      ensures ok <==> old(Admits(usage.View(), size))
      ensures usage.View() == if ok then Charged(old(usage.View()), size) else old(usage.View())
    {
      ok := usage.Alloc(size);
    }

    method Release(size: int)
      modifies usage
      ensures usage.View() == Refunded(old(usage.View()), size)
    {
      usage.Free(size);
    }
  }

  class QueryTracker {
    const parent: GlobalTracker
    const usage: MemoryUsage
    var reservation: int

    ghost predicate Valid() { usage != parent.usage }

    function View(): Query
      reads this, usage
    {
      Query(usage.View(), reservation)
    }

    constructor (parent: GlobalTracker, limit: int)
      ensures Valid() && this.parent == parent && fresh(usage)
      ensures View() == Query(Opened(limit, QUERY_RESERVE), 0)
      ensures usage.View() == Meter(0, 0, if limit == 9223372036854775807 then limit else limit + 64 * 1024)
    {
      this.parent := parent;
      usage := new MemoryUsage(if limit != UNLIMITED then limit + QUERY_RESERVE else limit);
      reservation := 0;
    }

    method Acquire(size: int) returns (r: Outcome)
      requires Valid()
      modifies `reservation, usage, parent.usage
      ensures (r, parent.usage.View(), View()) == old(QueryAcquire(parent.usage.View(), View(), size))
    {
      var ok := usage.Alloc(size);
      if !ok {
        return QueryLimit;
      }
      var willReserve := reservation - size;
      if willReserve < 0 {
        var getFromParent := QUERY_RESERVE;
        ghost var n := 1;
        while willReserve + getFromParent <= 0
          invariant getFromParent == n * QUERY_RESERVE
          invariant willReserve + getFromParent <= QUERY_RESERVE
          decreases -(willReserve + getFromParent)
        {
          getFromParent := getFromParent + QUERY_RESERVE;
          n := n + 1;
        }
        DrawUnique(willReserve, QUERY_RESERVE, n);
        ok := parent.Acquire(getFromParent);
        if !ok {
          return GlobalLimit;
        }
        reservation := reservation + getFromParent;
      }
      reservation := reservation - size;
      return Done;
    }

    method Release(size: int)
      requires Valid()
      modifies `reservation, usage, parent.usage
      ensures (parent.usage.View(), View()) == old(QueryRelease(parent.usage.View(), View(), size))
    {
      reservation := reservation + size;
      var willReserve := reservation;
      var releaseParent := 0;
      ghost var n: nat := 0;
      while willReserve > QUERY_RESERVE
        invariant releaseParent == n * QUERY_RESERVE
        invariant willReserve + releaseParent == reservation
        invariant n > 0 ==> willReserve > 0
      {
        releaseParent := releaseParent + QUERY_RESERVE;
        willReserve := willReserve - QUERY_RESERVE;
        n := n + 1;
      }
      if n > 0 {
        SurplusUnique(reservation, QUERY_RESERVE, n);
      }
      if releaseParent > 0 {
        parent.Release(releaseParent);
        reservation := reservation - releaseParent;
      }
      usage.Free(size);
    }

    /** The destructor. */
    method Close()
      requires Valid()
      modifies parent.usage
      ensures parent.usage.View() == QueryClose(old(parent.usage.View()), View())
    {
      if reservation != 0 {
        parent.Release(reservation);
      }
    }
  }

  class OperatorTracker {
    const parent: QueryTracker
    const query: nat  // the parent's name in a run
    var amount: int
    var peak: int
    var reservation: int

    function View(): Operator
      reads this
    {
      Operator(query, amount, peak, reservation)
    }

    constructor (parent: QueryTracker, query: nat)
      ensures this.parent == parent && View() == Operator(query, 0, 0, 0)
    {
      this.parent, this.query := parent, query;
      amount, peak, reservation := 0, 0, 0;
    }

    method Acquire(size: int) returns (r: Outcome)
      requires parent.Valid()
      modifies this, parent`reservation, parent.usage, parent.parent.usage
      ensures (r, parent.parent.usage.View(), parent.View(), View())
           == old(OperatorAcquire(parent.parent.usage.View(), parent.View(), View(), size))
    {
      var willBe := reservation - size;
      if willBe < 0 {
        var getFromParent := OPERATOR_RESERVE;
        ghost var n := 1;
        while willBe + getFromParent <= 0
          invariant getFromParent == n * OPERATOR_RESERVE
          invariant willBe + getFromParent <= OPERATOR_RESERVE
          decreases -(willBe + getFromParent)
        {
          getFromParent := getFromParent + OPERATOR_RESERVE;
          n := n + 1;
        }
        DrawUnique(willBe, OPERATOR_RESERVE, n);
        r := parent.Acquire(getFromParent);
        if r != Done {
          return;
        }
        willBe := willBe + getFromParent;
      }
      reservation := willBe;
      amount := amount + size;
      if amount > peak {
        peak := amount;
      }
      return Done;
    }

    method Release(size: int)
      requires parent.Valid()
      modifies this, parent`reservation, parent.usage, parent.parent.usage
      ensures (parent.parent.usage.View(), parent.View(), View())
           == old(OperatorRelease(parent.parent.usage.View(), parent.View(), View(), size))
    {
      reservation := reservation + size;
      ghost var start := reservation;
      ghost var n: nat := 0;
      ghost var g, q := parent.parent.usage.View(), parent.View();
      while reservation > OPERATOR_RESERVE
        invariant reservation == start - n * OPERATOR_RESERVE
        invariant n > 0 ==> reservation > 0
        invariant amount == old(amount) && peak == old(peak)
        invariant (parent.parent.usage.View(), parent.View()) == ReturnQuanta(g, q, n)
      {
        parent.Release(OPERATOR_RESERVE);
        reservation := reservation - OPERATOR_RESERVE;
        n := n + 1;
      }
      QuantaReturned(start, n);
      amount := amount - size;
    }

    /** The destructor. */
    method Close()
      requires parent.Valid()
      modifies parent`reservation, parent.usage, parent.parent.usage
      ensures (parent.parent.usage.View(), parent.View())
           == old(OperatorClose(parent.parent.usage.View(), parent.View(), View()))
    {
      if reservation != 0 {
        parent.Release(reservation);
      }
      if amount != 0 {
        parent.Release(amount);
      }
    }
  }

  lemma QuantaReturned(start: int, n: nat)
    requires start - n * OPERATOR_RESERVE <= OPERATOR_RESERVE
    requires n > 0 ==> start - n * OPERATOR_RESERVE > 0
    ensures Surplus(start, OPERATOR_RESERVE) == n * OPERATOR_RESERVE
    ensures Surplus(start, OPERATOR_RESERVE) / OPERATOR_RESERVE == n
  {
    if n > 0 {
      SurplusUnique(start, OPERATOR_RESERVE, n);
    }
    assert n * OPERATOR_RESERVE / OPERATOR_RESERVE == n;
  }
}
