/**
  * The pool of browser drivers the browser-based scanners share: a fixed set
  * of drivers created up front, an `asyncio.Queue` holding the idle ones,
  * leases taken with `get` and given back with `put`, and a teardown that
  * quits whatever the queue holds at the end.
  */
module Pool {

  /** A driver is named by its position in the list the pool was created from. */
  type Driver = nat

  function Members(s: seq<Driver>): set<Driver> {
    set d | d in s
  }

  predicate Distinct(s: seq<Driver>) {
    forall i, j :: 0 <= i < j < |s| ==> s[i] != s[j]
  }

  /** The drivers `range(n)` creates. */
  function Ids(n: nat): (r: set<Driver>)
    ensures forall d: Driver :: d in r <==> d < n
  {
    if n == 0 then {} else Ids(n - 1) + {n - 1}
  }

  class DriverPool {
    /** How many drivers were created. */
    const size: nat
    /** The queue of idle drivers, head first. */
    var free: seq<Driver>
    /** Drivers taken from the queue and not yet put back. */
    var leased: set<Driver>
    /** Drivers quit so far, in order. */
    var quit: seq<Driver>

    /** Every driver is in exactly one place: idle in the queue, leased, or quit. */
    ghost predicate Valid()
      reads this
    {
      Distinct(free) && Distinct(quit)
      && Members(free) !! leased && Members(free) !! Members(quit) && leased !! Members(quit)
      && Members(free) + leased + Members(quit) == Ids(size)
    }

    /** Creates `n` drivers and puts each into the queue, in creation order. */
    constructor(n: nat)
      ensures Valid()
      ensures size == n && leased == {} && quit == []
      ensures |free| == n && forall i :: 0 <= i < n ==> free[i] == i
    {
      size := n;
      free := seq(n, i requires 0 <= i < n => i);
      leased := {};
      quit := [];
      new;
      assert Members(free) == Ids(n) by {
        forall d: Driver | d < n
          ensures d in Members(free)
        {
          assert free[d] == d;
        }
      }
    }

    /** `await queue.get()` on a non-empty queue: the head is leased. */
    method Get() returns (d: Driver)
      requires Valid() && free != []
      modifies this
      ensures Valid()
      ensures d == old(free)[0] && d !in old(leased)
      ensures free == old(free)[1..] && leased == old(leased) + {d} && quit == old(quit)
    {
      d := free[0];
      assert d in Members(free);
      free := free[1..];
      leased := leased + {d};
      assert Members(old(free)) == Members(free) + {d};
    }

    /** `queue.put(d)` / `put_nowait(d)` of a leased driver: it goes to the back of the queue. */
    method Put(d: Driver)
      requires Valid() && d in leased
      modifies this
      ensures Valid()
      ensures free == old(free) + [d] && leased == old(leased) - {d} && quit == old(quit)
    {
      assert d !in Members(free);
      free := free + [d];
      leased := leased - {d};
      assert Members(free) == Members(old(free)) + {d};
    }

    /**
      * `while not queue.empty(): queue.get().quit()`: every idle driver is quit
      * once, in queue order. With no lease outstanding that is every driver.
      */
    method QuitAll()
      requires Valid()
      modifies this
      ensures Valid()
      ensures free == [] && leased == old(leased) && quit == old(quit) + old(free)
      ensures old(leased) == {} ==> Members(quit) == Ids(size) && Distinct(quit) && |quit| == size
    {
      ghost var queued := free;
      var k := 0;
      while free != []
        invariant Valid() && leased == old(leased)
        invariant 0 <= k <= |queued| && free == queued[k..] && quit == old(quit) + queued[..k]
        decreases |free|
      {
        var d := free[0];
        assert d in Members(free);
        free := free[1..];
        quit := quit + [d];
        assert Members(free) + {d} == Members(queued[k..]);
        assert Members(quit) == Members(old(quit) + queued[..k]) + {d};
        assert queued[..k + 1] == queued[..k] + [d];
        k := k + 1;
      }
      assert queued[..k] == queued;
      if leased == {} {
        IdleCount(quit, size);
      }
    }
  }

  lemma HeadIsMember(s: seq<Driver>)
    ensures s != [] ==> s[0] in Members(s)
  {
  }

  /** A pool of `n` drivers with none leased holds `n` idle drivers. */
  lemma {:induction false} IdleCount(free: seq<Driver>, n: nat)
    requires Distinct(free) && Members(free) == Ids(n)
    ensures |free| == n
    decreases n
  {
    if n > 0 {
      assert n - 1 in Members(free);
      var i :| 0 <= i < |free| && free[i] == n - 1;
      var rest := free[..i] + free[i + 1..];
      RemoveAt(free, i);
      assert Members(rest) == Ids(n - 1);
      IdleCount(rest, n - 1);
    } else {
      HeadIsMember(free);
    }
  }

  /** Taking out the entry at `i` of a list without repeats removes exactly that driver and keeps it without repeats. */
  lemma RemoveAt(free: seq<Driver>, i: nat)
    requires Distinct(free) && i < |free|
    ensures var rest := free[..i] + free[i + 1..];
      |rest| == |free| - 1 && Distinct(rest) && Members(rest) == Members(free) - {free[i]}
  {
    var rest := free[..i] + free[i + 1..];
    assert forall a :: 0 <= a < |rest| ==> rest[a] == free[if a < i then a else a + 1];
    forall d | d in Members(rest)
      ensures d in Members(free) && d != free[i]
    {
      var a :| 0 <= a < |rest| && rest[a] == d;
    }
    forall d | d in Members(free) && d != free[i]
      ensures d in Members(rest)
    {
      var a :| 0 <= a < |free| && free[a] == d;
      assert rest[if a < i then a else a - 1] == d;
    }
  }

  /**
    * The idle drivers and the drivers leased by unfinished tasks together are
    * the whole pool, so the leases never outnumber the drivers.
    */
  lemma LeaseCount(free: seq<Driver>, running: seq<Driver>, n: nat)
    requires Distinct(free) && Distinct(running) && Members(free) !! Members(running)
    requires Members(free) + Members(running) == Ids(n)
    ensures |free| + |running| == n
  {
    var all := free + running;
    assert Members(all) == Members(free) + Members(running);
    assert Distinct(all) by {
      forall a, b | 0 <= a < b < |all|
        ensures all[a] != all[b]
      {
        if a < |free| && b >= |free| {
          assert all[a] in Members(free) && all[b] in Members(running);
        }
      }
    }
    IdleCount(all, n);
  }
}
