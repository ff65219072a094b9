/** The pool of io services, handed out in turn. */
module IoServicePool {
  import opened Sequences

  function Successor(cursor: nat, n: nat): nat { if cursor + 1 == n then 0 else cursor + 1 }

  /** The cursor after `k` calls. */
  function Cursor(start: nat, n: nat, k: nat): nat {
    if k == 0 then start else Successor(Cursor(start, n, k - 1), n)
  }

  /** How many calls from `start` pass before service `i` is handed out. */
  function Offset(start: nat, n: nat, i: nat): nat
    requires start < n && i < n
  {
    if start <= i then i - start else i + n - start
  }

  ghost predicate InTurn(handed: seq<nat>, start: nat, n: nat) {
    forall k :: 0 <= k < |handed| ==> handed[k] == Cursor(start, n, k)
  }

  function IsService(i: nat): nat -> bool { (x: nat) => x == i }

  lemma {:induction false} MoreRounds(a: nat, b: nat, n: nat)
    ensures a > b ==> a * n >= b * n + n
    decreases a
  {
    if a > b {
      assert a * n == (a - 1) * n + n;
      MoreRounds(a - 1, b, n);
    }
  }

  lemma DivModUnique(k: nat, n: nat, q: nat, r: nat)
    requires k == q * n + r && r < n
    ensures k / n == q && k % n == r
  {
    assert k == k / n * n + k % n;
    MoreRounds(k / n, q, n);
    MoreRounds(q, k / n, n);
  }

  /** One more call ends a round or lengthens it. */
  lemma DivModStep(k: nat, n: nat)
    requires n > 0
    ensures if k % n + 1 == n then (k + 1) / n == k / n + 1 && (k + 1) % n == 0
            else (k + 1) / n == k / n && (k + 1) % n == k % n + 1
  {
    var q, r := k / n, k % n;
    assert k == q * n + r;
    if r + 1 == n {
      assert (q + 1) * n == q * n + n;
      DivModUnique(k + 1, n, q + 1, 0);
    } else {
      DivModUnique(k + 1, n, q, r + 1);
    }
  }

  /** The cursor stands at the service whose turn comes after the calls of an unfinished round. */
  lemma {:induction false} CursorOffset(start: nat, n: nat, k: nat)
    requires start < n
    ensures Cursor(start, n, k) < n
    ensures Offset(start, n, Cursor(start, n, k)) == k % n
  {
    if k > 0 {
      CursorOffset(start, n, k - 1);
      DivModStep(k - 1, n);
    } else {
      DivModUnique(0, n, 0, 0);
    }
  }

  /** Fairness: in any stretch of calls each service is handed out once per full round and at most once
      more, the extra going to the services first in turn. */
  lemma {:induction false} Fair(handed: seq<nat>, start: nat, n: nat, i: nat)
    requires i < n && start < n && InTurn(handed, start, n)
    ensures Count(handed, IsService(i)) == |handed| / n + if Offset(start, n, i) < |handed| % n then 1 else 0
  {
    if handed == [] {
      DivModUnique(0, n, 0, 0);
    } else {
      var k := |handed| - 1;
      Fair(handed[..k], start, n, i);
      CursorOffset(start, n, k);
      DivModStep(k, n);
      assert handed[k] == Cursor(start, n, k);
    }
  }

  /** No two services' loads differ by more than one. */
  lemma Balanced(handed: seq<nat>, start: nat, n: nat, i: nat, j: nat)
    requires i < n && j < n && start < n && InTurn(handed, start, n)
    ensures Count(handed, IsService(i)) <= Count(handed, IsService(j)) + 1
  {
    Fair(handed, start, n, i);
    Fair(handed, start, n, j);
  }

  class IoServicePool {
    const services: seq<nat>
    var next: nat
    ghost var handed: seq<nat>

    /** Service k is the k-th created; they have been handed out in turn from the first. */
    ghost predicate Valid()
      reads this
    {
      && (forall k :: 0 <= k < |services| ==> services[k] == k)
      && (if |services| == 0 then next == 0 && handed == [] else next < |services|)
      && next == Cursor(0, |services|, |handed|)
      && InTurn(handed, 0, |services|)
    }

    constructor (poolSize: nat)
      ensures Valid() && |services| == poolSize && handed == []
    {
      var pool: seq<nat> := [];
      for i := 0 to poolSize
        invariant |pool| == i && forall k :: 0 <= k < i ==> pool[k] == k
      {
        pool := pool + [i];
      }
      services, next, handed := pool, 0, [];
    }

    method GetIoService() returns (service: nat)
      requires Valid() && |services| > 0
      modifies this
      ensures Valid() && handed == old(handed) + [service]
      ensures service == old(next) && next == Successor(old(next), |services|)
    {
      service := services[next];
      next := next + 1;
      if next == |services| {
        next := 0;
      }
      handed := handed + [service];
    }
  }
}
