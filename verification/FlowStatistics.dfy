/** The connection count and the packet counters of the TCP proxy, printed and cleared once a window. */
module FlowStatistics {
  import opened Sequences

  /** What a session does to the statistics. */
  datatype Effect = Connected | Disconnected | Packet(description: string)

  /** `printed` keeps the counters of every window that was reported and cleared. */
  datatype Stats = Stats(count: int, packets: map<string, nat>, printed: seq<map<string, nat>>)

  const NO_STATS := Stats(0, map[], [])

  function Is(e: Effect): Effect -> bool { (x: Effect) => x == e }

  function At(m: map<string, nat>, k: string): nat { if k in m then m[k] else 0 }

  function Apply(s: Stats, e: Effect): Stats {
    match e
    case Connected => s.(count := s.count + 1)
    case Disconnected => s.(count := s.count - 1)
    case Packet(k) => s.(packets := s.packets[k := At(s.packets, k) + 1])
  }

  function ApplyAll(s: Stats, es: seq<Effect>): Stats {
    if es == [] then s else Apply(ApplyAll(s, es[..|es| - 1]), es[|es| - 1])
  }

  function Report(s: Stats): Stats { s.(packets := map[], printed := s.printed + [s.packets]) }

  /** All the packets ever counted under `k`: the printed windows and the current one. */
  function Total(s: Stats, k: string): nat {
    Sum(seq(|s.printed|, i requires 0 <= i < |s.printed| => At(s.printed[i], k))) + At(s.packets, k)
  }

  lemma ApplySnoc(s: Stats, es: seq<Effect>, e: Effect)
    ensures ApplyAll(s, es + [e]) == Apply(ApplyAll(s, es), e)
  {
    assert (es + [e])[..|es|] == es;
  }

  lemma ApplyFew(s: Stats, e: Effect, f: Effect)
    ensures ApplyAll(s, []) == s
    ensures ApplyAll(s, [e]) == Apply(s, e)
    ensures ApplyAll(s, [e] + [f]) == Apply(Apply(s, e), f)
  {
    ApplySnoc(s, [], e);
    ApplySnoc(s, [e], f);
    assert [] + [e] == [e];
  }

  lemma {:induction false} ApplyAppend(s: Stats, es: seq<Effect>, fs: seq<Effect>)
    ensures ApplyAll(s, es + fs) == ApplyAll(ApplyAll(s, es), fs)
  {
    if fs == [] {
      assert es + fs == es;
    } else {
      ApplyAppend(s, es, fs[..|fs| - 1]);
      assert (es + fs)[..|es + fs| - 1] == es + fs[..|fs| - 1];
    }
  }

  lemma ApplyCons(s: Stats, e: Effect, es: seq<Effect>)
    ensures ApplyAll(s, [e] + es) == ApplyAll(Apply(s, e), es)
  {
    ApplyAppend(s, [e], es);
    ApplyFew(s, e, e);
  }

  /** Clearing the counters loses no packet. */
  lemma ReportKeepsTotals(s: Stats, k: string)
    ensures Total(Report(s), k) == Total(s, k)
  {
    var was := seq(|s.printed|, i requires 0 <= i < |s.printed| => At(s.printed[i], k));
    var r := Report(s);
    var now := seq(|r.printed|, i requires 0 <= i < |r.printed| => At(r.printed[i], k));
    assert now == was + [At(s.packets, k)];
    SumSnoc(was, At(s.packets, k));
  }

  /** Every effect is counted: the total under a description grows by its packets, and the connection
      count by connections less disconnections. */
  lemma {:induction false} EffectsAreCounted(s: Stats, es: seq<Effect>, k: string)
    ensures Total(ApplyAll(s, es), k) == Total(s, k) + Count(es, Is(Packet(k)))
    ensures ApplyAll(s, es).count == s.count + Count(es, Is(Connected)) - Count(es, Is(Disconnected))
    ensures ApplyAll(s, es).printed == s.printed
  {
    if es != [] { EffectsAreCounted(s, es[..|es| - 1], k); }
  }

  class TcpFlowStatistics {
    var count: int
    var packetCount: map<string, nat>
    ghost var printed: seq<map<string, nat>>

    ghost function View(): Stats
      reads this
    {
      Stats(count, packetCount, printed)
    }

    constructor ()
      ensures View() == NO_STATS
    {
      count, packetCount, printed := 0, map[], [];
    }

    method IncrementConnection()
      modifies this
      ensures View() == Apply(old(View()), Connected)
      ensures count == old(count) + 1 && packetCount == old(packetCount) && printed == old(printed)
    {
      count := count + 1;
    }

    method SubtractConnection()
      modifies this
      ensures View() == Apply(old(View()), Disconnected)
      ensures count == old(count) - 1 && packetCount == old(packetCount) && printed == old(printed)
    {
      count := count - 1;
    }

    method IncrementPacket(description: string)
      modifies this
      ensures View() == Apply(old(View()), Packet(description))
      ensures count == old(count) && printed == old(printed)
      ensures packetCount == old(packetCount)[description := At(old(packetCount), description) + 1]
    {
      if description !in packetCount {
        packetCount := packetCount[description := 0];
      }
      packetCount := packetCount[description := packetCount[description] + 1];
    }

    /** Print a window and clear it: every total is what it was. */
    method PrintPacketCount() returns (window: map<string, nat>)
      modifies this
      ensures View() == Report(old(View())) && window == old(packetCount)
      ensures packetCount == map[] && printed == old(printed) + [window] && count == old(count)
      ensures forall k :: Total(View(), k) == Total(old(View()), k)
    {
      window := packetCount;
      packetCount := map[];
      printed := printed + [window];
      forall k
        ensures Total(View(), k) == Total(old(View()), k)
      {
        ReportKeepsTotals(old(View()), k);
      }
    }
  }
}
