/** Ensuring an NVMe-oF subsystem is not repeated once the subsystem exists. */
module NvmeListeners {
  import opened Model
  import opened Ensure

  /** Listeners are added in order until the first one that fails. */
  lemma {:induction false} ListenersPrefix(s: Spdk, nqn: string, listeners: seq<string>, n: nat,
          w: Wire) returns (done: nat)
    requires n <= |listeners| && nqn in s.subsystems
    ensures done <= n
    ensures var a := Listeners(s, nqn, listeners, n, w);
      && a.s.transport == s.transport
      && a.s.subsystems[nqn].listeners == s.subsystems[nqn].listeners + listeners[..done]
      && (a.ok <==> done == n)
      && (done < n <==> (!s.transport && n > 0) || exists i: nat :: i < n && !w.Up(AddListener(i)))
    decreases n
  {
    if n == 0 { return 0; }
    done := ListenersPrefix(s, nqn, listeners, n - 1, w);
    var a := Listeners(s, nqn, listeners, n - 1, w);
    if a.ok && w.Up(AddListener(n - 1)) && s.transport {
      done := n;
      assert listeners[..n] == listeners[..n - 1] + [listeners[n - 1]];
    } else if a.ok && s.transport {
      assert !w.Up(AddListener(n - 1));
    }
  }

  function ListenersOf(s: Spdk, nqn: string): seq<string> {
    if nqn in s.subsystems then s.subsystems[nqn].listeners else []
  }

  /** An export with no failing call leaves the endpoint's listeners on its subsystem if and only if
      the subsystem did not exist, or had exactly those listeners already. */
  lemma CleanExportListensIff(s: Spdk, ep: Endpoint, w: Wire)
    requires ep.target != "" && w.Clean()
    ensures NvmeExport(s, ep, w).ok
    ensures ListenersOf(NvmeExport(s, ep, w).s, ep.target) == ep.listeners <==>
      ep.target !in s.subsystems || s.subsystems[ep.target].listeners == ep.listeners
  {
    assert w.Up(CreateTransport) && w.Up(FindSubsystem) && w.Up(CreateSubsystem);
    if ep.target !in s.subsystems {
      var made := Transport(s, w).s.(subsystems := s.subsystems[ep.target := Subsystem([], map[])]);
      var done := ListenersPrefix(made, ep.target, ep.listeners, |ep.listeners|, w);
      assert forall i: nat :: w.Up(AddListener(i));
      assert ep.listeners[..done] == ep.listeners;
    }
  }

  /** A listener that fails when the subsystem is made is not retried: the export reports an error,
      the subsystem keeps the listeners before it, and no later export changes that, even one with
      no failing call. */
  lemma FailedListenerSticks(s: Spdk, ep: Endpoint, w: Wire, i: nat, w': Wire)
    requires ep.target != "" && ep.target !in s.subsystems && i < |ep.listeners|
    requires w.Up(CreateTransport) && w.Up(FindSubsystem) && w.Up(CreateSubsystem) && !w.Up(AddListener(i))
    ensures var first := NvmeExport(s, ep, w);
      && !first.ok && ep.target in first.s.subsystems
      && ListenersOf(first.s, ep.target) < ep.listeners
      && ListenersOf(NvmeExport(first.s, ep, w').s, ep.target) == ListenersOf(first.s, ep.target)
  {
    var made := Transport(s, w).s.(subsystems := s.subsystems[ep.target := Subsystem([], map[])]);
    var done := ListenersPrefix(made, ep.target, ep.listeners, |ep.listeners|, w);
    hide Listeners;
  }
}
