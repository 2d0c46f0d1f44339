/** The engine of `src/ui.go` as the source runs it: the package-level
    lists as the fields of one object, and the packet loop body, written as
    the loops it is made of, proved to compute the specification of
    DiscoverySpec and to keep its invariant. */
module Discovery {
  import opened GoStrings
  import opened Wrappers
  import opened Packet
  import opened Slices
  import opened DiscoverySpec
  import DiscoveryProperties

  /** The test `HostMatches(name, "**._tcp.local") || HostMatches(name,
      "**._udp.local")` of source lines 127, 200, 221 and 228. */
  method ServicePattern(name: string) returns (r: bool)
    ensures r == IsServiceName(name)
  {
    var tcpPattern, udpPattern := "**._tcp.local", "**._udp.local";
    var tcp := HostMatches(name, tcpPattern);
    var udp := HostMatches(name, udpPattern);
    TcpPattern(name, tcpPattern);
    UdpPattern(name, udpPattern);
    r := tcp || udp;
  }

  /** The meta-PTR test of source line 193. */
  method MetaServicePattern(name: string) returns (r: bool)
    ensures r == IsMetaName(name)
  {
    var pattern := "_services._dns-sd._udp.local";
    r := HostMatches(name, pattern);
    MetaPattern(name, pattern);
  }

  /** The lookup and update of one queued record, source lines 250-260:
      an SRV or TXT fills in the first instance whose raw name is the
      record's owner; found tells whether there was one. */
  method ResolveDeferred(instances: seq<ServiceInstance>, rr: RR) returns (r: seq<ServiceInstance>, found: bool)
    ensures var idx := IndexOfKey(instances, RawNameOf, rr.Name);
      found == (idx >= 0) &&
      r == if found then instances[idx := Apply(instances[idx], rr)] else instances
  {
    var ownedBy := (si: ServiceInstance) => si.RawName == rr.Name;
    var idx;
    idx, found := FindInSlice(instances, ownedBy);
    FirstWhereIsIndexOfKey(instances, ownedBy, RawNameOf, rr.Name);
    r := instances;
    if found {
      match rr {
        case SRV(_, target, port) =>
          r := r[idx := r[idx].(Host := target, Port := port as int)];
        case TXT(_, txt) =>
          r := r[idx := r[idx].(Extras := txt)];
        case _ =>
      }
    }
  }

  // ---------------------------------------------------------------------
  // The engine

  class DiscoveryState {
    var serviceInstances: seq<ServiceInstance>
    var hosts: seq<Host>
    var serviceQueries: seq<ServiceQuery>
    var deferredRRs: seq<RR>

    function Snapshot(): State
      reads this
    {
      State(serviceInstances, hosts, serviceQueries, deferredRRs)
    }

    predicate Valid()
      reads this
    {
      Invariant(Snapshot())
    }

    /** The state `init` sets up before the capture starts. */
    constructor()
      ensures Snapshot() == State([], InitialHosts, [], [])
      ensures Valid()
    {
      serviceInstances := [];
      hosts := InitialHosts;
      serviceQueries := [];
      deferredRRs := [];
    }

    /** The question loop, source lines 124-140. */
    method TrackQuestion(src: string, question: Question)
      modifies this
      ensures Snapshot() == old(Snapshot()).(queries := old(serviceQueries) + QueryFor(src, question))
    {
      if question.Qtype == TypePTR {
        var service := ServicePattern(question.Name);
        if service {
          var nameParts := SplitHost(question.Name);
          serviceQueries := serviceQueries + [ServiceQuery(src, Join(nameParts[..|nameParts| - 1], '.'), question.Name)];
        }
      }
    }

    /** One iteration of the answer loop, source lines 190-243; false when
        the goroutine panics. */
    method RouteAnswer(rr: RR) returns (ok: bool)
      modifies this
      ensures ok == RouteRecord(old(Snapshot()), rr).Ok?
      ensures ok ==> Snapshot() == RouteRecord(old(Snapshot()), rr).value
    {
      match rr
      case PTR(name, ptr) =>
        ok := RoutePtr(name, ptr);
      case SRV(name, _, _) =>
        RouteDeferrable(rr);
        return true;
      case TXT(name, _) =>
        RouteDeferrable(rr);
        return true;
      case A(name, addr) =>
        RouteAddress(name, addr, true);
        return true;
      case AAAA(name, addr) =>
        RouteAddress(name, addr, false);
        return true;
      case OtherRR(_) =>
        return true;
    }

    /** The PTR case, source lines 191-218: meta PTRs and PTRs outside the
        service patterns are ignored, the others create the instance they
        point to unless it is known; a target of one label panics. */
    method RoutePtr(name: string, ptr: string) returns (ok: bool)
      modifies this
      ensures ok == RouteRecord(old(Snapshot()), PTR(name, ptr)).Ok?
      ensures ok ==> Snapshot() == RouteRecord(old(Snapshot()), PTR(name, ptr)).value
    {
      var meta := MetaServicePattern(name);
      if meta {
        return true;
      }
      var service := ServicePattern(name);
      if !service {
        return true;
      }
      var snameParts := SplitHost(ptr);
      if |snameParts| < 2 {
        return false;
      }
      var instance := ServiceInstance(snameParts[0], Join(snameParts[1..|snameParts| - 1], '.'),
        snameParts[|snameParts| - 1], "", 0, [], ptr);
      var canonical;
      serviceInstances, canonical := AppendToSliceIfAbsent(serviceInstances, instance, RawNameOf);
      return true;
    }

    /** The SRV and TXT cases, source lines 219-233: a record owned by a
        service instance name is queued unless one of the same owner is. */
    method RouteDeferrable(rr: RR)
      requires rr.SRV? || rr.TXT?
      modifies this
      ensures RouteRecord(old(Snapshot()), rr).Ok?
      ensures Snapshot() == RouteRecord(old(Snapshot()), rr).value
    {
      var service := ServicePattern(rr.Name);
      if service {
        var canonical;
        deferredRRs, canonical := AppendToSliceIfAbsent(deferredRRs, rr, Owner);
      }
    }

    /** The A and AAAA cases, source lines 235-242: the host of that name,
        created if missing, gets the address. */
    method RouteAddress(name: string, addr: string, v4: bool)
      modifies this
      ensures Snapshot() == old(Snapshot()).(hosts := SetAddress(old(hosts), name, addr, v4))
    {
      var hs, i := AppendToSliceIfAbsent(hosts, Host(name, "", ""), HostName);
      hosts := if v4 then hs[i := hs[i].(IPv4Addr := addr)] else hs[i := hs[i].(IPv6Addr := addr)];
    }

    /** The drain loop, source lines 248-268: `slices.Delete` and `i -= 1`
        on every record that found its instance. The loop works on local
        copies of the two lists, written back at the end. */
    method DrainDeferred()
      modifies this
      ensures var d := Drain(old(serviceInstances), old(deferredRRs));
        Snapshot() == old(Snapshot()).(instances := d.instances, deferred := d.kept)
    {
      var instances, deferred := serviceInstances, deferredRRs;
      ghost var s0, queue := Snapshot(), deferred;
      ghost var n := 0;
      ghost var d := Drain(s0.instances, []);
      var i := 0;
      while i < |deferred|
        invariant 0 <= n <= |queue| && d == Drain(s0.instances, queue[..n])
        invariant instances == d.instances && deferred == d.kept + queue[n..] && i == |d.kept|
        invariant Snapshot() == s0
        decreases |queue| - n
      {
        QueueAt(d.kept, queue, n);
        DrainExtend(s0.instances, queue, n);
        var found;
        instances, found := ResolveDeferred(instances, deferred[i]);
        if found {
          deferred := deferred[..i] + deferred[i + 1..];
          i := i - 1;
        }
        i := i + 1;
        n := n + 1;
        d := Drain(s0.instances, queue[..n]);
      }
      assert queue[..n] == queue;
      serviceInstances, deferredRRs := instances, deferred;
      assert Snapshot() == s0.(instances := d.instances, deferred := d.kept);
    }

    /** The loop over the packet's questions, source lines 124-140. */
    method TrackAll(src: string, questions: seq<Question>)
      modifies this
      ensures Snapshot() == old(Snapshot()).(queries := TrackQuestions(old(serviceQueries), src, questions))
    {
      ghost var s0 := Snapshot();
      for qi := 0 to |questions|
        invariant Snapshot() == s0.(queries := TrackQuestions(s0.queries, src, questions[..qi]))
      {
        assert questions[..qi + 1][..qi] == questions[..qi];
        TrackQuestion(src, questions[qi]);
      }
      assert questions[..|questions|] == questions;
    }

    /** The loop over the answer, additional and authority records, source
        lines 156-243; false when one of them panics. */
    method RouteAnswers(answers: seq<RR>) returns (ok: bool)
      modifies this
      ensures ok == RouteAll(old(Snapshot()), answers).Ok?
      ensures ok ==> Snapshot() == RouteAll(old(Snapshot()), answers).value
    {
      ghost var s1 := Snapshot();
      for ai := 0 to |answers|
        invariant RouteAll(s1, answers[..ai]) == Ok(Snapshot())
      {
        assert answers[..ai + 1][..ai] == answers[..ai];
        ok := RouteAnswer(answers[ai]);
        if !ok {
          RouteErrorEnds(s1, answers, ai + 1);
          return;
        }
      }
      assert answers[..|answers|] == answers;
      ok := true;
    }

    /** The body of the capture goroutine for one packet, source lines
        122-269; false when it panics. */
    method ProcessPacket(p: MDNSPacket) returns (ok: bool)
      modifies this
      ensures ok == Reconcile(old(Snapshot()), p).Ok?
      ensures ok ==> Snapshot() == Reconcile(old(Snapshot()), p).value
      ensures ok && old(Valid()) ==> Valid()
    {
      ghost var s0 := Snapshot();
      TrackAll(p.SrcAddr, p.DNS.Question);
      var answers := p.DNS.Answer;
      answers := answers + p.DNS.Extra;
      answers := answers + p.DNS.Ns;
      ok := RouteAnswers(answers);
      if !ok {
        return;
      }
      DrainDeferred();
      if Tidy(s0) {
        DiscoveryProperties.ReconcileKeepsInvariant(s0, p);
      }
    }

    /** serviceQueriesForHost, source lines 274-289: the queries sent from
        one of the host's addresses, first occurrence of each raw query
        only. */
    method ServiceQueriesForHost(host: Host) returns (res: seq<ServiceQuery>)
      ensures res == QueriesForHost(serviceQueries, host)
    {
      res := [];
      var seen: set<string> := {};
      for qi := 0 to |serviceQueries|
        invariant res == QueriesForHost(serviceQueries[..qi], host)
        invariant seen == RawQueries(res)
      {
        var query := serviceQueries[qi];
        assert serviceQueries[..qi + 1][..qi] == serviceQueries[..qi];
        if query.SourceAddr != host.IPv4Addr && query.SourceAddr != host.IPv6Addr {
          continue;
        }
        if query.RawQuery in seen {
          continue;
        }
        RawQueriesAppend(res, query);
        res := res + [query];
        seen := seen + {query.RawQuery};
      }
      assert serviceQueries[..|serviceQueries|] == serviceQueries;
    }
  }
}
