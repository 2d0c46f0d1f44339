/** What the reconciliation engine of `src/ui.go` computes, as functions:
    the per-packet body of the capture goroutine started in `init`, which
    folds decoded mDNS packets into the lists of service instances, hosts,
    service queries and the queue of SRV/TXT records still waiting for
    their instance, and `serviceQueriesForHost`. A decoded DNS message is an
    input value; a panic of the goroutine (a slice out of range) is an
    `Err`. */
module DiscoverySpec {
  import opened GoStrings
  import opened Wrappers
  import opened Packet
  import opened Slices

  newtype uint16 = x: int | 0 <= x < 0x1_0000

  datatype ServiceInstance = ServiceInstance(
    InstanceName: string,
    ServiceType: string,
    Domain: string,
    Host: string,
    Port: int,
    Extras: seq<string>,
    RawName: string)

  /** A host of the graph, without its on-screen position and velocity. */
  datatype Host = Host(Name: string, IPv4Addr: string, IPv6Addr: string)

  datatype ServiceQuery = ServiceQuery(SourceAddr: string, ServiceType: string, RawQuery: string)

  // The decoded DNS message, as far as the engine reads it.

  datatype Question = Question(Name: string, Qtype: uint16)

  /** A resource record; `Name` is the owner name of its header. */
  datatype RR =
    | PTR(Name: string, Ptr: string)
    | SRV(Name: string, Target: string, Port: uint16)
    | TXT(Name: string, Txt: seq<string>)
    | A(Name: string, Addr: string)
    | AAAA(Name: string, Addr: string)
    | OtherRR(Name: string)

  datatype Msg = Msg(Question: seq<Question>, Answer: seq<RR>, Ns: seq<RR>, Extra: seq<RR>)

  datatype MDNSPacket = MDNSPacket(SrcAddr: string, DstAddr: string, SrcPort: int, DstPort: int, DNS: Msg)

  /** The DNS type code of PTR. */
  const TypePTR: uint16 := 12

  /** Go's runtime error for `s[low:high]` with `low > high`. */
  datatype Panic = SliceBoundsOutOfRange(low: int, high: int)

  /** The engine's four lists. */
  datatype State = State(
    instances: seq<ServiceInstance>,
    hosts: seq<Host>,
    queries: seq<ServiceQuery>,
    deferred: seq<RR>)

  function RawNameOf(si: ServiceInstance): string { si.RawName }
  function HostName(h: Host): string { h.Name }
  function Owner(rr: RR): string { rr.Name }
  function RawQueryOf(q: ServiceQuery): string { q.RawQuery }

  // ---------------------------------------------------------------------
  // Which names the engine looks at

  /** The names that `**._tcp.local` or `**._udp.local` accepts: at least
      three labels, the last two a transport and `local`. */
  predicate IsServiceName(name: string)
  {
    var labels := SplitHost(name);
    |labels| >= 3 &&
    (labels[|labels| - 2..] == ["_tcp", "local"] || labels[|labels| - 2..] == ["_udp", "local"])
  }

  /** The names that `_services._dns-sd._udp.local` accepts. */
  predicate IsMetaName(name: string)
  {
    SplitHost(name) == ["_services", "_dns-sd", "_udp", "local"]
  }

  // ---------------------------------------------------------------------
  // Specification of one packet

  /** The query a question records, if any: PTR questions for DNS-SD
      service names, with the service type the name minus its domain. */
  function QueryFor(src: string, q: Question): seq<ServiceQuery>
  {
    if q.Qtype == TypePTR && IsServiceName(q.Name) then
      var labels := SplitHost(q.Name);
      [ServiceQuery(src, Join(labels[..|labels| - 1], '.'), q.Name)]
    else []
  }

  /** The query list after the question loop over `qs`. */
  function TrackQuestions(queries: seq<ServiceQuery>, src: string, qs: seq<Question>): seq<ServiceQuery>
  {
    if |qs| == 0 then queries
    else TrackQuestions(queries, src, qs[..|qs| - 1]) + QueryFor(src, qs[|qs| - 1])
  }

  /** The instance a PTR target names (section 4.1 of RFC 6763): first label
      the instance, last label the domain, the labels between them the
      service type. A one-label target panics on the slice `[1:0]`. */
  function NewInstance(ptr: string): Result<ServiceInstance, Panic>
  {
    var labels := SplitHost(ptr);
    if |labels| < 2 then Err(SliceBoundsOutOfRange(1, |labels| - 1))
    else Ok(ServiceInstance(labels[0], Join(labels[1..|labels| - 1], '.'), labels[|labels| - 1], "", 0, [], ptr))
  }

  /** The host list after an A (`v4`) or AAAA record: the host of that name,
      created if missing, gets the address; nothing else changes. */
  function SetAddress(hosts: seq<Host>, name: string, addr: string, v4: bool): seq<Host>
  {
    var hs := AppendedIfAbsent(hosts, Host(name, "", ""), HostName);
    var i := IndexOfKey(hs, HostName, name);
    hs[i := if v4 then hs[i].(IPv4Addr := addr) else hs[i].(IPv6Addr := addr)]
  }

  /** One iteration of the answer loop (source lines 190-243). */
  function RouteRecord(s: State, rr: RR): Result<State, Panic>
  {
    match rr
    case PTR(name, ptr) =>
      if IsMetaName(name) || !IsServiceName(name) then Ok(s)
      else (
        match NewInstance(ptr)
        case Err(e) => Err(e)
        case Ok(si) => Ok(s.(instances := AppendedIfAbsent(s.instances, si, RawNameOf))))
    case SRV(name, _, _) =>
      if IsServiceName(name) then Ok(s.(deferred := AppendedIfAbsent(s.deferred, rr, Owner))) else Ok(s)
    case TXT(name, _) =>
      if IsServiceName(name) then Ok(s.(deferred := AppendedIfAbsent(s.deferred, rr, Owner))) else Ok(s)
    case A(name, addr) => Ok(s.(hosts := SetAddress(s.hosts, name, addr, true)))
    case AAAA(name, addr) => Ok(s.(hosts := SetAddress(s.hosts, name, addr, false)))
    case OtherRR(_) => Ok(s)
  }

  /** The answer loop over `rrs`; the first panic ends it. */
  function RouteAll(s: State, rrs: seq<RR>): Result<State, Panic>
  {
    if |rrs| == 0 then Ok(s)
    else
      match RouteAll(s, rrs[..|rrs| - 1])
      case Err(e) => Err(e)
      case Ok(s') => RouteRecord(s', rrs[|rrs| - 1])
  }

  /** What a queued record does to its instance: an SRV sets Host and Port,
      a TXT replaces Extras. */
  function Apply(si: ServiceInstance, rr: RR): ServiceInstance
  {
    match rr
    case SRV(_, target, port) => si.(Host := target, Port := port as int)
    case TXT(_, txt) => si.(Extras := txt)
    case _ => si
  }

  datatype Drained = Drained(instances: seq<ServiceInstance>, kept: seq<RR>)

  /** The drain pass over `queue`: each record whose owner is the raw name of
      an instance is applied to the first such instance and dropped, the
      others are kept in order. */
  function Drain(insts: seq<ServiceInstance>, queue: seq<RR>): Drained
  {
    if |queue| == 0 then Drained(insts, [])
    else
      var d := Drain(insts, queue[..|queue| - 1]);
      var rr := queue[|queue| - 1];
      var i := IndexOfKey(d.instances, RawNameOf, rr.Name);
      if i >= 0 then Drained(d.instances[i := Apply(d.instances[i], rr)], d.kept)
      else Drained(d.instances, d.kept + [rr])
  }

  /** One packet: questions, then Answer, Extra and Ns records in that
      order, then the drain pass over the whole queue. */
  function Reconcile(s: State, p: MDNSPacket): Result<State, Panic>
  {
    var s1 := s.(queries := TrackQuestions(s.queries, p.SrcAddr, p.DNS.Question));
    match RouteAll(s1, p.DNS.Answer + p.DNS.Extra + p.DNS.Ns)
    case Err(e) => Err(e)
    case Ok(s2) =>
      var d := Drain(s2.instances, s2.deferred);
      Ok(s2.(instances := d.instances, deferred := d.kept))
  }

  /** The host list that `init` starts with. */
  const InitialHosts: seq<Host> := [Host("This PC", "", "")]

  // ---------------------------------------------------------------------
  // What every reachable state satisfies

  /** The instance the engine created for a raw name, before any SRV or
      TXT. */
  predicate FromPtr(si: ServiceInstance)
  {
    NewInstance(si.RawName) == Ok(si.(Host := "", Port := 0, Extras := []))
  }

  predicate Settled(insts: seq<ServiceInstance>, queue: seq<RR>)
  {
    forall i :: 0 <= i < |queue| ==> IndexOfKey(insts, RawNameOf, queue[i].Name) < 0
  }

  /** Everything the engine keeps true between records: one instance per
      raw name, each as its PTR created it apart from what SRV and TXT
      records set; one host per name, "This PC" first; one queued record
      per owner, each an SRV or TXT of a DNS-SD service name. */
  predicate Tidy(s: State)
  {
    && UniqueBy(s.instances, RawNameOf)
    && (forall i :: 0 <= i < |s.instances| ==> FromPtr(s.instances[i]) && 0 <= s.instances[i].Port < 0x1_0000)
    && UniqueBy(s.hosts, HostName)
    && |s.hosts| >= 1 && s.hosts[0].Name == "This PC"
    && UniqueBy(s.deferred, Owner)
    && (forall i :: 0 <= i < |s.deferred| ==> (s.deferred[i].SRV? || s.deferred[i].TXT?) && IsServiceName(s.deferred[i].Name))
  }

  /** What holds after every packet: in addition no queued record is waiting
      for an instance that exists. */
  predicate Invariant(s: State)
  {
    Tidy(s) && Settled(s.instances, s.deferred)
  }

  /** The queue during the drain pass: what was kept, then the records not
      yet looked at. */
  lemma QueueAt<T>(kept: seq<T>, queue: seq<T>, n: nat)
    requires n < |queue|
    ensures var q := kept + queue[n..];
      |kept| < |q| && q[|kept|] == queue[n] && q[..|kept|] == kept && q[|kept| + 1..] == queue[n + 1..] &&
      q == (kept + [queue[n]]) + queue[n + 1..]
  {
  }

  /** One more record for the drain pass. */
  lemma DrainExtend(insts: seq<ServiceInstance>, queue: seq<RR>, n: nat)
    requires n < |queue|
    ensures var d := Drain(insts, queue[..n]);
      var i := IndexOfKey(d.instances, RawNameOf, queue[n].Name);
      Drain(insts, queue[..n + 1]) ==
        if i >= 0 then Drained(d.instances[i := Apply(d.instances[i], queue[n])], d.kept)
        else Drained(d.instances, d.kept + [queue[n]])
  {
    assert queue[..n + 1][..n] == queue[..n];
  }

  /** A panic in the answer loop is the outcome of the whole loop. */
  lemma {:induction false} RouteErrorEnds(s: State, rrs: seq<RR>, m: nat)
    requires m <= |rrs| && RouteAll(s, rrs[..m]).Err?
    ensures RouteAll(s, rrs) == RouteAll(s, rrs[..m])
    decreases |rrs| - m
  {
    if m < |rrs| {
      var k := |rrs| - 1;
      assert rrs[..k][..m] == rrs[..m];
      RouteErrorEnds(s, rrs[..k], m);
    } else {
      assert rrs[..m] == rrs;
    }
  }

  // ---------------------------------------------------------------------
  // serviceQueriesForHost

  predicate FromHost(q: ServiceQuery, host: Host)
  {
    q.SourceAddr == host.IPv4Addr || q.SourceAddr == host.IPv6Addr
  }

  function RawQueries(qs: seq<ServiceQuery>): set<string>
  {
    set i | 0 <= i < |qs| :: qs[i].RawQuery
  }

  lemma RawQueriesAppend(qs: seq<ServiceQuery>, q: ServiceQuery)
    ensures RawQueries(qs + [q]) == RawQueries(qs) + {q.RawQuery}
  {
    var r := qs + [q];
    forall x | x in RawQueries(r) ensures x in RawQueries(qs) + {q.RawQuery} {
      var i :| 0 <= i < |r| && r[i].RawQuery == x;
      if i < |qs| { assert qs[i].RawQuery == x; }
    }
    forall x | x in RawQueries(qs) + {q.RawQuery} ensures x in RawQueries(r) {
      if x == q.RawQuery {
        assert r[|qs|].RawQuery == x;
      } else {
        var i :| 0 <= i < |qs| && qs[i].RawQuery == x;
        assert r[i].RawQuery == x;
      }
    }
  }

  /** The result of serviceQueriesForHost over the first queries. */
  function QueriesForHost(queries: seq<ServiceQuery>, host: Host): seq<ServiceQuery>
  {
    if |queries| == 0 then []
    else
      var res := QueriesForHost(queries[..|queries| - 1], host);
      var q := queries[|queries| - 1];
      if !FromHost(q, host) || q.RawQuery in RawQueries(res) then res else res + [q]
  }
}
