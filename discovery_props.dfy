/** Properties of the reconciliation engine of `src/ui.go`, stated about the
    functions of DiscoverySpec: what each kind of record does, what the
    drain pass does, that every packet keeps the engine's invariant, and
    what `serviceQueriesForHost` returns. */
module DiscoveryProperties {
  import opened GoStrings
  import opened Wrappers
  import opened Packet
  import opened Slices
  import opened DiscoverySpec

  // ---------------------------------------------------------------------
  // Questions

  /** The question loop only appends, and every query it appends comes from
      a PTR question of the packet for a DNS-SD service name, sent from the
      packet's source. */
  lemma {:induction false} TrackQuestionsAppends(queries: seq<ServiceQuery>, src: string, qs: seq<Question>)
    ensures var r := TrackQuestions(queries, src, qs);
      |queries| <= |r| <= |queries| + |qs| && r[..|queries|] == queries &&
      forall i :: |queries| <= i < |r| ==>
        r[i].SourceAddr == src && IsServiceName(r[i].RawQuery) &&
        exists j :: 0 <= j < |qs| && qs[j].Qtype == TypePTR && qs[j].Name == r[i].RawQuery
  {
    if |qs| > 0 {
      var pre := qs[..|qs| - 1];
      TrackQuestionsAppends(queries, src, pre);
      var r0 := TrackQuestions(queries, src, pre);
      var r := TrackQuestions(queries, src, qs);
      assert r == r0 + QueryFor(src, qs[|qs| - 1]);
      forall i | |queries| <= i < |r|
        ensures r[i].SourceAddr == src && IsServiceName(r[i].RawQuery) &&
          exists j :: 0 <= j < |qs| && qs[j].Qtype == TypePTR && qs[j].Name == r[i].RawQuery
      {
        if i < |r0| {
          assert r[i] == r0[i];
          var j :| 0 <= j < |pre| && pre[j].Qtype == TypePTR && pre[j].Name == r0[i].RawQuery;
          assert qs[j] == pre[j];
        } else {
          assert qs[|qs| - 1].Name == r[i].RawQuery;
        }
      }
    }
  }

  /** Every PTR question for a service name is recorded, with the service
      type the name's labels up to the transport: the type splits back into
      those labels and ends in `_tcp` or `_udp`. */
  lemma QueryServiceType(src: string, q: Question)
    requires q.Qtype == TypePTR && IsServiceName(q.Name)
    ensures |QueryFor(src, q)| == 1
    ensures var labels := SplitHost(q.Name);
      var types := Split(QueryFor(src, q)[0].ServiceType, '.');
      types == labels[..|labels| - 1] && (types[|types| - 1] == "_tcp" || types[|types| - 1] == "_udp")
  {
    var labels := SplitHost(q.Name);
    SplitPiecesWithoutSeparator(TrimRight(q.Name, '.'), '.');
    SplitJoin(labels[..|labels| - 1], '.');
  }

  // ---------------------------------------------------------------------
  // PTR records

  /** The meta-query name is itself a service name, so the engine must test
      it first to ignore it. */
  lemma MetaNameIsServiceName(name: string)
    requires IsMetaName(name)
    ensures IsServiceName(name)
  {
    var labels := SplitHost(name);
    assert labels[|labels| - 2..] == ["_udp", "local"];
  }

  /** A PTR for the meta-query name or for a name outside `_tcp.local` and
      `_udp.local` changes nothing. */
  lemma PtrIgnored(s: State, name: string, ptr: string)
    requires IsMetaName(name) || !IsServiceName(name)
    ensures RouteRecord(s, PTR(name, ptr)) == Ok(s)
  {
  }

  /** A PTR for a service name creates the instance its target names unless
      one with that raw name exists; a one-label target panics on `[1:0]`. */
  lemma PtrInstance(s: State, name: string, ptr: string)
    requires IsServiceName(name) && !IsMetaName(name)
    ensures var labels := SplitHost(ptr);
      var r := RouteRecord(s, PTR(name, ptr));
      && (|labels| < 2 <==> r.Err?)
      && (|labels| < 2 ==> r == Err(SliceBoundsOutOfRange(1, 0)))
      && (|labels| >= 2 && IndexOfKey(s.instances, RawNameOf, ptr) >= 0 ==> r == Ok(s))
      && (|labels| >= 2 && IndexOfKey(s.instances, RawNameOf, ptr) < 0 ==>
            r.Ok? && r.value.hosts == s.hosts && r.value.queries == s.queries && r.value.deferred == s.deferred &&
            |r.value.instances| == |s.instances| + 1 && r.value.instances[..|s.instances|] == s.instances &&
            var si := r.value.instances[|s.instances|];
            si.RawName == ptr && si.InstanceName == labels[0] && si.Domain == labels[|labels| - 1] &&
            si.ServiceType == Join(labels[1..|labels| - 1], '.') &&
            si.Host == "" && si.Port == 0 && si.Extras == [])
  {
  }

  /** The instance, service type and domain of a created instance give back
      the labels of its raw name. */
  lemma InstanceNameParts(ptr: string)
    requires |SplitHost(ptr)| >= 3
    ensures NewInstance(ptr).Ok?
    ensures var si := NewInstance(ptr).value;
      SplitHost(ptr) == [si.InstanceName] + Split(si.ServiceType, '.') + [si.Domain]
  {
    var labels := SplitHost(ptr);
    SplitPiecesWithoutSeparator(TrimRight(ptr, '.'), '.');
    SplitJoin(labels[1..|labels| - 1], '.');
    assert labels == [labels[0]] + labels[1..|labels| - 1] + [labels[|labels| - 1]];
  }

  // ---------------------------------------------------------------------
  // A and AAAA records

  /** An address record sets one address of the host of that name, creating
      the host at the end when it is missing; names keep their places and
      stay unique. */
  lemma SetAddressEffect(hosts: seq<Host>, name: string, addr: string, v4: bool)
    requires UniqueBy(hosts, HostName)
    ensures var r := SetAddress(hosts, name, addr, v4);
      var i := IndexOfKey(hosts, HostName, name);
      && UniqueBy(r, HostName)
      && (forall j :: 0 <= j < |hosts| ==> r[j].Name == hosts[j].Name)
      && (i >= 0 ==>
            |r| == |hosts| &&
            (forall j :: 0 <= j < |hosts| && j != i ==> r[j] == hosts[j]) &&
            r[i].Name == name &&
            r[i].IPv4Addr == (if v4 then addr else hosts[i].IPv4Addr) &&
            r[i].IPv6Addr == (if v4 then hosts[i].IPv6Addr else addr))
      && (i < 0 ==>
            r == hosts + [if v4 then Host(name, addr, "") else Host(name, "", addr)])
  {
    AppendedIfAbsentUnique(hosts, Host(name, "", ""), HostName);
  }

  // ---------------------------------------------------------------------
  // SRV and TXT records

  /** An SRV or TXT record for a name outside the service patterns is
      dropped; one for a service name is queued unless a record for the
      same owner is queued, whatever that record's type. */
  lemma QueueRecord(s: State, rr: RR)
    requires rr.SRV? || rr.TXT?
    ensures !IsServiceName(rr.Name) ==> RouteRecord(s, rr) == Ok(s)
    ensures IsServiceName(rr.Name) && IndexOfKey(s.deferred, Owner, rr.Name) >= 0 ==> RouteRecord(s, rr) == Ok(s)
    ensures IsServiceName(rr.Name) && IndexOfKey(s.deferred, Owner, rr.Name) < 0 ==>
      RouteRecord(s, rr) == Ok(s.(deferred := s.deferred + [rr]))
  {
  }

  /** The queue is keyed by owner name only: a TXT record is not queued
      after an SRV record of the same owner, nor the other way round. */
  lemma NameOnlyKeying(s: State, rr: RR, k: nat)
    requires rr.SRV? || rr.TXT?
    requires k < |s.deferred| && s.deferred[k].Name == rr.Name
    ensures RouteRecord(s, rr) == Ok(s)
  {
    assert Owner(s.deferred[k]) == rr.Name;
  }

  // ---------------------------------------------------------------------
  // The answer loop

  /** Only a PTR for a service name whose target has a single label can
      make the answer loop panic. */
  lemma {:induction false} RouteAllPanics(s: State, rrs: seq<RR>)
    requires RouteAll(s, rrs).Err?
    ensures RouteAll(s, rrs) == Err(SliceBoundsOutOfRange(1, 0))
    ensures exists i :: 0 <= i < |rrs| && rrs[i].PTR? && IsServiceName(rrs[i].Name) &&
                        !IsMetaName(rrs[i].Name) && |SplitHost(rrs[i].Ptr)| == 1
  {
    var pre := rrs[..|rrs| - 1];
    var last := rrs[|rrs| - 1];
    if RouteAll(s, pre).Err? {
      RouteAllPanics(s, pre);
      var i :| 0 <= i < |pre| && pre[i].PTR? && IsServiceName(pre[i].Name) &&
        !IsMetaName(pre[i].Name) && |SplitHost(pre[i].Ptr)| == 1;
      assert rrs[i] == pre[i];
    } else {
      assert RouteRecord(RouteAll(s, pre).value, last).Err?;
      assert last.PTR? && IsServiceName(last.Name) && !IsMetaName(last.Name) && |SplitHost(last.Ptr)| == 1;
    }
  }

  /** Routing a list of records in one loop is routing its two halves one
      after the other, so Answer, Extra and Ns records are taken in that
      order. */
  lemma {:induction false} RouteAllAppend(s: State, a: seq<RR>, b: seq<RR>)
    ensures RouteAll(s, a + b) ==
      match RouteAll(s, a)
      case Err(e) => Err(e)
      case Ok(s') => RouteAll(s', b)
  {
    if |b| == 0 {
      assert a + b == a;
    } else {
      var b' := b[..|b| - 1];
      RouteAllAppend(s, a, b');
      assert (a + b)[..|a + b| - 1] == a + b';
      assert (a + b)[|a + b| - 1] == b[|b| - 1];
    }
  }

  /** One record keeps everything the engine keeps true between records. */
  lemma RouteRecordTidy(s: State, rr: RR)
    requires Tidy(s) && RouteRecord(s, rr).Ok?
    ensures Tidy(RouteRecord(s, rr).value)
  {
    match rr
    case PTR(name, ptr) =>
      if !(IsMetaName(name) || !IsServiceName(name)) {
        NewInstanceTidy(s, NewInstance(ptr).value);
      }
    case SRV(_, _, _) =>
      if IsServiceName(rr.Name) { QueuedTidy(s, rr); }
    case TXT(_, _) =>
      if IsServiceName(rr.Name) { QueuedTidy(s, rr); }
    case A(name, addr) =>
      AddressTidy(s, name, addr, true);
    case AAAA(name, addr) =>
      AddressTidy(s, name, addr, false);
    case OtherRR(_) =>
  }

  lemma NewInstanceTidy(s: State, si: ServiceInstance)
    requires Tidy(s) && NewInstance(si.RawName) == Ok(si)
    ensures Tidy(s.(instances := AppendedIfAbsent(s.instances, si, RawNameOf)))
  {
    AppendedIfAbsentUnique(s.instances, si, RawNameOf);
    assert FromPtr(si);
  }

  lemma QueuedTidy(s: State, rr: RR)
    requires Tidy(s) && (rr.SRV? || rr.TXT?) && IsServiceName(rr.Name)
    ensures Tidy(s.(deferred := AppendedIfAbsent(s.deferred, rr, Owner)))
  {
    AppendedIfAbsentUnique(s.deferred, rr, Owner);
  }

  lemma AddressTidy(s: State, name: string, addr: string, v4: bool)
    requires Tidy(s)
    ensures Tidy(s.(hosts := SetAddress(s.hosts, name, addr, v4)))
  {
    SetAddressEffect(s.hosts, name, addr, v4);
  }

  lemma {:induction false} RouteAllTidy(s: State, rrs: seq<RR>)
    requires Tidy(s) && RouteAll(s, rrs).Ok?
    ensures Tidy(RouteAll(s, rrs).value)
  {
    if |rrs| > 0 {
      var pre := rrs[..|rrs| - 1];
      RouteAllTidy(s, pre);
      RouteRecordTidy(RouteAll(s, pre).value, rrs[|rrs| - 1]);
    }
  }

  // ---------------------------------------------------------------------
  // The drain pass

  /** The records of `queue` that no instance of `insts` claims, in order:
      an independent statement of what the drain pass keeps. */
  function Unmatched(insts: seq<ServiceInstance>, queue: seq<RR>): seq<RR>
  {
    if |queue| == 0 then []
    else
      var rr := queue[|queue| - 1];
      Unmatched(insts, queue[..|queue| - 1]) + (if IndexOfKey(insts, RawNameOf, rr.Name) < 0 then [rr] else [])
  }

  lemma {:induction false} UnmatchedFilters(insts: seq<ServiceInstance>, queue: seq<RR>)
    ensures IsSubsequence(Unmatched(insts, queue), queue)
    ensures forall i :: 0 <= i < |Unmatched(insts, queue)| ==>
      IndexOfKey(insts, RawNameOf, Unmatched(insts, queue)[i].Name) < 0
  {
    if |queue| > 0 {
      var pre := queue[..|queue| - 1];
      var rr := queue[|queue| - 1];
      UnmatchedFilters(insts, pre);
      var u := Unmatched(insts, pre);
      if IndexOfKey(insts, RawNameOf, rr.Name) < 0 {
        assert (u + [rr])[..|u|] == u;
      } else {
        assert Unmatched(insts, queue) == u;
      }
    }
  }

  /** The fields a PTR set and that no SRV or TXT record touches. */
  predicate SameIdentity(a: ServiceInstance, b: ServiceInstance)
  {
    a.InstanceName == b.InstanceName && a.ServiceType == b.ServiceType &&
    a.Domain == b.Domain && a.RawName == b.RawName
  }

  /** The drain pass neither adds nor removes instances, keeps what their
      PTR set and keeps ports in range; it keeps the unclaimed records, in
      queue order. */
  lemma {:induction false} DrainShape(insts: seq<ServiceInstance>, queue: seq<RR>)
    ensures var d := Drain(insts, queue);
      |d.instances| == |insts| && d.kept == Unmatched(insts, queue) &&
      forall j :: 0 <= j < |insts| ==>
        SameIdentity(d.instances[j], insts[j]) &&
        (0 <= insts[j].Port < 0x1_0000 ==> 0 <= d.instances[j].Port < 0x1_0000)
  {
    if |queue| > 0 {
      var pre := queue[..|queue| - 1];
      DrainShape(insts, pre);
      var d := Drain(insts, pre);
      IndexOfKeySameKeys(d.instances, insts, RawNameOf, queue[|queue| - 1].Name);
    }
  }

  /** After the drain pass no kept record has an instance to go to. */
  lemma DrainSettles(insts: seq<ServiceInstance>, queue: seq<RR>)
    ensures Settled(Drain(insts, queue).instances, Drain(insts, queue).kept)
  {
    var d := Drain(insts, queue);
    DrainShape(insts, queue);
    UnmatchedFilters(insts, queue);
    forall i | 0 <= i < |d.kept| ensures IndexOfKey(d.instances, RawNameOf, d.kept[i].Name) < 0 {
      IndexOfKeySameKeys(d.instances, insts, RawNameOf, d.kept[i].Name);
    }
  }

  /** With one instance per raw name and one queued record per owner, the
      drain pass gives each instance exactly what its own record carries,
      and leaves an instance without a record as it was. */
  lemma {:induction false} DrainApplies(insts: seq<ServiceInstance>, queue: seq<RR>)
    requires UniqueBy(insts, RawNameOf) && UniqueBy(queue, Owner)
    ensures |Drain(insts, queue).instances| == |insts|
    ensures forall j, q :: 0 <= j < |insts| && 0 <= q < |queue| && queue[q].Name == insts[j].RawName ==>
      Drain(insts, queue).instances[j] == Apply(insts[j], queue[q])
    ensures forall j :: 0 <= j < |insts| && (forall q :: 0 <= q < |queue| ==> queue[q].Name != insts[j].RawName) ==>
      Drain(insts, queue).instances[j] == insts[j]
  {
    DrainShape(insts, queue);
    if |queue| > 0 {
      var pre := queue[..|queue| - 1];
      var rr := queue[|queue| - 1];
      assert UniqueBy(pre, Owner);
      DrainApplies(insts, pre);
      DrainShape(insts, pre);
      var d := Drain(insts, pre);
      IndexOfKeySameKeys(d.instances, insts, RawNameOf, rr.Name);
      var i := IndexOfKey(insts, RawNameOf, rr.Name);
      var r := Drain(insts, queue).instances;
      forall j, q | 0 <= j < |insts| && 0 <= q < |queue| && queue[q].Name == insts[j].RawName
        ensures r[j] == Apply(insts[j], queue[q])
      {
        if q == |queue| - 1 {
          IndexOfKeyUnique(insts, RawNameOf, j);
          forall q' | 0 <= q' < |pre| ensures pre[q'].Name != insts[j].RawName {
            assert Owner(queue[q']) != Owner(queue[q]);
          }
        } else {
          assert pre[q] == queue[q];
        }
      }
      forall j | 0 <= j < |insts| && (forall q :: 0 <= q < |queue| ==> queue[q].Name != insts[j].RawName)
        ensures r[j] == insts[j]
      {
        assert forall q :: 0 <= q < |pre| ==> pre[q] == queue[q];
        assert rr.Name != insts[j].RawName;
      }
    }
  }

  /** The drain pass takes an engine state that is tidy to one that also
      has nothing left to drain. */
  lemma DrainInvariant(s: State)
    requires Tidy(s)
    ensures var d := Drain(s.instances, s.deferred);
      Invariant(s.(instances := d.instances, deferred := d.kept))
  {
    DrainedInstances(s.instances, s.deferred);
    DrainedQueue(s.instances, s.deferred);
    DrainSettles(s.instances, s.deferred);
  }

  /** The records the drain pass keeps are as tidy as the queue was. */
  lemma DrainedQueue(insts: seq<ServiceInstance>, queue: seq<RR>)
    requires UniqueBy(queue, Owner)
    requires forall i :: 0 <= i < |queue| ==> (queue[i].SRV? || queue[i].TXT?) && IsServiceName(queue[i].Name)
    ensures var k := Drain(insts, queue).kept;
      UniqueBy(k, Owner) && forall i :: 0 <= i < |k| ==> (k[i].SRV? || k[i].TXT?) && IsServiceName(k[i].Name)
  {
    var k := Drain(insts, queue).kept;
    DrainShape(insts, queue);
    UnmatchedFilters(insts, queue);
    SubsequenceKeeps(k, queue, Owner);
    forall i | 0 <= i < |k| ensures (k[i].SRV? || k[i].TXT?) && IsServiceName(k[i].Name) {
      var j :| 0 <= j < |queue| && queue[j] == k[i];
    }
  }

  /** The instances after the drain pass are as tidy as before. */
  lemma DrainedInstances(insts: seq<ServiceInstance>, queue: seq<RR>)
    requires UniqueBy(insts, RawNameOf)
    requires forall i :: 0 <= i < |insts| ==> FromPtr(insts[i]) && 0 <= insts[i].Port < 0x1_0000
    ensures var r := Drain(insts, queue).instances;
      UniqueBy(r, RawNameOf) && forall i :: 0 <= i < |r| ==> FromPtr(r[i]) && 0 <= r[i].Port < 0x1_0000
  {
    var r := Drain(insts, queue).instances;
    DrainShape(insts, queue);
    forall j | 0 <= j < |r| ensures FromPtr(r[j]) {
      assert r[j].(Host := "", Port := 0, Extras := []) == insts[j].(Host := "", Port := 0, Extras := []);
    }
    forall i, j | 0 <= i < j < |r| ensures RawNameOf(r[i]) != RawNameOf(r[j]) {
      assert RawNameOf(insts[i]) != RawNameOf(insts[j]);
    }
  }

  // ---------------------------------------------------------------------
  // A whole packet

  /** The engine starts in a state that satisfies the invariant. */
  lemma InitialInvariant()
    ensures Invariant(State([], InitialHosts, [], []))
  {
  }

  /** One advertisement reaching an engine that knows no instance and has
      nothing queued, and has not seen the advertised host yet (the initial
      state, for any host other than "This PC"): a PTR for a service type in
      the Answer section, the SRV of the instance it names and the A record
      of the SRV's target in the Extra section. The packet leaves one
      instance carrying the SRV's host and port, an empty queue, and the
      host with its IPv4 address appended. */
  lemma AdvertisementScenario(s: State, p: MDNSPacket, svc: string, inst: string, target: string, port: uint16, addr: string)
    requires s.instances == [] && s.deferred == [] && p.DNS.Question == []
    requires UniqueBy(s.hosts, HostName) && IndexOfKey(s.hosts, HostName, target) < 0
    requires IsServiceName(svc) && !IsMetaName(svc) && IsServiceName(inst)
    requires p.DNS.Answer == [PTR(svc, inst)] && p.DNS.Ns == []
    requires p.DNS.Extra == [SRV(inst, target, port), A(target, addr)]
    ensures var r := Reconcile(s, p);
      && r.Ok?
      && r.value.instances == [NewInstance(inst).value.(Host := target, Port := port as int)]
      && r.value.deferred == []
      && r.value.hosts == s.hosts + [Host(target, addr, "")]
      && r.value.queries == s.queries
  {
    var ptr, srv, a := PTR(svc, inst), SRV(inst, target, port), A(target, addr);
    assert p.DNS.Answer + p.DNS.Extra + p.DNS.Ns == [ptr, srv, a];
    AdvertisementRoutes(s, svc, inst, target, port, addr);
    DrainOne(NewInstance(inst).value, srv);
  }

  /** The answer loop of that advertisement: the PTR creates the instance,
      the SRV is queued and the A record appends the host. */
  lemma AdvertisementRoutes(s: State, svc: string, inst: string, target: string, port: uint16, addr: string)
    requires s.instances == [] && s.deferred == []
    requires UniqueBy(s.hosts, HostName) && IndexOfKey(s.hosts, HostName, target) < 0
    requires IsServiceName(svc) && !IsMetaName(svc) && IsServiceName(inst)
    ensures NewInstance(inst).Ok?
    ensures RouteAll(s, [PTR(svc, inst), SRV(inst, target, port), A(target, addr)]) ==
      Ok(s.(instances := [NewInstance(inst).value], deferred := [SRV(inst, target, port)],
            hosts := s.hosts + [Host(target, addr, "")]))
  {
    var ptr, srv, a := PTR(svc, inst), SRV(inst, target, port), A(target, addr);
    PtrInstance(s, svc, inst);
    var sA := s.(instances := [NewInstance(inst).value]);
    QueueRecord(sA, srv);
    var sB := sA.(deferred := [srv]);
    SetAddressEffect(s.hosts, target, addr, true);
    RouteThree(s, ptr, srv, a, sA, sB, sB.(hosts := s.hosts + [Host(target, addr, "")]));
  }

  /** Three records routed one after the other. */
  lemma RouteThree(s: State, r1: RR, r2: RR, r3: RR, s1: State, s2: State, s3: State)
    requires RouteRecord(s, r1) == Ok(s1) && RouteRecord(s1, r2) == Ok(s2) && RouteRecord(s2, r3) == Ok(s3)
    ensures RouteAll(s, [r1, r2, r3]) == Ok(s3)
  {
    RouteOneMore(s, [], r1, s);
    assert [] + [r1] == [r1];
    RouteOneMore(s, [r1], r2, s1);
    assert [r1] + [r2] == [r1, r2];
    RouteOneMore(s, [r1, r2], r3, s2);
    assert [r1, r2] + [r3] == [r1, r2, r3];
  }

  /** The answer loop after one more record. */
  lemma RouteOneMore(s: State, rrs: seq<RR>, rr: RR, s': State)
    requires RouteAll(s, rrs) == Ok(s')
    ensures RouteAll(s, rrs + [rr]) == RouteRecord(s', rr)
  {
    assert (rrs + [rr])[..|rrs|] == rrs;
  }

  /** A queued record whose owner is the raw name of the only instance is
      applied to it and leaves the queue. */
  lemma DrainOne(si: ServiceInstance, rr: RR)
    requires si.RawName == rr.Name
    ensures Drain([si], [rr]) == Drained([Apply(si, rr)], [])
  {
    assert [rr][..0] == [];
    assert IndexOfKey([si], RawNameOf, rr.Name) == 0;
  }

  /** A packet that does not panic takes a tidy state, in particular any
      state satisfying the invariant, to one that satisfies the invariant. */
  lemma ReconcileKeepsInvariant(s: State, p: MDNSPacket)
    requires Tidy(s) && Reconcile(s, p).Ok?
    ensures Invariant(Reconcile(s, p).value)
  {
    var s1 := s.(queries := TrackQuestions(s.queries, p.SrcAddr, p.DNS.Question));
    var rrs := p.DNS.Answer + p.DNS.Extra + p.DNS.Ns;
    assert Tidy(s1);
    RouteAllTidy(s1, rrs);
    DrainInvariant(RouteAll(s1, rrs).value);
  }

  /** A packet panics when, and only when, its answer loop meets a PTR for
      a service name whose target has one label. */
  lemma ReconcilePanics(s: State, p: MDNSPacket)
    ensures var s1 := s.(queries := TrackQuestions(s.queries, p.SrcAddr, p.DNS.Question));
      Reconcile(s, p).Err? <==> RouteAll(s1, p.DNS.Answer + p.DNS.Extra + p.DNS.Ns).Err?
    ensures Reconcile(s, p).Err? ==> Reconcile(s, p) == Err(SliceBoundsOutOfRange(1, 0))
  {
    var s1 := s.(queries := TrackQuestions(s.queries, p.SrcAddr, p.DNS.Question));
    var rrs := p.DNS.Answer + p.DNS.Extra + p.DNS.Ns;
    if RouteAll(s1, rrs).Err? {
      RouteAllPanics(s1, rrs);
    }
  }

  // ---------------------------------------------------------------------
  // serviceQueriesForHost

  lemma {:induction false} QueriesForHostShape(queries: seq<ServiceQuery>, host: Host)
    ensures var r := QueriesForHost(queries, host);
      IsSubsequence(r, queries) && UniqueBy(r, RawQueryOf) &&
      forall i :: 0 <= i < |r| ==> FromHost(r[i], host)
  {
    if |queries| > 0 {
      var pre := queries[..|queries| - 1];
      var q := queries[|queries| - 1];
      QueriesForHostShape(pre, host);
      var res := QueriesForHost(pre, host);
      if FromHost(q, host) && q.RawQuery !in RawQueries(res) {
        assert (res + [q])[..|res|] == res;
        forall i | 0 <= i < |res| ensures RawQueryOf(res[i]) != RawQueryOf(q) {
          assert res[i].RawQuery in RawQueries(res);
        }
      } else if |res| > 0 {
        assert IsSubsequence(res, pre);
      }
    }
  }

  /** The answers for the first queries are the first answers. */
  lemma {:induction false} QueriesForHostPrefix(queries: seq<ServiceQuery>, host: Host, m: nat)
    requires m <= |queries|
    ensures var r := QueriesForHost(queries, host); var r' := QueriesForHost(queries[..m], host);
      |r'| <= |r| && r[..|r'|] == r'
    decreases |queries| - m
  {
    if m < |queries| {
      var k := |queries| - 1;
      assert queries[..k][..m] == queries[..m];
      QueriesForHostPrefix(queries[..k], host, m);
    } else {
      assert queries[..m] == queries;
    }
  }

  /** serviceQueriesForHost keeps every query from the host whose raw query
      has not come earlier, and only these: each raw query of the host is
      answered once, by its first occurrence. */
  lemma QueriesForHostFirst(queries: seq<ServiceQuery>, host: Host, i: nat)
    requires i < |queries| && FromHost(queries[i], host)
    ensures var r := QueriesForHost(queries, host);
      exists k :: 0 <= k < |r| && r[k].RawQuery == queries[i].RawQuery
    ensures (forall j :: 0 <= j < i ==> !(FromHost(queries[j], host) && queries[j].RawQuery == queries[i].RawQuery)) ==>
      queries[i] in QueriesForHost(queries, host)
  {
    var q := queries[i];
    var pre := queries[..i];
    var res := QueriesForHost(pre, host);
    assert queries[..i + 1][..i] == pre;
    QueriesForHostPrefix(queries, host, i + 1);
    var r := QueriesForHost(queries, host);
    var r1 := QueriesForHost(queries[..i + 1], host);
    if q.RawQuery in RawQueries(res) {
      var k :| 0 <= k < |res| && res[k].RawQuery == q.RawQuery;
      assert r1 == res;
      assert r[k] == res[k];
      QueriesForHostShape(pre, host);
      SubsequenceKeeps(res, pre, RawQueryOf);
      var j :| 0 <= j < |pre| && pre[j] == res[k];
      assert FromHost(queries[j], host) && queries[j].RawQuery == q.RawQuery;
    } else {
      assert r1 == res + [q];
      assert r[|res|] == q;
    }
  }
}
