/**
 * Port reconciliation: for every network mapping, find the port on the
 * mapped network that carries the mapped MAC address, or create it.
 * Re-running reconciliation must reuse what an earlier run created.
 */
module Ports {
  import opened Wrappers
  import opened Cloud
  import opened Inventory
  import opened Results

  /** Canonical text of the nil UUID: a mapping with this subnet asks for an unmanaged port. */
  const NilUuid: string := "00000000-0000-0000-0000-000000000000"

  /** A user-supplied mapping: target network, target subnet (possibly nil), optional fixed IP.
      Identifiers are held in their canonical text form. */
  datatype NetworkMapping = NetworkMapping(networkId: string, subnetId: string, ipAddress: Option<string>)

  /** One (MAC address, mapping) pair of the mapping table, in the order the table is iterated. */
  datatype MappingEntry = MappingEntry(mac: string, mapping: NetworkMapping)

  predicate Unmanaged(m: NetworkMapping) {
    m.subnetId == NilUuid
  }

  /** The card index built over the VM's cards in device order: a later card overwrites
      an earlier one with the same MAC address. */
  function CardsByMac(nics: seq<EthernetCard>): map<string, EthernetCard>
    decreases |nics|
  {
    if nics == [] then map[]
    else
      var last := nics[|nics| - 1];
      CardsByMac(nics[..|nics| - 1])[last.macAddress := last]
  }

  /** `nics[i]` is the last card in device order with its MAC address. */
  predicate LastWithMac(nics: seq<EthernetCard>, i: int) {
    0 <= i < |nics| && forall j :: i < j < |nics| ==> nics[j].macAddress != nics[i].macAddress
  }

  /** The index knows exactly the MAC addresses of the VM's cards, and maps each to
      the last card carrying it. */
  lemma {:induction false} CardsByMacLastWins(nics: seq<EthernetCard>, mac: string)
    ensures mac in CardsByMac(nics) <==> exists i :: 0 <= i < |nics| && nics[i].macAddress == mac
    ensures mac in CardsByMac(nics) ==>
              exists i :: LastWithMac(nics, i) && nics[i] == CardsByMac(nics)[mac] && nics[i].macAddress == mac
    decreases |nics|
  {
    if nics != [] {
      var n := |nics| - 1;
      var prefix := nics[..n];
      CardsByMacLastWins(prefix, mac);
      assert forall i :: 0 <= i < n ==> prefix[i] == nics[i];
      if nics[n].macAddress == mac {
        assert LastWithMac(nics, n);
      } else if mac in CardsByMac(prefix) {
        var i :| LastWithMac(prefix, i) && prefix[i] == CardsByMac(prefix)[mac] && prefix[i].macAddress == mac;
        assert LastWithMac(nics, i);
      }
    }
  }

  /** The port listing for one mapping: its network and its MAC address. */
  function PortQuery(e: MappingEntry): PortListOpts {
    PortListOpts(e.mapping.networkId, e.mac)
  }

  /** The body of the port creation for a mapping with no port yet. */
  function PortCreateOptsFor(mac: string, m: NetworkMapping, card: EthernetCard,
                             securityGroups: Option<seq<string>>): (o: PortCreateBody)
    ensures o.networkId == m.networkId && o.macAddress == mac
    // a fixed-IP request exactly for a managed port, on the mapped subnet, with the mapped address if any
    ensures |o.fixedIps| <= 1 && (o.fixedIps == [] <==> Unmanaged(m))
    ensures forall ip :: ip in o.fixedIps ==> ip.subnetId == m.subnetId && ip.ipAddress == m.ipAddress
    // an unmanaged port carries no security groups, name or description
    ensures Unmanaged(m) ==> o.securityGroups.None? && o.name == "" && o.description == ""
    ensures !Unmanaged(m) ==>
              o.securityGroups == securityGroups && o.name == card.deviceLabel && o.description == card.deviceSummary
  {
    var opts := PortCreateBody(m.networkId, mac, [], None, "", "");
    if Unmanaged(m) then opts
    else
      var ips := if m.ipAddress.None? then [FixedIp(m.subnetId, None)]
                 else [FixedIp(m.subnetId, Some(m.ipAddress.value))];
      opts.(fixedIps := ips, securityGroups := securityGroups,
            name := card.deviceLabel, description := card.deviceSummary)
  }

  /** What a part of port reconciliation returns, the port table it leaves, and its requests. */
  datatype PortRun<T> = PortRun(result: Result<T, Error>, ports: seq<Port>, trace: seq<Request>)

  predicate CreatesPort(trace: seq<Request>) {
    exists k :: 0 <= k < |trace| && trace[k].PortCreateRequest?
  }

  /** One iteration of the mapping loop of `EnsurePortsForVirtualMachine`. */
  function EnsurePort(faults: set<Request>, mint: nat -> string, ports: seq<Port>,
                      cards: map<string, EthernetCard>, e: MappingEntry,
                      securityGroups: Option<seq<string>>): (r: PortRun<Network>)
    // an unknown MAC address fails before any request
    ensures e.mac !in cards ==> r == PortRun(Err(NoNicForMac(e.mac)), ports, [])
    // at most one port is created, for this network and MAC, and only when none had them
    ensures r.ports == ports
            || (&& |r.ports| == |ports| + 1 && r.ports[..|ports|] == ports
                && PortKey(r.ports[|ports|]) == PortQuery(e) && FilterPorts(ports, PortQuery(e)) == [])
  {
    if e.mac !in cards then PortRun(Err(NoNicForMac(e.mac)), ports, [])
    else
      var q := PortQuery(e);
      match ListPortsAnswer(faults, ports, q)
      case Err(err) => PortRun(Err(Upstream(err)), ports, [PortListRequest(q)])
      case Ok(found) =>
        if |found| == 0 then
          var opts := PortCreateOptsFor(e.mac, e.mapping, cards[e.mac], securityGroups);
          var trace := [PortListRequest(q), PortCreateRequest(opts)];
          match CreatePortAnswer(faults, mint, ports, opts)
          case Err(err) => PortRun(Err(Upstream(err)), ports, trace)
          case Ok(p) =>
            assert (ports + [p])[..|ports|] == ports;
            PortRun(Ok(Network(p.id)), ports + [p], trace)
        else if |found| == 1 then PortRun(Ok(Network(found[0].id)), ports, [PortListRequest(q)])
        else PortRun(Err(MultiplePorts), ports, [PortListRequest(q)])
  }

  /** The zero/one/many rule for one mapping: no match requests exactly one port creation, a
      single match is reused as it is, several are an error, and a refused listing or creation
      is returned unchanged; on success the port named is the only one on the mapping's network
      with the mapping's MAC address. */
  lemma EnsurePortDecision(faults: set<Request>, mint: nat -> string, ports: seq<Port>,
                           cards: map<string, EthernetCard>, e: MappingEntry,
                           securityGroups: Option<seq<string>>)
    ensures var r := EnsurePort(faults, mint, ports, cards, e, securityGroups);
            var q := PortQuery(e);
            && (e.mac in cards ==> 0 < |r.trace| && r.trace[0] == PortListRequest(q))
            && (CreatesPort(r.trace) <==> e.mac in cards && ListPortsAnswer(faults, ports, q) == Ok([]))
            && (CreatesPort(r.trace) ==>
                  r.trace == [PortListRequest(q), PortCreateRequest(PortCreateOptsFor(e.mac, e.mapping, cards[e.mac], securityGroups))])
            && (e.mac in cards && PortListRequest(q) !in faults && |FilterPorts(ports, q)| == 1 ==>
                  r == PortRun(Ok(Network(FilterPorts(ports, q)[0].id)), ports, [PortListRequest(q)]))
            && (r.result == Err(MultiplePorts) <==>
                  e.mac in cards && PortListRequest(q) !in faults && |FilterPorts(ports, q)| > 1)
            && (r.result.Ok? ==>
                  && e.mac in cards && PortListRequest(q) !in faults
                  && |FilterPorts(r.ports, q)| == 1 && FilterPorts(r.ports, q)[0].id == r.result.value.port)
            // a refused listing ends the mapping with its own error, and nothing is created
            && (e.mac in cards && PortListRequest(q) in faults ==>
                  r == PortRun(Err(Upstream(CloudError(PortListRequest(q)))), ports, [PortListRequest(q)]))
            // a refused creation is returned as it is and leaves the table as it was; an accepted
            // one returns the new port, which is appended to the table
            && (e.mac in cards && ListPortsAnswer(faults, ports, q) == Ok([]) ==>
                  var opts := PortCreateOptsFor(e.mac, e.mapping, cards[e.mac], securityGroups);
                  && (PortCreateRequest(opts) in faults ==>
                        r.result == Err(Upstream(CloudError(PortCreateRequest(opts)))) && r.ports == ports)
                  && (PortCreateRequest(opts) !in faults ==>
                        r.result == Ok(Network(mint(|ports|))) && r.ports == ports + [NewPort(mint, ports, opts)]))
  {
    var r := EnsurePort(faults, mint, ports, cards, e, securityGroups);
    var q := PortQuery(e);
    if e.mac in cards && ListPortsAnswer(faults, ports, q) == Ok([]) {
      assert r.trace[1].PortCreateRequest?;
      if r.result.Ok? {
        FilterPortsAppend(ports, [r.ports[|ports|]], q);
        assert r.ports == ports + [r.ports[|ports|]];
      }
    }
  }

  /** The mapping loop of `EnsurePortsForVirtualMachine`, from the table `ports` on. */
  function EnsurePorts(faults: set<Request>, mint: nat -> string, ports: seq<Port>,
                       cards: map<string, EthernetCard>, entries: seq<MappingEntry>,
                       securityGroups: Option<seq<string>>): (r: PortRun<seq<Network>>)
    decreases |entries|
    // one network per mapping
    ensures r.result.Ok? ==> |r.result.value| == |entries|
    // ports are only ever added, at most one per mapping
    ensures |ports| <= |r.ports| <= |ports| + |entries| && r.ports[..|ports|] == ports
  {
    if entries == [] then PortRun(Ok([]), ports, [])
    else
      var step := EnsurePort(faults, mint, ports, cards, entries[0], securityGroups);
      if step.result.Err? then PortRun(Err(step.result.error), step.ports, step.trace)
      else
        var rest := EnsurePorts(faults, mint, step.ports, cards, entries[1..], securityGroups);
        assert rest.ports[..|ports|] == rest.ports[..|step.ports|][..|ports|];
        PortRun(Then([step.result.value], rest.result), rest.ports, step.trace + rest.trace)
  }

  /** A failed run stops at the first mapping that fails. Every earlier mapping succeeded, and
      the ports created for them stay in the table. The failing mapping's error and requests
      end the run, so no later mapping is listed or created. */
  lemma {:induction false} EnsurePortsStopsAtFirstFailure(faults: set<Request>, mint: nat -> string, ports: seq<Port>,
                                                          cards: map<string, EthernetCard>, entries: seq<MappingEntry>,
                                                          securityGroups: Option<seq<string>>)
    returns (k: nat)
    requires EnsurePorts(faults, mint, ports, cards, entries, securityGroups).result.Err?
    ensures k < |entries|
    ensures var r := EnsurePorts(faults, mint, ports, cards, entries, securityGroups);
            var prefix := EnsurePorts(faults, mint, ports, cards, entries[..k], securityGroups);
            var step := EnsurePort(faults, mint, prefix.ports, cards, entries[k], securityGroups);
            && prefix.result.Ok? && step.result.Err?
            && r.result == Err(step.result.error) && r.trace == prefix.trace + step.trace
            // the failing mapping creates nothing; the ports of the earlier mappings stay
            && r.ports == step.ports == prefix.ports
    decreases |entries|
  {
    var step := EnsurePort(faults, mint, ports, cards, entries[0], securityGroups);
    if step.result.Err? {
      k := 0;
      assert EnsurePorts(faults, mint, ports, cards, entries[..0], securityGroups) == PortRun(Ok([]), ports, []);
    } else {
      var rest := EnsurePorts(faults, mint, step.ports, cards, entries[1..], securityGroups);
      assert EnsurePorts(faults, mint, ports, cards, entries, securityGroups)
             == PortRun(Then([step.result.value], rest.result), rest.ports, step.trace + rest.trace);
      var j := EnsurePortsStopsAtFirstFailure(faults, mint, step.ports, cards, entries[1..], securityGroups);
      k := j + 1;
      var restPrefix := EnsurePorts(faults, mint, step.ports, cards, entries[1..][..j], securityGroups);
      var prefix := EnsurePorts(faults, mint, ports, cards, entries[..k], securityGroups);
      assert prefix == PortRun(Then([step.result.value], restPrefix.result), restPrefix.ports, step.trace + restPrefix.trace) by {
        assert entries[..k][0] == entries[0] && entries[..k][1..] == entries[1..][..j];
      }
      var last := EnsurePort(faults, mint, restPrefix.ports, cards, entries[1..][j], securityGroups);
      assert entries[k] == entries[1..][j];
      LogExtends(step.trace, restPrefix.trace, step.trace + restPrefix.trace, last.trace,
                 (step.trace + restPrefix.trace) + last.trace);
    }
  }

  /** What a run from mapping `i` on leaves of `spec`, once `networks` were found with the
      requests `done`: the invariant of the mapping loop. */
  predicate RunContinues(spec: PortRun<seq<Network>>, faults: set<Request>, mint: nat -> string, ports: seq<Port>,
                         cards: map<string, EthernetCard>, entries: seq<MappingEntry>, i: nat,
                         securityGroups: Option<seq<string>>, networks: seq<Network>, done: seq<Request>)
    requires i <= |entries|
  {
    var rest := EnsurePorts(faults, mint, ports, cards, entries[i..], securityGroups);
    spec == PortRun(Then(networks, rest.result), rest.ports, done + rest.trace)
  }

  /** The mapping loop starts with the whole run ahead and ends with the run's own result. */
  lemma RunContinuesBounds(faults: set<Request>, mint: nat -> string, ports: seq<Port>,
                           cards: map<string, EthernetCard>, entries: seq<MappingEntry>,
                           securityGroups: Option<seq<string>>, spec: PortRun<seq<Network>>,
                           networks: seq<Network>, done: seq<Request>)
    ensures spec == EnsurePorts(faults, mint, ports, cards, entries, securityGroups) ==>
              RunContinues(spec, faults, mint, ports, cards, entries, 0, securityGroups, [], [])
    ensures RunContinues(spec, faults, mint, ports, cards, entries, |entries|, securityGroups, networks, done) ==>
              spec == PortRun(Ok(networks), ports, done)
  {
    assert entries[0..] == entries && entries[|entries|..] == [];
    assert [] + spec.trace == spec.trace && networks + [] == networks && done + [] == done;
    ThenNothing(spec.result);
  }

  /** One turn of the mapping loop: a failing mapping ends the run with its error, a
      successful one adds its network and requests and moves on. */
  lemma RunContinuesStep(faults: set<Request>, mint: nat -> string, ports: seq<Port>,
                         cards: map<string, EthernetCard>, entries: seq<MappingEntry>, i: nat,
                         securityGroups: Option<seq<string>>, spec: PortRun<seq<Network>>,
                         networks: seq<Network>, done: seq<Request>)
    requires i < |entries|
    requires RunContinues(spec, faults, mint, ports, cards, entries, i, securityGroups, networks, done)
    ensures var step := EnsurePort(faults, mint, ports, cards, entries[i], securityGroups);
            && (step.result.Err? ==> spec == PortRun(Err(step.result.error), step.ports, done + step.trace))
            && (step.result.Ok? ==>
                  RunContinues(spec, faults, mint, step.ports, cards, entries, i + 1, securityGroups,
                               networks + [step.result.value], done + step.trace))
  {
    var step := EnsurePort(faults, mint, ports, cards, entries[i], securityGroups);
    var rest := EnsurePorts(faults, mint, step.ports, cards, entries[i + 1..], securityGroups);
    assert entries[i..][0] == entries[i] && entries[i..][1..] == entries[i + 1..];
    if step.result.Ok? {
      ThenThen(networks, [step.result.value], rest.result);
      assert done + (step.trace + rest.trace) == (done + step.trace) + rest.trace;
    }
  }

  /** Every port a run creates is the first of its network and MAC address: reconciliation
      never creates a duplicate of a port already in the table. */
  lemma {:induction false} EnsurePortsCreatesNoDuplicate(faults: set<Request>, mint: nat -> string, ports: seq<Port>,
                                                         cards: map<string, EthernetCard>, entries: seq<MappingEntry>,
                                                         securityGroups: Option<seq<string>>, k: int)
    requires |ports| <= k < |EnsurePorts(faults, mint, ports, cards, entries, securityGroups).ports|
    ensures var after := EnsurePorts(faults, mint, ports, cards, entries, securityGroups).ports;
            FilterPorts(after[..k], PortKey(after[k])) == []
    decreases |entries|
  {
    var step := EnsurePort(faults, mint, ports, cards, entries[0], securityGroups);
    var after := EnsurePorts(faults, mint, ports, cards, entries, securityGroups).ports;
    if step.result.Ok? {
      var rest := EnsurePorts(faults, mint, step.ports, cards, entries[1..], securityGroups);
      assert after == rest.ports;
      if k >= |step.ports| {
        EnsurePortsCreatesNoDuplicate(faults, mint, step.ports, cards, entries[1..], securityGroups, k);
      } else {
        // k == |ports|: the port created for entries[0], created because none matched
        assert after[..k] == ports by {
          assert after[..|step.ports|] == step.ports;
          assert after[..k] == after[..|step.ports|][..k];
        }
        assert after[k] == step.ports[k];
        assert FilterPorts(ports, PortQuery(entries[0])) == [] by {
          EnsurePortDecision(faults, mint, ports, cards, entries[0], securityGroups);
        }
      }
    }
  }

  /** No port before `after[k]` has its network and MAC address. */
  predicate FirstOfKey(after: seq<Port>, k: int)
    requires 0 <= k < |after|
  {
    FilterPorts(after[..k], PortKey(after[k])) == []
  }

  /** Appending ports that each are the first of their (network, MAC) pair leaves the
      listing of a pair that already had a port as it was. */
  lemma {:induction false} FirstsKeepMatches(ports: seq<Port>, after: seq<Port>, q: PortListOpts)
    requires |ports| <= |after| && after[..|ports|] == ports
    requires forall k :: |ports| <= k < |after| ==> FirstOfKey(after, k)
    requires FilterPorts(ports, q) != []
    ensures FilterPorts(after, q) == FilterPorts(ports, q)
  {
    var added := after[|ports|..];
    assert after == ports + added;
    FilterPortsAppend(ports, added, q);
    if FilterPorts(added, q) != [] {
      var p := FilterPorts(added, q)[0];
      assert p in added && PortMatches(p, q);
      var j :| 0 <= j < |added| && added[j] == p;
      var k := |ports| + j;
      LaterFirstMissesMatch(ports, after, q, k);
      assert false;
    }
  }

  /** A port appended after `ports` that is the first of its pair is not on a pair that
      already has a port in `ports`. */
  lemma LaterFirstMissesMatch(ports: seq<Port>, after: seq<Port>, q: PortListOpts, k: int)
    requires |ports| <= k < |after| && after[..|ports|] == ports
    requires FirstOfKey(after, k)
    requires FilterPorts(ports, q) != []
    ensures PortKey(after[k]) != q
  {
    var m := FilterPorts(ports, q)[0];
    assert m in ports && PortMatches(m, q);
    var i :| 0 <= i < |ports| && ports[i] == m;
    assert after[..k][i] == m;
    assert m in FilterPorts(after[..k], q);
  }

  /** A run adds no port to a (network, MAC) pair that already has one. */
  lemma {:induction false} EnsurePortsKeepsMatches(faults: set<Request>, mint: nat -> string, ports: seq<Port>,
                                                   cards: map<string, EthernetCard>, entries: seq<MappingEntry>,
                                                   securityGroups: Option<seq<string>>, q: PortListOpts)
    requires FilterPorts(ports, q) != []
    ensures FilterPorts(EnsurePorts(faults, mint, ports, cards, entries, securityGroups).ports, q) == FilterPorts(ports, q)
  {
    var after := EnsurePorts(faults, mint, ports, cards, entries, securityGroups).ports;
    forall k | |ports| <= k < |after|
      ensures FirstOfKey(after, k)
    {
      EnsurePortsCreatesNoDuplicate(faults, mint, ports, cards, entries, securityGroups, k);
    }
    FirstsKeepMatches(ports, after, q);
  }

  /** After a successful run, every mapping's port is the one and only port on the mapping's
      network with the mapping's MAC address, and every listing of the run was answered. */
  lemma {:induction false} EnsurePortsSettles(faults: set<Request>, mint: nat -> string, ports: seq<Port>,
                                              cards: map<string, EthernetCard>, entries: seq<MappingEntry>,
                                              securityGroups: Option<seq<string>>, i: int)
    requires 0 <= i < |entries|
    requires EnsurePorts(faults, mint, ports, cards, entries, securityGroups).result.Ok?
    ensures var r := EnsurePorts(faults, mint, ports, cards, entries, securityGroups);
            && entries[i].mac in cards
            && PortListRequest(PortQuery(entries[i])) !in faults
            && |FilterPorts(r.ports, PortQuery(entries[i]))| == 1
            && FilterPorts(r.ports, PortQuery(entries[i]))[0].id == r.result.value[i].port
    decreases |entries|
  {
    var step := EnsurePort(faults, mint, ports, cards, entries[0], securityGroups);
    var rest := EnsurePorts(faults, mint, step.ports, cards, entries[1..], securityGroups);
    assert EnsurePorts(faults, mint, ports, cards, entries, securityGroups)
           == PortRun(Ok([step.result.value] + rest.result.value), rest.ports, step.trace + rest.trace);
    EnsurePortDecision(faults, mint, ports, cards, entries[0], securityGroups);
    if i > 0 {
      EnsurePortsSettles(faults, mint, step.ports, cards, entries[1..], securityGroups, i - 1);
      assert entries[1..][i - 1] == entries[i];
    } else {
      EnsurePortsKeepsMatches(faults, mint, step.ports, cards, entries[1..], securityGroups, PortQuery(entries[0]));
    }
  }

  /** The requests of a run in which every mapping reuses its port: one listing per mapping. */
  function Listings(entries: seq<MappingEntry>): (trace: seq<Request>)
    ensures |trace| == |entries| && !CreatesPort(trace)
    ensures forall i :: 0 <= i < |entries| ==> trace[i] == PortListRequest(PortQuery(entries[i]))
  {
    if entries == [] then [] else [PortListRequest(PortQuery(entries[0]))] + Listings(entries[1..])
  }

  /** A run over a table where every mapping already has its single port reuses them all. */
  lemma {:induction false} EnsurePortsReuses(faults: set<Request>, mint: nat -> string, ports: seq<Port>,
                                             cards: map<string, EthernetCard>, entries: seq<MappingEntry>,
                                             securityGroups: Option<seq<string>>, networks: seq<Network>)
    requires |networks| == |entries|
    requires forall i :: 0 <= i < |entries| ==> Reusable(faults, ports, cards, entries[i], networks[i])
    ensures EnsurePorts(faults, mint, ports, cards, entries, securityGroups) == PortRun(Ok(networks), ports, Listings(entries))
    decreases |entries|
  {
    if entries != [] {
      var step := EnsurePort(faults, mint, ports, cards, entries[0], securityGroups);
      EnsurePortReusesMatch(faults, mint, ports, cards, entries[0], securityGroups, networks[0]);
      forall i | 0 <= i < |entries| - 1
        ensures Reusable(faults, ports, cards, entries[1..][i], networks[1..][i])
      {
        assert entries[1..][i] == entries[i + 1] && networks[1..][i] == networks[i + 1];
      }
      EnsurePortsReuses(faults, mint, ports, cards, entries[1..], securityGroups, networks[1..]);
      var rest := EnsurePorts(faults, mint, ports, cards, entries[1..], securityGroups);
      assert [networks[0]] + networks[1..] == networks;
      assert step.trace + rest.trace == Listings(entries);
    }
  }

  /** The mapping `e` is known, its listing is answered, and its network already has exactly one
      port with its MAC address: the port of `network`. */
  predicate Reusable(faults: set<Request>, ports: seq<Port>, cards: map<string, EthernetCard>,
                     e: MappingEntry, network: Network)
  {
    && e.mac in cards
    && PortListRequest(PortQuery(e)) !in faults
    && |FilterPorts(ports, PortQuery(e))| == 1
    && FilterPorts(ports, PortQuery(e))[0].id == network.port
  }

  /** A mapping whose network already has its single port with the mapping's MAC address
      reuses it after one listing. */
  lemma EnsurePortReusesMatch(faults: set<Request>, mint: nat -> string, ports: seq<Port>,
                              cards: map<string, EthernetCard>, e: MappingEntry, securityGroups: Option<seq<string>>,
                              network: Network)
    requires Reusable(faults, ports, cards, e, network)
    ensures EnsurePort(faults, mint, ports, cards, e, securityGroups) == PortRun(Ok(network), ports, [PortListRequest(PortQuery(e))])
  {
  }

  /** Idempotence: running reconciliation again, with nothing changed in between, returns the
      same networks, creates no port and only lists. */
  lemma {:induction false} EnsurePortsIdempotent(faults: set<Request>, mint: nat -> string, ports: seq<Port>,
                              cards: map<string, EthernetCard>, entries: seq<MappingEntry>,
                              securityGroups: Option<seq<string>>)
    requires EnsurePorts(faults, mint, ports, cards, entries, securityGroups).result.Ok?
    ensures var first := EnsurePorts(faults, mint, ports, cards, entries, securityGroups);
            var second := EnsurePorts(faults, mint, first.ports, cards, entries, securityGroups);
            second.result == first.result && second.ports == first.ports && !CreatesPort(second.trace)
  {
    var first := EnsurePorts(faults, mint, ports, cards, entries, securityGroups);
    forall i | 0 <= i < |entries|
      ensures && entries[i].mac in cards
              && PortListRequest(PortQuery(entries[i])) !in faults
              && |FilterPorts(first.ports, PortQuery(entries[i]))| == 1
              && FilterPorts(first.ports, PortQuery(entries[i]))[0].id == first.result.value[i].port
    {
      EnsurePortsSettles(faults, mint, ports, cards, entries, securityGroups, i);
    }
    EnsurePortsReuses(faults, mint, first.ports, cards, entries, securityGroups, first.result.value);
  }

  /** Idempotence in any order: the mappings are a Go map, so a second call may walk them in
      another order, or over a subset. After a successful run, a second run over any such
      sequence of mappings succeeds, only lists, creates no port, leaves the table, and gives
      each mapping the same port the first run gave it. */
  lemma EnsurePortsIdempotentAnyOrder(faults: set<Request>, mint: nat -> string, ports: seq<Port>,
                                      cards: map<string, EthernetCard>, entries: seq<MappingEntry>,
                                      reordered: seq<MappingEntry>, securityGroups: Option<seq<string>>)
    requires EnsurePorts(faults, mint, ports, cards, entries, securityGroups).result.Ok?
    requires forall i :: 0 <= i < |reordered| ==> reordered[i] in entries
    ensures var first := EnsurePorts(faults, mint, ports, cards, entries, securityGroups);
            var second := EnsurePorts(faults, mint, first.ports, cards, reordered, securityGroups);
            && second.result.Ok? && second.ports == first.ports && second.trace == Listings(reordered)
            && !CreatesPort(second.trace)
            && (forall i, j :: 0 <= i < |reordered| && 0 <= j < |entries| && reordered[i] == entries[j] ==>
                  second.result.value[i] == first.result.value[j])
  {
    var first := EnsurePorts(faults, mint, ports, cards, entries, securityGroups);
    var networks := seq(|reordered|, i requires 0 <= i < |reordered| =>
                          Network(if |FilterPorts(first.ports, PortQuery(reordered[i]))| == 1
                                  then FilterPorts(first.ports, PortQuery(reordered[i]))[0].id else ""));
    forall i | 0 <= i < |reordered|
      ensures Reusable(faults, first.ports, cards, reordered[i], networks[i])
    {
      var j :| 0 <= j < |entries| && entries[j] == reordered[i];
      EnsurePortsSettles(faults, mint, ports, cards, entries, securityGroups, j);
    }
    EnsurePortsReuses(faults, mint, first.ports, cards, reordered, securityGroups, networks);
    forall i, j | 0 <= i < |reordered| && 0 <= j < |entries| && reordered[i] == entries[j]
      ensures networks[i] == first.result.value[j]
    {
      EnsurePortsSettles(faults, mint, ports, cards, entries, securityGroups, j);
    }
  }
}
