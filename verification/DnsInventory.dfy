/** Which names a run wants (`_server_label`, `build_inventory` in register_private_dns.py). */
module DnsInventory {
  import opened Wrappers
  import opened PythonText
  import opened DnsNames
  import opened DnsSlots

  const DNS_NAME_MAX: nat := 254

  datatype Server = Server(id: string, name: string, deleting: bool, nics: seq<Nic>)

  datatype Wanted = Wanted(fqdn: string, address: string, serverName: string, serverId: string)

  datatype Inventory = Inventory(desired: map<string, Wanted>, serverNames: set<string>)

  function ServerLabel(server: Server): string {
    Lower(Strip(server.name))
  }

  /** The result of the loop over the slots of one server. */
  function AddSlots(id: string, host: string, zone: string, prefixes: seq<string>, slots: seq<Slot>,
                    desired: map<string, Wanted>)
    : Result<map<string, Wanted>, Fault>
    requires |slots| <= |prefixes|
    decreases |slots|
  {
    if slots == [] then Ok(desired)
    else
      var fqdn := Fqdn(host, prefixes[0], zone);
      if |fqdn| > DNS_NAME_MAX then Err(NameTooLong)
      else
        AddSlots(id, host, zone, prefixes[1..], slots[1..],
                 if slots[0].address == "" then desired else desired[fqdn := Wanted(fqdn, slots[0].address, host, id)])
  }

  /** The result of the loop over the servers, for one of them. */
  function AddServer(server: Server, prefixes: seq<string>, zone: string, inv: Inventory): Result<Inventory, Fault> {
    var host := ServerLabel(server);
    if server.deleting then Ok(inv)
    else if !IsDnsLabel(host) then Err(BadServerName)
    else if host in inv.serverNames then Err(DuplicateServer)
    else if !AllAllowed(Slots(server.nics)) then Err(BadAddress)
    else if |Slots(server.nics)| > |prefixes| then Err(TooManySlots)
    else
      match AddSlots(server.id, host, zone, prefixes, Slots(server.nics), inv.desired)
      case Ok(desired) => Ok(Inventory(desired, inv.serverNames + {host}))
      case Err(fault) => Err(fault)
  }

  function AddServers(servers: seq<Server>, prefixes: seq<string>, zone: string,
                      inv: Inventory): Result<Inventory, Fault> {
    if servers == [] then Ok(inv)
    else match AddServer(servers[0], prefixes, zone, inv)
      case Ok(next) => AddServers(servers[1..], prefixes, zone, next)
      case Err(fault) => Err(fault)
  }

  function Built(servers: seq<Server>, prefixes: seq<string>, zone: string): Result<Inventory, Fault> {
    match NormalizeZone(zone)
    case None => Err(BadZone)
    case Some(normal) => AddServers(servers, prefixes, normal, Inventory(map[], {}))
  }

  method BuildInventory(servers: seq<Server>, prefixes: seq<string>, zone: string) returns (r: Result<Inventory, Fault>)
    ensures r == Built(servers, prefixes, zone)
  {
    hide AddServer, NormalizeZone;
    var normal := NormalizeZone(zone);
    if normal.None? {
      return Err(BadZone);
    }
    var inv := Inventory(map[], {});
    assert servers[0..] == servers;
    for i := 0 to |servers|
      invariant AddServers(servers[i..], prefixes, normal.value, inv) == Built(servers, prefixes, zone)
    {
      assert servers[i..][1..] == servers[i + 1..] && servers[i..][0] == servers[i];
      var next := OneServer(servers[i], prefixes, normal.value, inv);
      if next.Err? {
        return next;
      }
      inv := next.value;
    }
    return Ok(inv);
  }

  /** The body of the loop over the servers. */
  method OneServer(server: Server, prefixes: seq<string>, zone: string, inv: Inventory)
    returns (r: Result<Inventory, Fault>)
    ensures r == AddServer(server, prefixes, zone, inv)
  {
    hide IsDnsLabel, AllAllowed, Slots, ServerLabel;
    if server.deleting {
      return Ok(inv);
    }
    var host := ServerLabel(server);
    if !IsDnsLabel(host) {
      return Err(BadServerName);
    }
    if host in inv.serverNames {
      return Err(DuplicateServer);
    }
    var slots := PrivateSlots(server.nics);
    if slots.Err? {
      return Err(BadAddress);
    }
    if |slots.value| > |prefixes| {
      return Err(TooManySlots);
    }
    var desired := inv.desired;
    assert slots.value[0..] == slots.value && prefixes[0..] == prefixes;
    for k := 0 to |slots.value|
      invariant AddSlots(server.id, host, zone, prefixes[k..], slots.value[k..], desired)
             == AddSlots(server.id, host, zone, prefixes, slots.value, inv.desired)
    {
      AddSlotsStep(server.id, host, zone, prefixes, slots.value, k, desired);
      var fqdn := Fqdn(host, prefixes[k], zone);
      if |fqdn| > DNS_NAME_MAX {
        return Err(NameTooLong);
      }
      if slots.value[k].address != "" {
        desired := desired[fqdn := Wanted(fqdn, slots.value[k].address, host, server.id)];
      }
    }
    return Ok(Inventory(desired, inv.serverNames + {host}));
  }

  lemma AddSlotsStep(id: string, host: string, zone: string, prefixes: seq<string>, slots: seq<Slot>, k: nat,
                     desired: map<string, Wanted>)
    requires k < |slots| <= |prefixes|
    ensures var fqdn := Fqdn(host, prefixes[k], zone);
            AddSlots(id, host, zone, prefixes[k..], slots[k..], desired) ==
            if |fqdn| > DNS_NAME_MAX then Err(NameTooLong)
            else AddSlots(id, host, zone, prefixes[k + 1..], slots[k + 1..],
                          if slots[k].address == "" then desired
                            else desired[fqdn := Wanted(fqdn, slots[k].address, host, id)])
  {
    hide Fqdn;
    assert slots[k..][1..] == slots[k + 1..] && prefixes[k..][1..] == prefixes[k + 1..];
    assert slots[k..][0] == slots[k] && prefixes[k..][0] == prefixes[k];
  }

  // ---------- what the inventory is, without the loops ----------

  predicate ShortNames(host: string, zone: string, prefixes: seq<string>, slots: seq<Slot>) {
    forall k :: 0 <= k < |slots| && k < |prefixes| ==> |Fqdn(host, prefixes[k], zone)| <= DNS_NAME_MAX
  }

  /** Nothing is wrong with this server by itself. */
  predicate Sound(server: Server, prefixes: seq<string>, zone: string) {
    server.deleting ||
    (&& IsDnsLabel(ServerLabel(server)) && AllAllowed(Slots(server.nics)) && |Slots(server.nics)| <= |prefixes|
     && ShortNames(ServerLabel(server), zone, prefixes, Slots(server.nics)))
  }

  ghost predicate DistinctServers(servers: seq<Server>) {
    forall i, j :: 0 <= i < j < |servers| && !servers[i].deleting && !servers[j].deleting ==>
                     ServerLabel(servers[i]) != ServerLabel(servers[j])
  }

  /** Slot `k` has an address, and `r` is its record. */
  predicate RecordAt(id: string, host: string, zone: string, prefixes: seq<string>, slots: seq<Slot>, k: nat,
                     r: Wanted) {
    && k < |slots| && k < |prefixes| && slots[k].address != ""
    && r == Wanted(Fqdn(host, prefixes[k], zone), slots[k].address, host, id)
  }

  ghost predicate SlotRecord(id: string, host: string, zone: string, prefixes: seq<string>, slots: seq<Slot>,
                             r: Wanted) {
    exists k :: RecordAt(id, host, zone, prefixes, slots, k, r)
  }

  /** `r` is the record of some slot of the server. */
  ghost predicate Offers(server: Server, prefixes: seq<string>, zone: string, r: Wanted) {
    !server.deleting && SlotRecord(server.id, ServerLabel(server), zone, prefixes, Slots(server.nics), r)
  }

  ghost predicate OfferedBy(servers: seq<Server>, prefixes: seq<string>, zone: string, r: Wanted) {
    exists s :: s in servers && Offers(s, prefixes, zone, r)
  }

  /** Exactly the records of the servers' slots, each under its own name. */
  ghost predicate Lists(servers: seq<Server>, prefixes: seq<string>, zone: string, desired: map<string, Wanted>) {
    && (forall n :: n in desired ==> desired[n].fqdn == n && OfferedBy(servers, prefixes, zone, desired[n]))
    && (forall r :: OfferedBy(servers, prefixes, zone, r) ==> r.fqdn in desired && desired[r.fqdn] == r)
  }

  lemma ListsIsUnique(servers: seq<Server>, servers': seq<Server>, prefixes: seq<string>, zone: string,
                      a: map<string, Wanted>, b: map<string, Wanted>)
    requires Lists(servers, prefixes, zone, a) && Lists(servers', prefixes, zone, b)
    requires forall r :: OfferedBy(servers, prefixes, zone, r) <==> OfferedBy(servers', prefixes, zone, r)
    ensures a == b
  {
    hide OfferedBy;
    assert forall n :: n in a ==> n in b && b[n] == a[n];
    assert forall n :: n in b ==> n in a && a[n] == b[n];
  }

  // ---------- the loops compute it ----------

  ghost predicate Adds(id: string, host: string, zone: string, prefixes: seq<string>, slots: seq<Slot>,
                       before: map<string, Wanted>, after: map<string, Wanted>) {
    && (forall r :: SlotRecord(id, host, zone, prefixes, slots, r) ==> r.fqdn in after && after[r.fqdn] == r)
    && (forall n :: n in after ==>
          (n in before && before[n] == after[n]) ||
          (after[n].fqdn == n && SlotRecord(id, host, zone, prefixes, slots, after[n])))
    && (forall n :: n in before ==>
          n in after && (after[n] == before[n] || SlotRecord(id, host, zone, prefixes, slots, after[n])))
  }

  lemma SlotRecordStep(id: string, host: string, zone: string, prefixes: seq<string>, slots: seq<Slot>, r: Wanted)
    requires prefixes != [] && slots != []
    ensures SlotRecord(id, host, zone, prefixes, slots, r) <==>
            RecordAt(id, host, zone, prefixes, slots, 0, r) || SlotRecord(id, host, zone, prefixes[1..], slots[1..], r)
  {
    hide Fqdn;
    if SlotRecord(id, host, zone, prefixes[1..], slots[1..], r) {
      var k: nat :| RecordAt(id, host, zone, prefixes[1..], slots[1..], k, r);
      assert RecordAt(id, host, zone, prefixes, slots, k + 1, r);
    }
    if SlotRecord(id, host, zone, prefixes, slots, r) {
      var k: nat :| RecordAt(id, host, zone, prefixes, slots, k, r);
      if k > 0 {
        assert RecordAt(id, host, zone, prefixes[1..], slots[1..], k - 1, r);
      }
    }
  }

  /** The names of later slots are not the name of the first. */
  lemma LaterSlotsApart(id: string, host: string, zone: string, prefixes: seq<string>, slots: seq<Slot>, r: Wanted)
    requires prefixes != [] && slots != [] && GoodPrefixes(prefixes) && IsDnsLabel(host)
    requires SlotRecord(id, host, zone, prefixes[1..], slots[1..], r)
    ensures r.fqdn != Fqdn(host, prefixes[0], zone)
  {
    hide Fqdn, IsDnsLabel;
    var k: nat :| RecordAt(id, host, zone, prefixes[1..], slots[1..], k, r);
    assert prefixes[k + 1] in prefixes && prefixes[0] in prefixes;
    if r.fqdn == Fqdn(host, prefixes[0], zone) {
      FqdnIsInjective(host, prefixes[0], host, prefixes[k + 1], zone);
    }
  }

  lemma GoodTail(prefixes: seq<string>)
    requires GoodPrefixes(prefixes) && prefixes != []
    ensures GoodPrefixes(prefixes[1..])
  {
    hide IsDnsLabel;
  }

  lemma ShortNamesStep(host: string, zone: string, prefixes: seq<string>, slots: seq<Slot>)
    requires prefixes != [] && slots != []
    ensures ShortNames(host, zone, prefixes, slots) <==>
            |Fqdn(host, prefixes[0], zone)| <= DNS_NAME_MAX && ShortNames(host, zone, prefixes[1..], slots[1..])
  {
    hide Fqdn;
    if |Fqdn(host, prefixes[0], zone)| <= DNS_NAME_MAX && ShortNames(host, zone, prefixes[1..], slots[1..]) {
      forall k | 0 <= k < |slots| && k < |prefixes|
        ensures |Fqdn(host, prefixes[k], zone)| <= DNS_NAME_MAX
      {
        assert k > 0 ==> prefixes[k] == prefixes[1..][k - 1];
      }
    }
    if ShortNames(host, zone, prefixes, slots) {
      forall k | 0 <= k < |slots[1..]| && k < |prefixes[1..]|
        ensures |Fqdn(host, prefixes[1..][k], zone)| <= DNS_NAME_MAX
      {
        assert prefixes[1..][k] == prefixes[k + 1];
      }
    }
  }

  /** What the loop over the slots of one server adds. */
  lemma {:induction false} AddSlotsAdds(id: string, host: string, zone: string, prefixes: seq<string>,
                                        slots: seq<Slot>, desired: map<string, Wanted>)
    requires |slots| <= |prefixes| && GoodPrefixes(prefixes) && IsDnsLabel(host)
    ensures var r := AddSlots(id, host, zone, prefixes, slots, desired);
            && (r.Ok? <==> ShortNames(host, zone, prefixes, slots))
            && (r.Ok? ==> Adds(id, host, zone, prefixes, slots, desired, r.value))
    decreases |slots|
  {
    hide Fqdn, IsDnsLabel, GoodPrefixes, Adds, ShortNames;
    if slots == [] {
      AddsNothing(id, host, zone, prefixes, desired);
    } else {
      ShortNamesStep(host, zone, prefixes, slots);
      var fqdn := Fqdn(host, prefixes[0], zone);
      if |fqdn| <= DNS_NAME_MAX {
        var more := if slots[0].address == "" then desired
              else desired[fqdn := Wanted(fqdn, slots[0].address, host, id)];
        GoodTail(prefixes);
        AddSlotsAdds(id, host, zone, prefixes[1..], slots[1..], more);
        var r := AddSlots(id, host, zone, prefixes[1..], slots[1..], more);
        if r.Ok? {
          AddsMore(id, host, zone, prefixes, slots, desired, more, r.value);
        }
      }
    }
  }

  lemma AddsNothing(id: string, host: string, zone: string, prefixes: seq<string>, desired: map<string, Wanted>)
    ensures Adds(id, host, zone, prefixes, [], desired, desired) && ShortNames(host, zone, prefixes, [])
  {
  }

  lemma AddsMore(id: string, host: string, zone: string, prefixes: seq<string>, slots: seq<Slot>,
                 before: map<string, Wanted>, more: map<string, Wanted>, after: map<string, Wanted>)
    requires prefixes != [] && slots != [] && GoodPrefixes(prefixes) && IsDnsLabel(host)
    requires Adds(id, host, zone, prefixes[1..], slots[1..], more, after)
    requires var fqdn := Fqdn(host, prefixes[0], zone);
             more == if slots[0].address == "" then before else before[fqdn := Wanted(fqdn, slots[0].address, host, id)]
    ensures Adds(id, host, zone, prefixes, slots, before, after)
  {
    hide Fqdn, IsDnsLabel, GoodPrefixes, SlotRecord;
    forall r
      ensures SlotRecord(id, host, zone, prefixes, slots, r) <==>
              RecordAt(id, host, zone, prefixes, slots, 0, r) ||
                SlotRecord(id, host, zone, prefixes[1..], slots[1..], r)
    {
      SlotRecordStep(id, host, zone, prefixes, slots, r);
    }
    forall r | SlotRecord(id, host, zone, prefixes[1..], slots[1..], r)
      ensures r.fqdn != Fqdn(host, prefixes[0], zone)
    {
      LaterSlotsApart(id, host, zone, prefixes, slots, r);
    }
  }

  function Labels(servers: seq<Server>): set<string> {
    set s | s in servers && !s.deleting :: ServerLabel(s)
  }

  /** The inventory after the servers `done`. */
  ghost predicate Holds(done: seq<Server>, prefixes: seq<string>, zone: string, inv: Inventory) {
    && Lists(done, prefixes, zone, inv.desired) && inv.serverNames == Labels(done)
    && (forall s :: s in done ==> Sound(s, prefixes, zone)) && DistinctServers(done)
  }

  lemma OfferedApart(done: seq<Server>, server: Server, prefixes: seq<string>, zone: string, r: Wanted, r': Wanted)
    requires GoodPrefixes(prefixes) && OfferedBy(done, prefixes, zone, r) && Offers(server, prefixes, zone, r')
    requires forall s :: s in done ==> Sound(s, prefixes, zone)
    requires IsDnsLabel(ServerLabel(server)) && ServerLabel(server) !in Labels(done)
    ensures r.fqdn != r'.fqdn
  {
    hide Fqdn, IsDnsLabel, ServerLabel, Slots, AllAllowed, ShortNames;
    var s :| s in done && Offers(s, prefixes, zone, r);
    var k: nat :| RecordAt(s.id, ServerLabel(s), zone, prefixes, Slots(s.nics), k, r);
    var k': nat :| RecordAt(server.id, ServerLabel(server), zone, prefixes, Slots(server.nics), k', r');
    assert prefixes[k] in prefixes && prefixes[k'] in prefixes;
    if r.fqdn == r'.fqdn {
      FqdnIsInjective(ServerLabel(s), prefixes[k], ServerLabel(server), prefixes[k'], zone);
    }
  }

  lemma OfferedByMore(done: seq<Server>, server: Server, prefixes: seq<string>, zone: string, r: Wanted)
    ensures OfferedBy(done + [server], prefixes, zone, r) <==>
            OfferedBy(done, prefixes, zone, r) || Offers(server, prefixes, zone, r)
  {
    hide Offers;
    if OfferedBy(done, prefixes, zone, r) {
      var s :| s in done && Offers(s, prefixes, zone, r);
      assert s in done + [server];
    }
    assert server in done + [server];
  }

  lemma ListsMore(done: seq<Server>, server: Server, prefixes: seq<string>, zone: string,
                  before: map<string, Wanted>, after: map<string, Wanted>)
    requires GoodPrefixes(prefixes) && Lists(done, prefixes, zone, before) && !server.deleting
    requires forall s :: s in done ==> Sound(s, prefixes, zone)
    requires IsDnsLabel(ServerLabel(server)) && ServerLabel(server) !in Labels(done)
    requires Adds(server.id, ServerLabel(server), zone, prefixes, Slots(server.nics), before, after)
    ensures Lists(done + [server], prefixes, zone, after)
  {
    hide Fqdn, IsDnsLabel, ServerLabel, Slots, Sound, OfferedBy, SlotRecord, Labels, GoodPrefixes;
    forall r
      ensures OfferedBy(done + [server], prefixes, zone, r) <==>
              OfferedBy(done, prefixes, zone, r) || Offers(server, prefixes, zone, r)
    {
      OfferedByMore(done, server, prefixes, zone, r);
    }
    forall r, r' | OfferedBy(done, prefixes, zone, r) && Offers(server, prefixes, zone, r')
      ensures r.fqdn != r'.fqdn
    {
      OfferedApart(done, server, prefixes, zone, r, r');
    }
  }

  lemma LabelsMore(done: seq<Server>, server: Server)
    ensures Labels(done + [server]) == if server.deleting then Labels(done) else Labels(done) + {ServerLabel(server)}
    ensures DistinctServers(done + [server]) <==>
            DistinctServers(done) && (server.deleting || ServerLabel(server) !in Labels(done))
  {
    hide ServerLabel;
    assert forall s :: s in done + [server] <==> s in done || s == server;
    var all := done + [server];
    assert all[|done|] == server && forall i :: 0 <= i < |done| ==> all[i] == done[i];
  }

  /** One server more. */
  lemma AddServerHolds(done: seq<Server>, server: Server, prefixes: seq<string>, zone: string, inv: Inventory)
    requires GoodPrefixes(prefixes) && Holds(done, prefixes, zone, inv)
    ensures var r := AddServer(server, prefixes, zone, inv);
            && (r.Ok? <==> Sound(server, prefixes, zone) && DistinctServers(done + [server]))
            && (r.Ok? ==> Holds(done + [server], prefixes, zone, r.value))
  {
    hide Lists, Adds, Offers, IsDnsLabel, AllAllowed, ShortNames, GoodPrefixes, Labels, Slots, ServerLabel,
      DistinctServers;
    var host := ServerLabel(server);
    LabelsMore(done, server);
    assert forall s :: s in done + [server] <==> s in done || s == server;
    if server.deleting {
      DeletingAddsNothing(done, server, prefixes, zone, inv.desired);
    } else if IsDnsLabel(host) && host !in inv.serverNames && AllAllowed(Slots(server.nics)) &&
      |Slots(server.nics)| <= |prefixes| {
      AddSlotsAdds(server.id, host, zone, prefixes, Slots(server.nics), inv.desired);
      var r := AddSlots(server.id, host, zone, prefixes, Slots(server.nics), inv.desired);
      if r.Ok? {
        ListsMore(done, server, prefixes, zone, inv.desired, r.value);
      }
    }
  }

  lemma DeletingAddsNothing(done: seq<Server>, server: Server, prefixes: seq<string>, zone: string,
                            desired: map<string, Wanted>)
    requires server.deleting && Lists(done, prefixes, zone, desired)
    ensures Lists(done + [server], prefixes, zone, desired)
  {
    hide OfferedBy;
    forall r
      ensures OfferedBy(done + [server], prefixes, zone, r) <==> OfferedBy(done, prefixes, zone, r)
    {
      OfferedByMore(done, server, prefixes, zone, r);
    }
  }

  lemma {:induction false} AddServersHolds(done: seq<Server>, servers: seq<Server>, prefixes: seq<string>,
                                           zone: string, inv: Inventory)
    requires GoodPrefixes(prefixes) && Holds(done, prefixes, zone, inv)
    ensures var r := AddServers(servers, prefixes, zone, inv);
            && (r.Ok? <==> (forall s :: s in servers ==> Sound(s, prefixes, zone)) && DistinctServers(done + servers))
            && (r.Ok? ==> Holds(done + servers, prefixes, zone, r.value))
    decreases |servers|
  {
    hide AddServer, Lists, Sound, GoodPrefixes, DistinctServers, Labels;
    if servers == [] {
      assert done + servers == done;
    } else {
      AddServerHolds(done, servers[0], prefixes, zone, inv);
      assert forall s :: s in servers <==> s == servers[0] || s in servers[1..];
      assert done + [servers[0]] + servers[1..] == done + servers;
      var r := AddServer(servers[0], prefixes, zone, inv);
      if r.Ok? {
        AddServersHolds(done + [servers[0]], servers[1..], prefixes, zone, r.value);
      } else if DistinctServers(done + servers) {
        DistinctPrefix(done + [servers[0]], servers[1..]);
      }
    }
  }

  lemma DistinctPrefix(a: seq<Server>, b: seq<Server>)
    requires DistinctServers(a + b)
    ensures DistinctServers(a)
  {
    hide ServerLabel;
    assert forall i :: 0 <= i < |a| ==> (a + b)[i] == a[i];
  }

  /** The inventory is made exactly when every server is in order and no two active ones
      share a label; it then holds exactly one record for every slot with an address. */
  lemma BuiltIs(servers: seq<Server>, prefixes: seq<string>, zone: string)
    requires GoodPrefixes(prefixes) && IsZone(zone)
    ensures var r := Built(servers, prefixes, zone);
            && (r.Ok? <==> (forall s :: s in servers ==> Sound(s, prefixes, zone)) && DistinctServers(servers))
            && (r.Ok? ==> Lists(servers, prefixes, zone, r.value.desired) && r.value.serverNames == Labels(servers))
  {
    hide NormalizeZone, AddServers, Sound, DistinctServers, Offers, GoodPrefixes;
    assert DistinctServers([]) by { NoServers(prefixes, zone); }
    NoServers(prefixes, zone);
    AddServersHolds([], servers, prefixes, zone, Inventory(map[], {}));
    assert [] + servers == servers;
  }

  lemma NoServers(prefixes: seq<string>, zone: string)
    ensures DistinctServers([]) && Lists([], prefixes, zone, map[]) && Labels([]) == {}
  {
  }
}
