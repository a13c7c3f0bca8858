/** The names are stable: they do not depend on the order of the API lists, two slots never
    share one, and an address that arrives later adds its own name and moves no other
    (the promise at the head of register_private_dns.py). */
module DnsNaming {
  import opened Wrappers
  import opened PythonText
  import opened Order
  import opened DnsNames
  import opened DnsSlots
  import opened DnsInventory
  import DnsPlan
  import DnsResume

  // ---------- the planner knows every name again ----------

  function Addresses(desired: map<string, Wanted>): DnsPlan.Desired {
    map n | n in desired :: desired[n].address
  }

  lemma OfferIsManaged(servers: seq<Server>, prefixes: seq<string>, zone: string, r: Wanted)
    requires GoodPrefixes(prefixes) && IsZone(zone) && OfferedBy(servers, prefixes, zone, r)
    requires forall s :: s in servers ==> Sound(s, prefixes, zone)
    ensures ManagedLabel(r.fqdn, zone, prefixes) == Some(r.serverName) && AbsoluteName(r.fqdn, zone) == r.fqdn
  {
    hide Fqdn, IsDnsLabel, ServerLabel, Slots, AllAllowed, ShortNames, ManagedLabel, AbsoluteName, IsZone;
    var s :| s in servers && Offers(s, prefixes, zone, r);
    var k: nat :| RecordAt(s.id, ServerLabel(s), zone, prefixes, Slots(s.nics), k, r);
    assert prefixes[k] in prefixes;
    ManagedRecovers(ServerLabel(s), prefixes[k], zone, prefixes);
  }

  /** Every name an inventory wants is one the planner regards as the script's own, with the
      label of its server, and is written the way the zone is indexed: all the theorems about
      runs hold of it. */
  lemma InventoryIsReady(servers: seq<Server>, prefixes: seq<string>, zone: string, settings: DnsPlan.Settings)
    requires GoodPrefixes(prefixes) && IsZone(zone) && settings.zone == zone && settings.prefixes == prefixes
    requires Built(servers, prefixes, zone).Ok?
    ensures DnsResume.Ready(settings, Addresses(Built(servers, prefixes, zone).value.desired))
    ensures forall n :: n in Built(servers, prefixes, zone).value.desired ==>
              ManagedLabel(n, zone, prefixes) == Some(Built(servers, prefixes, zone).value.desired[n].serverName)
  {
    hide Built, Sound, OfferedBy, ManagedLabel, AbsoluteName, IsZone, GoodPrefixes;
    BuiltIs(servers, prefixes, zone);
    var desired := Built(servers, prefixes, zone).value.desired;
    forall n | n in desired
      ensures ManagedLabel(n, zone, prefixes) == Some(desired[n].serverName) && AbsoluteName(n, zone) == n
    {
      OfferIsManaged(servers, prefixes, zone, desired[n]);
    }
  }

  // ---------- one name, one slot ----------

  /** Two slots that get a name get different names, unless they are the same slot of the
      same server. */
  lemma NamesAreApart(servers: seq<Server>, prefixes: seq<string>, zone: string, i: nat, k: nat, r: Wanted, i': nat,
                      k': nat, r': Wanted)
    requires GoodPrefixes(prefixes) && IsZone(zone) && Built(servers, prefixes, zone).Ok?
    requires i < |servers| && !servers[i].deleting && i' < |servers| && !servers[i'].deleting
    requires RecordAt(servers[i].id, ServerLabel(servers[i]), zone, prefixes, Slots(servers[i].nics), k, r)
    requires RecordAt(servers[i'].id, ServerLabel(servers[i']), zone, prefixes, Slots(servers[i'].nics), k', r')
    requires r.fqdn == r'.fqdn
    ensures i == i' && k == k'
  {
    hide Fqdn, IsDnsLabel, ServerLabel, Slots, AllAllowed, ShortNames, Built, IsZone;
    BuiltIs(servers, prefixes, zone);
    ApartFrom(servers, prefixes, zone, i, k, r, i', k', r');
  }

  lemma ApartFrom(servers: seq<Server>, prefixes: seq<string>, zone: string, i: nat, k: nat, r: Wanted, i': nat,
                  k': nat, r': Wanted)
    requires GoodPrefixes(prefixes) && DistinctServers(servers)
    requires forall s :: s in servers ==> Sound(s, prefixes, zone)
    requires i < |servers| && !servers[i].deleting && i' < |servers| && !servers[i'].deleting
    requires k < |prefixes| && r.fqdn == Fqdn(ServerLabel(servers[i]), prefixes[k], zone)
    requires k' < |prefixes| && r'.fqdn == Fqdn(ServerLabel(servers[i']), prefixes[k'], zone)
    requires r.fqdn == r'.fqdn
    ensures i == i' && k == k'
  {
    hide Fqdn, IsDnsLabel, ServerLabel, Slots, AllAllowed, ShortNames;
    assert servers[i] in servers && servers[i'] in servers && prefixes[k] in prefixes && prefixes[k'] in prefixes;
    FqdnIsInjective(ServerLabel(servers[i]), prefixes[k], ServerLabel(servers[i']), prefixes[k'], zone);
  }

  // ---------- the order of the lists ----------

  ghost predicate SameServer(a: Server, b: Server) {
    && a.id == b.id && a.name == b.name && a.deleting == b.deleting
    && DistinctIds(a.nics) && DistinctIds(b.nics) && SameNics(a.nics, b.nics)
  }

  /** The same servers in another order, each with its interfaces and VLANs in another order. */
  ghost predicate SameServers(a: seq<Server>, b: seq<Server>) {
    exists mid: seq<Server> ::
      && multiset(mid) == multiset(b) && |mid| == |a|
      && forall i :: 0 <= i < |a| ==> SameServer(a[i], mid[i])
  }

  lemma SameServerSame(a: Server, b: Server, prefixes: seq<string>, zone: string)
    requires SameServer(a, b)
    ensures Sound(a, prefixes, zone) == Sound(b, prefixes, zone) && ServerLabel(a) == ServerLabel(b)
    ensures forall r :: Offers(a, prefixes, zone, r) <==> Offers(b, prefixes, zone, r)
  {
    hide DistinctIds, SameNics, Slots, AllAllowed, IsDnsLabel, ShortNames, SlotRecord;
    SlotsIgnoreOrder(a.nics, b.nics);
  }

  lemma PermutedServers(a: seq<Server>, b: seq<Server>, prefixes: seq<string>, zone: string)
    requires multiset(a) == multiset(b)
    ensures forall s :: s in a <==> s in b
    ensures DistinctServers(a) ==> DistinctServers(b)
  {
    hide ServerLabel;
    forall s
      ensures s in a <==> s in b
    {
      assert s in a <==> s in multiset(a);
      assert s in b <==> s in multiset(b);
    }
    if DistinctServers(a) {
      forall i, j | 0 <= i < j < |b| && !b[i].deleting && !b[j].deleting
        ensures ServerLabel(b[i]) != ServerLabel(b[j])
      {
        var p, q := TwoPlaces(b, a, i, j);
        assert p < q || q < p;
      }
    }
  }

  lemma PointwiseServers(a: seq<Server>, b: seq<Server>, prefixes: seq<string>, zone: string)
    requires |a| == |b| && forall i :: 0 <= i < |a| ==> SameServer(a[i], b[i])
    ensures (forall s :: s in a ==> Sound(s, prefixes, zone)) <==> (forall s :: s in b ==> Sound(s, prefixes, zone))
    ensures DistinctServers(a) <==> DistinctServers(b)
    ensures Labels(a) == Labels(b)
    ensures forall r :: OfferedBy(a, prefixes, zone, r) <==> OfferedBy(b, prefixes, zone, r)
  {
    hide Sound, Offers, ServerLabel;
    forall i | 0 <= i < |a|
      ensures Sound(a[i], prefixes, zone) == Sound(b[i], prefixes, zone) && ServerLabel(a[i]) == ServerLabel(b[i])
      ensures a[i].deleting == b[i].deleting
      ensures forall r :: Offers(a[i], prefixes, zone, r) <==> Offers(b[i], prefixes, zone, r)
    {
      SameServerSame(a[i], b[i], prefixes, zone);
    }
    PointwiseMembers(a, b, prefixes, zone);
  }

  lemma PointwiseMembers(a: seq<Server>, b: seq<Server>, prefixes: seq<string>, zone: string)
    requires |a| == |b|
    requires forall i :: 0 <= i < |a| ==>
               && Sound(a[i], prefixes, zone) == Sound(b[i], prefixes, zone) && ServerLabel(a[i]) == ServerLabel(b[i])
               && a[i].deleting == b[i].deleting
    requires forall i, r :: 0 <= i < |a| ==> (Offers(a[i], prefixes, zone, r) <==> Offers(b[i], prefixes, zone, r))
    ensures (forall s :: s in a ==> Sound(s, prefixes, zone)) <==> (forall s :: s in b ==> Sound(s, prefixes, zone))
    ensures Labels(a) == Labels(b)
    ensures forall r :: OfferedBy(a, prefixes, zone, r) <==> OfferedBy(b, prefixes, zone, r)
  {
    hide Sound, Offers, ServerLabel;
    assert forall i :: 0 <= i < |a| ==> a[i] in a && b[i] in b;
    forall r
      ensures OfferedBy(a, prefixes, zone, r) <==> OfferedBy(b, prefixes, zone, r)
    {
    }
  }

  /** Whatever order the API lists servers, interfaces and VLANs in, the run is refused or
      not refused alike, and wants the same names for the same addresses. */
  lemma InventoryIgnoresOrder(a: seq<Server>, b: seq<Server>, prefixes: seq<string>, zone: string)
    requires GoodPrefixes(prefixes) && IsZone(zone) && SameServers(a, b)
    ensures Built(a, prefixes, zone).Ok? <==> Built(b, prefixes, zone).Ok?
    ensures Built(a, prefixes, zone).Ok? ==> Built(a, prefixes, zone).value == Built(b, prefixes, zone).value
  {
    hide Sound, Built, SameServer, DistinctServers, Lists, GoodPrefixes, IsZone, Offers;
    var mid: seq<Server> :| multiset(mid) == multiset(b) && |mid| == |a| && forall i :: 0 <= i < |a| ==>
          SameServer(a[i], mid[i]);
    PointwiseServers(a, mid, prefixes, zone);
    PermutedServers(mid, b, prefixes, zone);
    PermutedServers(b, mid, prefixes, zone);
    BuiltIs(a, prefixes, zone);
    BuiltIs(b, prefixes, zone);
    if Built(a, prefixes, zone).Ok? {
      ListsIsUnique(a, b, prefixes, zone, Built(a, prefixes, zone).value.desired,
        Built(b, prefixes, zone).value.desired);
    }
  }

  // ---------- an address that comes later ----------

  /** The server with an address in one more place. */
  function Assign(server: Server, j: nat, which: Option<nat>, address: string): Server
    requires j < |server.nics| && server.nics[j].private.Some?
    requires which.Some? ==> which.value < |server.nics[j].private.value.vlans|
  {
    server.(nics := server.nics[j := Assigned(server.nics[j], which, address)])
  }

  lemma FilledRecords(id: string, host: string, zone: string, prefixes: seq<string>, a: seq<Slot>, b: seq<Slot>,
                      k: nat, address: string, r: Wanted)
    requires Filled(a, b, k, address) && address != "" && k < |prefixes|
    ensures SlotRecord(id, host, zone, prefixes, b, r) <==>
            SlotRecord(id, host, zone, prefixes, a, r) || r == Wanted(Fqdn(host, prefixes[k], zone), address, host, id)
  {
    hide Fqdn;
    if SlotRecord(id, host, zone, prefixes, b, r) {
      var m: nat :| RecordAt(id, host, zone, prefixes, b, m, r);
      assert m != k ==> RecordAt(id, host, zone, prefixes, a, m, r);
    }
    if SlotRecord(id, host, zone, prefixes, a, r) {
      var m: nat :| RecordAt(id, host, zone, prefixes, a, m, r);
      assert RecordAt(id, host, zone, prefixes, b, m, r);
    }
    if r == Wanted(Fqdn(host, prefixes[k], zone), address, host, id) {
      assert RecordAt(id, host, zone, prefixes, b, k, r);
    }
  }

  lemma FilledSound(server: Server, server': Server, prefixes: seq<string>, zone: string, k: nat, address: string)
    requires Filled(Slots(server.nics), Slots(server'.nics), k, address) && AddressAllowed(address)
    requires server' == server.(nics := server'.nics) && Sound(server, prefixes, zone)
    ensures Sound(server', prefixes, zone)
  {
    hide Fqdn, AddressAllowed, Slots, IsDnsLabel;
    assert ServerLabel(server') == ServerLabel(server);
  }

  /** The new name is one that nothing else has. */
  lemma FilledNameIsFree(servers: seq<Server>, i: nat, prefixes: seq<string>, zone: string, k: nat,
                         desired: map<string, Wanted>)
    requires GoodPrefixes(prefixes) && Lists(servers, prefixes, zone, desired) && DistinctServers(servers)
    requires forall s :: s in servers ==> Sound(s, prefixes, zone)
    requires i < |servers| && !servers[i].deleting && k < |Slots(servers[i].nics)| && k < |prefixes|
    requires Slots(servers[i].nics)[k].address == ""
    ensures Fqdn(ServerLabel(servers[i]), prefixes[k], zone) !in desired
  {
    hide Fqdn, IsDnsLabel, ServerLabel, Slots, AllAllowed, ShortNames, Sound, DistinctServers, GoodPrefixes;
    var n := Fqdn(ServerLabel(servers[i]), prefixes[k], zone);
    if n in desired {
      var r := desired[n];
      var s :| s in servers && Offers(s, prefixes, zone, r);
      var i' :| 0 <= i' < |servers| && servers[i'] == s;
      var k': nat :| RecordAt(s.id, ServerLabel(s), zone, prefixes, Slots(s.nics), k', r);
      ApartFrom(servers, prefixes, zone, i', k', r, i, k, r);
      assert false;
    }
  }

  lemma ReplacedMembers(servers: seq<Server>, i: nat, server': Server, prefixes: seq<string>, zone: string,
                        r: Wanted, extra: Wanted)
    requires i < |servers|
    requires Offers(server', prefixes, zone, r) <==> Offers(servers[i], prefixes, zone, r) || r == extra
    ensures OfferedBy(servers[i := server'], prefixes, zone, r) <==> OfferedBy(servers, prefixes, zone, r) || r == extra
  {
    hide Offers;
    var servers' := servers[i := server'];
    assert servers'[i] == server' && server' in servers' && servers[i] in servers;
    if OfferedBy(servers, prefixes, zone, r) {
      var s :| s in servers && Offers(s, prefixes, zone, r);
      var p :| 0 <= p < |servers| && servers[p] == s;
      assert p != i ==> servers'[p] == s && s in servers';
    }
    if OfferedBy(servers', prefixes, zone, r) {
      var s :| s in servers' && Offers(s, prefixes, zone, r);
      var p :| 0 <= p < |servers'| && servers'[p] == s;
      assert p != i ==> servers[p] == s && s in servers;
    }
  }

  lemma ReplacedServers(servers: seq<Server>, i: nat, server': Server, prefixes: seq<string>, zone: string)
    requires i < |servers| && server' == servers[i].(nics := server'.nics)
    requires (forall s :: s in servers ==> Sound(s, prefixes, zone)) && DistinctServers(servers) &&
             Sound(server', prefixes, zone)
    ensures forall s :: s in servers[i := server'] ==> Sound(s, prefixes, zone)
    ensures DistinctServers(servers[i := server'])
    ensures Labels(servers[i := server']) == Labels(servers)
  {
    hide Sound;
    var servers' := servers[i := server'];
    assert ServerLabel(server') == ServerLabel(servers[i]);
    hide ServerLabel;
    forall s | s in servers'
      ensures Sound(s, prefixes, zone)
    {
      var p :| 0 <= p < |servers'| && servers'[p] == s;
      assert p != i ==> servers[p] in servers;
    }
    SameLabels(servers, servers');
  }

  lemma SameLabels(a: seq<Server>, b: seq<Server>)
    requires |a| == |b| && forall i :: 0 <= i < |a| ==>
             a[i].deleting == b[i].deleting && ServerLabel(a[i]) == ServerLabel(b[i])
    ensures Labels(a) == Labels(b)
  {
    hide ServerLabel;
    forall x
      ensures x in Labels(a) <==> x in Labels(b)
    {
      assert forall i :: 0 <= i < |a| ==> a[i] in a && b[i] in b;
    }
  }

  /** A slot without an address keeps its prefix.  When its address arrives, the run still
      succeeds and wants exactly one name more, which was free; all other names keep the
      addresses they had. */
  lemma FillingAddsOneName(servers: seq<Server>, i: nat, j: nat, which: Option<nat>, address: string,
                           prefixes: seq<string>, zone: string)
      returns (extra: Wanted)
    requires GoodPrefixes(prefixes) && IsZone(zone) && Built(servers, prefixes, zone).Ok?
    requires i < |servers| && !servers[i].deleting && DistinctIds(servers[i].nics)
    requires j < |servers[i].nics| && servers[i].nics[j].private.Some?
    requires which.Some? ==> which.value < |servers[i].nics[j].private.value.vlans|
    requires Strip(AddressOf(servers[i].nics[j], which)) == "" && IsPrivateIp(Strip(address))
    ensures var servers' := servers[i := Assign(servers[i], j, which, address)];
            var inv := Built(servers, prefixes, zone).value;
            && extra.fqdn !in inv.desired && extra.address == Strip(address) && extra.serverId == servers[i].id
            && Built(servers', prefixes, zone) == Ok(Inventory(inv.desired[extra.fqdn := extra], inv.serverNames))
  {
    hide Sound, Built, DistinctServers, Lists, GoodPrefixes, IsZone, Offers, DistinctIds, Slots, Strip, AddressOf,
      IsPrivateIp, Filled, Fqdn, ServerLabel, Labels;
    var server, server' := servers[i], Assign(servers[i], j, which, address);
    var inv := Built(servers, prefixes, zone).value;
    var k := FillingMovesNothing(server.nics, j, which, address);
    BuiltIs(servers, prefixes, zone);
    assert server in servers;
    NotEmpty(Strip(address));
    FilledSound(server, server', prefixes, zone, k, Strip(address));
    FilledSlot(server, server', prefixes, zone, k, Strip(address));
    extra := Wanted(Fqdn(ServerLabel(server), prefixes[k], zone), Strip(address), ServerLabel(server), server.id);
    FilledNameIsFree(servers, i, prefixes, zone, k, inv.desired);
    forall r
      ensures OfferedBy(servers[i := server'], prefixes, zone, r) <==>
              OfferedBy(servers, prefixes, zone, r) || r == extra
    {
      FilledOffers(server, server', prefixes, zone, k, Strip(address), r);
      ReplacedMembers(servers, i, server', prefixes, zone, r, extra);
    }
    ReplacedServers(servers, i, server', prefixes, zone);
    BuiltIs(servers[i := server'], prefixes, zone);
    ListsOneMore(servers, servers[i := server'], prefixes, zone, inv.desired, extra);
    ListsIsUnique(servers[i := server'], servers[i := server'], prefixes, zone,
                  inv.desired[extra.fqdn := extra], Built(servers[i := server'], prefixes, zone).value.desired);
  }

  lemma NotEmpty(address: string)
    requires IsPrivateIp(address)
    ensures address != "" && AddressAllowed(address)
  {
  }

  lemma FilledSlot(server: Server, server': Server, prefixes: seq<string>, zone: string, k: nat, address: string)
    requires Filled(Slots(server.nics), Slots(server'.nics), k, address)
    requires !server.deleting && Sound(server, prefixes, zone)
    ensures k < |Slots(server.nics)| && k < |prefixes| && Slots(server.nics)[k].address == ""
  {
    hide Slots, AllAllowed, ShortNames, IsDnsLabel, ServerLabel;
  }

  lemma FilledOffers(server: Server, server': Server, prefixes: seq<string>, zone: string, k: nat, address: string,
                     r: Wanted)
    requires Filled(Slots(server.nics), Slots(server'.nics), k, address) && address != "" && k < |prefixes|
    requires server' == server.(nics := server'.nics) && !server.deleting
    ensures Offers(server', prefixes, zone, r) <==>
            Offers(server, prefixes, zone, r) ||
              r == Wanted(Fqdn(ServerLabel(server), prefixes[k], zone), address, ServerLabel(server), server.id)
  {
    hide Slots, SlotRecord, Fqdn, Filled;
    assert ServerLabel(server') == ServerLabel(server);
    FilledRecords(server.id, ServerLabel(server), zone, prefixes, Slots(server.nics), Slots(server'.nics), k,
      address, r);
  }

  lemma ListsOneMore(servers: seq<Server>, servers': seq<Server>, prefixes: seq<string>, zone: string,
                     desired: map<string, Wanted>, extra: Wanted)
    requires Lists(servers, prefixes, zone, desired) && extra.fqdn !in desired
    requires forall r :: OfferedBy(servers', prefixes, zone, r) <==> OfferedBy(servers, prefixes, zone, r) || r == extra
    ensures Lists(servers', prefixes, zone, desired[extra.fqdn := extra])
  {
    hide OfferedBy;
  }
}
