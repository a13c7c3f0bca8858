/** The private addresses of one server in their fixed order (`_natural_key`,
    `_canonical_private_ip`, `private_slots` in register_private_dns.py). */
module DnsSlots {
  import opened Wrappers
  import opened PythonText
  import opened Order

  datatype VlanSubinterface = VlanSubinterface(subnet: string, address: string)

  datatype PrivateInterface = PrivateInterface(nativeSubnet: string, address: string, vlans: seq<VlanSubinterface>)

  /** `private` is None for a public interface. */
  datatype Nic = Nic(id: string, configuration: string, mac: string, private: Option<PrivateInterface>)

  datatype Kind = Native | Vlan

  datatype Slot = Slot(interface: string, configuration: string, mac: string, kind: Kind, subnet: string,
    address: string)

  datatype Fault = BadZone | BadServerName | DuplicateServer | BadAddress | TooManySlots | NameTooLong

  // ---------- the natural order of identifiers ----------

  datatype Key = Number(value: nat, text: string) | Text(text: string)

  predicate IsDigits(s: string) {
    s != "" && forall i :: 0 <= i < |s| ==> '0' <= s[i] <= '9'
  }

  function Decimal(s: string): nat
    requires forall i :: 0 <= i < |s| ==> '0' <= s[i] <= '9'
  {
    if s == "" then 0 else 10 * Decimal(s[..|s| - 1]) + (s[|s| - 1] as int - '0' as int)
  }

  function NaturalKey(text: string): Key {
    if IsDigits(text) then Number(Decimal(text), text) else Text(text)
  }

  /** Tuples compare as Python compares them: numbers first, by value, then by spelling. */
  predicate KeyLess(a: Key, b: Key) {
    match (a, b)
    case (Number(v, t), Number(w, u)) => v < w || (v == w && Less(t, u))
    case (Number(_, _), Text(_)) => true
    case (Text(_), Number(_, _)) => false
    case (Text(t), Text(u)) => Less(t, u)
  }

  predicate IdLess(a: string, b: string) {
    KeyLess(NaturalKey(a), NaturalKey(b))
  }

  lemma IdLessIsStrict()
    ensures StrictOrder(IdLess)
    ensures forall a, b :: a == b || IdLess(a, b) || IdLess(b, a)
  {
    hide Less, Decimal, IsDigits;
    LessIsStrict();
    LessAnswers();
    assert forall x :: !IdLess(x, x);
    assert forall x, y, z :: IdLess(x, y) && IdLess(y, z) ==> IdLess(x, z);
  }

  lemma LessAnswers()
    ensures forall a: string, b: string :: a == b || Less(a, b) || Less(b, a)
  {
    forall a: string, b: string
      ensures a == b || Less(a, b) || Less(b, a)
    {
      LessTotal(a, b);
    }
  }

  predicate VlanLess(a: VlanSubinterface, b: VlanSubinterface) {
    IdLess(a.subnet, b.subnet)
  }

  predicate NicLess(a: Nic, b: Nic) {
    IdLess(a.configuration, b.configuration) || (a.configuration == b.configuration && IdLess(a.id, b.id))
  }

  lemma VlanLessIsStrict()
    ensures StrictOrder(VlanLess)
  {
    hide IdLess;
    IdLessIsStrict();
  }

  lemma NicLessIsStrict()
    ensures StrictOrder(NicLess)
  {
    hide IdLess;
    IdLessIsStrict();
    assert forall x :: !NicLess(x, x);
    assert forall x, y, z :: NicLess(x, y) && NicLess(y, z) ==> NicLess(x, z);
  }

  // ---------- addresses ----------

  predicate IsOctet(s: string) {
    IsDigits(s) && |s| <= 3 && (|s| > 1 ==> s[0] != '0') && Decimal(s) <= 255
  }

  /** Dotted decimal in 10.0.0.0/8, 172.16.0.0/12 or 192.168.0.0/16. */
  predicate IsPrivateIp(text: string) {
    var parts := SplitDots(text);
    && |parts| == 4 && (forall i :: 0 <= i < |parts| ==> IsOctet(parts[i]))
    && var (a, b) := (Decimal(parts[0]), Decimal(parts[1]));
       a == 10 || (a == 172 && 16 <= b <= 31) || (a == 192 && b == 168)
  }

  /** An empty address is allowed: the slot keeps its place without a name. */
  predicate AddressAllowed(text: string) {
    text == "" || IsPrivateIp(text)
  }

  method CanonicalPrivateIp(value: string) returns (r: Result<string, Fault>)
    ensures r == if AddressAllowed(Strip(value)) then Ok(Strip(value)) else Err(BadAddress)
  {
    var text := Strip(value);
    if text == "" {
      return Ok("");
    }
    if !IsPrivateIp(text) {
      return Err(BadAddress);
    }
    r := Ok(text);
  }

  // ---------- slots ----------

  function NativeSlot(nic: Nic): Slot
    requires nic.private.Some?
  {
    Slot(nic.id, nic.configuration, nic.mac, Native, nic.private.value.nativeSubnet, Strip(nic.private.value.address))
  }

  function VlanSlot(nic: Nic, vlan: VlanSubinterface): Slot {
    Slot(nic.id, nic.configuration, nic.mac, Vlan, vlan.subnet, Strip(vlan.address))
  }

  function VlanSlots(nic: Nic, vlans: seq<VlanSubinterface>): seq<Slot> {
    seq(|vlans|, i requires 0 <= i < |vlans| => VlanSlot(nic, vlans[i]))
  }

  function NicSlots(nic: Nic): seq<Slot> {
    if nic.private.None? then []
    else [NativeSlot(nic)] + VlanSlots(nic, Sort(VlanLess, nic.private.value.vlans))
  }

  function SlotsOver(nics: seq<Nic>): seq<Slot> {
    if nics == [] then [] else NicSlots(nics[0]) + SlotsOver(nics[1..])
  }

  function PrivateNics(nics: seq<Nic>): seq<Nic> {
    if nics == [] then []
    else (if nics[0].private.Some? then [nics[0]] else []) + PrivateNics(nics[1..])
  }

  function Slots(nics: seq<Nic>): seq<Slot> {
    SlotsOver(Sort(NicLess, PrivateNics(nics)))
  }

  predicate AllAllowed(slots: seq<Slot>) {
    forall s :: s in slots ==> AddressAllowed(s.address)
  }

  method ListPrivate(nics: seq<Nic>) returns (private: seq<Nic>)
    ensures private == PrivateNics(nics)
  {
    hide PrivateNics;
    private := [];
    assert nics[0..] == nics;
    assert private + PrivateNics(nics) == PrivateNics(nics);
    for i := 0 to |nics|
      invariant private + PrivateNics(nics[i..]) == PrivateNics(nics)
    {
      PrivateNicsStep(nics, i, private);
      if nics[i].private.Some? {
        private := private + [nics[i]];
      }
    }
    NoPrivateNics(private);
    assert nics[|nics|..] == [];
  }

  lemma PrivateNicsStep(nics: seq<Nic>, i: nat, private: seq<Nic>)
    requires i < |nics|
    ensures private + PrivateNics(nics[i..]) ==
            (if nics[i].private.Some? then private + [nics[i]] else private) + PrivateNics(nics[i + 1..])
  {
    assert nics[i..][1..] == nics[i + 1..] && nics[i..][0] == nics[i];
  }

  lemma NoPrivateNics(private: seq<Nic>)
    ensures private + PrivateNics([]) == private
  {
  }

  method PrivateSlots(nics: seq<Nic>) returns (r: Result<seq<Slot>, Fault>)
    ensures r == if AllAllowed(Slots(nics)) then Ok(Slots(nics)) else Err(BadAddress)
  {
    hide AddressAllowed, NicSlots, Sort, NicLess, VlanLess, PrivateNics;
    var found := ListPrivate(nics);
    var private := Sort(NicLess, found);
    var slots: seq<Slot> := [];
    assert private[0..] == private;
    for i := 0 to |private|
      invariant slots + SlotsOver(private[i..]) == SlotsOver(private) == Slots(nics)
      invariant AllAllowed(slots)
    {
      SlotsOverStep(private, i);
      var r1 := SlotsOfNic(private[i]);
      if r1.Err? {
        assert forall s :: s in NicSlots(private[i]) ==> s in Slots(nics);
        return Err(BadAddress);
      }
      slots := slots + r1.value;
    }
    assert slots + [] == slots;
    return Ok(slots);
  }

  lemma SlotsOverStep(nics: seq<Nic>, i: nat)
    requires i < |nics|
    ensures SlotsOver(nics[i..]) == NicSlots(nics[i]) + SlotsOver(nics[i + 1..])
  {
    hide NicSlots;
    assert nics[i..][1..] == nics[i + 1..];
  }

  /** The body of the slot loop for one interface. */
  method SlotsOfNic(nic: Nic) returns (r: Result<seq<Slot>, Fault>)
    ensures r == if AllAllowed(NicSlots(nic)) then Ok(NicSlots(nic)) else Err(BadAddress)
  {
    hide AddressAllowed, Sort, Strip, VlanLess;
    if nic.private.None? {
      return Ok([]);
    }
    var private := nic.private.value;
    var vlans := Sort(VlanLess, private.vlans);
    ghost var want := NicSlots(nic);
    assert want == [NativeSlot(nic)] + VlanSlots(nic, vlans);
    var address := CanonicalPrivateIp(private.address);
    if address.Err? {
      assert want[0] in want;
      return Err(BadAddress);
    }
    var slots := [Slot(nic.id, nic.configuration, nic.mac, Native, private.nativeSubnet, address.value)];
    for i := 0 to |vlans|
      invariant slots == want[..i + 1] && AllAllowed(slots)
    {
      assert want[i + 1] == VlanSlot(nic, vlans[i]);
      address := CanonicalPrivateIp(vlans[i].address);
      if address.Err? {
        assert want[i + 1] in want;
        return Err(BadAddress);
      }
      slots := slots + [Slot(nic.id, nic.configuration, nic.mac, Vlan, vlans[i].subnet, address.value)];
    }
    assert slots == want[..|want|] == want;
    return Ok(slots);
  }

  // ---------- the order in which the API lists things does not matter ----------

  ghost predicate DistinctVlans(vlans: seq<VlanSubinterface>) {
    forall i, j :: 0 <= i < j < |vlans| ==> vlans[i].subnet != vlans[j].subnet
  }

  /** No two interfaces share both identifiers, and no two VLANs of one interface a subnet. */
  ghost predicate DistinctIds(nics: seq<Nic>) {
    && (forall i, j :: 0 <= i < j < |nics| ==>
       nics[i].id != nics[j].id || nics[i].configuration != nics[j].configuration)
    && (forall i :: 0 <= i < |nics| && nics[i].private.Some? ==> DistinctVlans(nics[i].private.value.vlans))
  }

  /** The same interface, its VLANs listed in another order. */
  ghost predicate SameNic(a: Nic, b: Nic) {
    && a.id == b.id && a.configuration == b.configuration && a.mac == b.mac
    && a.private.Some? == b.private.Some?
    && (a.private.Some? ==>
          && a.private.value.nativeSubnet == b.private.value.nativeSubnet
          && a.private.value.address == b.private.value.address
          && multiset(a.private.value.vlans) == multiset(b.private.value.vlans))
  }

  /** The same interfaces in another order, each with its VLANs in another order. */
  ghost predicate SameNics(a: seq<Nic>, b: seq<Nic>) {
    exists mid: seq<Nic> ::
      && multiset(mid) == multiset(b) && |mid| == |a|
      && forall i :: 0 <= i < |a| ==> SameNic(a[i], mid[i])
  }

  /** The interface with its VLANs in order. */
  function Tidy(nic: Nic): Nic {
    if nic.private.None? then nic
    else nic.(private := Some(nic.private.value.(vlans := Sort(VlanLess, nic.private.value.vlans))))
  }

  lemma VlansTotal(vlans: seq<VlanSubinterface>)
    requires DistinctVlans(vlans)
    ensures TotalOn(VlanLess, vlans)
  {
    hide IdLess;
    IdLessIsStrict();
    forall x, y | x in vlans && y in vlans
      ensures x == y || VlanLess(x, y) || VlanLess(y, x)
    {
      var i :| 0 <= i < |vlans| && vlans[i] == x;
      var j :| 0 <= j < |vlans| && vlans[j] == y;
    }
  }

  lemma NicsTotal(nics: seq<Nic>)
    requires DistinctIds(nics)
    ensures TotalOn(NicLess, nics)
  {
    hide IdLess, DistinctVlans;
    IdLessIsStrict();
    forall x, y | x in nics && y in nics
      ensures x == y || NicLess(x, y) || NicLess(y, x)
    {
      var i :| 0 <= i < |nics| && nics[i] == x;
      var j :| 0 <= j < |nics| && nics[j] == y;
    }
  }

  lemma TidyIsSame(a: Nic, b: Nic)
    requires SameNic(a, b)
    requires a.private.Some? ==> DistinctVlans(a.private.value.vlans)
    ensures Tidy(a) == Tidy(b)
  {
    hide VlanLess, DistinctVlans;
    if a.private.Some? {
      VlanLessIsStrict();
      VlansTotal(a.private.value.vlans);
      SortIgnoresOrder(VlanLess, a.private.value.vlans, b.private.value.vlans);
    }
  }

  lemma TidyKeepsSlots(nic: Nic)
    requires nic.private.Some? ==> DistinctVlans(nic.private.value.vlans)
    ensures NicSlots(Tidy(nic)) == NicSlots(nic)
  {
    hide VlanLess, DistinctVlans, Strip;
    if nic.private.Some? {
      var vlans := nic.private.value.vlans;
      VlanLessIsStrict();
      VlansTotal(vlans);
      SortKeeps(VlanLess, vlans);
      SortIgnoresOrder(VlanLess, vlans, Sort(VlanLess, vlans));
      assert NativeSlot(Tidy(nic)) == NativeSlot(nic);
      assert VlanSlots(Tidy(nic), Sort(VlanLess, vlans)) == VlanSlots(nic, Sort(VlanLess, vlans));
    }
  }

  lemma TidyKeepsOrder()
    ensures forall a, b :: NicLess(Tidy(a), Tidy(b)) == NicLess(a, b)
  {
    hide IdLess, Sort;
  }

  lemma {:induction false} TidySlotsOver(nics: seq<Nic>)
    requires forall i :: 0 <= i < |nics| && nics[i].private.Some? ==> DistinctVlans(nics[i].private.value.vlans)
    ensures SlotsOver(Map(Tidy, nics)) == SlotsOver(nics)
  {
    hide NicSlots, Tidy, DistinctVlans;
    if nics != [] {
      TidyKeepsSlots(nics[0]);
      TidySlotsOver(nics[1..]);
      MapTail(Tidy, nics);
    }
  }

  lemma MapTail<T, U>(f: T -> U, s: seq<T>)
    requires s != []
    ensures Map(f, s) == [f(s[0])] + Map(f, s[1..])
  {
  }

  lemma {:induction false} TidyPrivate(nics: seq<Nic>)
    ensures PrivateNics(Map(Tidy, nics)) == Map(Tidy, PrivateNics(nics))
  {
    hide Sort;
    if nics != [] {
      TidyPrivate(nics[1..]);
      MapTail(Tidy, nics);
      if nics[0].private.Some? {
        MapTail(Tidy, [nics[0]] + PrivateNics(nics[1..]));
        assert ([nics[0]] + PrivateNics(nics[1..]))[1..] == PrivateNics(nics[1..]);
      }
    }
  }

  lemma {:induction false} PrivateCount(nics: seq<Nic>, x: Nic)
    ensures multiset(PrivateNics(nics))[x] == if x.private.Some? then multiset(nics)[x] else 0
  {
    if nics != [] {
      PrivateCount(nics[1..], x);
      assert nics == [nics[0]] + nics[1..];
    }
  }

  lemma PrivateMembers(nics: seq<Nic>)
    ensures forall x :: x in PrivateNics(nics) <==> x in nics && x.private.Some?
  {
    forall x
      ensures x in PrivateNics(nics) <==> x in nics && x.private.Some?
    {
      PrivateCount(nics, x);
      assert x in PrivateNics(nics) <==> x in multiset(PrivateNics(nics));
      assert x in nics <==> x in multiset(nics);
    }
  }

  lemma PrivateTotal(nics: seq<Nic>)
    requires DistinctIds(nics)
    ensures TotalOn(NicLess, PrivateNics(nics))
    ensures forall i :: 0 <= i < |Sort(NicLess, PrivateNics(nics))| ==>
              Sort(NicLess, PrivateNics(nics))[i] in nics
  {
    hide NicLess;
    NicsTotal(nics);
    PrivateMembers(nics);
    SortMembers(NicLess, PrivateNics(nics));
  }

  /** Tidying first does not change the slots. */
  lemma TidySlots(nics: seq<Nic>)
    requires DistinctIds(nics)
    ensures Slots(Map(Tidy, nics)) == Slots(nics)
  {
    hide NicLess, Tidy, SlotsOver, PrivateNics, Map, Sort, DistinctVlans;
    TidyPrivate(nics);
    TidyKeepsOrder();
    SortMap(NicLess, Tidy, PrivateNics(nics));
    PrivateTotal(nics);
    var sorted := Sort(NicLess, PrivateNics(nics));
    forall i | 0 <= i < |sorted| && sorted[i].private.Some?
      ensures DistinctVlans(sorted[i].private.value.vlans)
    {
      var k :| 0 <= k < |nics| && nics[k] == sorted[i];
    }
    TidySlotsOver(sorted);
  }

  /** With distinct identifiers the slots do not depend on the order in which the API lists
      the interfaces, nor on the order of the VLANs within them. */
  lemma SlotsIgnoreOrder(a: seq<Nic>, b: seq<Nic>)
    requires DistinctIds(a) && DistinctIds(b) && SameNics(a, b)
    ensures Slots(a) == Slots(b)
  {
    hide NicLess, Tidy, SlotsOver, PrivateNics, Map, Sort, DistinctVlans, SameNic;
    var mid: seq<Nic> :| multiset(mid) == multiset(b) && |mid| == |a| && forall i :: 0 <= i < |a| ==>
          SameNic(a[i], mid[i]);
    forall i | 0 <= i < |a|
      ensures Tidy(a[i]) == Tidy(mid[i])
    {
      SameNicDistinct(a[i], mid[i]);
    }
    assert Map(Tidy, a) == Map(Tidy, mid);
    TidySlots(a);
    SlotsOfPermutation(b, mid);
    DistinctPermutation(b, mid);
    TidySlots(mid);
  }

  lemma SameNicDistinct(a: Nic, b: Nic)
    requires SameNic(a, b)
    requires a.private.Some? ==> DistinctVlans(a.private.value.vlans)
    ensures Tidy(a) == Tidy(b)
  {
    TidyIsSame(a, b);
  }

  lemma DistinctPermutation(a: seq<Nic>, b: seq<Nic>)
    requires DistinctIds(a) && multiset(a) == multiset(b)
    ensures DistinctIds(b)
  {
    hide DistinctVlans;
    forall i, j | 0 <= i < j < |b|
      ensures b[i].id != b[j].id || b[i].configuration != b[j].configuration
    {
      var p, q := TwoPlaces(b, a, i, j);
      assert p < q || q < p;
    }
    forall i | 0 <= i < |b|
      ensures b[i] in a
    {
      assert b[i] in multiset(b);
    }
  }

  lemma SlotsOfPermutation(a: seq<Nic>, b: seq<Nic>)
    requires DistinctIds(a) && multiset(a) == multiset(b)
    ensures Slots(a) == Slots(b)
  {
    hide NicLess, SlotsOver, Sort, DistinctIds;
    forall x
      ensures multiset(PrivateNics(a))[x] == multiset(PrivateNics(b))[x]
    {
      PrivateCount(a, x);
      PrivateCount(b, x);
    }
    assert multiset(PrivateNics(a)) == multiset(PrivateNics(b));
    PrivateTotal(a);
    NicLessIsStrict();
    SortIgnoresOrder(NicLess, PrivateNics(a), PrivateNics(b));
  }

  // ---------- an address that comes later ----------

  /** The interface whose native address (`which` None) or VLAN address is now `address`. */
  function Assigned(nic: Nic, which: Option<nat>, address: string): Nic
    requires nic.private.Some? && (which.Some? ==> which.value < |nic.private.value.vlans|)
  {
    var p := nic.private.value;
    nic.(private := Some(
      if which.None? then p.(address := address)
      else p.(vlans := p.vlans[which.value := p.vlans[which.value].(address := address)])))
  }

  function AddressOf(nic: Nic, which: Option<nat>): string
    requires nic.private.Some? && (which.Some? ==> which.value < |nic.private.value.vlans|)
  {
    if which.None? then nic.private.value.address else nic.private.value.vlans[which.value].address
  }

  /** `b` is `a` with an address in the empty slot `k` and no other difference. */
  ghost predicate Filled(a: seq<Slot>, b: seq<Slot>, k: nat, address: string) {
    k < |a| && a[k].address == "" && b == a[k := a[k].(address := address)]
  }

  lemma FillNic(nic: Nic, which: Option<nat>, address: string) returns (k: nat)
    requires nic.private.Some? && (which.Some? ==> which.value < |nic.private.value.vlans|)
    requires DistinctVlans(nic.private.value.vlans) && Strip(AddressOf(nic, which)) == ""
    ensures Filled(NicSlots(nic), NicSlots(Assigned(nic, which, address)), k, Strip(address))
  {
    hide Strip, VlanLess, Sort, Map;
    var p := nic.private.value;
    var vlans := Sort(VlanLess, p.vlans);
    var nic' := Assigned(nic, which, address);
    if which.None? {
      k := 0;
      assert VlanSlots(nic', vlans) == VlanSlots(nic, vlans);
    } else {
      var y := p.vlans[which.value].(address := address);
      SameRank(p.vlans[which.value], y);
      VlansNoDup(p.vlans);
      var q := SortReplace(VlanLess, p.vlans, which.value, y);
      k := q + 1;
      FillVlan(nic, nic', vlans, q, address);
      assert NicSlots(nic') == [NativeSlot(nic)] + VlanSlots(nic', vlans[q := y]);
    }
  }

  lemma FillVlan(nic: Nic, nic': Nic, vlans: seq<VlanSubinterface>, q: nat, address: string)
    requires q < |vlans| && nic'.id == nic.id && nic'.configuration == nic.configuration && nic'.mac == nic.mac
    requires Strip(vlans[q].address) == ""
    ensures Filled(VlanSlots(nic, vlans), VlanSlots(nic', vlans[q := vlans[q].(address := address)]), q, Strip(address))
  {
    hide Strip;
  }

  lemma SameRank(x: VlanSubinterface, y: VlanSubinterface)
    requires x.subnet == y.subnet
    ensures forall z :: VlanLess(y, z) == VlanLess(x, z) && VlanLess(z, y) == VlanLess(z, x)
    ensures VlanLess(y, y) == VlanLess(x, x)
  {
    hide IdLess;
  }

  lemma VlansNoDup(vlans: seq<VlanSubinterface>)
    requires DistinctVlans(vlans)
    ensures NoDup(vlans)
  {
  }

  lemma {:induction false} FillOver(nics: seq<Nic>, q: nat, nic': Nic, k: nat, address: string) returns (m: nat)
    requires q < |nics| && Filled(NicSlots(nics[q]), NicSlots(nic'), k, address)
    ensures Filled(SlotsOver(nics), SlotsOver(nics[q := nic']), m, address)
  {
    hide NicSlots;
    var nics' := nics[q := nic'];
    if q == 0 {
      m := k;
      assert nics'[1..] == nics[1..];
    } else {
      m := FillOver(nics[1..], q - 1, nic', k, address);
      assert nics'[1..] == nics[1..][q - 1 := nic'];
      m := m + |NicSlots(nics[0])|;
    }
  }

  lemma {:induction false} FillPrivate(nics: seq<Nic>, j: nat, nic': Nic) returns (p: nat)
    requires j < |nics| && nics[j].private.Some? && nic'.private.Some?
    ensures p < |PrivateNics(nics)| && PrivateNics(nics)[p] == nics[j]
    ensures PrivateNics(nics[j := nic']) == PrivateNics(nics)[p := nic']
  {
    if j == 0 {
      p := 0;
    } else {
      p := FillPrivate(nics[1..], j - 1, nic');
      assert nics[j := nic'][1..] == nics[1..][j - 1 := nic'];
      p := if nics[0].private.Some? then p + 1 else p;
    }
  }

  lemma NicSameRank(x: Nic, y: Nic)
    requires x.id == y.id && x.configuration == y.configuration
    ensures forall z :: NicLess(y, z) == NicLess(x, z) && NicLess(z, y) == NicLess(z, x)
    ensures NicLess(y, y) == NicLess(x, x)
  {
    hide IdLess;
  }

  lemma PrivateNoDup(nics: seq<Nic>)
    requires DistinctIds(nics)
    ensures NoDup(PrivateNics(nics))
  {
    hide DistinctVlans;
    assert NoDup(nics);
    NoDupCount(nics);
    forall x
      ensures multiset(PrivateNics(nics))[x] <= 1
    {
      PrivateCount(nics, x);
    }
    NoDupCount(PrivateNics(nics));
  }

  /** Giving an address to an empty slot fills that slot and moves no other. */
  lemma FillingMovesNothing(nics: seq<Nic>, j: nat, which: Option<nat>, address: string) returns (k: nat)
    requires DistinctIds(nics) && j < |nics| && nics[j].private.Some?
    requires which.Some? ==> which.value < |nics[j].private.value.vlans|
    requires Strip(AddressOf(nics[j], which)) == ""
    ensures Filled(Slots(nics), Slots(nics[j := Assigned(nics[j], which, address)]), k, Strip(address))
  {
    hide Strip, NicLess, Sort, NicSlots, SlotsOver, PrivateNics, AddressOf, DistinctVlans, Filled;
    var nic' := Assigned(nics[j], which, address);
    var k0 := FillNic(nics[j], which, address);
    var p := FillPrivate(nics, j, nic');
    NicSameRank(nics[j], nic');
    PrivateNoDup(nics);
    var q := SortReplace(NicLess, PrivateNics(nics), p, nic');
    k := FillOver(Sort(NicLess, PrivateNics(nics)), q, nic', k0, Strip(address));
  }
}
