/** The order of the slots, stated without sorting (the rules at the head of
    register_private_dns.py): together with the members it leaves only one list. */
module DnsSlotOrder {
  import opened PythonText
  import opened Order
  import opened DnsSlots

  /** By configuration id, then interface id; in one interface the native address first, then
      the VLANs by subnet. */
  predicate SlotLess(a: Slot, b: Slot) {
    || IdLess(a.configuration, b.configuration)
    || (a.configuration == b.configuration &&
        (|| IdLess(a.interface, b.interface)
         || (a.interface == b.interface && b.kind == Vlan && (a.kind == Native || IdLess(a.subnet, b.subnet)))))
  }

  /** The slot is one of the addresses of this interface. */
  ghost predicate SlotOf(nic: Nic, s: Slot) {
    nic.private.Some? &&
    (s == NativeSlot(nic) || exists v :: v in nic.private.value.vlans && s == VlanSlot(nic, v))
  }

  lemma NicSlotsAre(nic: Nic, s: Slot)
    ensures s in NicSlots(nic) <==> SlotOf(nic, s)
    ensures s in NicSlots(nic) ==> s.interface == nic.id && s.configuration == nic.configuration
  {
    hide Strip, Sort, VlanLess;
    if nic.private.Some? {
      var vlans := Sort(VlanLess, nic.private.value.vlans);
      SortMembers(VlanLess, nic.private.value.vlans);
      assert s in VlanSlots(nic, vlans) <==> exists v :: v in vlans && s == VlanSlot(nic, v) by {
        VlanSlotsAre(nic, vlans, s);
      }
    }
  }

  lemma VlanSlotsAre(nic: Nic, vlans: seq<VlanSubinterface>, s: Slot)
    ensures s in VlanSlots(nic, vlans) <==> exists v :: v in vlans && s == VlanSlot(nic, v)
  {
    hide Strip;
    if v :| v in vlans && s == VlanSlot(nic, v) {
      var i :| 0 <= i < |vlans| && vlans[i] == v;
      assert VlanSlots(nic, vlans)[i] == s;
    }
  }

  lemma NicSlotsInOrder(nic: Nic)
    requires nic.private.Some? ==> DistinctVlans(nic.private.value.vlans)
    ensures StrictlySorted(SlotLess, NicSlots(nic))
  {
    hide Strip, Sort, IdLess;
    if nic.private.Some? {
      var vlans := nic.private.value.vlans;
      VlanLessIsStrict();
      VlansComparable(vlans);
      SortStrict(VlanLess, vlans);
      var slots := NicSlots(nic);
      forall i, j | 0 <= i < j < |slots|
        ensures SlotLess(slots[i], slots[j])
      {
        assert slots[j] == VlanSlot(nic, Sort(VlanLess, vlans)[j - 1]);
        if i > 0 {
          assert slots[i] == VlanSlot(nic, Sort(VlanLess, vlans)[i - 1]);
          assert VlanLess(Sort(VlanLess, vlans)[i - 1], Sort(VlanLess, vlans)[j - 1]);
        }
      }
    }
  }

  lemma VlansComparable(vlans: seq<VlanSubinterface>)
    requires DistinctVlans(vlans)
    ensures Comparable(VlanLess, vlans)
  {
    hide IdLess;
    IdLessIsStrict();
  }

  lemma {:induction false} SlotsOverAre(nics: seq<Nic>, s: Slot)
    ensures s in SlotsOver(nics) <==> exists nic :: nic in nics && SlotOf(nic, s)
  {
    hide NicSlots, SlotOf;
    if nics != [] {
      NicSlotsAre(nics[0], s);
      SlotsOverAre(nics[1..], s);
      assert forall nic :: nic in nics <==> nic == nics[0] || nic in nics[1..];
    }
  }

  lemma {:induction false} SlotsOverInOrder(nics: seq<Nic>)
    requires StrictlySorted(NicLess, nics)
    requires forall nic :: nic in nics && nic.private.Some? ==> DistinctVlans(nic.private.value.vlans)
    ensures StrictlySorted(SlotLess, SlotsOver(nics))
  {
    hide NicSlots, SlotOf, DistinctVlans, NicLess, SlotLess;
    if nics != [] {
      NicSlotsInOrder(nics[0]);
      SlotsOverInOrder(nics[1..]);
      forall a, b | a in NicSlots(nics[0]) && b in SlotsOver(nics[1..])
        ensures SlotLess(a, b)
      {
        SlotsOverAre(nics[1..], b);
        var nic :| nic in nics[1..] && SlotOf(nic, b);
        var k :| 0 <= k < |nics[1..]| && nics[1..][k] == nic;
        assert NicLess(nics[0], nics[k + 1]);
        LaterNic(nics[0], nic, a, b);
      }
      JoinSorted(NicSlots(nics[0]), SlotsOver(nics[1..]));
    }
  }

  lemma LaterNic(x: Nic, y: Nic, a: Slot, b: Slot)
    requires NicLess(x, y) && a in NicSlots(x) && SlotOf(y, b)
    ensures SlotLess(a, b)
  {
    hide NicSlots, SlotOf, IdLess;
    NicSlotsAre(x, a);
    NicSlotsAre(y, b);
  }

  lemma JoinSorted(a: seq<Slot>, b: seq<Slot>)
    requires StrictlySorted(SlotLess, a) && StrictlySorted(SlotLess, b)
    requires forall x, y :: x in a && y in b ==> SlotLess(x, y)
    ensures StrictlySorted(SlotLess, a + b)
  {
    hide SlotLess;
    var c := a + b;
    forall i, j | 0 <= i < j < |c|
      ensures SlotLess(c[i], c[j])
    {
      if i < |a| <= j {
        assert c[i] in a && c[j] in b;
      } else if j < |a| {
        assert c[i] == a[i] && c[j] == a[j];
      } else {
        assert c[i] == b[i - |a|] && c[j] == b[j - |a|];
      }
    }
  }

  lemma PrivateComparable(nics: seq<Nic>)
    requires DistinctIds(nics)
    ensures Comparable(NicLess, PrivateNics(nics))
  {
    hide DistinctVlans, NicLess;
    PrivateNoDup(nics);
    NicsTotal(nics);
    PrivateMembers(nics);
  }

  /** With distinct identifiers: the slots are exactly the native and VLAN addresses of the
      private interfaces, each once, in the order that the script promises. */
  lemma SlotsInOrder(nics: seq<Nic>)
    requires DistinctIds(nics)
    ensures StrictlySorted(SlotLess, Slots(nics))
    ensures forall s :: s in Slots(nics) <==> exists nic :: nic in nics && SlotOf(nic, s)
  {
    hide SlotsOver, NicLess, SlotLess, SlotOf, DistinctVlans;
    var private := PrivateNics(nics);
    NicLessIsStrict();
    PrivateComparable(nics);
    SortStrict(NicLess, private);
    SortMembers(NicLess, private);
    PrivateMembers(nics);
    forall nic | nic in Sort(NicLess, private)
      ensures nic.private.Some? && DistinctVlans(nic.private.value.vlans)
    {
      var k :| 0 <= k < |nics| && nics[k] == nic;
    }
    SlotsOverInOrder(Sort(NicLess, private));
    forall s
      ensures s in Slots(nics) <==> exists nic :: nic in nics && SlotOf(nic, s)
    {
      SlotsOverAre(Sort(NicLess, private), s);
      SlotNeedsPrivate(s);
    }
  }

  lemma SlotNeedsPrivate(s: Slot)
    ensures forall nic :: SlotOf(nic, s) ==> nic.private.Some?
  {
  }
}
