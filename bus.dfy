/**
 * The open-collector address bus (K6502/Bus.cs).
 *
 * Components are registered with the offset at which they start. A read ANDs
 * together the bytes of every component whose window `offset ..
 * offset + AddressableSize - 1` holds the address, starting from 0xFF (an
 * undriven line reads 1); a write hands the value and the absolute address to
 * every such component.
 *
 * The bus accepts any `IAddressable<byte>`; the two such components of this
 * model are the memory regions, seen through their indexers, with an
 * addressable size equal to the size of their address range.
 */
module AddressBus {
  import opened Bytes
  import opened Extensions
  import opened Memories

  /** A component that can sit on the bus. */
  datatype Device = Ram(ram: Memory) | Mirror(mirror: MirroredMemory)
  {
    /** The backing array the component owns. */
    function Cells(): array<Byte>
    {
      match this
      case Ram(m) => m.memory
      case Mirror(m) => m.memory
    }

    /** `AddressableSize` */
    function AddressableSize(): int
    {
      match this
      case Ram(m) => m.AddressRange.Size()
      case Mirror(m) => m.AddressRange.Size()
    }

    predicate Valid()
    {
      match this
      case Ram(m) => m.Valid()
      case Mirror(m) => m.Valid()
    }

    /** The component's own indexer accepts `address`. */
    predicate Accepts(address: Word)
    {
      match this
      case Ram(m) => InRange(address, m.AddressRange)
      case Mirror(m) => address >= m.AddressRange.Start
    }

    /** Placed at `offset`, every address of the component's window is accepted by its indexer. */
    predicate FitsAt(offset: int)
    {
      match this
      case Ram(m) => offset == m.AddressRange.Start
      case Mirror(m) => offset >= m.AddressRange.Start
    }

    /** The cell of `Cells()` the indexer uses for `address`. */
    function Index(address: Word): (k: nat)
      requires Valid() && Accepts(address)
      ensures k < Cells().Length
    {
      match this
      case Ram(m) => InRangeIndexIsValid(m.AddressRange, address); address - m.AddressRange.Start
      case Mirror(m) => m.Index(address)
    }

    function IsReadOnly(): bool
      reads if Ram? then ram else mirror
    {
      match this
      case Ram(m) => m.IsReadOnly
      case Mirror(m) => m.IsReadOnly
    }

    /** The indexer's getter. */
    function Read(address: Word): Byte
      requires Valid() && Accepts(address)
      reads Cells()
    {
      Cells()[Index(address)]
    }
  }

  /** The indexer's setter of a component: the value lands in the cell of `address` unless it is read-only. */
  method WriteDevice(d: Device, address: Word, value: Byte)
    requires d.Valid() && d.Accepts(address)
    modifies d.Cells()
    ensures d.Cells()[..] == if d.IsReadOnly() then old(d.Cells()[..]) else old(d.Cells()[..])[d.Index(address) := value]
  {
    match d
    case Ram(m) => m.Write(address, value);
    case Mirror(m) => m.Write(address, value);
  }

  /** `address.IsInRange(offset, offset + component.AddressableSize - 1)` */
  predicate Covers(entry: (int, Device), address: int)
  {
    IsInRange(address, entry.0, entry.0 + entry.1.AddressableSize() - 1)
  }

  /** A registered component is well formed and placed where its indexer accepts its whole window. */
  predicate EntryValid(entry: (int, Device))
  {
    entry.1.Valid() && entry.1.FitsAt(entry.0)
  }

  /** An address in the window of a well-placed component is one its indexer accepts. */
  lemma CoveredIsAccepted(entry: (int, Device), address: Word)
    requires EntryValid(entry) && Covers(entry, address)
    ensures entry.1.Accepts(address)
  {
  }

  /** The object whose `IsReadOnly` field the component's setter consults. */
  function Owner(d: Device): object
  {
    if d.Ram? then d.ram else d.mirror
  }

  /** A write of `address` through `entry` lands in cell `j` of `a`: it covers the address, owns `a`, and is writable. */
  predicate StoresAt(entry: (int, Device), address: Word, a: array<Byte>, j: int)
    reads Owner(entry.1)
  {
    && EntryValid(entry) && Covers(entry, address) && entry.1.Accepts(address)
    && entry.1.Cells() == a && !entry.1.IsReadOnly() && entry.1.Index(address) == j
  }

  /** The backing arrays of a list of components. */
  function ArraysOf(entries: seq<(int, Device)>): set<array<Byte>>
  {
    set i | 0 <= i < |entries| :: entries[i].1.Cells()
  }

  /** The bytes the components covering `address` drive, in registration order. */
  function Driven(entries: seq<(int, Device)>, address: Word): seq<Byte>
    requires forall i :: 0 <= i < |entries| ==> EntryValid(entries[i])
    reads ArraysOf(entries)
  {
    if entries == [] then []
    else
      var last := entries[|entries| - 1];
      var rest := Driven(entries[..|entries| - 1], address);
      if Covers(last, address) then
        CoveredIsAccepted(last, address);
        rest + [last.1.Read(address)]
      else
        rest
  }

  /** At most one byte per component, and none exactly when no component covers the address. */
  lemma {:induction false} DrivenCount(entries: seq<(int, Device)>, address: Word)
    requires forall i :: 0 <= i < |entries| ==> EntryValid(entries[i])
    ensures |Driven(entries, address)| <= |entries|
    ensures Driven(entries, address) == [] <==> forall i :: 0 <= i < |entries| ==> !Covers(entries[i], address)
  {
    if entries != [] {
      var init := entries[..|entries| - 1];
      DrivenCount(init, address);
      assert forall i :: 0 <= i < |init| ==> init[i] == entries[i];
    }
  }

  /** A covering component's byte is among the driven ones. */
  lemma {:induction false} DrivenContains(entries: seq<(int, Device)>, address: Word, i: nat)
    requires forall k :: 0 <= k < |entries| ==> EntryValid(entries[k])
    requires i < |entries| && Covers(entries[i], address)
    ensures entries[i].1.Accepts(address)
    ensures exists j :: 0 <= j < |Driven(entries, address)| && Driven(entries, address)[j] == entries[i].1.Read(address)
  {
    CoveredIsAccepted(entries[i], address);
    var init := entries[..|entries| - 1];
    var rest := Driven(init, address);
    if i == |entries| - 1 {
      assert Driven(entries, address)[|rest|] == entries[i].1.Read(address);
    } else {
      assert init[i] == entries[i];
      DrivenContains(init, address, i);
      var j :| 0 <= j < |rest| && rest[j] == entries[i].1.Read(address);
      assert Driven(entries, address)[j] == rest[j];
    }
  }

  /** The drivers of two lists of components, one after the other, are those of the joined list. */
  lemma {:induction false} DrivenAppend(e1: seq<(int, Device)>, e2: seq<(int, Device)>, address: Word)
    requires forall k :: 0 <= k < |e1| ==> EntryValid(e1[k])
    requires forall k :: 0 <= k < |e2| ==> EntryValid(e2[k])
    ensures forall k :: 0 <= k < |e1 + e2| ==> EntryValid((e1 + e2)[k])
    ensures Driven(e1 + e2, address) == Driven(e1, address) + Driven(e2, address)
  {
    assert forall k :: 0 <= k < |e1 + e2| ==> EntryValid((e1 + e2)[k]) by {
      forall k | 0 <= k < |e1 + e2| ensures EntryValid((e1 + e2)[k]) {
        if k < |e1| { assert (e1 + e2)[k] == e1[k]; } else { assert (e1 + e2)[k] == e2[k - |e1|]; }
      }
    }
    if e2 == [] {
      assert e1 + e2 == e1;
    } else {
      var init := e2[..|e2| - 1];
      assert (e1 + e2)[..|e1 + e2| - 1] == e1 + init;
      assert (e1 + e2)[|e1 + e2| - 1] == e2[|e2| - 1];
      assert forall k :: 0 <= k < |init| ==> init[k] == e2[k];
      DrivenAppend(e1, init, address);
    }
  }

  /** The open-collector merge: 0xFF with every driven byte ANDed in, in order. */
  function AndAll(values: seq<Byte>): Byte
  {
    if values == [] then 0xFF else And(AndAll(values[..|values| - 1]), values[|values| - 1])
  }

  /** Merging two groups of drivers is the AND of merging each group. */
  lemma {:induction false} AndAllAppend(s: seq<Byte>, t: seq<Byte>)
    ensures AndAll(s + t) == And(AndAll(s), AndAll(t))
  {
    if t == [] {
      assert s + t == s;
      AndIdentities(AndAll(s));
    } else {
      var t' := t[..|t| - 1];
      assert (s + t)[..|s + t| - 1] == s + t';
      AndAllAppend(s, t');
      AndAssociates(AndAll(s), AndAll(t'), t[|t| - 1]);
    }
  }

  /** The merged byte does not depend on the order in which drivers are registered. */
  lemma OrderIndependent(s: seq<Byte>, t: seq<Byte>)
    ensures AndAll(s + t) == AndAll(t + s)
  {
    AndAllAppend(s, t);
    AndAllAppend(t, s);
    AndCommutes(AndAll(s), AndAll(t));
  }

  /** Any one driver can pull a bit low: the merge has no bit set that some driver has clear. */
  lemma {:induction false} AndAllBelowEach(values: seq<Byte>, i: nat)
    requires i < |values|
    ensures And(AndAll(values), values[i]) == AndAll(values)
  {
    var init := values[..|values| - 1];
    var x := values[|values| - 1];
    if i == |values| - 1 {
      AndAssociates(AndAll(init), x, x);
      AndIdentities(x);
    } else {
      AndAllBelowEach(init, i);
      assert init[i] == values[i];
      AndAssociates(AndAll(init), x, values[i]);
      AndCommutes(x, values[i]);
      AndAssociates(AndAll(init), values[i], x);
    }
  }

  /** No driver reads 0xFF; a single driver reads its own byte; 0x0F and 0xF0 together read 0x00. */
  lemma AndAllExamples(b: Byte)
    ensures AndAll([]) == 0xFF
    ensures AndAll([b]) == b
    ensures AndAll([0x0F, 0xF0]) == 0x00
  {
    assert [b][..0] == [];
    AndIdentities(b);
    assert [0x0F, 0xF0][..1] == [0x0F];
    assert [0x0F][..0] == [];
    AndIdentities(0x0F);
    assert And(0x0F, 0xF0) == 0x00;
  }

  class Bus {
    /** The `(offset, component)` list, in registration order. */
    var Components: seq<(int, Device)>
    const AddressableSize: int
    /** Kept for the interface; the bus itself never consults it. */
    var IsReadonly: bool

    predicate Valid()
      reads this
    {
      forall i :: 0 <= i < |Components| ==> EntryValid(Components[i])
    }

    /** The objects whose `IsReadOnly` fields the setter consults. */
    function Owners(): set<object>
      reads this
    {
      set i | 0 <= i < |Components| :: Owner(Components[i].1)
    }

    /** One of the first `n` components stores a write of `address` in cell `j` of `a`. */
    predicate StoredBefore(n: int, address: Word, a: array<Byte>, j: int)
      requires n <= |Components|
      reads this, Owners()
    {
      exists k :: 0 <= k < n && StoresAt(Components[k], address, a, j)
    }

    /** The backing arrays of every component. */
    function Arrays(): set<array<Byte>>
      reads this
    {
      ArraysOf(Components)
    }

    /** `new Bus(addressableSize)` */
    constructor(addressableSize: int)
      ensures Components == [] && AddressableSize == addressableSize && Valid()
    {
      Components := [];
      AddressableSize := addressableSize;
    }

    /** `new Bus(addressableSize, components)` */
    constructor WithComponents(addressableSize: int, components: seq<(int, Device)>)
      ensures Components == components && AddressableSize == addressableSize
    {
      Components := components;
      AddressableSize := addressableSize;
    }

    /** `Add(offset, component)`: appends, keeping the earlier components in order. */
    method Add(offset: int, component: Device)
      modifies this
      ensures Components == old(Components) + [(offset, component)]
      ensures old(Valid()) && EntryValid((offset, component)) ==> Valid()
      ensures unchanged(Arrays() - {component.Cells()})
    {
      Components := Components + [(offset, component)];
    }

    /** The value the indexer's getter returns. */
    function Read(address: Word): Byte
      requires Valid()
      reads this, Arrays()
    {
      AndAll(Driven(Components, address))
    }

    /** An address no component covers reads 0xFF. */
    lemma UndrivenReadsOnes(address: Word)
      requires Valid()
      requires forall i :: 0 <= i < |Components| ==> !Covers(Components[i], address)
      ensures Read(address) == 0xFF
    {
      DrivenCount(Components, address);
    }

    /** Every covering component can only clear bits: the byte read has none its byte lacks. */
    lemma ReadBelowEachDriver(address: Word, i: nat)
      requires Valid() && i < |Components| && Covers(Components[i], address)
      ensures Components[i].1.Accepts(address)
      ensures And(Read(address), Components[i].1.Read(address)) == Read(address)
    {
      CoveredIsAccepted(Components[i], address);
      DrivenContains(Components, address, i);
      var values := Driven(Components, address);
      var j :| 0 <= j < |values| && values[j] == Components[i].1.Read(address);
      AndAllBelowEach(values, j);
    }

    /** Registering two groups of components in either order gives the same reads. */
    static lemma RegistrationOrderIrrelevant(e1: seq<(int, Device)>, e2: seq<(int, Device)>, address: Word)
      requires forall k :: 0 <= k < |e1| ==> EntryValid(e1[k])
      requires forall k :: 0 <= k < |e2| ==> EntryValid(e2[k])
      ensures (DrivenAppend(e1, e2, address); DrivenAppend(e2, e1, address);
        AndAll(Driven(e1 + e2, address)) == AndAll(Driven(e2 + e1, address)))
    {
      DrivenAppend(e1, e2, address);
      DrivenAppend(e2, e1, address);
      OrderIndependent(Driven(e1, address), Driven(e2, address));
    }

    /** The indexer's getter: the AND fold over the covering components. */
    method Get(address: Word) returns (data: Byte)
      requires Valid()
      ensures data == Read(address)
    {
      data := 0xFF;
      var i := 0;
      while i < |Components|
        invariant 0 <= i <= |Components|
        invariant data == AndAll(Driven(Components[..i], address))
      {
        var entry := Components[i];
        assert Components[..i + 1][..i] == Components[..i];
        assert Components[..i + 1][i] == entry;
        if Covers(entry, address) {
          CoveredIsAccepted(entry, address);
          data := And(data, entry.1.Read(address));
        }
        i := i + 1;
      }
      assert Components[..i] == Components;
    }

    /** One iteration of the setter's loop: component `i` receives the write if it covers the address. */
    method WriteComponent(i: nat, address: Word, value: Byte)
      requires Valid() && i < |Components|
      modifies Arrays()
      ensures forall a, j :: a in Arrays() && 0 <= j < a.Length ==>
        a[j] == if StoresAt(Components[i], address, a, j) then value else old(a[j])
    {
      var entry := Components[i];
      if Covers(entry, address) {
        CoveredIsAccepted(entry, address);
        WriteDevice(entry.1, address, value);
      }
    }

    /**
     * The indexer's setter: every covering component receives the write, in
     * registration order, and keeps or drops it by its own read-only rule.
     * Two components may share a backing array; since they all store the same
     * byte, a cell ends up holding `value` exactly when some covering,
     * writable component maps the address to it, and nothing else changes.
     */
    method Set(address: Word, value: Byte)
      requires Valid()
      modifies Arrays()
      ensures forall a, j :: a in Arrays() && 0 <= j < a.Length ==>
        a[j] == if StoredBefore(|Components|, address, a, j) then value else old(a[j])
      ensures forall i :: 0 <= i < |Components| && Covers(Components[i], address) && !Components[i].1.IsReadOnly() ==>
        Components[i].1.Accepts(address) && Components[i].1.Cells()[Components[i].1.Index(address)] == value
    {
      var i := 0;
      while i < |Components|
        invariant 0 <= i <= |Components|
        invariant forall a, j :: a in Arrays() && 0 <= j < a.Length ==>
          a[j] == if StoredBefore(i, address, a, j) then value else old(a[j])
      {
        WriteComponent(i, address, value);
        i := i + 1;
      }
      forall i | 0 <= i < |Components| && Covers(Components[i], address) && !Components[i].1.IsReadOnly()
        ensures Components[i].1.Accepts(address) && Components[i].1.Cells()[Components[i].1.Index(address)] == value
      {
        CoveredIsAccepted(Components[i], address);
        assert StoresAt(Components[i], address, Components[i].1.Cells(), Components[i].1.Index(address));
      }
    }
  }
}
