/** What the hardware makes of a page table: the translation of section 4.3.2 of the RISC-V Privileged
    Architecture for Sv39, by the bits of the address, against the flat map of the model. */
module Sv39 {
  import opened PageTables
  import opened PagePool

  /** The three 9-bit fields of a virtual address. */
  function Vpn(va: nat, i: nat): (k: nat)
    requires i < 3
    ensures k < ENTRIES
  {
    (if i == 0 then va / 0x1000 else if i == 1 then va / 0x20_0000 else va / 0x4000_0000) % 512
  }

  /** The entry that the hardware comes to in at most three levels, or 0: it stops at an entry that is
      not valid and at a leaf. */
  ghost function Translate(mem: Memory, table: nat, va: nat, i: nat): nat
    requires i < 3
    decreases i
  {
    if !IsPage(mem, table) then 0
    else
      var e := mem[table][Vpn(va, i)];
      if !IsValid(e) then 0 else if IsLeaf(e) || i == 0 then e else Translate(mem, Ppn(e), va, i - 1)
  }

  lemma FieldsOf(va: nat)
    ensures Vpn(va, 0) == Px(0, PageOf(va)) && Vpn(va, 1) == Px(1, PageOf(va)) && Vpn(va, 2) == Px(2, PageOf(va))
  {
    assert va / 0x1000 / 512 == va / 0x20_0000 && va / 0x1000 / (512 * 512) == va / 0x4000_0000;
  }

  /** The entry of a table on the way, and where it leads. */
  lemma OneLevel(mem: Memory, t: Tree, level: nat, v: nat)
    requires TreeOk(mem, t) && 0 < level <= 2 && v < MAXVPN && On(level, v) in t
    ensures IsPage(mem, t[On(level, v)])
    ensures var e := mem[t[On(level, v)]][Px(level, v)];
      if On(level - 1, v) in t then IsValid(e) && !IsLeaf(e) && Ppn(e) == t[On(level - 1, v)] else e == 0
  {
    var n, m := On(level, v), On(level - 1, v);
    assert PlaceOk(mem, t, n) && EntryOk(mem, t, n, Px(level, v));
    OnPath(level - 1, v);
    DownUp(n, Px(level, v), m);
    if m in t { PointerParts(t[m]); }
  }

  /** The hardware finds for every address below MAXVA exactly the entry of the flat map. */
  lemma HardwareEntry(mem: Memory, t: Tree, va: nat)
    requires TreeOk(mem, t) && PageOf(va) < MAXVPN
    ensures Translate(mem, t[ROOT], va, 2) == Entry(mem, t, PageOf(va))
  {
    var v := PageOf(va);
    FieldsOf(va);
    assert On(2, v) == ROOT && PlaceOk(mem, t, ROOT);
    OneLevel(mem, t, 2, v);
    if On(1, v) in t {
      OneLevel(mem, t, 1, v);
      if On(0, v) in t {
        assert PlaceOk(mem, t, On(0, v)) && EntryOk(mem, t, On(0, v), Px(0, v));
      }
    } else {
      BelowToo(mem, t, v);
    }
    hide TreeOk, Px, Vpn, On;
  }

  lemma BelowToo(mem: Memory, t: Tree, v: nat)
    requires TreeOk(mem, t) && v < MAXVPN && On(1, v) !in t
    ensures On(0, v) !in t
  {
    OnPath(0, v);
    forall n | n in t ensures n.level < 2 ==> Up(n) in t { assert PlaceOk(mem, t, n); }
  }
}
