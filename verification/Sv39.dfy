/** How Sv39 reads a page table: by the bits of the virtual address, level by
    level, and by the bits of each entry. It does not use the places that
    PageTable gives the table frames. */
module Sv39 {
  import opened Blocks
  import opened PageTable

  const PGSHIFT := 12
  const MAXVA := 0x40_0000_0000     // 1 << 38

  // ---- shifts and masks ----

  /** x >> k */
  function Shr(x: nat, k: nat): nat { if k == 0 then x else Shr(x / 2, k - 1) }

  /** x & ((1 << k) - 1) */
  function Mask(x: nat, k: nat): nat { if k == 0 then 0 else 2 * Mask(x / 2, k - 1) + x % 2 }

  lemma {:induction false} ShrBit(x: nat, k: nat, j: nat)
    ensures HasBit(Shr(x, k), j) == HasBit(x, k + j)
  {
    if k > 0 { ShrBit(x / 2, k - 1, j); }
  }

  lemma {:induction false} MaskBit(x: nat, k: nat, j: nat)
    ensures HasBit(Mask(x, k), j) <==> j < k && HasBit(x, j)
  {
    if k == 0 {
      if j > 0 { MaskBit(0, 0, j - 1); }
    } else {
      Halve(Mask(x / 2, k - 1), x % 2);
      if j > 0 { MaskBit(x / 2, k - 1, j - 1); }
    }
  }

  lemma {:induction false} ShrTwice(x: nat, j: nat, k: nat)
    ensures Shr(x, j + k) == Shr(Shr(x, j), k)
  {
    if j > 0 { ShrTwice(x / 2, j - 1, k); }
  }

  lemma Shr3(x: nat)
    ensures Shr(x, 3) == x / 8
  {
    assert Shr(x, 3) == Shr(x / 2, 2) == Shr(x / 2 / 2, 1) == Shr(x / 2 / 2 / 2, 0);
  }

  lemma Shr9(x: nat)
    ensures Shr(x, 9) == x / 512
  {
    ShrTwice(x, 3, 6);
    ShrTwice(x / 8, 3, 3);
    Shr3(x);
    Shr3(x / 8);
    Shr3(x / 64);
  }

  lemma Shr12(x: nat)
    ensures Shr(x, 12) == x / 4096
  {
    ShrTwice(x, 3, 9);
    Shr3(x);
    Shr9(x / 8);
  }

  lemma Mask3(x: nat, k: nat)
    ensures Mask(x, k + 3) == 8 * Mask(x / 8, k) + x % 8
  {
    var y := x / 2;
    var z := y / 2;
    assert Mask(x, k + 3) == 2 * Mask(y, k + 2) + x % 2;
    assert Mask(y, k + 2) == 2 * Mask(z, k + 1) + y % 2;
    assert Mask(z, k + 1) == 2 * Mask(z / 2, k) + z % 2;
    assert z / 2 == x / 8;
  }

  lemma Mask9(x: nat)
    ensures Mask(x, 9) == x % 512
  {
    var y, r := x / 8, x % 8;
    var z, s := y / 8, y % 8;
    var w, u := z / 8, z % 8;
    Mask3(x, 6);
    Mask3(y, 3);
    Mask3(z, 0);
    Low(x, w, 64 * u + 8 * s + r);
  }

  lemma Mask12(x: nat)
    ensures Mask(x, 12) == x % 4096
  {
    var y, r := x / 8, x % 8;
    var w, s := y / 512, y % 512;
    Mask3(x, 9);
    Mask9(y);
    Low12(x, w, 8 * s + r);
  }

  lemma Low12(x: nat, w: nat, r: nat)
    requires x == 4096 * w + r && r < 4096
    ensures x % 4096 == r
  {
  }

  lemma Low(x: nat, w: nat, r: nat)
    requires x == 512 * w + r && r < 512
    ensures x / 512 == w && x % 512 == r
  {
  }

  // ---- the address ----

  /** PX(level, va): the address shifted right, and masked to nine bits. */
  function Px(va: nat, level: nat): (i: nat)
    ensures i < ENTRIES
  {
    Mask9(Shr(va, PGSHIFT + 9 * level));
    Mask(Shr(va, PGSHIFT + 9 * level), 9)
  }

  /** Bits 30 to 38 of the address are the index at level 2, bits 21 to 29 at level 1, 12 to 20 at level 0. */
  lemma PxBits(va: nat, level: nat, j: nat)
    ensures HasBit(Px(va, level), j) <==> j < 9 && HasBit(va, 12 + 9 * level + j)
  {
    MaskBit(Shr(va, PGSHIFT + 9 * level), 9, j);
    ShrBit(va, PGSHIFT + 9 * level, j);
  }

  /** The indices of the model's page number are the digits of that number in base 512. */
  lemma IndexDigits(n: nat)
    ensures var x := IndexOf(n); n == x.i2 * 0x4_0000 + x.i1 * 512 + x.i0
  {
  }

  lemma TopDigit(n: nat)
    ensures n / 512 / 512 == n / 0x4_0000
    ensures n < PAGES ==> n / 512 / 512 % 512 == n / 512 / 512
  {
    var a, r := n / 512, n % 512;
    var b, s := a / 512, a % 512;
    assert n == 0x4_0000 * b + (512 * s + r);
  }

  /** They are what the address selects. */
  lemma PxIsIndex(va: nat)
    requires va < MAXVA
    ensures IndexOf(va / 4096) == Index(Px(va, 2), Px(va, 1), Px(va, 0))
  {
    var n := va / 4096;
    Shr12(va);
    ShrTwice(va, 12, 9);
    Shr9(n);
    ShrTwice(va, 21, 9);
    Shr9(n / 512);
    Mask9(n);
    Mask9(n / 512);
    Mask9(n / 512 / 512);
    TopDigit(n);
  }

  // ---- the descent ----

  /** The table whose entry for va is at level 0, found from table f at a level. */
  function Reached(t: map<nat, Table>, f: nat, va: nat, level: nat): Option<nat>
    decreases level
  {
    if level == 0 then Some(f)
    else if f !in t || |t[f]| != ENTRIES || !t[f][Px(va, level)].v then None
    else Reached(t, t[f][Px(va, level)].ppn, va, level - 1)
  }

  /** The valid entry that translates va. */
  function Translate(t: map<nat, Table>, root: nat, va: nat): Option<Pte> {
    var f := Reached(t, root, va, 2);
    if f.None? || f.value !in t || |t[f.value]| != ENTRIES || !t[f.value][Px(va, 0)].v then None
    else Some(t[f.value][Px(va, 0)])
  }

  /** The bits of the address lead to the leaf table that has the place of the page. */
  lemma ReachedIs(t: map<nat, Table>, sp: Space, va: nat)
    requires Tree(t, sp) && va < MAXVA
    ensures Reached(t, sp.root, va, 2) == if Key(va / 4096) in sp.leaf then Some(sp.leaf[Key(va / 4096)]) else None
  {
    hide IndexOf, Px, LeavesOk, RootOk, DirsOk;
    PxIsIndex(va);
    DescentFinds(t, sp, va / 4096);
    var x := IndexOf(va / 4096);
    if x.i2 in sp.dir {
      assert Reached(t, sp.root, va, 2) == Reached(t, sp.dir[x.i2], va, 1);
    }
  }

  /** What the hardware finds for an address is what the tree says of its page. */
  lemma TranslateIsLookup(t: map<nat, Table>, sp: Space, va: nat)
    requires Tree(t, sp) && va < MAXVA
    ensures Translate(t, sp.root, va) == Lookup(t, sp, va / 4096)
  {
    hide IndexOf, Px, LeavesOk, RootOk, DirsOk, Reached;
    PxIsIndex(va);
    ReachedIs(t, sp, va);
  }

  // ---- the entry ----

  /** The word of memory that an entry stands for: the frame number above bit 10, and the flags. */
  function WordOf(p: Pte): nat { 1024 * p.ppn + p.perm + if p.v then 1 else 0 }

  /** PTE2PPN(w), PTE_FLAGS(w) and w & PTE_V. */
  function EntryOf(w: nat): Pte { Pte(HasBit(w, 0), 2 * Mask(w / 2, 9), Shr(w, 10)) }

  /** The entries whose flags are flag bits other than V are the words, one for one. */
  lemma EntryRoundTrip(p: Pte, w: nat)
    ensures p.perm < 1024 && p.perm % 2 == 0 ==> EntryOf(WordOf(p)) == p
    ensures WordOf(EntryOf(w)) == w && EntryOf(w).perm < 1024 && EntryOf(w).perm % 2 == 0
  {
    EntryParts(w);
    if p.perm < 1024 && p.perm % 2 == 0 {
      var x := WordOf(p);
      EntryParts(x);
      Halve(512 * p.ppn + p.perm / 2, if p.v then 1 else 0);
      Low(x / 2, p.ppn, p.perm / 2);
    }
  }

  lemma EntryParts(w: nat)
    ensures EntryOf(w) == Pte(w % 2 == 1, 2 * (w / 2 % 512), w / 2 / 512)
  {
    ShrTwice(w, 1, 9);
    assert Shr(w, 1) == Shr(w / 2, 0);
    Shr9(w / 2);
    Mask9(w / 2);
  }

  /** A flag of the word is that flag of the entry. */
  lemma EntryFlag(w: nat, j: nat)
    requires 1 <= j < 10
    ensures HasBit(EntryOf(w).perm, j) == HasBit(w, j)
  {
    Halve(Mask(w / 2, 9), 0);
    MaskBit(w / 2, 9, j - 1);
  }
}
