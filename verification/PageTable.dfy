/** Sv39 page tables: three levels of 512-entry tables in physical frames, and
    the partial map from virtual page numbers to entries that they denote. */
module PageTable {
  const ENTRIES := 512
  const PAGES := 0x400_0000       // MAXVA / PGSIZE

  /** perm holds the flag bits other than V; 0 marks a pointer to a lower table. */
  datatype Pte = Pte(v: bool, perm: nat, ppn: nat)
  const NONE := Pte(false, 0, 0)

  type Table = seq<Pte>

  /** PX(2, va), PX(1, va) and PX(0, va) of the page */
  datatype Index = Index(i2: nat, i1: nat, i0: nat)

  function IndexOf(n: nat): (x: Index)
    ensures x.i1 < ENTRIES && x.i0 < ENTRIES && (n < PAGES ==> x.i2 < ENTRIES)
  {
    Index(n / 0x4_0000, n / 512 % 512, n % 512)
  }

  lemma IndexInjective(m: nat, n: nat)
    requires IndexOf(m) == IndexOf(n)
    ensures m == n
  {
    assert m == (m / 0x4_0000) * 0x4_0000 + (m / 512 % 512) * 512 + m % 512;
    assert n == (n / 0x4_0000) * 0x4_0000 + (n / 512 % 512) * 512 + n % 512;
  }

  datatype Role = Root | Dir(i: nat) | Leaf(i: nat, j: nat)

  /** The table frames of an address space, by the place each has in the tree. */
  datatype Space = Space(root: nat, dir: map<nat, nat>, leaf: map<(nat, nat), nat>, role: map<nat, Role>)

  datatype Option<T> = None | Some(value: T)

  predicate Sized(t: map<nat, Table>) { forall f :: f in t ==> |t[f]| == ENTRIES }

  /** Every table frame has one place, and every place one frame. */
  predicate Roles(sp: Space) {
    && sp.root in sp.role && sp.role[sp.root] == Root
    && (forall i :: i in sp.dir ==> sp.dir[i] in sp.role && sp.role[sp.dir[i]] == Dir(i))
    && (forall k :: k in sp.leaf ==> sp.leaf[k] in sp.role && sp.role[sp.leaf[k]] == Leaf(k.0, k.1))
    && (forall f :: f in sp.role ==> match sp.role[f]
                                     case Root => f == sp.root
                                     case Dir(i) => i in sp.dir && sp.dir[i] == f
                                     case Leaf(i, j) => (i, j) in sp.leaf && sp.leaf[(i, j)] == f)
  }

  predicate Within(t: map<nat, Table>, sp: Space) { forall f :: f in sp.role ==> f in t && |t[f]| == ENTRIES }

  predicate RootOk(t: map<nat, Table>, sp: Space)
    requires Roles(sp) && Within(t, sp)
  {
    && (forall i :: i in sp.dir ==> i < ENTRIES && t[sp.root][i] == Pte(true, 0, sp.dir[i]))
    && (forall i :: 0 <= i < ENTRIES && t[sp.root][i].v ==> i in sp.dir)
  }

  predicate DirsOk(t: map<nat, Table>, sp: Space)
    requires Roles(sp) && Within(t, sp)
  {
    && (forall k :: k in sp.leaf ==> k.0 in sp.dir && k.1 < ENTRIES && t[sp.dir[k.0]][k.1] == Pte(true, 0, sp.leaf[k]))
    && (forall i, j :: i in sp.dir && 0 <= j < ENTRIES && t[sp.dir[i]][j].v ==> (i, j) in sp.leaf)
  }

  predicate LeavesOk(t: map<nat, Table>, sp: Space)
    requires Roles(sp) && Within(t, sp)
  {
    forall k, j :: k in sp.leaf && 0 <= j < ENTRIES && t[sp.leaf[k]][j].v ==> t[sp.leaf[k]][j].perm > 0
  }

  predicate Tree(t: map<nat, Table>, sp: Space) {
    Roles(sp) && Within(t, sp) && RootOk(t, sp) && DirsOk(t, sp) && LeavesOk(t, sp)
  }

  /** What the tree says of page n. */
  function Lookup(t: map<nat, Table>, sp: Space, n: nat): Option<Pte>
    requires Roles(sp) && Within(t, sp)
  {
    var x := IndexOf(n);
    if (x.i2, x.i1) in sp.leaf && t[sp.leaf[(x.i2, x.i1)]][x.i0].v then Some(t[sp.leaf[(x.i2, x.i1)]][x.i0]) else None
  }

  /** Two trees denote the same map. */
  ghost predicate SameMap(t: map<nat, Table>, sp: Space, u: map<nat, Table>, sq: Space)
    requires Roles(sp) && Within(t, sp) && Roles(sq) && Within(u, sq)
  {
    forall n :: 0 <= n < PAGES ==> Lookup(u, sq, n) == Lookup(t, sp, n)
  }

  function Blank(): (r: Table)
    ensures |r| == ENTRIES && forall i :: 0 <= i < ENTRIES ==> r[i] == NONE
  {
    seq(ENTRIES, _ => NONE)
  }

  // ---- what walk follows ----

  function Child(t: map<nat, Table>, f: nat, i: nat): Option<nat>
    requires f in t && i < |t[f]|
  {
    if t[f][i].v then Some(t[f][i].ppn) else None
  }

  /** The hardware's descent agrees with the places of the tree. */
  lemma DescentFinds(t: map<nat, Table>, sp: Space, n: nat)
    requires Tree(t, sp) && n < PAGES
    ensures var x := IndexOf(n);
            && (Child(t, sp.root, x.i2).Some? <==> x.i2 in sp.dir)
            && (x.i2 in sp.dir ==> Child(t, sp.root, x.i2).value == sp.dir[x.i2] && sp.dir[x.i2] in t && |t[sp.dir[x.i2]]| == ENTRIES
                                   && (Child(t, sp.dir[x.i2], x.i1).Some? <==> (x.i2, x.i1) in sp.leaf))
            && ((x.i2, x.i1) in sp.leaf ==> x.i2 in sp.dir && Child(t, sp.dir[x.i2], x.i1).value == sp.leaf[(x.i2, x.i1)])
  {
  }

  // ---- a frame elsewhere changes ----

  lemma Elsewhere(t: map<nat, Table>, u: map<nat, Table>, sp: Space)
    requires Tree(t, sp) && forall f :: f in sp.role ==> f in u && u[f] == t[f]
    ensures Tree(u, sp) && SameMap(t, sp, u, sp)
  {
  }

  // ---- a new table ----

  function WithDir(t: map<nat, Table>, sp: Space, i: nat, f: nat): (map<nat, Table>, Space)
    requires Tree(t, sp) && i < ENTRIES
  {
    (t[f := Blank()][sp.root := t[sp.root][i := Pte(true, 0, f)]],
     sp.(dir := sp.dir[i := f], role := sp.role[f := Dir(i)]))
  }

  lemma NewDirRoles(t: map<nat, Table>, sp: Space, i: nat, f: nat)
    requires Tree(t, sp) && i < ENTRIES && i !in sp.dir && f !in t
    ensures var r := WithDir(t, sp, i, f); Roles(r.1) && Within(r.0, r.1)
  {
    hide RootOk, DirsOk, LeavesOk;
  }

  lemma NewDirRoot(t: map<nat, Table>, sp: Space, i: nat, f: nat)
    requires Tree(t, sp) && i < ENTRIES && i !in sp.dir && f !in t
    ensures var r := WithDir(t, sp, i, f); Roles(r.1) && Within(r.0, r.1) && RootOk(r.0, r.1)
  {
    hide DirsOk, LeavesOk;
    NewDirRoles(t, sp, i, f);
  }

  lemma NewDirDirs(t: map<nat, Table>, sp: Space, i: nat, f: nat)
    requires Tree(t, sp) && i < ENTRIES && i !in sp.dir && f !in t
    ensures var r := WithDir(t, sp, i, f); Roles(r.1) && Within(r.0, r.1) && DirsOk(r.0, r.1)
  {
    hide RootOk, LeavesOk;
    NewDirRoles(t, sp, i, f);
  }

  lemma NewDirLeaves(t: map<nat, Table>, sp: Space, i: nat, f: nat)
    requires Tree(t, sp) && i < ENTRIES && i !in sp.dir && f !in t
    ensures var r := WithDir(t, sp, i, f); Roles(r.1) && Within(r.0, r.1) && LeavesOk(r.0, r.1)
  {
    hide RootOk, DirsOk;
    NewDirRoles(t, sp, i, f);
  }

  lemma NewDirMap(t: map<nat, Table>, sp: Space, i: nat, f: nat)
    requires Tree(t, sp) && i < ENTRIES && i !in sp.dir && f !in t
    ensures var r := WithDir(t, sp, i, f); Roles(r.1) && Within(r.0, r.1) && SameMap(t, sp, r.0, r.1)
  {
    hide RootOk, DirsOk, LeavesOk, IndexOf;
    NewDirRoles(t, sp, i, f);
  }

  lemma NewDir(t: map<nat, Table>, sp: Space, i: nat, f: nat)
    requires Tree(t, sp) && i < ENTRIES && i !in sp.dir && f !in t
    ensures var r := WithDir(t, sp, i, f); Tree(r.0, r.1) && SameMap(t, sp, r.0, r.1)
  {
    hide Roles, Within, RootOk, DirsOk, LeavesOk, SameMap, WithDir;
    NewDirRoot(t, sp, i, f);
    NewDirDirs(t, sp, i, f);
    NewDirLeaves(t, sp, i, f);
    NewDirMap(t, sp, i, f);
  }

  function WithLeaf(t: map<nat, Table>, sp: Space, i: nat, j: nat, f: nat): (map<nat, Table>, Space)
    requires Tree(t, sp) && i in sp.dir && j < ENTRIES
  {
    (t[f := Blank()][sp.dir[i] := t[sp.dir[i]][j := Pte(true, 0, f)]],
     sp.(leaf := sp.leaf[(i, j) := f], role := sp.role[f := Leaf(i, j)]))
  }

  lemma NewLeafRoles(t: map<nat, Table>, sp: Space, i: nat, j: nat, f: nat)
    requires Tree(t, sp) && i in sp.dir && j < ENTRIES && (i, j) !in sp.leaf && f !in t
    ensures var r := WithLeaf(t, sp, i, j, f); Roles(r.1) && Within(r.0, r.1)
  {
    hide RootOk, DirsOk, LeavesOk;
  }

  lemma NewLeafRoot(t: map<nat, Table>, sp: Space, i: nat, j: nat, f: nat)
    requires Tree(t, sp) && i in sp.dir && j < ENTRIES && (i, j) !in sp.leaf && f !in t
    ensures var r := WithLeaf(t, sp, i, j, f); Roles(r.1) && Within(r.0, r.1) && RootOk(r.0, r.1)
  {
    hide DirsOk, LeavesOk;
    NewLeafRoles(t, sp, i, j, f);
  }

  lemma NewLeafDirs(t: map<nat, Table>, sp: Space, i: nat, j: nat, f: nat)
    requires Tree(t, sp) && i in sp.dir && j < ENTRIES && (i, j) !in sp.leaf && f !in t
    ensures var r := WithLeaf(t, sp, i, j, f); Roles(r.1) && Within(r.0, r.1) && DirsOk(r.0, r.1)
  {
    hide RootOk, LeavesOk;
    NewLeafRoles(t, sp, i, j, f);
  }

  lemma NewLeafLeaves(t: map<nat, Table>, sp: Space, i: nat, j: nat, f: nat)
    requires Tree(t, sp) && i in sp.dir && j < ENTRIES && (i, j) !in sp.leaf && f !in t
    ensures var r := WithLeaf(t, sp, i, j, f); Roles(r.1) && Within(r.0, r.1) && LeavesOk(r.0, r.1)
  {
    hide RootOk, DirsOk;
    NewLeafRoles(t, sp, i, j, f);
  }

  lemma NewLeafMap(t: map<nat, Table>, sp: Space, i: nat, j: nat, f: nat)
    requires Tree(t, sp) && i in sp.dir && j < ENTRIES && (i, j) !in sp.leaf && f !in t
    ensures var r := WithLeaf(t, sp, i, j, f); Roles(r.1) && Within(r.0, r.1) && SameMap(t, sp, r.0, r.1)
  {
    hide RootOk, DirsOk, LeavesOk, IndexOf;
    NewLeafRoles(t, sp, i, j, f);
  }

  lemma NewLeaf(t: map<nat, Table>, sp: Space, i: nat, j: nat, f: nat)
    requires Tree(t, sp) && i in sp.dir && j < ENTRIES && (i, j) !in sp.leaf && f !in t
    ensures var r := WithLeaf(t, sp, i, j, f); Tree(r.0, r.1) && SameMap(t, sp, r.0, r.1)
  {
    hide Roles, Within, RootOk, DirsOk, LeavesOk, SameMap, WithLeaf;
    NewLeafRoot(t, sp, i, j, f);
    NewLeafDirs(t, sp, i, j, f);
    NewLeafLeaves(t, sp, i, j, f);
    NewLeafMap(t, sp, i, j, f);
  }

  // ---- a leaf entry changes ----

  /** The place of page n's leaf table */
  function Key(n: nat): (nat, nat) { (IndexOf(n).i2, IndexOf(n).i1) }

  function WithPte(t: map<nat, Table>, sp: Space, n: nat, p: Pte): map<nat, Table>
    requires Tree(t, sp) && Key(n) in sp.leaf
  {
    var f := sp.leaf[Key(n)];
    t[f := t[f][IndexOf(n).i0 := p]]
  }

  lemma SetPteTree(t: map<nat, Table>, sp: Space, n: nat, p: Pte)
    requires Tree(t, sp) && Key(n) in sp.leaf && (p.v ==> p.perm > 0)
    ensures Tree(WithPte(t, sp, n, p), sp)
  {
    hide IndexOf;
  }

  lemma SetPteAt(t: map<nat, Table>, sp: Space, n: nat, p: Pte, m: nat)
    requires Tree(t, sp) && Key(n) in sp.leaf && Tree(WithPte(t, sp, n, p), sp)
    ensures Lookup(WithPte(t, sp, n, p), sp, m) == if m == n then (if p.v then Some(p) else None) else Lookup(t, sp, m)
  {
    hide IndexOf, RootOk, DirsOk, LeavesOk;
    if IndexOf(m) == IndexOf(n) { IndexInjective(m, n); }
  }

  lemma SetPte(t: map<nat, Table>, sp: Space, n: nat, p: Pte)
    requires Tree(t, sp) && Key(n) in sp.leaf && (p.v ==> p.perm > 0)
    ensures var u := WithPte(t, sp, n, p);
            && Tree(u, sp) && Lookup(u, sp, n) == (if p.v then Some(p) else None)
            && forall m: nat :: m != n ==> Lookup(u, sp, m) == Lookup(t, sp, m)
  {
    hide IndexOf, RootOk, DirsOk, LeavesOk, Lookup, WithPte;
    SetPteTree(t, sp, n, p);
    SetPteAt(t, sp, n, p, n);
    forall m: nat | m != n ensures Lookup(WithPte(t, sp, n, p), sp, m) == Lookup(t, sp, m) { SetPteAt(t, sp, n, p, m); }
  }
}
