/**
 * The runtime library linked into compiled programs (`mkt_stdlib.c`): the
 * list of allocated atoms with its byte counter, the mark bit and the sweep
 * of the collector, allocation of strings and instances, string
 * concatenation and the `println` variants.
 *
 * The list `objs` is a sequence, head first; an atom's `aa_next` link is
 * its successor in the sequence. What `mkt_write` sends to standard output
 * is the byte sequence a method returns.
 */
module Runtime {
  import opened Base
  import opened Decimal
  import opened Println

  /** The bits of `rv_tag`. */
  const RV_TAG_MARKED: bv8 := 0x01
  const RV_TAG_STRING: bv8 := 0x02
  const RV_TAG_INSTANCE: bv8 := 0x04

  /** `rv_size` is a 54-bit bit-field: a size stored there is reduced modulo 2^54. */
  const RV_SIZE_MODULUS: nat := 0x40_0000_0000_0000

  /** `sizeof(runtime_val_header) + sizeof(alloc_atom*)`: the bytes of an atom before its data. */
  const ATOM_OVERHEAD: nat := 16

  /** `runtime_val_header`. */
  datatype Header = Header(size: nat, color: nat, tag: bv8)

  /** An `alloc_atom`: the address `mmap` gave it, its header and its data bytes. */
  datatype Atom = Atom(base: nat, header: Header, data: seq<byte>)

  /** `&atom->aa_data`: the address handed to compiled code. */
  function DataAddr(a: Atom): nat {
    a.base + ATOM_OVERHEAD
  }

  predicate IsMarked(tag: bv8) {
    tag & RV_TAG_MARKED != 0
  }

  function Mark(tag: bv8): bv8 {
    tag | RV_TAG_MARKED
  }

  function Unmark(tag: bv8): bv8 {
    tag & !RV_TAG_MARKED
  }

  function WithTag(a: Atom, tag: bv8): (r: Atom)
    ensures r.base == a.base && r.data == a.data && r.header.size == a.header.size && r.header.tag == tag
  {
    a.(header := a.header.(tag := tag))
  }

  /**
   * Marking sets the bit and keeps the kind bits; a tag that is already
   * marked is left as it is, so marking twice is marking once.
   */
  lemma MarkBits(tag: bv8)
    ensures IsMarked(Mark(tag)) && Mark(Mark(tag)) == Mark(tag)
    ensures IsMarked(tag) ==> Mark(tag) == tag
    ensures Mark(tag) & !RV_TAG_MARKED == tag & !RV_TAG_MARKED
  {
  }

  /** Clearing the bit keeps the kind bits, and marking restores a marked tag. */
  lemma UnmarkBits(tag: bv8)
    ensures !IsMarked(Unmark(tag)) && Unmark(tag) & !RV_TAG_MARKED == tag & !RV_TAG_MARKED
    ensures IsMarked(tag) ==> Mark(Unmark(tag)) == tag
  {
  }

  /** The bytes an atom accounts for in `gc_allocated_bytes`. */
  function Footprint(a: Atom): nat {
    ATOM_OVERHEAD + a.header.size
  }

  function TotalFootprint(xs: seq<Atom>): nat {
    if xs == [] then 0 else Footprint(xs[0]) + TotalFootprint(xs[1..])
  }

  /** The bytes a sweep gives back: the footprints of the unmarked atoms. */
  function FreedBytes(xs: seq<Atom>): nat {
    if xs == [] then 0
    else (if IsMarked(xs[0].header.tag) then 0 else Footprint(xs[0])) + FreedBytes(xs[1..])
  }

  /** What the sweep leaves of one atom: the atom with its mark cleared, or nothing. */
  function Kept(x: Atom): (r: seq<Atom>)
    ensures |r| <= 1
  {
    if IsMarked(x.header.tag) then [WithTag(x, Unmark(x.header.tag))] else []
  }

  /** The list a sweep leaves: the marked atoms, in order, with the mark cleared. */
  function Survivors(xs: seq<Atom>): seq<Atom> {
    if xs == [] then [] else Kept(xs[0]) + Survivors(xs[1..])
  }

  predicate DistinctBases(xs: seq<Atom>) {
    forall i, j | 0 <= i < j < |xs| :: xs[i].base != xs[j].base
  }

  function Bases(xs: seq<Atom>): set<nat> {
    set a | a in xs :: a.base
  }

  /** One atom after the stack scan: marked when a scanned word holds its data address. */
  function MarkIfRoot(a: Atom, roots: seq<nat>): (r: Atom)
    ensures r.base == a.base && r.data == a.data && r.header.size == a.header.size
  {
    if DataAddr(a) in roots then WithTag(a, Mark(a.header.tag)) else a
  }

  /** The list after the stack scan found the words `roots`. */
  function MarkRoots(xs: seq<Atom>, roots: seq<nat>): (r: seq<Atom>)
    ensures |r| == |xs| && forall k | 0 <= k < |xs| :: r[k] == MarkIfRoot(xs[k], roots)
  {
    seq(|xs|, k requires 0 <= k < |xs| => MarkIfRoot(xs[k], roots))
  }

  /** The header of the atom whose data lies at `addr`: what `addr - 8` points to. */
  function HeaderAt(xs: seq<Atom>, addr: nat): (r: Option<Header>)
    ensures r.Some? <==> exists k | 0 <= k < |xs| :: DataAddr(xs[k]) == addr
    ensures forall k | 0 <= k < |xs| && DataAddr(xs[k]) == addr && DistinctBases(xs) :: r == Some(xs[k].header)
  {
    if xs == [] then None
    else if DataAddr(xs[0]) == addr then Some(xs[0].header)
    else
      var r := HeaderAt(xs[1..], addr);
      assert forall k | 1 <= k < |xs| :: xs[k] == xs[1..][k - 1];
      r
  }

  /** `Instance of size <size>\n`. */
  function InstanceLine(size: nat): (r: seq<byte>)
    ensures |r| > 0 && r[|r| - 1] == NEWLINE
  {
    Bytes("Instance of size ") + Text(size) + [NEWLINE]
  }

  /** The three list measures of the sweep distribute over concatenation. */
  lemma SweepAppend(a: seq<Atom>, b: seq<Atom>)
    ensures TotalFootprint(a + b) == TotalFootprint(a) + TotalFootprint(b)
    ensures FreedBytes(a + b) == FreedBytes(a) + FreedBytes(b)
    ensures Survivors(a + b) == Survivors(a) + Survivors(b)
  {
    TotalAppend(a, b);
    FreedAppend(a, b);
    SurvivorsAppend(a, b);
  }

  lemma {:induction false} TotalAppend(a: seq<Atom>, b: seq<Atom>)
    ensures TotalFootprint(a + b) == TotalFootprint(a) + TotalFootprint(b)
    decreases |a|
  {
    if a == [] {
      assert a + b == b;
    } else {
      assert (a + b)[1..] == a[1..] + b;
      TotalAppend(a[1..], b);
    }
  }

  lemma {:induction false} FreedAppend(a: seq<Atom>, b: seq<Atom>)
    ensures FreedBytes(a + b) == FreedBytes(a) + FreedBytes(b)
    decreases |a|
  {
    if a == [] {
      assert a + b == b;
    } else {
      assert (a + b)[1..] == a[1..] + b;
      FreedAppend(a[1..], b);
    }
  }

  lemma {:induction false} SurvivorsAppend(a: seq<Atom>, b: seq<Atom>)
    ensures Survivors(a + b) == Survivors(a) + Survivors(b)
    decreases |a|
  {
    if a == [] {
      assert a + b == b;
    } else {
      assert (a + b)[1..] == a[1..] + b;
      SurvivorsAppend(a[1..], b);
      calc {
        Survivors(a + b);
        Kept(a[0]) + Survivors(a[1..] + b);
        Kept(a[0]) + (Survivors(a[1..]) + Survivors(b));
        (Kept(a[0]) + Survivors(a[1..])) + Survivors(b);
      }
    }
  }

  lemma {:induction false} FreedAtMostTotal(xs: seq<Atom>)
    ensures FreedBytes(xs) <= TotalFootprint(xs)
    decreases |xs|
  {
    if xs != [] {
      FreedAtMostTotal(xs[1..]);
    }
  }

  /** The sweep conserves bytes: what survives plus what is freed is what there was. */
  lemma {:induction false} SurvivorBytes(xs: seq<Atom>)
    ensures TotalFootprint(Survivors(xs)) + FreedBytes(xs) == TotalFootprint(xs)
    decreases |xs|
  {
    if xs != [] {
      SurvivorBytes(xs[1..]);
      TotalAppend(Kept(xs[0]), Survivors(xs[1..]));
    }
  }

  /** Every survivor is unmarked and is, with its mark put back, an atom of the old list. */
  lemma {:induction false} SurvivorsCameFrom(xs: seq<Atom>, a: Atom)
    requires a in Survivors(xs)
    ensures !IsMarked(a.header.tag) && WithTag(a, Mark(a.header.tag)) in xs
    decreases |xs|
  {
    if xs == [] {
      assert false;
    }
    var x := xs[0];
    if IsMarked(x.header.tag) && a == WithTag(x, Unmark(x.header.tag)) {
      UnmarkBits(x.header.tag);
      assert WithTag(a, Mark(a.header.tag)) == x;
    } else {
      assert a in Survivors(xs[1..]);
      SurvivorsCameFrom(xs[1..], a);
    }
  }

  /** Every marked atom survives, with its mark cleared. */
  lemma {:induction false} MarkedSurvive(xs: seq<Atom>, x: Atom)
    requires x in xs && IsMarked(x.header.tag)
    ensures WithTag(x, Unmark(x.header.tag)) in Survivors(xs)
    decreases |xs|
  {
    if xs[0] != x {
      assert x in xs[1..];
      MarkedSurvive(xs[1..], x);
    }
  }

  lemma {:induction false} SurvivorsDistinct(xs: seq<Atom>)
    requires DistinctBases(xs)
    ensures DistinctBases(Survivors(xs))
    decreases |xs|
  {
    if xs != [] {
      var rest := Survivors(xs[1..]);
      SurvivorsDistinct(xs[1..]);
      if IsMarked(xs[0].header.tag) {
        var s := Survivors(xs);
        assert s == [WithTag(xs[0], Unmark(xs[0].header.tag))] + rest;
        forall j | 1 <= j < |s|
          ensures s[0].base != s[j].base
        {
          assert s[j] == rest[j - 1];
          SurvivorsCameFrom(xs[1..], rest[j - 1]);
          var k :| 0 <= k < |xs[1..]| && xs[1..][k] == WithTag(rest[j - 1], Mark(rest[j - 1].header.tag));
          assert xs[k + 1].base == s[j].base;
        }
      }
    }
  }

  /** An unmarked atom of a list with distinct addresses leaves nothing behind. */
  lemma UnmarkedFreed(xs: seq<Atom>, x: Atom)
    requires DistinctBases(xs) && x in xs && !IsMarked(x.header.tag)
    ensures x.base !in Bases(Survivors(xs))
  {
    if x.base in Bases(Survivors(xs)) {
      var a :| a in Survivors(xs) && a.base == x.base;
      SurvivorsCameFrom(xs, a);
      MarkBits(a.header.tag);
      assert false;
    }
  }

  /**
   * After a collection that scanned the words `roots`, an atom is still
   * listed exactly when it was marked before or a scanned word held its
   * data address.
   */
  lemma CollectedExactly(xs: seq<Atom>, roots: seq<nat>, x: Atom)
    requires DistinctBases(xs) && x in xs
    ensures x.base in Bases(Survivors(MarkRoots(xs, roots))) <==>
            IsMarked(x.header.tag) || DataAddr(x) in roots
  {
    var ys := MarkRoots(xs, roots);
    var i :| 0 <= i < |xs| && xs[i] == x;
    var y := ys[i];
    assert y in ys;
    assert DistinctBases(ys) by {
      forall p, q | 0 <= p < q < |ys| ensures ys[p].base != ys[q].base {
        assert ys[p].base == xs[p].base && ys[q].base == xs[q].base;
      }
    }
    MarkBits(x.header.tag);
    if IsMarked(y.header.tag) {
      MarkedSurvive(ys, y);
      assert WithTag(y, Unmark(y.header.tag)).base == x.base;
    } else {
      UnmarkedFreed(ys, y);
    }
  }

  /** A second sweep with no marking in between frees everything. */
  lemma {:induction false} SweepTwiceEmpties(xs: seq<Atom>)
    ensures Survivors(Survivors(xs)) == []
    decreases |xs|
  {
    if xs != [] {
      SweepTwiceEmpties(xs[1..]);
      SurvivorsAppend(Kept(xs[0]), Survivors(xs[1..]));
      UnmarkBits(xs[0].header.tag);
      assert Survivors(Kept(xs[0])) == [];
    }
  }

  /** Scanning one more word marks at most the one atom it points into. */
  lemma MarkRootsStep(xs: seq<Atom>, roots: seq<nat>, r: nat, k: int)
    requires DistinctBases(xs)
    requires k == -1 ==> forall j | 0 <= j < |xs| :: DataAddr(xs[j]) != r
    requires k != -1 ==> 0 <= k < |xs| && DataAddr(xs[k]) == r
    ensures k == -1 ==> MarkRoots(xs, roots + [r]) == MarkRoots(xs, roots)
    ensures k != -1 ==>
      var ys := MarkRoots(xs, roots);
      MarkRoots(xs, roots + [r]) == ys[k := WithTag(ys[k], Mark(ys[k].header.tag))]
  {
    var ys := MarkRoots(xs, roots);
    var zs := MarkRoots(xs, roots + [r]);
    if k == -1 {
      forall j | 0 <= j < |xs| ensures zs[j] == ys[j] {
        assert DataAddr(xs[j]) in roots + [r] <==> DataAddr(xs[j]) in roots;
      }
    } else {
      MarkBits(xs[k].header.tag);
      forall j | 0 <= j < |xs| && j != k ensures zs[j] == ys[j] {
        assert DataAddr(xs[j]) in roots + [r] <==> DataAddr(xs[j]) in roots;
      }
    }
  }

  /**
   * Writing the low byte of the header, as `mkt_string_concat` does through
   * `*(ret - 8)`: on x86-64 the first byte of the header holds the low bits
   * of `rv_size`.
   */
  function LowByteWrite(size: nat, v: int): (r: nat)
    ensures r / 256 == size / 256 && r % 256 == v % 256
  {
    size / 256 * 256 + v % 256
  }

  /** The write stores the low byte that the size field already holds, so it changes nothing. */
  lemma LowByteWriteKeepsSize(n: nat)
    ensures LowByteWrite(n % RV_SIZE_MODULUS, n) == n % RV_SIZE_MODULUS
  {
    var s := n % RV_SIZE_MODULUS;
    assert RV_SIZE_MODULUS == 256 * 0x4000_0000_0000;
    assert s % 256 == n % 256;
  }

  /** The atom list and its counters (the file's `static` variables). */
  class Heap {
    var objs: seq<Atom>
    var allocatedBytes: nat
    var gcRound: nat

    /**
     * The counter covers every listed atom, atoms sit at distinct
     * addresses, and every size fits the 54-bit field.
     */
    ghost predicate Valid()
      reads this
    {
      allocatedBytes >= TotalFootprint(objs) && DistinctBases(objs) &&
      forall k | 0 <= k < |objs| :: objs[k].header.size < RV_SIZE_MODULUS
    }

    constructor()
      ensures objs == [] && allocatedBytes == 0 && gcRound == 0 && Valid()
    {
      objs := [];
      allocatedBytes := 0;
      gcRound := 0;
    }

    /** `atom_cons`: `item` becomes the head and links to the old head. */
    method AtomCons(item: Atom)
      modifies this
      ensures objs == [item] + old(objs)
      ensures allocatedBytes == old(allocatedBytes) && gcRound == old(gcRound)
    {
      objs := [item] + objs;
    }

    /**
     * `mkt_alloc_atom_make`: a zeroed atom of `size` data bytes at `base`,
     * the address `mmap` returned, becomes the head of the list.
     */
    method AllocAtomMake(size: nat, base: nat)
      requires Valid() && base !in Bases(objs)
      modifies this
      ensures objs == [Atom(base, Header(0, 0, 0), Zeros(size))] + old(objs)
      ensures allocatedBytes == old(allocatedBytes) + ATOM_OVERHEAD + size
      ensures gcRound == old(gcRound) && Valid()
    {
      var bytes := ATOM_OVERHEAD + size;
      AtomCons(Atom(base, Header(0, 0, 0), Zeros(size)));
      allocatedBytes := allocatedBytes + bytes;
      assert objs[1..] == old(objs);
      assert forall k | 1 <= k < |objs| :: objs[k] == old(objs)[k - 1];
      assert forall k | 1 <= k < |objs| :: objs[k].base != base by {
        forall k | 1 <= k < |objs| ensures objs[k].base != base {
          assert objs[k] in old(objs);
        }
      }
    }

    /** `mkt_gc_obj_mark` on the header of atom `k`. */
    method MarkAtom(k: nat)
      requires k < |objs|
      modifies this
      ensures objs == old(objs)[k := WithTag(old(objs)[k], Mark(old(objs)[k].header.tag))]
      ensures allocatedBytes == old(allocatedBytes) && gcRound == old(gcRound)
    {
      var tag := objs[k].header.tag;
      if IsMarked(tag) {
        MarkBits(tag);
        assert objs[k] == WithTag(objs[k], Mark(tag));
        return;
      }
      objs := objs[k := WithTag(objs[k], tag | RV_TAG_MARKED)];
    }

    /** `mkt_gc_atom_find_data_by_addr`: the first atom whose data lies at `addr`. */
    method FindDataByAddr(addr: nat) returns (r: Option<nat>)
      ensures r.Some? ==> r.value < |objs| && DataAddr(objs[r.value]) == addr &&
                          forall j | 0 <= j < r.value :: DataAddr(objs[j]) != addr
      ensures r.None? <==> forall j | 0 <= j < |objs| :: DataAddr(objs[j]) != addr
    {
      if addr == 0 {
        return None;
      }
      var k := 0;
      while k < |objs|
        invariant 0 <= k <= |objs|
        invariant forall j | 0 <= j < k :: DataAddr(objs[j]) != addr
      {
        if addr == DataAddr(objs[k]) {
          return Some(k);
        }
        k := k + 1;
      }
      return None;
    }

    /**
     * The marking half of `mkt_gc_scan_stack`: every word the scan reads
     * is looked up, and the atom it points into is marked.
     */
    method ScanRoots(roots: seq<nat>)
      requires Valid()
      modifies this
      ensures objs == MarkRoots(old(objs), roots)
      ensures allocatedBytes == old(allocatedBytes) && gcRound == old(gcRound) && Valid()
    {
      ghost var all := objs;
      var i := 0;
      while i < |roots|
        invariant 0 <= i <= |roots|
        invariant objs == MarkRoots(all, roots[..i])
        invariant allocatedBytes == old(allocatedBytes) && gcRound == old(gcRound)
      {
        var found := FindDataByAddr(roots[i]);
        assert roots[..i + 1] == roots[..i] + [roots[i]];
        if found.Some? {
          MarkRootsStep(all, roots[..i], roots[i], found.value);
          MarkAtom(found.value);
        } else {
          MarkRootsStep(all, roots[..i], roots[i], -1);
        }
        i := i + 1;
      }
      assert roots[..i] == roots;
      assert TotalFootprint(objs) == TotalFootprint(all) by {
        MarkRootsFootprint(all, roots);
      }
    }

    /**
     * `mkt_gc_sweep`: unlinks every unmarked atom, giving its bytes back to
     * the counter, and clears the mark of every atom it keeps.
     */
    method Sweep()
      requires Valid()
      modifies this
      ensures objs == Survivors(old(objs))
      ensures allocatedBytes == old(allocatedBytes) - FreedBytes(old(objs))
      ensures gcRound == old(gcRound) && Valid()
    {
      ghost var all := objs;
      ghost var k := 0;
      var previous := 0;
      while previous < |objs|
        invariant 0 <= k <= |all| && previous == |Survivors(all[..k])|
        invariant objs == Survivors(all[..k]) + all[k..]
        invariant allocatedBytes + FreedBytes(all[..k]) == old(allocatedBytes)
        invariant gcRound == old(gcRound)
        decreases |objs| - previous
      {
        SweepAt(all, k);
        var atom := objs[previous];
        if IsMarked(atom.header.tag) {
          SweepKeep(all, k);
          objs := objs[previous := WithTag(atom, Unmark(atom.header.tag))];
          previous := previous + 1;
        } else {
          var bytes := ATOM_OVERHEAD + atom.header.size;
          SweepBudget(all, k);
          SweepDrop(all, k);
          allocatedBytes := allocatedBytes - bytes;
          objs := objs[..previous] + objs[previous + 1..];
        }
        k := k + 1;
      }
      SweepDone(all, k);
    }

    /** `mkt_gc`: one more round, the stack scan, then the sweep. */
    method Gc(roots: seq<nat>)
      requires Valid()
      modifies this
      ensures objs == Survivors(MarkRoots(old(objs), roots))
      ensures allocatedBytes == old(allocatedBytes) - FreedBytes(MarkRoots(old(objs), roots))
      ensures gcRound == old(gcRound) + 1 && Valid()
    {
      gcRound := gcRound + 1;
      ScanRoots(roots);
      Sweep();
    }

    /**
     * `mkt_string_make` and `mkt_instance_make`: collect, then list a new
     * atom whose header records the size and the kind, and hand out the
     * address of its data.
     */
    method MakeTagged(size: nat, kind: bv8, roots: seq<nat>, base: nat) returns (addr: nat)
      requires Valid() && base !in Bases(Survivors(MarkRoots(objs, roots)))
      modifies this
      ensures objs == [Atom(base, Header(size % RV_SIZE_MODULUS, 0, kind), Zeros(size))] +
                      Survivors(MarkRoots(old(objs), roots))
      ensures allocatedBytes == old(allocatedBytes) - FreedBytes(MarkRoots(old(objs), roots)) + ATOM_OVERHEAD + size
      ensures gcRound == old(gcRound) + 1 && Valid()
      ensures addr == DataAddr(objs[0]) && HeaderAt(objs, addr) == Some(objs[0].header)
    {
      ghost var before := objs;
      Gc(roots);
      AllocAtomMake(size, base);
      ghost var listed := objs;
      var atom := objs[0].(header := Header(size % RV_SIZE_MODULUS, 0, kind));
      ReplaceHead(listed, atom);
      objs := objs[0 := atom];
      addr := base + ATOM_OVERHEAD;
    }

    method StringMake(size: nat, roots: seq<nat>, base: nat) returns (addr: nat)
      requires Valid() && base !in Bases(Survivors(MarkRoots(objs, roots)))
      modifies this
      ensures objs == [Atom(base, Header(size % RV_SIZE_MODULUS, 0, RV_TAG_STRING), Zeros(size))] +
                      Survivors(MarkRoots(old(objs), roots))
      ensures allocatedBytes == old(allocatedBytes) - FreedBytes(MarkRoots(old(objs), roots)) + ATOM_OVERHEAD + size
      ensures gcRound == old(gcRound) + 1 && Valid()
      ensures addr == DataAddr(objs[0]) && HeaderAt(objs, addr) == Some(objs[0].header)
    {
      addr := MakeTagged(size, RV_TAG_STRING, roots, base);
    }

    method InstanceMake(size: nat, roots: seq<nat>, base: nat) returns (addr: nat)
      requires Valid() && base !in Bases(Survivors(MarkRoots(objs, roots)))
      modifies this
      ensures objs == [Atom(base, Header(size % RV_SIZE_MODULUS, 0, RV_TAG_INSTANCE), Zeros(size))] +
                      Survivors(MarkRoots(old(objs), roots))
      ensures allocatedBytes == old(allocatedBytes) - FreedBytes(MarkRoots(old(objs), roots)) + ATOM_OVERHEAD + size
      ensures gcRound == old(gcRound) + 1 && Valid()
      ensures addr == DataAddr(objs[0]) && HeaderAt(objs, addr) == Some(objs[0].header)
    {
      addr := MakeTagged(size, RV_TAG_INSTANCE, roots, base);
    }

    /**
     * `mkt_string_concat`: a new string atom of `|a| + |b|` bytes holding
     * `a` then `b`. `a` and `b` are the operands' bytes, `rv_size` of each.
     */
    method StringConcat(a: seq<byte>, b: seq<byte>, roots: seq<nat>, base: nat) returns (addr: nat)
      requires Valid() && base !in Bases(Survivors(MarkRoots(objs, roots)))
      modifies this
      ensures objs == [Atom(base, Header((|a| + |b|) % RV_SIZE_MODULUS, 0, RV_TAG_STRING), a + b)] +
                      Survivors(MarkRoots(old(objs), roots))
      ensures allocatedBytes == old(allocatedBytes) - FreedBytes(MarkRoots(old(objs), roots)) + ATOM_OVERHEAD + |a| + |b|
      ensures gcRound == old(gcRound) + 1 && Valid()
      ensures addr == DataAddr(objs[0])
    {
      addr := StringMake(|a| + |b|, roots, base);
      var ret := CopyConcat(a, b);
      var h := objs[0].header;
      LowByteWriteKeepsSize(|a| + |b|);
      var atom := objs[0].(data := ret[..], header := h.(size := LowByteWrite(h.size, |a| + |b|)));
      ReplaceHead(objs, atom);
      objs := objs[0 := atom];
    }

    /** `mkt_instance_println`: the size recorded in the header of the instance at `addr`. */
    method InstancePrintln(addr: nat) returns (w: seq<byte>)
      requires Valid() && addr != 0 && HeaderAt(objs, addr).Some?
      ensures w == InstanceLine(HeaderAt(objs, addr).value.size)
    {
      var header := HeaderAt(objs, addr).value;
      assert header.size < RV_SIZE_MODULUS by {
        var k :| 0 <= k < |objs| && DataAddr(objs[k]) == addr;
      }
      var sizeText := new byte[23](_ => NUL);
      var sizeLen := IntToString(header.size, sizeText);
      w := Bytes("Instance of size ") + sizeText[23 - sizeLen..] + [NEWLINE];
    }
  }

  /**
   * Overwriting the head atom in place, at the same base, keeps the list
   * valid; the footprint changes by the difference of the two sizes and
   * the new header is the one found at its data address.
   */
  lemma ReplaceHead(xs: seq<Atom>, a: Atom)
    requires |xs| > 0 && a.base == xs[0].base && DistinctBases(xs)
    requires a.header.size < RV_SIZE_MODULUS
    requires forall k | 0 <= k < |xs| :: xs[k].header.size < RV_SIZE_MODULUS
    ensures var ys := xs[0 := a];
            ys[1..] == xs[1..] && DistinctBases(ys) &&
            (forall k | 0 <= k < |ys| :: ys[k].header.size < RV_SIZE_MODULUS) &&
            TotalFootprint(ys) + Footprint(xs[0]) == TotalFootprint(xs) + Footprint(a) &&
            HeaderAt(ys, DataAddr(a)) == Some(a.header)
  {
    var ys := xs[0 := a];
    assert ys[1..] == xs[1..];
    assert forall i | 0 <= i < |ys| :: ys[i].base == xs[i].base;
  }

  lemma {:induction false} MarkRootsFootprint(xs: seq<Atom>, roots: seq<nat>)
    ensures TotalFootprint(MarkRoots(xs, roots)) == TotalFootprint(xs)
    decreases |xs|
  {
    if xs != [] {
      MarkRootsFootprint(xs[1..], roots);
      assert MarkRoots(xs, roots)[1..] == MarkRoots(xs[1..], roots);
    }
  }

  /** Before the sweep looks at `all[k]`, that atom sits just after the survivors so far. */
  lemma SweepAt(all: seq<Atom>, k: nat)
    requires k < |all|
    ensures var p := |Survivors(all[..k])|;
            p < |Survivors(all[..k]) + all[k..]| && (Survivors(all[..k]) + all[k..])[p] == all[k]
  {
  }

  /** Keeping the marked atom `all[k]` overwrites it with its unmarked copy. */
  lemma SweepKeep(all: seq<Atom>, k: nat)
    requires k < |all| && IsMarked(all[k].header.tag)
    ensures var objs := Survivors(all[..k]) + all[k..];
            var p := |Survivors(all[..k])|;
            p < |objs| &&
            objs[p := WithTag(all[k], Unmark(all[k].header.tag))] == Survivors(all[..k + 1]) + all[k + 1..] &&
            p + 1 == |Survivors(all[..k + 1])| && FreedBytes(all[..k + 1]) == FreedBytes(all[..k])
  {
    var atom := all[k];
    assert all[..k + 1] == all[..k] + [atom];
    assert all[k..] == [atom] + all[k + 1..];
    SurvivorsAppend(all[..k], [atom]);
    FreedAppend(all[..k], [atom]);
    assert Survivors([atom]) == Kept(atom);
  }

  /** Dropping the unmarked atom `all[k]` unlinks it and frees its footprint. */
  lemma SweepDrop(all: seq<Atom>, k: nat)
    requires k < |all| && !IsMarked(all[k].header.tag)
    ensures var objs := Survivors(all[..k]) + all[k..];
            var p := |Survivors(all[..k])|;
            p < |objs| &&
            objs[..p] + objs[p + 1..] == Survivors(all[..k + 1]) + all[k + 1..] &&
            p == |Survivors(all[..k + 1])| &&
            FreedBytes(all[..k + 1]) == FreedBytes(all[..k]) + Footprint(all[k])
  {
    var atom := all[k];
    assert all[..k + 1] == all[..k] + [atom];
    assert all[k..] == [atom] + all[k + 1..];
    SurvivorsAppend(all[..k], [atom]);
    FreedAppend(all[..k], [atom]);
    assert Survivors([atom]) == [];
    var objs := Survivors(all[..k]) + all[k..];
    assert objs[..|Survivors(all[..k])|] == Survivors(all[..k]);
  }

  /** When the sweep has walked the whole list, the heap is valid again. */
  lemma SweepDone(all: seq<Atom>, k: nat)
    requires k <= |all| && |Survivors(all[..k])| == |Survivors(all[..k]) + all[k..]|
    requires DistinctBases(all)
    requires forall j | 0 <= j < |all| :: all[j].header.size < RV_SIZE_MODULUS
    ensures k == |all| && all[..k] == all
    ensures TotalFootprint(Survivors(all)) + FreedBytes(all) == TotalFootprint(all)
    ensures DistinctBases(Survivors(all))
    ensures forall j | 0 <= j < |Survivors(all)| :: Survivors(all)[j].header.size < RV_SIZE_MODULUS
  {
    assert all[..k] == all;
    SurvivorBytes(all);
    SurvivorsDistinct(all);
    var s := Survivors(all);
    forall j | 0 <= j < |s| ensures s[j].header.size < RV_SIZE_MODULUS {
      SurvivorsCameFrom(all, s[j]);
    }
  }

  /** The `CHECK` before the counter is lowered in `mkt_gc_sweep` never fires. */
  lemma SweepBudget(all: seq<Atom>, k: nat)
    requires k < |all|
    ensures FreedBytes(all[..k]) + Footprint(all[k]) <= TotalFootprint(all)
  {
    assert all == all[..k] + all[k..];
    SweepAppend(all[..k], all[k..]);
    FreedAtMostTotal(all[..k]);
  }

  /**
   * `mkt_int_to_string`: the text of `n` in the last `len` bytes of the
   * 23-byte buffer `s`, written right to left; the rest of `s` is left as
   * it was. The magnitude is taken with a 64-bit `-n`, so the text is
   * `AsWrittenText`, which is the decimal text except for the smallest
   * `long long`.
   */
  method IntToString(n: int, s: array<byte>) returns (len: nat)
    requires s.Length == 23 && LLONG_MIN <= n <= LLONG_MAX
    modifies s
    ensures len <= 20 && s[..] == old(s[..23 - len]) + AsWrittenText(n)
    ensures n != LLONG_MIN ==> s[..] == old(s[..23 - len]) + Text(n)
  {
    ghost var before := s[..];
    var neg := n < 0;
    var m := if neg then Neg64(n) else n;
    AsWrittenTextFits(n);
    len := PutDigits(m, s, 23);
    ghost var digitsDone := s[..];
    ghost var d := len;
    if neg {
      s[22 - len] := MINUS;
      len := len + 1;
    }
    ghost var out := s[..];
    assert out == if neg then digitsDone[22 - d := MINUS] else digitsDone;
    SignBefore(before, digitsDone, out, DoWhileDigits(m), neg, d, len);
    TextOfSignAndDigits(n, m, before[..23 - len], out);
  }

  /** The sign and the loop's bytes for the magnitude are the text as written. */
  lemma TextOfSignAndDigits(n: int, m: int, kept: seq<byte>, out: seq<byte>)
    requires LLONG_MIN <= n <= LLONG_MAX && m == (if n < 0 then Neg64(n) else n)
    requires out == kept + ((if n < 0 then [MINUS] else []) + DoWhileDigits(m))
    ensures out == kept + AsWrittenText(n)
    ensures n != LLONG_MIN ==> out == kept + Text(n)
  {
    if n != LLONG_MIN {
      AsWrittenAgrees(n);
    }
  }

  /** The sign, when there is one, goes just before the `digits` that end the buffer. */
  lemma SignBefore(before: seq<byte>, buf: seq<byte>, out: seq<byte>, digits: seq<byte>, neg: bool, d: nat, len: nat)
    requires |before| == |buf| == 23 && d == |digits| <= 22
    requires buf == before[..23 - d] + buf[23 - d..23] + before[23..] && buf[23 - d..23] == digits
    requires len == (if neg then d + 1 else d)
    requires out == if neg then buf[22 - d := MINUS] else buf
    ensures out == before[..23 - len] + ((if neg then [MINUS] else []) + digits)
  {
    assert buf == before[..23 - d] + digits;
    if neg {
      assert out == before[..22 - d] + ([MINUS] + digits);
    }
  }

  /** The two copy loops of `mkt_string_concat`: `a`, then `b` after it. */
  method CopyConcat(a: seq<byte>, b: seq<byte>) returns (ret: array<byte>)
    ensures fresh(ret) && ret[..] == a + b
  {
    ret := new byte[|a| + |b|](_ => NUL);
    for i := 0 to |a|
      invariant forall j | 0 <= j < i :: ret[j] == a[j]
    {
      ret[i] := a[i];
    }
    for i := 0 to |b|
      invariant forall j | 0 <= j < |a| :: ret[j] == a[j]
      invariant forall j | 0 <= j < i :: ret[|a| + j] == b[j]
    {
      ret[|a| + i] := b[i];
    }
    assert ret[..] == a + b;
  }

  /**
   * The do-while loop of `mkt_int_to_string` (and of `println_int` in the
   * standalone runtime): `'0'` plus C's remainder of `m` by 10, right to
   * left, ending just before `s[end]`, until the quotient is 0; the bytes
   * outside them are left as they were.
   */
  method PutDigits(m: int, s: array<byte>, end: nat) returns (len: nat)
    requires end <= s.Length && |DoWhileDigits(m)| <= end
    modifies s
    ensures len == |DoWhileDigits(m)| && s[end - len..end] == DoWhileDigits(m)
    ensures s[..] == old(s[..])[..end - len] + s[end - len..end] + old(s[..])[end..]
  {
    ghost var before := s[..];
    ghost var full := DoWhileDigits(m);
    len := 0;
    var rest := m;
    var more := true;
    while more
      invariant len <= |full| && s.Length == |before|
      invariant more ==> DoWhileDigits(rest) == full[..|full| - len]
      invariant !more ==> len == |full|
      invariant s[..] == before[..end - len] + full[|full| - len..] + before[end..]
      decreases if rest < 0 then -rest else rest, more
    {
      ghost var prev := s[..];
      ghost var was := rest;
      var rem := CRem10(rest);
      rest := CQuot10(rest);
      s[end - 1 - len] := (rem + 48) as byte;
      DigitStep(before, full, prev, s[..], end, len, was);
      len := len + 1;
      more := rest != 0;
    }
    SplicedIn(before, full, s[..], end, len);
  }

  /** The loop's bytes sit in `end - len..end`, with `before` on both sides. */
  lemma SplicedIn(before: seq<byte>, full: seq<byte>, after: seq<byte>, end: nat, len: nat)
    requires len == |full| <= end <= |before|
    requires after == before[..end - len] + full + before[end..]
    ensures after[end - len..end] == full
    ensures after == before[..end - len] + after[end - len..end] + before[end..]
  {
    assert after[end - len..end] == full;
  }

  /**
   * One turn of the loop: storing `'0'` plus the remainder of `rest` just
   * before the bytes already written extends them by one, and the quotient
   * has the bytes still to come (none when it is 0).
   */
  lemma DigitStep(before: seq<byte>, full: seq<byte>, prev: seq<byte>, next: seq<byte>, end: nat, len: nat, rest: int)
    requires |full| <= end <= |before| == |prev| && len <= |full|
    requires DoWhileDigits(rest) == full[..|full| - len]
    requires prev == before[..end - len] + full[|full| - len..] + before[end..]
    requires len < |full| && next == prev[end - 1 - len := (CRem10(rest) + 48) as byte]
    ensures next == before[..end - (len + 1)] + full[|full| - (len + 1)..] + before[end..]
    ensures CQuot10(rest) != 0 ==> DoWhileDigits(CQuot10(rest)) == full[..|full| - (len + 1)]
    ensures CQuot10(rest) == 0 ==> len + 1 == |full|
  {
    DoWhileSplit(rest, full, |full| - len);
    assert full[|full| - (len + 1)..] == [full[|full| - 1 - len]] + full[|full| - len..];
  }

  /** `mkt_bool_println`. */
  method BoolPrintln(b: int) returns (w: seq<byte>)
    ensures w == BoolLine(b != 0)
  {
    if b != 0 {
      w := Bytes("true\n");
    } else {
      w := Bytes("false\n");
    }
  }

  /** `mkt_char_println`: the character and a newline, in one write. */
  method CharPrintln(c: byte) returns (w: seq<byte>)
    ensures w == CharLine(c)
  {
    var s := new byte[2];
    s[0], s[1] := c, NEWLINE;
    w := s[..];
  }

  /** `mkt_int_println`: the text from `mkt_int_to_string`, then a newline. */
  method IntPrintln(n: int) returns (w: seq<byte>)
    requires LLONG_MIN <= n <= LLONG_MAX
    ensures w == AsWrittenText(n) + [NEWLINE]
    ensures n != LLONG_MIN ==> w == IntLine(n)
  {
    var s := new byte[23](_ => NUL);
    var sLen := IntToString(n, s);
    w := s[23 - sLen..] + [NEWLINE];
  }

  /**
   * `mkt_string_println`: `rv_size` bytes of the string and a newline, or
   * an abort (`None`) when the header is not tagged as a string.
   */
  method StringPrintln(s: seq<byte>, header: Header) returns (w: Option<seq<byte>>)
    requires header.size <= |s|
    ensures w.Some? <==> header.tag & RV_TAG_STRING != 0
    ensures w.Some? ==> w.value == StringLine(s[..header.size])
  {
    if header.tag & RV_TAG_STRING == 0 {
      return None;
    }
    w := Some(s[..header.size] + [NEWLINE]);
  }
}
