/** Simulated memory (`mem_translate`, `mem_newpage`, `mem_access`, the accessors of `memory.h`): an
    inverted page table whose buckets move the page last used to the front and get new pages on the
    first write.  It behaves as a flat map from addresses to bytes, zero at first. */
module PageTable {

  type Byte = bv8

  const PAGE_SIZE := 4096
  const PTAB_SIZE := 32768
  const ADDRESSES := 0x1_0000_0000
  const SIGN := 0x8000_0000

  type Address = a: nat | a < ADDRESSES

  /** `MEM_PTAB_SET`, `MEM_PTAB_TAG`, `MEM_OFFSET` and `MEM_PTE_ADDR`. */
  function SetOf(addr: nat): (s: nat)
    ensures s < PTAB_SIZE
  {
    addr / PAGE_SIZE % PTAB_SIZE
  }

  function TagOf(addr: nat): nat
  {
    addr / (PAGE_SIZE * PTAB_SIZE)
  }

  function OffsetOf(addr: nat): (o: nat)
    ensures o < PAGE_SIZE
  {
    addr % PAGE_SIZE
  }

  function PteAddr(tag: nat, index: nat): nat
  {
    tag * (PAGE_SIZE * PTAB_SIZE) + index * PAGE_SIZE
  }

  /** Set and tag name the page. */
  lemma PteAddrExact(addr: nat)
    ensures PteAddr(TagOf(addr), SetOf(addr)) + OffsetOf(addr) == addr
  {
  }

  lemma SamePlace(a: nat, b: nat)
    requires SetOf(a) == SetOf(b) && TagOf(a) == TagOf(b) && OffsetOf(a) == OffsetOf(b)
    ensures a == b
  {
    PteAddrExact(a);
    PteAddrExact(b);
  }

  // ---------------------------------------------------------------- buckets

  datatype Pte = Pte(tag: nat, page: seq<Byte>)

  predicate Bucket(b: seq<Pte>)
  {
    && (forall i | 0 <= i < |b| :: |b[i].page| == PAGE_SIZE)
    && (forall i, j | 0 <= i < j < |b| :: b[i].tag != b[j].tag)
  }

  /** The place of a tag in a bucket, or the length of the bucket. */
  function Find(b: seq<Pte>, tag: nat): (i: nat)
    ensures i <= |b|
    ensures i < |b| ==> b[i].tag == tag
    ensures forall k | 0 <= k < i :: b[k].tag != tag
  {
    if b == [] || b[0].tag == tag then 0 else 1 + Find(b[1..], tag)
  }

  lemma FindUnique(b: seq<Pte>, tag: nat, i: nat)
    requires Bucket(b) && i < |b| && b[i].tag == tag
    ensures Find(b, tag) == i
  {
  }

  lemma FindNone(b: seq<Pte>, tag: nat)
    requires forall i | 0 <= i < |b| :: b[i].tag != tag
    ensures Find(b, tag) == |b|
  {
  }

  /** The byte of a page, zero if the page does not exist. */
  function Lookup(b: seq<Pte>, tag: nat, offset: nat): Byte
    requires Bucket(b) && offset < PAGE_SIZE
  {
    var i := Find(b, tag);
    if i < |b| then b[i].page[offset] else 0
  }

  function ToFront(b: seq<Pte>, i: nat): seq<Pte>
    requires i < |b|
  {
    [b[i]] + b[..i] + b[i + 1..]
  }

  /** Moving a page to the front changes no byte. */
  lemma ToFrontSame(b: seq<Pte>, i: nat, tag: nat, offset: nat)
    requires Bucket(b) && i < |b| && offset < PAGE_SIZE
    ensures Bucket(ToFront(b, i)) && Lookup(ToFront(b, i), tag, offset) == Lookup(b, tag, offset)
  {
    var b' := ToFront(b, i);
    var k := Find(b, tag);
    if k < |b| {
      FindUnique(b', tag, if k == i then 0 else if k < i then k + 1 else k);
    } else {
      forall j | 0 <= j < |b'|
        ensures b'[j].tag != tag
      {
        assert b'[j] == b[if j == 0 then i else if j <= i then j - 1 else j];
      }
      FindNone(b', tag);
    }
  }

  lemma NewPageSame(b: seq<Pte>, tag: nat, page: seq<Byte>, t: nat, offset: nat)
    requires Bucket(b) && Find(b, tag) == |b| && |page| == PAGE_SIZE && offset < PAGE_SIZE && page[offset] == 0
    ensures var b' := [Pte(tag, page)] + b; Bucket(b') && Lookup(b', t, offset) == Lookup(b, t, offset)
  {
    var b' := [Pte(tag, page)] + b;
    assert b'[1..] == b;
  }

  lemma WriteFirst(b: seq<Pte>, offset: nat, v: Byte, t: nat, o: nat)
    requires Bucket(b) && b != [] && offset < PAGE_SIZE && o < PAGE_SIZE
    ensures var b' := [Pte(b[0].tag, b[0].page[offset := v])] + b[1..];
            Bucket(b') && Lookup(b', t, o) == if t == b[0].tag && o == offset then v else Lookup(b, t, o)
  {
    var b' := [Pte(b[0].tag, b[0].page[offset := v])] + b[1..];
    assert b'[1..] == b[1..];
  }

  // ---------------------------------------------------------------- memory

  datatype Fault = NoFault | AccessFault | AlignmentFault

  /** Bitwise and. */
  function And(a: nat, b: nat): nat
  {
    if a == 0 || b == 0 then 0 else (a % 2) * (b % 2) + 2 * And(a / 2, b / 2)
  }

  /** A signed 32-bit number, and the word that holds it. */
  type Int32 = n: int | -SIGN <= n < SIGN

  function Word(n: Int32): nat
  {
    if n < 0 then n + ADDRESSES else n
  }

  /** The tests of `mem_access` as they are written, with the size less one wrapping around in a word. */
  function MaskCheck(addr: Address, n: Int32): Fault
  {
    var mask := if Word(n) == 0 then ADDRESSES - 1 else Word(n) - 1;
    if And(Word(n), mask) != 0 || n > PAGE_SIZE then AccessFault
    else if And(addr, mask) != 0 then AlignmentFault
    else NoFault
  }

  predicate PowerOfTwo(n: nat)
  {
    n == 1 || (n > 1 && n % 2 == 0 && PowerOfTwo(n / 2))
  }

  lemma AndNone(a: nat)
    ensures And(0, a) == 0
  {
  }

  lemma {:induction false} AndSelf(a: nat)
    ensures And(a, a) == a
  {
    if a > 0 { AndSelf(a / 2); }
  }

  lemma {:induction false} SizeMask(n: nat)
    requires 0 < n
    ensures And(n, n - 1) == 0 <==> PowerOfTwo(n)
  {
    if n > 1 {
      if n % 2 == 0 { SizeMask(n / 2); } else { AndSelf(n / 2); }
    }
  }

  lemma {:induction false} AlignmentMask(addr: nat, n: nat)
    requires PowerOfTwo(n)
    ensures And(addr, n - 1) == addr % n
  {
    if n > 1 {
      AlignmentMask(addr / 2, n / 2);
      ModTwice(addr, n / 2);
    }
  }

  lemma ModTwice(a: nat, m: nat)
    requires 0 < m
    ensures a % (2 * m) == a % 2 + 2 * (a / 2 % m)
  {
    var d, s := a / 2 / m, a / 2 % m;
    assert a == 2 * (m * d + s) + a % 2;
    ModUnique(a, 2 * m, d, 2 * s + a % 2);
  }

  lemma ModUnique(a: nat, n: nat, d: nat, r: nat)
    requires r < n && a == n * d + r
    ensures a % n == r
  {
    var q := a / n;
    assert a == n * q + a % n && n * (q + 1) == n * q + n && n * (d + 1) == n * d + n;
    StrictFactor(n, d, q + 1);
    StrictFactor(n, q, d + 1);
  }

  lemma {:induction false} PowersToPage(n: nat)
    requires 0 < n <= PAGE_SIZE
    ensures PowerOfTwo(n) <==> n in {1, 2, 4, 8, 16, 32, 64, 128, 256, 512, 1024, 2048, 4096}
  {
    if n > 1 { PowersToPage(n / 2); }
  }

  lemma Doubled(n: nat)
    requires PowerOfTwo(n)
    ensures PowerOfTwo(2 * n) && PowerOfTwo(4 * n)
  {
    assert 2 * n / 2 == n && 4 * n / 2 == 2 * n;
  }

  lemma AddressesPower()
    ensures PowerOfTwo(ADDRESSES) && PowerOfTwo(SIGN)
  {
    Doubled(1); Doubled(0x4); Doubled(0x10); Doubled(0x40); Doubled(0x100); Doubled(0x400); Doubled(0x1000);
    Doubled(0x4000); Doubled(0x1_0000); Doubled(0x4_0000); Doubled(0x10_0000); Doubled(0x40_0000);
    Doubled(0x100_0000); Doubled(0x400_0000); Doubled(0x1000_0000); Doubled(0x4000_0000);
  }

  /** There is one power of two from `p` on below `2 * p`. */
  lemma {:induction false} OnlyPower(n: nat, p: nat)
    requires PowerOfTwo(n) && PowerOfTwo(p) && p <= n < 2 * p
    ensures n == p
  {
    if p > 1 { OnlyPower(n / 2, p / 2); }
  }

  /** The two ways of writing the tests agree. */
  lemma MaskCheckExact(addr: Address, n: Int32)
    ensures MaskCheck(addr, n) == Check(addr, n)
  {
    hide And, PowerOfTwo;
    AddressesPower();
    if n == 0 {
      AlignmentMask(addr, ADDRESSES);
      AndNone(ADDRESSES - 1);
    } else if n < 0 {
      SizeMask(Word(n));
      AlignmentMask(addr, SIGN);
      if PowerOfTwo(Word(n)) { OnlyPower(Word(n), SIGN); }
    } else {
      SizeMask(n);
      if n <= PAGE_SIZE {
        PowersToPage(n);
        if PowerOfTwo(n) { AlignmentMask(addr, n); }
      }
    }
  }

  /** What the tests of `mem_access` mean: the size is a power of two (or zero) and at most a page, the
      address a multiple of it.  Of the negative sizes only the least one, whose word is a power of two,
      is not refused as a size. */
  function Check(addr: nat, n: int): Fault
  {
    if n !in {-SIGN, 0, 1, 2, 4, 8, 16, 32, 64, 128, 256, 512, 1024, 2048, 4096} then AccessFault
    else if (if n == 0 then addr != 0 else addr % (if n < 0 then -n else n) != 0) then AlignmentFault
    else NoFault
  }

  /** An accepted access stays within one page. */
  lemma AcceptedWithinPage(addr: nat, n: nat, i: nat)
    requires Check(addr, n) == NoFault && i < n
    ensures SetOf(addr + i) == SetOf(addr) && TagOf(addr + i) == TagOf(addr) && OffsetOf(addr + i) == OffsetOf(addr) + i
  {
    WithinPage(addr, n, i);
    assert (addr + i) / PAGE_SIZE == addr / PAGE_SIZE;
    TagViaPage(addr);
    TagViaPage(addr + i);
  }

  lemma TagViaPage(addr: nat)
    ensures TagOf(addr) == addr / PAGE_SIZE / PTAB_SIZE
  {
  }

  lemma WithinPage(addr: nat, n: nat, i: nat)
    requires Check(addr, n) == NoFault && i < n
    ensures addr % PAGE_SIZE + i < PAGE_SIZE
  {
    if n == 1 { Multiples(addr, n, 4096); } else if n == 2 { Multiples(addr, n, 2048); }
    else if n == 4 { Multiples(addr, n, 1024); } else if n == 8 { Multiples(addr, n, 512); }
    else if n == 16 { Multiples(addr, n, 256); } else if n == 32 { Multiples(addr, n, 128); }
    else if n == 64 { Multiples(addr, n, 64); } else if n == 128 { Multiples(addr, n, 32); }
    else if n == 256 { Multiples(addr, n, 16); } else if n == 512 { Multiples(addr, n, 8); }
    else if n == 1024 { Multiples(addr, n, 4); } else if n == 2048 { Multiples(addr, n, 2); }
    else { Multiples(addr, n, 1); }
  }

  lemma StrictFactor(n: nat, j: int, m: nat)
    requires n * j < n * m
    ensures j < m
  {
  }

  /** A multiple of a divisor of the page size is followed by a whole unit within its page. */
  lemma Multiples(addr: nat, n: nat, m: nat)
    requires 0 < n && n * m == PAGE_SIZE && addr % n == 0
    ensures addr % PAGE_SIZE + n <= PAGE_SIZE
  {
    var k, q := addr / n, addr / PAGE_SIZE;
    var j := k - m * q;
    assert addr % PAGE_SIZE == n * j by {
      assert addr == n * k && addr % PAGE_SIZE == addr - PAGE_SIZE * q;
      assert n * (m * q) == PAGE_SIZE * q;
    }
    StrictFactor(n, j, m);
    assert n * (j + 1) <= n * m;
  }

  class Memory {
    const ptab: array<seq<Pte>>

    ghost predicate Valid()
      reads ptab
    {
      ptab.Length == PTAB_SIZE && forall s | 0 <= s < PTAB_SIZE :: Bucket(ptab[s])
    }

    /** The byte at an address. */
    ghost function At(addr: nat): Byte
      requires Valid()
      reads ptab
    {
      Lookup(ptab[SetOf(addr)], TagOf(addr), OffsetOf(addr))
    }

    constructor ()
      ensures Valid() && forall a: nat :: At(a) == 0
    {
      ptab := new seq<Pte>[PTAB_SIZE](_ => []);
    }

    /** `mem_translate`: the page of the address, if it exists, moves to the front of its bucket. */
    method Translate(addr: nat) returns (found: bool)
      requires Valid()
      modifies ptab
      ensures Valid() && forall a: nat :: At(a) == old(At(a))
      ensures found ==> ptab[SetOf(addr)] != [] && ptab[SetOf(addr)][0].tag == TagOf(addr)
      ensures !found ==> Find(ptab[SetOf(addr)], TagOf(addr)) == |ptab[SetOf(addr)]|
    {
      var b := ptab[SetOf(addr)];
      var i := 0;
      while i < |b| && b[i].tag != TagOf(addr)
        invariant i <= |b| && forall k | 0 <= k < i :: b[k].tag != TagOf(addr)
      {
        i := i + 1;
      }
      found := i < |b|;
      if found {
        forall t, o | 0 <= o < PAGE_SIZE ensures Lookup(ToFront(b, i), t, o) == Lookup(b, t, o) {
          ToFrontSame(b, i, t, o);
        }
        ToFrontSame(b, i, 0, 0);
        if i > 0 {
          ptab[SetOf(addr)] := ToFront(b, i);
        }
      } else {
        FindNone(b, TagOf(addr));
      }
    }

    /** `MEM_PAGE`: the first entry is tried before the bucket is searched. */
    method Page(addr: nat) returns (found: bool)
      requires Valid()
      modifies ptab
      ensures Valid() && forall a: nat :: At(a) == old(At(a))
      ensures found ==> ptab[SetOf(addr)] != [] && ptab[SetOf(addr)][0].tag == TagOf(addr)
      ensures !found ==> Find(ptab[SetOf(addr)], TagOf(addr)) == |ptab[SetOf(addr)]|
    {
      if ptab[SetOf(addr)] != [] && ptab[SetOf(addr)][0].tag == TagOf(addr) {
        return true;
      }
      found := Translate(addr);
    }

    /** `mem_newpage`: a page of zeros goes to the front. */
    method NewPage(addr: nat)
      requires Valid() && Find(ptab[SetOf(addr)], TagOf(addr)) == |ptab[SetOf(addr)]|
      modifies ptab
      ensures Valid() && forall a: nat :: At(a) == old(At(a))
      ensures ptab[SetOf(addr)] != [] && ptab[SetOf(addr)][0].tag == TagOf(addr)
    {
      var b := ptab[SetOf(addr)];
      var page := seq(PAGE_SIZE, _ => 0);
      forall t, o | 0 <= o < PAGE_SIZE ensures Lookup([Pte(TagOf(addr), page)] + b, t, o) == Lookup(b, t, o) {
        NewPageSame(b, TagOf(addr), page, t, o);
      }
      NewPageSame(b, TagOf(addr), page, 0, 0);
      ptab[SetOf(addr)] := [Pte(TagOf(addr), page)] + b;
    }

    /** `MEM_READ_BYTE`: a page that was never written reads as zero. */
    method ReadByte(addr: nat) returns (v: Byte)
      requires Valid()
      modifies ptab
      ensures Valid() && v == At(addr) && forall a: nat :: At(a) == old(At(a))
    {
      var found := Page(addr);
      if found {
        FindUnique(ptab[SetOf(addr)], TagOf(addr), 0);
        v := ptab[SetOf(addr)][0].page[OffsetOf(addr)];
      } else {
        v := 0;
      }
    }

    /** `MEM_WRITE_BYTE`: the page is allocated when it is first written. */
    method WriteByte(addr: nat, v: Byte)
      requires Valid()
      modifies ptab
      ensures Valid() && forall a: nat :: At(a) == if a == addr then v else old(At(a))
    {
      var found := Page(addr);
      if !found {
        NewPage(addr);
      }
      var b := ptab[SetOf(addr)];
      forall t, o | 0 <= o < PAGE_SIZE
        ensures Lookup([Pte(b[0].tag, b[0].page[OffsetOf(addr) := v])] + b[1..], t, o)
             == if t == b[0].tag && o == OffsetOf(addr) then v else Lookup(b, t, o)
      {
        WriteFirst(b, OffsetOf(addr), v, t, o);
      }
      WriteFirst(b, OffsetOf(addr), v, 0, 0);
      ptab[SetOf(addr)] := [Pte(b[0].tag, b[0].page[OffsetOf(addr) := v])] + b[1..];
      forall a: nat ensures At(a) == if a == addr then v else old(At(a)) {
        if SetOf(a) == SetOf(addr) && TagOf(a) == TagOf(addr) && OffsetOf(a) == OffsetOf(addr) { SamePlace(a, addr); }
      }
    }

    /** `mem_access` with `Read`.  No byte is copied for a size that is not positive. */
    method Read(addr: Address, n: Int32) returns (fault: Fault, bytes: seq<Byte>)
      requires Valid()
      modifies ptab
      ensures Valid() && fault == Check(addr, n) && forall a: nat :: At(a) == old(At(a))
      ensures fault == NoFault && n > 0 ==> |bytes| == n && forall i | 0 <= i < n :: bytes[i] == At(addr + i)
      ensures fault != NoFault || n <= 0 ==> bytes == []
    {
      hide MaskCheck, Check, Lookup, SetOf, TagOf, OffsetOf;
      MaskCheckExact(addr, n);
      fault, bytes := MaskCheck(addr, n), [];
      if fault != NoFault {
        return;
      }
      var i := 0;
      while i < n
        invariant (0 <= i <= n || i == 0) && |bytes| == i && Valid() && forall a: nat :: At(a) == old(At(a))
        invariant forall k | 0 <= k < i :: bytes[k] == old(At(addr + k))
      {
        var v := ReadByte(addr + i);
        bytes := bytes + [v];
        i := i + 1;
      }
    }

    /** `mem_access` with `Write`, from a buffer that holds the bytes. */
    method Write(addr: Address, n: Int32, buffer: seq<Byte>) returns (fault: Fault)
      requires Valid() && n <= |buffer|
      modifies ptab
      ensures Valid() && fault == Check(addr, n)
      ensures forall a: nat ::
                At(a) == if fault == NoFault && addr <= a < addr + n then buffer[a - addr] else old(At(a))
    {
      hide MaskCheck, Check, Lookup, SetOf, TagOf, OffsetOf;
      MaskCheckExact(addr, n);
      fault := MaskCheck(addr, n);
      if fault != NoFault {
        return;
      }
      var i := 0;
      while i < n
        invariant (0 <= i <= n || i == 0) && Valid()
        invariant forall a: nat :: At(a) == if addr <= a < addr + i then buffer[a - addr] else old(At(a))
      {
        WriteByte(addr + i, buffer[i]);
        i := i + 1;
      }
    }
  }
}
