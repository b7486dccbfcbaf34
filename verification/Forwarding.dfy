/** Forwarding between loads and stores in the load/store queue (`get_bytemask`, `load_match`,
    `store_match` and the two scans of `lsq_stage`), on values.  A queue is listed from its oldest
    entry; byte masks have one bit for each byte of a doubleword. */
module Forwarding {

  // ---------------------------------------------------------------- byte masks

  /** The mask of byte `b`. */
  function Byte(b: nat): bv8
    requires b < 8
  {
    if b == 0 then 1 else if b == 1 then 2 else if b == 2 then 4 else if b == 3 then 8
    else if b == 4 then 16 else if b == 5 then 32 else if b == 6 then 64 else 128
  }

  predicate Bit(m: bv8, b: nat)
    requires b < 8
  {
    m & Byte(b) != 0
  }

  /** A mask as the set of its bytes: `&`, `|` and `~` are intersection, union and complement. */
  type Bytes = set<nat>

  const ALL: Bytes := {0, 1, 2, 3, 4, 5, 6, 7}

  function BytesOf(m: bv8): (bs: Bytes)
    ensures forall b | 0 <= b < 8 :: b in bs <==> Bit(m, b)
    ensures bs <= ALL
  {
    set b: nat | b in ALL && Bit(m, b)
  }

  /** The access widths of the memory instructions. */
  datatype Width = ByteWide | HalfWide | WordWide | LeftPart | RightPart | DoubleWide | NoAccess

  function Shl(x: bv16, n: nat): bv16
    requires n < 8
  {
    if n == 0 then x else if n == 1 then x << 1 else if n == 2 then x << 2 else if n == 3 then x << 3
    else if n == 4 then x << 4 else if n == 5 then x << 5 else if n == 6 then x << 6 else x << 7
  }

  /** `get_bytemask`: computed as an integer and stored in an `unsigned char`. */
  function GetBytemask(w: Width, offset: nat): bv8
    requires offset < 8
  {
    var mask: bv16 :=
      match w
      case ByteWide => Shl(1, offset)
      case HalfWide => Shl(3, offset)
      case WordWide => Shl(15, offset)
      case LeftPart => Shl(Shl(1, offset % 4 + 1) - 1, offset / 4 * 4)
      case RightPart => Shl(Shl(1, 4 - offset % 4) - 1, offset)
      case DoubleWide => 0xff
      case NoAccess => 0;
    (mask & 0xff) as bv8
  }

  /** The bytes that an access at `offset` touches. */
  predicate Accesses(w: Width, offset: nat, b: nat)
  {
    match w
    case ByteWide => b == offset
    case HalfWide => offset <= b < offset + 2
    case WordWide => offset <= b < offset + 4
    case LeftPart => offset / 4 * 4 <= b <= offset
    case RightPart => offset <= b < offset / 4 * 4 + 4
    case DoubleWide => true
    case NoAccess => false
  }

  lemma BytemaskExact(w: Width, offset: nat, b: nat)
    requires offset < 8 && b < 8
    ensures b in BytesOf(GetBytemask(w, offset)) <==> Accesses(w, offset, b)
  {
    match w
    case ByteWide =>
    case HalfWide =>
    case WordWide =>
    case LeftPart =>
      if offset < 4 { assert offset % 4 == offset && offset / 4 == 0; }
      else { assert offset % 4 == offset - 4 && offset / 4 == 1; }
    case RightPart =>
      if offset < 4 { assert offset % 4 == offset && offset / 4 == 0; }
      else { assert offset % 4 == offset - 4 && offset / 4 == 1; }
    case DoubleWide =>
    case NoAccess =>
  }

  // ---------------------------------------------------------------- entries

  /** The states of an entry, in the order of the source. */
  const LSQ_EMPTY := 0
  const LSQ_ENTER := 1
  const LSQ_ISSUE := 2
  const LSQ_DCACHE := 3
  const LSQ_DTAGCMP := 4
  const LSQ_READCACHE := 5
  const LSQ_WRITEBACK := 6
  const LSQ_COMMIT := 7
  const LSQ_DELAY1 := 8

  /** `dword` is the doubleword address (`DWORD_MATCH`). */
  datatype Entry = Entry(
    state: nat, load: bool, store: bool, dword: nat, mask: Bytes, byterdy: Bytes, fetching: bool, ex: bool)

  predicate StoreMatch(e: Entry, dword: nat)
  {
    e.store && e.state >= LSQ_READCACHE && e.dword == dword
  }

  predicate LoadMatch(e: Entry, dword: nat)
  {
    e.load && e.state >= LSQ_READCACHE && e.dword == dword
  }

  /** Does the entry supply byte `b` of the doubleword? */
  predicate Supplies(e: Entry, dword: nat, b: nat)
  {
    StoreMatch(e, dword) && b in e.mask
  }

  /** May the entry be written back? */
  predicate Ready(e: Entry)
  {
    e.state == LSQ_READCACHE && (!e.load || e.byterdy == ALL)
  }

  /** `cache_miss`: does the entry need a miss request? */
  predicate CacheMiss(e: Entry)
  {
    !e.fetching && !e.ex && e.byterdy != ALL &&
    ((e.load && e.state == LSQ_READCACHE) ||
     (e.store && (e.state == LSQ_READCACHE || e.state == LSQ_WRITEBACK || e.state == LSQ_COMMIT)))
  }

  // ---------------------------------------------------------------- the scans

  /** The bytes that the matching stores in `q[lo..hi]` write. */
  function Cover(q: seq<Entry>, lo: nat, hi: nat, dword: nat): Bytes
    requires lo <= hi <= |q|
    decreases hi - lo
  {
    if lo == hi then {} else (if StoreMatch(q[lo], dword) then q[lo].mask else {}) + Cover(q, lo + 1, hi, dword)
  }

  lemma {:induction false} CoverSnoc(q: seq<Entry>, lo: nat, hi: nat, dword: nat)
    requires lo <= hi < |q|
    ensures Cover(q, lo, hi + 1, dword)
              == Cover(q, lo, hi, dword) + (if StoreMatch(q[hi], dword) then q[hi].mask else {})
    decreases hi - lo
  {
    if lo < hi { CoverSnoc(q, lo + 1, hi, dword); }
  }

  lemma {:induction false} CoverExact(q: seq<Entry>, lo: nat, hi: nat, dword: nat, b: nat)
    requires lo <= hi <= |q|
    ensures b in Cover(q, lo, hi, dword) <==> exists j | lo <= j < hi :: Supplies(q[j], dword, b)
    decreases hi - lo
  {
    if lo < hi {
      CoverExact(q, lo + 1, hi, dword, b);
      if exists j | lo <= j < hi :: Supplies(q[j], dword, b) {
        var j :| lo <= j < hi && Supplies(q[j], dword, b);
        assert j == lo || lo + 1 <= j;
      }
    }
  }

  /** `byterdy` of a load that missed, after its scan over the older entries. */
  function LoadReady(q: seq<Entry>, k: nat): Bytes
    requires k < |q|
  {
    (ALL - q[k].mask) + (q[k].mask * Cover(q, 0, k, q[k].dword))
  }

  /** A byte of a missing load is outstanding if and only if the load needs it and no older matching
      store writes it. */
  lemma LoadReadyExact(q: seq<Entry>, k: nat, b: nat)
    requires k < |q| && b < 8
    ensures b !in LoadReady(q, k) <==>
              b in q[k].mask && !exists j | 0 <= j < k :: Supplies(q[j], q[k].dword, b)
  {
    CoverExact(q, 0, k, q[k].dword, b);
  }

  /** What the arriving store `k` gives the younger load `p`: the bytes that no store in between
      writes. */
  function Given(q: seq<Entry>, k: nat, p: nat): Bytes
    requires k < p < |q|
  {
    if LoadMatch(q[p], q[k].dword) then q[p].mask * q[k].mask - Cover(q, k + 1, p, q[k].dword) else {}
  }

  lemma GivenExact(q: seq<Entry>, k: nat, p: nat, b: nat)
    requires k < p < |q|
    ensures b in Given(q, k, p) <==>
              && LoadMatch(q[p], q[k].dword) && b in q[p].mask && b in q[k].mask
              && !exists j | k < j < p :: Supplies(q[j], q[k].dword, b)
  {
    CoverExact(q, k + 1, p, q[k].dword, b);
  }

  /** The load after the scan of store `k`: it has the bytes, and is marked mis-speculated if it had
      already taken others. */
  function Served(q: seq<Entry>, k: nat, p: nat, selected: bool): Entry
    requires k < p < |q|
  {
    var g := Given(q, k, p);
    if g == {} then q[p]
    else q[p].(byterdy := q[p].byterdy + g, ex := q[p].ex || q[p].state == LSQ_WRITEBACK || selected)
  }

  // ---------------------------------------------------------------- program order

  /** The youngest entry older than `p` that supplies byte `b`, or -1. */
  function Youngest(q: seq<Entry>, p: nat, dword: nat, b: nat): (j: int)
    requires p <= |q|
    ensures -1 <= j < p
    ensures 0 <= j ==> Supplies(q[j], dword, b)
    ensures forall i | j < i < p :: !Supplies(q[i], dword, b)
  {
    if p == 0 then -1 else if Supplies(q[p - 1], dword, b) then p - 1 else Youngest(q, p - 1, dword, b)
  }

  /** It is the only such entry. */
  lemma YoungestUnique(q: seq<Entry>, p: nat, dword: nat, b: nat, j: int)
    requires p <= |q| && -1 <= j < p
    requires 0 <= j ==> Supplies(q[j], dword, b)
    requires forall i | j < i < p :: !Supplies(q[i], dword, b)
    ensures Youngest(q, p, dword, b) == j
  {
  }

  /** The arriving store `k` becomes the source of exactly the bytes that it gives. */
  lemma YoungestAfterArrival(q: seq<Entry>, q': seq<Entry>, k: nat, p: nat, b: nat)
    requires |q'| == |q| && k < p < |q| && LoadMatch(q[p], q[k].dword) && b in q[p].mask
    requires StoreMatch(q[k], q[k].dword) && q[k].mask == q'[k].mask
    requires forall j | 0 <= j < |q| && j != k :: Supplies(q'[j], q[k].dword, b) <==> Supplies(q[j], q[k].dword, b)
    requires !Supplies(q'[k], q[k].dword, b)
    ensures Youngest(q, p, q[k].dword, b) == if b in Given(q, k, p) then k else Youngest(q', p, q[k].dword, b)
  {
    GivenExact(q, k, p, b);
    var y := Youngest(q', p, q[k].dword, b);
    if b in Given(q, k, p) {
      YoungestUnique(q, p, q[k].dword, b, k);
    } else {
      YoungestUnique(q, p, q[k].dword, b, y);
    }
  }
}
