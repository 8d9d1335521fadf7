/** Where the flash driver puts the four regions of the store, and when they are apart. */
module KvedLayout {
  import opened Options
  import KvedWord
  import KvedFlash
  import KvedStrings
  import KvedStore

  datatype Region = SectorA | SectorB | StringA | StringB

  /** `flash_addr`, `flash_sector_size`, `max_entries`, and the longest string. */
  datatype Driver = Driver(addr: nat, sector: nat, entries: nat, maxString: nat)

  const ADDRESSES := 0x1_0000_0000

  predicate PowerOfTwo(n: nat) { n == 1 || (n > 1 && n % 2 == 0 && PowerOfTwo(n / 2)) }

  /** `oblfr_kved_flash_sector_size`, in 32 bits. */
  function Size(d: Driver, r: Region): nat {
    if r == StringA || r == StringB then (d.entries * d.maxString + (d.entries + 2) * 8) % ADDRESSES else d.sector
  }

  /** The start of the partition, rounded down by masking. */
  function Base(d: Driver): nat
    requires 1 <= d.sector <= ADDRESSES
  {
    KvedWord.And(d.addr, ADDRESSES - d.sector)
  }

  /** Flash sectors set aside for a region: always one more than its size divided out. */
  function Slots(d: Driver, r: Region): nat
    requires d.sector > 0
  {
    Size(d, r) / d.sector + 1
  }

  /** `sectors_required`, which has 8 bits. */
  function SectorsBefore(d: Driver, r: Region): nat
    requires d.sector > 0
  {
    var total := match r
      case SectorA => 0
      case SectorB => Slots(d, SectorA)
      case StringA => Slots(d, SectorA) + Slots(d, SectorB)
      case StringB => Slots(d, SectorA) + Slots(d, SectorB) + Slots(d, StringA);
    total % 256
  }

  /** The size of so many flash sectors. */
  function Bytes(sectors: nat, size: nat): nat { sectors * size }

  /** `get_sector_addr` at index 0. */
  function Start(d: Driver, r: Region): nat
    requires 1 <= d.sector <= ADDRESSES
  {
    (Base(d) + Bytes(SectorsBefore(d, r), d.sector)) % ADDRESSES
  }

  lemma Wrap32(x: nat, y: nat)
    ensures (x % ADDRESSES + y) % ADDRESSES == (x + y) % ADDRESSES
  {
  }

  lemma WrapTwice(x: nat, y: nat)
    ensures (x % 256 + y) % 256 == (x + y) % 256
  {
  }

  /** `get_sector_addr`: the cases fall through, and the count wraps at every addition. */
  method GetSectorAddr(d: Driver, r: Region, index: nat) returns (addr: nat)
    requires 1 <= d.sector <= ADDRESSES
    ensures addr == (Start(d, r) + 8 * index) % ADDRESSES
  {
    var sectors := CountSectors(d, r);
    hide SectorsBefore, KvedWord.And, Bytes;
    Wrap32(Base(d) + Bytes(SectorsBefore(d, r), d.sector), 8 * index);
    addr := (KvedWord.And(d.addr, ADDRESSES - d.sector) + Bytes(sectors, d.sector) + 8 * index) % ADDRESSES;
  }

  method CountSectors(d: Driver, r: Region) returns (sectors: nat)
    requires d.sector > 0
    ensures sectors == SectorsBefore(d, r)
  {
    hide Slots;
    sectors := 0;
    if r == StringB {
      sectors := (sectors + Slots(d, StringA)) % 256;
    }
    if r == StringB || r == StringA {
      WrapTwice(if r == StringB then Slots(d, StringA) else 0, Slots(d, SectorB));
      sectors := (sectors + Slots(d, SectorB)) % 256;
    }
    if r != SectorA {
      WrapTwice((if r == StringB then Slots(d, StringA) else 0) + (if r != SectorB then Slots(d, SectorB) else 0), Slots(d, SectorA));
      sectors := (sectors + Slots(d, SectorA)) % 256;
    }
  }

  /** Erasing works on whole flash sectors. */
  function ErasedSectors(d: Driver, r: Region): nat
    requires d.sector > 0
  {
    (Size(d, r) + d.sector - 1) / d.sector
  }

  // ------------------------------------------------------------ what a region holds

  /** The bytes of a string sector: a signature, the pointer words, the end signature, the texts. */
  function Footprint(t: KvedFlash.StrSector): nat { 8 + 8 * |t.index| + 8 + |t.data| }

  /** A string region is exactly as large as a string table with one pointer word and room for
      one longest text per entry, whatever is logged in it. */
  lemma StringRegionHolds(d: Driver, r: Region, sig: KvedWord.Word, end: KvedWord.Word, texts: seq<KvedStrings.Text>)
    requires r == StringA || r == StringB
    requires d.entries * d.maxString + (d.entries + 2) * 8 < ADDRESSES
    requires KvedStrings.Loggable(texts, KvedStrings.Dims(d.maxString, d.entries, d.entries * d.maxString))
    ensures Footprint(KvedStrings.Table(sig, end, texts, KvedStrings.Dims(d.maxString, d.entries, d.entries * d.maxString)))
         == Size(d, r)
  {
    TableFootprint(sig, end, texts, KvedStrings.Dims(d.maxString, d.entries, d.entries * d.maxString));
  }

  lemma TableFootprint(sig: KvedWord.Word, end: KvedWord.Word, texts: seq<KvedStrings.Text>, dims: KvedStrings.Dims)
    requires KvedStrings.Loggable(texts, dims)
    ensures Footprint(KvedStrings.Table(sig, end, texts, dims)) == 8 * (dims.n + 2) + dims.bytes
  {
    hide KvedStrings.TotalWords;
  }

  /** The slots of an index sector follow its two header words without gaps and end where the
      region does, if there is one less of them than 16-byte entries fit a flash sector. */
  lemma IndexRegionHolds(d: Driver, r: Region, n: nat, i: nat)
    requires (r == SectorA || r == SectorB) && 16 * (n + 1) == d.sector && i < n
    ensures 8 * KvedStore.IndexOf(0) == 16 && KvedStore.SlotOf(KvedStore.IndexOf(i)) == i
    ensures 8 * KvedStore.IndexOf(i + 1) == 8 * KvedStore.IndexOf(i) + 16 <= Size(d, r)
    ensures i == n - 1 ==> 8 * KvedStore.IndexOf(i + 1) == Size(d, r)
  {
  }

  // ------------------------------------------------------------------- masking

  lemma Ones32()
    ensures KvedWord.AllOnes(0xFFFF_FFFF)
  {
    var a: nat := 0;
    for i := 0 to 8
      invariant KvedWord.AllOnes(a)
      invariant a == [0, 0xF, 0xFF, 0xFFF, 0xFFFF, 0xF_FFFF, 0xFF_FFFF, 0xFFF_FFFF, 0xFFFF_FFFF][i]
    {
      KvedWord.AllOnesWiden(a);
      a := 16 * a + 15;
    }
  }

  lemma {:induction false} AndSwap(a: nat, b: nat)
    ensures KvedWord.And(a, b) == KvedWord.And(b, a)
  {
    if a != 0 && b != 0 {
      AndSwap(a / 2, b / 2);
    }
  }

  lemma AndEven(a: nat, mask: nat)
    requires mask % 2 == 0
    ensures KvedWord.And(a, mask) == 2 * KvedWord.And(a / 2, mask / 2)
  {
  }

  /** Clearing the low bits rounds down to a multiple of the power of two. */
  lemma {:induction false} MaskRoundsDown(a: nat, ones: nat, p: nat)
    requires KvedWord.AllOnes(ones) && a <= ones && PowerOfTwo(p) && p <= ones + 1
    ensures KvedWord.And(a, ones + 1 - p) == a - a % p
    decreases p
  {
    if p == 1 {
      AndSwap(a, ones);
      KvedWord.AndAllOnes(ones, a);
    } else {
      HalfMask(ones, p);
      MaskRoundsDown(a / 2, ones / 2, p / 2);
      DoubleMask(a, ones, p);
    }
  }

  lemma DoubleMask(a: nat, ones: nat, p: nat)
    requires 1 < p <= ones + 1 && p == 2 * (p / 2)
    requires (ones + 1 - p) % 2 == 0 && (ones + 1 - p) / 2 == ones / 2 + 1 - p / 2 >= 0
    requires KvedWord.And(a / 2, ones / 2 + 1 - p / 2) == a / 2 - (a / 2) % (p / 2)
    ensures KvedWord.And(a, ones + 1 - p) == a - a % p
  {
    hide KvedWord.And;
    AndEven(a, ones + 1 - p);
    HalveRest(a, p / 2);
  }

  lemma HalfMask(ones: nat, p: nat)
    requires KvedWord.AllOnes(ones) && PowerOfTwo(p) && 1 < p <= ones + 1
    ensures KvedWord.AllOnes(ones / 2) && PowerOfTwo(p / 2) && p == 2 * (p / 2) && p / 2 <= ones / 2 + 1
    ensures (ones + 1 - p) % 2 == 0 && (ones + 1 - p) / 2 == ones / 2 + 1 - p / 2
  {
  }

  lemma HalveRest(a: nat, q: nat)
    requires q > 0
    ensures a % (2 * q) == 2 * ((a / 2) % q) + a % 2
  {
    var k, r := (a / 2) / q, (a / 2) % q;
    assert k * (2 * q) == 2 * (k * q);
    Quotient(a, 2 * q, k, 2 * r + a % 2);
  }

  lemma Quotient(a: nat, n: nat, k: nat, r: nat)
    requires a == k * n + r && r < n
    ensures a / n == k && a % n == r
  {
    Multiples(a / n, k, n);
    Multiples(k, a / n, n);
  }

  lemma Multiples(x: nat, y: nat, n: nat)
    ensures x < y ==> x * n + n <= y * n
  {
    if x < y {
      assert (x + 1) * n <= y * n;
    }
  }

  // --------------------------------------------------------------- separation

  /** First and last flash sector of a region, counted from the start of the partition. */
  predicate Apart(d: Driver, r: Region, r': Region)
    requires d.sector > 0
  {
    || SectorsBefore(d, r) + ErasedSectors(d, r) <= SectorsBefore(d, r')
    || SectorsBefore(d, r') + ErasedSectors(d, r') <= SectorsBefore(d, r)
  }

  lemma Counts(d: Driver)
    requires d.sector > 0
    ensures SectorsBefore(d, SectorA) == 0 && SectorsBefore(d, SectorB) == 2 && SectorsBefore(d, StringA) == 4
    ensures SectorsBefore(d, StringB) == (5 + Size(d, StringA) / d.sector) % 256
    ensures ErasedSectors(d, SectorA) == ErasedSectors(d, SectorB) == 1
    ensures Size(d, StringA) / d.sector <= ErasedSectors(d, StringA) <= Size(d, StringA) / d.sector + 1
    ensures ErasedSectors(d, StringA) == ErasedSectors(d, StringB)
  {
    hide Size;
    assert Size(d, SectorA) == Size(d, SectorB) == d.sector && Size(d, StringA) == Size(d, StringB) by {
      SizesEqual(d);
    }
    Quotient(d.sector, d.sector, 1, 0);
    RoundedUp(d.sector, d.sector);
    RoundedUp(Size(d, StringA), d.sector);
    Quotient(2 * d.sector - 1, d.sector, 1, d.sector - 1);
  }

  lemma SizesEqual(d: Driver)
    ensures Size(d, SectorA) == Size(d, SectorB) == d.sector && Size(d, StringA) == Size(d, StringB)
  {
  }

  lemma RoundedUp(n: nat, s: nat)
    requires s > 0
    ensures n / s <= (n + s - 1) / s <= n / s + 1
  {
    var q, r := n / s, n % s;
    assert n == q * s + r;
    if r == 0 {
      Quotient(n + s - 1, s, q, s - 1);
    } else {
      assert (q + 1) * s == q * s + s;
      Quotient(n + s - 1, s, q + 1, r - 1);
    }
  }

  /** The regions can be erased without touching one another if and only if the running
      count of sectors fits its 8 bits. */
  lemma RegionsApart(d: Driver)
    requires d.sector > 0
    ensures 5 + Size(d, StringA) / d.sector <= 255 <==>
      forall r: Region, r': Region :: r != r' ==> Apart(d, r, r')
  {
    hide ErasedSectors, Size, SectorsBefore;
    Counts(d);
    if 5 + Size(d, StringA) / d.sector > 255 {
      assert !Apart(d, StringA, StringB);
    } else {
      forall r: Region, r': Region | r != r'
        ensures Apart(d, r, r')
      {
        match r { case SectorA => case SectorB => case StringA => case StringB => }
        match r' { case SectorA => case SectorB => case StringA => case StringB => }
      }
    }
  }

  /** The region ends inside the 32-bit address space. */
  predicate EndsInside(d: Driver, r: Region)
    requires d.sector > 0
  {
    ErasedSectors(d, r) > 0 && d.addr + Bytes(SectorsBefore(d, r) + ErasedSectors(d, r), d.sector) <= ADDRESSES
  }

  /** The flash sector the partition begins in. */
  function FirstSector(d: Driver): nat
    requires d.sector > 0
  {
    d.addr / d.sector
  }

  /** Every region starts on a flash sector boundary, as many sectors after the rounded-down
      partition address as are counted, if it ends inside the 32-bit address space. */
  lemma RegionsAligned(d: Driver, r: Region)
    requires PowerOfTwo(d.sector) && 1 <= d.sector <= ADDRESSES && d.addr < ADDRESSES
    requires EndsInside(d, r)
    ensures Start(d, r) == Bytes(FirstSector(d) + SectorsBefore(d, r), d.sector)
  {
    hide ErasedSectors, Size, SectorsBefore, PowerOfTwo, Base, Bytes;
    BaseAligned(d);
    InRange(d.addr, d.sector, SectorsBefore(d, r), ErasedSectors(d, r), Base(d));
  }

  lemma BaseAligned(d: Driver)
    requires PowerOfTwo(d.sector) && 1 <= d.sector <= ADDRESSES && d.addr < ADDRESSES
    ensures Base(d) == d.addr - d.addr % d.sector
  {
    hide KvedWord.And, PowerOfTwo;
    Ones32();
    MaskRoundsDown(d.addr, 0xFFFF_FFFF, d.sector);
  }

  lemma InRange(a: nat, s: nat, k: nat, e: nat, base: nat)
    requires s > 0 && e > 0 && a + Bytes(k + e, s) <= ADDRESSES && base == a - a % s
    ensures (base + Bytes(k, s)) % ADDRESSES == Bytes(a / s + k, s)
  {
    assert a == a / s * s + a % s;
    assert (k + e) * s == k * s + e * s;
    assert (a / s + k) * s == a / s * s + k * s;
    assert e * s >= s;
  }

  // ----------------------------------------------------------- what init accepts

  /** `oblfr_kved_flash_init`: the sector size comes from the flash, and the entries, 16 bytes
      each, have to fit one sector; none asked for means as many as fit. */
  function InitDriver(d: Driver, sectorKb: nat): Option<Driver> {
    var sector := sectorKb * 1024;
    if d.entries == 0 then Some(d.(sector := sector, entries := sector / 16))
    else if d.entries > sector / 16 then None
    else Some(d.(sector := sector))
  }

  /** It accepts exactly the drivers whose entries fit, and takes as many as fit if none are
      asked for. */
  lemma InitAccepts(d: Driver, sectorKb: nat)
    ensures InitDriver(d, sectorKb).Some? <==> 16 * d.entries <= 1024 * sectorKb
    ensures InitDriver(d, sectorKb).Some? ==>
      var e := InitDriver(d, sectorKb).value;
      && e.addr == d.addr && e.maxString == d.maxString && e.sector == 1024 * sectorKb
      && (if d.entries > 0 then e.entries == d.entries else 16 * e.entries <= e.sector < 16 * (e.entries + 1))
  {
  }

  /** The longest string that can be configured. */
  const MAX_STRING_SIZE := 256

  /** No driver that init accepts gets near the 8-bit limit. */
  lemma AcceptedIsSmall(d: Driver, sectorKb: nat)
    requires sectorKb > 0 && d.maxString <= MAX_STRING_SIZE && InitDriver(d, sectorKb).Some?
    ensures var e := InitDriver(d, sectorKb).value;
      e.sector > 0 && 5 + Size(e, StringA) / e.sector <= 22
  {
    var e := InitDriver(d, sectorKb).value;
    assert e.sector >= 1024 && 16 * e.entries <= e.sector && e.maxString <= MAX_STRING_SIZE;
    SizeBound(e);
    hide Size;
    QuotientBound(Size(e, StringA), e.sector, 17);
  }

  lemma SizeBound(e: Driver)
    requires e.sector >= 1024 && 16 * e.entries <= e.sector && e.maxString <= MAX_STRING_SIZE
    ensures Size(e, StringA) <= 17 * e.sector
  {
    Scaled(e.entries, e.maxString, MAX_STRING_SIZE);
    WrapIsLess(e.entries * e.maxString + (e.entries + 2) * 8);
  }

  lemma WrapIsLess(x: nat)
    ensures x % ADDRESSES <= x
  {
  }

  lemma QuotientBound(x: nat, s: nat, k: nat)
    requires s > 0 && x <= k * s
    ensures x / s <= k
  {
    assert x == x / s * s + x % s;
    Multiples(k, x / s, s);
  }

  lemma Scaled(n: nat, x: nat, y: nat)
    requires x <= y
    ensures n * x <= n * y
  {
  }

  // ---------------------------------------------------------------- addresses

  /** Every region ends inside the 32-bit address space. */
  ghost predicate InSpace(d: Driver) {
    && PowerOfTwo(d.sector) && 1 <= d.sector <= ADDRESSES && d.addr < ADDRESSES
    && forall r: Region :: EndsInside(d, r)
  }

  /** The addresses that erasing one region touches and those of the other are disjoint. */
  predicate Disjoint(d: Driver, r: Region, r': Region)
    requires 1 <= d.sector <= ADDRESSES
  {
    || Start(d, r) + Bytes(ErasedSectors(d, r), d.sector) <= Start(d, r')
    || Start(d, r') + Bytes(ErasedSectors(d, r'), d.sector) <= Start(d, r)
  }

  lemma ApartIsDisjoint(d: Driver, r: Region, r': Region)
    requires InSpace(d)
    ensures Apart(d, r, r') <==> Disjoint(d, r, r')
  {
    hide PowerOfTwo, SectorsBefore, Start, Size, ErasedSectors, Bytes, EndsInside, FirstSector;
    InSpaceOf(d, r);
    InSpaceOf(d, r');
    hide InSpace;
    RegionsAligned(d, r);
    RegionsAligned(d, r');
    Ranges(FirstSector(d), SectorsBefore(d, r), ErasedSectors(d, r), SectorsBefore(d, r'), ErasedSectors(d, r'),
           d.sector, Start(d, r), Start(d, r'));
  }

  lemma InSpaceOf(d: Driver, r: Region)
    requires InSpace(d)
    ensures PowerOfTwo(d.sector) && d.sector <= ADDRESSES && d.addr < ADDRESSES && EndsInside(d, r)
  {
    hide PowerOfTwo, EndsInside;
  }

  lemma Ranges(b: nat, x: nat, e: nat, x': nat, e': nat, s: nat, start: nat, start': nat)
    requires s > 0 && start == Bytes(b + x, s) && start' == Bytes(b + x', s)
    ensures x + e <= x' || x' + e' <= x <==> start + Bytes(e, s) <= start' || start' + Bytes(e', s) <= start
  {
    Stretch(b + x, e, b + x', s);
    Stretch(b + x', e', b + x, s);
  }

  lemma Stretch(x: nat, e: nat, y: nat, s: nat)
    requires s > 0
    ensures x + e <= y <==> x * s + e * s <= y * s
  {
    assert x * s + e * s == (x + e) * s;
    Multiples(y, x + e, s);
    Multiples(x + e, y, s);
  }

  /** What is erased covers the region. */
  lemma ErasedCovers(d: Driver, r: Region)
    requires d.sector > 0
    ensures Size(d, r) <= Bytes(ErasedSectors(d, r), d.sector)
  {
    hide Size;
    RoundedCovers(Size(d, r), d.sector);
  }

  lemma RoundedCovers(n: nat, s: nat)
    requires s > 0
    ensures n <= (n + s - 1) / s * s
  {
    var q, r := (n + s - 1) / s, (n + s - 1) % s;
    assert n + s - 1 == q * s + r;
  }

  /** Erasing any region touches no address of another, if and only if the running count of
      sectors fits its 8 bits. */
  lemma RegionsDisjoint(d: Driver)
    requires InSpace(d)
    ensures 5 + Size(d, StringA) / d.sector <= 255 <==>
      forall r: Region, r': Region :: r != r' ==> Disjoint(d, r, r')
  {
    assert d.sector <= ADDRESSES;
    hide InSpace, Apart, Disjoint, Size, Bytes;
    RegionsApart(d);
    forall r: Region, r': Region
      ensures Apart(d, r, r') <==> Disjoint(d, r, r')
    {
      ApartIsDisjoint(d, r, r');
    }
  }

  /** So every driver that init accepts has its regions apart. */
  lemma AcceptedIsDisjoint(d: Driver, sectorKb: nat, r: Region, r': Region)
    requires sectorKb > 0 && d.maxString <= MAX_STRING_SIZE && InitDriver(d, sectorKb).Some?
    requires InSpace(InitDriver(d, sectorKb).value) && r != r'
    ensures var e := InitDriver(d, sectorKb).value;
      e.sector > 0 && Disjoint(e, r, r') && Size(e, r) <= Bytes(ErasedSectors(e, r), e.sector)
  {
    hide InSpace, Apart, Disjoint, Size, Bytes;
    AcceptedIsSmall(d, sectorKb);
    RegionsDisjoint(InitDriver(d, sectorKb).value);
    ErasedCovers(InitDriver(d, sectorKb).value, r);
  }
}
