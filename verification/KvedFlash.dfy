/** The four flash regions the store owns and the individual steps that change them.
    Word writes and region erases are atomic; power can fail between any two steps. */
module KvedFlash {
  import opened KvedWord

  /** Two words of the index: key word, then value word. */
  datatype Slot = Slot(key: Word, val: Word)

  const FREE_SLOT := Slot(FREE, FREE)

  /** An index sector: signature word, counter word, then the slots. */
  datatype Sector = Sector(sig: Word, cnt: Word, slots: seq<Slot>)

  /** A string sector: signature, one pointer word per index slot, end signature, and
      the data area, which is addressed in bytes. */
  datatype StrSector = StrSector(sig: Word, index: seq<Word>, end: Word, data: seq<Byte>)

  datatype Side = A | B
  {
    function Other(): Side { if this == A then B else A }
  }

  datatype Flash = Flash(a: Sector, b: Sector, strA: StrSector, strB: StrSector)
  {
    function Main(side: Side): Sector { if side == A then a else b }
    function Str(side: Side): StrSector { if side == A then strA else strB }
    function WithMain(side: Side, s: Sector): Flash {
      if side == A then this.(a := s) else this.(b := s)
    }
    function WithStr(side: Side, s: StrSector): Flash {
      if side == A then this.(strA := s) else this.(strB := s)
    }
  }

  function FreeSlots(n: nat): (s: seq<Slot>)
    ensures |s| == n && forall i :: 0 <= i < n ==> s[i] == FREE_SLOT
  {
    seq(n, _ => FREE_SLOT)
  }

  function ErasedMain(n: nat): Sector { Sector(FREE, FREE, FreeSlots(n)) }

  function ErasedStr(n: nat, bytes: nat): StrSector {
    StrSector(FREE, seq(n, _ => FREE), FREE, seq(bytes, _ => 0xFF))
  }

  datatype Step =
    | EraseMain(side: Side)
    | WriteSig(side: Side, w: Word)
    | WriteCnt(side: Side, w: Word)
    | WriteKey(side: Side, slot: nat, w: Word)
    | WriteVal(side: Side, slot: nat, w: Word)
    | EraseStr(side: Side)
    | WriteStrSig(side: Side, w: Word)
    | WriteStrEnd(side: Side, w: Word)
    | WriteStrIndex(side: Side, entry: nat, w: Word)
    | WriteStrData(side: Side, offset: nat, bytes: seq<Byte>)

  predicate TouchesMain(step: Step) {
    step.EraseMain? || step.WriteSig? || step.WriteCnt? || step.WriteKey? || step.WriteVal?
  }

  function ApplyMain(s: Sector, step: Step): (r: Sector)
    ensures |r.slots| == |s.slots|
  {
    match step
    case EraseMain(_) => ErasedMain(|s.slots|)
    case WriteSig(_, w) => s.(sig := Program(s.sig, w))
    case WriteCnt(_, w) => s.(cnt := Program(s.cnt, w))
    case WriteKey(_, i, w) =>
      if i < |s.slots| then
        s.(slots := s.slots[i := s.slots[i].(key := Program(s.slots[i].key, w))])
      else s
    case WriteVal(_, i, w) =>
      if i < |s.slots| then
        s.(slots := s.slots[i := s.slots[i].(val := Program(s.slots[i].val, w))])
      else s
    case _ => s
  }

  /** `data_write`: the bytes land from word `offset` of the data area on. */
  function WriteBytes(data: seq<Byte>, at: nat, bytes: seq<Byte>): (r: seq<Byte>)
    ensures |r| == |data|
  {
    if at + |bytes| <= |data| then
      seq(|data|, i requires 0 <= i < |data| =>
        if at <= i < at + |bytes| then ProgramByte(data[i], bytes[i - at]) else data[i])
    else data
  }

  function ApplyStr(s: StrSector, step: Step): (r: StrSector)
    ensures |r.index| == |s.index| && |r.data| == |s.data|
  {
    match step
    case EraseStr(_) => ErasedStr(|s.index|, |s.data|)
    case WriteStrSig(_, w) => s.(sig := Program(s.sig, w))
    case WriteStrEnd(_, w) => s.(end := Program(s.end, w))
    case WriteStrIndex(_, i, w) =>
      if i < |s.index| then s.(index := s.index[i := Program(s.index[i], w)]) else s
    case WriteStrData(_, offset, bytes) => s.(data := WriteBytes(s.data, 8 * offset, bytes))
    case _ => s
  }

  function Apply(f: Flash, step: Step): Flash {
    if TouchesMain(step) then f.WithMain(step.side, ApplyMain(f.Main(step.side), step))
    else f.WithStr(step.side, ApplyStr(f.Str(step.side), step))
  }

  function Run(f: Flash, steps: seq<Step>): Flash {
    if steps == [] then f else Apply(Run(f, steps[..|steps| - 1]), steps[|steps| - 1])
  }

  lemma {:induction false} RunConcat(f: Flash, xs: seq<Step>, ys: seq<Step>)
    ensures Run(f, xs + ys) == Run(Run(f, xs), ys)
  {
    if ys == [] {
      assert xs + ys == xs;
    } else {
      var zs := ys[..|ys| - 1];
      assert (xs + ys)[..|xs + ys| - 1] == xs + zs;
      RunConcat(f, xs, zs);
    }
  }

  lemma RunNone(f: Flash)
    ensures Run(f, []) == f
  {
  }

  lemma RunOne(f: Flash, x: Step)
    ensures Run(f, [x]) == Apply(f, x)
  {
    assert [x][..0] == [];
  }

  lemma RunTwo(f: Flash, x: Step, y: Step)
    ensures Run(f, [x, y]) == Apply(Apply(f, x), y)
  {
    assert [x, y][..1] == [x];
    RunOne(f, x);
  }

  lemma RunThree(f: Flash, x: Step, y: Step, z: Step)
    ensures Run(f, [x, y, z]) == Apply(Apply(Apply(f, x), y), z)
  {
    assert [x, y, z][..2] == [x, y];
    RunTwo(f, x, y);
  }

  lemma RunFour(f: Flash, x: Step, y: Step, z: Step, w: Step)
    ensures Run(f, [x, y, z, w]) == Apply(Apply(Apply(Apply(f, x), y), z), w)
  {
    assert [x, y, z, w][..3] == [x, y, z];
    RunThree(f, x, y, z);
  }

  /** Sizes never change, whatever is done to the flash. */
  predicate Geometry(f: Flash, n: nat, bytes: nat) {
    && |f.a.slots| == |f.b.slots| == n
    && |f.strA.index| == |f.strB.index| == n
    && |f.strA.data| == |f.strB.data| == bytes
  }

  lemma {:induction false} RunGeometry(f: Flash, steps: seq<Step>, n: nat, bytes: nat)
    requires Geometry(f, n, bytes)
    ensures Geometry(Run(f, steps), n, bytes)
  {
    if steps != [] {
      RunGeometry(f, steps[..|steps| - 1], n, bytes);
    }
  }
}
