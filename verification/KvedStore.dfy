/** The store as a pure function of its state: every operation is a plan, that is the
    flash steps it performs in order, the control block it leaves and its result. */
module KvedStore {
  import opened Options
  import opened KvedWord
  import opened KvedFlash
  import opened KvedIndex
  import opened KvedStrings

  datatype Outcome = Ok | NotInitialized | InvalidKey | InvalidIndex | TableFull | CorruptTable

  /** Signatures and sizes, fixed for the life of a store. */
  datatype Config = Config(sig: Word, strSig: Word, strEnd: Word, d: Dims)
  {
    predicate Valid() {
      && sig != FREE && sig != DELETED && strSig != FREE && strEnd != FREE
      && WellSized(d)
    }
  }

  function MakeConfig(maxString: nat, maxEntries: nat, n: nat, bytes: nat): (c: Config)
    requires IsLimits(maxString, maxEntries) && WellSized(Dims(maxString, n, bytes))
    ensures c.Valid()
  {
    Config(Signature(maxString, maxEntries), StrSignature(maxString, maxEntries),
           StrEndSignature(maxString, maxEntries), Dims(maxString, n, bytes))
  }

  datatype Value = Num(w: Word) | Str(t: Text)

  datatype Data = Data(key: Word, value: Value)

  /** What the interface demands of a caller: the value member that goes with the type,
      and a terminated string that fits the value buffer. */
  predicate DataOk(c: Config, d: Data) {
    && (d.value.Str? <==> IsString(d.key))
    && (d.value.Str? ==> IsText(d.value.t, c.d.maxStr))
  }

  /** The control block.  Index positions are word positions in the sector. */
  datatype Ctrl = Ctrl(side: Side, firstFree: nat, total: int, used: int, deleted: int, free: int,
                       strSide: Side, strNext: nat, strFree: nat)

  function IndexOf(slot: nat): nat { 2 + 2 * slot }

  function SlotOf(index: nat): nat { if index < 2 then 0 else (index - 2) / 2 }

  datatype State = State(flash: Flash, ctrl: Ctrl)
  {
    function Active(): Sector { flash.Main(ctrl.side) }
    function Slots(): seq<Slot> { Active().slots }
    function Strings(): StrSector { flash.Str(ctrl.strSide) }
  }

  datatype Plan = Plan(steps: seq<Step>, ctrl: Ctrl, res: Outcome)

  function Exec(st: State, p: Plan): State { State(Run(st.flash, p.steps), p.ctrl) }

  // ---------------------------------------------------------------- appending

  /** Entry numbers are stored in a 64-bit word. */
  function ToWord(v: nat): (w: Word)
    ensures v <= WORD_MAX ==> w == v
  {
    v % (WORD_MAX + 1)
  }

  /** New entry in the first free slot: string data if any, then the value word, then
      the key word, and last the tombstone on the entry it replaces. */
  function AppendPlan(st: State, d: Data, replaced: Option<nat>): Plan {
    var k, p := st.ctrl, SlotOf(st.ctrl.firstFree);
    var strSteps := if d.value.Str? then
      [WriteStrIndex(k.strSide, k.strNext, Pack(k.strFree, |d.value.t| + 1)),
       WriteStrData(k.strSide, k.strFree, d.value.t + [0])] else [];
    var v := if d.value.Str? then ToWord(k.strNext) else d.value.w;
    var k1 := if d.value.Str? then
      k.(strNext := k.strNext + 1, strFree := k.strFree + TextWords(d.value.t)) else k;
    var k2 := k1.(free := k1.free - 1, used := k1.used + 1, firstFree := k1.firstFree + 2);
    var main := [WriteVal(k.side, p, v), WriteKey(k.side, p, d.key)];
    match replaced
    case None => Plan(strSteps + main, k2, Ok)
    case Some(i) =>
      Plan(strSteps + main + [WriteKey(k.side, i, DELETED)],
           k2.(deleted := k2.deleted + 1, used := k2.used - 1), Ok)
  }

  // ------------------------------------------------------------------- sweep

  /** `kved_data_consistency_check`: the tombstones written for the first `m` slots. */
  function SweepSteps(c: Config, side: Side, s: seq<Slot>, m: nat): seq<Step>
    requires m <= |s|
  {
    if m == 0 then []
    else SweepSteps(c, side, s, m - 1) +
         (if Condemned(c.sig, s, m - 1) then [WriteKey(side, m - 1, DELETED)] else [])
  }

  function HalfCount(s: seq<Slot>, m: nat): nat
    requires m <= |s|
  {
    if m == 0 then 0 else HalfCount(s, m - 1) + (if HalfWritten(s[m - 1]) then 1 else 0)
  }

  function DupCount(c: Config, s: seq<Slot>, m: nat): nat
    requires m <= |s|
  {
    if m == 0 then 0
    else DupCount(c, s, m - 1) +
         (if Condemned(c.sig, s, m - 1) && !HalfWritten(s[m - 1]) then 1 else 0)
  }

  function CheckPlan(c: Config, st: State): Plan {
    var k, s, t := st.ctrl, st.Slots(), st.Strings();
    if t.sig != c.strSig || t.end != c.strEnd then Plan([], k, CorruptTable)
    else
      var half, dup, first := HalfCount(s, |s|), DupCount(c, s, |s|), FirstFree(t.index);
      Plan(SweepSteps(c, k.side, s, |s|),
           k.(deleted := k.deleted + half + dup, free := k.free - half, used := k.used - dup,
              strNext := if first < |t.index| then first else k.strNext), Ok)
  }

  // ------------------------------------------------------------------- switch

  /** The entry whose value changes while the sector is copied. */
  datatype Update = Update(l: nat, v: Value)

  function PackText(c: Config, x: Slot, u: Update, sec: StrSector): Text {
    if Label(x.key) == u.l then (if u.v.Str? then u.v.t else [])
    else TextAt(sec, x.val, c.d.maxStr)
  }

  /** Texts the copy logs in the new string sector, in slot order. */
  function PackedTexts(c: Config, s: seq<Slot>, u: Update, sec: StrSector): (r: seq<Text>)
    ensures |r| <= |s|
  {
    if s == [] then []
    else
      var front, x := PackedTexts(c, s[..|s| - 1], u, sec), s[|s| - 1];
      if Live(c.sig, x) && IsString(x.key) then front + [PackText(c, x, u, sec)] else front
  }

  function PackVal(x: Slot, u: Update, entry: nat): Word {
    if IsString(x.key) then ToWord(entry)
    else if Label(x.key) == u.l then (if u.v.Num? then u.v.w else 0)
    else x.val
  }

  /** The live entries of `s`, packed, with string references renumbered. */
  function Packed(c: Config, s: seq<Slot>, u: Update, sec: StrSector): (r: seq<Slot>)
    ensures |r| == LiveCount(c.sig, s)
  {
    if s == [] then []
    else
      var t, x := s[..|s| - 1], s[|s| - 1];
      var front := Packed(c, t, u, sec);
      if Live(c.sig, x) then front + [Slot(x.key, PackVal(x, u, |PackedTexts(c, t, u, sec)|))] else front
  }

  function CopySteps(c: Config, s: seq<Slot>, u: Update, sec: StrSector, to: Side, strTo: Side): seq<Step> {
    if s == [] then []
    else
      var t, x := s[..|s| - 1], s[|s| - 1];
      var front := CopySteps(c, t, u, sec, to, strTo);
      if !Live(c.sig, x) then front
      else
        var j, texts := LiveCount(c.sig, t), PackedTexts(c, t, u, sec);
        var strSteps := if IsString(x.key) then
          [DataStep(strTo, texts, PackText(c, x, u, sec)), PtrStep(strTo, texts, PackText(c, x, u, sec))]
          else [];
        front + ([WriteKey(to, j, x.key)] + strSteps + [WriteVal(to, j, PackVal(x, u, |texts|))])
  }

  /** The counter skips the erased word. */
  function NextCnt(cnt: Word): (r: Word)
    ensures r != FREE && (r == 0 || r == cnt + 1)
    ensures r == 0 <==> cnt == FREE || cnt == FREE - 1
  {
    if cnt == FREE || cnt + 1 == FREE then 0 else cnt + 1
  }

  function PrepareSteps(c: Config, st: State, u: Update): seq<Step> {
    var to, strTo := st.ctrl.side.Other(), st.ctrl.strSide.Other();
    [EraseMain(to), EraseStr(strTo)]
    + CopySteps(c, st.Slots(), u, st.Strings(), to, strTo)
    + [WriteCnt(to, NextCnt(st.Active().cnt))]
  }

  function CommitSteps(c: Config, st: State): seq<Step> {
    var to, strTo := st.ctrl.side.Other(), st.ctrl.strSide.Other();
    [WriteSig(to, c.sig), WriteStrSig(strTo, c.strSig), WriteStrEnd(strTo, c.strEnd),
     WriteSig(st.ctrl.side, 0)]
  }

  function SwitchedCtrl(c: Config, st: State, u: Update): Ctrl {
    var k, s, used := st.ctrl, st.Slots(), LiveCount(c.sig, st.Slots());
    var texts := PackedTexts(c, s, u, st.Strings());
    Ctrl(k.side.Other(), IndexOf(used), |s|, used, 0, |s| - used,
         k.strSide.Other(), |texts|, TotalWords(texts))
  }

  /** `kved_sector_switch`. */
  function SwitchPlan(c: Config, st: State, u: Update): Plan {
    var p := Plan(PrepareSteps(c, st, u) + CommitSteps(c, st), SwitchedCtrl(c, st, u), Ok);
    var q := CheckPlan(c, Exec(st, p));
    Plan(p.steps + q.steps, q.ctrl, q.res)
  }

  // --------------------------------------------------------------- operations

  /** `kved_internal_data_write` compares by the caller's type, not the stored one. */
  predicate Unchanged(c: Config, st: State, x: Slot, d: Data) {
    if d.value.Str? then TextAt(st.Strings(), x.val, c.d.maxStr) == d.value.t
    else x.val == d.value.w
  }

  function PutPlan(c: Config, st: State, d: Data): Plan {
    var k, s := st.ctrl, st.Slots();
    var i := Find(s, Label(d.key));
    if !IsValidKey(c.sig, d.key) then Plan([], k, InvalidKey)
    else if i < |s| && Unchanged(c, st, s[i], d) then Plan([], k, Ok)
    else if k.total == k.used then Plan([], k, TableFull)
    else if k.free == 0 then
      var sw := SwitchPlan(c, st, Update(Label(d.key), d.value));
      if sw.res != Ok || i < |s| then sw
      else
        var ap := AppendPlan(Exec(st, sw), d, None);
        Plan(sw.steps + ap.steps, ap.ctrl, ap.res)
    else AppendPlan(st, d, if i < |s| then Some(i) else None)
  }

  function DeletePlan(c: Config, st: State, key: Word): Plan {
    var k, i := st.ctrl, Find(st.Slots(), Label(key));
    if !IsValidKey(c.sig, key) || i == |st.Slots()| then Plan([], k, InvalidKey)
    else Plan([WriteKey(k.side, i, DELETED)], k.(deleted := k.deleted + 1, used := k.used - 1), Ok)
  }

  /** `kved_compact_database`: the key passed is the signature, which no entry carries. */
  function CompactPlan(c: Config, st: State): Plan {
    SwitchPlan(c, st, Update(Label(c.sig), Num(0)))
  }

  /** `kved_internal_data_read`: the stored key word (for the type) and the value. */
  function Get(c: Config, st: State, key: Word): Option<Data> {
    var s, i := st.Slots(), Find(st.Slots(), Label(key));
    if !IsValidKey(c.sig, key) || i == |s| then None
    else if IsString(s[i].key) then Some(Data(s[i].key, Str(TextAt(st.Strings(), s[i].val, c.d.maxStr))))
    else Some(Data(s[i].key, Num(s[i].val)))
  }

  // --------------------------------------------------------------------- boot

  /** `kved_sector_consistency_check`: which of two signed sectors to invalidate. */
  function SectorCheckSteps(c: Config, f: Flash): seq<Step> {
    if f.a.sig == c.sig && f.b.sig == c.sig then
      if f.a.cnt == WORD_MAX - 1 && f.b.cnt == 0 then [WriteSig(A, 0)]
      else if f.b.cnt == WORD_MAX - 1 && f.a.cnt == 0 then [WriteSig(B, 0)]
      else if f.a.cnt == WORD_MAX || f.b.cnt == WORD_MAX then
        (if f.a.cnt == WORD_MAX then [WriteSig(A, 0)] else [])
        + (if f.b.cnt == WORD_MAX then [WriteSig(B, 0)] else [])
      else if f.a.cnt > f.b.cnt then [WriteSig(B, 0)]
      else [WriteSig(A, 0)]
    else []
  }

  function MainFormatSteps(c: Config, f: Flash): seq<Step> {
    if f.a.sig == c.sig || f.b.sig == c.sig then []
    else [EraseMain(A), WriteCnt(A, 0), WriteSig(A, c.sig)]
  }

  function BootSide(c: Config, f: Flash): Side {
    if f.a.sig == c.sig then A else if f.b.sig == c.sig then B else A
  }

  predicate StrSigned(c: Config, t: StrSector) { t.sig == c.strSig && t.end == c.strEnd }

  function StrFormatSteps(c: Config, f: Flash): seq<Step> {
    if StrSigned(c, f.strA) || StrSigned(c, f.strB) then []
    else [EraseStr(A), WriteStrSig(A, c.strSig), WriteStrEnd(A, c.strEnd)]
  }

  function BootStrSide(c: Config, f: Flash): Side {
    if StrSigned(c, f.strA) then A else if StrSigned(c, f.strB) then B else A
  }

  /** `kved_sector_stats_read` on a control block that was just zeroed. */
  function StatsRead(s: seq<Slot>, side: Side, strSide: Side): Ctrl {
    var b, del, free := Boundary(s), KeyCount(s, DELETED), KeyCount(s, FREE);
    Ctrl(side, if b < |s| then IndexOf(b) else 0, |s|, |s| - del - free, del, free, strSide, 0, 0)
  }

  /** The part of `kved_init` before the sweep. */
  function OpenSteps(c: Config, f: Flash): seq<Step> {
    var s1 := SectorCheckSteps(c, f);
    var s2 := s1 + MainFormatSteps(c, Run(f, s1));
    s2 + StrFormatSteps(c, Run(f, s2))
  }

  function Opened(c: Config, f: Flash): State {
    var g := Run(f, OpenSteps(c, f));
    var side := BootSide(c, g);
    State(g, StatsRead(g.Main(side).slots, side, BootStrSide(c, g)))
  }

  /** `kved_init`. */
  function BootPlan(c: Config, f: Flash): Plan {
    var q := CheckPlan(c, Opened(c, f));
    Plan(OpenSteps(c, f) + q.steps, q.ctrl, q.res)
  }
}
