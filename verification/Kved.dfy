/** The store as the code runs it: a control block whose fields the operations update,
    and a flash they change one step at a time.  Every method is proved to perform
    exactly the steps of its plan. */
module Kved {
  import opened Options
  import opened KvedWord
  import opened KvedFlash
  import opened KvedIndex
  import opened KvedStrings
  import opened KvedStore
  import opened KvedBoot
  import opened KvedKeys

  const INDEX_NOT_FOUND := 0

  class Store {
    const c: Config
    var flash: Flash
    var started: bool
    var side: Side
    var firstFree: nat
    var total: int
    var used: int
    var deleted: int
    var free: int
    var strSide: Side
    var strNext: nat
    var strFree: nat
    /** Every flash step performed so far. */
    ghost var trace: seq<Step>

    function Ctrl(): Ctrl
      reads this
    {
      KvedStore.Ctrl.Ctrl(side, firstFree, total, used, deleted, free, strSide, strNext, strFree)
    }

    function State(): State
      reads this
    {
      KvedStore.State.State(flash, Ctrl())
    }

    /** The flash went through exactly these steps. */
    twostate predicate Did(steps: seq<Step>)
      reads this
    {
      trace == old(trace) + steps && flash == Run(old(flash), steps)
    }

    /** What a method that follows a plan leaves behind. */
    twostate predicate Followed(p: Plan)
      reads this
    {
      Did(p.steps) && Ctrl() == p.ctrl && started == old(started)
    }

    constructor (c: Config, flash: Flash)
      ensures this.c == c && this.flash == flash && !started && trace == []
    {
      this.c := c;
      this.flash := flash;
      started := false;
      side, strSide := A, A;
      firstFree, strNext, strFree := 0, 0, 0;
      total, used, deleted, free := 0, 0, 0, 0;
      trace := [];
    }

    /** One atomic flash operation of the driver. */
    method Do(step: Step)
      modifies this`flash, this`trace
      ensures flash == Apply(old(flash), step) && trace == old(trace) + [step]
    {
      flash := Apply(flash, step);
      trace := trace + [step];
    }

    // ---------------------------------------------------------------- searching

    method KeyIndexFind(key: Word) returns (index: nat)
      ensures index == var i := Find(State().Slots(), Label(key));
                       if i < |State().Slots()| then IndexOf(i) else INDEX_NOT_FOUND
    {
      var s := flash.Main(side).slots;
      for i := 0 to |s|
        invariant forall j :: 0 <= j < i ==> Label(s[j].key) != Label(key)
      {
        if Label(s[i].key) == Label(key) {
          return IndexOf(i);
        }
      }
      return INDEX_NOT_FOUND;
    }

    // ---------------------------------------------------------------- iterating

    /** Shared scan of the two iterator calls: the first live slot from `from` on. */
    method ScanUsed(from: nat) returns (index: nat)
      requires from <= |State().Slots()|
      ensures var s := State().Slots();
        if index == INDEX_NOT_FOUND then forall j :: from <= j < |s| ==> !Live(c.sig, s[j])
        else
          && index == IndexOf(SlotOf(index)) && from <= SlotOf(index) < |s| && Live(c.sig, s[SlotOf(index)])
          && forall j :: from <= j < SlotOf(index) ==> !Live(c.sig, s[j])
    {
      var s := flash.Main(side).slots;
      for i := from to |s|
        invariant forall j :: from <= j < i ==> !Live(c.sig, s[j])
      {
        if IsValidKey(c.sig, s[i].key) {
          return IndexOf(i);
        }
      }
      return INDEX_NOT_FOUND;
    }

    /** `kved_data_read_by_index`, for the key word. */
    method KeyByIndex(index: nat) returns (res: Outcome, key: Word)
      ensures res == Ok <==> index >= 2 && SlotOf(index) < |State().Slots()|
                             && IsValidKey(c.sig, State().Slots()[SlotOf(index)].key)
      ensures res == Ok ==> key == State().Slots()[SlotOf(index)].key
      ensures index < 2 || SlotOf(index) >= |State().Slots()| ==> res == InvalidIndex
    {
      key := 0;
      if index < 2 || SlotOf(index) >= |flash.Main(side).slots| {
        return InvalidIndex, key;
      }
      key := flash.Main(side).slots[SlotOf(index)].key;
      if !IsValidKey(c.sig, key) {
        return InvalidKey, key;
      }
      return Ok, key;
    }

    /** Walking the used indexes visits every label of the store exactly once. */
    method AllLabels() returns (labels: seq<nat>)
      requires Distinct(c.sig, State().Slots())
      ensures forall i, j :: 0 <= i < j < |labels| ==> labels[i] != labels[j]
      ensures forall l :: l in labels <==> l in RawMap(c.sig, State().Slots())
    {
      hide Label, IsValidKey;
      ghost var s := State().Slots();
      labels := [];
      var index := ScanUsed(0);
      while index != INDEX_NOT_FOUND
        invariant index != INDEX_NOT_FOUND ==>
          index == IndexOf(SlotOf(index)) && SlotOf(index) < |s| && Live(c.sig, s[SlotOf(index)])
        invariant var i := if index == INDEX_NOT_FOUND then |s| else SlotOf(index);
          && (forall j :: 0 <= j < i && Live(c.sig, s[j]) ==> Label(s[j].key) in labels)
          && (forall l :: l in labels ==> exists j :: 0 <= j < i && Live(c.sig, s[j]) && Label(s[j].key) == l)
        invariant forall i, j :: 0 <= i < j < |labels| ==> labels[i] != labels[j]
        decreases if index == INDEX_NOT_FOUND then 0 else 1 + |s| - SlotOf(index)
      {
        var res, key := KeyByIndex(index);
        assert key == s[SlotOf(index)].key;
        assert Label(key) !in labels;
        labels := labels + [Label(key)];
        index := ScanUsed(SlotOf(index) + 1);
      }
      forall l
        ensures l in labels <==> l in RawMap(c.sig, s)
      {
        RawMapIn(c.sig, s, l);
      }
    }

    // --------------------------------------------------------------- operations

    method StrDataWrite(t: Text)
      modifies this
      ensures Did([WriteStrIndex(old(strSide), old(strNext), Pack(old(strFree), |t| + 1)),
                   WriteStrData(old(strSide), old(strFree), t + [0])])
      ensures Ctrl() == old(Ctrl()).(strNext := old(strNext) + 1, strFree := old(strFree) + TextWords(t))
      ensures started == old(started)
    {
      hide Run, Apply, Pack, TextWords;
      ghost var f := flash;
      Do(WriteStrIndex(strSide, strNext, Pack(strFree, |t| + 1)));
      Do(WriteStrData(strSide, strFree, t + [0]));
      RunTwo(f, WriteStrIndex(strSide, strNext, Pack(strFree, |t| + 1)), WriteStrData(strSide, strFree, t + [0]));
      strNext := strNext + 1;
      strFree := strFree + TextWords(t);
    }

    /** The value word first, then the key word that makes the slot count. */
    method WriteSlot(p: nat, v: Word, key: Word)
      modifies this`flash, this`trace
      ensures Did([WriteVal(side, p, v), WriteKey(side, p, key)])
    {
      hide Run, Apply;
      RunTwo(flash, WriteVal(side, p, v), WriteKey(side, p, key));
      ghost var tr := trace;
      Do(WriteVal(side, p, v));
      Do(WriteKey(side, p, key));
      assert trace == tr + [WriteVal(side, p, v), WriteKey(side, p, key)];
    }

    method Append(d: Data, replaced: Option<nat>)
      modifies this
      ensures Followed(AppendPlan(old(State()), d, replaced))
    {
      hide Run, Apply, Program, Pack, TextWords;
      ghost var f, tr := flash, trace;
      var p := SlotOf(firstFree);
      var v: Word;
      ghost var steps := [];
      if d.value.Str? {
        v := ToWord(strNext);
        steps := [WriteStrIndex(strSide, strNext, Pack(strFree, |d.value.t| + 1)),
                  WriteStrData(strSide, strFree, d.value.t + [0])];
        StrDataWrite(d.value.t);
      } else {
        v := d.value.w;
        RunNone(flash);
      }
      ghost var g, tg := flash, trace;
      WriteSlot(p, v, d.key);
      Joined(f, tr, steps, g, tg, [WriteVal(side, p, v), WriteKey(side, p, d.key)], flash, trace);
      steps := steps + [WriteVal(side, p, v), WriteKey(side, p, d.key)];
      free := free - 1;
      used := used + 1;
      firstFree := firstFree + 2;
      if replaced.Some? {
        g, tg := flash, trace;
        RunOne(flash, WriteKey(side, replaced.value, DELETED));
        Do(WriteKey(side, replaced.value, DELETED));
        Joined(f, tr, steps, g, tg, [WriteKey(side, replaced.value, DELETED)], flash, trace);
        deleted := deleted + 1;
        used := used - 1;
      }
    }

    /** `kved_internal_data_delete`. */
    method DataDelete(key: Word) returns (res: Outcome)
      modifies this
      ensures !old(started) ==> res == NotInitialized && Followed(Plan([], old(Ctrl()), res))
      ensures old(started) ==> res == DeletePlan(c, old(State()), key).res && Followed(DeletePlan(c, old(State()), key))
      ensures old(started) ==> (res == InvalidKey <==> Reserved(c, key) || !Carried(old(State()).Slots(), key))
    {
      hide Run, Apply, Label, IsValidKey, Reserved, Carried;
      DeleteRefused(c, State(), key);
      RunNone(flash);
      if !started {
        return NotInitialized;
      }
      if !IsValidKey(c.sig, key) {
        return InvalidKey;
      }
      var index := KeyIndexFind(key);
      if index == INDEX_NOT_FOUND {
        return InvalidKey;
      }
      RunOne(flash, WriteKey(side, SlotOf(index), DELETED));
      Do(WriteKey(side, SlotOf(index), DELETED));
      deleted := deleted + 1;
      used := used - 1;
      return Ok;
    }

    /** `kved_internal_data_read`. */
    method DataRead(key: Word) returns (res: Outcome, d: Data)
      ensures res == Ok <==> started && Get(c, State(), key).Some?
      ensures res == Ok ==> d == Get(c, State(), key).value
      ensures res != Ok ==> res == if started then InvalidKey else NotInitialized
      ensures started ==> (res == InvalidKey <==> Reserved(c, key) || !Carried(State().Slots(), key))
    {
      hide Reserved, Carried;
      ReadRefused(c, State(), key);
      d := Data(key, Num(0));
      if !started {
        return NotInitialized, d;
      }
      if !IsValidKey(c.sig, key) {
        return InvalidKey, d;
      }
      var index := KeyIndexFind(key);
      if index == INDEX_NOT_FOUND {
        return InvalidKey, d;
      }
      var x := flash.Main(side).slots[SlotOf(index)];
      if IsString(x.key) {
        d := Data(x.key, Str(TextAt(flash.Str(strSide), x.val, c.d.maxStr)));
      } else {
        d := Data(x.key, Num(x.val));
      }
      return Ok, d;
    }

    // -------------------------------------------------------- consistency check

    /** `kved_string_consistency_check`: signatures, then the first free pointer. */
    method StringCheck() returns (res: Outcome)
      modifies this`strNext
      ensures res == if StrSigned(c, State().Strings()) then Ok else CorruptTable
      ensures strNext == var first := FirstFree(State().Strings().index);
                         if res == Ok && first < |State().Strings().index| then first else old(strNext)
    {
      var t := flash.Str(strSide);
      if t.sig != c.strSig || t.end != c.strEnd {
        return CorruptTable;
      }
      var found := false;
      for i := 0 to |t.index|
        invariant !found ==> strNext == old(strNext) && forall j :: 0 <= j < i ==> t.index[j] != FREE
        invariant found ==> strNext < i && strNext == FirstFree(t.index)
      {
        if t.index[i] == FREE && !found {
          strNext := i;
          found := true;
        }
      }
      return Ok;
    }

    /** Is there a live slot with the same label further on? */
    method Superseded(s: seq<Slot>, i: nat) returns (dup: bool)
      requires i < |s| && Live(c.sig, s[i])
      ensures dup <==> !IsLast(c.sig, s, i)
    {
      for j := i + 1 to |s|
        invariant forall k :: i < k < j && Live(c.sig, s[k]) ==> Label(s[k].key) != Label(s[i].key)
      {
        if Live(c.sig, s[j]) && Label(s[j].key) == Label(s[i].key) {
          return true;
        }
      }
      return false;
    }

    /** The sweep's treatment of one slot: tombstone it if it is half-written or superseded. */
    method SweepSlot(i: nat)
      requires i < |State().Slots()|
      modifies this
      ensures var s, k := old(State()).Slots(), old(Ctrl());
        var half := HalfWritten(s[i]);
        var dup := Condemned(c.sig, s, i) && !half;
        && Did(if Condemned(c.sig, s, i) then [WriteKey(k.side, i, DELETED)] else [])
        && Ctrl() == k.(deleted := k.deleted + (if half || dup then 1 else 0),
                        free := k.free - (if half then 1 else 0), used := k.used - (if dup then 1 else 0))
        && started == old(started)
    {
      hide Apply, Run;
      var cur := flash.Main(side).slots;
      var x := cur[i];
      RunOne(flash, WriteKey(side, i, DELETED));
      RunNone(flash);
      if x.key == FREE && x.val != FREE {
        Do(WriteKey(side, i, DELETED));
        deleted := deleted + 1;
        free := free - 1;
      } else if IsValidKey(c.sig, x.key) {
        var dup := Superseded(cur, i);
        if dup {
          Do(WriteKey(side, i, DELETED));
          deleted := deleted + 1;
          used := used - 1;
        }
      }
    }

    /** `kved_data_consistency_check`. */
    method DataCheck() returns (res: Outcome)
      modifies this
      ensures res == CheckPlan(c, old(State())).res && Followed(CheckPlan(c, old(State())))
    {
      hide Apply, Run, Condemned, HalfWritten, FirstFree;
      ghost var st, tr := State(), trace;
      res := StringCheck();
      RunNone(flash);
      if res != Ok {
        return;
      }
      ghost var s := st.Slots();
      ghost var k := Ctrl();
      var n := |flash.Main(side).slots|;
      for i := 0 to n
        invariant flash == Run(st.flash, SweepSteps(c, st.ctrl.side, s, i))
        invariant trace == tr + SweepSteps(c, st.ctrl.side, s, i)
        invariant Ctrl() == k.(deleted := k.deleted + HalfCount(s, i) + DupCount(c, s, i),
                               free := k.free - HalfCount(s, i), used := k.used - DupCount(c, s, i))
        invariant started == old(started)
      {
        RunSweep(c, st.flash, side, i);
        SweptTail(c, s, i);
        ghost var more := if Condemned(c.sig, s, i) then [WriteKey(side, i, DELETED)] else [];
        RunConcat(st.flash, SweepSteps(c, side, s, i), more);
        SweepSlot(i);
      }
    }

    // ------------------------------------------------------------- sector switch

    /** Copy one live entry to the twin sectors: key word, string if it is one, value word. */
    method CopyEntry(x: Slot, u: Update, to: Side, strTo: Side, j: nat, entry: nat, offset: nat)
      returns (entry': nat, offset': nat)
      modifies this`flash, this`trace
      ensures var text := PackText(c, x, u, old(State()).Strings());
        var strSteps := if IsString(x.key) then
          [WriteStrData(strTo, offset, text + [0]), WriteStrIndex(strTo, entry, Pack(offset, |text| + 1))] else [];
        && Did([WriteKey(to, j, x.key)] + strSteps + [WriteVal(to, j, PackVal(x, u, entry))])
        && entry' == entry + (if IsString(x.key) then 1 else 0)
        && offset' == offset + (if IsString(x.key) then TextWords(text) else 0)
    {
      hide Run, Apply, Pack, TextWords, TextAt, ToWord, Label, IsString;
      ghost var f := flash;
      entry', offset' := entry, offset;
      var text := PackText(c, x, u, flash.Str(strSide));
      Do(WriteKey(to, j, x.key));
      RunOne(f, WriteKey(to, j, x.key));
      ghost var strSteps := [];
      ghost var g := flash;
      if IsString(x.key) {
        strSteps := [WriteStrData(strTo, offset, text + [0]), WriteStrIndex(strTo, entry, Pack(offset, |text| + 1))];
        Do(WriteStrData(strTo, offset, text + [0]));
        Do(WriteStrIndex(strTo, entry, Pack(offset, |text| + 1)));
        RunTwo(g, strSteps[0], strSteps[1]);
        entry' := entry + 1;
        offset' := offset + TextWords(text);
      } else {
        RunNone(g);
      }
      RunConcat(f, [WriteKey(to, j, x.key)], strSteps);
      ghost var h := flash;
      RunOne(h, WriteVal(to, j, PackVal(x, u, entry)));
      Do(WriteVal(to, j, PackVal(x, u, entry)));
      RunConcat(f, [WriteKey(to, j, x.key)] + strSteps, [WriteVal(to, j, PackVal(x, u, entry))]);
    }

    /** The copy loop of the switch. */
    method CopyAll(u: Update, to: Side, strTo: Side) returns (n: nat, j: nat, entry: nat, offset: nat)
      requires to == side.Other() && strTo == strSide.Other()
      modifies this`flash, this`trace
      ensures var st := old(State());
        var s, sec := st.Slots(), st.Strings();
        && Did(CopySteps(c, s, u, sec, to, strTo))
        && n == |s| && j == LiveCount(c.sig, s)
        && entry == |PackedTexts(c, s, u, sec)| && offset == TotalWords(PackedTexts(c, s, u, sec))
    {
      hide Run, Apply, CopySteps, EntrySteps, PackedTexts, LiveCount, TextAt, IsValidKey, IsString, PackText, PackVal, Pack, TotalWords, TextWords;
      ghost var st, f, tr := State(), flash, trace;
      ghost var s, sec := st.Slots(), st.Strings();
      j, entry, offset := 0, 0, 0;
      n := |flash.Main(side).slots|;
      CopyNone(c, u, sec, to, strTo);
      RunNone(f);
      assert s[..0] == [];
      for i := 0 to n
        invariant n == |s| && j == LiveCount(c.sig, s[..i])
        invariant entry == |PackedTexts(c, s[..i], u, sec)| && offset == TotalWords(PackedTexts(c, s[..i], u, sec))
        invariant flash == Run(f, CopySteps(c, s[..i], u, sec, to, strTo))
        invariant trace == tr + CopySteps(c, s[..i], u, sec, to, strTo)
        invariant flash.Main(side) == st.Active() && flash.Str(strSide) == sec
      {
        var x := flash.Main(side).slots[i];
        CopyLoopStep(c, f, s, i, u, sec, side, strSide);
        if IsValidKey(c.sig, x.key) {
          entry, offset := CopyEntry(x, u, to, strTo, j, entry, offset);
          j := j + 1;
        }
      }
      assert s[..n] == s;
    }

    /** `kved_sector_switch`. */
    method SectorSwitch(u: Update) returns (res: Outcome)
      modifies this
      ensures res == SwitchPlan(c, old(State()), u).res && Followed(SwitchPlan(c, old(State()), u))
    {
      hide Run, Apply, CopySteps, PackedTexts, LiveCount, CheckPlan, TextAt;
      ghost var st, f := State(), flash;
      var to, strTo := side.Other(), strSide.Other();
      var cnt := flash.Main(side).cnt;
      EraseKeeps(f, side, strSide);
      Do(EraseMain(to));
      Do(EraseStr(strTo));
      ghost var erase := [EraseMain(to), EraseStr(strTo)];
      RunTwo(f, EraseMain(to), EraseStr(strTo));
      var n, j, entry, offset := CopyAll(u, to, strTo);
      ghost var copy := CopySteps(c, st.Slots(), u, st.Strings(), to, strTo);
      RunConcat(f, erase, copy);
      CommitSwitch(to, strTo, n, j, entry, offset, cnt);
      ghost var commit := [WriteCnt(to, NextCnt(cnt))] + CommitSteps(c, st);
      RunConcat(f, erase + copy, commit);
      assert erase + copy + commit == PrepareSteps(c, st, u) + CommitSteps(c, st);
      ghost var p := Plan(erase + copy + commit, SwitchedCtrl(c, st, u), Ok);
      assert State() == Exec(st, p);
      ghost var q := CheckPlan(c, State());
      RunConcat(f, p.steps, q.steps);
      res := DataCheck();
    }

    /** The last part of the switch: control block, counter, signatures, and last of all
        the old sector's signature. */
    method CommitSwitch(to: Side, strTo: Side, n: nat, j: nat, entry: nat, offset: nat, cnt: Word)
      requires to == side.Other() && strTo == strSide.Other()
      modifies this
      ensures Did([WriteCnt(to, NextCnt(cnt))] + CommitSteps(c, old(State())))
      ensures Ctrl() == KvedStore.Ctrl.Ctrl(to, IndexOf(j), n, j, 0, n - j, strTo, entry, offset)
      ensures started == old(started)
    {
      hide Run, Apply, NextCnt;
      ghost var f, tr := flash, trace;
      var last := side;
      PointTo(to, strTo, n, j, entry, offset);
      Do(WriteCnt(to, NextCnt(cnt)));
      RunOne(f, WriteCnt(to, NextCnt(cnt)));
      ghost var g, tg := flash, trace;
      SignTwin(to, strTo, last);
      Joined(f, tr, [WriteCnt(to, NextCnt(cnt))], g, tg,
             [WriteSig(to, c.sig), WriteStrSig(strTo, c.strSig), WriteStrEnd(strTo, c.strEnd), WriteSig(last, 0)], flash, trace);
    }

    /** The control data now describes the copy. */
    method PointTo(to: Side, strTo: Side, n: nat, j: nat, entry: nat, offset: nat)
      modifies this`side, this`strSide, this`firstFree, this`deleted, this`total, this`used, this`free, this`strNext, this`strFree
      ensures Ctrl() == KvedStore.Ctrl.Ctrl(to, IndexOf(j), n, j, 0, n - j, strTo, entry, offset)
    {
      side, strSide := to, strTo;
      firstFree := IndexOf(j);
      deleted, total, used, free := 0, n, j, n - j;
      strNext, strFree := entry, offset;
    }

    method SignTwin(to: Side, strTo: Side, last: Side)
      modifies this`flash, this`trace
      ensures Did([WriteSig(to, c.sig), WriteStrSig(strTo, c.strSig), WriteStrEnd(strTo, c.strEnd), WriteSig(last, 0)])
    {
      hide Run, Apply;
      ghost var g := flash;
      Do(WriteSig(to, c.sig));
      Do(WriteStrSig(strTo, c.strSig));
      Do(WriteStrEnd(strTo, c.strEnd));
      Do(WriteSig(last, 0));
      RunFour(g, WriteSig(to, c.sig), WriteStrSig(strTo, c.strSig), WriteStrEnd(strTo, c.strEnd), WriteSig(last, 0));
    }

    /** `kved_compact_database`. */
    method Compact() returns (res: Outcome)
      modifies this
      ensures res == CompactPlan(c, old(State())).res && Followed(CompactPlan(c, old(State())))
    {
      res := SectorSwitch(Update(Label(c.sig), Num(0)));
    }

    /** `kved_internal_data_write`. */
    method DataWrite(d: Data) returns (res: Outcome)
      modifies this
      ensures !old(started) ==> res == NotInitialized && Followed(Plan([], old(Ctrl()), res))
      ensures old(started) ==> res == PutPlan(c, old(State()), d).res && Followed(PutPlan(c, old(State()), d))
      ensures old(started) ==> (res == InvalidKey <==> Reserved(c, d.key))
    {
      hide Run, Apply, SwitchPlan, AppendPlan, TextAt, Label, IsValidKey, Reserved;
      WriteRefused(c, State(), d);
      ghost var st := State();
      RunNone(flash);
      if !started {
        return NotInitialized;
      }
      if !IsValidKey(c.sig, d.key) {
        return InvalidKey;
      }
      var index := KeyIndexFind(d.key);
      var i := SlotOf(index);
      var present := index != INDEX_NOT_FOUND;
      if present {
        var x := flash.Main(side).slots[i];
        if d.value.Str? {
          if TextAt(flash.Str(strSide), x.val, c.d.maxStr) == d.value.t {
            return Ok;
          }
        } else if x.val == d.value.w {
          return Ok;
        }
      }
      if total == used {
        return TableFull;
      }
      if free == 0 {
        res := SectorSwitch(Update(Label(d.key), d.value));
        if res != Ok || present {
          return;
        }
        ghost var sw := SwitchPlan(c, st, Update(Label(d.key), d.value));
        assert State() == Exec(st, sw);
        RunConcat(st.flash, sw.steps, AppendPlan(State(), d, None).steps);
        AppendOk(State(), d, None);
        Append(d, None);
      } else {
        AppendOk(State(), d, if present then Some(i) else None);
        Append(d, if present then Some(i) else None);
      }
      return Ok;
    }

    // --------------------------------------------------------------------- boot

    /** `kved_sector_consistency_check`. */
    method SectorCheck()
      modifies this`flash, this`trace
      ensures Did(SectorCheckSteps(c, old(flash)))
    {
      hide Run, Apply;
      RunNone(flash);
      RunOne(flash, WriteSig(A, 0));
      RunOne(flash, WriteSig(B, 0));
      RunTwo(flash, WriteSig(A, 0), WriteSig(B, 0));
      ghost var none: seq<Step> := [];
      assert none + [WriteSig(B, 0)] == [WriteSig(B, 0)] && [WriteSig(A, 0)] + none == [WriteSig(A, 0)];
      assert [WriteSig(A, 0)] + [WriteSig(B, 0)] == [WriteSig(A, 0), WriteSig(B, 0)];
      if flash.a.sig == c.sig && flash.b.sig == c.sig {
        var cntA, cntB := flash.a.cnt, flash.b.cnt;
        var dropA, dropB := false, false;
        if cntA == WORD_MAX - 1 && cntB == 0 {
          dropA := true;
        } else if cntB == WORD_MAX - 1 && cntA == 0 {
          dropB := true;
        } else if cntA == WORD_MAX || cntB == WORD_MAX {
          dropA := cntA == WORD_MAX;
          dropB := cntB == WORD_MAX;
        }
        if !dropA && !dropB {
          if cntA > cntB {
            dropB := true;
          } else {
            dropA := true;
          }
        }
        if dropA {
          Do(WriteSig(A, 0));
        }
        if dropB {
          Do(WriteSig(B, 0));
        }
      }
    }

    /** `kved_sector_stats_read`. */
    method ReadStats()
      modifies this`firstFree, this`total, this`used, this`deleted, this`free
      ensures Ctrl() == StatsRead(old(State()).Slots(), old(side), old(strSide)).(strNext := old(strNext), strFree := old(strFree))
    {
      var s := flash.Main(side).slots;
      firstFree := 0;
      total, used, deleted, free := 0, 0, 0, 0;
      for i := 0 to |s|
        invariant deleted == KeyCount(s[..i], DELETED) && free == KeyCount(s[..i], FREE)
        invariant total == i && used == i - deleted - free
        invariant firstFree == if Boundary(s) < i then IndexOf(Boundary(s)) else 0
      {
        assert s[..i + 1][..i] == s[..i];
        var key := s[i].key;
        if key == DELETED {
          deleted := deleted + 1;
        } else if key == FREE {
          free := free + 1;
          if firstFree == 0 {
            firstFree := IndexOf(i);
          }
        } else {
          used := used + 1;
        }
        total := total + 1;
      }
      assert s[..|s|] == s;
    }

    /** Choose the signed index sector, or format sector A. */
    method OpenMain()
      modifies this`flash, this`trace, this`side
      ensures Did(MainFormatSteps(c, old(flash))) && side == BootSide(c, flash)
      ensures flash.strA == old(flash.strA) && flash.strB == old(flash.strB)
    {
      hide Run, Apply;
      ghost var g := flash;
      RunNone(g);
      if flash.a.sig == c.sig {
        side := A;
      } else if flash.b.sig == c.sig {
        side := B;
      } else {
        side := A;
        Do(EraseMain(A));
        Do(WriteCnt(A, 0));
        Do(WriteSig(A, c.sig));
        RunThree(g, EraseMain(A), WriteCnt(A, 0), WriteSig(A, c.sig));
        FormatSigns(g, c.sig);
      }
    }

    /** Choose a signed string sector, A before B, or format A. */
    method OpenStr()
      modifies this`flash, this`trace, this`strSide
      ensures Did(StrFormatSteps(c, old(flash))) && strSide == BootStrSide(c, flash)
      ensures flash.a == old(flash.a) && flash.b == old(flash.b)
    {
      hide Run, Apply;
      ghost var h := flash;
      RunNone(h);
      if StrSigned(c, flash.strA) {
        strSide := A;
      } else if StrSigned(c, flash.strB) {
        strSide := B;
      } else {
        strSide := A;
        Do(EraseStr(A));
        Do(WriteStrSig(A, c.strSig));
        Do(WriteStrEnd(A, c.strEnd));
        RunThree(h, EraseStr(A), WriteStrSig(A, c.strSig), WriteStrEnd(A, c.strEnd));
        StrFormatSigns(c, h);
      }
    }

    /** `kved_init`. */
    method Init() returns (res: Outcome)
      requires !started && strNext == 0 && strFree == 0
      modifies this
      ensures res == BootPlan(c, old(flash)).res
      ensures Did(BootPlan(c, old(flash)).steps)
      ensures Ctrl() == BootPlan(c, old(flash)).ctrl && started == (res == Ok)
    {
      hide Run, Apply, CheckPlan, KeyCount, Boundary, SectorCheckSteps, MainFormatSteps, StrFormatSteps, StatsRead;
      ghost var f := flash;
      SectorCheck();
      ghost var s1, g := SectorCheckSteps(c, f), flash;
      OpenMain();
      RunConcat(f, s1, MainFormatSteps(c, g));
      ghost var h, s2 := flash, s1 + MainFormatSteps(c, g);
      ghost var was := strSide;
      ReadStats();
      OpenStr();
      RunConcat(f, s2, StrFormatSteps(c, h));
      assert OpenSteps(c, f) == s2 + StrFormatSteps(c, h);
      StatsFresh(State().Slots(), side, was, strSide);
      assert State() == Opened(c, f);
      RunConcat(f, OpenSteps(c, f), CheckPlan(c, State()).steps);
      res := DataCheck();
      started := res == Ok;
    }
  }

  lemma StatsFresh(s: seq<Slot>, side: Side, was: Side, strSide: Side)
    ensures StatsRead(s, side, was).(strNext := 0, strFree := 0, strSide := strSide) == StatsRead(s, side, strSide)
  {
  }

  /** The sweep judges a slot by what is behind it, which it has not touched yet. */
  lemma SweptTail(c: Config, s: seq<Slot>, i: nat)
    requires i < |s|
    ensures var cur := Swept(c.sig, s, i);
      && cur[i] == s[i] && (Condemned(c.sig, cur, i) <==> Condemned(c.sig, s, i))
      && (HalfWritten(cur[i]) <==> HalfWritten(s[i]))
  {
    var cur := Swept(c.sig, s, i);
    assert forall j :: i <= j < |s| ==> cur[j] == s[j];
    assert IsLast(c.sig, cur, i) <==> IsLast(c.sig, s, i);
  }

  /** Two stretches of steps, one after the other. */
  lemma Joined(f: Flash, tr: seq<Step>, a: seq<Step>, g: Flash, tg: seq<Step>, b: seq<Step>, h: Flash, th: seq<Step>)
    requires tg == tr + a && g == Run(f, a) && th == tg + b && h == Run(g, b)
    ensures th == tr + (a + b) && h == Run(f, a + b)
  {
    hide Run;
    RunConcat(f, a, b);
  }

  lemma FormatSigns(g: Flash, sig: Word)
    ensures var h := Apply(Apply(Apply(g, EraseMain(A)), WriteCnt(A, 0)), WriteSig(A, sig));
      h.a.sig == sig && h.b == g.b && h.strA == g.strA && h.strB == g.strB
  {
  }

  lemma StrFormatSigns(c: Config, g: Flash)
    ensures var h := Apply(Apply(Apply(g, EraseStr(A)), WriteStrSig(A, c.strSig)), WriteStrEnd(A, c.strEnd));
      StrSigned(c, h.strA) && h.a == g.a && h.b == g.b
  {
  }

  lemma AppendOk(st: State, d: Data, replaced: Option<nat>)
    ensures AppendPlan(st, d, replaced).res == Ok
  {
  }

  // --------------------------------------------------------------- copy steps

  /** The steps that copy slot `i`. */
  function EntrySteps(c: Config, s: seq<Slot>, i: nat, u: Update, sec: StrSector, to: Side, strTo: Side): seq<Step>
    requires i < |s|
  {
    var x, t := s[i], s[..i];
    if !Live(c.sig, x) then []
    else
      var j, texts := LiveCount(c.sig, t), PackedTexts(c, t, u, sec);
      var strSteps := if IsString(x.key) then
        [DataStep(strTo, texts, PackText(c, x, u, sec)), PtrStep(strTo, texts, PackText(c, x, u, sec))] else [];
      [WriteKey(to, j, x.key)] + strSteps + [WriteVal(to, j, PackVal(x, u, |texts|))]
  }

  lemma EntryStepsAre(c: Config, s: seq<Slot>, i: nat, u: Update, sec: StrSector, to: Side, strTo: Side)
    requires i < |s|
    ensures var x, j, texts := s[i], LiveCount(c.sig, s[..i]), PackedTexts(c, s[..i], u, sec);
      var text, entry, offset := PackText(c, x, u, sec), |texts|, TotalWords(texts);
      var strSteps := if IsString(x.key) then
        [WriteStrData(strTo, offset, text + [0]), WriteStrIndex(strTo, entry, Pack(offset, |text| + 1))] else [];
      EntrySteps(c, s, i, u, sec, to, strTo)
      == if Live(c.sig, x) then [WriteKey(to, j, x.key)] + strSteps + [WriteVal(to, j, PackVal(x, u, entry))] else []
  {
  }

  lemma CopyNone(c: Config, u: Update, sec: StrSector, to: Side, strTo: Side)
    ensures CopySteps(c, [], u, sec, to, strTo) == [] && PackedTexts(c, [], u, sec) == []
    ensures TotalWords([]) == 0 && LiveCount(c.sig, []) == 0
  {
  }

  lemma CopyNext(c: Config, s: seq<Slot>, i: nat, u: Update, sec: StrSector, to: Side, strTo: Side)
    requires i < |s|
    ensures CopySteps(c, s[..i + 1], u, sec, to, strTo)
         == CopySteps(c, s[..i], u, sec, to, strTo) + EntrySteps(c, s, i, u, sec, to, strTo)
    ensures LiveCount(c.sig, s[..i + 1]) == LiveCount(c.sig, s[..i]) + (if Live(c.sig, s[i]) then 1 else 0)
    ensures var t, t' := PackedTexts(c, s[..i], u, sec), PackedTexts(c, s[..i + 1], u, sec);
      var text := PackText(c, s[i], u, sec);
      && t' == (if Live(c.sig, s[i]) && IsString(s[i].key) then t + [text] else t)
      && TotalWords(t') == TotalWords(t) + (if Live(c.sig, s[i]) && IsString(s[i].key) then TextWords(text) else 0)
  {
    assert s[..i + 1][..i] == s[..i] && s[..i + 1][i] == s[i];
    var t, text := PackedTexts(c, s[..i], u, sec), PackText(c, s[i], u, sec);
    assert (t + [text])[..|t|] == t;
  }

  lemma EraseKeeps(f: Flash, side: Side, strSide: Side)
    ensures var g := Apply(Apply(f, EraseMain(side.Other())), EraseStr(strSide.Other()));
      g.Main(side) == f.Main(side) && g.Str(strSide) == f.Str(strSide)
  {
  }

  /** Everything one round of the copy loop needs. */
  lemma CopyLoopStep(c: Config, f: Flash, s: seq<Slot>, i: nat, u: Update, sec: StrSector, side: Side, strSide: Side)
    requires i < |s|
    ensures var to, strTo := side.Other(), strSide.Other();
      var done, next := CopySteps(c, s[..i], u, sec, to, strTo), CopySteps(c, s[..i + 1], u, sec, to, strTo);
      var x, texts, texts' := s[i], PackedTexts(c, s[..i], u, sec), PackedTexts(c, s[..i + 1], u, sec);
      var text, entry, offset := PackText(c, x, u, sec), |texts|, TotalWords(texts);
      var strSteps := if IsString(x.key) then
        [WriteStrData(strTo, offset, text + [0]), WriteStrIndex(strTo, entry, Pack(offset, |text| + 1))] else [];
      var more := [WriteKey(to, LiveCount(c.sig, s[..i]), x.key)] + strSteps
                  + [WriteVal(to, LiveCount(c.sig, s[..i]), PackVal(x, u, entry))];
      && (!Live(c.sig, x) ==> next == done && texts' == texts && LiveCount(c.sig, s[..i + 1]) == LiveCount(c.sig, s[..i]))
      && (Live(c.sig, x) ==>
            && next == done + more && Run(f, next) == Run(Run(f, done), more)
            && Run(f, next).Main(side) == Run(f, done).Main(side) && Run(f, next).Str(strSide) == Run(f, done).Str(strSide)
            && LiveCount(c.sig, s[..i + 1]) == LiveCount(c.sig, s[..i]) + 1
            && |texts'| == entry + (if IsString(x.key) then 1 else 0)
            && TotalWords(texts') == offset + (if IsString(x.key) then TextWords(text) else 0))
  {
    hide Run, CopySteps, EntrySteps, PackedTexts, LiveCount, PackText, PackVal, Pack, TotalWords, TextWords, IsString, IsValidKey;
    var to, strTo := side.Other(), strSide.Other();
    var done := CopySteps(c, s[..i], u, sec, to, strTo);
    CopyNext(c, s, i, u, sec, to, strTo);
    EntryStepsAre(c, s, i, u, sec, to, strTo);
    RunConcat(f, done, EntrySteps(c, s, i, u, sec, to, strTo));
    EntryKeeps(c, Run(f, done), s, i, u, sec, side, strSide);
  }

  predicate Elsewhere(step: Step, side: Side, strSide: Side) {
    step.side == if TouchesMain(step) then side.Other() else strSide.Other()
  }

  lemma {:induction false} ElsewhereKeeps(f: Flash, steps: seq<Step>, side: Side, strSide: Side)
    requires forall i :: 0 <= i < |steps| ==> Elsewhere(steps[i], side, strSide)
    ensures Run(f, steps).Main(side) == f.Main(side) && Run(f, steps).Str(strSide) == f.Str(strSide)
  {
    if steps != [] {
      ElsewhereKeeps(f, steps[..|steps| - 1], side, strSide);
      assert Elsewhere(steps[|steps| - 1], side, strSide);
    }
  }

  lemma EntryKeeps(c: Config, f: Flash, s: seq<Slot>, i: nat, u: Update, sec: StrSector, side: Side, strSide: Side)
    requires i < |s|
    ensures var g := Run(f, EntrySteps(c, s, i, u, sec, side.Other(), strSide.Other()));
      g.Main(side) == f.Main(side) && g.Str(strSide) == f.Str(strSide)
  {
    ElsewhereKeeps(f, EntrySteps(c, s, i, u, sec, side.Other(), strSide.Other()), side, strSide);
  }
}
