/** Power cuts in stores that hold strings as well: the number entries are as safe as in a
    store of numbers alone. */
module KvedMixed {
  import opened KvedWord
  import opened KvedFlash
  import opened KvedIndex
  import opened KvedStrings
  import opened KvedStore
  import opened KvedInvariant
  import opened KvedSwitch
  import opened KvedMap
  import opened KvedText
  import opened KvedBoot
  import opened KvedCrash
  import opened KvedPower
  import opened KvedRuns

  /** The number entries of a map. */
  function NumEntries(m: map<nat, Slot>): map<nat, Slot> {
    map l | l in m && !IsString(m[l].key) :: m[l]
  }

  /** The labels under which there are strings, or one is being put. */
  function StringLabels(c: Config, st: State, op: Op): set<nat> {
    (set l | l in RawMap(c.sig, st.Slots()) && IsString(RawMap(c.sig, st.Slots())[l].key))
    + if op.PutOp? && IsString(op.d.key) then {Label(op.d.key)} else {}
  }

  lemma NumEntriesAre(c: Config, s: seq<Slot>, strs: set<nat>)
    requires Kinds(c, s, strs)
    ensures NumEntries(RawMap(c.sig, s)) == Numbers(c, s, strs)
  {
    var m := RawMap(c.sig, s);
    forall l | l in m
      ensures IsString(m[l].key) <==> l in strs
    {
      var i := RawMapWitness(c.sig, s, l);
    }
  }

  /** Keys do not change kind, so the labels sort the entries. */
  lemma KindsKnown(c: Config, st: State, op: Op)
    requires IndexInv(c, st) && (op.PutOp? ==> DataOk(c, op.d) && SameKind(c, st, op.d))
    ensures Kinds(c, st.Slots(), StringLabels(c, st, op))
    ensures op.PutOp? ==> KindOf(op.d, StringLabels(c, st, op))
  {
    hide CtrlOk, IsValidKey;
    var s := st.Slots();
    forall i | 0 <= i < |s| && Live(c.sig, s[i])
      ensures Label(s[i].key) in RawMap(c.sig, s) && RawMap(c.sig, s)[Label(s[i].key)] == s[i]
    {
      assert IsLast(c.sig, s, i);
      RawMapLast(c.sig, s, i);
    }
  }

  lemma MixedPutReady(c: Config, st: State, d: Data, texts: seq<Text>)
    requires IndexInv(c, st) && StrInv(c, st, texts) && OpOk(c, st, PutOp(d))
    ensures PutReady(c, st, d, StringLabels(c, st, PutOp(d)))
  {
    hide Kinds, StrInv, CopyOk, Contents, StringLabels, Room, DataOk, IsString;
    KindsKnown(c, st, PutOp(d));
    if Writes(c, st, d) && st.ctrl.free == 0 {
      NeedsSwitch(c, st, d);
      UnchangedIs(c, st, d);
      CopyForPut(c, st, d, texts);
    }
  }

  lemma MixedCompactReady(c: Config, st: State, texts: seq<Text>)
    requires IndexInv(c, st) && StrInv(c, st, texts)
    ensures CopyOk(c, st, Update(Label(c.sig), Num(0)))
  {
    hide StrInv, CopyOk, CtrlOk;
    RawMapIn(c.sig, st.Slots(), Label(c.sig));
    NoTextHere(c, st, Label(c.sig));
    CopyAlwaysFits(c, st, Update(Label(c.sig), Num(0)), texts);
  }

  lemma OpSafeFor(c: Config, st: State, op: Op, texts: seq<Text>)
    requires IndexInv(c, st) && StrInv(c, st, texts) && OpOk(c, st, op)
    ensures var strs, r := StringLabels(c, st, op), OpState(c, st, op);
      && Safe(c, st.flash, OpPlan(c, st, op).steps, strs, Numbers(c, st.Slots(), strs), Numbers(c, r.Slots(), strs))
      && Kinds(c, st.Slots(), strs) && Kinds(c, r.Slots(), strs)
  {
    hide IndexInv, Kinds, StrInv, Numbers, Safe, StringLabels, PutPlan, DeletePlan, SwitchPlan, Run, CopyOk, SafeAt, Room, SameKind, DataOk, PutReady;
    var strs := StringLabels(c, st, op);
    KindsKnown(c, st, op);
    match op {
      case PutOp(d) =>
        MixedPutReady(c, st, d, texts);
        PutSafe(c, st, d, strs);
      case GetOp(key) =>
        RunNone(st.flash);
        assert OpState(c, st, op) == st;
        var m := Numbers(c, st.Slots(), strs);
        IntactSafe(c, st, strs, m, m);
        SafeNone(c, st.flash, strs, m, m);
      case DeleteOp(key) =>
        DeleteSafe(c, st, key, strs);
      case CompactOp =>
        MixedCompactReady(c, st, texts);
        CompactSafe(c, st, strs);
    }
  }

  /** Any operation on any store, strings included, cut after any of its flash steps: the flash
      boots, and the number entries recovered are those before the operation or those after. */
  lemma OpCut(c: Config, st: State, op: Op, texts: seq<Text>, i: nat)
    requires IndexInv(c, st) && StrInv(c, st, texts) && OpOk(c, st, op) && i <= |OpPlan(c, st, op).steps|
    ensures var f := Run(st.flash, OpPlan(c, st, op).steps[..i]);
      && FlashOk(c, f) && IndexInv(c, Booted(c, f))
      && var m := NumEntries(RawMap(c.sig, Booted(c, f).Slots()));
      m == NumEntries(RawMap(c.sig, st.Slots())) || m == NumEntries(RawMap(c.sig, OpState(c, st, op).Slots()))
  {
    hide IndexInv, Kinds, StrInv, Numbers, RawMap, StringLabels, OpPlan, OpOk, FlashOk, NumEntries, Run, Booted, WinnerSlots;
    var strs, f, r := StringLabels(c, st, op), Run(st.flash, OpPlan(c, st, op).steps[..i]), OpState(c, st, op);
    OpSafeFor(c, st, op, texts);
    assert SafeAt(c, f, strs, Numbers(c, st.Slots(), strs), Numbers(c, r.Slots(), strs));
    BootRecovers(c, f);
    NumEntriesAre(c, WinnerSlots(c, f), strs);
    NumEntriesAre(c, st.Slots(), strs);
    NumEntriesAre(c, r.Slots(), strs);
  }

  /** Cutting the boot that follows, anywhere, changes nothing either. */
  lemma BootCutMixed(c: Config, f: Flash, strs: set<nat>, i: nat)
    requires KindFlash(c, f, strs) && i <= |BootPlan(c, f).steps|
    ensures var g := Run(f, BootPlan(c, f).steps[..i]);
      KindFlash(c, g, strs) && NumEntries(BootMap(c, g)) == NumEntries(BootMap(c, f))
  {
    hide Kinds, FlashOk, RawMap, BootPlan, Run, WinnerSlots, NumEntries;
    var g := Run(f, BootPlan(c, f).steps[..i]);
    BootSafe(c, f, strs);
    assert SafeAt(c, g, strs, BootMap(c, f) - strs, BootMap(c, f) - strs);
    NumEntriesAre(c, WinnerSlots(c, f), strs);
    NumEntriesAre(c, WinnerSlots(c, g), strs);
  }
}
