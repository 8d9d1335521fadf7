/** Every operation against the plain map the store stands for. */
module KvedOps {
  import opened Options
  import opened KvedWord
  import opened KvedFlash
  import opened KvedIndex
  import opened KvedStore
  import opened KvedInvariant
  import opened KvedWrite

  // ------------------------------------------------------------ index effects

  lemma AppendAt(c: Config, s: seq<Slot>, k: Ctrl)
    requires CtrlOk(c, s, k) && k.free > 0
    ensures SlotOf(k.firstFree) == (if StaleAt(c, s, k) then Boundary(s) - 1 else Boundary(s))
    ensures SlotOf(k.firstFree) < |s| && Boundary(s) < |s|
  {
  }

  lemma LiveBelowBoundary(c: Config, st: State)
    requires IndexInv(c, st)
    ensures LiveCount(c.sig, st.Slots()) <= Boundary(st.Slots())
  {
    CountsAddUp(c.sig, st.Slots());
    FreeCountIs(st.Slots());
  }

  lemma AppendWhere(c: Config, st: State)
    requires IndexInv(c, st) && st.ctrl.free > 0
    ensures SlotOf(st.ctrl.firstFree) < |st.Slots()|
  {
    AppendAt(c, st.Slots(), st.ctrl);
  }

  lemma FoundInside(s: seq<Slot>, key: Word, replaced: Option<nat>)
    requires ReplacesFound(s, key, replaced)
    ensures replaced.Some? ==> replaced.value < |s|
  {
  }

  /** Neither a healthy nor a drifted store is stale. */
  lemma NotStale(c: Config, st: State)
    requires Healthy(c, st) || Drifted(c, st)
    ensures !Stale(c, st)
  {
  }

  /** Counters and free index after a write, as the code keeps them. */
  predicate CountedAppend(k: Ctrl, k': Ctrl, replaced: bool) {
    && k'.total == k.total && k'.free == k.free - 1 && k'.firstFree == k.firstFree + 2
    && k'.deleted == k.deleted + (if replaced then 1 else 0)
    && k'.used == k.used + (if replaced then 0 else 1)
  }

  lemma AppendSlots(c: Config, s: seq<Slot>, k: Ctrl, k': Ctrl, key: Word, v: Word, replaced: Option<nat>)
    requires SlotsOk(c, s) && CtrlOk(c, s, k) && k.free > 0 && IsValidKey(c.sig, key)
    requires ReplacesFound(s, key, replaced) && CountedAppend(k, k', replaced.Some?)
    ensures var r := Appended(s, SlotOf(k.firstFree), key, v, replaced);
      && |r| == |s| && SlotsOk(c, r) && CtrlOk(c, r, k')
      && (HealthyAt(c, s, k) ==> HealthyAt(c, r, k')) && (!HealthyAt(c, s, k) ==> DriftedAt(c, r, k'))
      && RawMap(c.sig, r) == (if StaleAt(c, s, k) then RawMap(c.sig, s) - {Label(key)}
                              else RawMap(c.sig, s)[Label(key) := Slot(key, v)])
  {
    hide RawMap, LiveCount, KeyCount, SlotsOk, Appended, ReplacesFound, IsValidKey;
    AppendAt(c, s, k);
    AppendedSize(s, SlotOf(k.firstFree), key, v, replaced);
    if StaleAt(c, s, k) {
      KeyCountHas(s, Boundary(s) - 1, DELETED);
      FillTombstone(c, s, key, v, replaced);
    } else {
      FillFresh(c, s, key, v, replaced);
    }
  }

  lemma AppendedSize(s: seq<Slot>, p: nat, key: Word, v: Word, replaced: Option<nat>)
    ensures |Appended(s, p, key, v, replaced)| == |s|
  {
  }

  /** Writing in place keeps the index well formed from every state; only the stale
      state, whose free index names a tombstone, loses the write. */
  lemma AppendIndex(c: Config, st: State, d: Data, replaced: Option<nat>)
    requires IndexInv(c, st) && st.ctrl.free > 0 && IsValidKey(c.sig, d.key)
    requires ReplacesFound(st.Slots(), d.key, replaced)
    ensures var r := Exec(st, AppendPlan(st, d, replaced));
      && IndexInv(c, r)
      && (Healthy(c, st) ==> Healthy(c, r)) && (!Healthy(c, st) ==> Drifted(c, r))
      && RawMap(c.sig, r.Slots()) ==
         (if Stale(c, st) then RawMap(c.sig, st.Slots()) - {Label(d.key)}
          else RawMap(c.sig, st.Slots())[Label(d.key) := Slot(d.key, EntryWord(st, d))])
  {
    var s, k, plan := st.Slots(), st.ctrl, AppendPlan(st, d, replaced);
    AppendAt(c, s, k);
    AppendExec(st, d, replaced);
    assert Exec(st, plan).Slots() == Appended(s, SlotOf(k.firstFree), d.key, EntryWord(st, d), replaced);
    AppendSlots(c, s, k, plan.ctrl, d.key, EntryWord(st, d), replaced);
    AppendSigned(c, st, d, replaced);
  }

  lemma AppendSigned(c: Config, st: State, d: Data, replaced: Option<nat>)
    requires SignedOn(c, st.flash, st.ctrl.side)
    requires SlotOf(st.ctrl.firstFree) < |st.Slots()|
    requires replaced.Some? ==> replaced.value < |st.Slots()|
    ensures AppendPlan(st, d, replaced).ctrl.side == st.ctrl.side
    ensures SignedOn(c, Run(st.flash, AppendPlan(st, d, replaced).steps), st.ctrl.side)
  {
    AppendExec(st, d, replaced);
    RunGeometry(st.flash, AppendPlan(st, d, replaced).steps, c.d.n, c.d.bytes);
  }

  lemma AppendSlotsAre(c: Config, st: State, d: Data, replaced: Option<nat>)
    requires IndexInv(c, st) && st.ctrl.free > 0 && ReplacesFound(st.Slots(), d.key, replaced)
    ensures Exec(st, AppendPlan(st, d, replaced)).Slots()
         == Appended(st.Slots(), SlotOf(st.ctrl.firstFree), d.key, EntryWord(st, d), replaced)
  {
    AppendAt(c, st.Slots(), st.ctrl);
    AppendExec(st, d, replaced);
  }

  lemma DeleteIndex(c: Config, st: State, key: Word)
    requires IndexInv(c, st)
    ensures var p, r := DeletePlan(c, st, key), Exec(st, DeletePlan(c, st, key));
      && IndexInv(c, r)
      && (Healthy(c, st) ==> Healthy(c, r)) && (Stale(c, st) <==> Stale(c, r))
      && r.flash.strA == st.flash.strA && r.flash.strB == st.flash.strB
      && RawMap(c.sig, r.Slots()) == RawMap(c.sig, st.Slots()) - (if IsValidKey(c.sig, key) then {Label(key)} else {})
      && p.res == (if IsValidKey(c.sig, key) && Label(key) in RawMap(c.sig, st.Slots()) then Ok else InvalidKey)
  {
    var s, i := st.Slots(), Find(st.Slots(), Label(key));
    var m := RawMap(c.sig, s);
    if IsValidKey(c.sig, key) {
      FindDecides(c.sig, s, key);
      if i < |s| {
        KillState(c, st, i);
      } else {
        assert m - {Label(key)} == m;
      }
    } else {
      assert m - {} == m;
    }
  }

  lemma KillCtrl(c: Config, s: seq<Slot>, k: Ctrl, i: nat)
    requires SlotsOk(c, s) && CtrlOk(c, s, k) && i < |s| && Live(c.sig, s[i])
    ensures var r, k' := s[i := s[i].(key := DELETED)], k.(deleted := k.deleted + 1, used := k.used - 1);
      && SlotsOk(c, r) && CtrlOk(c, r, k') && (HealthyAt(c, s, k) ==> HealthyAt(c, r, k'))
      && (StaleAt(c, s, k) <==> StaleAt(c, r, k'))
      && RawMap(c.sig, r) == RawMap(c.sig, s) - {Label(s[i].key)}
  {
    KillSlot(c, s, i);
  }

  lemma KillState(c: Config, st: State, i: nat)
    requires IndexInv(c, st) && i < |st.Slots()| && Live(c.sig, st.Slots()[i])
    ensures var k, f := st.ctrl, Run(st.flash, [WriteKey(st.ctrl.side, i, DELETED)]);
      var r := State(f, k.(deleted := k.deleted + 1, used := k.used - 1));
      && f.strA == st.flash.strA && f.strB == st.flash.strB
      && IndexInv(c, r) && (Healthy(c, st) ==> Healthy(c, r)) && (Stale(c, st) <==> Stale(c, r))
      && RawMap(c.sig, r.Slots()) == RawMap(c.sig, st.Slots()) - {Label(st.Slots()[i].key)}
  {
    KillFlash(st.flash, st.ctrl.side, i);
    KillCtrl(c, st.Slots(), st.ctrl, i);
  }
}
