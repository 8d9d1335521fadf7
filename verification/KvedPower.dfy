/** The power-loss theorems for single operations and for recovery itself. */
module KvedPower {
  import opened Options
  import opened KvedWord
  import opened KvedFlash
  import opened KvedIndex
  import opened KvedStore
  import opened KvedInvariant
  import opened KvedSwitch
  import opened KvedWrite
  import opened KvedOps
  import opened KvedMap
  import opened KvedBoot
  import opened KvedCrash

  // --------------------------------------------------------------- operations

  /** The switch leaves the number entries alone if the label it updates is not one of theirs. */
  lemma PackedSame(c: Config, s: seq<Slot>, u: Update, sec: StrSector, strs: set<nat>)
    requires |s| < 0x1_0000 && Kinds(c, s, strs) && u.l !in Numbers(c, s, strs)
    ensures Numbers(c, Packed(c, s, u, sec), strs) == Numbers(c, s, strs)
  {
    hide RawMap, Packed, IsString;
    var m, p := RawMap(c.sig, s), RawMap(c.sig, Packed(c, s, u, sec));
    forall l
      ensures l in p <==> l in m
      ensures l in m && l !in strs ==> p[l] == m[l]
    {
      PackedMap(c, s, u, sec, l);
      if l in m {
        var i := RawMapWitness(c.sig, s, l);
      }
    }
  }

  /** A value of the kind that its label has. */
  predicate KindOf(d: Data, strs: set<nat>) { IsString(d.key) <==> Label(d.key) in strs }

  lemma KindsSameKind(c: Config, st: State, d: Data, strs: set<nat>)
    requires Kinds(c, st.Slots(), strs) && KindOf(d, strs) && DataOk(c, d)
    ensures SameKind(c, st, d)
  {
    if Label(d.key) in RawMap(c.sig, st.Slots()) {
      var i := RawMapWitness(c.sig, st.Slots(), Label(d.key));
    }
  }

  /** The write gets past the key check, the unchanged check and the full check. */
  predicate Writes(c: Config, st: State, d: Data) {
    var s, i := st.Slots(), Find(st.Slots(), Label(d.key));
    IsValidKey(c.sig, d.key) && !(i < |s| && Unchanged(c, st, s[i], d)) && st.ctrl.total != st.ctrl.used
  }

  /** What a write may rely on: kinds in order, and a copy that fits if it has to switch. */
  predicate PutReady(c: Config, st: State, d: Data, strs: set<nat>) {
    && IndexInv(c, st) && Kinds(c, st.Slots(), strs) && KindOf(d, strs)
    && (Writes(c, st, d) && st.ctrl.free == 0 ==> CopyOk(c, st, PutUpdate(d)))
  }

  /** Crash atomicity of a write, sector switch included. */
  lemma PutSafe(c: Config, st: State, d: Data, strs: set<nat>)
    requires PutReady(c, st, d, strs)
    ensures var r := Exec(st, PutPlan(c, st, d));
      && Safe(c, st.flash, PutPlan(c, st, d).steps, strs, Numbers(c, st.Slots(), strs), Numbers(c, r.Slots(), strs))
      && Kinds(c, r.Slots(), strs)
  {
    hide IndexInv, Numbers, SafeAt, Kinds, SwitchPlan, AppendPlan, IsString, Safe, CopyOk;
    var m0 := Numbers(c, st.Slots(), strs);
    var s, i := st.Slots(), Find(st.Slots(), Label(d.key));
    if !Writes(c, st, d) {
      assert Exec(st, PutPlan(c, st, d)) == st;
      IntactSafe(c, st, strs, m0, m0);
      SafeNone(c, st.flash, strs, m0, m0);
    } else if st.ctrl.free == 0 {
      PutSwitchSafe(c, st, d, strs);
    } else {
      var replaced := if i < |s| then Some(i) else None;
      MayAppend(c, st, d, replaced, strs);
      AppendSafe(c, st, d, replaced, strs);
    }
  }

  lemma MayAppend(c: Config, st: State, d: Data, replaced: Option<nat>, strs: set<nat>)
    requires IndexInv(c, st) && st.ctrl.free != 0 && Kinds(c, st.Slots(), strs) && KindOf(d, strs)
    requires IsValidKey(c.sig, d.key) && ReplacesFound(st.Slots(), d.key, replaced)
    ensures AppendsTo(c, st.Slots(), st.ctrl, d.key, replaced, strs)
  {
    hide Kinds, IsString, IsValidKey, ReplacesFound;
  }

  lemma PutSwitchSafe(c: Config, st: State, d: Data, strs: set<nat>)
    requires PutReady(c, st, d, strs) && Writes(c, st, d) && st.ctrl.free == 0
    ensures var r := Exec(st, PutPlan(c, st, d));
      && Safe(c, st.flash, PutPlan(c, st, d).steps, strs, Numbers(c, st.Slots(), strs), Numbers(c, r.Slots(), strs))
      && Kinds(c, r.Slots(), strs)
  {
    hide RawMap, SafeAt, Kinds, SwitchPlan, AppendPlan, Packed, IndexInv, CopyOk, Safe, IsString, IsValidKey, Unchanged;
    var m0, u := Numbers(c, st.Slots(), strs), PutUpdate(d);
    var sw := SwitchPlan(c, st, u);
    var g := Exec(st, sw);
    SwitchExec(c, st, u);
    SwitchHeals(c, st, u);
    if Find(st.Slots(), Label(d.key)) < |st.Slots()| {
      SwitchSafe(c, st, u, strs, m0, Numbers(c, g.Slots(), strs));
      assert PutPlan(c, st, d) == sw;
    } else {
      PutNewAfterSwitch(c, st, d, strs);
    }
  }

  lemma PutNewAfterSwitch(c: Config, st: State, d: Data, strs: set<nat>)
    requires PutReady(c, st, d, strs) && Writes(c, st, d) && st.ctrl.free == 0
    requires Find(st.Slots(), Label(d.key)) == |st.Slots()|
    ensures var r := Exec(st, PutPlan(c, st, d));
      && Safe(c, st.flash, PutPlan(c, st, d).steps, strs, Numbers(c, st.Slots(), strs), Numbers(c, r.Slots(), strs))
      && Kinds(c, r.Slots(), strs)
  {
    hide RawMap, SafeAt, Kinds, SwitchPlan, AppendPlan, Packed, CtrlOk, CopyOk, Safe, IsString, KindOf, Run;
    var m0, u := Numbers(c, st.Slots(), strs), PutUpdate(d);
    var sw := SwitchPlan(c, st, u);
    var g := Exec(st, sw);
    FindDecides(c.sig, st.Slots(), d.key);
    SwitchExec(c, st, u);
    SwitchHeals(c, st, u);
    PackedSame(c, st.Slots(), u, st.Strings(), strs);
    NeedsSwitch(c, st, d);
    SwitchThenAppend(c, st, d);
    NewAfterSwitch(c, st, d);
    SwitchSafe(c, st, u, strs, m0, m0);
    MayAppend(c, g, d, None, strs);
    AppendSafe(c, g, d, None, strs);
    var m1 := Numbers(c, Exec(g, AppendPlan(g, d, None)).Slots(), strs);
    SafeSwap(c, st.flash, sw.steps, strs, m0, m1);
    SafeConcat(c, st.flash, sw.steps, AppendPlan(g, d, None).steps, strs, m0, m1);
  }

  /** Only a write that goes through ends the stale state, and none leads into it. */
  lemma PutStale(c: Config, st: State, d: Data)
    requires IndexInv(c, st) && (Writes(c, st, d) && st.ctrl.free == 0 ==> CopyOk(c, st, PutUpdate(d)))
    ensures var r := Exec(st, PutPlan(c, st, d));
      IndexInv(c, r) && (Stale(c, r) <==> Stale(c, st) && !Writes(c, st, d))
  {
    hide IndexInv, SwitchPlan, AppendPlan, CopyOk, Healthy, Drifted, Run, Stale, IsValidKey, Unchanged;
    var s, i := st.Slots(), Find(st.Slots(), Label(d.key));
    if !Writes(c, st, d) {
      RunNone(st.flash);
      assert Exec(st, PutPlan(c, st, d)) == st;
    } else if st.ctrl.free == 0 {
      NeedsSwitch(c, st, d);
      SwitchExec(c, st, PutUpdate(d));
      SwitchHeals(c, st, PutUpdate(d));
      var g := Exec(st, SwitchPlan(c, st, PutUpdate(d)));
      if i == |s| {
        NewAfterSwitch(c, st, d);
        SwitchThenAppend(c, st, d);
        AppendIndex(c, g, d, None);
      }
      NotStale(c, Exec(st, PutPlan(c, st, d)));
      StaleIsFree(c, st);
    } else {
      StaleIsFree(c, st);
      AppendIndex(c, st, d, if i < |s| then Some(i) else None);
      NotStale(c, Exec(st, PutPlan(c, st, d)));
    }
  }

  lemma StaleIsFree(c: Config, st: State)
    requires IndexInv(c, st)
    ensures (Stale(c, st) ==> st.ctrl.free > 0) && st.ctrl.free >= 0
  {
  }

  /** A key that is not there is not there after the switch either. */
  lemma NewAfterSwitch(c: Config, st: State, d: Data)
    requires IndexInv(c, st) && CopyOk(c, st, PutUpdate(d)) && IsValidKey(c.sig, d.key)
    requires Find(st.Slots(), Label(d.key)) == |st.Slots()|
    ensures ReplacesFound(Exec(st, SwitchPlan(c, st, PutUpdate(d))).Slots(), d.key, None)
  {
    hide RawMap, SwitchPlan, CopyOk, CtrlOk, Packed;
    var u := PutUpdate(d);
    FindDecides(c.sig, st.Slots(), d.key);
    SwitchHeals(c, st, u);
    PackedMap(c, st.Slots(), u, st.Strings(), u.l);
    FindDecides(c.sig, Exec(st, SwitchPlan(c, st, u)).Slots(), d.key);
  }

  lemma NeedsSwitch(c: Config, st: State, d: Data)
    requires IndexInv(c, st) && Writes(c, st, d) && st.ctrl.free == 0
    ensures IsValidKey(c.sig, d.key) && st.ctrl.used < st.ctrl.total && LiveCount(c.sig, st.Slots()) < c.d.n
  {
    UsedIs(c, st);
  }

  /** Crash atomicity of compaction: it never changes the number entries. */
  lemma CompactSafe(c: Config, st: State, strs: set<nat>)
    requires IndexInv(c, st) && Kinds(c, st.Slots(), strs) && CopyOk(c, st, Update(Label(c.sig), Num(0)))
    ensures var r, m := Exec(st, CompactPlan(c, st)), Numbers(c, st.Slots(), strs);
      && Safe(c, st.flash, CompactPlan(c, st).steps, strs, m, m)
      && IndexInv(c, r) && Healthy(c, r) && Numbers(c, r.Slots(), strs) == m && Kinds(c, r.Slots(), strs)
  {
    hide RawMap, SafeAt, Kinds, SwitchPlan, Packed, CtrlOk, CopyOk, Safe;
    var u, m := Update(Label(c.sig), Num(0)), Numbers(c, st.Slots(), strs);
    SwitchHeals(c, st, u);
    RawMapIn(c.sig, st.Slots(), u.l);
    PackedSame(c, st.Slots(), u, st.Strings(), strs);
    SwitchSafe(c, st, u, strs, m, m);
  }

  // ----------------------------------------------------------------- recovery

  lemma SweptKinds(c: Config, s: seq<Slot>, m: nat, strs: set<nat>)
    requires m <= |s| && Kinds(c, s, strs)
    ensures Kinds(c, Swept(c.sig, s, m), strs)
  {
    var r := Swept(c.sig, s, m);
    assert forall i :: 0 <= i < |s| && Live(c.sig, r[i]) ==> r[i] == s[i];
  }

  lemma SweptSafe(c: Config, f: Flash, side: Side, k: nat, strs: set<nat>)
    requires SignedOn(c, f, side) && k <= |f.Main(side).slots|
    requires var s := f.Main(side).slots; KeysOk(c.sig, s) && Shape(s) && Kinds(c, s, strs)
    ensures var s := f.Main(side).slots;
      SafeAt(c, Run(f, SweepSteps(c, side, s, k)), strs, Numbers(c, s, strs), Numbers(c, s, strs))
  {
    hide RawMap, Swept, Shape, KeysOk, Kinds;
    var s := f.Main(side).slots;
    RunSweep(c, f, side, k);
    SweptCounts(c, s, k);
    SweptShape(c, s, k);
    SweptKinds(c, s, k, strs);
    SweptMap(c.sig, s, k);
    SlotWriteSafe(c, f, side, Run(f, SweepSteps(c, side, s, k)), strs, Numbers(c, s, strs), Numbers(c, s, strs));
  }

  lemma {:induction false} SweepSafe(c: Config, f: Flash, side: Side, k: nat, strs: set<nat>)
    requires SignedOn(c, f, side) && k <= |f.Main(side).slots|
    requires var s := f.Main(side).slots; KeysOk(c.sig, s) && Shape(s) && Kinds(c, s, strs)
    ensures var s := f.Main(side).slots;
      Safe(c, f, SweepSteps(c, side, s, k), strs, Numbers(c, s, strs), Numbers(c, s, strs))
  {
    hide Numbers, SafeAt, Shape, KeysOk, Kinds, Condemned, SignedOn;
    var s := f.Main(side).slots;
    var m := Numbers(c, s, strs);
    SweptSafe(c, f, side, k, strs);
    if k == 0 {
      SafeNone(c, f, strs, m, m);
    } else {
      SweepSafe(c, f, side, k - 1, strs);
      var front := SweepSteps(c, side, s, k - 1);
      if Condemned(c.sig, s, k - 1) {
        SafeSnoc(c, f, front, WriteKey(side, k - 1, DELETED), strs, m, m);
      } else {
        assert front + [] == front;
      }
    }
  }

  /** A flash that boots, and the kinds of what it holds. */
  predicate KindFlash(c: Config, f: Flash, strs: set<nat>) {
    FlashOk(c, f) && Kinds(c, WinnerSlots(c, f), strs)
  }

  lemma CheckSafe(c: Config, f: Flash, strs: set<nat>)
    requires KindFlash(c, f, strs)
    ensures var m := BootMap(c, f) - strs;
      Safe(c, f, SectorCheckSteps(c, f), strs, m, m) && KindFlash(c, Run(f, SectorCheckSteps(c, f)), strs)
  {
    hide RawMap, KeysOk, Shape, Kinds;
    var m, steps := BootMap(c, f) - strs, SectorCheckSteps(c, f);
    RunSectorCheck(c, f);
    assert SafeAt(c, Run(f, steps), strs, m, m);
    SafeOne(c, f, steps, strs, m, m);
  }

  /** An unsigned flash stays empty while it is being formatted. */
  lemma UnsignedSafe(c: Config, f: Flash, strs: set<nat>)
    requires c.Valid() && Geometry(f, c.d.n, c.d.bytes) && f.a.sig != c.sig && f.b.sig != c.sig
    ensures SafeAt(c, f, strs, map[], map[])
  {
    EmptyMap(c, c.d.n, strs);
  }

  lemma EmptyMap(c: Config, n: nat, strs: set<nat>)
    ensures var s: seq<Slot> := FreeSlots(n);
      RawMap(c.sig, s) == map[] && KeysOk(c.sig, s) && Shape(s) && Kinds(c, s, strs) && Numbers(c, s, strs) == map[]
  {
    hide Live, IsValidKey;
    var s := FreeSlots(n);
    forall i | 0 <= i < n {
      DeletedIsDead(c.sig, s[i]);
    }
    RawMapSuffixDead(c.sig, [], s);
    assert [] + s == s;
  }

  lemma FormatSafe(c: Config, f: Flash, strs: set<nat>)
    requires c.Valid() && Geometry(f, c.d.n, c.d.bytes) && f.a.sig != c.sig && f.b.sig != c.sig
    ensures Safe(c, f, MainFormatSteps(c, f), strs, map[], map[])
  {
    hide RawMap, SafeAt, Kinds, Shape, KeysOk, Numbers;
    var x, y, z := EraseMain(A), WriteCnt(A, 0), WriteSig(A, c.sig);
    var m: map<nat, Slot> := map[];
    UnsignedSafe(c, f, strs);
    SafeNone(c, f, strs, m, m);
    RunOne(f, x);
    RunTwo(f, x, y);
    RunMainFormat(c, f);
    UnsignedSafe(c, Apply(f, x), strs);
    UnsignedSafe(c, Apply(Apply(f, x), y), strs);
    EmptyMap(c, c.d.n, strs);
    SignedSafe(c, Run(f, [x, y, z]), A, strs, m, m);
    assert [] + [x] == [x] && [x] + [y] == [x, y] && [x, y] + [z] == [x, y, z];
    SafeSnoc(c, f, [], x, strs, m, m);
    SafeSnoc(c, f, [x], y, strs, m, m);
    SafeSnoc(c, f, [x, y], z, strs, m, m);
  }

  /** Recovery may itself be cut anywhere: it never changes the entries it recovers. */
  lemma BootSafe(c: Config, f: Flash, strs: set<nat>)
    requires KindFlash(c, f, strs)
    ensures Safe(c, f, BootPlan(c, f).steps, strs, BootMap(c, f) - strs, BootMap(c, f) - strs)
  {
    hide RawMap, SafeAt, Kinds, Shape, KeysOk, SignedOn, Geometry;
    var m, o := BootMap(c, f) - strs, Opened(c, f);
    OpenSafe(c, f, strs);
    OpenedState(c, f);
    SweepSafe(c, o.flash, o.ctrl.side, |o.Slots()|, strs);
    SafeConcat(c, f, OpenSteps(c, f), SweepSteps(c, o.ctrl.side, o.Slots(), |o.Slots()|), strs, m, m);
  }

  lemma OpenSafe(c: Config, f: Flash, strs: set<nat>)
    requires KindFlash(c, f, strs)
    ensures Safe(c, f, OpenSteps(c, f), strs, BootMap(c, f) - strs, BootMap(c, f) - strs)
  {
    hide RawMap, SafeAt, Kinds, Shape, KeysOk;
    var m, s1 := BootMap(c, f) - strs, SectorCheckSteps(c, f);
    var g := Run(f, s1);
    var s2 := MainFormatSteps(c, g);
    CheckSafe(c, f, strs);
    RunSectorCheck(c, f);
    if Winner(c, f) == None {
      EmptyMap(c, c.d.n, strs);
      FormatSafe(c, g, strs);
      RunMainFormat(c, g);
    } else {
      SafeEnd(c, f, s1, strs, m);
      SafeNone(c, g, strs, m, m);
    }
    SafeConcat(c, f, s1, s2, strs, m, m);
    RunConcat(f, s1, s2);
    var h := Run(g, s2);
    OpenedOnce(c, f, h);
    var side := BootSide(c, h);
    SafeEnd(c, f, s1 + s2, strs, m);
    assert AllQuiet(StrFormatSteps(c, h), side);
    QuietSafe(c, h, side, StrFormatSteps(c, h), strs, m, m);
    SafeConcat(c, f, s1 + s2, StrFormatSteps(c, h), strs, m, m);
  }

  lemma SafeEnd(c: Config, f: Flash, steps: seq<Step>, strs: set<nat>, m: map<nat, Slot>)
    requires Safe(c, f, steps, strs, m, m)
    ensures SafeAt(c, Run(f, steps), strs, m, m)
  {
    assert steps[..|steps|] == steps;
  }

  lemma OpenedOnce(c: Config, f: Flash, h: Flash)
    requires FlashOk(c, f)
    requires var g := Run(f, SectorCheckSteps(c, f)); h == Run(g, MainFormatSteps(c, g))
    ensures SignedOn(c, h, BootSide(c, h))
  {
    RunSectorCheck(c, f);
    if Winner(c, f) == None {
      RunMainFormat(c, Run(f, SectorCheckSteps(c, f)));
    }
  }
}
