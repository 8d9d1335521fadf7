/** Power cuts: every prefix of the flash steps of every operation recovers the number entries
    as they were before the operation or as they are after it, whatever strings there are. */
module KvedCrash {
  import opened Options
  import opened KvedWord
  import opened KvedFlash
  import opened KvedIndex
  import opened KvedStore
  import opened KvedInvariant
  import opened KvedSwitch
  import opened KvedWrite
  import opened KvedOps
  import opened KvedBoot

  /** The entries under the labels `strs` are strings, all others numbers. */
  predicate Kinds(c: Config, s: seq<Slot>, strs: set<nat>) {
    forall i :: 0 <= i < |s| && Live(c.sig, s[i]) ==> (IsString(s[i].key) <==> Label(s[i].key) in strs)
  }

  /** The number entries of a sector. */
  function Numbers(c: Config, s: seq<Slot>, strs: set<nat>): map<nat, Slot> {
    RawMap(c.sig, s) - strs
  }

  /** Cutting `steps` anywhere leaves a flash that boots to one of two sets of number entries. */
  ghost predicate Safe(c: Config, f: Flash, steps: seq<Step>, strs: set<nat>, m0: map<nat, Slot>, m1: map<nat, Slot>) {
    forall k :: 0 <= k <= |steps| ==> SafeAt(c, Run(f, steps[..k]), strs, m0, m1)
  }

  ghost predicate SafeAt(c: Config, f: Flash, strs: set<nat>, m0: map<nat, Slot>, m1: map<nat, Slot>) {
    FlashOk(c, f) && Among(c, WinnerSlots(c, f), strs, m0, m1)
  }

  ghost predicate Among(c: Config, s: seq<Slot>, strs: set<nat>, m0: map<nat, Slot>, m1: map<nat, Slot>) {
    Kinds(c, s, strs) && (Numbers(c, s, strs) == m0 || Numbers(c, s, strs) == m1)
  }

  lemma SafeConcat(c: Config, f: Flash, xs: seq<Step>, ys: seq<Step>, strs: set<nat>, m0: map<nat, Slot>, m1: map<nat, Slot>)
    requires Safe(c, f, xs, strs, m0, m1) && Safe(c, Run(f, xs), ys, strs, m0, m1)
    ensures Safe(c, f, xs + ys, strs, m0, m1)
  {
    hide SafeAt;
    var zs := xs + ys;
    forall k | 0 <= k <= |zs|
      ensures SafeAt(c, Run(f, zs[..k]), strs, m0, m1)
    {
      if k <= |xs| {
        assert zs[..k] == xs[..k];
      } else {
        assert zs[..k] == xs + ys[..k - |xs|];
        RunConcat(f, xs, ys[..k - |xs|]);
      }
    }
  }

  lemma SafeNone(c: Config, f: Flash, strs: set<nat>, m0: map<nat, Slot>, m1: map<nat, Slot>)
    requires SafeAt(c, f, strs, m0, m1)
    ensures Safe(c, f, [], strs, m0, m1)
  {
    var none: seq<Step> := [];
    assert none[..0] == none;
  }

  /** One more step. */
  lemma SafeSnoc(c: Config, f: Flash, xs: seq<Step>, y: Step, strs: set<nat>, m0: map<nat, Slot>, m1: map<nat, Slot>)
    requires Safe(c, f, xs, strs, m0, m1) && SafeAt(c, Run(f, xs + [y]), strs, m0, m1)
    ensures Safe(c, f, xs + [y], strs, m0, m1)
  {
    hide SafeAt;
    var zs := xs + [y];
    forall k | 0 <= k <= |zs|
      ensures SafeAt(c, Run(f, zs[..k]), strs, m0, m1)
    {
      if k <= |xs| {
        assert zs[..k] == xs[..k];
      } else {
        assert zs[..k] == zs;
      }
    }
  }

  lemma SafeSwap(c: Config, f: Flash, steps: seq<Step>, strs: set<nat>, m0: map<nat, Slot>, m1: map<nat, Slot>)
    requires Safe(c, f, steps, strs, m0, m0) || Safe(c, f, steps, strs, m1, m1)
    ensures Safe(c, f, steps, strs, m0, m1)
  {
    hide Kinds, Numbers, WinnerSlots, FlashOk;
    forall k | 0 <= k <= |steps|
      ensures SafeAt(c, Run(f, steps[..k]), strs, m0, m1)
    {
      assert SafeAt(c, Run(f, steps[..k]), strs, m0, m0) || SafeAt(c, Run(f, steps[..k]), strs, m1, m1);
    }
  }

  /** With one sector signed, the map is that sector's map. */
  lemma SignedMap(c: Config, f: Flash, side: Side)
    requires SignedOn(c, f, side)
    ensures Winner(c, f) == Some(side) && WinnerSlots(c, f) == f.Main(side).slots
    ensures BootMap(c, f) == RawMap(c.sig, f.Main(side).slots)
  {
  }

  lemma SignedSafe(c: Config, f: Flash, side: Side, strs: set<nat>, m0: map<nat, Slot>, m1: map<nat, Slot>)
    requires SignedOn(c, f, side)
    requires var s := f.Main(side).slots; KeysOk(c.sig, s) && Shape(s) && Among(c, s, strs, m0, m1)
    ensures SafeAt(c, f, strs, m0, m1)
  {
    hide Among, KeysOk, Shape;
    SignedMap(c, f, side);
  }

  /** Only slots of the signed sector changed. */
  lemma SlotWriteSafe(c: Config, f: Flash, side: Side, g: Flash, strs: set<nat>, m0: map<nat, Slot>, m1: map<nat, Slot>)
    requires SignedOn(c, f, side) && |g.Main(side).slots| == c.d.n
    requires g == f.WithMain(side, f.Main(side).(slots := g.Main(side).slots))
    requires var s := g.Main(side).slots; KeysOk(c.sig, s) && Shape(s) && Among(c, s, strs, m0, m1)
    ensures SafeAt(c, g, strs, m0, m1)
  {
    hide Among, KeysOk, Shape;
    SignedSafe(c, g, side, strs, m0, m1);
  }

  lemma IntactSafe(c: Config, r: State, strs: set<nat>, m0: map<nat, Slot>, m1: map<nat, Slot>)
    requires IndexInv(c, r) && Among(c, r.Slots(), strs, m0, m1)
    ensures SafeAt(c, r.flash, strs, m0, m1)
  {
    hide Among;
    SignedSafe(c, r.flash, r.ctrl.side, strs, m0, m1);
  }

  // ------------------------------------------------------------- quiet steps

  /** A step that cannot change what a boot recovers while `side` is the only signed
      sector: it touches neither that sector nor the other one's signature. */
  predicate Quiet(step: Step, side: Side) {
    TouchesMain(step) ==> step.side == side.Other() && !step.WriteSig?
  }

  predicate AllQuiet(steps: seq<Step>, side: Side) {
    forall i :: 0 <= i < |steps| ==> Quiet(steps[i], side)
  }

  lemma {:induction false} QuietRun(c: Config, f: Flash, side: Side, steps: seq<Step>)
    requires SignedOn(c, f, side)
    requires AllQuiet(steps, side)
    ensures SignedOn(c, Run(f, steps), side) && Run(f, steps).Main(side) == f.Main(side)
  {
    if steps != [] {
      var front := steps[..|steps| - 1];
      assert forall i :: 0 <= i < |front| ==> front[i] == steps[i];
      QuietRun(c, f, side, front);
      assert Quiet(steps[|steps| - 1], side);
    }
  }

  lemma QuietSafe(c: Config, f: Flash, side: Side, steps: seq<Step>, strs: set<nat>, m0: map<nat, Slot>, m1: map<nat, Slot>)
    requires SignedOn(c, f, side) && SafeAt(c, f, strs, m0, m1)
    requires AllQuiet(steps, side)
    ensures Safe(c, f, steps, strs, m0, m1)
  {
    hide Among, KeysOk, Shape;
    SignedMap(c, f, side);
    forall k | 0 <= k <= |steps|
      ensures SafeAt(c, Run(f, steps[..k]), strs, m0, m1)
    {
      QuietRun(c, f, side, steps[..k]);
      SignedMap(c, Run(f, steps[..k]), side);
    }
  }

  lemma {:induction false} CopyIsQuiet(c: Config, s: seq<Slot>, u: Update, sec: StrSector, side: Side, strTo: Side)
    ensures AllQuiet(CopySteps(c, s, u, sec, side.Other(), strTo), side)
  {
    if s != [] {
      var t := s[..|s| - 1];
      CopyIsQuiet(c, t, u, sec, side, strTo);
      var front, all := CopySteps(c, t, u, sec, side.Other(), strTo), CopySteps(c, s, u, sec, side.Other(), strTo);
      assert all == front + all[|front|..];
      assert AllQuiet(all[|front|..], side);
    }
  }

  lemma PrepareIsQuiet(c: Config, st: State, u: Update)
    ensures AllQuiet(PrepareSteps(c, st, u), st.ctrl.side)
  {
    CopyIsQuiet(c, st.Slots(), u, st.Strings(), st.ctrl.side, st.ctrl.strSide.Other());
  }

  // ------------------------------------------------------------- packed kinds

  lemma PackedKinds(c: Config, s: seq<Slot>, u: Update, sec: StrSector, strs: set<nat>)
    requires Kinds(c, s, strs)
    ensures Kinds(c, Packed(c, s, u, sec), strs)
  {
    var p := Packed(c, s, u, sec);
    forall j | 0 <= j < |p| && Live(c.sig, p[j])
      ensures IsString(p[j].key) <==> Label(p[j].key) in strs
    {
      var i := PackedMember(c, s, u, sec, j);
    }
  }

  lemma KindsPadded(c: Config, p: seq<Slot>, m: nat, strs: set<nat>)
    requires Kinds(c, p, strs)
    ensures Kinds(c, p + FreeSlots(m), strs)
  {
    var s := p + FreeSlots(m);
    assert forall i :: 0 <= i < |s| && Live(c.sig, s[i]) ==> i < |p| && s[i] == p[i];
  }

  lemma KindsDrop(c: Config, s: seq<Slot>, i: nat, strs: set<nat>)
    requires Kinds(c, s, strs) && i < |s|
    ensures Kinds(c, s[i := s[i].(key := DELETED)], strs)
  {
  }

  lemma KindsSet(c: Config, s: seq<Slot>, i: nat, x: Slot, strs: set<nat>)
    requires Kinds(c, s, strs) && i < |s| && (Live(c.sig, x) ==> (IsString(x.key) <==> Label(x.key) in strs))
    ensures Kinds(c, s[i := x], strs)
  {
  }

  lemma PackedSafeSlots(c: Config, st: State, u: Update, strs: set<nat>)
    requires IndexInv(c, st) && Kinds(c, st.Slots(), strs)
    ensures var p := Packed(c, st.Slots(), u, st.Strings());
      var s := p + FreeSlots(c.d.n - |p|);
      && KeysOk(c.sig, s) && Shape(s) && Kinds(c, s, strs) && Numbers(c, s, strs) == Numbers(c, p, strs)
  {
    hide Kinds, Packed, CtrlOk, RawMap;
    var p := Packed(c, st.Slots(), u, st.Strings());
    PackedDistinct(c, st.Slots(), u, st.Strings());
    PackedSlots(c, p, c.d.n);
    PackedKinds(c, st.Slots(), u, st.Strings(), strs);
    KindsPadded(c, p, c.d.n - |p|, strs);
  }

  // ------------------------------------------------------------------- switch

  /** What a switch comes to for the number entries. */
  ghost predicate PackedAmong(c: Config, st: State, u: Update, strs: set<nat>, m0: map<nat, Slot>, m1: map<nat, Slot>) {
    var p := Numbers(c, Packed(c, st.Slots(), u, st.Strings()), strs);
    p == m0 || p == m1
  }

  /** Commit: from the moment the twin is signed it wins, and its map is the packed one. */
  lemma CommitSafe(c: Config, st: State, u: Update, strs: set<nat>, m0: map<nat, Slot>, m1: map<nat, Slot>)
    requires IndexInv(c, st) && CopyOk(c, st, u) && Among(c, st.Slots(), strs, m0, m1) && PackedAmong(c, st, u, strs, m0, m1)
    ensures Safe(c, Prepared(c, st, u), CommitSteps(c, st), strs, m0, m1)
  {
    hide IndexInv, CopyOk, PackedAmong, SafeAt;
    var f, to, strTo := Prepared(c, st, u), st.ctrl.side.Other(), st.ctrl.strSide.Other();
    var w, x, y, z := WriteSig(to, c.sig), WriteStrSig(strTo, c.strSig), WriteStrEnd(strTo, c.strEnd), WriteSig(st.ctrl.side, 0);
    var f1 := Apply(f, w);
    var f2 := Apply(f1, x);
    var f3 := Apply(f2, y);
    PreparedSafe(c, st, u, strs, m0, m1);
    SignedTwice(c, st, u);
    SignedTwiceSafe(c, st, u, f1, strs, m0, m1);
    SignedTwiceSafe(c, st, u, f2, strs, m0, m1);
    SignedTwiceSafe(c, st, u, f3, strs, m0, m1);
    RunFour(f, w, x, y, z);
    ValidOf(c, st);
    RunCommit(c, st, u);
    SwitchedSafe(c, st, u, strs, m0, m1);
    SafeFour(c, f, w, x, y, z, strs, m0, m1);
  }

  lemma ValidOf(c: Config, st: State)
    requires IndexInv(c, st)
    ensures c.Valid() && Geometry(st.flash, c.d.n, c.d.bytes) && |st.Slots()| == c.d.n
  {
  }

  lemma SafeFour(c: Config, f: Flash, w: Step, x: Step, y: Step, z: Step, strs: set<nat>, m0: map<nat, Slot>, m1: map<nat, Slot>)
    requires SafeAt(c, f, strs, m0, m1) && SafeAt(c, Apply(f, w), strs, m0, m1) && SafeAt(c, Apply(Apply(f, w), x), strs, m0, m1)
    requires SafeAt(c, Apply(Apply(Apply(f, w), x), y), strs, m0, m1)
    requires SafeAt(c, Apply(Apply(Apply(Apply(f, w), x), y), z), strs, m0, m1)
    ensures Safe(c, f, [w, x, y, z], strs, m0, m1)
  {
    hide SafeAt, Apply;
    SafeNone(c, f, strs, m0, m1);
    RunOne(f, w);
    assert [] + [w] == [w];
    SafeSnoc(c, f, [], w, strs, m0, m1);
    RunTwo(f, w, x);
    assert [w] + [x] == [w, x];
    SafeSnoc(c, f, [w], x, strs, m0, m1);
    assert [w, x, y][..2] == [w, x] && [w, x] + [y] == [w, x, y];
    SafeSnoc(c, f, [w, x], y, strs, m0, m1);
    RunFour(f, w, x, y, z);
    assert [w, x, y] + [z] == [w, x, y, z];
    SafeSnoc(c, f, [w, x, y], z, strs, m0, m1);
  }

  /** The three moments at which both sectors are signed. */
  lemma SignedTwice(c: Config, st: State, u: Update)
    requires IndexInv(c, st) && CopyOk(c, st, u)
    ensures var f, k := Prepared(c, st, u), st.ctrl;
      var f1 := Apply(f, WriteSig(k.side.Other(), c.sig));
      var f2 := Apply(f1, WriteStrSig(k.strSide.Other(), c.strSig));
      var f3 := Apply(f2, WriteStrEnd(k.strSide.Other(), c.strEnd));
      BothSigned(c, st, u, f1) && BothSigned(c, st, u, f2) && BothSigned(c, st, u, f3)
  {
    hide CopyOk;
    RunPrepare(c, st, u);
    RunGeometry(st.flash, PrepareSteps(c, st, u), c.d.n, c.d.bytes);
  }

  predicate BothSigned(c: Config, st: State, u: Update, f: Flash) {
    && Geometry(f, c.d.n, c.d.bytes) && f.Main(st.ctrl.side) == st.Active()
    && f.Main(st.ctrl.side.Other()) == Prepared(c, st, u).Main(st.ctrl.side.Other()).(sig := c.sig)
  }

  lemma PreparedSafe(c: Config, st: State, u: Update, strs: set<nat>, m0: map<nat, Slot>, m1: map<nat, Slot>)
    requires IndexInv(c, st) && CopyOk(c, st, u) && Among(c, st.Slots(), strs, m0, m1)
    ensures SafeAt(c, Prepared(c, st, u), strs, m0, m1)
  {
    hide CopyOk, Among;
    RunPrepare(c, st, u);
    PrepareIsQuiet(c, st, u);
    QuietRun(c, st.flash, st.ctrl.side, PrepareSteps(c, st, u));
    SignedSafe(c, Prepared(c, st, u), st.ctrl.side, strs, m0, m1);
  }

  /** Both sectors signed: the counter decides for the twin, on either side and at the wrap. */
  lemma NewestWins(c: Config, st: State, u: Update, f: Flash)
    requires SignedOn(c, st.flash, st.ctrl.side) && BothSigned(c, st, u, f)
    ensures Winner(c, f) == Some(st.ctrl.side.Other())
    ensures WinnerSlots(c, f) == Prepared(c, st, u).Main(st.ctrl.side.Other()).slots
    ensures f.a.cnt != FREE && f.b.cnt != FREE
  {
    NextIsNewer(st.Active().cnt);
  }

  lemma SignedTwiceSafe(c: Config, st: State, u: Update, f: Flash, strs: set<nat>, m0: map<nat, Slot>, m1: map<nat, Slot>)
    requires IndexInv(c, st) && Kinds(c, st.Slots(), strs) && BothSigned(c, st, u, f) && PackedAmong(c, st, u, strs, m0, m1)
    ensures SafeAt(c, f, strs, m0, m1)
  {
    hide KeysOk, Shape, Kinds, Numbers, Packed, Winner, SlotsOk, CtrlOk;
    NewestWins(c, st, u, f);
    PackedSafeSlots(c, st, u, strs);
  }

  lemma SwitchedSafe(c: Config, st: State, u: Update, strs: set<nat>, m0: map<nat, Slot>, m1: map<nat, Slot>)
    requires IndexInv(c, st) && Kinds(c, st.Slots(), strs) && CopyOk(c, st, u) && PackedAmong(c, st, u, strs, m0, m1)
    ensures SafeAt(c, Switched(c, st, u), strs, m0, m1)
    ensures Kinds(c, State(Switched(c, st, u), SwitchedCtrl(c, st, u)).Slots(), strs)
  {
    hide CopyOk, Kinds, Numbers, Packed;
    SwitchedHealthy(c, st, u);
    SwitchedSlots(c, st, u);
    PackedSafeSlots(c, st, u, strs);
    SignedSafe(c, Switched(c, st, u), st.ctrl.side.Other(), strs, m0, m1);
  }

  lemma SwitchSafe(c: Config, st: State, u: Update, strs: set<nat>, m0: map<nat, Slot>, m1: map<nat, Slot>)
    requires IndexInv(c, st) && CopyOk(c, st, u) && Among(c, st.Slots(), strs, m0, m1) && PackedAmong(c, st, u, strs, m0, m1)
    ensures Safe(c, st.flash, SwitchPlan(c, st, u).steps, strs, m0, m1)
    ensures Kinds(c, Exec(st, SwitchPlan(c, st, u)).Slots(), strs)
  {
    hide CopyOk, SafeAt, PackedAmong, Switched, Prepared, SwitchedCtrl, Kinds, Numbers;
    SwitchExec(c, st, u);
    IntactSafe(c, st, strs, m0, m1);
    PrepareIsQuiet(c, st, u);
    QuietSafe(c, st.flash, st.ctrl.side, PrepareSteps(c, st, u), strs, m0, m1);
    RunPrepare(c, st, u);
    CommitSafe(c, st, u, strs, m0, m1);
    SwitchedSafe(c, st, u, strs, m0, m1);
    SafeConcat(c, st.flash, PrepareSteps(c, st, u), CommitSteps(c, st), strs, m0, m1);
  }

  // ------------------------------------------------------------------- writes

  /** The slots when `i` of the index steps of a write in place are done. */
  function CutSlots(s: seq<Slot>, p: nat, key: Word, v: Word, replaced: Option<nat>, i: nat): seq<Slot>
    requires p < |s|
  {
    if i == 0 then s
    else if i == 1 then s[p := s[p].(val := Program(s[p].val, v))]
    else Appended(s, p, key, v, if i == 2 then None else replaced)
  }

  /** From which of its index steps on a write in place shows: the key word, or, if the free
      index is stale, the tombstone on the entry it was to replace. */
  function ShowsAt(c: Config, s: seq<Slot>, k: Ctrl): nat { if StaleAt(c, s, k) then 3 else 2 }

  /** What the write makes of the map, in the end. */
  function WrittenMap(c: Config, s: seq<Slot>, k: Ctrl, key: Word, v: Word): map<nat, Slot> {
    var m := RawMap(c.sig, s);
    if StaleAt(c, s, k) then m - {Label(key)} else m[Label(key) := Slot(key, v)]
  }

  lemma ValueWordSafe(c: Config, s: seq<Slot>, k: Ctrl, v: Word, strs: set<nat>)
    requires SlotsOk(c, s) && CtrlOk(c, s, k) && k.free > 0 && Kinds(c, s, strs)
    requires SlotOf(k.firstFree) < |s|
    ensures var p := SlotOf(k.firstFree);
      var s1 := s[p := s[p].(val := Program(s[p].val, v))];
      KeysOk(c.sig, s1) && Shape(s1) && Kinds(c, s1, strs) && RawMap(c.sig, s1) == RawMap(c.sig, s)
  {
    hide RawMap, IsString, IsValidKey;
    var p := SlotOf(k.firstFree);
    AppendAt(c, s, k);
    assert s[p].key == FREE || s[p].key == DELETED;
    DeletedIsDead(c.sig, s[p]);
    var x := s[p].(val := Program(s[p].val, v));
    DeletedIsDead(c.sig, x);
    RawMapDead(c.sig, s, p, x);
    BoundaryIs(s[p := x], Boundary(s));
  }

  lemma KeyWordSafe(c: Config, s: seq<Slot>, k: Ctrl, key: Word, v: Word, strs: set<nat>)
    requires SlotsOk(c, s) && CtrlOk(c, s, k) && k.free > 0 && Kinds(c, s, strs)
    requires IsValidKey(c.sig, key) && (IsString(key) <==> Label(key) in strs) && SlotOf(k.firstFree) < |s|
    ensures var s2 := Appended(s, SlotOf(k.firstFree), key, v, None);
      && KeysOk(c.sig, s2) && Shape(s2) && Kinds(c, s2, strs)
      && RawMap(c.sig, s2) == if StaleAt(c, s, k) then RawMap(c.sig, s) else RawMap(c.sig, s)[Label(key) := Slot(key, v)]
  {
    hide RawMap, IsString, IsValidKey, LiveCount, KeyCount, Kinds, Label;
    var p := SlotOf(k.firstFree);
    AppendAt(c, s, k);
    if StaleAt(c, s, k) {
      var w := Program(s[p].val, v);
      DeadWrite(c, s, p, w);
      DeletedIsDead(c.sig, Slot(DELETED, w));
      KindsSet(c, s, p, Slot(DELETED, w), strs);
    } else {
      assert s[p] == FREE_SLOT;
      DeadFrom(c, s);
      FillShape(c, s, Slot(key, v));
      RawMapAppend(c.sig, s, p, Slot(key, v));
      KindsSet(c, s, p, Slot(key, v), strs);
    }
  }

  lemma DeadFrom(c: Config, s: seq<Slot>)
    requires Clean(s)
    ensures forall j :: Boundary(s) <= j < |s| ==> !Live(c.sig, s[j])
  {
    DeletedIsDead(c.sig, FREE_SLOT);
  }

  /** What a write in place needs: a free slot, a valid key, and the entry it replaces. */
  predicate AppendsTo(c: Config, s: seq<Slot>, k: Ctrl, key: Word, replaced: Option<nat>, strs: set<nat>) {
    && SlotsOk(c, s) && CtrlOk(c, s, k) && k.free > 0 && Kinds(c, s, strs)
    && IsValidKey(c.sig, key) && (IsString(key) <==> Label(key) in strs) && ReplacesFound(s, key, replaced)
  }

  /** The slots after each of the index steps of a write in place. */
  lemma CutSlotsAre(c: Config, s: seq<Slot>, k: Ctrl, key: Word, v: Word, replaced: Option<nat>, strs: set<nat>, i: nat)
    requires AppendsTo(c, s, k, key, replaced, strs) && i <= (if replaced.Some? then 3 else 2)
    ensures SlotOf(k.firstFree) < |s|
    ensures var t := CutSlots(s, SlotOf(k.firstFree), key, v, replaced, i);
      && KeysOk(c.sig, t) && Shape(t) && Kinds(c, t, strs) && |t| == |s|
      && RawMap(c.sig, t) == if i < ShowsAt(c, s, k) then RawMap(c.sig, s) else WrittenMap(c, s, k, key, v)
  {
    hide RawMap, IsString, SlotsOk, CtrlOk, ReplacesFound, Kinds, KeysOk, Shape, IsValidKey, StaleAt;
    AppendAt(c, s, k);
    if i == 0 {
      StartSlots(c, s);
    } else if i == 1 {
      ValueWordSafe(c, s, k, v, strs);
    } else {
      KeyWordSafe(c, s, k, key, v, strs);
      if i == 3 {
        FullSlots(c, s, k, key, v, replaced, strs);
      }
    }
  }

  lemma StartSlots(c: Config, s: seq<Slot>)
    requires SlotsOk(c, s)
    ensures KeysOk(c.sig, s) && Shape(s)
  {
  }

  lemma FullSlots(c: Config, s: seq<Slot>, k: Ctrl, key: Word, v: Word, replaced: Option<nat>, strs: set<nat>)
    requires AppendsTo(c, s, k, key, replaced, strs) && replaced.Some?
    ensures var t := Appended(s, SlotOf(k.firstFree), key, v, replaced);
      KeysOk(c.sig, t) && Shape(t) && Kinds(c, t, strs) && RawMap(c.sig, t) == WrittenMap(c, s, k, key, v)
  {
    hide RawMap, IsString, IsValidKey, SlotsOk, CtrlOk, Kinds, StaleAt;
    AppendAt(c, s, k);
    var k' := k.(free := k.free - 1, firstFree := k.firstFree + 2, deleted := k.deleted + 1);
    AppendSlots(c, s, k, k', key, v, replaced);
    var t := Appended(s, SlotOf(k.firstFree), key, v, replaced);
    StartSlots(c, t);
    KeyWordSafe(c, s, k, key, v, strs);
    KindsDrop(c, Appended(s, SlotOf(k.firstFree), key, v, None), replaced.value, strs);
  }

  /** The string steps of a write, if any, come first. */
  function TextSteps(st: State, d: Data): seq<Step> {
    var k := st.ctrl;
    if d.value.Str? then
      [WriteStrIndex(k.strSide, k.strNext, Pack(k.strFree, |d.value.t| + 1)),
       WriteStrData(k.strSide, k.strFree, d.value.t + [0])]
    else []
  }

  lemma AppendStepsAre(st: State, d: Data, replaced: Option<nat>)
    ensures AppendPlan(st, d, replaced).steps
         == TextSteps(st, d) + FillSteps(st.ctrl.side, SlotOf(st.ctrl.firstFree), d.key, EntryWord(st, d), replaced)
    ensures AllQuiet(TextSteps(st, d), st.ctrl.side)
  {
  }

  lemma RunFillCut(f: Flash, side: Side, p: nat, key: Word, v: Word, replaced: Option<nat>, i: nat)
    requires p < |f.Main(side).slots| && i <= |FillSteps(side, p, key, v, replaced)|
    requires replaced.Some? ==> replaced.value < |f.Main(side).slots|
    ensures Run(f, FillSteps(side, p, key, v, replaced)[..i])
         == f.WithMain(side, f.Main(side).(slots := CutSlots(f.Main(side).slots, p, key, v, replaced, i)))
  {
    hide Program;
    var steps := FillSteps(side, p, key, v, replaced);
    if i == 0 {
      assert steps[..i] == [];
    } else if i == 1 {
      assert steps[..i] == [WriteVal(side, p, v)];
      RunOne(f, WriteVal(side, p, v));
    } else if i == 2 {
      assert steps[..i] == FillSteps(side, p, key, v, None);
      RunFill(f, side, p, key, v, None);
    } else {
      assert steps[..i] == steps;
      RunFill(f, side, p, key, v, replaced);
    }
  }

  /** A write in place, cut anywhere.  Up to the key word, and from a stale state up to the
      tombstone behind it, a boot finds the old map; from then on the new one. */
  lemma AppendCut(c: Config, st: State, d: Data, replaced: Option<nat>, strs: set<nat>, i: nat)
    requires IndexInv(c, st) && AppendsTo(c, st.Slots(), st.ctrl, d.key, replaced, strs)
    requires i <= |AppendPlan(st, d, replaced).steps|
    ensures var f := Run(st.flash, AppendPlan(st, d, replaced).steps[..i]);
      && FlashOk(c, f) && Kinds(c, WinnerSlots(c, f), strs)
      && BootMap(c, f) == if i < |TextSteps(st, d)| + ShowsAt(c, st.Slots(), st.ctrl) then RawMap(c.sig, st.Slots())
                          else WrittenMap(c, st.Slots(), st.ctrl, d.key, EntryWord(st, d))
  {
    hide RawMap, IndexInv, AppendsTo, Kinds, WrittenMap, FlashOk, BootMap, WinnerSlots, AppendPlan, TextSteps;
    AppendStepsAre(st, d, replaced);
    if i <= |TextSteps(st, d)| {
      TextCut(c, st, d, replaced, strs, i);
    } else {
      IndexCut(c, st, d, replaced, strs, i - |TextSteps(st, d)|);
    }
  }

  /** One signed sector, whose slots are these. */
  lemma CutMeans(c: Config, f: Flash, side: Side, t: seq<Slot>, strs: set<nat>)
    requires SignedOn(c, f, side) && f.Main(side).slots == t && KeysOk(c.sig, t) && Shape(t) && Kinds(c, t, strs)
    ensures FlashOk(c, f) && Kinds(c, WinnerSlots(c, f), strs) && BootMap(c, f) == RawMap(c.sig, t)
  {
    hide KeysOk, Shape, Kinds, RawMap;
    SignedMap(c, f, side);
  }

  lemma TextCut(c: Config, st: State, d: Data, replaced: Option<nat>, strs: set<nat>, i: nat)
    requires IndexInv(c, st) && AppendsTo(c, st.Slots(), st.ctrl, d.key, replaced, strs) && i <= |TextSteps(st, d)|
    ensures i <= |AppendPlan(st, d, replaced).steps|
    ensures var f := Run(st.flash, AppendPlan(st, d, replaced).steps[..i]);
      FlashOk(c, f) && Kinds(c, WinnerSlots(c, f), strs) && BootMap(c, f) == RawMap(c.sig, st.Slots())
  {
    hide RawMap, CtrlOk, Kinds, FlashOk, BootMap, WinnerSlots, AppendPlan, TextSteps, Run;
    var q, steps := TextSteps(st, d), AppendPlan(st, d, replaced).steps;
    AppendStepsAre(st, d, replaced);
    assert steps[..i] == q[..i];
    QuietRun(c, st.flash, st.ctrl.side, q[..i]);
    StartSlots(c, st.Slots());
    CutMeans(c, Run(st.flash, steps[..i]), st.ctrl.side, st.Slots(), strs);
  }

  lemma IndexCut(c: Config, st: State, d: Data, replaced: Option<nat>, strs: set<nat>, j: nat)
    requires IndexInv(c, st) && AppendsTo(c, st.Slots(), st.ctrl, d.key, replaced, strs)
    requires |TextSteps(st, d)| + j <= |AppendPlan(st, d, replaced).steps|
    ensures var f := Run(st.flash, AppendPlan(st, d, replaced).steps[..|TextSteps(st, d)| + j]);
      && FlashOk(c, f) && Kinds(c, WinnerSlots(c, f), strs)
      && BootMap(c, f) == if j < ShowsAt(c, st.Slots(), st.ctrl) then RawMap(c.sig, st.Slots())
                          else WrittenMap(c, st.Slots(), st.ctrl, d.key, EntryWord(st, d))
  {
    hide RawMap, SlotsOk, CtrlOk, Kinds, KeysOk, Shape, WrittenMap, ShowsAt, CutSlots, FlashOk, BootMap, WinnerSlots, AppendPlan, TextSteps, Run, IsValidKey, IsString, Geometry;
    var s, k, v, q := st.Slots(), st.ctrl, EntryWord(st, d), TextSteps(st, d);
    var fill, steps := FillSteps(k.side, SlotOf(k.firstFree), d.key, v, replaced), AppendPlan(st, d, replaced).steps;
    AppendStepsAre(st, d, replaced);
    assert steps[..|q| + j] == q + fill[..j];
    RunConcat(st.flash, q, fill[..j]);
    QuietRun(c, st.flash, k.side, q);
    CutSlotsAre(c, s, k, d.key, v, replaced, strs, j);
    FoundInside(s, d.key, replaced);
    RunFillCut(Run(st.flash, q), k.side, SlotOf(k.firstFree), d.key, v, replaced, j);
    var t := CutSlots(s, SlotOf(k.firstFree), d.key, v, replaced, j);
    ValidOf(c, st);
    StillSigned(c, Run(st.flash, q), k.side, t);
    CutMeans(c, Run(st.flash, steps[..|q| + j]), k.side, t, strs);
  }

  lemma StillSigned(c: Config, f: Flash, side: Side, t: seq<Slot>)
    requires SignedOn(c, f, side) && |t| == c.d.n
    ensures var g := f.WithMain(side, f.Main(side).(slots := t)); SignedOn(c, g, side) && g.Main(side).slots == t
  {
  }

  /** Crash atomicity of a write in place. */
  lemma AppendSafe(c: Config, st: State, d: Data, replaced: Option<nat>, strs: set<nat>)
    requires IndexInv(c, st) && AppendsTo(c, st.Slots(), st.ctrl, d.key, replaced, strs)
    ensures var r := Exec(st, AppendPlan(st, d, replaced));
      && Safe(c, st.flash, AppendPlan(st, d, replaced).steps, strs, Numbers(c, st.Slots(), strs), Numbers(c, r.Slots(), strs))
      && Kinds(c, r.Slots(), strs)
  {
    hide Kinds, AppendPlan, WrittenMap, ShowsAt, RawMap, AppendsTo, FlashOk, BootMap;
    var steps, r := AppendPlan(st, d, replaced).steps, Exec(st, AppendPlan(st, d, replaced));
    var m0, m1 := Numbers(c, st.Slots(), strs), Numbers(c, r.Slots(), strs);
    AppendedMap(c, st, d, replaced, strs);
    forall i | 0 <= i <= |steps|
      ensures SafeAt(c, Run(st.flash, steps[..i]), strs, m0, m1)
    {
      AppendCut(c, st, d, replaced, strs, i);
      NumbersOf(c, Run(st.flash, steps[..i]), strs);
    }
  }

  lemma NumbersOf(c: Config, f: Flash, strs: set<nat>)
    ensures Numbers(c, WinnerSlots(c, f), strs) == BootMap(c, f) - strs
  {
  }

  lemma AppendedMap(c: Config, st: State, d: Data, replaced: Option<nat>, strs: set<nat>)
    requires IndexInv(c, st) && AppendsTo(c, st.Slots(), st.ctrl, d.key, replaced, strs)
    ensures var r := Exec(st, AppendPlan(st, d, replaced));
      && IndexInv(c, r) && Kinds(c, r.Slots(), strs)
      && RawMap(c.sig, r.Slots()) == WrittenMap(c, st.Slots(), st.ctrl, d.key, EntryWord(st, d))
  {
    hide RawMap, Kinds, IsString, IsValidKey;
    AppendIndex(c, st, d, replaced);
    AppendSlotsAre(c, st, d, replaced);
    KeyWordSafe(c, st.Slots(), st.ctrl, d.key, EntryWord(st, d), strs);
    if replaced.Some? {
      FullSlots(c, st.Slots(), st.ctrl, d.key, EntryWord(st, d), replaced, strs);
    }
  }

  // ------------------------------------------------------------------ deletes

  lemma DeleteSafe(c: Config, st: State, key: Word, strs: set<nat>)
    requires IndexInv(c, st) && Kinds(c, st.Slots(), strs)
    ensures var r := Exec(st, DeletePlan(c, st, key));
      && Safe(c, st.flash, DeletePlan(c, st, key).steps, strs, Numbers(c, st.Slots(), strs), Numbers(c, r.Slots(), strs))
      && Kinds(c, r.Slots(), strs)
  {
    hide IndexInv, SafeAt, Numbers, Kinds, RawMap, Safe, Find, IsValidKey, Label, DeletePlan, Run;
    var p, r := DeletePlan(c, st, key), Exec(st, DeletePlan(c, st, key));
    var m0, m1 := Numbers(c, st.Slots(), strs), Numbers(c, r.Slots(), strs);
    DeleteIndex(c, st, key);
    DeleteKinds(c, st, key, strs);
    IntactSafe(c, st, strs, m0, m1);
    IntactSafe(c, r, strs, m0, m1);
    SafeOne(c, st.flash, p.steps, strs, m0, m1);
  }

  lemma SafeOne(c: Config, f: Flash, steps: seq<Step>, strs: set<nat>, m0: map<nat, Slot>, m1: map<nat, Slot>)
    requires |steps| <= 1 && SafeAt(c, f, strs, m0, m1) && SafeAt(c, Run(f, steps), strs, m0, m1)
    ensures Safe(c, f, steps, strs, m0, m1)
  {
    hide SafeAt;
    forall k | 0 <= k <= |steps|
      ensures SafeAt(c, Run(f, steps[..k]), strs, m0, m1)
    {
      assert k == |steps| ==> steps[..k] == steps;
    }
  }

  lemma DeleteKinds(c: Config, st: State, key: Word, strs: set<nat>)
    requires Kinds(c, st.Slots(), strs)
    ensures Kinds(c, Exec(st, DeletePlan(c, st, key)).Slots(), strs) && |DeletePlan(c, st, key).steps| <= 1
  {
    hide Kinds, IsValidKey, Label;
    var i := Find(st.Slots(), Label(key));
    if IsValidKey(c.sig, key) && i < |st.Slots()| {
      KillFlash(st.flash, st.ctrl.side, i);
      KindsDrop(c, st.Slots(), i, strs);
    }
  }
}
