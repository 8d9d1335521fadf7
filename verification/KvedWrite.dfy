/** Writing and deleting entries in place, from every state a store can be in. */
module KvedWrite {
  import opened Options
  import opened KvedWord
  import opened KvedFlash
  import opened KvedIndex
  import opened KvedStore
  import opened KvedInvariant

  // ---------------------------------------------------- effect on the slots

  /** Slots after programming an entry into slot `p` and tombstoning the one it replaces. */
  function Appended(s: seq<Slot>, p: nat, key: Word, v: Word, replaced: Option<nat>): seq<Slot> {
    if p >= |s| then s
    else
      var t := s[p := Slot(Program(s[p].key, key), Program(s[p].val, v))];
      match replaced
      case None => t
      case Some(i) => if i < |t| then t[i := t[i].(key := DELETED)] else t
  }

  function EntryWord(st: State, d: Data): Word {
    if d.value.Str? then ToWord(st.ctrl.strNext) else d.value.w
  }

  function FillSteps(side: Side, p: nat, key: Word, v: Word, replaced: Option<nat>): seq<Step> {
    [WriteVal(side, p, v), WriteKey(side, p, key)]
    + (if replaced.Some? then [WriteKey(side, replaced.value, DELETED)] else [])
  }

  lemma RunEntry(f: Flash, side: Side, p: nat, key: Word, v: Word)
    requires p < |f.Main(side).slots|
    ensures Run(f, FillSteps(side, p, key, v, None))
         == f.WithMain(side, f.Main(side).(slots := Appended(f.Main(side).slots, p, key, v, None)))
  {
    hide Run, Program;
    var two := [WriteVal(side, p, v), WriteKey(side, p, key)];
    assert two + [] == two;
    RunTwo(f, two[0], two[1]);
    var g := Apply(Apply(f, two[0]), two[1]);
    assert g.Main(side).slots == Appended(f.Main(side).slots, p, key, v, None);
  }

  lemma KillFlash(f: Flash, side: Side, i: nat)
    requires i < |f.Main(side).slots|
    ensures var s := f.Main(side).slots;
      Run(f, [WriteKey(side, i, DELETED)]) == f.WithMain(side, f.Main(side).(slots := s[i := s[i].(key := DELETED)]))
  {
    RunOne(f, WriteKey(side, i, DELETED));
  }

  lemma RunFill(f: Flash, side: Side, p: nat, key: Word, v: Word, replaced: Option<nat>)
    requires p < |f.Main(side).slots|
    requires replaced.Some? ==> replaced.value < |f.Main(side).slots|
    ensures Run(f, FillSteps(side, p, key, v, replaced))
         == f.WithMain(side, f.Main(side).(slots := Appended(f.Main(side).slots, p, key, v, replaced)))
  {
    hide Run, Program;
    RunEntry(f, side, p, key, v);
    if replaced.Some? {
      assert FillSteps(side, p, key, v, None) + [WriteKey(side, replaced.value, DELETED)] == FillSteps(side, p, key, v, replaced);
      RunConcat(f, FillSteps(side, p, key, v, None), [WriteKey(side, replaced.value, DELETED)]);
      KillFlash(Run(f, FillSteps(side, p, key, v, None)), side, replaced.value);
    }
  }

  /** String table of the active side after the string steps of a write. */
  function AppendedStr(st: State, d: Data): StrSector {
    var t, k := st.Strings(), st.ctrl;
    if d.value.Num? then t
    else
      ApplyStr(ApplyStr(t, WriteStrIndex(k.strSide, k.strNext, Pack(k.strFree, |d.value.t| + 1))),
               WriteStrData(k.strSide, k.strFree, d.value.t + [0]))
  }

  lemma AppendExec(st: State, d: Data, replaced: Option<nat>)
    requires SlotOf(st.ctrl.firstFree) < |st.Slots()|
    requires replaced.Some? ==> replaced.value < |st.Slots()|
    ensures Run(st.flash, AppendPlan(st, d, replaced).steps)
         == st.flash.WithStr(st.ctrl.strSide, AppendedStr(st, d))
              .WithMain(st.ctrl.side, st.Active().(slots :=
                 Appended(st.Slots(), SlotOf(st.ctrl.firstFree), d.key, EntryWord(st, d), replaced)))
  {
    var k, p, v := st.ctrl, SlotOf(st.ctrl.firstFree), EntryWord(st, d);
    var strSteps := if d.value.Str? then
      [WriteStrIndex(k.strSide, k.strNext, Pack(k.strFree, |d.value.t| + 1)),
       WriteStrData(k.strSide, k.strFree, d.value.t + [0])] else [];
    var main := FillSteps(k.side, p, d.key, v, replaced);
    assert AppendPlan(st, d, replaced).steps == strSteps + main;
    var g := Run(st.flash, strSteps);
    assert g == st.flash.WithStr(k.strSide, AppendedStr(st, d)) by {
      if d.value.Str? {
        RunTwo(st.flash, strSteps[0], strSteps[1]);
      }
    }
    RunConcat(st.flash, strSteps, main);
    RunFill(g, k.side, p, d.key, v, replaced);
  }

  // ------------------------------------------------ meaning of the new slots

  lemma CountUpdates(c: Config, s: seq<Slot>, i: nat, x: Slot)
    requires i < |s|
    ensures LiveCount(c.sig, s[i := x]) + (if Live(c.sig, s[i]) then 1 else 0)
         == LiveCount(c.sig, s) + (if Live(c.sig, x) then 1 else 0)
    ensures KeyCount(s[i := x], DELETED) + (if s[i].key == DELETED then 1 else 0)
         == KeyCount(s, DELETED) + (if x.key == DELETED then 1 else 0)
  {
    LiveCountUpdate(c.sig, s, i, x);
    KeyCountUpdate(s, i, x, DELETED);
  }

  /** Filling the first free slot moves the boundary by one. */
  lemma FillShape(c: Config, s: seq<Slot>, x: Slot)
    requires KeysOk(c.sig, s) && Clean(s) && Boundary(s) < |s| && Live(c.sig, x)
    ensures var t := s[Boundary(s) := x];
      KeysOk(c.sig, t) && Clean(t) && Boundary(t) == Boundary(s) + 1
  {
    var b := Boundary(s);
    assert x.key != FREE;
    BoundaryIs(s[b := x], b + 1);
  }

  /** Tombstoning a slot that is not free leaves the boundary alone. */
  lemma TombstoneShape(c: Config, s: seq<Slot>, i: nat, y: Slot)
    requires KeysOk(c.sig, s) && Clean(s) && i < Boundary(s) && y.key == DELETED
    ensures var t := s[i := y];
      KeysOk(c.sig, t) && Clean(t) && Boundary(t) == Boundary(s)
  {
    BoundaryIs(s[i := y], Boundary(s));
  }

  lemma DistinctFill(c: Config, s: seq<Slot>, b: nat, x: Slot)
    requires Distinct(c.sig, s) && b < |s| && Live(c.sig, x) && Label(x.key) !in RawMap(c.sig, s)
    ensures Distinct(c.sig, s[b := x])
  {
    RawMapIn(c.sig, s, Label(x.key));
  }

  lemma DistinctReplace(c: Config, s: seq<Slot>, b: nat, x: Slot, i: nat, y: Slot)
    requires Distinct(c.sig, s) && b < |s| && i < |s| && i != b && Live(c.sig, s[i]) && Live(c.sig, x)
    requires Label(x.key) == Label(s[i].key) && y.key == DELETED
    ensures Distinct(c.sig, s[b := x][i := y])
  {
  }

  lemma DistinctDrop(c: Config, s: seq<Slot>, i: nat, y: Slot)
    requires Distinct(c.sig, s) && i < |s| && y.key == DELETED
    ensures Distinct(c.sig, s[i := y])
  {
  }

  predicate ReplacesFound(s: seq<Slot>, key: Word, replaced: Option<nat>) {
    replaced == (if Find(s, Label(key)) < |s| then Some(Find(s, Label(key))) else None)
  }

  /** A write into the first free slot: the label now stands for the new entry, whether
      it is new or replaces another slot. */
  lemma FillFresh(c: Config, s: seq<Slot>, key: Word, v: Word, replaced: Option<nat>)
    requires SlotsOk(c, s) && IsValidKey(c.sig, key) && Boundary(s) < |s|
    requires ReplacesFound(s, key, replaced)
    ensures var r := Appended(s, Boundary(s), key, v, replaced);
      && |r| == |s| && SlotsOk(c, r) && Boundary(r) == Boundary(s) + 1
      && RawMap(c.sig, r) == RawMap(c.sig, s)[Label(key) := Slot(key, v)]
      && LiveCount(c.sig, r) == LiveCount(c.sig, s) + (if replaced.Some? then 0 else 1)
      && KeyCount(r, DELETED) == KeyCount(s, DELETED) + (if replaced.Some? then 1 else 0)
  {
    var b, x := Boundary(s), Slot(key, v);
    var t := s[b := x];
    assert s[b] == FREE_SLOT;
    FindDecides(c.sig, s, key);
    RawMapAppend(c.sig, s, b, x);
    CountUpdates(c, s, b, x);
    FillShape(c, s, x);
    if replaced.Some? {
      var i := replaced.value;
      var y := t[i].(key := DELETED);
      assert i < b && t[i] == s[i];
      RawMapSuperseded(c.sig, t, i, b, y);
      CountUpdates(c, t, i, y);
      TombstoneShape(c, t, i, y);
      DistinctReplace(c, s, b, x, i, y);
      assert Appended(s, b, key, v, replaced) == t[i := y];
    } else {
      DistinctFill(c, s, b, x);
      assert Appended(s, b, key, v, replaced) == t;
    }
  }

  /** A write aimed at a tombstone is lost, and if it was to replace an entry, that
      entry is lost too. */
  lemma FillTombstone(c: Config, s: seq<Slot>, key: Word, v: Word, replaced: Option<nat>)
    requires SlotsOk(c, s) && IsValidKey(c.sig, key)
    requires Boundary(s) > 0 && s[Boundary(s) - 1].key == DELETED
    requires ReplacesFound(s, key, replaced)
    ensures var r := Appended(s, Boundary(s) - 1, key, v, replaced);
      && |r| == |s| && SlotsOk(c, r) && Boundary(r) == Boundary(s)
      && RawMap(c.sig, r) == RawMap(c.sig, s) - {Label(key)}
      && LiveCount(c.sig, r) == LiveCount(c.sig, s) - (if replaced.Some? then 1 else 0)
      && KeyCount(r, DELETED) == KeyCount(s, DELETED) + (if replaced.Some? then 1 else 0)
  {
    hide LiveCount, KeyCount, Program;
    var p := Boundary(s) - 1;
    var t := s[p := Slot(DELETED, Program(s[p].val, v))];
    DeadWrite(c, s, p, Program(s[p].val, v));
    FindDecides(c.sig, s, key);
    match replaced
    case Some(i) =>
      KillSlot(c, t, i);
      assert Appended(s, p, key, v, replaced) == t[i := t[i].(key := DELETED)];
    case None =>
      assert Appended(s, p, key, v, replaced) == t;
      assert RawMap(c.sig, s) - {Label(key)} == RawMap(c.sig, s);
  }

  /** Rewriting the value word of a tombstone is invisible. */
  lemma DeadWrite(c: Config, s: seq<Slot>, p: nat, w: Word)
    requires SlotsOk(c, s) && p < Boundary(s) && s[p].key == DELETED
    ensures var t := s[p := Slot(DELETED, w)];
      && SlotsOk(c, t) && Boundary(t) == Boundary(s)
      && RawMap(c.sig, t) == RawMap(c.sig, s)
      && LiveCount(c.sig, t) == LiveCount(c.sig, s) && KeyCount(t, DELETED) == KeyCount(s, DELETED)
  {
    var x := Slot(DELETED, w);
    RawMapDead(c.sig, s, p, x);
    CountUpdates(c, s, p, x);
    TombstoneShape(c, s, p, x);
    DistinctDrop(c, s, p, x);
  }

  /** Tombstoning a live slot removes exactly its label. */
  lemma KillSlot(c: Config, s: seq<Slot>, i: nat)
    requires SlotsOk(c, s) && i < |s| && Live(c.sig, s[i])
    ensures var r := s[i := s[i].(key := DELETED)];
      && SlotsOk(c, r) && Boundary(r) == Boundary(s)
      && RawMap(c.sig, r) == RawMap(c.sig, s) - {Label(s[i].key)}
      && LiveCount(c.sig, r) == LiveCount(c.sig, s) - 1
      && KeyCount(r, DELETED) == KeyCount(s, DELETED) + 1
  {
    var y := s[i].(key := DELETED);
    assert i < Boundary(s);
    RawMapRemove(c.sig, s, i, y);
    CountUpdates(c, s, i, y);
    TombstoneShape(c, s, i, y);
    DistinctDrop(c, s, i, y);
  }
}
