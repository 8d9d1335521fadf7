/** Compaction: the sector switch preserves meaning and always leaves a healthy store. */
module KvedSwitch {
  import opened KvedWord
  import opened KvedFlash
  import opened KvedIndex
  import opened KvedStrings
  import opened KvedStore
  import opened KvedInvariant

  /** Flash once the twin sectors are filled but not yet signed. */
  function Prepared(c: Config, st: State, u: Update): Flash {
    var s, to, strTo := st.Slots(), st.ctrl.side.Other(), st.ctrl.strSide.Other();
    var p := Packed(c, s, u, st.Strings());
    st.flash.WithMain(to, Sector(FREE, NextCnt(st.Active().cnt), p + FreeSlots(|s| - |p|)))
            .WithStr(strTo, Table(FREE, FREE, PackedTexts(c, s, u, st.Strings()), c.d))
  }

  /** Flash after the switch: the twin is signed and the old sector invalidated. */
  function Switched(c: Config, st: State, u: Update): Flash {
    var s, k := st.Slots(), st.ctrl;
    var p := Packed(c, s, u, st.Strings());
    st.flash.WithMain(k.side.Other(), Sector(c.sig, NextCnt(st.Active().cnt), p + FreeSlots(|s| - |p|)))
            .WithStr(k.strSide.Other(), Table(c.strSig, c.strEnd, PackedTexts(c, s, u, st.Strings()), c.d))
            .WithMain(k.side, st.Active().(sig := 0))
  }

  /** Texts the switch has to copy are C strings and fit the twin's data area. */
  predicate CopyOk(c: Config, st: State, u: Update) {
    Loggable(PackedTexts(c, st.Slots(), u, st.Strings()), c.d)
  }

  lemma RunPrepare(c: Config, st: State, u: Update)
    requires c.Valid() && Geometry(st.flash, c.d.n, c.d.bytes) && CopyOk(c, st, u)
    ensures Run(st.flash, PrepareSteps(c, st, u)) == Prepared(c, st, u)
  {
    var s, to, strTo := st.Slots(), st.ctrl.side.Other(), st.ctrl.strSide.Other();
    var erase := [EraseMain(to), EraseStr(strTo)];
    var copy := CopySteps(c, s, u, st.Strings(), to, strTo);
    var cnt := [WriteCnt(to, NextCnt(st.Active().cnt))];
    var g := Run(st.flash, erase);
    RunTwo(st.flash, EraseMain(to), EraseStr(strTo));
    assert g == st.flash.WithMain(to, ErasedMain(c.d.n)).WithStr(strTo, ErasedStr(c.d.n, c.d.bytes));
    RunConcat(st.flash, erase, copy);
    RunConcat(st.flash, erase + copy, cnt);
    RunCopy(c, g, s, u, st.Strings(), to, strTo);
    RunOne(Copied(c, g, s, u, st.Strings(), to, strTo), cnt[0]);
  }

  lemma RunCommit(c: Config, st: State, u: Update)
    requires c.Valid()
    ensures Run(Prepared(c, st, u), CommitSteps(c, st)) == Switched(c, st, u)
  {
    var f, to, strTo := Prepared(c, st, u), st.ctrl.side.Other(), st.ctrl.strSide.Other();
    RunFour(f, WriteSig(to, c.sig), WriteStrSig(strTo, c.strSig), WriteStrEnd(strTo, c.strEnd), WriteSig(st.ctrl.side, 0));
  }

  // ------------------------------------------------------------- packed slots

  /** Every packed slot keeps the key word of a live slot it came from. */
  lemma {:induction false} PackedMember(c: Config, s: seq<Slot>, u: Update, sec: StrSector, j: nat) returns (i: nat)
    requires j < |Packed(c, s, u, sec)|
    ensures i < |s| && Live(c.sig, s[i]) && Packed(c, s, u, sec)[j].key == s[i].key
  {
    var t := s[..|s| - 1];
    if j < |Packed(c, t, u, sec)| {
      i := PackedMember(c, t, u, sec, j);
    } else {
      i := |s| - 1;
    }
  }

  lemma {:induction false} PackedDistinct(c: Config, s: seq<Slot>, u: Update, sec: StrSector)
    requires Distinct(c.sig, s)
    ensures Distinct(c.sig, Packed(c, s, u, sec))
    ensures forall j :: 0 <= j < |Packed(c, s, u, sec)| ==> Live(c.sig, Packed(c, s, u, sec)[j])
  {
    if s != [] {
      var t := s[..|s| - 1];
      PackedDistinct(c, t, u, sec);
      var p := Packed(c, t, u, sec);
      if Live(c.sig, s[|s| - 1]) {
        forall j | 0 <= j < |p|
          ensures Label(p[j].key) != Label(s[|s| - 1].key)
        {
          var i := PackedMember(c, t, u, sec, j);
          assert t[i] == s[i];
        }
      }
    }
  }

  /** The packed sector stands for the same map, with only the updated label changed:
      numbers are carried over, string references renumbered to the same text. */
  lemma {:induction false} PackedMap(c: Config, s: seq<Slot>, u: Update, sec: StrSector, l: nat)
    requires |s| < 0x1_0000
    ensures l in RawMap(c.sig, Packed(c, s, u, sec)) <==> l in RawMap(c.sig, s)
    ensures l in RawMap(c.sig, s) ==>
      var x, y, texts := RawMap(c.sig, s)[l], RawMap(c.sig, Packed(c, s, u, sec))[l], PackedTexts(c, s, u, sec);
      && y.key == x.key && Label(x.key) == l
      && (IsString(x.key) ==> y.val < |texts| && texts[y.val] == PackText(c, x, u, sec))
      && (!IsString(x.key) ==> y.val == PackVal(x, u, 0))
  {
    if s != [] {
      var t, x := s[..|s| - 1], s[|s| - 1];
      PackedMap(c, t, u, sec, l);
      if Live(c.sig, x) {
        var p, q := Packed(c, s, u, sec), Packed(c, t, u, sec);
        assert p[..|p| - 1] == q;
        assert RawMap(c.sig, p) == RawMap(c.sig, q)[Label(x.key) := p[|p| - 1]];
        assert PackedTexts(c, t, u, sec) <= PackedTexts(c, s, u, sec);
      }
    }
  }

  /** Behind packed live slots there is nothing but erased ones. */
  lemma PackedSlots(c: Config, p: seq<Slot>, n: nat)
    requires |p| <= n && Distinct(c.sig, p)
    requires forall j :: 0 <= j < |p| ==> Live(c.sig, p[j])
    ensures var s := p + FreeSlots(n - |p|);
      && SlotsOk(c, s) && Boundary(s) == |p|
      && RawMap(c.sig, s) == RawMap(c.sig, p)
      && LiveCount(c.sig, s) == |p| && KeyCount(s, DELETED) == 0
  {
    var s := p + FreeSlots(n - |p|);
    BoundaryIs(s, |p|);
    RawMapSuffixDead(c.sig, p, FreeSlots(n - |p|));
    forall i, j | 0 <= i < j < |s| && Live(c.sig, s[i]) && Live(c.sig, s[j])
      ensures Label(s[i].key) != Label(s[j].key)
    {
      assert j < |p| && s[i] == p[i] && s[j] == p[j];
    }
    NoTombstones(s);
    FreeCountIs(s);
    CountsAddUp(c.sig, s);
  }

  lemma {:induction false} NoTombstones(s: seq<Slot>)
    requires forall i :: 0 <= i < |s| ==> s[i].key != DELETED
    ensures KeyCount(s, DELETED) == 0
  {
    if s != [] {
      NoTombstones(s[..|s| - 1]);
    }
  }

  // ------------------------------------------------------------- whole switch

  lemma {:induction false} CleanCounts(c: Config, s: seq<Slot>, m: nat)
    requires m <= |s| && Distinct(c.sig, s)
    requires forall i :: 0 <= i < |s| ==> !HalfWritten(s[i])
    ensures HalfCount(s, m) == 0 && DupCount(c, s, m) == 0 && forall side :: SweepSteps(c, side, s, m) == []
  {
    SweptClean(c.sig, s);
    if m > 0 {
      CleanCounts(c, s, m - 1);
    }
  }

  lemma SwitchedSlots(c: Config, st: State, u: Update)
    ensures var p := Packed(c, st.Slots(), u, st.Strings());
      State(Switched(c, st, u), SwitchedCtrl(c, st, u)).Slots() == p + FreeSlots(|st.Slots()| - |p|)
  {
  }

  lemma SwitchState(c: Config, st: State, u: Update)
    requires Distinct(c.sig, st.Slots())
    ensures var s := State(Switched(c, st, u), SwitchedCtrl(c, st, u)).Slots();
      && |s| == |st.Slots()| && SlotsOk(c, s) && Boundary(s) == LiveCount(c.sig, st.Slots())
      && LiveCount(c.sig, s) == LiveCount(c.sig, st.Slots()) && KeyCount(s, DELETED) == 0
      && RawMap(c.sig, s) == RawMap(c.sig, Packed(c, st.Slots(), u, st.Strings()))
  {
    SwitchedSlots(c, st, u);
    PackedDistinct(c, st.Slots(), u, st.Strings());
    PackedSlots(c, Packed(c, st.Slots(), u, st.Strings()), |st.Slots()|);
  }

  /** A clean sector with an intact string table gives the consistency check nothing to do. */
  lemma CheckClean(c: Config, st: State)
    requires Distinct(c.sig, st.Slots()) && Clean(st.Slots())
    requires StrSigned(c, st.Strings())
    requires FirstFree(st.Strings().index) == st.ctrl.strNext
    ensures CheckPlan(c, st) == Plan([], st.ctrl, Ok)
  {
    var s := st.Slots();
    assert forall i :: 0 <= i < |s| ==> !HalfWritten(s[i]);
    CleanCounts(c, s, |s|);
  }

  lemma SwitchedStrings(c: Config, st: State, u: Update)
    ensures State(Switched(c, st, u), SwitchedCtrl(c, st, u)).Strings()
         == Table(c.strSig, c.strEnd, PackedTexts(c, st.Slots(), u, st.Strings()), c.d)
    ensures SwitchedCtrl(c, st, u).strNext == |PackedTexts(c, st.Slots(), u, st.Strings())|
    ensures SwitchedCtrl(c, st, u).strFree == TotalWords(PackedTexts(c, st.Slots(), u, st.Strings()))
  {
  }

  /** The closing consistency check finds nothing to do. */
  lemma SwitchChecks(c: Config, st: State, u: Update)
    requires Distinct(c.sig, st.Slots()) && CopyOk(c, st, u)
    ensures CheckPlan(c, State(Switched(c, st, u), SwitchedCtrl(c, st, u)))
         == Plan([], SwitchedCtrl(c, st, u), Ok)
  {
    SwitchState(c, st, u);
    SwitchedStrings(c, st, u);
    FirstFreeOfTable(c.strSig, c.strEnd, PackedTexts(c, st.Slots(), u, st.Strings()), c.d);
    CheckClean(c, State(Switched(c, st, u), SwitchedCtrl(c, st, u)));
  }

  /** `kved_sector_switch` in full. */
  lemma SwitchExec(c: Config, st: State, u: Update)
    requires IndexInv(c, st) && CopyOk(c, st, u)
    ensures SwitchPlan(c, st, u) == Plan(PrepareSteps(c, st, u) + CommitSteps(c, st), SwitchedCtrl(c, st, u), Ok)
    ensures Exec(st, SwitchPlan(c, st, u)) == State(Switched(c, st, u), SwitchedCtrl(c, st, u))
  {
    RunPrepare(c, st, u);
    RunCommit(c, st, u);
    RunConcat(st.flash, PrepareSteps(c, st, u), CommitSteps(c, st));
    SwitchChecks(c, st, u);
    var steps := PrepareSteps(c, st, u) + CommitSteps(c, st);
    assert steps + [] == steps;
  }

  lemma SwitchedHealthy(c: Config, st: State, u: Update)
    requires IndexInv(c, st) && CopyOk(c, st, u)
    ensures var r := State(Switched(c, st, u), SwitchedCtrl(c, st, u));
      && IndexInv(c, r) && Healthy(c, r)
      && r.ctrl.free == c.d.n - LiveCount(c.sig, st.Slots()) && r.ctrl.used == LiveCount(c.sig, st.Slots())
  {
    SwitchState(c, st, u);
  }

  /** Whatever state it starts from, the switch leaves a healthy store. */
  lemma SwitchHeals(c: Config, st: State, u: Update)
    requires IndexInv(c, st) && CopyOk(c, st, u)
    ensures var r := Exec(st, SwitchPlan(c, st, u));
      && IndexInv(c, r) && Healthy(c, r)
      && r.ctrl.free == c.d.n - LiveCount(c.sig, st.Slots()) && r.ctrl.used == LiveCount(c.sig, st.Slots())
      && RawMap(c.sig, r.Slots()) == RawMap(c.sig, Packed(c, st.Slots(), u, st.Strings()))
  {
    SwitchExec(c, st, u);
    SwitchedHealthy(c, st, u);
    SwitchState(c, st, u);
  }
}
