/** Recovery: which sector wins, what the sweep keeps, and the state a boot leaves. */
module KvedBoot {
  import opened Options
  import opened KvedWord
  import opened KvedFlash
  import opened KvedIndex
  import opened KvedStrings
  import opened KvedStore
  import opened KvedInvariant
  import opened KvedWrite

  // --------------------------------------------------- what a flash stands for

  /** The newer of two counters, the all-ones word never counting as a counter. */
  predicate Newer(x: Word, y: Word) {
    if y == WORD_MAX - 1 && x == 0 then true
    else if x == WORD_MAX - 1 && y == 0 then false
    else x > y
  }

  /** The index sector a boot settles on. */
  function Winner(c: Config, f: Flash): Option<Side> {
    if f.a.sig == c.sig && f.b.sig == c.sig then
      if f.a.cnt == FREE && f.b.cnt == FREE then None
      else if f.a.cnt == FREE then Some(B)
      else if f.b.cnt == FREE then Some(A)
      else if Newer(f.a.cnt, f.b.cnt) then Some(A) else Some(B)
    else if f.a.sig == c.sig then Some(A)
    else if f.b.sig == c.sig then Some(B)
    else None
  }

  function WinnerSlots(c: Config, f: Flash): seq<Slot> {
    match Winner(c, f)
    case Some(w) => f.Main(w).slots
    case None => FreeSlots(|f.a.slots|)
  }

  /** The map a boot recovers from this flash. */
  function BootMap(c: Config, f: Flash): map<nat, Slot> {
    RawMap(c.sig, WinnerSlots(c, f))
  }

  /** What every flash left behind by the store looks like, power cuts included. */
  predicate FlashOk(c: Config, f: Flash) {
    && c.Valid() && Geometry(f, c.d.n, c.d.bytes)
    && (f.a.sig == c.sig ==> f.a.cnt != FREE) && (f.b.sig == c.sig ==> f.b.cnt != FREE)
    && KeysOk(c.sig, WinnerSlots(c, f)) && Shape(WinnerSlots(c, f))
  }

  /** The successor counter is newer, also when it wraps past the erased word, and two
      different counters are never both newer. */
  lemma NextIsNewer(cnt: Word)
    requires cnt != FREE
    ensures Newer(NextCnt(cnt), cnt) && !Newer(cnt, NextCnt(cnt)) && NextCnt(cnt) != FREE
  {
  }

  // -------------------------------------------------------------- opening

  lemma RunSectorCheck(c: Config, f: Flash)
    requires FlashOk(c, f)
    ensures var g := Run(f, SectorCheckSteps(c, f));
      && g.strA == f.strA && g.strB == f.strB && Geometry(g, c.d.n, c.d.bytes)
      && Winner(c, g) == Winner(c, f)
      && (Winner(c, f) == None ==> g == f && f.a.sig != c.sig && f.b.sig != c.sig)
      && (Winner(c, f).Some? ==>
            var w := Winner(c, f).value;
            && g.Main(w) == f.Main(w) && SignedOn(c, g, w)
            && (g == f || g == f.WithMain(w.Other(), f.Main(w.Other()).(sig := 0))))
  {
    var steps := SectorCheckSteps(c, f);
    if steps != [] {
      assert |steps| == 1;
      assert steps == [steps[0]];
      RunOne(f, steps[0]);
    }
  }

  lemma RunMainFormat(c: Config, f: Flash)
    requires c.Valid() && Geometry(f, c.d.n, c.d.bytes) && f.a.sig != c.sig && f.b.sig != c.sig
    ensures Run(f, MainFormatSteps(c, f)) == f.(a := Sector(c.sig, 0, FreeSlots(c.d.n)))
  {
    var x, y, z := EraseMain(A), WriteCnt(A, 0), WriteSig(A, c.sig);
    assert MainFormatSteps(c, f) == [x, y, z];
    assert [x, y, z][..2] == [x, y];
    RunTwo(f, x, y);
  }

  lemma RunStrFormat(c: Config, f: Flash)
    requires c.Valid() && Geometry(f, c.d.n, c.d.bytes)
    ensures var g := Run(f, StrFormatSteps(c, f));
      && g.a == f.a && g.b == f.b && Geometry(g, c.d.n, c.d.bytes)
      && StrSigned(c, g.Str(BootStrSide(c, g)))
      && (!StrSigned(c, f.strA) && !StrSigned(c, f.strB) ==>
            BootStrSide(c, g) == A && g.strA == Table(c.strSig, c.strEnd, [], c.d))
  {
    RunGeometry(f, StrFormatSteps(c, f), c.d.n, c.d.bytes);
    if !StrSigned(c, f.strA) && !StrSigned(c, f.strB) {
      var x, y, z := EraseStr(A), WriteStrSig(A, c.strSig), WriteStrEnd(A, c.strEnd);
      assert [x, y, z][..2] == [x, y];
      RunTwo(f, x, y);
      EmptyTable(c.d);
    }
  }

  /** Before the sweep: one signed sector, whose slots are the winner's. */
  lemma OpenedState(c: Config, f: Flash)
    requires FlashOk(c, f)
    ensures var o := Opened(c, f);
      && SignedOn(c, o.flash, o.ctrl.side) && StrSigned(c, o.Strings())
      && o.Slots() == WinnerSlots(c, f)
      && (Winner(c, f).Some? ==> o.ctrl.side == Winner(c, f).value)
      && o.ctrl == StatsRead(o.Slots(), o.ctrl.side, BootStrSide(c, o.flash))
      && (!StrSigned(c, f.strA) && !StrSigned(c, f.strB) ==> o.Strings() == Table(c.strSig, c.strEnd, [], c.d))
  {
    var s1 := SectorCheckSteps(c, f);
    var g := Run(f, s1);
    var s2 := MainFormatSteps(c, g);
    RunSectorCheck(c, f);
    RunConcat(f, s1, s2);
    var h := Run(g, s2);
    if Winner(c, f) == None {
      RunMainFormat(c, g);
    }
    assert Run(f, s1 + s2) == h;
    RunConcat(f, s1 + s2, StrFormatSteps(c, h));
    RunStrFormat(c, h);
  }

  // ------------------------------------------------------------------- sweep

  /** The sweep's tombstones turn the slots into the swept ones, one slot at a time. */
  lemma {:induction false} RunSweep(c: Config, f: Flash, side: Side, m: nat)
    requires m <= |f.Main(side).slots|
    ensures Run(f, SweepSteps(c, side, f.Main(side).slots, m))
         == f.WithMain(side, f.Main(side).(slots := Swept(c.sig, f.Main(side).slots, m)))
  {
    var s := f.Main(side).slots;
    if m == 0 {
      assert Swept(c.sig, s, 0) == s;
    } else {
      var i, front := m - 1, SweepSteps(c, side, s, m - 1);
      RunSweep(c, f, side, i);
      SweptStep(c.sig, s, i);
      var g, t := Run(f, front), Swept(c.sig, s, i);
      assert t[i] == s[i];
      if Condemned(c.sig, s, i) {
        RunConcat(f, front, [WriteKey(side, i, DELETED)]);
        RunOne(g, WriteKey(side, i, DELETED));
      } else {
        assert front + [] == front;
        assert t[i := s[i]] == t;
      }
    }
  }

  lemma {:induction false} SweptCounts(c: Config, s: seq<Slot>, m: nat)
    requires m <= |s| && KeysOk(c.sig, s)
    ensures var r := Swept(c.sig, s, m);
      && KeyCount(r, DELETED) == KeyCount(s, DELETED) + HalfCount(s, m) + DupCount(c, s, m)
      && KeyCount(r, FREE) == KeyCount(s, FREE) - HalfCount(s, m)
      && LiveCount(c.sig, r) == LiveCount(c.sig, s) - DupCount(c, s, m)
      && KeysOk(c.sig, r)
  {
    if m == 0 {
      assert Swept(c.sig, s, 0) == s;
    } else {
      var i := m - 1;
      var t, x := Swept(c.sig, s, i), SweptSlot(c.sig, s, i);
      SweptCounts(c, s, i);
      SweptStep(c.sig, s, i);
      assert t[i] == s[i];
      CountUpdates(c, t, i, x);
      KeyCountUpdate(t, i, x, FREE);
    }
  }

  lemma SweptPoint(c: Config, s: seq<Slot>, m: nat, i: nat)
    requires m <= |s| && Shape(s) && i < |s|
    ensures var x, b := Swept(c.sig, s, m)[i], Boundary(s);
      && (i < b ==> x.key != FREE)
      && (i > b ==> x == FREE_SLOT)
      && (i == b ==> x.key == if HasHalfWritten(s) && b < m then DELETED else FREE)
      && (i == b ==> x.val == s[i].val)
  {
    if i >= Boundary(s) {
      assert s[i].key == FREE;
      DeletedIsDead(c.sig, s[i]);
    }
  }

  /** The sweep keeps the shape; a half-written slot joins the tombstones. */
  lemma SweptShape(c: Config, s: seq<Slot>, m: nat)
    requires m <= |s| && Shape(s)
    ensures var r, b := Swept(c.sig, s, m), Boundary(s);
      && Shape(r)
      && Boundary(r) == b + (if HasHalfWritten(s) && b < m then 1 else 0)
      && (HasHalfWritten(s) && b < m ==> r[b].key == DELETED)
      && (b < |s| ==> r[b].val == s[b].val)
  {
    hide SweptSlot, Condemned, Shape;
    var r, b := Swept(c.sig, s, m), Boundary(s);
    forall i | 0 <= i < |s|
      ensures (i < b ==> r[i].key != FREE) && (i > b ==> r[i] == FREE_SLOT)
      ensures i == b ==> r[i].key == (if HasHalfWritten(s) && b < m then DELETED else FREE)
      ensures i == b ==> r[i].val == s[i].val
    {
      SweptPoint(c, s, m, i);
    }
    BoundaryIs(r, b + (if HasHalfWritten(s) && b < m then 1 else 0));
    ShapeIs(r);
  }

  lemma ShapeIs(s: seq<Slot>)
    requires forall i :: Boundary(s) < i < |s| ==> s[i] == FREE_SLOT
    ensures Shape(s)
  {
  }

  // --------------------------------------------------------------------- boot

  lemma BootExec(c: Config, f: Flash)
    requires FlashOk(c, f)
    ensures var p, o := BootPlan(c, f), Opened(c, f);
      && p.res == Ok
      && Exec(State(f, p.ctrl), p).flash
         == o.flash.WithMain(o.ctrl.side, o.Active().(slots := Swept(c.sig, o.Slots(), |o.Slots()|)))
      && p.ctrl.side == o.ctrl.side && p.ctrl.strSide == o.ctrl.strSide
  {
    var o := Opened(c, f);
    OpenedState(c, f);
    RunConcat(f, OpenSteps(c, f), SweepSteps(c, o.ctrl.side, o.Slots(), |o.Slots()|));
    RunSweep(c, o.flash, o.ctrl.side, |o.Slots()|);
  }

  /** The state after a boot. */
  function Booted(c: Config, f: Flash): State {
    State(Run(f, BootPlan(c, f).steps), BootPlan(c, f).ctrl)
  }

  lemma BootSlots(c: Config, f: Flash)
    requires FlashOk(c, f)
    ensures Booted(c, f).Slots() == Swept(c.sig, WinnerSlots(c, f), c.d.n)
    ensures SignedOn(c, Booted(c, f).flash, Booted(c, f).ctrl.side)
  {
    BootExec(c, f);
    OpenedState(c, f);
  }

  /** The control block after the sweep, field by field. */
  predicate SweptCtrl(c: Config, s: seq<Slot>, k: Ctrl) {
    && k.total == |s|
    && k.deleted == KeyCount(s, DELETED) + HalfCount(s, |s|) + DupCount(c, s, |s|)
    && k.free == KeyCount(s, FREE) - HalfCount(s, |s|)
    && k.used == |s| - KeyCount(s, DELETED) - KeyCount(s, FREE) - DupCount(c, s, |s|)
    && k.firstFree == if Boundary(s) < |s| then IndexOf(Boundary(s)) else 0
  }

  lemma BootCtrl(c: Config, f: Flash)
    requires FlashOk(c, f)
    ensures SweptCtrl(c, WinnerSlots(c, f), Booted(c, f).ctrl)
  {
    OpenedState(c, f);
  }

  /** The counters a boot reads and corrects are those of the swept slots; the free index
      is right exactly when no half-written slot was found in front of a free one. */
  lemma SweptCtrlOk(c: Config, s: seq<Slot>, k: Ctrl)
    requires KeysOk(c.sig, s) && Shape(s) && SweptCtrl(c, s, k)
    ensures var r, stale := Swept(c.sig, s, |s|), HasHalfWritten(s) && Boundary(s) + 1 < |s|;
      && CtrlOk(c, r, k) && (HealthyAt(c, r, k) <==> !stale) && (StaleAt(c, r, k) <==> stale)
  {
    var r := Swept(c.sig, s, |s|);
    SweptCounts(c, s, |s|);
    SweptShape(c, s, |s|);
    FreeCountIs(r);
    CountsAddUp(c.sig, s);
  }

  /** A boot never fails, recovers exactly the last entry of every label, and leaves a
      usable store, which is healthy unless it tombstoned a half-written slot. */
  lemma BootRecovers(c: Config, f: Flash)
    requires FlashOk(c, f)
    ensures var r, s := Booted(c, f), WinnerSlots(c, f);
      && BootPlan(c, f).res == Ok
      && IndexInv(c, r)
      && RawMap(c.sig, r.Slots()) == BootMap(c, f)
      && (Healthy(c, r) <==> !(HasHalfWritten(s) && Boundary(s) + 1 < |s|))
      && (Stale(c, r) <==> HasHalfWritten(s) && Boundary(s) + 1 < |s|)
  {
    var s := WinnerSlots(c, f);
    var r := Swept(c.sig, s, |s|);
    BootExec(c, f);
    BootSlots(c, f);
    BootCtrl(c, f);
    SweptCtrlOk(c, s, Booted(c, f).ctrl);
    SweptMap(c.sig, s, |s|);
    SweptResult(c.sig, s);
    SweptCounts(c, s, |s|);
    SweptClears(c, s);
  }

  lemma SweptClears(c: Config, s: seq<Slot>)
    requires Shape(s)
    ensures Clean(Swept(c.sig, s, |s|))
  {
    SweptShape(c, s, |s|);
    var b, r := Boundary(s), Swept(c.sig, s, |s|);
    if b < |s| && !HasHalfWritten(s) {
      assert s[b] == FREE_SLOT && r[b] == FREE_SLOT;
    }
  }
}
