/** Strings across a boot.  Index entries come through unharmed; which string sector a boot
    opens, and where it goes on writing in it, depends on neither. */
module KvedReboot {
  import opened Options
  import opened KvedWord
  import opened KvedFlash
  import opened KvedIndex
  import opened KvedStrings
  import opened KvedStore
  import opened KvedInvariant
  import opened KvedSwitch
  import opened KvedWrite
  import opened KvedOps
  import opened KvedMap
  import opened KvedText
  import opened KvedBoot
  import opened KvedCrash
  import opened KvedRuns

  // ---------------------------------------------------------- a clean boot

  lemma IntactFlash(c: Config, st: State)
    requires IndexInv(c, st)
    ensures FlashOk(c, st.flash) && WinnerSlots(c, st.flash) == st.Slots() && Winner(c, st.flash) == Some(st.ctrl.side)
    ensures Swept(c.sig, st.Slots(), |st.Slots()|) == st.Slots() && |st.Slots()| == c.d.n
    ensures !HasHalfWritten(st.Slots())
  {
    hide CtrlOk;
    SignedMap(c, st.flash, st.ctrl.side);
    SweptClean(c.sig, st.Slots());
  }

  lemma NothingToOpen(c: Config, st: State)
    requires IndexInv(c, st) && StrSigned(c, st.Strings())
    ensures OpenSteps(c, st.flash) == []
  {
    hide CtrlOk, SlotsOk;
    var f := st.flash;
    assert SectorCheckSteps(c, f) == [] && MainFormatSteps(c, f) == [] && StrFormatSteps(c, f) == [];
    RunNone(f);
  }

  /** A boot without a power cut before it changes nothing in flash. */
  lemma RebootState(c: Config, st: State)
    requires IndexInv(c, st) && StrSigned(c, st.Strings())
    ensures var g := Booted(c, st.flash);
      && g.flash == st.flash && g.ctrl.side == st.ctrl.side && IndexInv(c, g) && Healthy(c, g)
      && g.ctrl.strSide == BootStrSide(c, st.flash) && g.ctrl.strFree == 0
  {
    hide CtrlOk, SlotsOk, Swept;
    var f := st.flash;
    IntactFlash(c, st);
    NothingToOpen(c, st);
    RunNone(f);
    OpenedState(c, f);
    BootExec(c, f);
    BootRecovers(c, f);
    assert Opened(c, f).flash == f;
  }

  /** The string entries read the same in both string sectors. */
  predicate SameTexts(c: Config, st: State) {
    var m := RawMap(c.sig, st.Slots());
    forall l :: l in m && IsString(m[l].key) ==>
      TextAt(st.flash.strA, m[l].val, c.d.maxStr) == TextAt(st.flash.strB, m[l].val, c.d.maxStr)
  }

  /** After a clean boot the store holds what it held before, strings included, if and only if
      the boot opens the string sector that was in use, or every string happens to read the
      same in the other one.  Numbers, and the types of all entries, always come through. */
  lemma RebootReads(c: Config, st: State, texts: seq<Text>)
    requires IndexInv(c, st) && StrInv(c, st, texts)
    ensures var g := Booted(c, st.flash);
      && IndexInv(c, g) && Healthy(c, g)
      && Contents(c, g) == Decoded(c, RawMap(c.sig, st.Slots()), st.flash.Str(BootStrSide(c, st.flash)))
      && (Contents(c, g) == Contents(c, st) <==> BootStrSide(c, st.flash) == st.ctrl.strSide || SameTexts(c, st))
      && (BootStrSide(c, st.flash) == st.ctrl.strSide <==> st.ctrl.strSide == A || !StrSigned(c, st.flash.strA))
  {
    hide IndexInv, RawMap, Healthy;
    RebootState(c, st);
    var g, m := Booted(c, st.flash), RawMap(c.sig, st.Slots());
    hide Booted;
    assert RawMap(c.sig, g.Slots()) == m;
    if Contents(c, g) == Contents(c, st) && BootStrSide(c, st.flash) != st.ctrl.strSide {
      forall l | l in m && IsString(m[l].key)
        ensures TextAt(st.flash.strA, m[l].val, c.d.maxStr) == TextAt(st.flash.strB, m[l].val, c.d.maxStr)
      {
        assert Contents(c, g)[l] == Contents(c, st)[l];
      }
    }
  }

  /** The code keeps up with strings after a boot only if none was ever logged in the sector it
      opened: it goes on writing at the beginning of the data area. */
  lemma RebootForgets(c: Config, st: State, texts: seq<Text>, texts': seq<Text>)
    requires IndexInv(c, st) && StrInv(c, st, texts)
    ensures StrInv(c, Booted(c, st.flash), texts') ==> texts' == []
    ensures BootStrSide(c, st.flash) == st.ctrl.strSide ==> (StrInv(c, Booted(c, st.flash), texts') <==> texts == [] == texts')
  {
    hide IndexInv, Healthy, Booted, Refs, Stale, Boundary, Table;
    LogIsSigned(c, st, texts);
    RebootState(c, st);
    NoWords(texts');
    var g := Booted(c, st.flash);
    if BootStrSide(c, st.flash) == st.ctrl.strSide {
      if texts == [] {
        RebootNext(c, st);
        RebootNotStale(c, st);
        FirstFreeOfTable(c.strSig, c.strEnd, texts, c.d);
      } else if StrInv(c, g, texts') {
        TableNames(c, texts, texts');
      }
    }
  }

  lemma LogIsSigned(c: Config, st: State, texts: seq<Text>)
    requires StrInv(c, st, texts)
    ensures StrSigned(c, st.Strings()) && st.Strings() == Table(c.strSig, c.strEnd, texts, c.d)
  {
  }

  lemma NoWords(texts: seq<Text>)
    ensures TotalWords(texts) == 0 <==> texts == []
  {
  }

  lemma TableNames(c: Config, texts: seq<Text>, texts': seq<Text>)
    requires Loggable(texts, c.d) && Loggable(texts', c.d)
    ensures Table(c.strSig, c.strEnd, texts, c.d) == Table(c.strSig, c.strEnd, texts', c.d) ==> |texts| == |texts'|
  {
    FirstFreeOfTable(c.strSig, c.strEnd, texts, c.d);
    FirstFreeOfTable(c.strSig, c.strEnd, texts', c.d);
  }

  lemma RebootNext(c: Config, st: State)
    requires IndexInv(c, st) && StrSigned(c, st.Strings())
    ensures var g := Booted(c, st.flash);
      FirstFree(g.Strings().index) < |g.Strings().index| ==> g.ctrl.strNext == FirstFree(g.Strings().index)
    ensures var g := Booted(c, st.flash);
      FirstFree(g.Strings().index) == |g.Strings().index| ==> g.ctrl.strNext == 0
  {
    hide CtrlOk, SlotsOk;
    var f := st.flash;
    RebootState(c, st);
    NothingToOpen(c, st);
    RunNone(f);
    assert Opened(c, f).flash == f;
  }

  lemma RebootNotStale(c: Config, st: State)
    requires IndexInv(c, st) && StrSigned(c, st.Strings())
    ensures !Stale(c, Booted(c, st.flash))
  {
    hide IndexInv, Booted;
    RebootState(c, st);
    NotStale(c, Booted(c, st.flash));
  }

  // -------------------------------------------------- another text than before

  /** Logging one more text, in a store with a free slot. */
  lemma PutText(c: Config, st: State, d: Data, texts: seq<Text>)
    requires IndexInv(c, st) && StrInv(c, st, texts) && Healthy(c, st) && st.ctrl.free > 0
    requires DataOk(c, d) && d.value.Str? && IsValidKey(c.sig, d.key) && Label(d.key) !in Contents(c, st) && RoomToAppend(c, st, d)
    ensures var r := OpState(c, st, PutOp(d));
      && PutPlan(c, st, d) == AppendPlan(st, d, None)
      && IndexInv(c, r) && Healthy(c, r) && StrInv(c, r, texts + [d.value.t])
      && Contents(c, r) == Contents(c, st)[Label(d.key) := d]
      && r.ctrl.strSide == st.ctrl.strSide && r.ctrl.free == st.ctrl.free - 1
      && r.ctrl.strFree == st.ctrl.strFree + TextWords(d.value.t)
  {
    hide IndexInv, StrInv, Contents, IsValidKey, DataOk, Run;
    PutIsAppend(c, st, d);
    NotStale(c, st);
    AppendIndex(c, st, d, None);
    AppendStrInv(c, st, d, None, texts);
    AppendEntry(c, st, d, None, texts);
  }

  lemma PutIsAppend(c: Config, st: State, d: Data)
    requires IndexInv(c, st) && Healthy(c, st) && st.ctrl.free > 0
    requires IsValidKey(c.sig, d.key) && Label(d.key) !in Contents(c, st)
    ensures PutPlan(c, st, d) == AppendPlan(st, d, None) && ReplacesFound(st.Slots(), d.key, None)
  {
    AbsentStays(c, st, d);
    LiveBelowBoundary(c, st);
  }

  /** What a freshly formatted store starts with. */
  lemma FreshSide(c: Config, f: Flash)
    requires Blank(c, f)
    ensures var st := Booted(c, f);
      && IndexInv(c, st) && Healthy(c, st) && StrInv(c, st, []) && Contents(c, st) == map[]
      && st.ctrl.strSide == A && st.ctrl.free == c.d.n
  {
    hide RawMap, KeysOk;
    FreshStore(c, f);
    var st := Booted(c, f);
    BlankIsOk(c, f);
    OpenedState(c, f);
    BootExec(c, f);
    BootSlots(c, f);
    NoRefs(c, c.d.n);
    FreshNotHalf(c.d.n);
    FreshStrSide(c, f);
  }

  lemma BlankIsOk(c: Config, f: Flash)
    requires Blank(c, f)
    ensures FlashOk(c, f) && WinnerSlots(c, f) == FreeSlots(c.d.n)
  {
    FreshNotHalf(c.d.n);
  }

  lemma FreshStrSide(c: Config, f: Flash)
    requires Blank(c, f)
    ensures Booted(c, f).ctrl.strSide == A
  {
    var s1 := SectorCheckSteps(c, f);
    var g := Run(f, s1);
    var s2 := MainFormatSteps(c, g);
    BlankIsOk(c, f);
    RunSectorCheck(c, f);
    RunConcat(f, s1, s2);
    var h := Run(g, s2);
    RunMainFormat(c, g);
    RunConcat(f, s1 + s2, StrFormatSteps(c, h));
    RunStrFormat(c, h);
  }

  /** Compaction moves to the other string sector and leaves the old one as it was. */
  lemma CompactSides(c: Config, st: State, texts: seq<Text>)
    requires IndexInv(c, st) && StrInv(c, st, texts)
    ensures var r := OpState(c, st, CompactOp);
      && IndexInv(c, r) && Contents(c, r) == Contents(c, st)
      && r.ctrl.strSide == st.ctrl.strSide.Other() && r.flash.Str(st.ctrl.strSide) == st.Strings()
      && exists texts' :: StrInv(c, r, texts') && |texts'| <= |Contents(c, st)|
  {
    hide IndexInv, StrInv, Contents, CopyOk;
    var u := Update(Label(c.sig), Num(0));
    var _ := CompactRefines(c, st, texts);
    SignatureIsNoKey(c, st);
    NoTextHere(c, st, u.l);
    CopyAlwaysFits(c, st, u, texts);
    SwitchExec(c, st, u);
    SwitchStrings(c, st, u);
    PackedCount(c, st.Slots(), u, st.Strings());
    ContentsSize(c, st);
    ValuesSize(Contents(c, st));
  }

  lemma ValuesSize(m: map<nat, Data>)
    ensures |Values(m)| == |m|
  {
    assert Values(m).Keys == m.Keys;
    assert |Values(m)| == |Values(m).Keys| && |m| == |m.Keys|;
  }

  /** The only text left is entry 0. */
  lemma OnlyEntry(c: Config, st: State, texts: seq<Text>, d: Data)
    requires IndexInv(c, st) && StrInv(c, st, texts) && |texts| <= 1
    requires Contents(c, st) == map[Label(d.key) := d] && d.value.Str?
    ensures Label(d.key) in RawMap(c.sig, st.Slots()) && RawMap(c.sig, st.Slots())[Label(d.key)] == Slot(d.key, 0)
  {
    hide CtrlOk;
    var m, l := RawMap(c.sig, st.Slots()), Label(d.key);
    assert l in Contents(c, st) && Contents(c, st)[l] == d;
    var i := RawMapWitness(c.sig, st.Slots(), l);
    assert IsTextSlot(c, st.Slots()[i]);
  }

  /** On a freshly formatted store: put two strings, delete the first, compact.  The second
      reads as it should; after a boot it reads as the first. */
  lemma OtherTextAfterBoot(c: Config, f: Flash, a: Data, b: Data)
    requires Blank(c, f) && c.d.n >= 2 && DataOk(c, a) && DataOk(c, b) && a.value.Str? && b.value.Str?
    requires IsValidKey(c.sig, a.key) && IsValidKey(c.sig, b.key) && Label(a.key) != Label(b.key)
    requires 8 * (TextWords(a.value.t) + TextWords(b.value.t)) <= c.d.bytes
    ensures var st := After(c, Booted(c, f), [PutOp(a), PutOp(b), DeleteOp(a.key), CompactOp]);
      Get(c, st, b.key) == Some(b) && Get(c, Booted(c, st.flash), b.key) == Some(Data(b.key, a.value))
  {
    hide Blank, IndexInv, StrInv, Contents, Healthy, IsValidKey, Label, TextWords, Booted, Get, OpState, After, DataOk;
    var st0 := Booted(c, f);
    FreshSide(c, f);
    var st1 := OpState(c, st0, PutOp(a));
    StartOfLog(c, st0);
    PutText(c, st0, a, []);
    var st2 := OpState(c, st1, PutOp(b));
    assert [] + [a.value.t] == [a.value.t];
    PutText(c, st1, b, [a.value.t]);
    var st3 := OpState(c, st2, DeleteOp(a.key));
    var texts := [a.value.t] + [b.value.t];
    DeleteText(c, st2, a.key, texts);
    assert Contents(c, st3) == map[Label(b.key) := b];
    var st4 := OpState(c, st3, CompactOp);
    CompactSides(c, st3, texts);
    var texts4 :| StrInv(c, st4, texts4) && |texts4| <= |Contents(c, st3)|;
    FourOps(c, st0, PutOp(a), PutOp(b), DeleteOp(a.key), CompactOp);
    OldTextIs(c, st3, st4, texts, texts4, b);
  }

  lemma StartOfLog(c: Config, st: State)
    requires StrInv(c, st, [])
    ensures st.ctrl.strFree == 0
  {
  }

  lemma DeleteText(c: Config, st: State, key: Word, texts: seq<Text>)
    requires IndexInv(c, st) && StrInv(c, st, texts) && IsValidKey(c.sig, key)
    ensures var r := OpState(c, st, DeleteOp(key));
      && IndexInv(c, r) && StrInv(c, r, texts) && r.ctrl.strSide == st.ctrl.strSide
      && Contents(c, r) == Contents(c, st) - {Label(key)}
  {
    hide IndexInv, StrInv, Contents, IsValidKey;
    DeleteRefines(c, st, key, texts);
  }

  lemma OldTextIs(c: Config, st3: State, st4: State, texts: seq<Text>, texts4: seq<Text>, b: Data)
    requires IndexInv(c, st4) && StrInv(c, st4, texts4) && |texts4| <= |Contents(c, st3)|
    requires StrInv(c, st3, texts) && |texts| == 2 && Contents(c, st4) == Contents(c, st3) == map[Label(b.key) := b]
    requires st3.ctrl.strSide == A && st4.flash.strA == st3.Strings() && IsValidKey(c.sig, b.key) && b.value.Str?
    ensures Get(c, st4, b.key) == Some(b) && Get(c, Booted(c, st4.flash), b.key) == Some(Data(b.key, Str(texts[0])))
  {
    hide IndexInv, Booted, IsValidKey, Label, Get, Healthy, Refs;
    GetIsLookup(c, st4, b.key);
    RebootReads(c, st4, texts4);
    OnlyEntry(c, st4, texts4, b);
    GetIsLookup(c, Booted(c, st4.flash), b.key);
    TableRoundTrip(c.strSig, c.strEnd, texts, 0, c.d);
    OnlyString(c, st4, b);
  }

  lemma OnlyString(c: Config, st: State, d: Data)
    requires Label(d.key) in Contents(c, st) && Contents(c, st)[Label(d.key)] == d && d.value.Str?
    ensures IsString(d.key)
  {
  }

  lemma FourOps(c: Config, st: State, x: Op, y: Op, z: Op, w: Op)
    ensures After(c, st, [x, y, z, w]) == OpState(c, OpState(c, OpState(c, OpState(c, st, x), y), z), w)
  {
    hide OpState;
    assert [x, y, z, w][..3] == [x, y, z] && [x, y, z][..2] == [x, y];
    TwoOps(c, st, x, y);
  }

  // ------------------------------------------------------- two texts in one place

  /** What is left of one byte when another is written over it. */
  function Overwritten(x: Byte, y: Byte): Text {
    var p := ProgramByte(x, y);
    if p == 0 then [] else [p]
  }

  /** Both entries of such a table read what is left of the two texts. */
  lemma OverwrittenText(sec: StrSector, v: Word, maxStr: nat, x: Byte, y: Byte)
    requires v < |sec.index| && maxStr >= 2 && sec.index[v] == Pack(0, 2)
    requires |sec.data| >= 2 && sec.data[0] == ProgramByte(x, y) && sec.data[1] == 0
    ensures TextAt(sec, v, maxStr) == Overwritten(x, y)
  {
    hide ProgramByte;
    PackRoundTrip(0, 2);
    var at := sec.data[0..2];
    assert at == [sec.data[0], 0];
    var n := StrLen(at);
    if sec.data[0] == 0 {
      assert n == 0 && at[..n] == [];
    } else {
      assert n == 1 && at[..n] == [sec.data[0]];
    }
  }

  lemma OneByteTable(c: Config, x: Byte)
    requires WellSized(c.d) && c.d.n >= 2 && c.d.bytes >= 16
    ensures var sec := Table(c.strSig, c.strEnd, [[x]], c.d);
      && |sec.index| == c.d.n && sec.index[0] == Pack(0, 2) && sec.index[1] == FREE
      && |sec.data| == c.d.bytes && sec.data[0] == x && sec.data[1] == 0
  {
    var texts: seq<Text> := [[x]];
    assert texts[..0] == [];
    assert TotalWords([]) == 0 && TotalWords(texts) == 2;
    PointerAt(texts, 0);
    LayoutAt(texts, 0);
    var l := Layout(texts);
    assert l[0..2] == [x, 0];
    assert l[0] == l[0..2][0] && l[1] == l[0..2][1];
  }

  lemma OverwriteSteps(c: Config, side: Side, x: Byte, y: Byte)
    requires WellSized(c.d) && c.d.n >= 2 && c.d.bytes >= 16
    ensures var sec := ApplyStr(ApplyStr(Table(c.strSig, c.strEnd, [[x]], c.d), WriteStrIndex(side, 1, Pack(0, 2))),
                                WriteStrData(side, 0, [y] + [0]));
      && |sec.index| == c.d.n && sec.index[0] == Pack(0, 2) && sec.index[1] == Pack(0, 2)
      && |sec.data| >= 2 && sec.data[0] == ProgramByte(x, y) && sec.data[1] == 0
  {
    hide ProgramByte, Table;
    OneByteTable(c, x);
    ZeroStays();
  }

  lemma ZeroStays()
    ensures ProgramByte(0, 0) == 0
  {
  }

  /** Where the booted store puts the next text. */
  lemma RebootOneText(c: Config, st: State, x: Byte)
    requires IndexInv(c, st) && StrInv(c, st, [[x]]) && st.ctrl.strSide == A && c.d.n >= 2
    ensures var g := Booted(c, st.flash);
      && IndexInv(c, g) && Healthy(c, g) && Contents(c, g) == Contents(c, st) && g.Slots() == st.Slots()
      && g.ctrl.strSide == A && g.ctrl.strNext == 1 && g.ctrl.strFree == 0 && g.Strings() == st.Strings()
  {
    hide IndexInv, Healthy, Contents, Booted, Table, Refs;
    LogIsSigned(c, st, [[x]]);
    RebootState(c, st);
    RebootReads(c, st, [[x]]);
    RebootNext(c, st);
    FirstFreeOfTable(c.strSig, c.strEnd, [[x]], c.d);
    TableSize(c, [[x]]);
  }

  lemma TableSize(c: Config, texts: seq<Text>)
    requires Loggable(texts, c.d)
    ensures |Table(c.strSig, c.strEnd, texts, c.d).index| == c.d.n
  {
  }

  lemma PutOverwrites(c: Config, g: State, b: Data, x: Byte, y: Byte, l: nat, key: Word)
    requires IndexInv(c, g) && Healthy(c, g) && g.ctrl.free > 0 && g.Strings() == Table(c.strSig, c.strEnd, [[x]], c.d)
    requires g.ctrl.strNext == 1 && g.ctrl.strFree == 0 && c.d.n >= 2 && c.d.bytes >= 16 && c.d.maxStr >= 2
    requires DataOk(c, b) && b.value == Str([y]) && IsValidKey(c.sig, b.key) && Label(b.key) !in Contents(c, g)
    requires l in RawMap(c.sig, g.Slots()) && RawMap(c.sig, g.Slots())[l] == Slot(key, 0) && IsString(key)
    ensures var r, t := OpState(c, g, PutOp(b)), Str(Overwritten(x, y));
      && PutPlan(c, g, b).res == Ok && IndexInv(c, r)
      && l in Contents(c, r) && Contents(c, r)[l] == Data(key, t)
      && Label(b.key) in Contents(c, r) && Contents(c, r)[Label(b.key)] == Data(b.key, t)
  {
    hide IndexInv, IsValidKey, Overwritten, ProgramByte, Table, RawMap, WriteBytes;
    PutIsAppend(c, g, b);
    NotStale(c, g);
    AppendIndex(c, g, b, None);
    AppendWhere(c, g);
    AppendStrings(g, b, None);
    ValidOf(c, g);
    OverwriteSteps(c, g.ctrl.strSide, x, y);
    var sec := AppendedStr(g, b);
    OverwrittenText(sec, 0, c.d.maxStr, x, y);
    OverwrittenText(sec, 1, c.d.maxStr, x, y);
  }

  /** On a freshly formatted store: put a string of one byte, boot, put another under a second
      key.  Both puts succeed, and both keys read what bit-clearing leaves of the two texts:
      the texts as put if and only if they are the same. */
  lemma TextsOverwritten(c: Config, f: Flash, a: Data, b: Data, x: Byte, y: Byte)
    requires Blank(c, f) && c.d.n >= 2 && c.d.bytes >= 16
    requires DataOk(c, a) && DataOk(c, b) && a.value == Str([x]) && b.value == Str([y])
    requires IsValidKey(c.sig, a.key) && IsValidKey(c.sig, b.key) && Label(a.key) != Label(b.key)
    ensures var st := OpState(c, Booted(c, f), PutOp(a));
      var g := Booted(c, st.flash);
      var r := OpState(c, g, PutOp(b));
      && PutPlan(c, g, b).res == Ok
      && Get(c, r, a.key) == Some(Data(a.key, Str(Overwritten(x, y)))) && Get(c, r, b.key) == Some(Data(b.key, Str(Overwritten(x, y))))
      && (Get(c, r, a.key) == Some(a) && Get(c, r, b.key) == Some(b) <==> x == y)
  {
    hide Blank, IndexInv, StrInv, Contents, Healthy, IsValidKey, Label, Booted, Get, OpState, DataOk, PutPlan, Overwritten;
    var st0 := Booted(c, f);
    FreshSide(c, f);
    StartOfLog(c, st0);
    PutText(c, st0, a, []);
    var st := OpState(c, st0, PutOp(a));
    assert [] + [a.value.t] == [[x]];
    var g := Booted(c, st.flash);
    LogIsSigned(c, st, [[x]]);
    RebootOneText(c, st, x);
    OneEntry(c, st, a, x);
    SameRoom(c, st, g);
    NonZero(c, a, x);
    NonZero(c, b, y);
    PutOverwrites(c, g, b, x, y, Label(a.key), a.key);
    var r := OpState(c, g, PutOp(b));
    GetIsLookup(c, r, a.key);
    GetIsLookup(c, r, b.key);
    OverwrittenIs(x, y);
  }

  lemma OneEntry(c: Config, st: State, a: Data, x: Byte)
    requires IndexInv(c, st) && StrInv(c, st, [[x]]) && Contents(c, st) == map[Label(a.key) := a] && a.value.Str? && DataOk(c, a)
    ensures Label(a.key) in RawMap(c.sig, st.Slots()) && RawMap(c.sig, st.Slots())[Label(a.key)] == Slot(a.key, 0)
    ensures IsString(a.key) && c.d.maxStr >= 2 && |RawMap(c.sig, st.Slots())| == 1
  {
    hide IndexInv, RawMap, Table, Refs, Stale;
    OnlyEntry(c, st, [[x]], a);
    assert IsText([[x]][0], c.d.maxStr);
    assert RawMap(c.sig, st.Slots()).Keys == Contents(c, st).Keys;
    assert |RawMap(c.sig, st.Slots())| == |RawMap(c.sig, st.Slots()).Keys|;
    assert Contents(c, st).Keys == {Label(a.key)};
  }

  lemma SameRoom(c: Config, st: State, g: State)
    requires Healthy(c, st) && Healthy(c, g) && st.Slots() == g.Slots()
    ensures g.ctrl.free == st.ctrl.free
  {
  }

  lemma NonZero(c: Config, d: Data, x: Byte)
    requires DataOk(c, d) && d.value == Str([x])
    ensures x != 0
  {
    assert d.value.t[0] == x;
  }

  lemma {:induction false} AndSelf(a: nat)
    ensures And(a, a) == a
  {
    if a != 0 {
      AndSelf(a / 2);
    }
  }

  lemma OverwrittenIs(x: Byte, y: Byte)
    requires x != 0 && y != 0
    ensures Overwritten(x, y) == [x] && Overwritten(x, y) == [y] <==> x == y
  {
    AndSelf(x);
  }
}
