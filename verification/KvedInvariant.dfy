/** What every operation keeps, and what each one does to the index. */
module KvedInvariant {
  import opened KvedWord
  import opened KvedFlash
  import opened KvedIndex
  import opened KvedStrings
  import opened KvedStore

  /** Used and tombstoned slots first, erased slots behind them. */
  predicate Clean(s: seq<Slot>) {
    forall i :: Boundary(s) <= i < |s| ==> s[i] == FREE_SLOT
  }

  predicate SlotsOk(c: Config, s: seq<Slot>) {
    KeysOk(c.sig, s) && Distinct(c.sig, s) && Clean(s)
  }

  /** The counters say what the flash says and the free index is the first free slot. */
  predicate HealthyAt(c: Config, s: seq<Slot>, k: Ctrl) {
    && k.used == LiveCount(c.sig, s)
    && k.free == |s| - Boundary(s)
    && (k.free > 0 ==> k.firstFree == IndexOf(Boundary(s)))
  }

  /** Left by a boot that tombstoned a half-written slot: the free index still names it. */
  predicate StaleAt(c: Config, s: seq<Slot>, k: Ctrl) {
    && k.used == LiveCount(c.sig, s)
    && k.free == |s| - Boundary(s) && k.free > 0
    && Boundary(s) > 0 && s[Boundary(s) - 1].key == DELETED
    && k.firstFree == IndexOf(Boundary(s) - 1)
  }

  /** Left by a write in the stale state: one entry is counted that does not exist. */
  predicate DriftedAt(c: Config, s: seq<Slot>, k: Ctrl) {
    && k.used == LiveCount(c.sig, s) + 1
    && k.free == |s| - Boundary(s) - 1 && k.free >= 0 && k.deleted > 0
    && (k.free > 0 ==> k.firstFree == IndexOf(Boundary(s)))
  }

  predicate CtrlOk(c: Config, s: seq<Slot>, k: Ctrl) {
    && k.total == |s| && k.deleted == KeyCount(s, DELETED)
    && (HealthyAt(c, s, k) || StaleAt(c, s, k) || DriftedAt(c, s, k))
  }

  predicate Healthy(c: Config, st: State) { HealthyAt(c, st.Slots(), st.ctrl) }
  predicate Stale(c: Config, st: State) { StaleAt(c, st.Slots(), st.ctrl) }
  predicate Drifted(c: Config, st: State) { DriftedAt(c, st.Slots(), st.ctrl) }

  /** Exactly one index sector is signed. */
  predicate SignedOn(c: Config, f: Flash, side: Side) {
    && c.Valid()
    && Geometry(f, c.d.n, c.d.bytes)
    && f.Main(side).sig == c.sig && f.Main(side).cnt != FREE
    && f.Main(side.Other()).sig != c.sig
  }

  predicate IndexInv(c: Config, st: State) {
    SignedOn(c, st.flash, st.ctrl.side) && SlotsOk(c, st.Slots()) && CtrlOk(c, st.Slots(), st.ctrl)
  }

  // ------------------------------------------------------------------ copying

  lemma FillSlot(f: Flash, to: Side, s: Sector, j: nat, key: Word, val: Word)
    requires f.Main(to) == s && j < |s.slots| && s.slots[j] == FREE_SLOT
    ensures Apply(Apply(f, WriteKey(to, j, key)), WriteVal(to, j, val))
         == f.WithMain(to, s.(slots := s.slots[j := Slot(key, val)]))
  {
    var g := Apply(f, WriteKey(to, j, key));
    assert g.Main(to).slots[j] == Slot(key, FREE);
    assert Apply(g, WriteVal(to, j, val)).Main(to).slots == s.slots[j := Slot(key, val)];
  }

  lemma FillPacked(p: seq<Slot>, n: nat, x: Slot)
    requires |p| < n
    ensures (p + FreeSlots(n - |p|))[|p| := x] == (p + [x]) + FreeSlots(n - |p| - 1)
  {
  }

  /** The target sectors after copying the slots `s`. */
  function Copied(c: Config, f: Flash, s: seq<Slot>, u: Update, sec: StrSector, to: Side, strTo: Side): Flash
    requires |s| <= c.d.n
  {
    var p := Packed(c, s, u, sec);
    f.WithMain(to, Sector(FREE, FREE, p + FreeSlots(c.d.n - |p|)))
     .WithStr(strTo, Table(FREE, FREE, PackedTexts(c, s, u, sec), c.d))
  }

  lemma CopyNumber(c: Config, f: Flash, s: seq<Slot>, u: Update, sec: StrSector, to: Side, strTo: Side)
    requires 0 < |s| <= c.d.n && c.Valid()
    requires Live(c.sig, s[|s| - 1]) && !IsString(s[|s| - 1].key)
    ensures var t, x := s[..|s| - 1], s[|s| - 1];
      var j := LiveCount(c.sig, t);
      Run(Copied(c, f, t, u, sec, to, strTo), [WriteKey(to, j, x.key)] + [] + [WriteVal(to, j, PackVal(x, u, |PackedTexts(c, t, u, sec)|))])
      == Copied(c, f, s, u, sec, to, strTo)
  {
    var t, x := s[..|s| - 1], s[|s| - 1];
    var g, p := Copied(c, f, t, u, sec, to, strTo), Packed(c, t, u, sec);
    var j, v := |p|, PackVal(x, u, |PackedTexts(c, t, u, sec)|);
    assert [WriteKey(to, j, x.key)] + [] + [WriteVal(to, j, v)] == [WriteKey(to, j, x.key), WriteVal(to, j, v)];
    RunTwo(g, WriteKey(to, j, x.key), WriteVal(to, j, v));
    FillSlot(g, to, g.Main(to), j, x.key, v);
    FillPacked(p, c.d.n, Slot(x.key, v));
  }

  lemma CopyString(c: Config, f: Flash, s: seq<Slot>, u: Update, sec: StrSector, to: Side, strTo: Side)
    requires 0 < |s| <= c.d.n && c.Valid()
    requires Live(c.sig, s[|s| - 1]) && IsString(s[|s| - 1].key)
    requires Loggable(PackedTexts(c, s, u, sec), c.d)
    ensures var t, x := s[..|s| - 1], s[|s| - 1];
      var j, texts, text := LiveCount(c.sig, t), PackedTexts(c, t, u, sec), PackText(c, x, u, sec);
      Run(Copied(c, f, t, u, sec, to, strTo),
          [WriteKey(to, j, x.key)] + [DataStep(strTo, texts, text), PtrStep(strTo, texts, text)]
          + [WriteVal(to, j, PackVal(x, u, |texts|))])
      == Copied(c, f, s, u, sec, to, strTo)
  {
    var t, x := s[..|s| - 1], s[|s| - 1];
    var g, p := Copied(c, f, t, u, sec, to, strTo), Packed(c, t, u, sec);
    var texts, text := PackedTexts(c, t, u, sec), PackText(c, x, u, sec);
    var j, v := |p|, PackVal(x, u, |texts|);
    var k, w := WriteKey(to, j, x.key), WriteVal(to, j, v);
    assert [k] + [DataStep(strTo, texts, text), PtrStep(strTo, texts, text)] + [w]
        == [k, DataStep(strTo, texts, text), PtrStep(strTo, texts, text), w];
    FillPacked(p, c.d.n, Slot(x.key, v));
    FillStringSlot(g, to, j, x.key, v, texts, text, strTo, c.d);
  }

  lemma FillStringSlot(g: Flash, to: Side, j: nat, key: Word, v: Word, texts: seq<Text>, text: Text, strTo: Side, d: Dims)
    requires j < |g.Main(to).slots| && g.Main(to).slots[j] == FREE_SLOT
    requires Loggable(texts + [text], d) && g.Str(strTo) == Table(FREE, FREE, texts, d)
    ensures Run(g, [WriteKey(to, j, key), DataStep(strTo, texts, text), PtrStep(strTo, texts, text), WriteVal(to, j, v)])
         == g.WithMain(to, g.Main(to).(slots := g.Main(to).slots[j := Slot(key, v)]))
             .WithStr(strTo, Table(FREE, FREE, texts + [text], d))
  {
    var k, a, b, w := WriteKey(to, j, key), DataStep(strTo, texts, text), PtrStep(strTo, texts, text), WriteVal(to, j, v);
    RunFour(g, k, a, b, w);
    FillSlot(g, to, g.Main(to), j, key, v);
    var h := Apply(g, k);
    Commute(Apply(h, a), w, b);
    Commute(h, w, a);
    LogText(Apply(h, w), FREE, FREE, texts, text, strTo, d);
  }

  /** Index steps and string steps do not interfere. */
  lemma Commute(f: Flash, main: Step, str: Step)
    requires TouchesMain(main) && !TouchesMain(str)
    ensures Apply(Apply(f, main), str) == Apply(Apply(f, str), main)
  {
  }

  lemma LogText(f: Flash, sig: Word, end: Word, texts: seq<Text>, t: Text, side: Side, d: Dims)
    requires Loggable(texts + [t], d) && f.Str(side) == Table(sig, end, texts, d)
    ensures Apply(Apply(f, DataStep(side, texts, t)), PtrStep(side, texts, t))
         == Apply(Apply(f, PtrStep(side, texts, t)), DataStep(side, texts, t))
         == f.WithStr(side, Table(sig, end, texts + [t], d))
  {
    AppendText(sig, end, texts, t, side, d);
  }

  lemma {:induction false} LoggablePrefix(c: Config, s: seq<Slot>, u: Update, sec: StrSector)
    requires s != [] && Loggable(PackedTexts(c, s, u, sec), c.d)
    ensures Loggable(PackedTexts(c, s[..|s| - 1], u, sec), c.d)
  {
    var x := s[|s| - 1];
    if Live(c.sig, x) && IsString(x.key) {
      LoggableFront(PackedTexts(c, s[..|s| - 1], u, sec), PackText(c, x, u, sec), c.d);
    }
  }

  /** The copy loop fills the erased twin sectors with the packed entries and their texts. */
  lemma {:induction false} RunCopy(c: Config, f: Flash, s: seq<Slot>, u: Update, sec: StrSector, to: Side, strTo: Side)
    requires c.Valid() && |s| <= c.d.n
    requires f.Main(to) == ErasedMain(c.d.n) && f.Str(strTo) == ErasedStr(c.d.n, c.d.bytes)
    requires Loggable(PackedTexts(c, s, u, sec), c.d)
    ensures Run(f, CopySteps(c, s, u, sec, to, strTo)) == Copied(c, f, s, u, sec, to, strTo)
  {
    if s == [] {
      EmptyTable(c.d);
      assert [] + FreeSlots(c.d.n) == FreeSlots(c.d.n);
      assert Copied(c, f, s, u, sec, to, strTo) == f;
    } else {
      var t, x := s[..|s| - 1], s[|s| - 1];
      LoggablePrefix(c, s, u, sec);
      RunCopy(c, f, t, u, sec, to, strTo);
      if Live(c.sig, x) {
        var front := CopySteps(c, t, u, sec, to, strTo);
        RunConcat(f, front, CopySteps(c, s, u, sec, to, strTo)[|front|..]);
        assert CopySteps(c, s, u, sec, to, strTo) == front + CopySteps(c, s, u, sec, to, strTo)[|front|..];
        if IsString(x.key) {
          CopyString(c, f, s, u, sec, to, strTo);
        } else {
          CopyNumber(c, f, s, u, sec, to, strTo);
        }
      }
    }
  }
}
