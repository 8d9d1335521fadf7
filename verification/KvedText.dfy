/** String values within a session: the string table is the log of every text written
    since it was last rebuilt, and live entries refer into it in order. */
module KvedText {
  import opened Options
  import opened KvedWord
  import opened KvedFlash
  import opened KvedIndex
  import opened KvedStrings
  import opened KvedStore
  import opened KvedInvariant
  import opened KvedSwitch
  import opened KvedWrite
  import opened KvedOps
  import opened KvedMap

  predicate IsTextSlot(c: Config, x: Slot) { Live(c.sig, x) && IsString(x.key) }

  /** String entries refer to logged texts, later slots to later texts. */
  predicate Refs(c: Config, s: seq<Slot>, k: nat) {
    && (forall i :: 0 <= i < |s| && IsTextSlot(c, s[i]) ==> s[i].val < k)
    && (forall i, j :: 0 <= i < j < |s| && IsTextSlot(c, s[i]) && IsTextSlot(c, s[j]) ==> s[i].val < s[j].val)
  }

  predicate StrInv(c: Config, st: State, texts: seq<Text>) {
    && Loggable(texts, c.d)
    && st.Strings() == Table(c.strSig, c.strEnd, texts, c.d)
    && st.ctrl.strNext == |texts| && st.ctrl.strFree == TotalWords(texts)
    && |texts| + (if Stale(c, st) then 1 else 0) <= Boundary(st.Slots())
    && Refs(c, st.Slots(), |texts|)
  }

  // --------------------------------------------------------- packing the texts

  lemma {:induction false} PackedAreTexts(c: Config, s: seq<Slot>, u: Update, sec: StrSector, texts: seq<Text>)
    requires Loggable(texts, c.d) && sec == Table(c.strSig, c.strEnd, texts, c.d)
    requires Refs(c, s, |texts|)
    requires u.v.Str? ==> IsText(u.v.t, c.d.maxStr)
    requires u.v.Num? ==> forall i :: 0 <= i < |s| && IsTextSlot(c, s[i]) ==> Label(s[i].key) != u.l
    ensures AreTexts(PackedTexts(c, s, u, sec), c.d.maxStr)
  {
    if s != [] {
      var t, x := s[..|s| - 1], s[|s| - 1];
      assert forall i :: 0 <= i < |t| ==> t[i] == s[i];
      PackedAreTexts(c, t, u, sec, texts);
      if IsTextSlot(c, x) && Label(x.key) != u.l {
        TableRoundTrip(c.strSig, c.strEnd, texts, x.val, c.d);
        assert IsText(texts[x.val], c.d.maxStr);
      }
    }
  }

  /** The live texts never need more room than the log they were taken from. */
  lemma {:induction false} PackedFits(c: Config, s: seq<Slot>, u: Update, sec: StrSector, texts: seq<Text>, k: nat)
    requires Loggable(texts, c.d) && sec == Table(c.strSig, c.strEnd, texts, c.d)
    requires k <= |texts| && Refs(c, s, k)
    requires forall i :: 0 <= i < |s| && IsTextSlot(c, s[i]) ==> Label(s[i].key) != u.l
    ensures TotalWords(PackedTexts(c, s, u, sec)) <= TotalWords(texts[..k])
  {
    if s != [] {
      var t, x := s[..|s| - 1], s[|s| - 1];
      assert forall i :: 0 <= i < |t| ==> t[i] == s[i];
      if IsTextSlot(c, x) {
        assert Refs(c, t, x.val);
        PackedFits(c, t, u, sec, texts, x.val);
        TableRoundTrip(c.strSig, c.strEnd, texts, x.val, c.d);
        TotalWordsMonotone(texts, x.val, k);
        var front := PackedTexts(c, t, u, sec);
        assert PackedTexts(c, s, u, sec) == front + [texts[x.val]];
        assert (front + [texts[x.val]])[..|front|] == front;
      } else {
        assert Refs(c, t, k);
        PackedFits(c, t, u, sec, texts, k);
      }
    }
  }

  lemma {:induction false} PackedCount(c: Config, s: seq<Slot>, u: Update, sec: StrSector)
    ensures |PackedTexts(c, s, u, sec)| <= |Packed(c, s, u, sec)|
  {
    if s != [] {
      PackedCount(c, s[..|s| - 1], u, sec);
    }
  }

  lemma {:induction false} PackedRefs(c: Config, s: seq<Slot>, u: Update, sec: StrSector)
    requires |s| < 0x1_0000
    ensures Refs(c, Packed(c, s, u, sec), |PackedTexts(c, s, u, sec)|)
  {
    if s != [] {
      PackedRefs(c, s[..|s| - 1], u, sec);
    }
  }

  lemma RefsPadded(c: Config, p: seq<Slot>, m: nat, k: nat)
    requires Refs(c, p, k)
    ensures Refs(c, p + FreeSlots(m), k)
  {
    var s := p + FreeSlots(m);
    assert forall i :: 0 <= i < |s| && IsTextSlot(c, s[i]) ==> i < |p| && s[i] == p[i];
  }

  /** No string entry carries the label: a number is written, or nothing is. */
  predicate NoTextAt(c: Config, s: seq<Slot>, l: nat) {
    forall i :: 0 <= i < |s| && IsTextSlot(c, s[i]) ==> Label(s[i].key) != l
  }

  /** Copying always fits, because the twin area is as large as the one in use. */
  lemma CopyAlwaysFits(c: Config, st: State, u: Update, texts: seq<Text>)
    requires IndexInv(c, st) && StrInv(c, st, texts) && u.v.Num? && NoTextAt(c, st.Slots(), u.l)
    ensures CopyOk(c, st, u)
  {
    PackedAreTexts(c, st.Slots(), u, st.Strings(), texts);
    PackedFits(c, st.Slots(), u, st.Strings(), texts, |texts|);
    assert texts[..|texts|] == texts;
    PackedCount(c, st.Slots(), u, st.Strings());
  }

  lemma NoTextHere(c: Config, st: State, l: nat)
    requires IndexInv(c, st)
    requires l in Contents(c, st) ==> Contents(c, st)[l].value.Num?
    ensures NoTextAt(c, st.Slots(), l)
  {
    var s := st.Slots();
    forall i | 0 <= i < |s| && IsTextSlot(c, s[i])
      ensures Label(s[i].key) != l
    {
      assert IsLast(c.sig, s, i);
      RawMapLast(c.sig, s, i);
    }
  }

  /** The switch rebuilds the string table from the live texts alone. */
  lemma SwitchStrings(c: Config, st: State, u: Update)
    requires IndexInv(c, st) && CopyOk(c, st, u)
    ensures StrInv(c, Exec(st, SwitchPlan(c, st, u)), PackedTexts(c, st.Slots(), u, st.Strings()))
  {
    SwitchExec(c, st, u);
    SwitchedStrings(c, st, u);
    SwitchState(c, st, u);
    SwitchedSlots(c, st, u);
    PackedCount(c, st.Slots(), u, st.Strings());
    PackedRefs(c, st.Slots(), u, st.Strings());
    var p := Packed(c, st.Slots(), u, st.Strings());
    RefsPadded(c, p, |st.Slots()| - |p|, |PackedTexts(c, st.Slots(), u, st.Strings())|);
  }

  // ------------------------------------------------------------- writing texts

  lemma RefsDead(c: Config, s: seq<Slot>, i: nat, x: Slot, k: nat)
    requires Refs(c, s, k) && i < |s| && !IsTextSlot(c, x)
    ensures Refs(c, s[i := x], k)
  {
  }

  lemma RefsNew(c: Config, s: seq<Slot>, i: nat, x: Slot, k: nat)
    requires Refs(c, s, k) && i < |s| && x.val == k
    requires forall j :: i <= j < |s| ==> !IsTextSlot(c, s[j])
    ensures Refs(c, s[i := x], k + 1)
  {
  }

  lemma RefsAppended(c: Config, st: State, key: Word, v: Word, replaced: Option<nat>, k: nat)
    requires IndexInv(c, st) && st.ctrl.free > 0 && Refs(c, st.Slots(), k) && (IsString(key) ==> v == k)
    ensures Refs(c, Appended(st.Slots(), SlotOf(st.ctrl.firstFree), key, v, replaced), k + (if IsString(key) then 1 else 0))
  {
    hide Refs, IsString, IndexInv, Stale, IsValidKey;
    var s, p := st.Slots(), SlotOf(st.ctrl.firstFree);
    AppendWhere(c, st);
    var x, k' := Slot(Program(s[p].key, key), Program(s[p].val, v)), k + (if IsString(key) then 1 else 0);
    var t := s[p := x];
    RefsFilled(c, st, key, v, k);
    if replaced.Some? && replaced.value < |t| {
      var i := replaced.value;
      DeletedIsDead(c.sig, t[i].(key := DELETED));
      RefsDead(c, t, i, t[i].(key := DELETED), k');
    }
  }

  lemma RefsFilled(c: Config, st: State, key: Word, v: Word, k: nat)
    requires IndexInv(c, st) && st.ctrl.free > 0 && Refs(c, st.Slots(), k) && (IsString(key) ==> v == k)
    requires SlotOf(st.ctrl.firstFree) < |st.Slots()|
    ensures var s, p := st.Slots(), SlotOf(st.ctrl.firstFree);
      Refs(c, s[p := Slot(Program(s[p].key, key), Program(s[p].val, v))], k + (if IsString(key) then 1 else 0))
  {
    hide Refs;
    var s, p := st.Slots(), SlotOf(st.ctrl.firstFree);
    AppendAt(c, s, st.ctrl);
    var x := Slot(Program(s[p].key, key), Program(s[p].val, v));
    if Stale(c, st) {
      DeletedIsDead(c.sig, x);
      RefsDead(c, s, p, x, k);
      RefsGrow(c, s[p := x], k);
    } else {
      assert s[p] == FREE_SLOT;
      if IsString(key) {
        RefsNew(c, s, p, x, k);
      } else {
        RefsDead(c, s, p, x, k);
      }
    }
  }

  lemma RefsGrow(c: Config, s: seq<Slot>, k: nat)
    requires Refs(c, s, k)
    ensures Refs(c, s, k + 1)
  {
  }

  /** Room for one more text in the table in use. */
  predicate RoomToAppend(c: Config, st: State, d: Data) {
    d.value.Str? ==> 8 * (st.ctrl.strFree + TextWords(d.value.t)) <= c.d.bytes
  }

  function TextsAfter(d: Data, texts: seq<Text>): seq<Text> {
    if d.value.Str? then texts + [d.value.t] else texts
  }

  /** The string index in use never reaches the end signature: it is bounded by the
      slots that are not free. */
  lemma TextsStayLoggable(c: Config, st: State, d: Data, texts: seq<Text>)
    requires IndexInv(c, st) && StrInv(c, st, texts) && st.ctrl.free > 0
    requires DataOk(c, d) && RoomToAppend(c, st, d)
    ensures Loggable(TextsAfter(d, texts), c.d)
    ensures d.value.Str? ==> st.ctrl.strNext < c.d.n
    ensures TotalWords(TextsAfter(d, texts)) == TotalWords(texts) + (if d.value.Str? then TextWords(d.value.t) else 0)
  {
    if d.value.Str? {
      AppendAt(c, st.Slots(), st.ctrl);
      var more := texts + [d.value.t];
      assert more[..|texts|] == texts;
      assert TotalWords(more) == TotalWords(texts) + TextWords(d.value.t);
    }
  }

  lemma AppendedTable(c: Config, st: State, d: Data, texts: seq<Text>)
    requires StrInv(c, st, texts) && Loggable(TextsAfter(d, texts), c.d)
    ensures AppendedStr(st, d) == Table(c.strSig, c.strEnd, TextsAfter(d, texts), c.d)
  {
    if d.value.Str? {
      var k, t := st.ctrl, d.value.t;
      AppendText(c.strSig, c.strEnd, texts, t, k.strSide, c.d);
      assert PtrStep(k.strSide, texts, t) == WriteStrIndex(k.strSide, k.strNext, Pack(k.strFree, |t| + 1));
      assert DataStep(k.strSide, texts, t) == WriteStrData(k.strSide, k.strFree, t + [0]);
    }
  }

  lemma AppendStrInv(c: Config, st: State, d: Data, replaced: Option<nat>, texts: seq<Text>)
    requires IndexInv(c, st) && StrInv(c, st, texts) && st.ctrl.free > 0
    requires DataOk(c, d) && IsValidKey(c.sig, d.key) && RoomToAppend(c, st, d)
    requires ReplacesFound(st.Slots(), d.key, replaced)
    ensures StrInv(c, Exec(st, AppendPlan(st, d, replaced)), TextsAfter(d, texts))
  {
    hide IndexInv, Refs, Loggable, Table, Appended, Boundary, ReplacesFound, TotalWords, TextWords, Healthy, Drifted, Stale,
         AppendedStr, Pack, DataOk, IsValidKey;
    var s, k, more := st.Slots(), st.ctrl, TextsAfter(d, texts);
    var r := Exec(st, AppendPlan(st, d, replaced));
    TextsStayLoggable(c, st, d, texts);
    AppendWhere(c, st);
    FoundInside(s, d.key, replaced);
    AppendStrings(st, d, replaced);
    AppendedTable(c, st, d, texts);
    AppendIndex(c, st, d, replaced);
    NotStale(c, r);
    AppendSlotsAre(c, st, d, replaced);
    StringFits(c, d, texts);
    RefsAppended(c, st, d.key, EntryWord(st, d), replaced, |texts|);
    AppendBoundary(c, st, d, replaced);
  }

  lemma StringFits(c: Config, d: Data, texts: seq<Text>)
    requires DataOk(c, d) && Loggable(texts, c.d)
    ensures d.value.Str? <==> IsString(d.key)
    ensures |texts| <= WORD_MAX
  {
  }

  lemma AppendBoundary(c: Config, st: State, d: Data, replaced: Option<nat>)
    requires IndexInv(c, st) && st.ctrl.free > 0 && IsValidKey(c.sig, d.key)
    requires ReplacesFound(st.Slots(), d.key, replaced)
    ensures Boundary(Exec(st, AppendPlan(st, d, replaced)).Slots())
         == Boundary(st.Slots()) + (if Stale(c, st) then 0 else 1)
  {
    AppendAt(c, st.Slots(), st.ctrl);
    AppendSlotsAre(c, st, d, replaced);
    if Stale(c, st) {
      FillTombstone(c, st.Slots(), d.key, EntryWord(st, d), replaced);
    } else {
      FillFresh(c, st.Slots(), d.key, EntryWord(st, d), replaced);
    }
  }

  /** Logging another text does not disturb what the live entries read. */
  lemma DecodedGrow(c: Config, st: State, texts: seq<Text>, t: Text)
    requires StrInv(c, st, texts) && Loggable(texts + [t], c.d)
    ensures Decoded(c, RawMap(c.sig, st.Slots()), Table(c.strSig, c.strEnd, texts + [t], c.d)) == Contents(c, st)
  {
    var m, more := RawMap(c.sig, st.Slots()), texts + [t];
    forall l | l in m
      ensures ValueOf(c, Table(c.strSig, c.strEnd, more, c.d), m[l]) == ValueOf(c, st.Strings(), m[l])
    {
      var i := RawMapWitness(c.sig, st.Slots(), l);
      if IsString(m[l].key) {
        assert IsTextSlot(c, st.Slots()[i]);
        TableRoundTrip(c.strSig, c.strEnd, texts, m[l].val, c.d);
        TableRoundTrip(c.strSig, c.strEnd, more, m[l].val, c.d);
      }
    }
  }

  /** Writing in place: the entry reads back as given, strings as well as numbers. */
  lemma AppendEntry(c: Config, st: State, d: Data, replaced: Option<nat>, texts: seq<Text>)
    requires IndexInv(c, st) && StrInv(c, st, texts) && st.ctrl.free > 0
    requires DataOk(c, d) && IsValidKey(c.sig, d.key) && RoomToAppend(c, st, d)
    requires ReplacesFound(st.Slots(), d.key, replaced)
    ensures Contents(c, Exec(st, AppendPlan(st, d, replaced)))
         == if Stale(c, st) then Contents(c, st) - {Label(d.key)} else Contents(c, st)[Label(d.key) := d]
  {
    if d.value.Num? {
      AppendNumber(c, st, d, replaced);
    } else {
      var m, t := RawMap(c.sig, st.Slots()), d.value.t;
      var sec := Table(c.strSig, c.strEnd, texts + [t], c.d);
      TextsStayLoggable(c, st, d, texts);
      AppendIndex(c, st, d, replaced);
      AppendAt(c, st.Slots(), st.ctrl);
      AppendStrings(st, d, replaced);
      AppendedTable(c, st, d, texts);
      DecodedGrow(c, st, texts, t);
      DecodedSet(c, m, sec, Label(d.key), Slot(d.key, EntryWord(st, d)));
      TableRoundTrip(c.strSig, c.strEnd, texts + [t], |texts|, c.d);
    }
  }

  // -------------------------------------------------------------- operations

  /** String capacity, which the code does not check: room in the table in use, or, when
      the write first has to switch sectors, room in the rebuilt one. */
  predicate Room(c: Config, st: State, d: Data) {
    d.value.Str? && Changes(c, st, d) && st.ctrl.used < st.ctrl.total ==>
      if st.ctrl.free > 0 then RoomToAppend(c, st, d)
      else
        var packed := TotalWords(PackedTexts(c, st.Slots(), PutUpdate(d), st.Strings()));
        8 * (packed + (if Label(d.key) in Contents(c, st) then 0 else TextWords(d.value.t))) <= c.d.bytes
  }

  lemma CopyForPut(c: Config, st: State, d: Data, texts: seq<Text>)
    requires IndexInv(c, st) && StrInv(c, st, texts) && DataOk(c, d) && SameKind(c, st, d)
    requires Room(c, st, d) && Changes(c, st, d) && st.ctrl.used < st.ctrl.total && st.ctrl.free == 0
    ensures CopyOk(c, st, PutUpdate(d))
  {
    if d.value.Num? {
      NoTextHere(c, st, Label(d.key));
      CopyAlwaysFits(c, st, PutUpdate(d), texts);
    } else {
      PackedAreTexts(c, st.Slots(), PutUpdate(d), st.Strings(), texts);
      PackedCount(c, st.Slots(), PutUpdate(d), st.Strings());
    }
  }

  /** Writing any value, from every state, against the plain map. */
  lemma PutRefines(c: Config, st: State, d: Data, texts: seq<Text>) returns (texts': seq<Text>)
    requires IndexInv(c, st) && StrInv(c, st, texts)
    requires DataOk(c, d) && SameKind(c, st, d) && Room(c, st, d)
    ensures var p, r := PutPlan(c, st, d), Exec(st, PutPlan(c, st, d));
      && p.res == PutOutcome(c, st, d)
      && IndexInv(c, r) && StrInv(c, r, texts')
      && (Healthy(c, st) ==> Healthy(c, r)) && (!Stale(c, st) ==> !Stale(c, r))
      && Contents(c, r) == (if p.res == Ok then PutContents(c, st, d) else Contents(c, st))
  {
    hide IndexInv, StrInv, Contents, Healthy, Stale, SameKind, SwitchPlan;
    texts' := texts;
    if IsValidKey(c.sig, d.key) {
      UnchangedIs(c, st, d);
      UsedIs(c, st);
      if Changes(c, st, d) && st.ctrl.used < st.ctrl.total {
        if st.ctrl.free == 0 {
          texts' := PutSwitching(c, st, d, texts);
          NotStale(c, Exec(st, PutPlan(c, st, d)));
        } else {
          var i := Find(st.Slots(), Label(d.key));
          var replaced := if i < |st.Slots()| then Some(i) else None;
          AppendIndex(c, st, d, replaced);
          NotStale(c, Exec(st, AppendPlan(st, d, replaced)));
          AppendStrInv(c, st, d, replaced, texts);
          AppendEntry(c, st, d, replaced, texts);
          texts' := TextsAfter(d, texts);
        }
      }
    }
  }

  lemma PutSwitching(c: Config, st: State, d: Data, texts: seq<Text>) returns (texts': seq<Text>)
    requires IndexInv(c, st) && StrInv(c, st, texts)
    requires DataOk(c, d) && SameKind(c, st, d) && Room(c, st, d)
    requires IsValidKey(c.sig, d.key) && Changes(c, st, d) && st.ctrl.used < st.ctrl.total && st.ctrl.free == 0
    ensures var p, r := PutPlan(c, st, d), Exec(st, PutPlan(c, st, d));
      && p.res == Ok && IndexInv(c, r) && StrInv(c, r, texts') && Healthy(c, r)
      && Contents(c, r) == PutContents(c, st, d)
  {
    var u := PutUpdate(d);
    UnchangedIs(c, st, d);
    CopyForPut(c, st, d, texts);
    SwitchedForPut(c, st, d);
    SwitchStrings(c, st, u);
    texts' := PackedTexts(c, st.Slots(), u, st.Strings());
    if Label(d.key) in Contents(c, st) {
      assert PutPlan(c, st, d) == SwitchPlan(c, st, u);
    } else {
      var g := Exec(st, SwitchPlan(c, st, u));
      AbsentStays(c, g, d);
      assert RoomToAppend(c, g, d);
      AppendIndex(c, g, d, None);
      AppendStrInv(c, g, d, None, texts');
      AppendEntry(c, g, d, None, texts');
      SwitchThenAppend(c, st, d);
      texts' := TextsAfter(d, texts');
    }
  }

  lemma DeleteRefines(c: Config, st: State, key: Word, texts: seq<Text>)
    requires IndexInv(c, st) && StrInv(c, st, texts)
    ensures var p, r := DeletePlan(c, st, key), Exec(st, DeletePlan(c, st, key));
      && IndexInv(c, r) && StrInv(c, r, texts)
      && (Healthy(c, st) ==> Healthy(c, r)) && (!Stale(c, st) ==> !Stale(c, r))
      && p.res == (if IsValidKey(c.sig, key) && Label(key) in Contents(c, st) then Ok else InvalidKey)
      && Contents(c, r) == Contents(c, st) - (if IsValidKey(c.sig, key) then {Label(key)} else {})
  {
    hide IndexInv, StrInv, Healthy, Stale, DeletePlan, RawMap;
    DeleteIndex(c, st, key);
    DeleteStrInv(c, st, key, texts);
    DecodedSet(c, RawMap(c.sig, st.Slots()), st.Strings(), Label(key), FREE_SLOT);
    assert Contents(c, st) - {} == Contents(c, st);
    assert RawMap(c.sig, st.Slots()) - {} == RawMap(c.sig, st.Slots());
  }

  lemma DeleteStrInv(c: Config, st: State, key: Word, texts: seq<Text>)
    requires IndexInv(c, st) && StrInv(c, st, texts)
    ensures StrInv(c, Exec(st, DeletePlan(c, st, key)), texts)
    ensures Exec(st, DeletePlan(c, st, key)).Strings() == st.Strings()
  {
    var s, i := st.Slots(), Find(st.Slots(), Label(key));
    if IsValidKey(c.sig, key) && i < |s| {
      FindDecides(c.sig, s, key);
      KillFlash(st.flash, st.ctrl.side, i);
      KillSlot(c, s, i);
      RefsDead(c, s, i, s[i].(key := DELETED), |texts|);
    }
  }

  lemma CompactRefines(c: Config, st: State, texts: seq<Text>) returns (texts': seq<Text>)
    requires IndexInv(c, st) && StrInv(c, st, texts)
    ensures var p, r := CompactPlan(c, st), Exec(st, CompactPlan(c, st));
      && p.res == Ok && IndexInv(c, r) && StrInv(c, r, texts') && Healthy(c, r)
      && Contents(c, r) == Contents(c, st)
  {
    hide IndexInv, StrInv, Contents, SwitchPlan;
    var u := Update(Label(c.sig), Num(0));
    SignatureIsNoKey(c, st);
    NoTextHere(c, st, u.l);
    CopyAlwaysFits(c, st, u, texts);
    SwitchExec(c, st, u);
    SwitchHeals(c, st, u);
    SwitchContents(c, st, u);
    SwitchStrings(c, st, u);
    texts' := PackedTexts(c, st.Slots(), u, st.Strings());
  }

  lemma SignatureIsNoKey(c: Config, st: State)
    ensures Label(c.sig) !in Contents(c, st)
  {
    RawMapIn(c.sig, st.Slots(), Label(c.sig));
  }
}
