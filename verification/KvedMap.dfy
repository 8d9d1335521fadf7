/** The store against the plain map it stands for: writes, deletes and compaction,
    from every state, with numbers and strings. */
module KvedMap {
  import opened Options
  import opened KvedWord
  import opened KvedFlash
  import opened KvedIndex
  import opened KvedStrings
  import opened KvedStore
  import opened KvedInvariant
  import opened KvedSwitch
  import opened KvedWrite
  import opened KvedOps

  function ValueOf(c: Config, sec: StrSector, x: Slot): Value {
    if IsString(x.key) then Str(TextAt(sec, x.val, c.d.maxStr)) else Num(x.val)
  }

  function Decoded(c: Config, m: map<nat, Slot>, sec: StrSector): map<nat, Data> {
    map l | l in m :: Data(m[l].key, ValueOf(c, sec, m[l]))
  }

  /** What the store holds: label to stored key word (with its type) and value. */
  function Contents(c: Config, st: State): map<nat, Data> {
    Decoded(c, RawMap(c.sig, st.Slots()), st.Strings())
  }

  /** Reading is map lookup. */
  lemma GetIsLookup(c: Config, st: State, key: Word)
    requires IndexInv(c, st)
    ensures Get(c, st, key) == (if IsValidKey(c.sig, key) && Label(key) in Contents(c, st)
                                then Some(Contents(c, st)[Label(key)]) else None)
  {
    if IsValidKey(c.sig, key) {
      FindDecides(c.sig, st.Slots(), key);
    }
  }

  /** A key does not change between string and number; nothing else is asked of types. */
  predicate SameKind(c: Config, st: State, d: Data) {
    var m := Contents(c, st);
    Label(d.key) in m ==> (m[Label(d.key)].value.Str? <==> d.value.Str?)
  }

  // ------------------------------------------------------------------- switch

  /** Compaction preserves meaning: the same labels with the same types and values,
      strings included, except for the one entry being updated. */
  lemma SwitchContents(c: Config, st: State, u: Update)
    requires IndexInv(c, st) && CopyOk(c, st, u)
    requires u.l in Contents(c, st) ==> (Contents(c, st)[u.l].value.Str? <==> u.v.Str?)
    ensures Contents(c, Exec(st, SwitchPlan(c, st, u)))
         == (map l | l in Contents(c, st) ::
               if l == u.l then Data(Contents(c, st)[l].key, u.v) else Contents(c, st)[l])
  {
    SwitchHeals(c, st, u);
    SwitchExec(c, st, u);
    SwitchedStrings(c, st, u);
    PackedContents(c, st, u);
  }

  lemma PackedContents(c: Config, st: State, u: Update)
    requires |st.Slots()| < 0x1_0000 && CopyOk(c, st, u)
    requires u.l in Contents(c, st) ==> (Contents(c, st)[u.l].value.Str? <==> u.v.Str?)
    ensures Decoded(c, RawMap(c.sig, Packed(c, st.Slots(), u, st.Strings())),
                    Table(c.strSig, c.strEnd, PackedTexts(c, st.Slots(), u, st.Strings()), c.d))
         == (map l | l in Contents(c, st) ::
               if l == u.l then Data(Contents(c, st)[l].key, u.v) else Contents(c, st)[l])
  {
    forall l
      ensures l in RawMap(c.sig, Packed(c, st.Slots(), u, st.Strings())) <==> l in RawMap(c.sig, st.Slots())
    {
      PackedMap(c, st.Slots(), u, st.Strings(), l);
    }
    forall l | l in RawMap(c.sig, st.Slots()) {
      PackedValue(c, st, u, l);
    }
  }

  lemma PackedValue(c: Config, st: State, u: Update, l: nat)
    requires |st.Slots()| < 0x1_0000 && CopyOk(c, st, u)
    requires l in RawMap(c.sig, st.Slots()) && l in RawMap(c.sig, Packed(c, st.Slots(), u, st.Strings()))
    requires l == u.l ==> (u.v.Str? <==> IsString(RawMap(c.sig, st.Slots())[l].key))
    ensures var x, y := RawMap(c.sig, st.Slots())[l], RawMap(c.sig, Packed(c, st.Slots(), u, st.Strings()))[l];
      && y.key == x.key
      && ValueOf(c, Table(c.strSig, c.strEnd, PackedTexts(c, st.Slots(), u, st.Strings()), c.d), y)
         == if l == u.l then u.v else ValueOf(c, st.Strings(), x)
  {
    var x, y := RawMap(c.sig, st.Slots())[l], RawMap(c.sig, Packed(c, st.Slots(), u, st.Strings()))[l];
    PackedMap(c, st.Slots(), u, st.Strings(), l);
    if IsString(x.key) {
      TableRoundTrip(c.strSig, c.strEnd, PackedTexts(c, st.Slots(), u, st.Strings()), y.val, c.d);
    }
  }

  // ------------------------------------------------------------ writing numbers

  /** A value-changing write needs a switch first exactly when no slot is free. */
  predicate Changes(c: Config, st: State, d: Data) {
    var m, l := Contents(c, st), Label(d.key);
    !(l in m && m[l].value == d.value)
  }

  function PutUpdate(d: Data): Update { Update(Label(d.key), d.value) }

  function PutOutcome(c: Config, st: State, d: Data): Outcome {
    if !IsValidKey(c.sig, d.key) then InvalidKey
    else if !Changes(c, st, d) then Ok
    else if st.ctrl.used == st.ctrl.total then TableFull
    else Ok
  }

  /** The map after a successful write.  The value is always the new one, except in the
      stale state, where the write and any entry it replaces are lost.  The stored type
      is the new one unless the value did not change or the entry moved with a switch. */
  function PutContents(c: Config, st: State, d: Data): map<nat, Data> {
    var m, l := Contents(c, st), Label(d.key);
    if !Changes(c, st, d) then m
    else if Stale(c, st) then m - {l}
    else m[l := Data(if l in m && st.ctrl.free == 0 then m[l].key else d.key, d.value)]
  }

  lemma UnchangedIs(c: Config, st: State, d: Data)
    requires IndexInv(c, st) && IsValidKey(c.sig, d.key) && SameKind(c, st, d)
    ensures var s, i := st.Slots(), Find(st.Slots(), Label(d.key));
      && (i < |s| <==> Label(d.key) in Contents(c, st))
      && (i < |s| && Unchanged(c, st, s[i], d) <==> !Changes(c, st, d))
  {
    FindDecides(c.sig, st.Slots(), d.key);
  }

  lemma UsedIs(c: Config, st: State)
    requires IndexInv(c, st)
    ensures st.ctrl.used < st.ctrl.total ==> LiveCount(c.sig, st.Slots()) < c.d.n
    ensures st.ctrl.used <= st.ctrl.total && st.ctrl.free >= 0
  {
  }

  lemma DecodedSet(c: Config, m: map<nat, Slot>, sec: StrSector, l: nat, x: Slot)
    ensures Decoded(c, m[l := x], sec) == Decoded(c, m, sec)[l := Data(x.key, ValueOf(c, sec, x))]
    ensures Decoded(c, m - {l}, sec) == Decoded(c, m, sec) - {l}
  {
  }

  lemma AppendStrings(st: State, d: Data, replaced: Option<nat>)
    requires SlotOf(st.ctrl.firstFree) < |st.Slots()|
    requires replaced.Some? ==> replaced.value < |st.Slots()|
    ensures Exec(st, AppendPlan(st, d, replaced)).Strings() == AppendedStr(st, d)
  {
    AppendExec(st, d, replaced);
    assert AppendPlan(st, d, replaced).ctrl.strSide == st.ctrl.strSide;
  }

  lemma AppendNumber(c: Config, st: State, d: Data, replaced: Option<nat>)
    requires IndexInv(c, st) && st.ctrl.free > 0 && IsValidKey(c.sig, d.key)
    requires ReplacesFound(st.Slots(), d.key, replaced) && d.value.Num? && !IsString(d.key)
    ensures Contents(c, Exec(st, AppendPlan(st, d, replaced)))
         == if Stale(c, st) then Contents(c, st) - {Label(d.key)} else Contents(c, st)[Label(d.key) := d]
  {
    AppendIndex(c, st, d, replaced);
    AppendAt(c, st.Slots(), st.ctrl);
    AppendStrings(st, d, replaced);
    DecodedSet(c, RawMap(c.sig, st.Slots()), st.Strings(), Label(d.key), Slot(d.key, d.value.w));
  }

  predicate SwitchReady(c: Config, st: State, d: Data) {
    st.ctrl.free == 0 && Changes(c, st, d) && st.ctrl.used < st.ctrl.total ==> CopyOk(c, st, PutUpdate(d))
  }

  /** Writing a number, from every state. */
  lemma PutNumber(c: Config, st: State, d: Data)
    requires IndexInv(c, st) && DataOk(c, d) && d.value.Num? && SameKind(c, st, d) && SwitchReady(c, st, d)
    ensures var p, r := PutPlan(c, st, d), Exec(st, PutPlan(c, st, d));
      && p.res == PutOutcome(c, st, d)
      && IndexInv(c, r) && (Healthy(c, st) ==> Healthy(c, r))
      && Contents(c, r) == (if p.res == Ok then PutContents(c, st, d) else Contents(c, st))
  {
    hide IndexInv, Healthy, Stale, Contents, SwitchPlan, SameKind;
    if IsValidKey(c.sig, d.key) {
      UnchangedIs(c, st, d);
      UsedIs(c, st);
      if Changes(c, st, d) && st.ctrl.used < st.ctrl.total {
        if st.ctrl.free == 0 {
          PutNumberSwitching(c, st, d);
        } else {
          var i := Find(st.Slots(), Label(d.key));
          var replaced := if i < |st.Slots()| then Some(i) else None;
          AppendIndex(c, st, d, replaced);
          AppendNumber(c, st, d, replaced);
        }
      }
    }
  }

  lemma PutNumberSwitching(c: Config, st: State, d: Data)
    requires IndexInv(c, st) && DataOk(c, d) && d.value.Num? && SameKind(c, st, d) && SwitchReady(c, st, d)
    requires IsValidKey(c.sig, d.key) && Changes(c, st, d) && st.ctrl.used < st.ctrl.total && st.ctrl.free == 0
    ensures var p, r := PutPlan(c, st, d), Exec(st, PutPlan(c, st, d));
      && p.res == Ok && IndexInv(c, r) && Healthy(c, r)
      && Contents(c, r) == PutContents(c, st, d)
  {
    var u, l, m := PutUpdate(d), Label(d.key), Contents(c, st);
    var sw := SwitchPlan(c, st, u);
    UnchangedIs(c, st, d);
    SwitchedForPut(c, st, d);
    if l in m {
      assert PutPlan(c, st, d) == sw;
    } else {
      var g := Exec(st, sw);
      AbsentStays(c, g, d);
      AppendIndex(c, g, d, None);
      AppendNumber(c, g, d, None);
      SwitchThenAppend(c, st, d);
    }
  }

  /** The switch a write triggers: healthy, updated if the entry was there, room for one more. */
  lemma SwitchedForPut(c: Config, st: State, d: Data)
    requires IndexInv(c, st) && SameKind(c, st, d) && CopyOk(c, st, PutUpdate(d))
    requires st.ctrl.used < st.ctrl.total
    ensures var sw := SwitchPlan(c, st, PutUpdate(d));
      var g, m, l := Exec(st, sw), Contents(c, st), Label(d.key);
      && sw.res == Ok && IndexInv(c, g) && Healthy(c, g) && g.ctrl.free > 0
      && Contents(c, g) == (if l in m then m[l := Data(m[l].key, d.value)] else m)
  {
    hide IndexInv, Healthy, SwitchPlan, CopyOk;
    var u := PutUpdate(d);
    UsedIs(c, st);
    SwitchExec(c, st, u);
    SwitchHeals(c, st, u);
    SwitchContents(c, st, u);
  }

  /** A new entry after a switch: first the switch steps, then the append steps. */
  lemma SwitchThenAppend(c: Config, st: State, d: Data)
    requires IsValidKey(c.sig, d.key) && Find(st.Slots(), Label(d.key)) == |st.Slots()|
    requires st.ctrl.used < st.ctrl.total && st.ctrl.free == 0
    requires SwitchPlan(c, st, PutUpdate(d)).res == Ok
    ensures var sw := SwitchPlan(c, st, PutUpdate(d));
      var ap := AppendPlan(Exec(st, sw), d, None);
      && PutPlan(c, st, d) == Plan(sw.steps + ap.steps, ap.ctrl, Ok)
      && Exec(st, PutPlan(c, st, d)) == Exec(Exec(st, sw), ap)
  {
    var sw := SwitchPlan(c, st, PutUpdate(d));
    RunConcat(st.flash, sw.steps, AppendPlan(Exec(st, sw), d, None).steps);
  }

  lemma AbsentStays(c: Config, st: State, d: Data)
    requires IndexInv(c, st) && IsValidKey(c.sig, d.key) && Label(d.key) !in Contents(c, st)
    ensures ReplacesFound(st.Slots(), d.key, None)
  {
    FindDecides(c.sig, st.Slots(), d.key);
  }
}
