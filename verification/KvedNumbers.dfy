/** Stores of numbers: one operation at a time, from every state, against a reference that
    also knows about the one state in which the code loses a write. */
module KvedNumbers {
  import opened KvedWord
  import opened KvedFlash
  import opened KvedIndex
  import opened KvedStore
  import opened KvedInvariant
  import opened KvedSwitch
  import opened KvedOps
  import opened KvedMap
  import opened KvedBoot
  import opened KvedCrash
  import opened KvedPower
  import opened KvedRuns

  predicate NumbersOnly(c: Config, s: seq<Slot>) { Kinds(c, s, {}) }

  predicate NumFlash(c: Config, f: Flash) { KindFlash(c, f, {}) }

  predicate NumOp(c: Config, op: Op) { op.PutOp? ==> DataOk(c, op.d) && op.d.value.Num? }

  predicate NumOps(c: Config, ops: seq<Op>) {
    forall i :: 0 <= i < |ops| ==> NumOp(c, ops[i])
  }

  /** The values of a store of numbers, as its flash words give them. */
  function NumValues(m: map<nat, Slot>): map<nat, Value> { map l | l in m :: Num(m[l].val) }

  function Raw(c: Config, st: State): map<nat, Slot> { RawMap(c.sig, st.Slots()) }

  lemma NumbersAll(c: Config, s: seq<Slot>)
    ensures Numbers(c, s, {}) == RawMap(c.sig, s)
  {
  }

  lemma NumbersContents(c: Config, st: State)
    requires NumbersOnly(c, st.Slots())
    ensures Values(Contents(c, st)) == NumValues(Raw(c, st))
  {
    var m := Raw(c, st);
    forall l | l in m
      ensures !IsString(m[l].key)
    {
      var i := RawMapWitness(c.sig, st.Slots(), l);
    }
  }

  lemma {:induction false} NoTextsPacked(c: Config, s: seq<Slot>, u: Update, sec: StrSector)
    requires NumbersOnly(c, s)
    ensures PackedTexts(c, s, u, sec) == []
  {
    if s != [] {
      var t := s[..|s| - 1];
      assert forall i :: 0 <= i < |t| ==> t[i] == s[i];
      NoTextsPacked(c, t, u, sec);
    }
  }

  lemma NumbersCopyOk(c: Config, st: State, u: Update)
    requires IndexInv(c, st) && NumbersOnly(c, st.Slots())
    ensures CopyOk(c, st, u)
  {
    NoTextsPacked(c, st.Slots(), u, st.Strings());
  }

  lemma NumPutReady(c: Config, st: State, d: Data)
    requires IndexInv(c, st) && NumbersOnly(c, st.Slots()) && DataOk(c, d) && d.value.Num?
    ensures PutReady(c, st, d, {}) && SameKind(c, st, d) && SwitchReady(c, st, d)
  {
    hide IndexInv, Kinds, Contents, CopyOk;
    NumbersCopyOk(c, st, PutUpdate(d));
    KindsSameKind(c, st, d, {});
  }

  // ------------------------------------------------------------ power cuts

  lemma NumStepSafe(c: Config, st: State, op: Op)
    requires IndexInv(c, st) && NumbersOnly(c, st.Slots()) && NumOp(c, op)
    ensures var r := OpState(c, st, op);
      && IndexInv(c, r) && NumbersOnly(c, r.Slots())
      && Safe(c, st.flash, OpPlan(c, st, op).steps, {}, Raw(c, st), Raw(c, r))
  {
    hide IndexInv, Kinds, Healthy, RawMap, SafeAt, Safe, PutPlan, DeletePlan, SwitchPlan, DataOk, Numbers, PutReady, Run, CopyOk;
    NumbersAll(c, st.Slots());
    NumbersAll(c, OpState(c, st, op).Slots());
    match op {
      case PutOp(d) =>
        NumPutReady(c, st, d);
        PutSafe(c, st, d, {});
        NumPutKeeps(c, st, d);
      case GetOp(key) =>
        RunNone(st.flash);
        assert OpState(c, st, op) == st;
        IntactSafe(c, st, {}, Raw(c, st), Raw(c, st));
        SafeNone(c, st.flash, {}, Raw(c, st), Raw(c, st));
      case DeleteOp(key) =>
        DeleteIndex(c, st, key);
        DeleteSafe(c, st, key, {});
      case CompactOp =>
        NumbersCopyOk(c, st, Update(Label(c.sig), Num(0)));
        CompactSafe(c, st, {});
    }
  }

  lemma NumPutKeeps(c: Config, st: State, d: Data)
    requires PutReady(c, st, d, {})
    ensures IndexInv(c, Exec(st, PutPlan(c, st, d)))
    ensures Stale(c, Exec(st, PutPlan(c, st, d))) <==> Stale(c, st) && !Writes(c, st, d)
  {
    hide IndexInv, Kinds, PutPlan, CopyOk, Stale, Writes;
    PutStale(c, st, d);
  }

  // --------------------------------------------------------- the reference

  /** The plain map, and whether the next write that changes something is going to be lost. */
  datatype Ref = Ref(m: map<nat, Value>, stale: bool)

  /** A write that changes something is stored, or, in the stale state, takes its label out of
      the map; either way the next one is stored.  Compaction repairs, the rest leaves as is. */
  function RefState(c: Config, r: Ref, op: Op): Ref {
    match op
    case PutOp(d) =>
      if MapPut(c, r.m, d) != Ok || (Label(d.key) in r.m && r.m[Label(d.key)] == d.value) then r
      else if r.stale then Ref(r.m - {Label(d.key)}, false)
      else Ref(r.m[Label(d.key) := d.value], false)
    case GetOp(_) => r
    case DeleteOp(key) => Ref(if IsValidKey(c.sig, key) then r.m - {Label(key)} else r.m, r.stale)
    case CompactOp => Ref(r.m, false)
  }

  function RefAfter(c: Config, r: Ref, ops: seq<Op>): Ref {
    if ops == [] then r else RefState(c, RefAfter(c, r, ops[..|ops| - 1]), ops[|ops| - 1])
  }

  function RefResponses(c: Config, r: Ref, ops: seq<Op>): seq<Response> {
    if ops == [] then []
    else
      var front := ops[..|ops| - 1];
      RefResponses(c, r, front) + [MapResponse(c, RefAfter(c, r, front).m, ops[|ops| - 1])]
  }

  function RefOf(c: Config, st: State): Ref { Ref(NumValues(Raw(c, st)), Stale(c, st)) }

  /** Unless it starts stale, or compacts first, the reference is the plain map. */
  lemma {:induction false} RefIsMap(c: Config, r: Ref, ops: seq<Op>)
    requires r.stale ==> ops == [] || ops[0].CompactOp?
    ensures RefAfter(c, r, ops).m == MapAfter(c, r.m, ops) && (ops != [] ==> !RefAfter(c, r, ops).stale)
  {
    if ops != [] {
      RefIsMap(c, r, ops[..|ops| - 1]);
      var d, m := ops[|ops| - 1], MapAfter(c, r.m, ops[..|ops| - 1]);
      if d.PutOp? && Label(d.d.key) in m && m[Label(d.d.key)] == d.d.value {
        assert m[Label(d.d.key) := d.d.value] == m;
      }
    }
  }

  lemma NumPutRef(c: Config, st: State, d: Data)
    requires IndexInv(c, st) && NumbersOnly(c, st.Slots()) && DataOk(c, d) && d.value.Num?
    ensures var r := Exec(st, PutPlan(c, st, d));
      && PutPlan(c, st, d).res == MapPut(c, Values(Contents(c, st)), d)
      && Ref(Values(Contents(c, r)), Stale(c, r)) == RefState(c, Ref(Values(Contents(c, st)), Stale(c, st)), PutOp(d))
  {
    hide IndexInv, Kinds, Healthy, PutPlan, Contents, Stale, PutReady, CopyOk;
    NumPutReady(c, st, d);
    NumPutKeeps(c, st, d);
    PutNumber(c, st, d);
    FullIsFull(c, st, d);
    WritesIs(c, st, d);
    PutContentsIs(c, st, d);
  }

  lemma WritesIs(c: Config, st: State, d: Data)
    requires IndexInv(c, st) && SameKind(c, st, d)
    ensures Writes(c, st, d) <==> PutOutcome(c, st, d) == Ok && Changes(c, st, d)
  {
    hide Contents;
    if IsValidKey(c.sig, d.key) {
      UnchangedIs(c, st, d);
    }
  }

  lemma PutContentsIs(c: Config, st: State, d: Data)
    ensures var m, l := Values(Contents(c, st)), Label(d.key);
      && (Changes(c, st, d) <==> !(l in m && m[l] == d.value))
      && Values(PutContents(c, st, d)) == if !Changes(c, st, d) then m else if Stale(c, st) then m - {l} else m[l := d.value]
  {
    hide Stale;
    var m := Contents(c, st);
    hide Contents;
    assert Values(m - {Label(d.key)}) == Values(m) - {Label(d.key)};
  }

  lemma NumDeleteValues(c: Config, st: State, key: Word)
    requires IndexInv(c, st)
    ensures var r := Exec(st, DeletePlan(c, st, key));
      && RefOf(c, r) == RefState(c, RefOf(c, st), DeleteOp(key))
      && Code(DeletePlan(c, st, key).res) == MapResponse(c, NumValues(Raw(c, st)), DeleteOp(key))
  {
    hide IndexInv, DeletePlan, RawMap, Stale;
    DeleteIndex(c, st, key);
    var m := Raw(c, st);
    assert m - {} == m;
    assert NumValues(m - {Label(key)}) == NumValues(m) - {Label(key)};
  }

  /** A number store, whatever state it is in, answers each operation like the reference and
      follows it. */
  lemma NumStepRef(c: Config, st: State, op: Op)
    requires IndexInv(c, st) && NumbersOnly(c, st.Slots()) && NumOp(c, op)
    ensures RefOf(c, OpState(c, st, op)) == RefState(c, RefOf(c, st), op)
    ensures OpResponse(c, st, op) == MapResponse(c, RefOf(c, st).m, op)
  {
    hide IndexInv, Kinds, Healthy, RawMap, PutPlan, DeletePlan, SwitchPlan, DataOk, Contents, NumValues, Values, Stale, Safe, Run;
    NumStepSafe(c, st, op);
    NumbersContents(c, st);
    NumbersContents(c, OpState(c, st, op));
    match op {
      case PutOp(d) =>
        NumPutRef(c, st, d);
      case GetOp(key) =>
        RunNone(st.flash);
        assert OpState(c, st, op) == st;
        ResponseIs(c, st, op);
      case DeleteOp(key) =>
        NumDeleteValues(c, st, key);
      case CompactOp =>
        NumCompactRef(c, st);
    }
  }

  lemma NumCompactRef(c: Config, st: State)
    requires IndexInv(c, st) && NumbersOnly(c, st.Slots())
    ensures var r := Exec(st, CompactPlan(c, st));
      CompactPlan(c, st).res == Ok && Raw(c, r) == Raw(c, st) && !Stale(c, r)
  {
    hide IndexInv, Kinds, Healthy, RawMap, SwitchPlan, Safe, Numbers, CopyOk, Run, SwitchedCtrl;
    var u := Update(Label(c.sig), Num(0));
    NumbersCopyOk(c, st, u);
    SwitchExec(c, st, u);
    CompactSafe(c, st, {});
    NumbersAll(c, st.Slots());
    NumbersAll(c, Exec(st, CompactPlan(c, st)).Slots());
    NotStale(c, Exec(st, CompactPlan(c, st)));
  }
}
