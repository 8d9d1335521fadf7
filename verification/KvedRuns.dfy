/** Whole runs: within a session the store answers like a plain map, for every kind of value. */
module KvedRuns {
  import opened Options
  import opened KvedWord
  import opened KvedFlash
  import opened KvedIndex
  import opened KvedStrings
  import opened KvedStore
  import opened KvedInvariant
  import opened KvedOps
  import opened KvedMap
  import opened KvedText
  import opened KvedBoot
  import opened KvedPower

  datatype Op = PutOp(d: Data) | GetOp(key: Word) | DeleteOp(key: Word) | CompactOp

  datatype Response = Code(res: Outcome) | Got(value: Option<Value>)

  function OpPlan(c: Config, st: State, op: Op): Plan {
    match op
    case PutOp(d) => PutPlan(c, st, d)
    case GetOp(_) => Plan([], st.ctrl, Ok)
    case DeleteOp(key) => DeletePlan(c, st, key)
    case CompactOp => CompactPlan(c, st)
  }

  function OpResponse(c: Config, st: State, op: Op): Response {
    match op
    case GetOp(key) =>
      (match Get(c, st, key) case None => Got(None) case Some(d) => Got(Some(d.value)))
    case _ => Code(OpPlan(c, st, op).res)
  }

  function OpState(c: Config, st: State, op: Op): State { Exec(st, OpPlan(c, st, op)) }

  function After(c: Config, st: State, ops: seq<Op>): State {
    if ops == [] then st else OpState(c, After(c, st, ops[..|ops| - 1]), ops[|ops| - 1])
  }

  function Responses(c: Config, st: State, ops: seq<Op>): seq<Response> {
    if ops == [] then []
    else
      var front := ops[..|ops| - 1];
      Responses(c, st, front) + [OpResponse(c, After(c, st, front), ops[|ops| - 1])]
  }

  // -------------------------------------------------------------- the plain map

  /** The reference: a map from label to value with room for `n` entries. */
  function MapState(c: Config, m: map<nat, Value>, op: Op): map<nat, Value> {
    match op
    case PutOp(d) => if MapPut(c, m, d) == Ok then m[Label(d.key) := d.value] else m
    case GetOp(_) => m
    case DeleteOp(key) => if IsValidKey(c.sig, key) then m - {Label(key)} else m
    case CompactOp => m
  }

  function MapPut(c: Config, m: map<nat, Value>, d: Data): Outcome {
    if !IsValidKey(c.sig, d.key) then InvalidKey
    else if Label(d.key) in m && m[Label(d.key)] == d.value then Ok
    else if |m| == c.d.n then TableFull
    else Ok
  }

  function MapResponse(c: Config, m: map<nat, Value>, op: Op): Response {
    match op
    case PutOp(d) => Code(MapPut(c, m, d))
    case GetOp(key) =>
      Got(if IsValidKey(c.sig, key) && Label(key) in m then Some(m[Label(key)]) else None)
    case DeleteOp(key) => Code(if IsValidKey(c.sig, key) && Label(key) in m then Ok else InvalidKey)
    case CompactOp => Code(Ok)
  }

  function MapAfter(c: Config, m: map<nat, Value>, ops: seq<Op>): map<nat, Value> {
    if ops == [] then m else MapState(c, MapAfter(c, m, ops[..|ops| - 1]), ops[|ops| - 1])
  }

  function MapResponses(c: Config, m: map<nat, Value>, ops: seq<Op>): seq<Response> {
    if ops == [] then []
    else
      var front := ops[..|ops| - 1];
      MapResponses(c, m, front) + [MapResponse(c, MapAfter(c, m, front), ops[|ops| - 1])]
  }

  function Values(m: map<nat, Data>): map<nat, Value> { map l | l in m :: m[l].value }

  // ------------------------------------------------------------ one operation

  lemma ContentsSize(c: Config, st: State)
    requires IndexInv(c, st)
    ensures |Values(Contents(c, st))| == LiveCount(c.sig, st.Slots())
  {
    MapSize(c.sig, st.Slots());
    var m := RawMap(c.sig, st.Slots());
    assert Values(Contents(c, st)).Keys == m.Keys;
    assert |Values(Contents(c, st))| == |Values(Contents(c, st)).Keys| == |m.Keys|;
  }

  /** Refused as full exactly when the map would be refused: every slot holds a live key.
      The counters may be one off after a lost write, but then a tombstone is left. */
  lemma FullIsFull(c: Config, st: State, d: Data)
    requires IndexInv(c, st)
    ensures PutOutcome(c, st, d) == MapPut(c, Values(Contents(c, st)), d)
  {
    ContentsSize(c, st);
    UsedIs(c, st);
    CountsAddUp(c.sig, st.Slots());
    FreeCountIs(st.Slots());
    assert |st.Slots()| == c.d.n;
  }

  lemma PutValues(c: Config, st: State, d: Data)
    requires !Stale(c, st) && PutOutcome(c, st, d) == Ok
    ensures Values(PutContents(c, st, d)) == Values(Contents(c, st))[Label(d.key) := d.value]
  {
  }

  /** What an operation needs from its caller: string values that fit, keys that do not
      change between string and number, and room for the string. */
  predicate OpOk(c: Config, st: State, op: Op) {
    op.PutOp? ==> DataOk(c, op.d) && SameKind(c, st, op.d) && Room(c, st, op.d)
  }

  lemma ResponseIs(c: Config, st: State, op: Op)
    requires IndexInv(c, st) && op.GetOp?
    ensures OpResponse(c, st, op) == MapResponse(c, Values(Contents(c, st)), op)
  {
    GetIsLookup(c, st, op.key);
  }

  /** The state the code keeps up with: anything but the one in which the free index is stale. */
  ghost predicate Sound(c: Config, st: State, texts: seq<Text>) {
    IndexInv(c, st) && !Stale(c, st) && StrInv(c, st, texts)
  }

  lemma OpRefines(c: Config, st: State, op: Op, texts: seq<Text>) returns (texts': seq<Text>)
    requires Sound(c, st, texts) && OpOk(c, st, op)
    ensures var r, m := OpState(c, st, op), Values(Contents(c, st));
      && Sound(c, r, texts') && (Healthy(c, st) ==> Healthy(c, r))
      && OpResponse(c, st, op) == MapResponse(c, m, op)
      && Values(Contents(c, r)) == MapState(c, m, op)
  {
    hide IndexInv, Healthy, Stale, StrInv, Contents, Changes, Room, SameKind, DataOk, PutPlan, DeletePlan, SwitchPlan, Get;
    texts' := texts;
    match op {
      case PutOp(d) =>
        texts' := PutRefines(c, st, d, texts);
        FullIsFull(c, st, d);
        if PutOutcome(c, st, d) == Ok {
          PutValues(c, st, d);
        }
      case GetOp(key) =>
        ResponseIs(c, st, op);
        assert OpState(c, st, op) == st;
      case DeleteOp(key) =>
        DeleteRefines(c, st, key, texts);
      case CompactOp =>
        texts' := CompactRefines(c, st, texts);
        NotStale(c, OpState(c, st, op));
    }
  }

  // ------------------------------------------------------------------ sessions

  predicate RunOk(c: Config, st: State, ops: seq<Op>) {
    ops == [] ||
    (RunOk(c, st, ops[..|ops| - 1]) && OpOk(c, After(c, st, ops[..|ops| - 1]), ops[|ops| - 1]))
  }

  /** Run refinement: every sequence of operations, strings included, answers like the plain
      map and leaves a store that stands for it. */
  lemma {:induction false} RunRefines(c: Config, st: State, ops: seq<Op>, texts: seq<Text>) returns (texts': seq<Text>)
    requires Sound(c, st, texts) && RunOk(c, st, ops)
    ensures var r, m := After(c, st, ops), Values(Contents(c, st));
      && Sound(c, r, texts') && (Healthy(c, st) ==> Healthy(c, r))
      && Responses(c, st, ops) == MapResponses(c, m, ops)
      && Values(Contents(c, r)) == MapAfter(c, m, ops)
  {
    hide Sound, Healthy, Contents, OpOk, OpState, OpResponse, MapResponse, MapState;
    if ops == [] {
      texts' := texts;
    } else {
      var front := ops[..|ops| - 1];
      var texts1 := RunRefines(c, st, front, texts);
      texts' := OpRefines(c, After(c, st, front), ops[|ops| - 1], texts1);
    }
  }

  // ------------------------------------------------------------- stored types

  /** The key word that a write stores is the caller's, type and size included, if and only
      if the entry is not kept by the unchanged test and does not move with a sector switch
      under another key word. */
  lemma StoredKey(c: Config, st: State, d: Data, texts: seq<Text>) returns (texts': seq<Text>)
    requires Sound(c, st, texts) && OpOk(c, st, PutOp(d)) && PutOutcome(c, st, d) == Ok
    ensures var m, r, l := Contents(c, st), Exec(st, PutPlan(c, st, d)), Label(d.key);
      && PutPlan(c, st, d).res == Ok
      && Sound(c, r, texts') && l in Contents(c, r) && Contents(c, r)[l].value == d.value
      && (Contents(c, r)[l].key == d.key <==>
            !(l in m && m[l].key != d.key && (m[l].value == d.value || st.ctrl.free == 0)))
      && (Contents(c, r)[l].key != d.key ==> Contents(c, r)[l].key == m[l].key)
  {
    hide IndexInv, Healthy, Stale, StrInv, Contents, Room, SameKind, DataOk, PutPlan;
    texts' := PutRefines(c, st, d, texts);
  }

  /** It does happen: on a store that holds nothing, write a number under one type and then
      the same number under another.  Both writes succeed, and the first type is read back. */
  lemma TypeIsKept(c: Config, st: State, d: Data, d': Data, texts: seq<Text>)
    requires Sound(c, st, texts) && Contents(c, st) == map[] && c.d.n > 0
    requires DataOk(c, d) && DataOk(c, d') && d.value.Num? && d'.value == d.value
    requires IsValidKey(c.sig, d.key) && IsValidKey(c.sig, d'.key) && Label(d'.key) == Label(d.key) && d'.key != d.key
    ensures var ops := [PutOp(d), PutOp(d')];
      Responses(c, st, ops) == [Code(Ok), Code(Ok)] && Get(c, After(c, st, ops), d'.key) == Some(d)
  {
    hide IndexInv, StrInv, PutPlan, Stale, Healthy, IsValidKey, Label, DataOk, Get;
    var ops := [PutOp(d), PutOp(d')];
    FullIsFull(c, st, d);
    var texts1 := StoredKey(c, st, d, texts);
    var st1 := OpState(c, st, PutOp(d));
    assert Values(Contents(c, st)) == map[];
    FullIsFull(c, st1, d');
    var texts2 := StoredKey(c, st1, d', texts1);
    GetIsLookup(c, OpState(c, st1, PutOp(d')), d'.key);
    TwoOps(c, st, PutOp(d), PutOp(d'));
  }

  lemma TwoOps(c: Config, st: State, x: Op, y: Op)
    ensures After(c, st, [x, y]) == OpState(c, OpState(c, st, x), y)
    ensures Responses(c, st, [x, y]) == [OpResponse(c, st, x), OpResponse(c, OpState(c, st, x), y)]
  {
    hide OpState, OpResponse;
    assert [x, y][..1] == [x] && [x][..0] == [];
    assert After(c, st, [x]) == OpState(c, st, x) && Responses(c, st, [x]) == [OpResponse(c, st, x)];
  }

  // -------------------------------------------------------------- typed answers

  /** The key word of an entry never changes.  Then the stored type is the caller's too. */
  predicate KeepsKey(c: Config, st: State, op: Op) {
    op.PutOp? && Label(op.d.key) in Contents(c, st) ==> Contents(c, st)[Label(op.d.key)].key == op.d.key
  }

  predicate RunKeepsKeys(c: Config, st: State, ops: seq<Op>) {
    ops == [] ||
    (RunKeepsKeys(c, st, ops[..|ops| - 1]) && KeepsKey(c, After(c, st, ops[..|ops| - 1]), ops[|ops| - 1]))
  }

  /** The reference with types: what was last put under a label is what is found there. */
  function DataState(c: Config, m: map<nat, Data>, op: Op): map<nat, Data> {
    match op
    case PutOp(d) => if MapPut(c, Values(m), d) == Ok then m[Label(d.key) := d] else m
    case GetOp(_) => m
    case DeleteOp(key) => if IsValidKey(c.sig, key) then m - {Label(key)} else m
    case CompactOp => m
  }

  function Found(c: Config, m: map<nat, Data>, key: Word): Option<Data> {
    if IsValidKey(c.sig, key) && Label(key) in m then Some(m[Label(key)]) else None
  }

  function DataAfter(c: Config, m: map<nat, Data>, ops: seq<Op>): map<nat, Data> {
    if ops == [] then m else DataState(c, DataAfter(c, m, ops[..|ops| - 1]), ops[|ops| - 1])
  }

  lemma OpRefinesTyped(c: Config, st: State, op: Op, texts: seq<Text>) returns (texts': seq<Text>)
    requires Sound(c, st, texts) && OpOk(c, st, op) && KeepsKey(c, st, op)
    ensures var r := OpState(c, st, op);
      && Sound(c, r, texts') && (Healthy(c, st) ==> Healthy(c, r))
      && OpResponse(c, st, op) == MapResponse(c, Values(Contents(c, st)), op)
      && Contents(c, r) == DataState(c, Contents(c, st), op)
  {
    hide Sound, Healthy, Contents, OpOk, KeepsKey, OpState, OpResponse, MapResponse, MapState, DataState;
    texts' := OpRefines(c, st, op, texts);
    OpData(c, st, op, texts);
  }

  lemma OpData(c: Config, st: State, op: Op, texts: seq<Text>)
    requires Sound(c, st, texts) && OpOk(c, st, op) && KeepsKey(c, st, op)
    ensures Contents(c, OpState(c, st, op)) == DataState(c, Contents(c, st), op)
  {
    hide IndexInv, Healthy, Stale, StrInv, Contents, Room, SameKind, DataOk, PutPlan, DeletePlan, SwitchPlan, PutContents, PutOutcome, MapPut;
    match op {
      case PutOp(d) =>
        var _ := PutRefines(c, st, d, texts);
        FullIsFull(c, st, d);
        if PutOutcome(c, st, d) == Ok {
          PutData(c, st, d);
        }
      case GetOp(key) =>
        assert OpState(c, st, op) == st;
      case DeleteOp(key) =>
        DeleteRefines(c, st, key, texts);
        assert Contents(c, st) - {} == Contents(c, st);
      case CompactOp =>
        var _ := CompactRefines(c, st, texts);
    }
  }

  lemma PutData(c: Config, st: State, d: Data)
    requires !Stale(c, st) && PutOutcome(c, st, d) == Ok && KeepsKey(c, st, PutOp(d))
    ensures PutContents(c, st, d) == Contents(c, st)[Label(d.key) := d]
  {
    hide Contents, Stale;
  }

  /** Run refinement with types: in a run that keeps key words, every key finds the very
      data, key word and value, that was last put under it. */
  lemma {:induction false} RunRefinesTyped(c: Config, st: State, ops: seq<Op>, texts: seq<Text>) returns (texts': seq<Text>)
    requires Sound(c, st, texts) && RunOk(c, st, ops) && RunKeepsKeys(c, st, ops)
    ensures var r := After(c, st, ops);
      && Sound(c, r, texts') && (Healthy(c, st) ==> Healthy(c, r))
      && Contents(c, r) == DataAfter(c, Contents(c, st), ops)
      && forall key: Word :: Get(c, r, key) == Found(c, DataAfter(c, Contents(c, st), ops), key)
  {
    hide Healthy, Contents, OpOk, KeepsKey, OpState, DataState, Get, IndexInv, Stale, StrInv, IsValidKey, Label;
    if ops == [] {
      texts' := texts;
    } else {
      var front := ops[..|ops| - 1];
      var texts1 := RunRefinesTyped(c, st, front, texts);
      texts' := OpRefinesTyped(c, After(c, st, front), ops[|ops| - 1], texts1);
    }
    forall key: Word
      ensures Get(c, After(c, st, ops), key) == Found(c, DataAfter(c, Contents(c, st), ops), key)
    {
      GetIsLookup(c, After(c, st, ops), key);
    }
  }

  /** Flash that no store was ever built on. */
  predicate Blank(c: Config, f: Flash) {
    && c.Valid() && Geometry(f, c.d.n, c.d.bytes)
    && f.a.sig != c.sig && f.b.sig != c.sig && !StrSigned(c, f.strA) && !StrSigned(c, f.strB)
  }

  /** Formatting such a flash gives an empty healthy store. */
  lemma FreshStore(c: Config, f: Flash)
    requires Blank(c, f)
    ensures var st := Booted(c, f);
      Sound(c, st, []) && Healthy(c, st) && Contents(c, st) == map[]
  {
    var st := Booted(c, f);
    UnsignedSafe(c, f, {});
    EmptyMap(c, c.d.n, {});
    BootRecovers(c, f);
    BootSlots(c, f);
    OpenedState(c, f);
    FreshStrings(c, f);
  }

  /** The kept type on a freshly formatted store: the number 5 under the key "A", first with
      type 0 and size 1, then with type 1 and size 1, is read back with type 0. */
  lemma TypeIsKeptFresh(c: Config, f: Flash)
    requires Blank(c, f) && c.d.n > 0 && Label(c.sig) != 0x41_0000_0000_0000
    ensures var d, d' := Data(0x4100_0000_0000_0001, Num(5)), Data(0x4100_0000_0000_0011, Num(5));
      var ops := [PutOp(d), PutOp(d')];
      && Responses(c, Booted(c, f), ops) == [Code(Ok), Code(Ok)]
      && Get(c, After(c, Booted(c, f), ops), d'.key) == Some(d)
  {
    hide Blank, Sound, Contents, Booted, Responses, After, Get;
    var d, d' := Data(0x4100_0000_0000_0001, Num(5)), Data(0x4100_0000_0000_0011, Num(5));
    FreshStore(c, f);
    TypeIsKept(c, Booted(c, f), d, d', []);
  }

  lemma FreshStrings(c: Config, f: Flash)
    requires Blank(c, f) && FlashOk(c, f)
    ensures StrInv(c, Booted(c, f), [])
  {
    hide RawMap, KeysOk;
    var st, s := Booted(c, f), FreeSlots(c.d.n);
    OpenedState(c, f);
    BootExec(c, f);
    BootSlots(c, f);
    BootRecovers(c, f);
    FirstFreeOfTable(c.strSig, c.strEnd, [], c.d);
    assert WinnerSlots(c, f) == s;
    FreshNotHalf(c.d.n);
    NoRefs(c, c.d.n);
  }

  lemma FreshNotHalf(n: nat)
    ensures !HasHalfWritten(FreeSlots(n)) && Boundary(FreeSlots(n)) == 0
  {
    BoundaryIs(FreeSlots(n), 0);
  }

  lemma NoRefs(c: Config, n: nat)
    ensures Swept(c.sig, FreeSlots(n), n) == FreeSlots(n)
    ensures Refs(c, FreeSlots(n), 0)
  {
    forall i | 0 <= i < n {
      DeletedIsDead(c.sig, FreeSlots(n)[i]);
    }
    SweptClean(c.sig, FreeSlots(n));
  }
}
