/** Sessions cut short by power loss, any number of them, and the one state in which the
    code does lose a write. */
module KvedSessions {
  import opened KvedWord
  import opened KvedFlash
  import opened KvedIndex
  import opened KvedStore
  import opened KvedInvariant
  import opened KvedOps
  import opened KvedMap
  import opened KvedBoot
  import opened KvedCrash
  import opened KvedPower
  import opened KvedRuns
  import opened KvedNumbers

  // ------------------------------------------------------------- one session

  function OpsSteps(c: Config, st: State, ops: seq<Op>): seq<Step> {
    if ops == [] then []
    else
      var front := ops[..|ops| - 1];
      OpsSteps(c, st, front) + OpPlan(c, After(c, st, front), ops[|ops| - 1]).steps
  }

  /** A session that is not cut, from every state: answers and outcome are the reference's. */
  lemma {:induction false} NumRun(c: Config, st: State, ops: seq<Op>)
    requires IndexInv(c, st) && NumbersOnly(c, st.Slots()) && NumOps(c, ops)
    ensures var r := After(c, st, ops);
      && IndexInv(c, r) && NumbersOnly(c, r.Slots())
      && r.flash == Run(st.flash, OpsSteps(c, st, ops))
      && RefOf(c, r) == RefAfter(c, RefOf(c, st), ops)
      && Responses(c, st, ops) == RefResponses(c, RefOf(c, st), ops)
  {
    hide IndexInv, NumbersOnly, RefOf, OpPlan, NumOp, RefState, OpResponse, MapResponse, Safe;
    if ops != [] {
      var front, op := ops[..|ops| - 1], ops[|ops| - 1];
      assert forall i :: 0 <= i < |front| ==> front[i] == ops[i];
      NumRun(c, st, front);
      var t := After(c, st, front);
      NumStepSafe(c, t, op);
      RunConcat(st.flash, OpsSteps(c, st, front), OpPlan(c, t, op).steps);
      NumStepRef(c, t, op);
    }
  }

  lemma SessionSnoc(c: Config, st: State, ops: seq<Op>)
    ensures ops == [] ==> OpsSteps(c, st, ops) == [] && After(c, st, ops) == st
    ensures ops != [] ==>
      var front, op := ops[..|ops| - 1], ops[|ops| - 1];
      && OpsSteps(c, st, ops) == OpsSteps(c, st, front) + OpPlan(c, After(c, st, front), op).steps
      && After(c, st, ops) == OpState(c, After(c, st, front), op)
  {
  }

  /** The first `j` operations are those that count when `k` flash steps were done: every
      operation whose last step was done is among them, and none that had not begun. */
  predicate CountsAt(c: Config, st: State, ops: seq<Op>, k: nat, j: nat) {
    && j <= |ops|
    && (j < |ops| ==> k < |OpsSteps(c, st, ops[..j + 1])|)
    && (j > 0 ==> |OpsSteps(c, st, ops[..j - 1])| <= k)
  }

  /** Power fails after `k` flash steps of a session.  What boots next is the map after
      the first `j` operations. */
  lemma {:induction false} SessionCut(c: Config, st: State, ops: seq<Op>, k: nat) returns (j: nat)
    requires IndexInv(c, st) && NumbersOnly(c, st.Slots()) && NumOps(c, ops)
    requires k <= |OpsSteps(c, st, ops)|
    ensures CountsAt(c, st, ops, k, j)
    ensures NumFlash(c, Run(st.flash, OpsSteps(c, st, ops)[..k]))
    ensures BootMap(c, Run(st.flash, OpsSteps(c, st, ops)[..k])) == Raw(c, After(c, st, ops[..j]))
  {
    hide IndexInv, NumbersOnly, RawMap, OpPlan, NumOp, NumFlash, BootMap, After, OpsSteps, Run, NumOps;
    var steps := OpsSteps(c, st, ops);
    if k == |steps| {
      j := |ops|;
      NumRun(c, st, ops);
      IntactBoots(c, After(c, st, ops));
      assert steps[..k] == steps && ops[..j] == ops;
      if ops != [] {
        StepsGrow(c, st, ops);
      }
    } else {
      SessionSnoc(c, st, ops);
      if k >= |OpsSteps(c, st, ops[..|ops| - 1])| {
        j := SessionCutLast(c, st, ops, k);
      } else {
        var front := ops[..|ops| - 1];
        FrontOps(c, ops);
        j := SessionCut(c, st, front, k);
        assert steps[..k] == OpsSteps(c, st, front)[..k];
        assert front[..j] == ops[..j];
        assert j < |front| ==> front[..j + 1] == ops[..j + 1];
        assert j > 0 ==> front[..j - 1] == ops[..j - 1];
        assert j == |front| ==> ops[..j + 1] == ops;
      }
    }
  }

  lemma FrontOps(c: Config, ops: seq<Op>)
    requires NumOps(c, ops) && ops != []
    ensures NumOps(c, ops[..|ops| - 1])
  {
  }

  lemma LastOp(c: Config, ops: seq<Op>)
    requires NumOps(c, ops) && ops != []
    ensures NumOp(c, ops[|ops| - 1])
  {
  }

  /** The cut falls inside the last operation. */
  lemma SessionCutLast(c: Config, st: State, ops: seq<Op>, k: nat) returns (j: nat)
    requires IndexInv(c, st) && NumbersOnly(c, st.Slots()) && NumOps(c, ops) && ops != []
    requires |OpsSteps(c, st, ops[..|ops| - 1])| <= k < |OpsSteps(c, st, ops)|
    ensures CountsAt(c, st, ops, k, j)
    ensures NumFlash(c, Run(st.flash, OpsSteps(c, st, ops)[..k]))
    ensures BootMap(c, Run(st.flash, OpsSteps(c, st, ops)[..k])) == Raw(c, After(c, st, ops[..j]))
  {
    hide IndexInv, NumbersOnly, RawMap, OpPlan, NumOp, NumFlash, BootMap, After, OpsSteps, Run, NumOps, Safe;
    SessionSnoc(c, st, ops);
    FrontOps(c, ops);
    LastOp(c, ops);
    var front, op, steps := ops[..|ops| - 1], ops[|ops| - 1], OpsSteps(c, st, ops);
    var first, t := OpsSteps(c, st, front), After(c, st, front);
    NumRun(c, st, front);
    NumStepSafe(c, t, op);
    var more, i := OpPlan(c, t, op).steps, k - |first|;
    assert steps[..k] == first + more[..i];
    RunConcat(st.flash, first, more[..i]);
    CutIs(c, t.flash, more, i, Raw(c, t), Raw(c, OpState(c, t, op)));
    assert ops[..|ops|] == ops && ops[..|front|] == front;
    if BootMap(c, Run(t.flash, more[..i])) == Raw(c, t) {
      j := |front|;
      if j > 0 {
        StepsGrow(c, st, front);
        assert ops[..j - 1] == front[..j - 1];
      }
    } else {
      j := |ops|;
    }
  }

  lemma CutIs(c: Config, f: Flash, steps: seq<Step>, i: nat, m0: map<nat, Slot>, m1: map<nat, Slot>)
    requires Safe(c, f, steps, {}, m0, m1) && i <= |steps|
    ensures NumFlash(c, Run(f, steps[..i]))
    ensures BootMap(c, Run(f, steps[..i])) == m0 || BootMap(c, Run(f, steps[..i])) == m1
  {
    assert SafeAt(c, Run(f, steps[..i]), {}, m0, m1);
    NumbersAll(c, WinnerSlots(c, Run(f, steps[..i])));
  }

  lemma StepsGrow(c: Config, st: State, ops: seq<Op>)
    requires ops != []
    ensures |OpsSteps(c, st, ops[..|ops| - 1])| <= |OpsSteps(c, st, ops)|
  {
  }

  lemma IntactBoots(c: Config, st: State)
    requires IndexInv(c, st) && NumbersOnly(c, st.Slots())
    ensures NumFlash(c, st.flash) && BootMap(c, st.flash) == Raw(c, st)
  {
    NumbersAll(c, st.Slots());
    IntactSafe(c, st, {}, Raw(c, st), Raw(c, st));
    SafeMeans(c, st.flash, Raw(c, st));
  }

  // ------------------------------------------------------------ many sessions

  /** Boot, then operations, then the power goes after `cut` flash steps, or later. */
  datatype Session = Session(ops: seq<Op>, cut: nat)

  function SessionSteps(c: Config, f: Flash, ops: seq<Op>): seq<Step> {
    BootPlan(c, f).steps + OpsSteps(c, Booted(c, f), ops)
  }

  function AfterSession(c: Config, f: Flash, s: Session): Flash {
    var steps := SessionSteps(c, f, s.ops);
    Run(f, steps[..if s.cut < |steps| then s.cut else |steps|])
  }

  /** The first `j` operations are those that count in a session: all those whose last flash
      step lies before the cut, and none that had not begun. */
  predicate Durable(c: Config, f: Flash, s: Session, j: nat) {
    && j <= |s.ops|
    && (j < |s.ops| ==> s.cut < |SessionSteps(c, f, s.ops[..j + 1])|)
    && (j > 0 ==> |SessionSteps(c, f, s.ops[..j - 1])| <= s.cut)
  }

  lemma {:induction false} StepsMonotone(c: Config, st: State, ops: seq<Op>, i: nat, j: nat)
    requires i <= j <= |ops|
    ensures |OpsSteps(c, st, ops[..i])| <= |OpsSteps(c, st, ops[..j])|
    decreases j - i
  {
    hide OpsSteps;
    if i < j {
      StepsMonotone(c, st, ops, i, j - 1);
      assert ops[..j][..j - 1] == ops[..j - 1];
      StepsGrow(c, st, ops[..j]);
    }
  }

  /** Whatever was finished before the cut counts; a session that was not cut counts in full. */
  lemma FinishedCounts(c: Config, f: Flash, s: Session, j: nat, i: nat)
    requires Durable(c, f, s, j) && i <= |s.ops| && |SessionSteps(c, f, s.ops[..i])| <= s.cut
    ensures i <= j
    ensures |SessionSteps(c, f, s.ops)| <= s.cut ==> j == |s.ops|
  {
    hide OpsSteps, BootPlan;
    if j < i {
      StepsMonotone(c, Booted(c, f), s.ops, j + 1, i);
    }
    if j < |s.ops| {
      StepsMonotone(c, Booted(c, f), s.ops, j + 1, |s.ops|);
      assert s.ops[..|s.ops|] == s.ops;
    }
  }

  /** Where a session starts: the map the boot finds, and whether it left the free index stale. */
  function RefBoot(c: Config, f: Flash): Ref {
    Ref(NumValues(BootMap(c, f)), HalfWrittenInFront(WinnerSlots(c, f)))
  }

  /** One session, cut anywhere, boot included: the next boot finds the map this boot
      found with the operations that count applied, as the reference applies them. */
  lemma SessionMap(c: Config, f: Flash, s: Session) returns (j: nat)
    requires NumFlash(c, f) && NumOps(c, s.ops)
    ensures Durable(c, f, s, j) && NumFlash(c, AfterSession(c, f, s))
    ensures BootMap(c, AfterSession(c, f, s)) == Raw(c, After(c, Booted(c, f), s.ops[..j]))
    ensures NumValues(BootMap(c, AfterSession(c, f, s))) == RefAfter(c, RefBoot(c, f), s.ops[..j]).m
    ensures s.cut >= |SessionSteps(c, f, s.ops)| ==> j == |s.ops|
  {
    hide IndexInv, NumbersOnly, RawMap, NumOp, NumFlash, BootMap, BootPlan, NumValues, Stale, OpsSteps, After, RefAfter, Run, Safe;
    SessionSnoc(c, Booted(c, f), []);
    var st, boot, steps := Booted(c, f), BootPlan(c, f).steps, SessionSteps(c, f, s.ops);
    var k := if s.cut < |steps| then s.cut else |steps|;
    BootedNumbers(c, f);
    if k < |boot| {
      j := 0;
      BootCut(c, f, k);
      assert steps[..k] == boot[..k];
      assert s.ops[..0] == [];
    } else {
      j := SessionCut(c, st, s.ops, k - |boot|);
      assert steps[..k] == boot + OpsSteps(c, st, s.ops)[..k - |boot|];
      RunConcat(f, boot, OpsSteps(c, st, s.ops)[..k - |boot|]);
      if j < |s.ops| {
        StepsMonotone(c, st, s.ops, j + 1, |s.ops|);
        assert s.ops[..|s.ops|] == s.ops;
      }
    }
    SessionValues(c, f, s.ops, j);
  }

  lemma SessionValues(c: Config, f: Flash, ops: seq<Op>, j: nat)
    requires NumFlash(c, f) && NumOps(c, ops) && j <= |ops|
    ensures NumValues(Raw(c, After(c, Booted(c, f), ops[..j]))) == RefAfter(c, RefBoot(c, f), ops[..j]).m
  {
    hide IndexInv, NumbersOnly, RawMap, NumOp, NumFlash, BootMap, BootPlan, NumValues, Stale, OpsSteps, After, RefAfter, Run, HalfWrittenInFront;
    BootedNumbers(c, f);
    assert forall i :: 0 <= i < j ==> ops[..j][i] == ops[i];
    NumRun(c, Booted(c, f), ops[..j]);
    assert RefOf(c, Booted(c, f)) == RefBoot(c, f);
  }

  lemma BootCut(c: Config, f: Flash, k: nat)
    requires NumFlash(c, f) && k <= |BootPlan(c, f).steps|
    ensures NumFlash(c, Run(f, BootPlan(c, f).steps[..k])) && BootMap(c, Run(f, BootPlan(c, f).steps[..k])) == BootMap(c, f)
  {
    hide KindFlash, BootMap, BootPlan, Safe, Run;
    BootSafe(c, f, {});
    assert BootMap(c, f) - {} == BootMap(c, f);
    CutIs(c, f, BootPlan(c, f).steps, k, BootMap(c, f), BootMap(c, f));
  }

  /** What the operations of a session report, up to the cut, is what the reference reports. */
  lemma SessionAnswers(c: Config, f: Flash, ops: seq<Op>)
    requires NumFlash(c, f) && NumOps(c, ops)
    ensures Responses(c, Booted(c, f), ops) == RefResponses(c, RefBoot(c, f), ops)
  {
    hide IndexInv, NumbersOnly, RawMap, NumFlash, BootMap, BootPlan, NumValues, Stale, Responses, RefResponses;
    BootedNumbers(c, f);
    NumRun(c, Booted(c, f), ops);
  }

  lemma BootedNumbers(c: Config, f: Flash)
    requires NumFlash(c, f)
    ensures var st := Booted(c, f);
      && IndexInv(c, st) && NumbersOnly(c, st.Slots()) && Raw(c, st) == BootMap(c, f)
      && (Stale(c, st) <==> HalfWrittenInFront(WinnerSlots(c, f)))
  {
    BootRecovers(c, f);
    BootSlots(c, f);
    SweptKinds(c, WinnerSlots(c, f), c.d.n, {});
  }

  function Life(c: Config, f: Flash, ss: seq<Session>): Flash {
    if ss == [] then f else AfterSession(c, Life(c, f, ss[..|ss| - 1]), ss[|ss| - 1])
  }

  predicate NumLife(c: Config, ss: seq<Session>) {
    forall i :: 0 <= i < |ss| ==> NumOps(c, ss[i].ops)
  }

  /** The reference map after the first `js[i]` operations of each session, the boots of those
      in `stale` having left the free index stale. */
  function RefLife(c: Config, m: map<nat, Value>, ss: seq<Session>, js: seq<nat>, stale: seq<bool>): map<nat, Value>
    requires |js| == |ss| == |stale| && forall i :: 0 <= i < |ss| ==> js[i] <= |ss[i].ops|
  {
    if ss == [] then m
    else
      var n := |ss| - 1;
      RefAfter(c, Ref(RefLife(c, m, ss[..n], js[..n], stale[..n]), stale[n]), ss[n].ops[..js[n]]).m
  }

  /** The same for the plain map. */
  function MapLife(c: Config, m: map<nat, Value>, ss: seq<Session>, js: seq<nat>): map<nat, Value>
    requires |js| == |ss| && forall i :: 0 <= i < |ss| ==> js[i] <= |ss[i].ops|
  {
    if ss == [] then m
    else
      var n := |ss| - 1;
      MapAfter(c, MapLife(c, m, ss[..n], js[..n]), ss[n].ops[..js[n]])
  }

  /** Which boots leave the free index stale. */
  function StaleBoots(c: Config, f: Flash, ss: seq<Session>): (bs: seq<bool>)
    ensures |bs| == |ss|
  {
    seq(|ss|, i requires 0 <= i < |ss| => HalfWrittenInFront(WinnerSlots(c, Life(c, f, ss[..i]))))
  }

  /** What is recovered after session `i` is what its first `j` operations made of its boot. */
  predicate Recovers(c: Config, f: Flash, ss: seq<Session>, i: nat, j: nat)
    requires i < |ss| && j <= |ss[i].ops|
  {
    var g := Life(c, f, ss[..i]);
    && Durable(c, g, ss[i], j)
    && BootMap(c, Life(c, f, ss[..i + 1])) == Raw(c, After(c, Booted(c, g), ss[i].ops[..j]))
  }

  /** Any number of sessions, each cut anywhere, boots included.  The flash can always be
      booted, and the values are those of the reference after the operations that count in
      each session. */
  lemma {:induction false} LifeRefines(c: Config, f: Flash, ss: seq<Session>) returns (js: seq<nat>)
    requires NumFlash(c, f) && NumLife(c, ss)
    ensures NumFlash(c, Life(c, f, ss))
    ensures |js| == |ss| && forall i :: 0 <= i < |ss| ==> js[i] <= |ss[i].ops|
    ensures forall i :: 0 <= i < |ss| ==> Recovers(c, f, ss, i, js[i])
    ensures NumValues(BootMap(c, Life(c, f, ss))) == RefLife(c, NumValues(BootMap(c, f)), ss, js, StaleBoots(c, f, ss))
  {
    hide NumFlash, BootMap, NumValues, RefAfter, AfterSession, NumOps, NumLife, RefLife, Life, Raw, After, SessionSteps, Booted, StaleBoots;
    LifeSnoc(c, f, ss, NumValues(BootMap(c, f)));
    if ss == [] {
      js := [];
    } else {
      var n := |ss| - 1;
      var front := LifeRefines(c, f, ss[..n]);
      var j := SessionMap(c, Life(c, f, ss[..n]), ss[n]);
      js := front + [j];
      forall i | 0 <= i < |ss|
        ensures Recovers(c, f, ss, i, js[i])
      {
        if i < n {
          assert Recovers(c, f, ss[..n], i, js[i]);
          assert ss[..n][..i] == ss[..i] && ss[..n][..i + 1] == ss[..i + 1];
        } else {
          assert ss[..n + 1] == ss;
        }
      }
      assert js[..n] == front;
      RefLifeSnoc(c, f, NumValues(BootMap(c, f)), ss, js);
    }
  }

  lemma LifeSnoc(c: Config, f: Flash, ss: seq<Session>, m: map<nat, Value>)
    requires NumLife(c, ss)
    ensures ss == [] ==> Life(c, f, ss) == f && |StaleBoots(c, f, ss)| == 0 && RefLife(c, m, [], [], StaleBoots(c, f, ss)) == m
    ensures ss != [] ==>
      var n := |ss| - 1;
      && NumLife(c, ss[..n]) && NumOps(c, ss[n].ops)
      && Life(c, f, ss) == AfterSession(c, Life(c, f, ss[..n]), ss[n])
  {
  }

  lemma RefLifeSnoc(c: Config, f: Flash, m: map<nat, Value>, ss: seq<Session>, js: seq<nat>)
    requires ss != [] && |js| == |ss| && forall i :: 0 <= i < |ss| ==> js[i] <= |ss[i].ops|
    ensures var n := |ss| - 1;
      var front := RefLife(c, m, ss[..n], js[..n], StaleBoots(c, f, ss[..n]));
      RefLife(c, m, ss, js, StaleBoots(c, f, ss))
      == RefAfter(c, Ref(front, HalfWrittenInFront(WinnerSlots(c, Life(c, f, ss[..n])))), ss[n].ops[..js[n]]).m
  {
    hide Life, WinnerSlots, HalfWrittenInFront, RefAfter;
    var n, bs := |ss| - 1, StaleBoots(c, f, ss);
    forall i | 0 <= i < n
      ensures bs[..n][i] == StaleBoots(c, f, ss[..n])[i]
    {
      assert ss[..n][..i] == ss[..i];
    }
    assert bs[..n] == StaleBoots(c, f, ss[..n]);
  }

  /** A life whose stale boots are all followed by a compaction, or by nothing, is that of the
      plain map. */
  lemma {:induction false} PlainLife(c: Config, m: map<nat, Value>, ss: seq<Session>, js: seq<nat>, stale: seq<bool>)
    requires |js| == |ss| == |stale| && forall i :: 0 <= i < |ss| ==> js[i] <= |ss[i].ops|
    requires forall i :: 0 <= i < |ss| && stale[i] && js[i] > 0 ==> ss[i].ops[0].CompactOp?
    ensures RefLife(c, m, ss, js, stale) == MapLife(c, m, ss, js)
  {
    hide RefAfter, MapAfter;
    if ss != [] {
      var n := |ss| - 1;
      PlainLife(c, m, ss[..n], js[..n], stale[..n]);
      RefIsMap(c, Ref(MapLife(c, m, ss[..n], js[..n]), stale[n]), ss[n].ops[..js[n]]);
    }
  }

  // --------------------------------------------------------------- lost writes

  /** A half-written slot with free slots behind it. */
  predicate HalfWrittenInFront(s: seq<Slot>) { HasHalfWritten(s) && Boundary(s) + 1 < |s| }

  /** The first value-changing write after a boot always reports success.  It takes effect
      if and only if the boot did not tombstone a half-written slot that has free slots
      behind it; otherwise the key is gone afterwards, old value included. */
  lemma FirstWriteAfterBoot(c: Config, f: Flash, d: Data)
    requires NumFlash(c, f) && DataOk(c, d) && d.value.Num? && IsValidKey(c.sig, d.key)
    requires var st := Booted(c, f); Changes(c, st, d) && st.ctrl.used < st.ctrl.total
    ensures var st := Booted(c, f);
      var r, m, l := Exec(st, PutPlan(c, st, d)), Values(Contents(c, st)), Label(d.key);
      && PutPlan(c, st, d).res == Ok
      && (Values(Contents(c, r)) == m[l := d.value] <==> !HalfWrittenInFront(WinnerSlots(c, f)))
      && (HalfWrittenInFront(WinnerSlots(c, f)) ==> Values(Contents(c, r)) == m - {l})
  {
    hide IndexInv, NumbersOnly, NumFlash, PutPlan, BootPlan, Winner, WinnerSlots, RawMap, HalfWrittenInFront;
    var st := Booted(c, f);
    BootedNumbers(c, f);
    NumPutReady(c, st, d);
    PutNumber(c, st, d);
    var r, l := Exec(st, PutPlan(c, st, d)), Label(d.key);
    if Stale(c, st) {
      assert l !in Values(Contents(c, r));
    } else {
      assert Values(Contents(c, r)) == Values(Contents(c, st))[l := d.value];
    }
  }

  /** The state is reachable: on any healthy store with two free slots, cut a write after
      its first flash step, boot, and write again.  The second write succeeds and the key
      is not there. */
  lemma CutThenWriteAgain(c: Config, st: State, d: Data)
    requires IndexInv(c, st) && Healthy(c, st) && NumbersOnly(c, st.Slots()) && st.ctrl.free >= 2
    requires DataOk(c, d) && d.value.Num? && d.value.w != FREE
    requires IsValidKey(c.sig, d.key) && Changes(c, st, d)
    ensures |PutPlan(c, st, d).steps| > 0
    ensures var f := Run(st.flash, PutPlan(c, st, d).steps[..1]);
      && NumFlash(c, f) && BootMap(c, f) == Raw(c, st)
      && var b := Booted(c, f);
      && PutPlan(c, b, d).res == Ok
      && Label(d.key) !in Contents(c, Exec(b, PutPlan(c, b, d)))
  {
    hide SafeAt, NumFlash, Contents, Changes, BootPlan;
    var s, k := st.Slots(), st.ctrl;
    var b := Boundary(s);
    CutFirstStep(c, st, d);
    var f := Run(st.flash, PutPlan(c, st, d).steps[..1]);
    var r := Booted(c, f);
    BootedNumbers(c, f);
    BootedRoom(c, f, st);
    NumbersContents(c, st);
    NumbersContents(c, r);
    SameChanges(c, st, r, d);
    FirstWriteAfterBoot(c, f, d);
    assert Label(d.key) !in Values(Contents(c, Exec(r, PutPlan(c, r, d))));
    LostMeansAbsent(c, Exec(r, PutPlan(c, r, d)), Label(d.key));
  }

  lemma LostMeansAbsent(c: Config, st: State, l: nat)
    requires l !in Values(Contents(c, st))
    ensures l !in Contents(c, st)
  {
  }

  lemma SameChanges(c: Config, st: State, r: State, d: Data)
    requires Values(Contents(c, st)) == Values(Contents(c, r)) && Changes(c, st, d)
    ensures Changes(c, r, d)
  {
    assert Label(d.key) in Contents(c, r) ==> Label(d.key) in Values(Contents(c, r));
    assert Label(d.key) in Contents(c, st) <==> Label(d.key) in Values(Contents(c, st));
  }

  lemma BootedRoom(c: Config, f: Flash, st: State)
    requires NumFlash(c, f) && BootMap(c, f) == Raw(c, st) && IndexInv(c, st) && Healthy(c, st) && st.ctrl.free > 0
    requires HalfWrittenInFront(WinnerSlots(c, f))
    ensures Booted(c, f).ctrl.used < Booted(c, f).ctrl.total
  {
    var r := Booted(c, f);
    BootRecovers(c, f);
    MapSize(c.sig, st.Slots());
    MapSize(c.sig, r.Slots());
    LiveBelowBoundary(c, st);
  }

  /** After the value word alone: nothing changed but a half-written slot in front. */
  lemma CutFirstStep(c: Config, st: State, d: Data)
    requires IndexInv(c, st) && Healthy(c, st) && NumbersOnly(c, st.Slots()) && st.ctrl.free >= 2
    requires DataOk(c, d) && d.value.Num? && d.value.w != FREE
    requires IsValidKey(c.sig, d.key) && Changes(c, st, d)
    ensures |PutPlan(c, st, d).steps| > 0
    ensures var f := Run(st.flash, PutPlan(c, st, d).steps[..1]);
      NumFlash(c, f) && BootMap(c, f) == Raw(c, st) && HalfWrittenInFront(WinnerSlots(c, f))
  {
    hide SafeAt, NumFlash, Contents, Changes, RawMap;
    var s, k := st.Slots(), st.ctrl;
    var b, x := Boundary(s), WriteVal(k.side, Boundary(s), d.value.w);
    KindsSameKind(c, st, d, {});
    UnchangedIs(c, st, d);
    LiveBelowBoundary(c, st);
    AppendAt(c, s, k);
    NotStale(c, st);
    assert PutPlan(c, st, d).steps[..1] == [x];
    RunOne(st.flash, x);
    var f, t := Run(st.flash, [x]), s[b := Slot(FREE, d.value.w)];
    assert f == st.flash.WithMain(k.side, st.Active().(slots := t));
    ValueWordSafe(c, s, k, d.value.w, {});
    BoundaryIs(t, b);
    NumbersAll(c, t);
    SlotWriteSafe(c, st.flash, k.side, f, {}, Raw(c, st), Raw(c, st));
    SignedMap(c, f, k.side);
    SafeMeans(c, f, Raw(c, st));
  }

  lemma SafeMeans(c: Config, f: Flash, m: map<nat, Slot>)
    requires SafeAt(c, f, {}, m, m)
    ensures NumFlash(c, f) && BootMap(c, f) == m
  {
    NumbersAll(c, WinnerSlots(c, f));
  }
}
