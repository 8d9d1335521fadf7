/** The button handler: debounce and click recognition, one call per timer tick, and what
    every sequence of samples makes it report. */
module Button {

  datatype Event = PressDown | PressUp | PressRepeat | PressRepeatDone | SingleClick | DoubleClick
                 | LongPressStart | LongPressHold | NonePress

  /** Thresholds in ticks: DEBOUNCE, SHORT and SERIAL are build settings, the other two belong
      to the button. */
  datatype Config = Config(debounce: nat, short: nat, serial: nat, longPress: nat, shortPress: nat, active: bool)

  datatype State = State(ticks: nat, hold: nat, presses: nat, state: nat, cnt: nat, level: bool, event: Event)

  function Fresh(cfg: Config): State {
    State(0, 0, 0, 0, 0, !cfg.active, NonePress)
  }

  datatype Result = Result(st: State, events: seq<Event>)

  function Inc16(x: nat): nat { (x + 1) % 0x1_0000 }
  function Inc8(x: nat): nat { (x + 1) % 0x100 }
  function Inc3(x: nat): nat { (x + 1) % 8 }

  /** Has the button been held long enough for the next hold report? */
  predicate HoldDue(ticks: nat, hold: nat, serial: nat) { ticks >= (hold + 1) * serial }

  /** The first part of the handler: ticks, and the debounce with its 3-bit counter. */
  function Debounce(cfg: Config, st: State, sample: bool): State {
    var s := if st.state > 0 then st.(ticks := Inc16(st.ticks)) else st;
    if sample == s.level then s.(cnt := 0)
    else
      var c := Inc3(s.cnt);
      if c >= cfg.debounce then s.(level := sample, cnt := 0) else s.(cnt := c)
  }

  /** The state machine. */
  function React(cfg: Config, s: State): Result {
    var pressed := s.level == cfg.active;
    match s.state
    case 0 =>
      if pressed then Result(s.(event := PressDown, ticks := 0, presses := 1, state := 1), [PressDown])
      else Result(s.(event := NonePress), [])
    case 1 =>
      if !pressed then Result(s.(event := PressUp, ticks := 0, state := 2), [PressUp])
      else if s.ticks > cfg.longPress then Result(s.(event := LongPressStart, state := 5), [LongPressStart])
      else Result(s, [])
    case 2 =>
      if pressed then
        Result(s.(event := PressDown, presses := Inc8(s.presses), ticks := 0, state := 3), [PressDown, PressRepeat])
      else if s.ticks > cfg.shortPress then
        var click := if s.presses == 1 then [SingleClick] else if s.presses == 2 then [DoubleClick] else [];
        Result(s.(event := PressRepeatDone, state := 0), click + [PressRepeatDone])
      else Result(s, [])
    case 3 =>
      if pressed then Result(s, [])
      else if s.ticks < cfg.short then Result(s.(event := PressUp, ticks := 0, state := 2), [PressUp])
      else Result(s.(event := PressUp, state := 0), [PressUp])
    case 5 =>
      if !pressed then Result(s.(event := PressUp, state := 0, hold := 0), [PressUp])
      else if HoldDue(s.ticks, s.hold, cfg.serial) then Result(s.(event := LongPressHold, hold := Inc16(s.hold)), [LongPressHold])
      else Result(s, [])
    case _ => Result(s, [])
  }

  function Step(cfg: Config, st: State, sample: bool): Result {
    React(cfg, Debounce(cfg, st, sample))
  }

  /** The button and its handler. */
  class Device {
    const cfg: Config
    var ticks: nat
    var hold: nat
    var presses: nat
    var state: nat
    var cnt: nat
    var level: bool
    var event: Event

    function View(): State
      reads this
    {
      State(ticks, hold, presses, state, cnt, level, event)
    }

    constructor (cfg: Config)
      ensures this.cfg == cfg && View() == Fresh(cfg)
    {
      this.cfg := cfg;
      ticks, hold, presses, state, cnt, level, event := 0, 0, 0, 0, 0, !cfg.active, NonePress;
    }

    /** `oblfr_button_handler`: the sampled level in, the callbacks made out. */
    method Handle(sample: bool) returns (events: seq<Event>)
      modifies this
      ensures View() == Step(cfg, old(View()), sample).st && events == Step(cfg, old(View()), sample).events
    {
      CountAndDebounce(sample);
      events := Switch();
    }

    /** Its first half: the tick counter and the debounce. */
    method CountAndDebounce(sample: bool)
      modifies this`ticks, this`cnt, this`level
      ensures View() == Debounce(cfg, old(View()), sample)
    {
      hide Inc16, Inc3;
      if state > 0 {
        ticks := Inc16(ticks);
      }
      if sample != level {
        cnt := Inc3(cnt);
        if cnt >= cfg.debounce {
          level := sample;
          cnt := 0;
        }
      } else {
        cnt := 0;
      }
    }

    /** Its second half: the state machine. */
    method Switch() returns (events: seq<Event>)
      modifies this
      ensures View() == React(cfg, old(View())).st && events == React(cfg, old(View())).events
    {
      hide Inc16, Inc8, HoldDue;
      events := [];
      if state == 0 {
        if level == cfg.active {
          event, ticks, presses, state := PressDown, 0, 1, 1;
          events := [PressDown];
        } else {
          event := NonePress;
        }
      } else if state == 1 {
        if level != cfg.active {
          event, ticks, state := PressUp, 0, 2;
          events := [PressUp];
        } else if ticks > cfg.longPress {
          event, state := LongPressStart, 5;
          events := [LongPressStart];
        }
      } else if state == 2 {
        if level == cfg.active {
          events := [PressDown];
          presses := Inc8(presses);
          events := events + [PressRepeat];
          event, ticks, state := PressDown, 0, 3;
        } else if ticks > cfg.shortPress {
          if presses == 1 {
            events := [SingleClick];
          } else if presses == 2 {
            events := [DoubleClick];
          }
          event, state := PressRepeatDone, 0;
          events := events + [PressRepeatDone];
        }
      } else if state == 3 {
        if level != cfg.active {
          event := PressUp;
          events := [PressUp];
          if ticks < cfg.short {
            ticks, state := 0, 2;
          } else {
            state := 0;
          }
        }
      } else if state == 5 {
        if level == cfg.active {
          if HoldDue(ticks, hold, cfg.serial) {
            event, hold := LongPressHold, Inc16(hold);
            events := [LongPressHold];
          }
        } else {
          event, state, hold := PressUp, 0, 0;
          events := [PressUp];
        }
      }
    }

    /** A whole run of ticks. */
    method HandleAll(samples: seq<bool>) returns (events: seq<Event>)
      requires View() == Fresh(cfg)
      modifies this
      ensures View() == After(cfg, samples) && events == History(cfg, samples)
    {
      events := [];
      for k := 0 to |samples|
        invariant View() == After(cfg, samples[..k]) && events == History(cfg, samples[..k])
      {
        assert samples[..k + 1][..k] == samples[..k];
        var more := Handle(samples[k]);
        events := events + more;
      }
      assert samples[..|samples|] == samples;
    }
  }

  // ---------------------------------------------------------------- whole runs

  function After(cfg: Config, samples: seq<bool>): State {
    if samples == [] then Fresh(cfg) else Step(cfg, After(cfg, samples[..|samples| - 1]), samples[|samples| - 1]).st
  }

  /** What the last tick reported. */
  function Reported(cfg: Config, samples: seq<bool>): seq<Event> {
    if samples == [] then [] else Step(cfg, After(cfg, samples[..|samples| - 1]), samples[|samples| - 1]).events
  }

  function History(cfg: Config, samples: seq<bool>): seq<Event> {
    if samples == [] then [] else History(cfg, samples[..|samples| - 1]) + Reported(cfg, samples)
  }

  // ------------------------------------------------------------------ debounce

  /** The last `d` samples all differ from `level`. */
  predicate AllDiffer(samples: seq<bool>, d: nat, level: bool) {
    d <= |samples| && forall i :: |samples| - d <= i < |samples| ==> samples[i] != level
  }

  /** The level, by what debouncing is for: it follows the sample once the last `d` samples
      have all disagreed with it. */
  function Level(samples: seq<bool>, d: nat, start: bool): bool {
    if samples == [] then start
    else
      var l := Level(samples[..|samples| - 1], d, start);
      if AllDiffer(samples, d, l) then !l else l
  }

  /** How many samples at the end differ from `level`. */
  function Trail(samples: seq<bool>, level: bool): nat {
    if samples == [] || samples[|samples| - 1] == level then 0 else 1 + Trail(samples[..|samples| - 1], level)
  }

  lemma {:induction false} TrailMeans(samples: seq<bool>, level: bool, d: nat)
    ensures AllDiffer(samples, d, level) <==> d <= Trail(samples, level)
  {
    var n := |samples| - 1;
    if samples != [] && samples[n] != level && d > 0 {
      TrailMeans(samples[..n], level, d - 1);
      assert forall i :: 0 <= i < n ==> samples[..n][i] == samples[i];
      assert AllDiffer(samples, d, level) <==> AllDiffer(samples[..n], d - 1, level);
    }
  }

  lemma TrailAfter(samples: seq<bool>, sample: bool, level: bool)
    ensures Trail(samples + [sample], level) == if sample == level then 0 else Trail(samples, level) + 1
  {
    assert (samples + [sample])[..|samples|] == samples;
  }

  lemma LevelUnfold(samples: seq<bool>, d: nat, start: bool)
    ensures samples == [] ==> Level(samples, d, start) == start && Trail(samples, start) == 0
    ensures samples != [] ==> var l := Level(samples[..|samples| - 1], d, start);
      Level(samples, d, start) == if AllDiffer(samples, d, l) then !l else l
  {
  }

  lemma ReactKeeps(cfg: Config, s: State)
    ensures React(cfg, s).st.level == s.level && React(cfg, s).st.cnt == s.cnt
  {
  }

  /** For thresholds up to 7 the level is the debounced one: it flips exactly when the last
      `debounce` samples (at least one) have all disagreed with it. */
  lemma {:induction false} LevelIsDebounced(cfg: Config, samples: seq<bool>)
    requires cfg.debounce <= 7
    ensures var d := if cfg.debounce == 0 then 1 else cfg.debounce;
      var st := After(cfg, samples);
      st.level == Level(samples, d, !cfg.active) && st.cnt == Trail(samples, st.level) < d
  {
    hide React, Level, AllDiffer, Trail, Inc16;
    var n := |samples| - 1;
    LevelUnfold(samples, if cfg.debounce == 0 then 1 else cfg.debounce, !cfg.active);
    if samples != [] {
      var d := if cfg.debounce == 0 then 1 else cfg.debounce;
      var st, before := After(cfg, samples[..n]), samples[..n];
      LevelIsDebounced(cfg, before);
      ReactKeeps(cfg, Debounce(cfg, st, samples[n]));
      TrailMeans(samples, st.level, d);
      assert samples == before + [samples[n]];
      TrailAfter(before, samples[n], st.level);
      TrailAfter(before, samples[n], !st.level);
    }
  }

  lemma Wrap3(t: nat)
    ensures Inc3(t % 8) == (t + 1) % 8 < 8
  {
  }

  lemma Wrap8(t: nat)
    ensures Inc8(t % 0x100) == (t + 1) % 0x100
  {
  }

  lemma Wrap16(t: nat)
    ensures Inc16(t % 0x1_0000) == (t + 1) % 0x1_0000
  {
  }

  /** From threshold 8 on the 3-bit counter wraps before it gets there: the level never
      changes, whatever is sampled. */
  lemma {:induction false} EightNeverFlips(cfg: Config, samples: seq<bool>)
    requires cfg.debounce >= 8
    ensures var st := After(cfg, samples); st.level == !cfg.active && st.state == 0 && st.cnt == Trail(samples, st.level) % 8
  {
    hide Inc16, Inc8, Inc3, HoldDue, Trail;
    var n := |samples| - 1;
    LevelUnfold(samples, 8, !cfg.active);
    if samples != [] {
      var st, before := After(cfg, samples[..n]), samples[..n];
      EightNeverFlips(cfg, before);
      assert samples == before + [samples[n]];
      TrailAfter(before, samples[n], st.level);
      Wrap3(Trail(before, st.level));
    }
  }

  // ------------------------------------------------------- presses and releases

  predicate Held(state: nat) { state == 1 || state == 3 || state == 5 }

  /** After every tick the state machine is in one of its five states, in a pressed one
      exactly when the level is active, and counts holds only in state 5. */
  ghost predicate InPhase(cfg: Config, st: State) {
    && (st.state <= 3 || st.state == 5)
    && (Held(st.state) <==> st.level == cfg.active)
    && (st.state != 5 ==> st.hold == 0)
  }

  lemma ReactInPhase(cfg: Config, st: State, sample: bool)
    requires InPhase(cfg, st)
    ensures var s, r := Debounce(cfg, st, sample), Step(cfg, st, sample);
      && InPhase(cfg, r.st) && s.state == st.state
      && (PressDown in r.events <==> st.level != cfg.active && r.st.level == cfg.active)
      && (PressUp in r.events <==> st.level == cfg.active && r.st.level != cfg.active)
      && (LongPressStart in r.events || LongPressHold in r.events ==> Held(st.state) && Held(r.st.state) && r.st.state == 5)
      && EdgesOf(r.events) == if PressDown in r.events then [PressDown] else if PressUp in r.events then [PressUp] else []
  {
    hide Inc16, Inc8, Inc3, HoldDue, EdgesOf;
    FewEvents(cfg, Debounce(cfg, st, sample));
  }

  lemma FewEvents(cfg: Config, s: State)
    requires s.state <= 3 || s.state == 5
    ensures var events := React(cfg, s).events;
      EdgesOf(events) == if PressDown in events then [PressDown] else if PressUp in events then [PressUp] else []
  {
    hide Inc16, Inc8, Inc3, HoldDue, EdgesOf;
    FreshEdges(cfg);
    EdgesOfFew(PressDown, PressRepeat);
    EdgesOfFew(PressUp, PressRepeat);
    EdgesOfFew(LongPressStart, LongPressHold);
    EdgesOfFew(LongPressHold, PressRepeatDone);
    EdgesOfFew(PressRepeatDone, PressRepeat);
    EdgesOfFew(PressRepeat, PressRepeat);
    EdgesOfFew(SingleClick, PressRepeatDone);
    EdgesOfFew(DoubleClick, PressRepeatDone);
    var events := React(cfg, s).events;
    assert events == [] || events == [PressDown] || events == [PressUp] || events == [PressDown, PressRepeat]
        || events == [LongPressStart] || events == [LongPressHold] || events == [PressRepeatDone]
        || events == [SingleClick, PressRepeatDone] || events == [DoubleClick, PressRepeatDone];
  }

  lemma {:induction false} AlwaysInPhase(cfg: Config, samples: seq<bool>)
    ensures InPhase(cfg, After(cfg, samples))
  {
    hide Step, InPhase;
    if samples != [] {
      AlwaysInPhase(cfg, samples[..|samples| - 1]);
      ReactInPhase(cfg, After(cfg, samples[..|samples| - 1]), samples[|samples| - 1]);
    } else {
      FreshInPhase(cfg);
    }
  }

  lemma FreshInPhase(cfg: Config)
    ensures InPhase(cfg, Fresh(cfg))
  {
  }

  /** PRESS_DOWN and PRESS_UP are reported exactly at the edges of the debounced level. */
  lemma PressesAreEdges(cfg: Config, samples: seq<bool>)
    requires 1 <= cfg.debounce <= 7 && samples != []
    ensures var before, after := Level(samples[..|samples| - 1], cfg.debounce, !cfg.active), Level(samples, cfg.debounce, !cfg.active);
      && (PressDown in Reported(cfg, samples) <==> before != cfg.active && after == cfg.active)
      && (PressUp in Reported(cfg, samples) <==> before == cfg.active && after != cfg.active)
  {
    hide Step, InPhase, Level, Trail;
    var before := samples[..|samples| - 1];
    AlwaysInPhase(cfg, before);
    ReactInPhase(cfg, After(cfg, before), samples[|samples| - 1]);
    LevelIsDebounced(cfg, before);
    LevelIsDebounced(cfg, samples);
  }

  /** The PRESS_DOWN and PRESS_UP reports among others. */
  function EdgesOf(events: seq<Event>): seq<Event> {
    if events == [] then []
    else
      var last := events[|events| - 1];
      EdgesOf(events[..|events| - 1]) + (if last == PressDown || last == PressUp then [last] else [])
  }

  lemma EdgesOfFew(x: Event, y: Event)
    ensures EdgesOf([x]) == if x == PressDown || x == PressUp then [x] else []
    ensures EdgesOf([x, y]) == EdgesOf([x]) + EdgesOf([y])
  {
    assert [x, y][..1] == [x] && [x][..0] == [] && [y][..0] == [];
  }

  lemma {:induction false} EdgesConcat(xs: seq<Event>, ys: seq<Event>)
    ensures EdgesOf(xs + ys) == EdgesOf(xs) + EdgesOf(ys)
  {
    if ys == [] {
      assert xs + ys == xs;
    } else {
      var n := |ys| - 1;
      EdgesConcat(xs, ys[..n]);
      assert (xs + ys)[..|xs + ys| - 1] == xs + ys[..n];
    }
  }

  /** Over every run they alternate, beginning with PRESS_DOWN. */
  lemma {:induction false} PressesAlternate(cfg: Config, samples: seq<bool>)
    ensures var edges := EdgesOf(History(cfg, samples));
      Alternates(edges) && (|edges| % 2 == 1 <==> Held(After(cfg, samples).state))
  {
    hide Step, EdgesOf, Held, Alternates;
    var n := |samples| - 1;
    if samples == [] {
      FreshEdges(cfg);
    } else {
      var before := samples[..n];
      PressesAlternate(cfg, before);
      AlwaysInPhase(cfg, before);
      ReactInPhase(cfg, After(cfg, before), samples[n]);
      EdgesConcat(History(cfg, before), Reported(cfg, samples));
      OneMoreEdge(EdgesOf(History(cfg, before)));
    }
  }

  predicate Alternates(edges: seq<Event>) {
    forall i :: 0 <= i < |edges| ==> edges[i] == if i % 2 == 0 then PressDown else PressUp
  }

  lemma OneMoreEdge(edges: seq<Event>)
    requires Alternates(edges)
    ensures Alternates(edges + [if |edges| % 2 == 0 then PressDown else PressUp]) && edges + [] == edges
  {
  }

  lemma FreshEdges(cfg: Config)
    ensures EdgesOf([]) == [] && Alternates([]) && !Held(Fresh(cfg).state)
  {
  }

  /** Long-press reports come between a PRESS_DOWN and its PRESS_UP, and the hold count is
      zero outside a long press. */
  lemma LongOnlyWhilePressed(cfg: Config, samples: seq<bool>)
    requires samples != []
    ensures After(cfg, samples).state != 5 ==> After(cfg, samples).hold == 0
    ensures LongPressStart in Reported(cfg, samples) || LongPressHold in Reported(cfg, samples) ==>
      var edges := EdgesOf(History(cfg, samples[..|samples| - 1]));
      edges != [] && edges[|edges| - 1] == PressDown && EdgesOf(Reported(cfg, samples)) == []
  {
    hide Step, EdgesOf, InPhase, Held, Alternates, History;
    var before := samples[..|samples| - 1];
    AlwaysInPhase(cfg, before);
    AlwaysInPhase(cfg, samples);
    HoldInPhase(cfg, After(cfg, samples));
    ReactInPhase(cfg, After(cfg, before), samples[|samples| - 1]);
    LongIsNoEdge(cfg, After(cfg, before), samples[|samples| - 1]);
    PressesAlternate(cfg, before);
    LastIsDown(EdgesOf(History(cfg, before)));
  }

  lemma HoldInPhase(cfg: Config, st: State)
    requires InPhase(cfg, st)
    ensures st.state != 5 ==> st.hold == 0
  {
  }

  lemma LongIsNoEdge(cfg: Config, st: State, sample: bool)
    requires InPhase(cfg, st)
    ensures var events := Step(cfg, st, sample).events;
      LongPressStart in events || LongPressHold in events ==> PressDown !in events && PressUp !in events
  {
    hide Inc16, Inc8, Inc3, HoldDue;
  }

  lemma LastIsDown(edges: seq<Event>)
    requires Alternates(edges)
    ensures |edges| % 2 == 1 ==> edges[|edges| - 1] == PressDown
  {
  }

  // -------------------------------------------------------------------- bursts

  /** Is the button down, tick by tick?  `LevelIsDebounced` says what decides that. */
  function Downs(cfg: Config, samples: seq<bool>): seq<bool> {
    if samples == [] then [] else Downs(cfg, samples[..|samples| - 1]) + [After(cfg, samples).level == cfg.active]
  }

  predicate Down(p: seq<bool>) { p != [] && p[|p| - 1] }

  function Before(p: seq<bool>): seq<bool> { if p == [] then [] else p[..|p| - 1] }

  /** Pressed or released in the last tick. */
  predicate Rises(p: seq<bool>) { Down(p) && !Down(Before(p)) }
  predicate Falls(p: seq<bool>) { !Down(p) && Down(Before(p)) }

  /** Ticks since the last press. */
  function SincePress(p: seq<bool>): nat {
    if p == [] || Rises(p) then 0 else SincePress(Before(p)) + 1
  }

  /** Ticks since the last release. */
  function SinceRelease(p: seq<bool>): nat {
    if p == [] || Falls(p) then 0 else SinceRelease(Before(p)) + 1
  }

  /** Presses of the burst that is going on, or that ended in the last tick. */
  function Presses(cfg: Config, p: seq<bool>): nat
    decreases |p|, 0
  {
    if p == [] then 0
    else (if Idle(cfg, Before(p)) then 0 else Presses(cfg, Before(p))) + if Rises(p) then 1 else 0
  }

  /** A release that ends the burst: that of a first press held past the long-press threshold,
      or of a further press that was not short. */
  predicate ReleasedLate(cfg: Config, p: seq<bool>)
    decreases |p|, 1
  {
    && Falls(p)
    && if Presses(cfg, p) == 1 then cfg.longPress < 0xFFFF && SincePress(p) > cfg.longPress + 1
       else SincePress(p) % 0x1_0000 >= cfg.short
  }

  /** The time for another press is over. */
  predicate TimesOut(cfg: Config, p: seq<bool>)
    decreases |p|, 1
  {
    p != [] && !Idle(cfg, Before(p)) && !Down(p) && !Falls(p) && cfg.shortPress < 0xFFFF && SinceRelease(p) == cfg.shortPress + 1
  }

  /** No burst is going on: none has begun since the last one was ended by a late release or by
      the time for another press running out. */
  predicate Idle(cfg: Config, p: seq<bool>)
    decreases |p|, 2
  {
    p == [] || ReleasedLate(cfg, p) || TimesOut(cfg, p) || (Idle(cfg, Before(p)) && !Down(p))
  }

  /** All that a burst depends on. */
  datatype Burst = Burst(down: bool, idle: bool, presses: nat, press: nat, release: nat)

  function BurstOf(cfg: Config, p: seq<bool>): Burst {
    Burst(Down(p), Idle(cfg, p), Presses(cfg, p), SincePress(p), SinceRelease(p))
  }

  predicate LongHeld(cfg: Config, press: nat) { cfg.longPress < 0xFFFF && press > cfg.longPress }

  /** One tick of a burst. */
  function NextBurst(cfg: Config, b: Burst, down: bool): Burst {
    var rises, falls := down && !b.down, !down && b.down;
    var presses := (if b.idle then 0 else b.presses) + if rises then 1 else 0;
    var press, release := if rises then 0 else b.press + 1, if falls then 0 else b.release + 1;
    var late := falls && if presses == 1 then LongHeld(cfg, b.press) else press % 0x1_0000 >= cfg.short;
    var out := !b.idle && !down && !falls && cfg.shortPress < 0xFFFF && release == cfg.shortPress + 1;
    Burst(down, late || out || (b.idle && !down), presses, press, release)
  }

  lemma BurstStep(cfg: Config, p: seq<bool>)
    requires p != []
    ensures BurstOf(cfg, p) == NextBurst(cfg, BurstOf(cfg, Before(p)), Down(p))
  {
    var b := BurstOf(cfg, Before(p));
    var c := NextBurst(cfg, b, Down(p));
    assert Presses(cfg, p) == c.presses;
    assert SincePress(p) == c.press;
    assert SinceRelease(p) == c.release;
    assert TimesOut(cfg, p) == (!b.idle && !Down(p) && !Falls(p) && cfg.shortPress < 0xFFFF && c.release == cfg.shortPress + 1);
    assert ReleasedLate(cfg, p) == (Falls(p) && if c.presses == 1 then LongHeld(cfg, b.press) else c.press % 0x1_0000 >= cfg.short);
    assert Idle(cfg, p) == c.idle;
  }

  function PhaseOf(cfg: Config, b: Burst): nat {
    if b.idle then 0
    else if !b.down then 2
    else if b.presses > 1 then 3
    else if LongHeld(cfg, b.press) then 5
    else 1
  }

  /** What the state and the counters of the button stand for. */
  ghost predicate Counted(cfg: Config, st: State, b: Burst) {
    && (b.down <==> st.level == cfg.active)
    && (b.idle ==> !b.down) && (!b.idle ==> b.presses >= 1)
    && st.state == PhaseOf(cfg, b)
    && (st.state == 1 || st.state == 2 || st.state == 3 ==> st.presses == b.presses % 0x100)
    && (b.down ==> st.ticks == b.press % 0x1_0000)
    && (st.state == 2 ==> st.ticks == b.release % 0x1_0000 && (cfg.shortPress < 0xFFFF ==> b.release <= cfg.shortPress))
    && (st.state != 5 ==> st.hold == 0)
    && (st.state == 5 ==> st.hold == HoldReports(cfg, b.press) % 0x1_0000)
  }

  /** Hold reports a long press has made by the time it has lasted that many ticks. */
  function HoldReports(cfg: Config, press: nat): nat
    decreases press, 1
  {
    if press == 0 then 0 else HoldReports(cfg, press - 1) + if HoldAt(cfg, press) then 1 else 0
  }

  /** One comes at a tick behind LONG_PRESS_START at which the 16-bit tick counter shows a
      `serial` more than one for each before it. */
  predicate HoldAt(cfg: Config, press: nat)
    decreases press, 0
  {
    press > cfg.longPress + 1 && press % 0x1_0000 >= (HoldReports(cfg, press - 1) % 0x1_0000 + 1) * cfg.serial
  }

  lemma {:induction false} NoHoldsYet(cfg: Config, press: nat)
    requires press <= cfg.longPress + 1
    ensures HoldReports(cfg, press) == 0
  {
    if press > 0 {
      NoHoldsYet(cfg, press - 1);
    }
  }

  /** As long as the tick counter lasts, they have a closed form. */
  lemma {:induction false} HoldsClosed(cfg: Config, press: nat)
    requires press <= 0xFFFF
    ensures HoldReports(cfg, press) == Holds(cfg, press) <= press
  {
    hide Holds;
    if press <= cfg.longPress + 1 {
      NoHoldsYet(cfg, press);
      HoldsFew(cfg, press);
    } else {
      HoldsClosed(cfg, press - 1);
      HoldStep(cfg, press - 1);
      DueMeans(press, Holds(cfg, press - 1), cfg.serial);
      HoldsFew(cfg, press);
    }
  }

  lemma HoldsFew(cfg: Config, press: nat)
    ensures Holds(cfg, press) <= press && (press <= cfg.longPress + 1 ==> Holds(cfg, press) == 0)
  {
  }

  lemma DueMeans(ticks: nat, hold: nat, serial: nat)
    ensures HoldDue(ticks, hold, serial) <==> ticks >= (hold + 1) * serial
  {
  }

  /** Hold reports made by the time a long press has lasted that many ticks: one for every
      `serial` ticks, and no more than one a tick. */
  function Holds(cfg: Config, press: nat): nat {
    if press <= cfg.longPress + 1 then 0
    else
      var late := press - cfg.longPress - 1;
      if cfg.serial == 0 || late <= press / cfg.serial then late else press / cfg.serial
  }

  lemma HoldStep(cfg: Config, press: nat)
    requires press >= cfg.longPress + 1
    ensures Holds(cfg, press) <= press
    ensures Holds(cfg, press + 1) == Holds(cfg, press) + if HoldDue(press + 1, Holds(cfg, press), cfg.serial) then 1 else 0
  {
    hide HoldDue;
    if cfg.serial > 0 {
      QuotientStep(press, cfg.serial, Holds(cfg, press));
    } else {
      AlwaysDue(press + 1, Holds(cfg, press));
    }
  }

  lemma AlwaysDue(ticks: nat, hold: nat)
    ensures HoldDue(ticks, hold, 0)
  {
  }

  lemma QuotientStep(a: nat, s: nat, h: nat)
    requires s > 0
    ensures HoldDue(a + 1, h, s) <==> h + 1 <= (a + 1) / s
    ensures a / s <= (a + 1) / s <= a / s + 1
  {
    AtLeast(a + 1, s, h + 1);
    QuotientGrows(a, s, a / s, (a + 1) / s);
  }

  lemma QuotientGrows(a: nat, s: nat, x: nat, y: nat)
    requires s > 0 && x == a / s && y == (a + 1) / s
    ensures x <= y <= x + 1
  {
    AtLeast(a, s, x);
    AtLeast(a + 1, s, x);
    AtLeast(a + 1, s, y);
    AtLeast(a, s, y - 1);
    Distribute(y, s);
  }

  lemma Distribute(y: nat, s: nat)
    ensures (y - 1) * s == y * s - s
  {
  }

  /** What a quotient is. */
  lemma AtLeast(a: nat, s: nat, q: int)
    requires s > 0
    ensures q <= a / s <==> q * s <= a
  {
    var d := a / s;
    assert d * s <= a < d * s + s;
    if q <= d {
      Scaled(q, d, s);
    } else {
      Scaled(d + 1, q, s);
    }
  }

  lemma Scaled(x: int, y: int, s: nat)
    requires x <= y
    ensures x * s <= y * s
  {
  }

  /** The same, when the tick has been counted and the level may have changed. */
  ghost predicate Ticked(cfg: Config, s: State, b: Burst) {
    && (b.idle ==> !b.down) && (!b.idle ==> b.presses >= 1)
    && s.state == PhaseOf(cfg, b)
    && (s.state == 1 || s.state == 2 || s.state == 3 ==> s.presses == b.presses % 0x100)
    && (b.down ==> s.ticks == (b.press + 1) % 0x1_0000)
    && (s.state == 2 ==> s.ticks == (b.release + 1) % 0x1_0000 && (cfg.shortPress < 0xFFFF ==> b.release <= cfg.shortPress))
    && (s.state != 5 ==> s.hold == 0)
    && (s.state == 5 ==> s.hold == HoldReports(cfg, b.press) % 0x1_0000)
  }

  lemma DebounceTicks(cfg: Config, st: State, sample: bool, b: Burst)
    requires Counted(cfg, st, b)
    ensures Ticked(cfg, Debounce(cfg, st, sample), b)
  {
    hide Inc16, Inc3, Holds;
    Wrap16(b.press);
    Wrap16(b.release);
  }

  /** The callbacks of a tick, in order, by what it does to the burst. */
  function StepCalls(cfg: Config, b: Burst, c: Burst): seq<Event> {
    if c.down && !b.down then (if b.idle then [PressDown] else [PressDown, PressRepeat])
    else if b.down && !c.down then [PressUp]
    else if !b.idle && c.idle then Clicks(c.presses) + [PressRepeatDone]
    else if c.down && c.presses == 1 && LongHeld(cfg, c.press) then
      if !LongHeld(cfg, b.press) then [LongPressStart] else if HoldAt(cfg, c.press) then [LongPressHold] else []
    else []
  }

  /** The click report for that many presses, which are counted in 8 bits. */
  function Clicks(presses: nat): seq<Event> {
    if presses % 0x100 == 1 then [SingleClick] else if presses % 0x100 == 2 then [DoubleClick] else []
  }

  /** The event shown after a tick: the first of a press, the last of other reports, none
      while idle, and otherwise still the one before. */
  function StepShown(cfg: Config, was: Event, b: Burst, c: Burst): Event {
    var calls := StepCalls(cfg, b, c);
    if c.down && !b.down then PressDown
    else if calls != [] then calls[|calls| - 1]
    else if b.idle && !c.down then NonePress
    else was
  }

  ghost predicate Stepped(cfg: Config, s: State, b: Burst) {
    var r, c := React(cfg, s), NextBurst(cfg, b, s.level == cfg.active);
    Counted(cfg, r.st, c) && r.events == StepCalls(cfg, b, c) && r.st.event == StepShown(cfg, s.event, b, c)
  }

  lemma FromIdle(cfg: Config, s: State, b: Burst)
    requires Ticked(cfg, s, b) && s.state == 0
    ensures Stepped(cfg, s, b)
  {
    hide Inc8, HoldReports, HoldAt;
  }

  lemma FromFirst(cfg: Config, s: State, b: Burst)
    requires Ticked(cfg, s, b) && s.state == 1
    ensures Stepped(cfg, s, b)
  {
    hide Inc8, HoldReports, HoldAt;
    NoHoldsYet(cfg, cfg.longPress + 1);
  }

  lemma FromReleased(cfg: Config, s: State, b: Burst)
    requires Ticked(cfg, s, b) && s.state == 2
    ensures Stepped(cfg, s, b)
  {
    hide Inc8, HoldReports, HoldAt;
    Wrap8(b.presses);
  }

  lemma FromRepeat(cfg: Config, s: State, b: Burst)
    requires Ticked(cfg, s, b) && s.state == 3
    ensures Stepped(cfg, s, b)
  {
    hide HoldReports, HoldAt;
  }

  lemma FromLong(cfg: Config, s: State, b: Burst)
    requires Ticked(cfg, s, b) && s.state == 5
    ensures Stepped(cfg, s, b)
  {
    HoldNext(cfg, b.press);
    hide Inc16, HoldDue, HoldReports, HoldAt;
    Wrap16(HoldReports(cfg, b.press));
  }

  lemma HoldNext(cfg: Config, press: nat)
    requires press > cfg.longPress
    ensures HoldReports(cfg, press + 1) == HoldReports(cfg, press) + if HoldAt(cfg, press + 1) then 1 else 0
    ensures HoldAt(cfg, press + 1) <==> HoldDue((press + 1) % 0x1_0000, HoldReports(cfg, press) % 0x1_0000, cfg.serial)
  {
  }

  lemma CountedStep(cfg: Config, st: State, sample: bool, b: Burst)
    requires Counted(cfg, st, b)
    ensures var r := Step(cfg, st, sample);
      var c := NextBurst(cfg, b, r.st.level == cfg.active);
      Counted(cfg, r.st, c) && r.events == StepCalls(cfg, b, c) && r.st.event == StepShown(cfg, st.event, b, c)
  {
    hide Counted, StepCalls, StepShown, Ticked, React;
    var s := Debounce(cfg, st, sample);
    DebounceTicks(cfg, st, sample, b);
    ReactKeeps(cfg, s);
    TickedStates(cfg, s, b);
    if s.state == 0 {
      FromIdle(cfg, s, b);
    } else if s.state == 1 {
      FromFirst(cfg, s, b);
    } else if s.state == 2 {
      FromReleased(cfg, s, b);
    } else if s.state == 3 {
      FromRepeat(cfg, s, b);
    } else {
      FromLong(cfg, s, b);
    }
  }

  lemma TickedStates(cfg: Config, s: State, b: Burst)
    requires Ticked(cfg, s, b)
    ensures s.state in {0, 1, 2, 3, 5}
  {
  }

  lemma DownsStep(cfg: Config, samples: seq<bool>)
    requires samples != []
    ensures var p := Downs(cfg, samples);
      p != [] && Before(p) == Downs(cfg, samples[..|samples| - 1]) && Down(p) == (After(cfg, samples).level == cfg.active)
  {
    hide Step;
  }

  lemma FreshCounted(cfg: Config)
    ensures Counted(cfg, Fresh(cfg), BurstOf(cfg, []))
  {
  }

  lemma {:induction false} AlwaysCounted(cfg: Config, samples: seq<bool>)
    ensures Counted(cfg, After(cfg, samples), BurstOf(cfg, Downs(cfg, samples)))
    ensures samples != [] ==>
      var p := Downs(cfg, samples);
      var b, c := BurstOf(cfg, Before(p)), BurstOf(cfg, p);
      && p != [] && Reported(cfg, samples) == StepCalls(cfg, b, c)
      && After(cfg, samples).event == StepShown(cfg, After(cfg, samples[..|samples| - 1]).event, b, c)
  {
    hide Step, Counted, StepCalls, StepShown, Idle, Presses, BurstOf, NextBurst, Down, Before;
    if samples == [] {
      FreshCounted(cfg);
    } else {
      var before, p := samples[..|samples| - 1], Downs(cfg, samples);
      AlwaysCounted(cfg, before);
      DownsStep(cfg, samples);
      BurstStep(cfg, p);
      CountedStep(cfg, After(cfg, before), samples[|samples| - 1], BurstOf(cfg, Before(p)));
    }
  }

  lemma EndsEitherWay(cfg: Config, p: seq<bool>)
    requires p != [] && (Idle(cfg, Before(p)) ==> !Down(Before(p)))
    ensures !Idle(cfg, Before(p)) && Idle(cfg, p) <==> ReleasedLate(cfg, p) || TimesOut(cfg, p)
    ensures !Idle(cfg, Before(p)) && Idle(cfg, p) && !Down(Before(p)) <==> TimesOut(cfg, p)
    ensures !(ReleasedLate(cfg, p) && TimesOut(cfg, p))
  {
    hide Presses, SincePress, SinceRelease;
  }

  // ------------------------------------------------------ every callback, in order

  /** The callbacks of the last tick.  A press calls PRESS_DOWN, and PRESS_REPEAT behind it if a
      burst is going on; a release calls PRESS_UP; the time for another press running out calls
      the click for the presses of the burst, and PRESS_REPEAT_DONE; the first press of a burst
      calls LONG_PRESS_START one tick past the threshold, and LONG_PRESS_HOLD when one is due. */
  function Calls(cfg: Config, p: seq<bool>): seq<Event> {
    if Rises(p) then (if Idle(cfg, Before(p)) then [PressDown] else [PressDown, PressRepeat])
    else if Falls(p) then [PressUp]
    else if TimesOut(cfg, p) then Clicks(Presses(cfg, p)) + [PressRepeatDone]
    else if Down(p) && Presses(cfg, p) == 1 && cfg.longPress < 0xFFFF then
      if SincePress(p) == cfg.longPress + 1 then [LongPressStart]
      else if HoldAt(cfg, SincePress(p)) then [LongPressHold]
      else []
    else []
  }

  function AllCalls(cfg: Config, p: seq<bool>): seq<Event> {
    if p == [] then [] else AllCalls(cfg, Before(p)) + Calls(cfg, p)
  }

  /** The event shown after the last tick. */
  function Shown(cfg: Config, p: seq<bool>): Event {
    if p == [] then NonePress
    else if Rises(p) then PressDown
    else
      var calls := Calls(cfg, p);
      if calls != [] then calls[|calls| - 1] else if Idle(cfg, Before(p)) then NonePress else Shown(cfg, Before(p))
  }

  lemma CallsStep(cfg: Config, p: seq<bool>)
    requires p != [] && (Idle(cfg, Before(p)) ==> !Down(Before(p)))
    ensures StepCalls(cfg, BurstOf(cfg, Before(p)), BurstOf(cfg, p)) == Calls(cfg, p)
  {
    hide Presses, SinceRelease, HoldReports, Clicks;
    EndsEitherWay(cfg, p);
    hide Idle, TimesOut, ReleasedLate;
  }

  lemma ShownStep(cfg: Config, p: seq<bool>, was: Event)
    requires p != [] && (Idle(cfg, Before(p)) ==> !Down(Before(p)))
    requires StepCalls(cfg, BurstOf(cfg, Before(p)), BurstOf(cfg, p)) == Calls(cfg, p)
    requires was == Shown(cfg, Before(p))
    ensures StepShown(cfg, was, BurstOf(cfg, Before(p)), BurstOf(cfg, p)) == Shown(cfg, p)
  {
    hide Idle, Presses, SincePress, SinceRelease, StepCalls, Calls;
  }

  lemma IdleIsUp(cfg: Config, samples: seq<bool>)
    ensures var p := Downs(cfg, samples); Idle(cfg, p) ==> !Down(p)
  {
    hide Step, StepCalls, StepShown, Idle, Presses, SincePress, SinceRelease, Down, Before, HoldReports, Downs, After;
    AlwaysCounted(cfg, samples);
  }

  /** Every tick of every run calls exactly these callbacks, in this order. */
  lemma ReportsExactly(cfg: Config, samples: seq<bool>)
    requires samples != []
    ensures Reported(cfg, samples) == Calls(cfg, Downs(cfg, samples))
  {
    hide Step, StepCalls, StepShown, Calls, Idle, Presses, SincePress, SinceRelease, Down, Before, HoldReports;
    AlwaysCounted(cfg, samples);
    IdleIsUp(cfg, samples[..|samples| - 1]);
    DownsStep(cfg, samples);
    CallsStep(cfg, Downs(cfg, samples));
  }

  /** So every run makes exactly the calls of its ticks, and shows their event. */
  lemma {:induction false} HistoryExactly(cfg: Config, samples: seq<bool>)
    ensures History(cfg, samples) == AllCalls(cfg, Downs(cfg, samples))
    ensures After(cfg, samples).event == Shown(cfg, Downs(cfg, samples))
  {
    hide Step, StepCalls, StepShown, Calls, Idle, Presses, SincePress, SinceRelease, HoldReports, Counted, Down, Before;
    if samples != [] {
      var before, p := samples[..|samples| - 1], Downs(cfg, samples);
      HistoryExactly(cfg, before);
      ReportsExactly(cfg, samples);
      AlwaysCounted(cfg, samples);
      DownsStep(cfg, samples);
      IdleIsUp(cfg, before);
      ShownStep(cfg, p, Shown(cfg, Downs(cfg, before)));
    }
  }

  /** When the button is down, from the samples alone, for thresholds up to 7. */
  lemma {:induction false} DownsAreLevels(cfg: Config, samples: seq<bool>, i: nat)
    requires cfg.debounce <= 7 && i < |samples|
    ensures |Downs(cfg, samples)| == |samples|
    ensures Downs(cfg, samples)[i] <==>
      Level(samples[..i + 1], if cfg.debounce == 0 then 1 else cfg.debounce, !cfg.active) == cfg.active
  {
    hide After, Level, Trail;
    var n := |samples| - 1;
    if i == n {
      LevelIsDebounced(cfg, samples);
      assert samples[..i + 1] == samples;
      DownsLength(cfg, samples[..n]);
    } else {
      DownsAreLevels(cfg, samples[..n], i);
      assert samples[..n][..i + 1] == samples[..i + 1];
    }
  }

  lemma {:induction false} DownsLength(cfg: Config, samples: seq<bool>)
    ensures |Downs(cfg, samples)| == |samples|
  {
    hide After;
    if samples != [] {
      DownsLength(cfg, samples[..|samples| - 1]);
    }
  }

  // ----------------------------------------------------------------- in particular

  /** The last tick made the button idle without PRESS_REPEAT_DONE. */
  predicate EndsQuietly(cfg: Config, samples: seq<bool>)
    requires samples != []
  {
    && After(cfg, samples[..|samples| - 1]).state != 0 && After(cfg, samples).state == 0
    && PressRepeatDone !in Reported(cfg, samples)
  }

  lemma OneKind(cfg: Config, p: seq<bool>)
    requires p != []
    ensures PressRepeatDone in Calls(cfg, p) <==> TimesOut(cfg, p)
    ensures PressRepeat in Calls(cfg, p) <==> Rises(p) && !Idle(cfg, Before(p))
    ensures SingleClick in Calls(cfg, p) <==> TimesOut(cfg, p) && Presses(cfg, p) % 0x100 == 1
    ensures DoubleClick in Calls(cfg, p) <==> TimesOut(cfg, p) && Presses(cfg, p) % 0x100 == 2
  {
    hide Idle, Presses, SincePress, SinceRelease, HoldAt, Before;
  }

  /** Over every run, the button is idle exactly when no burst is going on.  PRESS_REPEAT_DONE
      comes exactly when a burst is ended by the time after its last release, one tick past the
      threshold; a burst ends without it exactly at the release of a lone press that had become
      a long one, or of a repeated press that was not short. */
  lemma BurstsEnd(cfg: Config, samples: seq<bool>)
    ensures After(cfg, samples).state == 0 <==> Idle(cfg, Downs(cfg, samples))
    ensures samples != [] ==>
      var p := Downs(cfg, samples);
      && (PressRepeatDone in Reported(cfg, samples) <==> TimesOut(cfg, p))
      && (EndsQuietly(cfg, samples) <==> ReleasedLate(cfg, p))
      && (PressRepeat in Reported(cfg, samples) <==> Rises(p) && !Idle(cfg, Before(p)))
  {
    hide Step, Idle, Presses, SincePress, SinceRelease, TimesOut, ReleasedLate, Down, Before, HoldReports, StepCalls, StepShown;
    AlwaysCounted(cfg, samples);
    if samples != [] {
      var p := Downs(cfg, samples);
      AlwaysCounted(cfg, samples[..|samples| - 1]);
      DownsStep(cfg, samples);
      EndsEitherWay(cfg, p);
      ReportsExactly(cfg, samples);
      OneKind(cfg, p);
    }
  }

  /** A burst that ends by the time after its last release ends in SINGLE_CLICK if and only if
      it had one press, and in DOUBLE_CLICK if and only if it had two (the press counter has 8
      bits).  No other burst ends in either. */
  lemma ClicksCountPresses(cfg: Config, samples: seq<bool>)
    requires samples != []
    ensures var p := Downs(cfg, samples);
      && (SingleClick in Reported(cfg, samples) <==> TimesOut(cfg, p) && Presses(cfg, p) % 0x100 == 1)
      && (DoubleClick in Reported(cfg, samples) <==> TimesOut(cfg, p) && Presses(cfg, p) % 0x100 == 2)
  {
    hide Step, Idle, Presses, SincePress, SinceRelease, TimesOut, Down, Before, HoldAt, Calls;
    ReportsExactly(cfg, samples);
    DownsStep(cfg, samples);
    OneKind(cfg, Downs(cfg, samples));
  }

  /** LONG_PRESS_START comes exactly when the first press of a burst has been held for one
      tick more than its threshold. */
  lemma LongPressAt(cfg: Config, samples: seq<bool>)
    requires samples != []
    ensures var p := Downs(cfg, samples);
      LongPressStart in Reported(cfg, samples) <==>
        Down(p) && Presses(cfg, p) == 1 && cfg.longPress < 0xFFFF && SincePress(p) == cfg.longPress + 1
  {
    hide Step, Idle, Presses, SinceRelease, HoldReports;
    ReportsExactly(cfg, samples);
    DownsStep(cfg, samples);
  }

  /** From then on, for as long as the 16-bit tick counter lasts, the hold count is one for
      every `serial` ticks since the press, made up for at one a tick. */
  lemma HoldsAreCounted(cfg: Config, samples: seq<bool>)
    requires samples != []
    ensures var p := Downs(cfg, samples);
      SincePress(p) <= 0xFFFF && Down(p) && Presses(cfg, p) == 1 && SincePress(p) > cfg.longPress + 1 ==>
        && After(cfg, samples).hold == Holds(cfg, SincePress(p))
        && (LongPressHold in Reported(cfg, samples) <==> Holds(cfg, SincePress(p)) > Holds(cfg, SincePress(p) - 1))
  {
    hide Step, Idle, Presses, SinceRelease, HoldReports, Holds;
    var p := Downs(cfg, samples);
    AlwaysCounted(cfg, samples);
    ReportsExactly(cfg, samples);
    if 0 < SincePress(p) <= 0xFFFF {
      HoldsClosed(cfg, SincePress(p));
      HoldsClosed(cfg, SincePress(p) - 1);
      HoldStepIs(cfg, SincePress(p));
    }
  }

  lemma HoldStepIs(cfg: Config, press: nat)
    requires press > 0
    ensures HoldAt(cfg, press) <==> HoldReports(cfg, press) > HoldReports(cfg, press - 1)
  {
  }

  lemma OneMore(cfg: Config, samples: seq<bool>, sample: bool)
    ensures var r, more := Step(cfg, After(cfg, samples), sample), samples + [sample];
      && After(cfg, more) == r.st && History(cfg, more) == History(cfg, samples) + r.events
      && BurstOf(cfg, Downs(cfg, more)) == NextBurst(cfg, BurstOf(cfg, Downs(cfg, samples)), r.st.level == cfg.active)
  {
    hide Step, BurstOf, NextBurst, Down, Before;
    var more := samples + [sample];
    assert more[..|samples|] == samples;
    DownsStep(cfg, more);
    BurstStep(cfg, Downs(cfg, more));
  }

  /** Two presses and no click: the second one was held too long to be short. */
  lemma TwoPressesNoClick()
    ensures var cfg := Config(1, 1, 1, 100, 5, true);
      var samples := [true, false, true, true, false];
      && After(cfg, samples).state == 0 && Presses(cfg, Downs(cfg, samples)) == 2
      && History(cfg, samples) == [PressDown, PressUp, PressDown, PressRepeat, PressUp]
  {
    hide After, History, Downs, Idle, Presses, SincePress, SinceRelease;
    var cfg := Config(1, 1, 1, 100, 5, true);
    PressedTwice(cfg);
    assert [true, false, true] + [true] == [true, false, true, true];
    OneMore(cfg, [true, false, true], true);
    assert After(cfg, [true, false, true, true]) == State(1, 0, 2, 3, 0, true, PressDown);
    assert [true, false, true, true] + [false] == [true, false, true, true, false];
    OneMore(cfg, [true, false, true, true], false);
  }

  lemma PressedTwice(cfg: Config)
    requires cfg == Config(1, 1, 1, 100, 5, true)
    ensures var samples := [true, false, true];
      && After(cfg, samples) == State(0, 0, 2, 3, 0, true, PressDown)
      && BurstOf(cfg, Downs(cfg, samples)) == Burst(true, false, 2, 0, 1)
      && History(cfg, samples) == [PressDown, PressUp, PressDown, PressRepeat]
  {
    hide After, History, Downs, BurstOf;
    Nothing(cfg);
    assert [] + [true] == [true];
    OneMore(cfg, [], true);
    assert After(cfg, [true]) == State(0, 0, 1, 1, 0, true, PressDown);
    assert [true] + [false] == [true, false];
    OneMore(cfg, [true], false);
    assert After(cfg, [true, false]) == State(0, 0, 1, 2, 0, false, PressUp);
    assert [true, false] + [true] == [true, false, true];
    OneMore(cfg, [true, false], true);
  }

  lemma Nothing(cfg: Config)
    ensures After(cfg, []) == Fresh(cfg) && History(cfg, []) == [] && Downs(cfg, []) == [] && BurstOf(cfg, []) == Burst(false, true, 0, 0, 0)
  {
  }
}
