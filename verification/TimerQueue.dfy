/** The timer list as the code updates it. */
module TimerQueue {
  import opened Timer
  import opened TimerMerge

  class Queue {
    const setup: Setup
    var list: seq<nat>
    var when: map<nat, nat>

    ghost predicate Valid()
      reads this
    {
      Ordered(list, when) && forall id :: Has(list, id) && setup.repeat(id) ==> setup.period(id) >= 1
    }

    constructor (setup: Setup)
      ensures Valid() && this.setup == setup && list == []
    {
      this.setup, list, when := setup, [], map[];
    }

    /** `oblfr_timer_insert`. */
    method Insert(t: nat)
      requires Ordered(list, when) && !Has(list, t)
      modifies this`list
      ensures list == Inserted(old(list), when, t) && Ordered(list, when)
    {
      InsertKeepsOrder(list, when, t);
      var k := 0;
      while k < |list| && At(when, list[k]) <= At(when, t)
        invariant k <= |list| && forall i :: 0 <= i < k ==> At(when, list[i]) <= At(when, t)
      {
        k := k + 1;
      }
      list := list[..k] + [t] + list[k..];
    }

    /** `oblfr_timer_remove`. */
    method Remove(t: nat)
      requires Valid() && t in list
      modifies this
      ensures Valid() && list == Removed(old(list), t) && when == old(when)[t := 0]
      ensures forall id :: Has(list, id) <==> Has(old(list), id) && id != t
    {
      var c := Find(list, t);
      CutMembers(list, when, c);
      OrderedElsewhere(Cut(list, c), when, t, 0);
      list := Cut(list, c);
      when := when[t := 0];
    }

    /** `oblfr_timer_process`.  The clock is read once for every timer looked at, so the
        reading number `|fired|` is the last one. */
    method Process(clock: nat -> nat, ghost limit: nat) returns (fired: seq<Firing>)
      requires Valid() && Advances(clock, limit)
      modifies this
      ensures Valid()
      ensures OnTime(clock, fired)
      ensures var now := clock(|fired|);
        && Faithful(setup, old(when), now, fired)
        && Advanced(setup, old(list), old(when), list, when, fired)
        && (forall id :: Has(old(list), id) && At(old(when), id) <= now ==> Count(fired, id) >= 1)
        && (fired != [] ==> Debt(list, when, now) < Debt(old(list), old(when), now))
        && (NothingDue(list, when, now) <==> CatchesUp(setup, old(list), old(when), now))
      ensures |old(list)| == 1 ==> |fired| <= 1
    {
      hide Midway, Faithful, Advanced, Debt, Count, Successor, Removed, Cut, Place, Inserted, Cursor, Ahead, Has, Due, Ordered, Stands, NothingDue, CatchesUp, Holds, Advances, OnTime, At;
      ghost var list0, when0 := list, when;
      ghost var c: nat := 0;
      ghost var read: nat := 0;
      HoldsFirst(setup, list, when);
      fired := [];
      assert OnTime(clock, fired) by {
        NoneYet(clock);
      }
      var t := CursorAt(list, 0);
      while t.Some?
        invariant Holds(setup, list0, when0, read, list, c, when, fired) && t == CursorAt(list, c)
        invariant read == if fired == [] then 0 else clock(|fired| - 1)
        invariant OnTime(clock, fired)
        invariant |list| <= |list0| && (|list0| == 1 ==> |fired| <= 1 && (fired != [] ==> c >= |list|))
        decreases Debt(Ahead(list, c), when, limit)
      {
        var now := clock(|fired|);
        if At(when, t.value) > now {
          break;
        }
        ReadingsRise(clock, limit, |fired|);
        FiresOnTime(clock, fired, Firing(t.value, At(when, t.value)));
        ghost var listt, firedt := list, fired;
        var next := Successor(list, t.value);
        list := Removed(list, t.value);
        fired := fired + [Firing(t.value, At(when, t.value))];
        if setup.repeat(t.value) {
          RoundRepeat(setup, list0, when0, read, now, limit, listt, c, when, firedt);
          when := when[t.value := At(when, t.value) + setup.period(t.value)];
          Insert(t.value);
          c := Cursor(listt, c, when, t.value);
        } else {
          RoundOneShot(setup, list0, when0, read, now, limit, listt, c, when, firedt);
        }
        read := now;
        t := next;
      }
      ReadingsRise(clock, limit, |fired|);
      Over(setup, list0, when0, read, clock(|fired|), list, c, when, fired);
    }
  }

  /** No timer fires before the clock read for it has reached its deadline. */
  ghost predicate OnTime(clock: nat -> nat, fired: seq<Firing>) {
    forall i :: 0 <= i < |fired| ==> fired[i].deadline <= clock(i)
  }

  lemma NoneYet(clock: nat -> nat)
    ensures OnTime(clock, [])
  {
  }

  lemma FiresOnTime(clock: nat -> nat, fired: seq<Firing>, f: Firing)
    requires OnTime(clock, fired) && f.deadline <= clock(|fired|)
    ensures OnTime(clock, fired + [f])
  {
  }

  /** Readings of a clock that does not go backwards, nor past `limit` while the pass lasts. */
  ghost predicate Advances(clock: nat -> nat, limit: nat) {
    forall i: nat, j: nat :: i <= j ==> clock(i) <= clock(j) <= limit
  }

  lemma ReadingsRise(clock: nat -> nat, limit: nat, n: nat)
    requires Advances(clock, limit)
    ensures (n > 0 ==> clock(n - 1) <= clock(n)) && clock(n) <= limit
  {
  }

  /** What holds midway, for a pass that ends at time `w`. */
  ghost predicate Good(s: Setup, list0: seq<nat>, when0: map<nat, nat>, w: nat, list: seq<nat>, c: nat, when: map<nat, nat>, fired: seq<Firing>) {
    && Midway(s, list0, when0, w, list, c, when, fired) && Stands(s, list0, when0, w, list, c, when, fired)
    && if fired == [] then list == list0 && when == when0 && c == 0 else Debt(list, when, w) < Debt(list0, when0, w)
  }

  /** It may end at any time from the last reading on. */
  ghost predicate Holds(s: Setup, list0: seq<nat>, when0: map<nat, nat>, read: nat, list: seq<nat>, c: nat, when: map<nat, nat>, fired: seq<Firing>) {
    forall w: nat :: w >= read ==> Good(s, list0, when0, w, list, c, when, fired)
  }

  lemma HoldsFirst(s: Setup, list: seq<nat>, when: map<nat, nat>)
    requires Ordered(list, when)
    ensures Holds(s, list, when, 0, list, 0, when, [])
  {
    hide Midway, Stands, Ordered;
    forall w: nat
      ensures Good(s, list, when, w, list, 0, when, [])
    {
      Start(s, list, when, w);
      MergeStarts(s, list, when, w);
    }
  }

  lemma RoundOneShot(s: Setup, list0: seq<nat>, when0: map<nat, nat>, read: nat, now: nat, limit: nat, list: seq<nat>, c: nat, when: map<nat, nat>, fired: seq<Firing>)
    requires Holds(s, list0, when0, read, list, c, when, fired) && read <= now <= limit
    requires c < |list| && At(when, list[c]) <= now && !s.repeat(list[c])
    requires forall id :: Has(list0, id) && s.repeat(id) ==> s.period(id) >= 1
    ensures Removed(list, list[c]) == Cut(list, c) && |Cut(list, c)| == |list| - 1
    ensures Successor(list, list[c]) == CursorAt(Cut(list, c), c)
    ensures Holds(s, list0, when0, now, Cut(list, c), c, when, fired + [Firing(list[c], At(when, list[c]))])
    ensures Debt(Ahead(Cut(list, c), c), when, limit) < Debt(Ahead(list, c), when, limit)
  {
    hide Midway, Debt, Successor, Removed, Cut, Ahead, Has, Stands, At;
    assert Good(s, list0, when0, now, list, c, when, fired) && Good(s, list0, when0, limit, list, c, when, fired);
    AfterOneShot(s, list0, when0, now, list, c, when, fired);
    AfterOneShot(s, list0, when0, limit, list, c, when, fired);
    forall w: nat | w >= now
      ensures Good(s, list0, when0, w, Cut(list, c), c, when, fired + [Firing(list[c], At(when, list[c]))])
    {
      assert Good(s, list0, when0, w, list, c, when, fired);
      AfterOneShot(s, list0, when0, w, list, c, when, fired);
    }
  }

  lemma RoundRepeat(s: Setup, list0: seq<nat>, when0: map<nat, nat>, read: nat, now: nat, limit: nat, list: seq<nat>, c: nat, when: map<nat, nat>, fired: seq<Firing>)
    requires Holds(s, list0, when0, read, list, c, when, fired) && read <= now <= limit
    requires c < |list| && At(when, list[c]) <= now && s.repeat(list[c])
    requires forall id :: Has(list0, id) && s.repeat(id) ==> s.period(id) >= 1
    ensures Removed(list, list[c]) == Cut(list, c) && !Has(Cut(list, c), list[c])
    ensures var t := list[c];
      var when', fired' := when[t := At(when, t) + s.period(t)], fired + [Firing(t, At(when, t))];
      var list', c' := Inserted(Cut(list, c), when', t), Cursor(list, c, when', t);
      && Ordered(Cut(list, c), when') && |list'| == |list| && (|list| == 1 ==> c' == 1)
      && Successor(list, t) == CursorAt(list', c')
      && Holds(s, list0, when0, now, list', c', when', fired')
      && Debt(Ahead(list', c'), when', limit) < Debt(Ahead(list, c), when, limit)
  {
    hide Midway, Debt, Successor, Removed, Cut, Ahead, Has, Stands, At, Inserted, Cursor, Ordered;
    assert Good(s, list0, when0, now, list, c, when, fired) && Good(s, list0, when0, limit, list, c, when, fired);
    AfterRepeat(s, list0, when0, now, list, c, when, fired);
    AfterRepeat(s, list0, when0, limit, list, c, when, fired);
    var t := list[c];
    var when', fired' := when[t := At(when, t) + s.period(t)], fired + [Firing(t, At(when, t))];
    forall w: nat | w >= now
      ensures Good(s, list0, when0, w, Inserted(Cut(list, c), when', t), Cursor(list, c, when', t), when', fired')
    {
      assert Good(s, list0, when0, w, list, c, when, fired);
      AfterRepeat(s, list0, when0, w, list, c, when, fired);
    }
  }

  /** The end of the pass. */
  lemma Over(s: Setup, list0: seq<nat>, when0: map<nat, nat>, read: nat, now: nat, list: seq<nat>, c: nat, when: map<nat, nat>, fired: seq<Firing>)
    requires Holds(s, list0, when0, read, list, c, when, fired) && read <= now
    requires CursorAt(list, c).Some? ==> At(when, list[c]) > now
    requires forall id :: Has(list0, id) && s.repeat(id) ==> s.period(id) >= 1
    ensures Ordered(list, when) && Faithful(s, when0, now, fired) && Advanced(s, list0, when0, list, when, fired)
    ensures forall id :: Has(list, id) && s.repeat(id) ==> s.period(id) >= 1
    ensures forall id :: Has(list0, id) && At(when0, id) <= now ==> Count(fired, id) >= 1
    ensures fired != [] ==> Debt(list, when, now) < Debt(list0, when0, now)
    ensures NothingDue(list, when, now) <==> CatchesUp(s, list0, when0, now)
  {
    hide Midway, Debt, Has, Stands, At, Ordered, Faithful, Advanced, NothingDue, CatchesUp, Count;
    assert Good(s, list0, when0, now, list, c, when, fired);
    NoneLeftBehind(s, list0, when0, now, list, c, when, fired);
    PassDecided(s, list0, when0, now, list, c, when, fired);
    Finish(s, list0, when0, now, list, c, when, fired);
  }

  /** One round of the loop for a one-shot. */
  lemma AfterOneShot(s: Setup, list0: seq<nat>, when0: map<nat, nat>, now: nat, list: seq<nat>, c: nat, when: map<nat, nat>, fired: seq<Firing>)
    requires Midway(s, list0, when0, now, list, c, when, fired) && Stands(s, list0, when0, now, list, c, when, fired)
    requires c < |list| && At(when, list[c]) <= now && !s.repeat(list[c])
    requires forall id :: Has(list0, id) && s.repeat(id) ==> s.period(id) >= 1
    ensures Removed(list, list[c]) == Cut(list, c) && |Cut(list, c)| == |list| - 1
    ensures Successor(list, list[c]) == CursorAt(Cut(list, c), c)
    ensures var fired' := fired + [Firing(list[c], At(when, list[c]))];
      Midway(s, list0, when0, now, Cut(list, c), c, when, fired') && Stands(s, list0, when0, now, Cut(list, c), c, when, fired')
    ensures Debt(Ahead(Cut(list, c), c), when, now) < Debt(Ahead(list, c), when, now)
    ensures Debt(Cut(list, c), when, now) < Debt(list, when, now)
  {
    hide Midway, Faithful, Advanced, Debt, Count, Successor, Removed, Cut, Ahead, Has, Due, Ordered, Stands;
    PeriodAtLeastOne(s, list0, when0, now, list, c, when, fired);
    NextAfterCut(list, c, when);
    CutKeeps(list, c, when);
    TakeOut(s, list0, when0, now, list, c, when, fired);
    OneShotStands(s, list0, when0, now, list, c, when, fired);
    DebtCut(list, c, when, now);
  }

  /** One round of the loop for a periodic timer. */
  lemma AfterRepeat(s: Setup, list0: seq<nat>, when0: map<nat, nat>, now: nat, list: seq<nat>, c: nat, when: map<nat, nat>, fired: seq<Firing>)
    requires Midway(s, list0, when0, now, list, c, when, fired) && Stands(s, list0, when0, now, list, c, when, fired)
    requires c < |list| && At(when, list[c]) <= now && s.repeat(list[c])
    requires forall id :: Has(list0, id) && s.repeat(id) ==> s.period(id) >= 1
    ensures Removed(list, list[c]) == Cut(list, c) && !Has(Cut(list, c), list[c])
    ensures var t := list[c];
      var when', fired' := when[t := At(when, t) + s.period(t)], fired + [Firing(t, At(when, t))];
      var list', c' := Inserted(Cut(list, c), when', t), Cursor(list, c, when', t);
      && Ordered(Cut(list, c), when') && |list'| == |list| && (|list| == 1 ==> c' == 1)
      && Successor(list, t) == CursorAt(list', c')
      && Midway(s, list0, when0, now, list', c', when', fired') && Stands(s, list0, when0, now, list', c', when', fired')
      && Debt(Ahead(list', c'), when', now) < Debt(Ahead(list, c), when, now)
      && Debt(list', when', now) < Debt(list, when, now)
  {
    hide Midway, Faithful, Advanced, Debt, Count, Successor, Removed, Cut, Ahead, Has, Due, Ordered, Stands, Inserted, Cursor, At;
    PeriodAtLeastOne(s, list0, when0, now, list, c, when, fired);
    var t, p := list[c], s.period(list[c]);
    NextAfterCut(list, c, when);
    CutKeeps(list, c, when);
    OrderedElsewhere(Cut(list, c), when, t, At(when, t) + p);
    PutBack(s, list0, when0, now, list, c, when, fired);
    RepeatStands(s, list0, when0, now, list, c, when, fired);
    NextIsAhead(list, c, when, p);
    LoneCursor(list, c, when, p);
    DebtFalls(list, c, when, now, p);
  }
}
