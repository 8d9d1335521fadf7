/** The software timer list: sorted by deadline, and processed by a loop that puts periodic
    timers back into the list it is walking. */
module Timer {
  import opened Options

  /** The deadline of a timer. */
  function At(when: map<nat, nat>, id: nat): nat { if id in when then when[id] else 0 }

  predicate Has(list: seq<nat>, id: nat) { id in list }

  /** No timer is in the list twice, and deadlines do not decrease along it. */
  predicate Ordered(list: seq<nat>, when: map<nat, nat>) {
    && (forall i, j :: 0 <= i < j < |list| ==> list[i] != list[j])
    && (forall i, j :: 0 <= i < j < |list| ==> At(when, list[i]) <= At(when, list[j]))
  }

  /** Where a timer with deadline `w` goes: behind all that are no later. */
  function Place(list: seq<nat>, when: map<nat, nat>, w: nat): (k: nat)
    ensures k <= |list| && (forall i :: 0 <= i < k ==> At(when, list[i]) <= w)
    ensures k < |list| ==> At(when, list[k]) > w
  {
    if list == [] || At(when, list[0]) > w then 0 else 1 + Place(list[1..], when, w)
  }

  function InsertAt(list: seq<nat>, k: nat, t: nat): seq<nat>
    requires k <= |list|
  {
    list[..k] + [t] + list[k..]
  }

  function Inserted(list: seq<nat>, when: map<nat, nat>, t: nat): seq<nat> {
    InsertAt(list, Place(list, when, At(when, t)), t)
  }

  function Cut(list: seq<nat>, c: nat): seq<nat>
    requires c < |list|
  {
    list[..c] + list[c + 1..]
  }

  /** Where a timer is, |list| if nowhere. */
  function Find(list: seq<nat>, t: nat): (c: nat)
    ensures c <= |list| && (c < |list| ==> list[c] == t) && (forall i :: 0 <= i < c ==> list[i] != t)
  {
    if list == [] || list[0] == t then 0 else 1 + Find(list[1..], t)
  }

  function Removed(list: seq<nat>, t: nat): seq<nat> {
    var c := Find(list, t);
    if c < |list| then Cut(list, c) else list
  }

  function Successor(list: seq<nat>, t: nat): Option<nat> {
    var c := Find(list, t);
    if c + 1 < |list| then Some(list[c + 1]) else None
  }

  lemma CutMembers(list: seq<nat>, when: map<nat, nat>, c: nat)
    requires c < |list| && Ordered(list, when)
    ensures Ordered(Cut(list, c), when) && |Cut(list, c)| == |list| - 1
    ensures forall id :: Has(Cut(list, c), id) <==> Has(list, id) && id != list[c]
  {
    var r := Cut(list, c);
    assert forall i :: 0 <= i < |r| ==> r[i] == list[if i < c then i else i + 1];
    forall i | 0 <= i < |list| && i != c
      ensures list[i] in r
    {
      assert r[if i < c then i else i - 1] == list[i];
    }
  }

  lemma InsertMembers(list: seq<nat>, k: nat, t: nat)
    requires k <= |list|
    ensures forall id :: Has(InsertAt(list, k, t), id) <==> Has(list, id) || id == t
    ensures forall i :: 0 <= i < |list| + 1 ==> InsertAt(list, k, t)[i] == if i < k then list[i] else if i == k then t else list[i - 1]
  {
    var r := InsertAt(list, k, t);
    forall i | 0 <= i < |list|
      ensures list[i] in r
    {
      assert r[if i < k then i else i + 1] == list[i];
    }
    assert r[k] == t;
  }

  /** Inserting keeps the order. */
  lemma InsertKeepsOrder(list: seq<nat>, when: map<nat, nat>, t: nat)
    requires Ordered(list, when) && !Has(list, t)
    ensures Ordered(Inserted(list, when, t), when)
  {
    assert forall i :: 0 <= i < |list| ==> list[i] != t;
    hide Has;
    InsertMembers(list, Place(list, when, At(when, t)), t);
  }

  // --------------------------------------------------------- the pass's record

  /** One callback: which timer, at what deadline. */
  datatype Firing = Firing(id: nat, deadline: nat)

  function Count(fired: seq<Firing>, id: nat): nat {
    if fired == [] then 0
    else Count(fired[..|fired| - 1], id) + if fired[|fired| - 1].id == id then 1 else 0
  }

  lemma CountOne(fired: seq<Firing>, f: Firing, id: nat)
    ensures Count(fired + [f], id) == Count(fired, id) + if id == f.id then 1 else 0
  {
    assert (fired + [f])[..|fired|] == fired;
  }

  datatype Setup = Setup(period: nat -> nat, repeat: nat -> bool)

  /** A timer's deadline after `k` firings. */
  function Due(s: Setup, when0: map<nat, nat>, id: nat, k: nat): nat {
    At(when0, id) + k * s.period(id)
  }

  /** Timers fire at their successive deadlines, never early, in order of deadline. */
  ghost predicate Faithful(s: Setup, when0: map<nat, nat>, now: nat, fired: seq<Firing>) {
    fired == [] ||
    var before, f := fired[..|fired| - 1], fired[|fired| - 1];
    && Faithful(s, when0, now, before)
    && f.deadline == Due(s, when0, f.id, Count(before, f.id))
    && Last(before) <= f.deadline <= now
  }

  function Last(fired: seq<Firing>): nat { if fired == [] then 0 else fired[|fired| - 1].deadline }

  /** The same for any two firings of a pass. */
  lemma {:induction false} FaithfulAt(s: Setup, when0: map<nat, nat>, now: nat, fired: seq<Firing>, i: nat, j: nat)
    requires Faithful(s, when0, now, fired) && i <= j < |fired|
    ensures fired[i].deadline <= fired[j].deadline <= now
    ensures fired[j].deadline == Due(s, when0, fired[j].id, Count(fired[..j], fired[j].id))
  {
    var n := |fired| - 1;
    if j < n {
      FaithfulAt(s, when0, now, fired[..n], i, j);
      assert fired[..n][..j] == fired[..j];
    } else if i < n {
      FaithfulAt(s, when0, now, fired[..n], i, n - 1);
    }
  }

  /** A one-shot that fired is gone, anything else is still there, one period later for
      every time it fired. */
  ghost predicate Advanced(s: Setup, list0: seq<nat>, when0: map<nat, nat>, list: seq<nat>, when: map<nat, nat>, fired: seq<Firing>) {
    && (forall id :: Has(list, id) <==> Has(list0, id) && (s.repeat(id) || Count(fired, id) == 0))
    && (forall id :: Has(list, id) ==> At(when, id) == Due(s, when0, id, Count(fired, id)))
    && (forall id :: Has(list0, id) && !s.repeat(id) ==> Count(fired, id) <= 1)
    && (forall id :: !Has(list0, id) ==> Count(fired, id) == 0)
  }

  /** Midway through a pass, the cursor at index `c`: what is before it has fired, and what
      it has still to reach is no earlier than anything that fired. */
  ghost predicate Midway(s: Setup, list0: seq<nat>, when0: map<nat, nat>, now: nat,
                         list: seq<nat>, c: nat, when: map<nat, nat>, fired: seq<Firing>) {
    && c <= |list| && Ordered(list, when)
    && Faithful(s, when0, now, fired) && Advanced(s, list0, when0, list, when, fired)
    && (forall i :: 0 <= i < c ==> Count(fired, list[i]) > 0)
    && (forall j :: c <= j < |list| ==> Last(fired) <= At(when, list[j]))
  }

  lemma FireOne(s: Setup, when0: map<nat, nat>, now: nat, fired: seq<Firing>, id: nat, w: nat)
    requires Faithful(s, when0, now, fired) && w == Due(s, when0, id, Count(fired, id)) && Last(fired) <= w <= now
    ensures Faithful(s, when0, now, fired + [Firing(id, w)])
  {
    hide Due, Count;
    assert (fired + [Firing(id, w)])[..|fired|] == fired;
  }

  lemma CountsAfter(fired: seq<Firing>, f: Firing)
    ensures forall id :: Count(fired + [f], id) == Count(fired, id) + if id == f.id then 1 else 0
  {
    forall id
      ensures Count(fired + [f], id) == Count(fired, id) + if id == f.id then 1 else 0
    {
      CountOne(fired, f, id);
    }
  }

  /** The timer at the cursor is taken out and fires; a one-shot needs no more. */
  lemma TakeOut(s: Setup, list0: seq<nat>, when0: map<nat, nat>, now: nat, list: seq<nat>, c: nat, when: map<nat, nat>, fired: seq<Firing>)
    requires Midway(s, list0, when0, now, list, c, when, fired) && c < |list| && At(when, list[c]) <= now
    ensures var fired' := fired + [Firing(list[c], At(when, list[c]))];
      && Faithful(s, when0, now, fired')
      && (!s.repeat(list[c]) ==> Midway(s, list0, when0, now, Cut(list, c), c, when, fired'))
  {
    var t, list' := list[c], Cut(list, c);
    var f := Firing(t, At(when, t));
    assert Has(list, t);
    FireOne(s, when0, now, fired, t, At(when, t));
    if !s.repeat(t) {
      CutMembers(list, when, c);
      CutBounds(list, when, c);
      DropRecord(s, list0, when0, list, list', when, fired, t);
      CountsAfter(fired, f);
      hide Count, Faithful, Due, Ordered, Advanced, Cut;
    }
  }

  lemma CutBounds(list: seq<nat>, when: map<nat, nat>, c: nat)
    requires Ordered(list, when) && c < |list|
    ensures forall i :: 0 <= i < c ==> Cut(list, c)[i] == list[i]
    ensures forall i :: c <= i < |list| - 1 ==> Cut(list, c)[i] == list[i + 1] && At(when, list[c]) <= At(when, Cut(list, c)[i])
    ensures |Cut(list, c)| == |list| - 1
  {
  }

  lemma DropRecord(s: Setup, list0: seq<nat>, when0: map<nat, nat>, list: seq<nat>, list': seq<nat>, when: map<nat, nat>, fired: seq<Firing>, t: nat)
    requires Advanced(s, list0, when0, list, when, fired) && Has(list, t) && !s.repeat(t)
    requires forall id :: Has(list', id) <==> Has(list, id) && id != t
    ensures Advanced(s, list0, when0, list', when, fired + [Firing(t, At(when, t))])
  {
    CountsAfter(fired, Firing(t, At(when, t)));
    hide Count, Due;
  }

  /** A periodic timer is put back one period later.  The cursor goes to the old successor:
      the timer ends up before it exactly when it is now the earlier of the two. */
  lemma PutBack(s: Setup, list0: seq<nat>, when0: map<nat, nat>, now: nat, list: seq<nat>, c: nat, when: map<nat, nat>, fired: seq<Firing>)
    requires Midway(s, list0, when0, now, list, c, when, fired) && c < |list| && At(when, list[c]) <= now
    requires s.repeat(list[c]) && s.period(list[c]) >= 1
    ensures var t := list[c];
      var when' := when[t := At(when, t) + s.period(t)];
      var fired' := fired + [Firing(t, At(when, t))];
      var list' := Inserted(Cut(list, c), when', t);
      Midway(s, list0, when0, now, list', Cursor(list, c, when', t), when', fired')
  {
    hide Faithful, Ordered, Advanced, Inserted, Due, Cut, Count, Cursor, Has, Place, At;
    var t := list[c];
    var w := At(when, t);
    var when' := when[t := w + s.period(t)];
    var fired' := fired + [Firing(t, w)];
    var list' := Inserted(Cut(list, c), when', t);
    HasIndex(list, c);
    TakeOut(s, list0, when0, now, list, c, when, fired);
    PutBackOrder(list, c, when, s.period(t));
    PutBackRecord(s, list0, when0, list, when, fired, t);
    AdvancedSame(s, list0, when0, list, list', when', fired');
    var c' := Cursor(list, c, when', t);
    assert c' <= |list'| by {
      CursorInside(list, c, when', t);
    }
    forall i | 0 <= i < c'
      ensures Count(fired', list'[i]) > 0
    {
      PutBackBefore(list, c, when, s.period(t), i);
      CountOne(fired, Firing(t, w), list'[i]);
    }
    forall j | c' <= j < |list'|
      ensures Last(fired') <= At(when', list'[j])
    {
      PutBackAfter(list, c, when, s.period(t), j);
    }
  }

  lemma HasIndex(list: seq<nat>, c: nat)
    requires c < |list|
    ensures Has(list, list[c])
  {
  }

  lemma CursorInside(list: seq<nat>, c: nat, when: map<nat, nat>, t: nat)
    requires c < |list|
    ensures Cursor(list, c, when, t) <= |list|
  {
  }

  lemma AdvancedSame(s: Setup, list0: seq<nat>, when0: map<nat, nat>, list: seq<nat>, list': seq<nat>, when: map<nat, nat>, fired: seq<Firing>)
    requires Advanced(s, list0, when0, list, when, fired) && forall id :: Has(list', id) <==> Has(list, id)
    ensures Advanced(s, list0, when0, list', when, fired)
  {
    hide Count, Due;
  }

  /** Order and membership when the timer at `c` is put back `p` later. */
  lemma PutBackOrder(list: seq<nat>, c: nat, when: map<nat, nat>, p: nat)
    requires Ordered(list, when) && c < |list| && p >= 1
    ensures var when' := when[list[c] := At(when, list[c]) + p];
      var list' := Inserted(Cut(list, c), when', list[c]);
      Ordered(list', when') && (forall id :: Has(list', id) <==> Has(list, id)) && |list'| == |list|
  {
    hide Ordered, Place, Has;
    var t, list1 := list[c], Cut(list, c);
    var when' := when[t := At(when, t) + p];
    CutMembers(list, when, c);
    OrderedElsewhere(list1, when, t, At(when, t) + p);
    InsertKeepsOrder(list1, when', t);
    HasIndex(list, c);
    InsertMembers(list1, Place(list1, when', At(when', t)), t);
  }

  /** Before the cursor there is only what was there, and perhaps the timer put back. */
  lemma PutBackBefore(list: seq<nat>, c: nat, when: map<nat, nat>, p: nat, i: nat)
    requires Ordered(list, when) && c < |list| && p >= 1
    requires i < Cursor(list, c, when[list[c] := At(when, list[c]) + p], list[c])
    ensures var list' := Inserted(Cut(list, c), when[list[c] := At(when, list[c]) + p], list[c]);
      i < |list'| && (list'[i] == list[c] || (i < c && list'[i] == list[i]))
  {
    var t, list1 := list[c], Cut(list, c);
    var when' := when[t := At(when, t) + p];
    CutBounds(list, when, c);
    BehindCursor(list, c, when, p);
    InsertMembers(list1, Place(list1, when', At(when', t)), t);
    hide Ordered, Place, Cut, InsertAt;
  }

  /** From the cursor on nothing is earlier than what has just fired. */
  lemma PutBackAfter(list: seq<nat>, c: nat, when: map<nat, nat>, p: nat, i: nat)
    requires Ordered(list, when) && c < |list| && p >= 1
    requires Cursor(list, c, when[list[c] := At(when, list[c]) + p], list[c]) <= i < |list|
    ensures var when' := when[list[c] := At(when, list[c]) + p];
      var list' := Inserted(Cut(list, c), when', list[c]);
      |list'| == |list| && At(when, list[c]) <= At(when', list'[i])
  {
    hide Ordered, Place, Cut, Has;
    var t, list1 := list[c], Cut(list, c);
    var when' := when[t := At(when, t) + p];
    CutMembers(list, when, c);
    OrderedElsewhere(list1, when, t, At(when, t) + p);
    BehindCursor(list, c, when, p);
    var k := Place(list1, when', At(when', t));
    InsertIndex(list1, k, t, i);
    if i != k {
      CutIndex(list, when, c, if i < k then i else i - 1);
    }
  }

  lemma InsertIndex(list: seq<nat>, k: nat, t: nat, i: nat)
    requires k <= |list| && i <= |list|
    ensures |InsertAt(list, k, t)| == |list| + 1
    ensures InsertAt(list, k, t)[i] == if i < k then list[i] else if i == k then t else list[i - 1]
  {
  }

  lemma CutIndex(list: seq<nat>, when: map<nat, nat>, c: nat, i: nat)
    requires Ordered(list, when) && c < |list| && i < |list| - 1
    ensures |Cut(list, c)| == |list| - 1 && Cut(list, c)[i] == list[if i < c then i else i + 1]
    ensures c <= i ==> At(when, list[c]) <= At(when, Cut(list, c)[i])
  {
  }

  lemma OrderedElsewhere(list: seq<nat>, when: map<nat, nat>, t: nat, w: nat)
    requires Ordered(list, when) && !Has(list, t)
    ensures Ordered(list, when[t := w]) && forall i :: 0 <= i < |list| ==> At(when[t := w], list[i]) == At(when, list[i])
  {
    assert forall i :: 0 <= i < |list| ==> Has(list, list[i]);
  }

  /** All before the cursor are earlier than the new deadline. */
  lemma BehindCursor(list: seq<nat>, c: nat, when: map<nat, nat>, p: nat)
    requires Ordered(list, when) && c < |list| && p >= 1
    ensures var when' := when[list[c] := At(when, list[c]) + p];
      Place(Cut(list, c), when', At(when, list[c]) + p) >= c
  {
    CutBounds(list, when, c);
    CutMembers(list, when, c);
    OrderedElsewhere(Cut(list, c), when, list[c], At(when, list[c]) + p);
    assert forall i :: 0 <= i < c ==> At(when, list[i]) <= At(when, list[c]);
  }

  lemma PutBackRecord(s: Setup, list0: seq<nat>, when0: map<nat, nat>, list: seq<nat>, when: map<nat, nat>, fired: seq<Firing>, t: nat)
    requires Advanced(s, list0, when0, list, when, fired) && Has(list, t) && s.repeat(t)
    ensures Advanced(s, list0, when0, list, when[t := At(when, t) + s.period(t)], fired + [Firing(t, At(when, t))])
  {
    hide Count, Due, Has, At;
    var when', fired' := when[t := At(when, t) + s.period(t)], fired + [Firing(t, At(when, t))];
    DueNext(s, when0, t, Count(fired, t));
    CountsAfter(fired, Firing(t, At(when, t)));
    forall id | Has(list, id)
      ensures At(when', id) == Due(s, when0, id, Count(fired', id))
    {
      AtOther(when, t, At(when, t) + s.period(t), id);
    }
  }

  lemma AtOther(when: map<nat, nat>, t: nat, w: nat, id: nat)
    ensures At(when[t := w], id) == if id == t then w else At(when, id)
  {
  }

  lemma DueNext(s: Setup, when0: map<nat, nat>, id: nat, k: nat)
    ensures Due(s, when0, id, k + 1) == Due(s, when0, id, k) + s.period(id)
  {
  }

  /** Where the old successor is after `t` was put back. */
  function Cursor(list: seq<nat>, c: nat, when: map<nat, nat>, t: nat): nat
    requires c < |list|
  {
    if Place(Cut(list, c), when, At(when, t)) == c then c + 1 else c
  }

  // ------------------------------------------------------------- what is owed

  function Lateness(when: map<nat, nat>, now: nat, id: nat): nat {
    if At(when, id) <= now then now + 1 - At(when, id) else 0
  }

  /** How overdue the timers of a list are altogether. */
  function Debt(list: seq<nat>, when: map<nat, nat>, now: nat): nat {
    if list == [] then 0 else Lateness(when, now, list[0]) + Debt(list[1..], when, now)
  }

  lemma {:induction false} DebtConcat(a: seq<nat>, b: seq<nat>, when: map<nat, nat>, now: nat)
    ensures Debt(a + b, when, now) == Debt(a, when, now) + Debt(b, when, now)
  {
    if a == [] {
      assert a + b == b;
    } else {
      DebtConcat(a[1..], b, when, now);
      assert (a + b)[1..] == a[1..] + b;
    }
  }

  lemma {:induction false} DebtElsewhere(list: seq<nat>, when: map<nat, nat>, now: nat, t: nat, w: nat)
    requires !Has(list, t)
    ensures Debt(list, when[t := w], now) == Debt(list, when, now)
  {
    if list != [] {
      DebtElsewhere(list[1..], when, now, t, w);
    }
  }

  lemma DebtInsert(list: seq<nat>, k: nat, t: nat, when: map<nat, nat>, now: nat)
    requires k <= |list|
    ensures Debt(InsertAt(list, k, t), when, now) == Debt(list, when, now) + Lateness(when, now, t)
  {
    assert list[..k] + list[k..] == list;
    DebtConcat(list[..k], list[k..], when, now);
    DebtConcat(list[..k] + [t], list[k..], when, now);
    DebtConcat(list[..k], [t], when, now);
    assert Debt([t], when, now) == Lateness(when, now, t);
  }

  /** What the cursor has still to reach. */
  function Ahead(list: seq<nat>, c: nat): seq<nat> { if c <= |list| then list[c..] else [] }

  lemma DebtCut(list: seq<nat>, c: nat, when: map<nat, nat>, now: nat)
    requires c < |list|
    ensures Debt(Ahead(Cut(list, c), c), when, now) + Lateness(when, now, list[c]) == Debt(Ahead(list, c), when, now)
    ensures Debt(Cut(list, c), when, now) + Lateness(when, now, list[c]) == Debt(list, when, now)
  {
    assert Ahead(Cut(list, c), c) == list[c + 1..] == Ahead(list, c)[1..];
    DebtConcat(list[..c], list[c + 1..], when, now);
    DebtConcat(list[..c], list[c..], when, now);
    assert list[..c] + list[c..] == list;
  }

  /** Every firing pays off some of it. */
  lemma DebtFalls(list: seq<nat>, c: nat, when: map<nat, nat>, now: nat, p: nat)
    requires Ordered(list, when) && c < |list| && At(when, list[c]) <= now && p >= 1
    ensures var when' := when[list[c] := At(when, list[c]) + p];
      var list' := Inserted(Cut(list, c), when', list[c]);
      && Debt(Ahead(list', Cursor(list, c, when', list[c])), when', now) < Debt(Ahead(list, c), when, now)
      && Debt(list', when', now) < Debt(list, when, now)
  {
    hide Ordered, Place, Cut, Has, Debt, Ahead, InsertAt;
    var t, list1 := list[c], Cut(list, c);
    var when' := when[t := At(when, t) + p];
    var k, list' := Place(list1, when', At(when', t)), Inserted(list1, when', t);
    CutMembers(list, when, c);
    BehindCursor(list, c, when, p);
    DebtCut(list, c, when, now);
    DebtElsewhere(list1, when, now, t, At(when, t) + p);
    AheadHas(list1, c, t);
    DebtElsewhere(Ahead(list1, c), when, now, t, At(when, t) + p);
    DebtInsert(list1, k, t, when', now);
    AheadInserted(list1, k, c, t);
    if k != c {
      DebtInsert(Ahead(list1, c), k - c, t, when', now);
    }
    assert Lateness(when', now, t) < Lateness(when, now, t) by {
      AtNew(when, t, At(when, t) + p);
    }
  }

  lemma AheadInserted(list: seq<nat>, k: nat, c: nat, t: nat)
    requires c <= k <= |list|
    ensures k == c ==> Ahead(InsertAt(list, k, t), c + 1) == Ahead(list, c)
    ensures |Ahead(list, c)| == |list| - c
    ensures k != c ==> Ahead(InsertAt(list, k, t), c) == InsertAt(Ahead(list, c), k - c, t)
  {
  }

  lemma AheadHas(list: seq<nat>, c: nat, t: nat)
    requires !Has(list, t)
    ensures !Has(Ahead(list, c), t)
  {
  }

  // ---------------------------------------------------------------- the queue

  lemma FindAt(list: seq<nat>, when: map<nat, nat>, c: nat)
    requires Ordered(list, when) && c < |list|
    ensures Find(list, list[c]) == c
  {
  }

  /** Where the cursor is. */
  function CursorAt(list: seq<nat>, c: nat): Option<nat> { if c < |list| then Some(list[c]) else None }

  lemma NextAfterCut(list: seq<nat>, c: nat, when: map<nat, nat>)
    requires Ordered(list, when) && c < |list|
    ensures Successor(list, list[c]) == CursorAt(Cut(list, c), c) && Removed(list, list[c]) == Cut(list, c)
  {
    FindAt(list, when, c);
  }

  /** The successor read before the removal is what the cursor reaches next. */
  lemma NextIsAhead(list: seq<nat>, c: nat, when: map<nat, nat>, p: nat)
    requires Ordered(list, when) && c < |list| && p >= 1
    ensures var when' := when[list[c] := At(when, list[c]) + p];
      Successor(list, list[c]) == CursorAt(Inserted(Cut(list, c), when', list[c]), Cursor(list, c, when', list[c]))
  {
    hide Ordered, Has, Place, Cut, Successor, Removed, At;
    var t, list1 := list[c], Cut(list, c);
    var when' := when[t := At(when, t) + p];
    NextAfterCut(list, c, when);
    CutMembers(list, when, c);
    BehindCursor(list, c, when, p);
    var k := Place(list1, when', At(when', t));
    assert At(when', t) == At(when, t) + p by {
      AtNew(when, t, At(when, t) + p);
    }
    InsertIndex(list1, k, t, if k == c then k else c);
    if c + 1 < |list| {
      InsertIndex(list1, k, t, c + 1);
    }
  }

  lemma AtNew(when: map<nat, nat>, t: nat, w: nat)
    ensures At(when[t := w], t) == w
  {
  }

  lemma Start(s: Setup, list: seq<nat>, when: map<nat, nat>, now: nat)
    requires Ordered(list, when)
    ensures Midway(s, list, when, now, list, 0, when, [])
  {
  }

  lemma Finish(s: Setup, list0: seq<nat>, when0: map<nat, nat>, now: nat, list: seq<nat>, c: nat, when: map<nat, nat>, fired: seq<Firing>)
    requires Midway(s, list0, when0, now, list, c, when, fired)
    requires forall id :: Has(list0, id) && s.repeat(id) ==> s.period(id) >= 1
    ensures Ordered(list, when) && Faithful(s, when0, now, fired) && Advanced(s, list0, when0, list, when, fired)
    ensures forall id :: Has(list, id) && s.repeat(id) ==> s.period(id) >= 1
  {
  }

  lemma PeriodAtLeastOne(s: Setup, list0: seq<nat>, when0: map<nat, nat>, now: nat, list: seq<nat>, c: nat, when: map<nat, nat>, fired: seq<Firing>)
    requires Midway(s, list0, when0, now, list, c, when, fired) && c < |list|
    requires forall id :: Has(list0, id) && s.repeat(id) ==> s.period(id) >= 1
    ensures Ordered(list, when) && (s.repeat(list[c]) ==> s.period(list[c]) >= 1)
  {
    assert Has(list, list[c]);
  }

  lemma CutKeeps(list: seq<nat>, c: nat, when: map<nat, nat>)
    requires Ordered(list, when) && c < |list|
    ensures Ordered(Cut(list, c), when) && !Has(Cut(list, c), list[c]) && |Cut(list, c)| == |list| - 1
  {
    CutMembers(list, when, c);
  }

  /** When the cursor stops, whatever has not fired is not due. */
  lemma NoneLeftBehind(s: Setup, list0: seq<nat>, when0: map<nat, nat>, now: nat, list: seq<nat>, c: nat, when: map<nat, nat>, fired: seq<Firing>)
    requires Midway(s, list0, when0, now, list, c, when, fired)
    requires c < |list| ==> At(when, list[c]) > now
    ensures forall id :: Has(list0, id) && At(when0, id) <= now ==> Count(fired, id) >= 1
  {
    hide Faithful;
    forall id | Has(list0, id) && Count(fired, id) == 0
      ensures At(when0, id) > now
    {
      assert Has(list, id);
      var i :| 0 <= i < |list| && list[i] == id;
      assert c <= i;
      assert At(when, list[c]) <= At(when, list[i]);
    }
  }

  lemma LoneCursor(list: seq<nat>, c: nat, when: map<nat, nat>, p: nat)
    requires Ordered(list, when) && c < |list| && p >= 1
    ensures var when' := when[list[c] := At(when, list[c]) + p];
      |Inserted(Cut(list, c), when', list[c])| == |list| && (|list| == 1 ==> Cursor(list, c, when', list[c]) == 1)
  {
    BehindCursor(list, c, when, p);
  }
}
