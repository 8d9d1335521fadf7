/** Which timers a pass leaves overdue.  As long as none is, a pass is the merge of all
    deadlines in order; a timer is left behind exactly where no other deadline comes between
    two successive deadlines of its own. */
module TimerMerge {
  import opened Timer

  // ------------------------------------------------------------ merged order

  /** Deadline `k` of timer `a` comes before deadline `j` of timer `b`. */
  predicate Before(s: Setup, list0: seq<nat>, when0: map<nat, nat>, a: nat, k: nat, b: nat, j: nat)
    decreases k + j, 1
  {
    || Due(s, when0, a, k) < Due(s, when0, b, j)
    || (Due(s, when0, a, k) == Due(s, when0, b, j) && Precedes(s, list0, when0, a, k, b, j))
  }

  /** Equal deadlines: the list decides between first ones, a first one comes before any
      later one, and otherwise the one that was put back first. */
  predicate Precedes(s: Setup, list0: seq<nat>, when0: map<nat, nat>, a: nat, k: nat, b: nat, j: nat)
    decreases k + j, 0
  {
    if k == 0 && j == 0 then Find(list0, a) < Find(list0, b)
    else k == 0 || (j > 0 && Before(s, list0, when0, a, k - 1, b, j - 1))
  }

  lemma {:induction false} OneWay(s: Setup, list0: seq<nat>, when0: map<nat, nat>, a: nat, k: nat, b: nat, j: nat)
    requires Before(s, list0, when0, a, k, b, j)
    ensures !Before(s, list0, when0, b, j, a, k)
    decreases k + j
  {
    hide Due, Find;
    if k > 0 && j > 0 && Before(s, list0, when0, a, k - 1, b, j - 1) {
      OneWay(s, list0, when0, a, k - 1, b, j - 1);
    }
  }

  /** Some other timer has a deadline after deadline `k` of `a` and no later than the next. */
  ghost predicate Chased(s: Setup, list0: seq<nat>, when0: map<nat, nat>, a: nat, k: nat) {
    exists b: nat, j: nat ::
      && b != a && Has(list0, b) && (j == 0 || s.repeat(b))
      && Before(s, list0, when0, a, k, b, j) && Due(s, when0, b, j) <= Due(s, when0, a, k + 1)
  }

  /** Every timer that is a period or more late is chased at each deadline it missed. */
  ghost predicate CatchesUp(s: Setup, list0: seq<nat>, when0: map<nat, nat>, now: nat) {
    forall a: nat, k: nat :: Has(list0, a) && s.repeat(a) && Due(s, when0, a, k + 1) <= now ==> Chased(s, list0, when0, a, k)
  }

  // ---------------------------------------------------------- the pass so far

  /** The list is in merged order, and everything that fired comes before all of it. */
  ghost predicate Merged(s: Setup, list0: seq<nat>, when0: map<nat, nat>, list: seq<nat>, fired: seq<Firing>) {
    && (forall i, j :: 0 <= i < j < |list| ==>
          Before(s, list0, when0, list[i], Count(fired, list[i]), list[j], Count(fired, list[j])))
    && (forall b: nat, j: nat, i :: j < Count(fired, b) && 0 <= i < |list| ==>
          Before(s, list0, when0, b, j, list[i], Count(fired, list[i])))
  }

  /** Whatever fired and has another deadline by now was chased. */
  ghost predicate AllChased(s: Setup, list0: seq<nat>, when0: map<nat, nat>, now: nat, fired: seq<Firing>) {
    forall a: nat, k: nat :: k < Count(fired, a) && s.repeat(a) && Due(s, when0, a, k + 1) <= now ==> Chased(s, list0, when0, a, k)
  }

  ghost predicate NothingDue(list: seq<nat>, when: map<nat, nat>, now: nat) {
    forall id :: Has(list, id) ==> At(when, id) > now
  }

  /** A timer before the cursor is due: the pass will not come back to it. */
  ghost predicate LeftBehind(list: seq<nat>, c: nat, when: map<nat, nat>, now: nat) {
    exists i :: 0 <= i < c <= |list| && At(when, list[i]) <= now
  }

  /** How a pass stands: it is the merge so far, or it is over, or it has left a timer behind. */
  ghost predicate Stands(s: Setup, list0: seq<nat>, when0: map<nat, nat>, now: nat,
                         list: seq<nat>, c: nat, when: map<nat, nat>, fired: seq<Firing>) {
    || (c == 0 && Merged(s, list0, when0, list, fired) && AllChased(s, list0, when0, now, fired))
    || (NothingDue(list, when, now) && AllChased(s, list0, when0, now, fired))
    || (LeftBehind(list, c, when, now) && !CatchesUp(s, list0, when0, now))
  }

  lemma MergeStarts(s: Setup, list: seq<nat>, when: map<nat, nat>, now: nat)
    requires Ordered(list, when)
    ensures Stands(s, list, when, now, list, 0, when, [])
  {
    forall i, j | 0 <= i < j < |list|
      ensures Before(s, list, when, list[i], 0, list[j], 0)
    {
      FindAt(list, when, i);
      FindAt(list, when, j);
    }
  }

  lemma LaterIsAfter(s: Setup, list0: seq<nat>, when0: map<nat, nat>, a: nat, k: nat, b: nat, j: nat)
    requires Due(s, when0, a, k) < Due(s, when0, b, j)
    ensures Before(s, list0, when0, a, k, b, j)
  {
  }

  lemma BeforeIsNoLater(s: Setup, list0: seq<nat>, when0: map<nat, nat>, a: nat, k: nat, b: nat, j: nat)
    requires Before(s, list0, when0, a, k, b, j)
    ensures Due(s, when0, a, k) <= Due(s, when0, b, j)
  {
  }

  /** A timer put back goes behind those of equal deadline that are in the list already: they
      were put back earlier, or never taken out. */
  lemma PutBackLast(s: Setup, list0: seq<nat>, when0: map<nat, nat>, a: nat, k: nat, b: nat, j: nat)
    requires Due(s, when0, b, j) <= Due(s, when0, a, k + 1)
    requires j > 0 ==> Before(s, list0, when0, b, j - 1, a, k)
    ensures Before(s, list0, when0, b, j, a, k + 1)
  {
    hide Due, Find;
  }

  /** What the firing of the head leaves of the merge. */
  lemma MergeRest(s: Setup, list0: seq<nat>, when0: map<nat, nat>, list: seq<nat>, fired: seq<Firing>, w: nat)
    requires list != [] && Merged(s, list0, when0, list, fired) && forall i :: 0 < i < |list| ==> list[i] != list[0]
    ensures Merged(s, list0, when0, list[1..], fired + [Firing(list[0], w)])
  {
    var a, fired' := list[0], fired + [Firing(list[0], w)];
    CountsAfter(fired, Firing(a, w));
    hide Before, Count;
    var rest := list[1..];
    forall b: nat, j: nat, i | j < Count(fired', b) && 0 <= i < |rest|
      ensures Before(s, list0, when0, b, j, rest[i], Count(fired', rest[i]))
    {
      assert rest[i] == list[i + 1];
      if b == a && j == Count(fired, a) {
        assert Before(s, list0, when0, list[0], Count(fired, list[0]), list[i + 1], Count(fired, list[i + 1]));
      }
    }
  }

  /** The first `kk` entries of a list are due by `w`, and no others. */
  ghost predicate Divides(s: Setup, when0: map<nat, nat>, list: seq<nat>, fired: seq<Firing>, kk: nat, w: nat) {
    forall i :: 0 <= i < |list| ==> (i < kk <==> Due(s, when0, list[i], Count(fired, list[i])) <= w)
  }

  /** The head, fired and put back, is in its place in the merge again. */
  lemma MergePutBack(s: Setup, list0: seq<nat>, when0: map<nat, nat>, list: seq<nat>, fired: seq<Firing>, w: nat, kk: nat)
    requires list != [] && Merged(s, list0, when0, list, fired) && forall i :: 0 < i < |list| ==> list[i] != list[0]
    requires s.period(list[0]) >= 1 && kk <= |list[1..]|
    requires Divides(s, when0, list[1..], fired, kk, Due(s, when0, list[0], Count(fired, list[0]) + 1))
    ensures Merged(s, list0, when0, InsertAt(list[1..], kk, list[0]), fired + [Firing(list[0], w)])
  {
    hide Before, Count, Due, InsertAt, Merged, Divides;
    var a, rest, k' := list[0], list[1..], Count(fired, list[0]) + 1;
    var fired' := fired + [Firing(a, w)];
    MergeRest(s, list0, when0, list, fired, w);
    CountOne(fired, Firing(a, w), a);
    forall i | 0 <= i < |rest|
      ensures if i < kk then Before(s, list0, when0, rest[i], Count(fired', rest[i]), a, k')
              else Before(s, list0, when0, a, k', rest[i], Count(fired', rest[i]))
    {
      assert rest[i] == list[i + 1];
      CountOne(fired, Firing(a, w), rest[i]);
      AroundNew(s, list0, when0, list, fired, kk, i);
    }
    forall b: nat, j: nat | j < Count(fired', b)
      ensures Before(s, list0, when0, b, j, a, k')
    {
      CountOne(fired, Firing(a, w), b);
      FiredBeforeNew(s, list0, when0, list, fired, b, j);
    }
    MergeWith(s, list0, when0, rest, fired', a, kk);
  }

  /** The entries that stay, around the one put back. */
  lemma AroundNew(s: Setup, list0: seq<nat>, when0: map<nat, nat>, list: seq<nat>, fired: seq<Firing>, kk: nat, i: nat)
    requires list != [] && Merged(s, list0, when0, list, fired) && i < |list[1..]|
    requires Divides(s, when0, list[1..], fired, kk, Due(s, when0, list[0], Count(fired, list[0]) + 1))
    ensures var a, k', b := list[0], Count(fired, list[0]) + 1, list[1..][i];
      if i < kk then Before(s, list0, when0, b, Count(fired, b), a, k') else Before(s, list0, when0, a, k', b, Count(fired, b))
  {
    hide Before, Count, Due;
    var a, k, b := list[0], Count(fired, list[0]), list[1..][i];
    var j := Count(fired, b);
    if i < kk {
      assert j > 0 ==> Before(s, list0, when0, b, j - 1, list[0], Count(fired, list[0]));
      PutBackLast(s, list0, when0, a, k, b, j);
    } else {
      LaterIsAfter(s, list0, when0, a, k + 1, b, j);
    }
  }

  lemma FiredBeforeNew(s: Setup, list0: seq<nat>, when0: map<nat, nat>, list: seq<nat>, fired: seq<Firing>, b: nat, j: nat)
    requires list != [] && Merged(s, list0, when0, list, fired) && s.period(list[0]) >= 1
    requires j < Count(fired, b) || (b == list[0] && j == Count(fired, b))
    ensures Before(s, list0, when0, b, j, list[0], Count(fired, list[0]) + 1)
  {
    hide Before, Count, Due;
    var a, k := list[0], Count(fired, list[0]);
    DueNext(s, when0, a, k);
    if j < Count(fired, b) {
      assert Before(s, list0, when0, b, j, list[0], Count(fired, list[0]));
      BeforeIsNoLater(s, list0, when0, b, j, a, k);
    }
    LaterIsAfter(s, list0, when0, b, j, a, k + 1);
  }

  /** Inserting one entry into a merge. */
  lemma MergeWith(s: Setup, list0: seq<nat>, when0: map<nat, nat>, rest: seq<nat>, fired: seq<Firing>, a: nat, kk: nat)
    requires Merged(s, list0, when0, rest, fired) && kk <= |rest|
    requires forall i :: 0 <= i < |rest| ==>
      if i < kk then Before(s, list0, when0, rest[i], Count(fired, rest[i]), a, Count(fired, a))
      else Before(s, list0, when0, a, Count(fired, a), rest[i], Count(fired, rest[i]))
    requires forall b: nat, j: nat :: j < Count(fired, b) ==> Before(s, list0, when0, b, j, a, Count(fired, a))
    ensures Merged(s, list0, when0, InsertAt(rest, kk, a), fired)
  {
    hide Before, Count;
    var list := InsertAt(rest, kk, a);
    forall i, j | 0 <= i < j < |list|
      ensures Before(s, list0, when0, list[i], Count(fired, list[i]), list[j], Count(fired, list[j]))
    {
      InsertIndex(rest, kk, a, i);
      InsertIndex(rest, kk, a, j);
    }
    forall b: nat, j: nat, i | j < Count(fired, b) && 0 <= i < |list|
      ensures Before(s, list0, when0, b, j, list[i], Count(fired, list[i]))
    {
      InsertIndex(rest, kk, a, i);
    }
  }

  /** The head is chased if and only if its old successor is no later than its new deadline. */
  lemma ChasedIsFollowed(s: Setup, list0: seq<nat>, when0: map<nat, nat>, list: seq<nat>, when: map<nat, nat>, fired: seq<Firing>)
    requires list != [] && Ordered(list, when) && Merged(s, list0, when0, list, fired) && Advanced(s, list0, when0, list, when, fired)
    ensures Chased(s, list0, when0, list[0], Count(fired, list[0])) <==>
      |list| > 1 && At(when, list[1]) <= Due(s, when0, list[0], Count(fired, list[0]) + 1)
  {
    hide Before, Due, Ordered, Merged, Advanced, Count, At;
    if |list| > 1 && At(when, list[1]) <= Due(s, when0, list[0], Count(fired, list[0]) + 1) {
      FollowerChases(s, list0, when0, list, when, fired);
    }
    if Chased(s, list0, when0, list[0], Count(fired, list[0])) {
      ChaserFollows(s, list0, when0, list, when, fired);
    }
  }

  lemma FollowerChases(s: Setup, list0: seq<nat>, when0: map<nat, nat>, list: seq<nat>, when: map<nat, nat>, fired: seq<Firing>)
    requires |list| > 1 && Ordered(list, when) && Merged(s, list0, when0, list, fired) && Advanced(s, list0, when0, list, when, fired)
    requires At(when, list[1]) <= Due(s, when0, list[0], Count(fired, list[0]) + 1)
    ensures Chased(s, list0, when0, list[0], Count(fired, list[0]))
  {
    hide Before, Due, Count, At;
    var b, j := list[1], Count(fired, list[1]);
    assert Has(list, b);
    assert Before(s, list0, when0, list[0], Count(fired, list[0]), b, j);
  }

  lemma ChaserFollows(s: Setup, list0: seq<nat>, when0: map<nat, nat>, list: seq<nat>, when: map<nat, nat>, fired: seq<Firing>)
    requires list != [] && Ordered(list, when) && Merged(s, list0, when0, list, fired) && Advanced(s, list0, when0, list, when, fired)
    requires Chased(s, list0, when0, list[0], Count(fired, list[0]))
    ensures |list| > 1 && At(when, list[1]) <= Due(s, when0, list[0], Count(fired, list[0]) + 1)
  {
    hide Before, Due, Count, At, Ordered, Advanced;
    var a, k := list[0], Count(fired, list[0]);
    var b: nat, j: nat :| b != a && Has(list0, b) && (j == 0 || s.repeat(b))
      && Before(s, list0, when0, a, k, b, j) && Due(s, when0, b, j) <= Due(s, when0, a, k + 1);
    if j < Count(fired, b) {
      assert Before(s, list0, when0, b, j, list[0], Count(fired, list[0]));
      OneWay(s, list0, when0, b, j, a, k);
    }
    StillThere(s, list0, when0, list, when, fired, b, j);
  }

  /** A deadline that has not fired is no earlier than the one its timer is in the list with. */
  lemma StillThere(s: Setup, list0: seq<nat>, when0: map<nat, nat>, list: seq<nat>, when: map<nat, nat>, fired: seq<Firing>, b: nat, j: nat)
    requires Ordered(list, when) && Advanced(s, list0, when0, list, when, fired)
    requires Has(list0, b) && (j == 0 || s.repeat(b)) && j >= Count(fired, b)
    ensures Has(list, b) && At(when, b) <= Due(s, when0, b, j)
    ensures list != [] && b != list[0] ==> |list| > 1 && At(when, list[1]) <= At(when, b)
  {
    assert Has(list, b);
    MoreIsLater(s, when0, b, Count(fired, b), j);
    var i :| 0 <= i < |list| && list[i] == b;
    if i > 1 {
      assert At(when, list[1]) <= At(when, list[i]);
    }
  }

  lemma MoreIsLater(s: Setup, when0: map<nat, nat>, b: nat, k: nat, j: nat)
    requires k <= j
    ensures Due(s, when0, b, k) <= Due(s, when0, b, j)
  {
    assert (j - k) * s.period(b) >= 0;
    assert j * s.period(b) == k * s.period(b) + (j - k) * s.period(b);
  }

  // ---------------------------------------------------------- step by step

  lemma NewlyChased(s: Setup, list0: seq<nat>, when0: map<nat, nat>, now: nat, fired: seq<Firing>, t: nat, w: nat)
    requires AllChased(s, list0, when0, now, fired)
    requires s.repeat(t) && Due(s, when0, t, Count(fired, t) + 1) <= now ==> Chased(s, list0, when0, t, Count(fired, t))
    ensures AllChased(s, list0, when0, now, fired + [Firing(t, w)])
  {
    CountsAfter(fired, Firing(t, w));
    hide Count, Due, Chased;
  }

  lemma CutHead(list: seq<nat>, when: map<nat, nat>)
    requires list != [] && Ordered(list, when)
    ensures Cut(list, 0) == list[1..] && forall i :: 0 < i < |list| ==> list[i] != list[0]
  {
  }

  /** A timer left behind stays where it is. */
  lemma StaysBehind(list: seq<nat>, c: nat, when: map<nat, nat>, now: nat, p: nat)
    requires LeftBehind(list, c, when, now) && Ordered(list, when) && c < |list|
    ensures LeftBehind(Cut(list, c), c, when, now)
    ensures p >= 1 ==> var when' := when[list[c] := At(when, list[c]) + p];
      LeftBehind(Inserted(Cut(list, c), when', list[c]), Cursor(list, c, when', list[c]), when', now)
  {
    hide Place, At, Inserted, Cursor;
    var i :| 0 <= i < c <= |list| && At(when, list[i]) <= now;
    CutIndex(list, when, c, i);
    assert LeftBehind(Cut(list, c), c, when, now);
    if p >= 1 {
      PrefixStays(list, c, when, p, i);
    }
  }

  lemma PrefixStays(list: seq<nat>, c: nat, when: map<nat, nat>, p: nat, i: nat)
    requires Ordered(list, when) && i < c < |list| && p >= 1
    ensures var when' := when[list[c] := At(when, list[c]) + p];
      var list' := Inserted(Cut(list, c), when', list[c]);
      && i < Cursor(list, c, when', list[c]) <= |list'| && list'[i] == list[i] && At(when', list'[i]) == At(when, list[i])
  {
    var when' := when[list[c] := At(when, list[c]) + p];
    BehindCursor(list, c, when, p);
    CutIndex(list, when, c, i);
    InsertIndex(Cut(list, c), Place(Cut(list, c), when', At(when', list[c])), list[c], i);
    hide Ordered, Place, Cut;
  }

  lemma OneShotStands(s: Setup, list0: seq<nat>, when0: map<nat, nat>, now: nat, list: seq<nat>, c: nat, when: map<nat, nat>, fired: seq<Firing>)
    requires Midway(s, list0, when0, now, list, c, when, fired) && Stands(s, list0, when0, now, list, c, when, fired)
    requires c < |list| && At(when, list[c]) <= now && !s.repeat(list[c])
    ensures Stands(s, list0, when0, now, Cut(list, c), c, when, fired + [Firing(list[c], At(when, list[c]))])
  {
    hide Merged, AllChased, CatchesUp, LeftBehind, Count, Faithful, Advanced, Ordered, Cut, Due, At;
    HasIndex(list, c);
    if LeftBehind(list, c, when, now) && !CatchesUp(s, list0, when0, now) {
      StaysBehind(list, c, when, now, 0);
    } else {
      NewlyChased(s, list0, when0, now, fired, list[c], At(when, list[c]));
      CutHead(list, when);
      MergeRest(s, list0, when0, list, fired, At(when, list[0]));
    }
  }

  lemma RepeatStands(s: Setup, list0: seq<nat>, when0: map<nat, nat>, now: nat, list: seq<nat>, c: nat, when: map<nat, nat>, fired: seq<Firing>)
    requires Midway(s, list0, when0, now, list, c, when, fired) && Stands(s, list0, when0, now, list, c, when, fired)
    requires c < |list| && At(when, list[c]) <= now && s.repeat(list[c]) && s.period(list[c]) >= 1
    ensures var t := list[c];
      var when' := when[t := At(when, t) + s.period(t)];
      Stands(s, list0, when0, now, Inserted(Cut(list, c), when', t), Cursor(list, c, when', t), when', fired + [Firing(t, At(when, t))])
  {
    hide Merged, AllChased, CatchesUp, LeftBehind, Count, Faithful, Advanced, Ordered, Cut, Due, At, Inserted, Cursor;
    HasIndex(list, c);
    if LeftBehind(list, c, when, now) && !CatchesUp(s, list0, when0, now) {
      StaysBehind(list, c, when, now, s.period(list[c]));
    } else {
      HeadStands(s, list0, when0, now, list, when, fired);
    }
  }

  /** The merge goes on, or is over, or leaves its head behind. */
  lemma HeadStands(s: Setup, list0: seq<nat>, when0: map<nat, nat>, now: nat, list: seq<nat>, when: map<nat, nat>, fired: seq<Firing>)
    requires Midway(s, list0, when0, now, list, 0, when, fired) && Merged(s, list0, when0, list, fired) && AllChased(s, list0, when0, now, fired)
    requires list != [] && At(when, list[0]) <= now && s.repeat(list[0]) && s.period(list[0]) >= 1
    ensures var t := list[0];
      var when' := when[t := At(when, t) + s.period(t)];
      Stands(s, list0, when0, now, Inserted(Cut(list, 0), when', t), Cursor(list, 0, when', t), when', fired + [Firing(t, At(when, t))])
  {
    hide Merged, AllChased, LeftBehind, Count, Faithful, Advanced, Ordered, Due, At, Place, Chased, CatchesUp, NothingDue, Cut, Inserted, InsertAt, Cursor, Has, Divides;
    var t, k, w := list[0], Count(fired, list[0]), At(when, list[0]);
    var when' := when[t := w + s.period(t)];
    var list' := Inserted(Cut(list, 0), when', t);
    CutHead(list, when);
    HeadInserted(list, when, when');
    HeadPlace(s, list0, when0, list, when, fired);
    ChasedIsFollowed(s, list0, when0, list, when, fired);
    var kk := Place(list[1..], when', At(when', t));
    MergePutBack(s, list0, when0, list, fired, w, kk);
    if kk > 0 {
      NewlyChased(s, list0, when0, now, fired, t, w);
    } else if At(when', t) <= now {
      HeadLeft(s, list0, when0, now, list, list', when', fired, t, k);
    } else {
      NewlyChased(s, list0, when0, now, fired, t, w);
      PutBackOrder(list, 0, when, s.period(t));
      HeadDecides(list', when', now);
    }
  }

  lemma HeadInserted(list: seq<nat>, when: map<nat, nat>, when': map<nat, nat>)
    requires list != [] && Ordered(list, when)
    ensures var kk := Place(list[1..], when', At(when', list[0]));
      && Inserted(Cut(list, 0), when', list[0]) == InsertAt(list[1..], kk, list[0])
      && Cursor(list, 0, when', list[0]) == (if kk == 0 then 1 else 0)
      && InsertAt(list[1..], kk, list[0]) != [] && (kk == 0 ==> InsertAt(list[1..], kk, list[0])[0] == list[0])
  {
    CutHead(list, when);
  }

  lemma HeadLeft(s: Setup, list0: seq<nat>, when0: map<nat, nat>, now: nat, list: seq<nat>, list': seq<nat>, when': map<nat, nat>, fired: seq<Firing>, t: nat, k: nat)
    requires list' != [] && list'[0] == t && At(when', t) <= now && At(when', t) == Due(s, when0, t, k + 1)
    requires Has(list0, t) && s.repeat(t) && !Chased(s, list0, when0, t, k)
    ensures LeftBehind(list', 1, when', now) && !CatchesUp(s, list0, when0, now)
  {
    hide Due, Chased, At;
  }

  lemma HeadDecides(list: seq<nat>, when: map<nat, nat>, now: nat)
    requires Ordered(list, when) && (list != [] ==> At(when, list[0]) > now)
    ensures NothingDue(list, when, now)
  {
    forall id | Has(list, id)
      ensures At(when, id) > now
    {
      var i :| 0 <= i < |list| && list[i] == id;
    }
  }

  /** Where the head goes, in terms of the deadlines counted. */
  lemma HeadPlace(s: Setup, list0: seq<nat>, when0: map<nat, nat>, list: seq<nat>, when: map<nat, nat>, fired: seq<Firing>)
    requires list != [] && Ordered(list, when) && Advanced(s, list0, when0, list, when, fired)
    ensures var t := list[0];
      var when', w := when[t := At(when, t) + s.period(t)], Due(s, when0, list[0], Count(fired, list[0]) + 1);
      var kk := Place(list[1..], when', At(when', t));
      && Has(list0, t) && At(when', t) == w
      && (kk > 0 <==> |list| > 1 && At(when, list[1]) <= w)
      && Divides(s, when0, list[1..], fired, kk, w)
  {
    hide Due, Count, Ordered, Place, Advanced, Has, Divides;
    var t, rest := list[0], list[1..];
    var when' := when[t := At(when, t) + s.period(t)];
    DueNext(s, when0, t, Count(fired, t));
    Counted(s, list0, when0, list, when, fired, t);
    RestOrdered(list, when, At(when, t) + s.period(t));
    RestDivides(s, list0, when0, list, when, when', fired, At(when', t));
    if |list| > 1 {
      RestIndex(list, 0);
      PlaceSplits(rest, when', At(when', t), 0);
    }
  }

  lemma RestIndex(list: seq<nat>, i: nat)
    requires i + 1 < |list|
    ensures i < |list[1..]| && list[1..][i] == list[i + 1]
  {
  }

  lemma RestOrdered(list: seq<nat>, when: map<nat, nat>, w: nat)
    requires list != [] && Ordered(list, when)
    ensures Ordered(list[1..], when[list[0] := w])
    ensures forall i :: 0 <= i < |list[1..]| ==> At(when[list[0] := w], list[1..][i]) == At(when, list[1..][i])
  {
    CutHead(list, when);
    CutKeeps(list, 0, when);
    OrderedElsewhere(list[1..], when, list[0], w);
  }

  lemma RestDivides(s: Setup, list0: seq<nat>, when0: map<nat, nat>, list: seq<nat>, when: map<nat, nat>, when': map<nat, nat>, fired: seq<Firing>, w: nat)
    requires list != [] && Advanced(s, list0, when0, list, when, fired) && Ordered(list[1..], when')
    requires forall i :: 0 <= i < |list[1..]| ==> At(when', list[1..][i]) == At(when, list[1..][i])
    ensures Divides(s, when0, list[1..], fired, Place(list[1..], when', w), w)
  {
    hide Due, Count, Ordered, Place, Advanced, Has;
    var rest := list[1..];
    forall i | 0 <= i < |rest|
      ensures i < Place(rest, when', w) <==> Due(s, when0, rest[i], Count(fired, rest[i])) <= w
    {
      PlaceSplits(rest, when', w, i);
      Counted(s, list0, when0, list, when, fired, rest[i]);
    }
  }

  lemma PlaceSplits(list: seq<nat>, when: map<nat, nat>, w: nat, i: nat)
    requires Ordered(list, when) && i < |list|
    ensures i < Place(list, when, w) <==> At(when, list[i]) <= w
  {
  }

  lemma Counted(s: Setup, list0: seq<nat>, when0: map<nat, nat>, list: seq<nat>, when: map<nat, nat>, fired: seq<Firing>, id: nat)
    requires Advanced(s, list0, when0, list, when, fired) && id in list
    ensures Has(list0, id) && At(when, id) == Due(s, when0, id, Count(fired, id))
  {
    hide Count, Due;
    assert Has(list, id);
  }

  /** When the pass is over: nothing is due if and only if every missed deadline was chased. */
  lemma PassDecided(s: Setup, list0: seq<nat>, when0: map<nat, nat>, now: nat, list: seq<nat>, c: nat, when: map<nat, nat>, fired: seq<Firing>)
    requires Midway(s, list0, when0, now, list, c, when, fired) && Stands(s, list0, when0, now, list, c, when, fired)
    requires c < |list| ==> At(when, list[c]) > now
    ensures NothingDue(list, when, now) <==> CatchesUp(s, list0, when0, now)
  {
    hide Merged, AllChased, CatchesUp, Count, Faithful, Advanced, Ordered, Due, At, Chased, NothingDue;
    if LeftBehind(list, c, when, now) && !CatchesUp(s, list0, when0, now) {
      BehindIsDue(list, c, when, now);
    } else {
      if c == 0 && Merged(s, list0, when0, list, fired) {
        HeadDecides(list, when, now);
      }
      AllWereChased(s, list0, when0, now, list, when, fired);
    }
  }

  lemma BehindIsDue(list: seq<nat>, c: nat, when: map<nat, nat>, now: nat)
    requires LeftBehind(list, c, when, now)
    ensures !NothingDue(list, when, now)
  {
    var i :| 0 <= i < c <= |list| && At(when, list[i]) <= now;
    assert Has(list, list[i]);
  }

  lemma AllWereChased(s: Setup, list0: seq<nat>, when0: map<nat, nat>, now: nat, list: seq<nat>, when: map<nat, nat>, fired: seq<Firing>)
    requires Advanced(s, list0, when0, list, when, fired) && NothingDue(list, when, now) && AllChased(s, list0, when0, now, fired)
    ensures CatchesUp(s, list0, when0, now)
  {
    hide Count, Due, Chased, At;
    forall a: nat, k: nat | Has(list0, a) && s.repeat(a) && Due(s, when0, a, k + 1) <= now
      ensures Chased(s, list0, when0, a, k)
    {
      assert Has(list, a);
      if k >= Count(fired, a) {
        MoreIsLater(s, when0, a, Count(fired, a), k + 1);
      }
    }
  }

  // ------------------------------------------------------------ special cases

  /** Timers less than a period late fire once, and nothing is due after the pass. */
  lemma PromptPassClears(s: Setup, list0: seq<nat>, when0: map<nat, nat>, now: nat, list: seq<nat>, when: map<nat, nat>, fired: seq<Firing>, id: nat)
    requires Faithful(s, when0, now, fired) && Advanced(s, list0, when0, list, when, fired)
    requires forall x :: Has(list0, x) && At(when0, x) <= now ==> Count(fired, x) >= 1
    requires Has(list0, id) && (s.repeat(id) ==> At(when0, id) + s.period(id) > now)
    ensures Count(fired, id) == if At(when0, id) <= now then 1 else 0
    ensures Has(list, id) ==> At(when, id) > now
  {
    if Count(fired, id) > 0 {
      var i := LastFiring(s, when0, now, fired, id);
      if s.repeat(id) {
        Periods(s, when0, id, Count(fired, id) - 1);
      }
    }
    DueFirst(s, when0, id);
  }

  lemma DueFirst(s: Setup, when0: map<nat, nat>, id: nat)
    ensures Due(s, when0, id, 0) == At(when0, id) && Due(s, when0, id, 1) == At(when0, id) + s.period(id)
  {
  }

  lemma Periods(s: Setup, when0: map<nat, nat>, id: nat, k: nat)
    ensures k >= 1 ==> Due(s, when0, id, k) >= At(when0, id) + s.period(id)
  {
    if k >= 1 {
      assert k * s.period(id) >= s.period(id);
    }
  }

  /** The last firing of a timer that fired. */
  lemma {:induction false} LastFiring(s: Setup, when0: map<nat, nat>, now: nat, fired: seq<Firing>, id: nat) returns (i: nat)
    requires Faithful(s, when0, now, fired) && Count(fired, id) > 0
    ensures i < |fired| && fired[i].id == id && Due(s, when0, id, Count(fired, id) - 1) == fired[i].deadline <= now
  {
    var n := |fired| - 1;
    if fired[n].id == id {
      i := n;
    } else {
      i := LastFiring(s, when0, now, fired[..n], id);
    }
  }

  /** A lone periodic timer is caught up by one pass if and only if it is less than a period
      late. */
  lemma LoneTimer(s: Setup, when0: map<nat, nat>, now: nat, list: seq<nat>, when: map<nat, nat>, fired: seq<Firing>, id: nat)
    requires Advanced(s, [id], when0, list, when, fired) && s.repeat(id)
    requires NothingDue(list, when, now) <==> CatchesUp(s, [id], when0, now)
    ensures At(when, id) > now <==> At(when0, id) + s.period(id) > now
  {
    hide Before;
    assert Has([id], id) && Has(list, id) && forall x :: Has(list, x) ==> x == id;
    DueFirst(s, when0, id);
    forall k: nat
      ensures !Chased(s, [id], when0, id, k)
    {
    }
    if At(when0, id) + s.period(id) > now {
      forall k: nat | k >= 1
        ensures Due(s, when0, id, k) > now
      {
        MoreIsLater(s, when0, id, 1, k);
      }
    } else {
      assert Due(s, when0, id, 0 + 1) <= now && !Chased(s, [id], when0, id, 0);
    }
  }

  /** The condition fails: at time 5, timer 0, due at 0 and every 1, and timer 1, due at 0 and
      every 10.  Between the deadlines 1 and 2 of timer 0 there is none of timer 1. */
  lemma PassCanLag()
    ensures var s := Setup(id => if id == 0 then 1 else 10, id => true);
      Ordered([0, 1], map[0 := 0, 1 := 0]) && !CatchesUp(s, [0, 1], map[0 := 0, 1 := 0], 5)
  {
    var s := Setup(id => if id == 0 then 1 else 10, id => true);
    var list0, when0 := [0, 1], map[0 := 0, 1 := 0];
    assert Has(list0, 0) && Due(s, when0, 0, 1) == 1 && Due(s, when0, 0, 1 + 1) == 2;
    assert !Chased(s, list0, when0, 0, 1);
  }
}
