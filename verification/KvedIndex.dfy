/** What a sequence of index slots means, independent of how it was written:
    the map it stands for, its counters, and the recovery sweep. */
module KvedIndex {
  import opened KvedWord
  import opened KvedFlash

  predicate Live(sig: Word, x: Slot) { IsValidKey(sig, x.key) }

  /** The map a sector stands for: each valid label with the LAST slot carrying it. */
  function RawMap(sig: Word, s: seq<Slot>): map<nat, Slot> {
    if s == [] then map[]
    else
      var m, x := RawMap(sig, s[..|s| - 1]), s[|s| - 1];
      if Live(sig, x) then m[Label(x.key) := x] else m
  }

  predicate IsLast(sig: Word, s: seq<Slot>, i: nat) {
    && i < |s| && Live(sig, s[i])
    && forall j :: i < j < |s| && Live(sig, s[j]) ==> Label(s[j].key) != Label(s[i].key)
  }

  /** No two live slots carry the same label. */
  predicate Distinct(sig: Word, s: seq<Slot>) {
    forall i, j :: 0 <= i < j < |s| && Live(sig, s[i]) && Live(sig, s[j]) ==>
      Label(s[i].key) != Label(s[j].key)
  }

  lemma {:induction false} RawMapIn(sig: Word, s: seq<Slot>, l: nat)
    ensures l in RawMap(sig, s) <==> exists i :: 0 <= i < |s| && Live(sig, s[i]) && Label(s[i].key) == l
  {
    if s != [] {
      var t := s[..|s| - 1];
      RawMapIn(sig, t, l);
      if l in RawMap(sig, s) {
        if l in RawMap(sig, t) {
          var i :| 0 <= i < |t| && Live(sig, t[i]) && Label(t[i].key) == l;
          assert s[i] == t[i];
        } else {
          assert Live(sig, s[|s| - 1]) && Label(s[|s| - 1].key) == l;
        }
      }
      if i :| 0 <= i < |s| && Live(sig, s[i]) && Label(s[i].key) == l {
        if i < |t| {
          assert t[i] == s[i];
        }
      }
    }
  }

  lemma {:induction false} RawMapLast(sig: Word, s: seq<Slot>, i: nat)
    requires IsLast(sig, s, i)
    ensures Label(s[i].key) in RawMap(sig, s) && RawMap(sig, s)[Label(s[i].key)] == s[i]
  {
    if i < |s| - 1 {
      var t := s[..|s| - 1];
      assert t[i] == s[i];
      assert forall j :: i < j < |t| ==> t[j] == s[j];
      RawMapLast(sig, t, i);
      assert Live(sig, s[|s| - 1]) ==> Label(s[|s| - 1].key) != Label(s[i].key);
    }
  }

  /** A map entry is always some slot of the sector, and the last with its label. */
  lemma {:induction false} RawMapWitness(sig: Word, s: seq<Slot>, l: nat) returns (i: nat)
    requires l in RawMap(sig, s)
    ensures IsLast(sig, s, i) && Label(s[i].key) == l && RawMap(sig, s)[l] == s[i]
  {
    var x := s[|s| - 1];
    if Live(sig, x) && Label(x.key) == l {
      i := |s| - 1;
    } else {
      var t := s[..|s| - 1];
      i := RawMapWitness(sig, t, l);
      assert s[i] == t[i];
      assert forall j :: i < j < |t| ==> s[j] == t[j];
    }
  }

  /** Replacing a slot can only matter at the labels it carried and carries. */
  lemma {:induction false} RawMapElsewhere(sig: Word, s: seq<Slot>, i: nat, x: Slot, l: nat)
    requires i < |s|
    requires Live(sig, s[i]) ==> Label(s[i].key) != l
    requires Live(sig, x) ==> Label(x.key) != l
    ensures l in RawMap(sig, s[i := x]) <==> l in RawMap(sig, s)
    ensures l in RawMap(sig, s) ==> RawMap(sig, s[i := x])[l] == RawMap(sig, s)[l]
  {
    var t := s[..|s| - 1];
    if i < |t| {
      assert s[i := x][..|s| - 1] == t[i := x];
      RawMapElsewhere(sig, t, i, x, l);
    } else {
      assert s[i := x][..|s| - 1] == t;
    }
  }

  /** Writing a dead slot over a dead slot changes nothing. */
  lemma RawMapDead(sig: Word, s: seq<Slot>, i: nat, x: Slot)
    requires i < |s| && !Live(sig, s[i]) && !Live(sig, x)
    ensures RawMap(sig, s[i := x]) == RawMap(sig, s)
  {
    forall l {
      RawMapElsewhere(sig, s, i, x, l);
    }
  }

  /** Filling a dead slot behind every live one sets that label. */
  lemma RawMapAppend(sig: Word, s: seq<Slot>, i: nat, x: Slot)
    requires i < |s| && Live(sig, x)
    requires forall j :: i <= j < |s| ==> !Live(sig, s[j])
    ensures RawMap(sig, s[i := x]) == RawMap(sig, s)[Label(x.key) := x]
  {
    var t := s[i := x];
    assert IsLast(sig, t, i);
    RawMapLast(sig, t, i);
    forall l | l != Label(x.key) {
      RawMapElsewhere(sig, s, i, x, l);
    }
    assert RawMap(sig, t).Keys == RawMap(sig, s).Keys + {Label(x.key)};
  }

  /** Tombstoning a slot that a later one supersedes changes nothing. */
  lemma RawMapSuperseded(sig: Word, s: seq<Slot>, i: nat, k: nat, x: Slot)
    requires i < k < |s| && Live(sig, s[i]) && Live(sig, s[k]) && !Live(sig, x)
    requires Label(s[k].key) == Label(s[i].key)
    ensures RawMap(sig, s[i := x]) == RawMap(sig, s)
  {
    var t, l := s[i := x], Label(s[i].key);
    RawMapIn(sig, s, l);
    var j := RawMapWitness(sig, s, l);
    assert j >= k;
    assert IsLast(sig, t, j);
    RawMapLast(sig, t, j);
    forall l' | l' != l {
      RawMapElsewhere(sig, s, i, x, l');
    }
  }

  /** Tombstoning the only slot with a label removes that label. */
  lemma RawMapRemove(sig: Word, s: seq<Slot>, i: nat, x: Slot)
    requires i < |s| && Live(sig, s[i]) && !Live(sig, x) && Distinct(sig, s)
    ensures RawMap(sig, s[i := x]) == RawMap(sig, s) - {Label(s[i].key)}
  {
    var t, l := s[i := x], Label(s[i].key);
    RawMapIn(sig, t, l);
    forall l' | l' != l {
      RawMapElsewhere(sig, s, i, x, l');
    }
    assert l !in RawMap(sig, t);
  }

  lemma {:induction false} RawMapSuffixDead(sig: Word, s: seq<Slot>, t: seq<Slot>)
    requires forall i :: 0 <= i < |t| ==> !Live(sig, t[i])
    ensures RawMap(sig, s + t) == RawMap(sig, s)
  {
    if t == [] {
      assert s + t == s;
    } else {
      assert (s + t)[..|s + t| - 1] == s + t[..|t| - 1];
      RawMapSuffixDead(sig, s, t[..|t| - 1]);
    }
  }

  // --------------------------------------------------------------- key search

  /** `kved_key_index_find`: the first slot whose masked key word matches. */
  function Find(s: seq<Slot>, l: nat): (i: nat)
    ensures i <= |s|
    ensures i < |s| ==> Label(s[i].key) == l
    ensures forall j :: 0 <= j < i ==> Label(s[j].key) != l
  {
    if s == [] then 0
    else if Label(s[0].key) == l then 0
    else
      var r := Find(s[1..], l);
      assert forall j :: 1 <= j < r + 1 ==> s[j] == s[1..][j - 1];
      1 + r
  }

  lemma FindDecides(sig: Word, s: seq<Slot>, w: Word)
    requires Distinct(sig, s) && IsValidKey(sig, w)
    ensures Find(s, Label(w)) < |s| <==> Label(w) in RawMap(sig, s)
    ensures Find(s, Label(w)) < |s| ==>
              Live(sig, s[Find(s, Label(w))]) && RawMap(sig, s)[Label(w)] == s[Find(s, Label(w))]
  {
    var i := Find(s, Label(w));
    RawMapIn(sig, s, Label(w));
    if i < |s| {
      assert IsLast(sig, s, i);
      RawMapLast(sig, s, i);
    }
  }

  // ------------------------------------------------------------------ counters

  function LiveCount(sig: Word, s: seq<Slot>): (c: nat)
    ensures c <= |s|
  {
    if s == [] then 0
    else LiveCount(sig, s[..|s| - 1]) + (if Live(sig, s[|s| - 1]) then 1 else 0)
  }

  function KeyCount(s: seq<Slot>, w: Word): (c: nat)
    ensures c <= |s|
  {
    if s == [] then 0
    else KeyCount(s[..|s| - 1], w) + (if s[|s| - 1].key == w then 1 else 0)
  }

  lemma {:induction false} KeyCountHas(s: seq<Slot>, i: nat, w: Word)
    requires i < |s| && s[i].key == w
    ensures KeyCount(s, w) > 0
  {
    if i < |s| - 1 {
      KeyCountHas(s[..|s| - 1], i, w);
    }
  }

  /** Every key word is erased, tombstoned or a valid key. */
  predicate KeysOk(sig: Word, s: seq<Slot>) {
    forall i :: 0 <= i < |s| ==> s[i].key == FREE || s[i].key == DELETED || Live(sig, s[i])
  }

  /** The number of slots that are not free, when the free ones are all at the end. */
  function Boundary(s: seq<Slot>): (b: nat)
    ensures b <= |s|
    ensures b < |s| ==> s[b].key == FREE
    ensures forall i :: 0 <= i < b ==> s[i].key != FREE
  {
    if s == [] || s[0].key == FREE then 0
    else
      var r := Boundary(s[1..]);
      assert forall j :: 1 <= j < r + 1 ==> s[j] == s[1..][j - 1];
      1 + r
  }

  /** Non-free slots first; behind them at most one slot whose value word was written
      but not its key word; behind that nothing but erased slots. */
  predicate Shape(s: seq<Slot>) {
    forall i :: Boundary(s) < i < |s| ==> s[i] == FREE_SLOT
  }

  predicate HalfWritten(x: Slot) { x.key == FREE && x.val != FREE }

  predicate HasHalfWritten(s: seq<Slot>) {
    Boundary(s) < |s| && s[Boundary(s)].val != FREE
  }

  lemma BoundaryIs(s: seq<Slot>, b: nat)
    requires b <= |s|
    requires b < |s| ==> s[b].key == FREE
    requires forall i :: 0 <= i < b ==> s[i].key != FREE
    ensures Boundary(s) == b
  {
  }

  lemma {:induction false} LiveCountUpdate(sig: Word, s: seq<Slot>, i: nat, x: Slot)
    requires i < |s|
    ensures LiveCount(sig, s[i := x]) + (if Live(sig, s[i]) then 1 else 0)
         == LiveCount(sig, s) + (if Live(sig, x) then 1 else 0)
  {
    var t := s[..|s| - 1];
    if i < |t| {
      assert s[i := x][..|s| - 1] == t[i := x];
      LiveCountUpdate(sig, t, i, x);
    } else {
      assert s[i := x][..|s| - 1] == t;
    }
  }

  lemma {:induction false} KeyCountUpdate(s: seq<Slot>, i: nat, x: Slot, w: Word)
    requires i < |s|
    ensures KeyCount(s[i := x], w) + (if s[i].key == w then 1 else 0)
         == KeyCount(s, w) + (if x.key == w then 1 else 0)
  {
    var t := s[..|s| - 1];
    if i < |t| {
      assert s[i := x][..|s| - 1] == t[i := x];
      KeyCountUpdate(t, i, x, w);
    } else {
      assert s[i := x][..|s| - 1] == t;
    }
  }

  lemma {:induction false} CountsAddUp(sig: Word, s: seq<Slot>)
    requires KeysOk(sig, s)
    ensures LiveCount(sig, s) + KeyCount(s, DELETED) + KeyCount(s, FREE) == |s|
  {
    if s != [] {
      CountsAddUp(sig, s[..|s| - 1]);
    }
  }

  lemma {:induction false} FreeCountIs(s: seq<Slot>)
    requires Shape(s)
    ensures KeyCount(s, FREE) == |s| - Boundary(s)
  {
    if s != [] {
      var t, b := s[..|s| - 1], Boundary(s);
      if b == |s| {
        BoundaryIs(t, b - 1);
      } else {
        BoundaryIs(t, b);
        assert b < |t| ==> s[|t|] == FREE_SLOT;
      }
      assert forall i :: Boundary(t) < i < |t| ==> t[i] == s[i];
      FreeCountIs(t);
    }
  }

  /** With distinct labels the map has one entry per live slot. */
  lemma {:induction false} MapSize(sig: Word, s: seq<Slot>)
    requires Distinct(sig, s)
    ensures |RawMap(sig, s)| == LiveCount(sig, s)
  {
    if s != [] {
      var t, x := s[..|s| - 1], s[|s| - 1];
      assert forall i :: 0 <= i < |t| ==> t[i] == s[i];
      MapSize(sig, t);
      if Live(sig, x) {
        RawMapIn(sig, t, Label(x.key));
        assert Label(x.key) !in RawMap(sig, t);
        assert RawMap(sig, s).Keys == RawMap(sig, t).Keys + {Label(x.key)};
        assert |RawMap(sig, s)| == |RawMap(sig, s).Keys| == |RawMap(sig, t).Keys| + 1;
      }
    }
  }

  // ------------------------------------------------------------------- sweep

  /** Does the sweep tombstone slot `i`?  Either only its value was written, or a
      later slot carries the same label. */
  predicate Condemned(sig: Word, s: seq<Slot>, i: nat)
    requires i < |s|
  {
    || HalfWritten(s[i])
    || (Live(sig, s[i]) && !IsLast(sig, s, i))
  }

  function SweptSlot(sig: Word, s: seq<Slot>, i: nat): Slot
    requires i < |s|
  {
    if Condemned(sig, s, i) then s[i].(key := DELETED) else s[i]
  }

  /** The slots after the sweep has handled the first `k` of them. */
  function Swept(sig: Word, s: seq<Slot>, k: nat): (r: seq<Slot>)
    requires k <= |s|
    ensures |r| == |s|
  {
    seq(|s|, i requires 0 <= i < |s| => if i < k then SweptSlot(sig, s, i) else s[i])
  }

  lemma DeletedIsDead(sig: Word, x: Slot)
    requires x.key == DELETED || x.key == FREE
    ensures !Live(sig, x)
  {
  }

  lemma SweptStep(sig: Word, s: seq<Slot>, k: nat)
    requires k < |s|
    ensures Swept(sig, s, k + 1) == Swept(sig, s, k)[k := SweptSlot(sig, s, k)]
  {
  }

  /** Interrupted anywhere, the sweep leaves the same map. */
  lemma {:induction false} SweptMap(sig: Word, s: seq<Slot>, k: nat)
    requires k <= |s|
    ensures RawMap(sig, Swept(sig, s, k)) == RawMap(sig, s)
  {
    if k == 0 {
      assert Swept(sig, s, 0) == s;
    } else {
      var i, t := k - 1, Swept(sig, s, k - 1);
      SweptMap(sig, s, i);
      SweptStep(sig, s, i);
      assert t[i] == s[i];
      var x := SweptSlot(sig, s, i);
      if !Condemned(sig, s, i) {
        assert t[i := x] == t;
      } else if HalfWritten(s[i]) {
        RawMapDead(sig, t, i, x);
      } else {
        var j :| i < j < |s| && Live(sig, s[j]) && Label(s[j].key) == Label(s[i].key);
        RawMapSuperseded(sig, t, i, j, x);
      }
    }
  }

  /** What the whole sweep leaves: exactly the last slot of each valid label is live,
      no half-written slot remains, and every other slot is as it was. */
  lemma SweptResult(sig: Word, s: seq<Slot>)
    ensures var r := Swept(sig, s, |s|);
      && Distinct(sig, r)
      && (forall i :: 0 <= i < |s| ==> (Live(sig, r[i]) <==> IsLast(sig, s, i)))
      && (forall i :: 0 <= i < |s| && IsLast(sig, s, i) ==> r[i] == s[i])
      && (forall i :: 0 <= i < |s| && HalfWritten(s[i]) ==> r[i].key == DELETED)
      && (forall i :: 0 <= i < |s| && !HalfWritten(s[i]) && !Live(sig, s[i]) ==> r[i] == s[i])
  {
    var r := Swept(sig, s, |s|);
    forall i | 0 <= i < |s|
      ensures Live(sig, r[i]) <==> IsLast(sig, s, i)
      ensures IsLast(sig, s, i) ==> r[i] == s[i]
    {
      assert r[i] == SweptSlot(sig, s, i);
      assert IsLast(sig, s, i) ==> !Condemned(sig, s, i);
    }
  }

  /** Rerunning the sweep on anything an interrupted run left gives the same slots. */
  lemma SweptResume(sig: Word, s: seq<Slot>, k: nat)
    requires k <= |s|
    ensures Swept(sig, Swept(sig, s, k), |s|) == Swept(sig, s, |s|)
  {
    var t := Swept(sig, s, k);
    forall i | 0 <= i < |s|
      ensures SweptSlot(sig, t, i) == SweptSlot(sig, s, i)
    {
      assert forall j :: i < j < |s| && Live(sig, t[j]) ==> Live(sig, s[j]) && t[j] == s[j];
      if i >= k {
        assert t[i] == s[i];
        assert forall j :: i < j < |s| ==> t[j] == s[j];
      } else if Condemned(sig, s, i) {
        assert !HalfWritten(t[i]) && !Live(sig, t[i]);
      } else {
        assert t[i] == s[i];
        assert IsLast(sig, s, i) ==> IsLast(sig, t, i);
      }
    }
  }

  /** A sector with distinct labels and no half-written slot is left alone. */
  lemma SweptClean(sig: Word, s: seq<Slot>)
    requires Distinct(sig, s)
    requires forall i :: 0 <= i < |s| ==> !HalfWritten(s[i])
    ensures Swept(sig, s, |s|) == s
    ensures forall i :: 0 <= i < |s| ==> !Condemned(sig, s, i)
  {
    forall i | 0 <= i < |s|
      ensures !Condemned(sig, s, i)
    {
      assert Live(sig, s[i]) ==> IsLast(sig, s, i);
    }
  }
}
