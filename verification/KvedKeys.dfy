/** Which keys the store takes: all but those whose label marks an erased, a deleted or the
    signature word. */
module KvedKeys {
  import opened Options
  import opened KvedWord
  import opened KvedFlash
  import opened KvedIndex
  import opened KvedStore

  /** The upper 56 bits are those of a deleted word, of an erased one, or of the signature. */
  predicate Reserved(c: Config, key: Word) {
    key / 256 == 0 || key / 256 == 0xFF_FFFF_FFFF_FFFF || key / 256 == c.sig / 256
  }

  /** Some slot carries the key, whatever its type and size. */
  predicate Carried(s: seq<Slot>, key: Word) {
    exists i :: 0 <= i < |s| && s[i].key / 256 == key / 256
  }

  /** A write is refused as having an invalid key if and only if the key is reserved. */
  lemma WriteRefused(c: Config, st: State, d: Data)
    ensures PutPlan(c, st, d).res == InvalidKey <==> Reserved(c, d.key)
  {
    hide Exec, CheckPlan, SwitchPlan, AppendPlan, Unchanged, Find;
    SwitchAnswers(c, st, Update(Label(d.key), d.value));
    AppendAnswers(Exec(st, SwitchPlan(c, st, Update(Label(d.key), d.value))), d, None);
    AppendAnswers(st, d, None);
    AppendAnswers(st, d, Some(Find(st.Slots(), Label(d.key))));
  }

  lemma SwitchAnswers(c: Config, st: State, u: Update)
    ensures SwitchPlan(c, st, u).res == Ok || SwitchPlan(c, st, u).res == CorruptTable
  {
  }

  lemma AppendAnswers(st: State, d: Data, replaced: Option<nat>)
    ensures AppendPlan(st, d, replaced).res == Ok
  {
  }

  lemma FindMeans(s: seq<Slot>, key: Word)
    ensures Find(s, Label(key)) < |s| <==> Carried(s, key)
  {
    var i := Find(s, Label(key));
    if i < |s| {
      assert s[i].key / 256 == key / 256;
    }
  }

  /** A delete is refused if and only if the key is reserved or no slot carries it. */
  lemma DeleteRefused(c: Config, st: State, key: Word)
    ensures DeletePlan(c, st, key).res == InvalidKey <==> Reserved(c, key) || !Carried(st.Slots(), key)
  {
    hide Find;
    FindMeans(st.Slots(), key);
  }

  /** A read finds nothing if and only if the key is reserved or no slot carries it. */
  lemma ReadRefused(c: Config, st: State, key: Word)
    ensures Get(c, st, key) == None <==> Reserved(c, key) || !Carried(st.Slots(), key)
  {
    hide Find;
    FindMeans(st.Slots(), key);
  }

  /** The upper seven bytes agree. */
  predicate SameUpper(w: Word, x: Word) { forall j :: 1 <= j <= 7 ==> ByteAt(w, j) == ByteAt(x, j) }

  predicate Filled(key: seq<Byte>) { forall i :: 0 <= i < |key| ==> key[i] == 0xFF }

  /** A key as the caller spells it is reserved if and only if it is empty, or seven bytes 0xFF,
      or spells the signature. */
  lemma SpelledReserved(c: Config, w: Word, key: seq<Byte>)
    requires Spells(w, key)
    ensures Reserved(c, w) <==> key[0] == 0 || Filled(key) || Spells(c.sig, key)
  {
    SameUpperMeans(w, DELETED);
    SameUpperMeans(w, FREE);
    SameUpperMeans(w, c.sig);
    SpellsNothing(w, key);
    SpellsOnes(w, key);
  }

  lemma SpellsNothing(w: Word, key: seq<Byte>)
    requires Spells(w, key)
    ensures SameUpper(w, DELETED) <==> key[0] == 0
  {
    hide ByteAt, StrLen;
    Bytes();
    assert ByteAt(w, 7) == if 0 < StrLen(key) then key[0] else 0;
  }

  lemma SpellsOnes(w: Word, key: seq<Byte>)
    requires Spells(w, key)
    ensures SameUpper(w, FREE) <==> Filled(key)
  {
    hide ByteAt, StrLen;
    Bytes();
    if Filled(key) {
      assert StrLen(key) == 7;
    }
    if SameUpper(w, FREE) {
      forall i | 0 <= i < 7
        ensures key[i] == 0xFF
      {
        assert ByteAt(w, 7 - i) == 0xFF;
      }
    }
  }

  /** The bytes of the erased and of the deleted word. */
  lemma Bytes()
    ensures forall j :: 0 <= j <= 7 ==> ByteAt(0, j) == 0 && ByteAt(FREE, j) == 0xFF
  {
    forall j | 0 <= j <= 7
      ensures ByteAt(0, j) == 0 && ByteAt(FREE, j) == 0xFF
    {
      ZeroBytes(j);
      OneBytes(7, j);
    }
  }

  lemma {:induction false} ZeroBytes(j: nat)
    ensures ByteAt(0, j) == 0
  {
    if j > 0 {
      ZeroBytes(j - 1);
    }
  }

  lemma {:induction false} OneBytes(n: nat, j: nat)
    requires j <= n
    ensures Pow256(n + 1) > 0 && ByteAt(Pow256(n + 1) - 1, j) == 0xFF
  {
    PowIsPositive(n);
    assert (Pow256(n + 1) - 1) / 256 == Pow256(n) - 1 && (Pow256(n + 1) - 1) % 256 == 0xFF;
    if j > 0 {
      OneBytes(n - 1, j - 1);
    }
  }

  lemma {:induction false} PowIsPositive(n: nat)
    ensures Pow256(n) > 0
  {
    if n > 0 {
      PowIsPositive(n - 1);
    }
  }

  lemma SameUpperMeans(w: Word, x: Word)
    ensures SameUpper(w, x) <==> w / 256 == x / 256
  {
    LabelFits(w);
    LabelFits(x);
    hide ByteAt;
    if w / 256 == x / 256 {
      forall j | 1 <= j <= 7
        ensures ByteAt(w, j) == ByteAt(x, j)
      {
        ByteAbove(w, j);
        ByteAbove(x, j);
      }
    }
    if SameUpper(w, x) {
      forall i | 0 <= i < 7
        ensures Unfold(Label(w), 7)[i] == Unfold(Label(x), 7)[i]
      {
        ByteOfUnfold(Label(w), 7, i);
        ByteOfUnfold(Label(x), 7, i);
        ByteAbove(w, 7 - i);
        ByteAbove(x, 7 - i);
        assert ByteAt(w, 7 - i) == ByteAt(x, 7 - i);
      }
      assert Unfold(Label(w), 7) == Unfold(Label(x), 7);
      FoldUnfold(Label(w), 7);
      FoldUnfold(Label(x), 7);
    }
  }

  lemma ByteAbove(w: Word, j: nat)
    requires j > 0
    ensures ByteAt(w, j) == ByteAt(w / 256, j - 1)
  {
  }
}
