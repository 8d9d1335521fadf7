/** The string table: an append-only log of NUL-terminated texts in the data area,
    with one pointer word per text. */
module KvedStrings {
  import opened KvedWord
  import opened KvedFlash

  type Text = seq<Byte>

  /** A C string that fits the value buffer with its terminator. */
  predicate IsText(t: Text, maxStr: nat) {
    |t| < maxStr && forall i :: 0 <= i < |t| ==> t[i] != 0
  }

  predicate AreTexts(texts: seq<Text>, maxStr: nat) {
    forall i :: 0 <= i < |texts| ==> IsText(texts[i], maxStr)
  }

  /** Data words one text advances the free pointer by: its bytes and terminator
      rounded up past the last word, plus one more. */
  function TextWords(t: Text): (n: nat)
    ensures |t| + 1 + 8 < 8 * n <= |t| + 1 + 16
  {
    (|t| + 1) / 8 + 1 + 1
  }

  function TotalWords(texts: seq<Text>): nat {
    if texts == [] then 0
    else TotalWords(texts[..|texts| - 1]) + TextWords(texts[|texts| - 1])
  }

  lemma {:induction false} TotalWordsMonotone(texts: seq<Text>, i: nat, j: nat)
    requires i <= j <= |texts|
    ensures TotalWords(texts[..i]) <= TotalWords(texts[..j])
    ensures i < j ==> TotalWords(texts[..i]) + TextWords(texts[i]) <= TotalWords(texts[..j])
  {
    if i < j {
      assert texts[..j][..j - 1] == texts[..j - 1];
      TotalWordsMonotone(texts, i, j - 1);
    }
  }

  /** Longest text with its terminator, index slots, and bytes of the data area. */
  datatype Dims = Dims(maxStr: nat, n: nat, bytes: nat)

  /** Index and data area are reachable with 16-bit word addresses. */
  predicate WellSized(d: Dims) {
    d.maxStr <= 0x7FFF && 2 * d.n + 2 < 0x1_0000 && d.bytes / 8 + d.n + 2 < 0x1_0000
  }

  /** The log of texts fits the pointer table and the data area. */
  predicate Loggable(texts: seq<Text>, d: Dims) {
    && WellSized(d) && AreTexts(texts, d.maxStr)
    && |texts| <= d.n && 8 * TotalWords(texts) <= d.bytes
  }

  function Ones(k: nat): (r: seq<Byte>)
    ensures |r| == k
  {
    seq(k, _ => 0xFF)
  }

  function Frees(k: nat): (r: seq<Word>)
    ensures |r| == k
  {
    seq(k, _ => FREE)
  }

  /** Data area contents after logging `texts`. */
  function Layout(texts: seq<Text>): (r: seq<Byte>)
    ensures |r| == 8 * TotalWords(texts)
  {
    if texts == [] then []
    else
      var t := texts[|texts| - 1];
      Layout(texts[..|texts| - 1]) + (t + [0] + Ones(8 * TextWords(t) - |t| - 1))
  }

  function Pointers(texts: seq<Text>): (r: seq<Word>)
    ensures |r| == |texts|
  {
    if texts == [] then []
    else
      var front := texts[..|texts| - 1];
      Pointers(front) + [Pack(TotalWords(front), |texts[|texts| - 1]| + 1)]
  }

  function Minus(a: nat, b: nat): nat { if a >= b then a - b else 0 }

  /** The string sector that holds exactly the log `texts`. */
  function Table(sig: Word, end: Word, texts: seq<Text>, d: Dims): (r: StrSector) {
    StrSector(sig, Pointers(texts) + Frees(Minus(d.n, |texts|)), end,
              Layout(texts) + Ones(Minus(d.bytes, 8 * TotalWords(texts))))
  }

  lemma EmptyTable(d: Dims)
    requires WellSized(d)
    ensures ErasedStr(d.n, d.bytes) == Table(FREE, FREE, [], d)
  {
  }

  /** Reading a pointer word back: `kved_value_string_decode`.  Entry numbers up to and
      including `n` are accepted, the last one naming the end signature word. */
  function TextAt(sec: StrSector, v: Word, maxStr: nat): Text {
    if v > |sec.index| then []
    else
      var w := if v < |sec.index| then sec.index[v] else sec.end;
      var at, len := 8 * PtrOffset(w), PtrLen(w);
      if len > maxStr || at + len > |sec.data| then []
      else sec.data[at..at + len][..StrLen(sec.data[at..at + len])]
  }

  lemma {:induction false} PointerAt(texts: seq<Text>, i: nat)
    requires i < |texts|
    ensures Pointers(texts)[i] == Pack(TotalWords(texts[..i]), |texts[i]| + 1)
  {
    var front := texts[..|texts| - 1];
    if i < |front| {
      assert front[..i] == texts[..i];
      PointerAt(front, i);
    }
  }

  /** The extent of text `i` in the data area, terminator included. */
  lemma {:induction false} LayoutAt(texts: seq<Text>, i: nat)
    requires i < |texts|
    ensures 8 * TotalWords(texts[..i]) + |texts[i]| + 1 <= |Layout(texts)|
    ensures var at := 8 * TotalWords(texts[..i]);
            Layout(texts)[at..at + |texts[i]| + 1] == texts[i] + [0]
  {
    var front, t := texts[..|texts| - 1], texts[|texts| - 1];
    if i < |front| {
      assert front[..i] == texts[..i];
      LayoutAt(front, i);
      var at := 8 * TotalWords(texts[..i]);
      assert Layout(texts)[at..at + |texts[i]| + 1] == Layout(front)[at..at + |texts[i]| + 1];
    } else {
      var at := |Layout(front)|;
      assert Layout(texts)[at..at + |t| + 1] == t + [0];
    }
  }

  /** Every logged text reads back as it was written. */
  lemma TableRoundTrip(sig: Word, end: Word, texts: seq<Text>, i: nat, d: Dims)
    requires Loggable(texts, d) && i < |texts|
    ensures TextAt(Table(sig, end, texts, d), i, d.maxStr) == texts[i]
  {
    var sec := Table(sig, end, texts, d);
    var off, len := TotalWords(texts[..i]), |texts[i]| + 1;
    PointerAt(texts, i);
    assert sec.index[i] == Pack(off, len);
    ExtentAt(texts, i, d);
    PackRoundTrip(off, len);
    assert IsText(texts[i], d.maxStr);
    TextAtExtent(sec, i, d.maxStr, off, texts[i]);
  }

  lemma TextAtExtent(sec: StrSector, v: Word, maxStr: nat, off: nat, t: Text)
    requires v < |sec.index| && IsText(t, maxStr)
    requires PtrOffset(sec.index[v]) == off && PtrLen(sec.index[v]) == |t| + 1
    requires 8 * off + |t| + 1 <= |sec.data|
    requires sec.data[8 * off..8 * off + |t| + 1] == t + [0]
    ensures TextAt(sec, v, maxStr) == t
  {
    CStringOf(t);
  }

  /** The limit on texts is no stricter than reading is: a non-empty C string that is in its
      place with its pointer reads back if and only if it is a text. */
  lemma ReadsIfItFits(sec: StrSector, v: Word, maxStr: nat, off: nat, t: Text)
    requires v < |sec.index| && t != [] && forall i :: 0 <= i < |t| ==> t[i] != 0
    requires PtrOffset(sec.index[v]) == off && PtrLen(sec.index[v]) == |t| + 1
    requires 8 * off + |t| + 1 <= |sec.data|
    requires sec.data[8 * off..8 * off + |t| + 1] == t + [0]
    ensures TextAt(sec, v, maxStr) == t <==> IsText(t, maxStr)
  {
    if IsText(t, maxStr) {
      TextAtExtent(sec, v, maxStr, off, t);
    }
  }

  lemma PackRoundTrip(off: nat, len: nat)
    requires off < 0x1_0000 && 0 < len < 0x1_0000
    ensures PtrOffset(Pack(off, len)) == off && PtrLen(Pack(off, len)) == len
    ensures Pack(off, len) != FREE && Pack(off, len) != DELETED
  {
  }

  lemma ExtentAt(texts: seq<Text>, i: nat, d: Dims)
    requires Loggable(texts, d) && i < |texts|
    ensures var at, len := 8 * TotalWords(texts[..i]), |texts[i]| + 1;
      && at + len <= d.bytes
      && (Layout(texts) + Ones(d.bytes - 8 * TotalWords(texts)))[at..at + len] == texts[i] + [0]
  {
    LayoutAt(texts, i);
  }

  lemma {:induction false} CStringOf(t: Text)
    requires forall i :: 0 <= i < |t| ==> t[i] != 0
    ensures StrLen(t + [0]) == |t|
    ensures (t + [0])[..|t|] == t
  {
    if t != [] {
      assert (t + [0])[1..] == t[1..] + [0];
      CStringOf(t[1..]);
    }
  }

  /** Extents never collide: they are pairwise disjoint, inside the data area, and every
      pointer word decodes to its extent and is neither free nor deleted. */
  lemma ExtentsDisjoint(sig: Word, end: Word, texts: seq<Text>, i: nat, j: nat, d: Dims)
    requires Loggable(texts, d)
    requires i < j < |texts|
    ensures var sec := Table(sig, end, texts, d);
      && 8 * PtrOffset(sec.index[i]) + PtrLen(sec.index[i]) < 8 * PtrOffset(sec.index[j])
      && 8 * PtrOffset(sec.index[j]) + PtrLen(sec.index[j]) <= 8 * TotalWords(texts) <= d.bytes
      && sec.index[i] != FREE && sec.index[i] != DELETED
  {
    PointerAt(texts, i);
    PointerAt(texts, j);
    TotalWordsMonotone(texts, i, j);
    TotalWordsMonotone(texts, j, |texts|);
    assert texts[..|texts|] == texts;
  }

  lemma LoggableFront(texts: seq<Text>, t: Text, d: Dims)
    requires Loggable(texts + [t], d)
    ensures Loggable(texts, d)
    ensures TotalWords(texts + [t]) == TotalWords(texts) + TextWords(t)
    ensures IsText(t, d.maxStr) && |texts| < d.n && 8 * TotalWords(texts) + |t| + 1 < d.bytes
  {
    var more := texts + [t];
    assert more[..|texts|] == texts && more[|texts|] == t;
    assert forall i :: 0 <= i < |texts| ==> texts[i] == more[i];
  }

  lemma WriteOverErased(head: seq<Byte>, u: seq<Byte>, pad: nat, k: nat)
    requires |u| + pad <= k
    ensures WriteBytes(head + Ones(k), |head|, u) == head + (u + Ones(pad)) + Ones(k - |u| - pad)
  {
    var w := WriteBytes(head + Ones(k), |head|, u);
    forall i | 0 <= i < |head| + k
      ensures w[i] == (head + (u + Ones(pad)) + Ones(k - |u| - pad))[i]
    {
    }
  }

  lemma LayoutAppend(texts: seq<Text>, t: Text)
    ensures Layout(texts + [t]) == Layout(texts) + (t + [0] + Ones(8 * TextWords(t) - |t| - 1))
  {
    assert (texts + [t])[..|texts|] == texts;
  }

  lemma AppendData(texts: seq<Text>, t: Text, d: Dims)
    requires 8 * TotalWords(texts) + 8 * TextWords(t) <= d.bytes
    requires TotalWords(texts + [t]) == TotalWords(texts) + TextWords(t)
    ensures WriteBytes(Layout(texts) + Ones(d.bytes - 8 * TotalWords(texts)), 8 * TotalWords(texts), t + [0])
         == Layout(texts + [t]) + Ones(d.bytes - 8 * TotalWords(texts + [t]))
  {
    WriteOverErased(Layout(texts), t + [0], 8 * TextWords(t) - |t| - 1, d.bytes - 8 * TotalWords(texts));
    LayoutAppend(texts, t);
  }

  lemma AppendPointer(texts: seq<Text>, t: Text, d: Dims)
    requires |texts| < d.n
    ensures (Pointers(texts) + Frees(d.n - |texts|))[|texts| := Pack(TotalWords(texts), |t| + 1)]
         == Pointers(texts + [t]) + Frees(d.n - |texts + [t]|)
  {
    assert (texts + [t])[..|texts|] == texts;
  }

  /** The two flash steps that log one more text. */
  function DataStep(side: Side, texts: seq<Text>, t: Text): Step {
    WriteStrData(side, TotalWords(texts), t + [0])
  }

  function PtrStep(side: Side, texts: seq<Text>, t: Text): Step {
    WriteStrIndex(side, |texts|, Pack(TotalWords(texts), |t| + 1))
  }

  lemma ApplyData(sec: StrSector, texts: seq<Text>, t: Text, side: Side, d: Dims)
    requires Loggable(texts + [t], d)
    requires sec.data == Layout(texts) + Ones(Minus(d.bytes, 8 * TotalWords(texts)))
    ensures ApplyStr(sec, DataStep(side, texts, t))
         == sec.(data := Layout(texts + [t]) + Ones(Minus(d.bytes, 8 * TotalWords(texts + [t]))))
  {
    LoggableFront(texts, t, d);
    AppendData(texts, t, d);
  }

  lemma ApplyPtr(sec: StrSector, texts: seq<Text>, t: Text, side: Side, d: Dims)
    requires |texts| < d.n
    requires sec.index == Pointers(texts) + Frees(d.n - |texts|)
    ensures ApplyStr(sec, PtrStep(side, texts, t))
         == sec.(index := Pointers(texts + [t]) + Frees(d.n - |texts + [t]|))
  {
    AppendPointer(texts, t, d);
    assert sec.index[|texts|] == FREE;
  }

  /** They append exactly that text, in either order. */
  lemma AppendText(sig: Word, end: Word, texts: seq<Text>, t: Text, side: Side, d: Dims)
    requires Loggable(texts + [t], d)
    ensures Loggable(texts, d)
    ensures ApplyStr(ApplyStr(Table(sig, end, texts, d), DataStep(side, texts, t)), PtrStep(side, texts, t))
         == Table(sig, end, texts + [t], d)
    ensures ApplyStr(ApplyStr(Table(sig, end, texts, d), PtrStep(side, texts, t)), DataStep(side, texts, t))
         == Table(sig, end, texts + [t], d)
  {
    LoggableFront(texts, t, d);
    var sec, more := Table(sig, end, texts, d), Table(sig, end, texts + [t], d);
    ApplyData(sec, texts, t, side, d);
    ApplyPtr(sec, texts, t, side, d);
    ApplyPtr(sec.(data := more.data), texts, t, side, d);
    ApplyData(sec.(index := more.index), texts, t, side, d);
  }

  /** `kved_string_consistency_check` restarts the table at the first free pointer. */
  function FirstFree(index: seq<Word>): (i: nat)
    ensures i <= |index|
    ensures i < |index| ==> index[i] == FREE
    ensures forall j :: 0 <= j < i ==> index[j] != FREE
  {
    if index == [] || index[0] == FREE then 0
    else
      var r := FirstFree(index[1..]);
      assert forall j :: 1 <= j < r + 1 ==> index[j] == index[1..][j - 1];
      1 + r
  }

  lemma FirstFreeOfTable(sig: Word, end: Word, texts: seq<Text>, d: Dims)
    requires Loggable(texts, d)
    ensures FirstFree(Table(sig, end, texts, d).index) == |texts|
  {
    var sec := Table(sig, end, texts, d);
    forall i | 0 <= i < |texts|
      ensures sec.index[i] != FREE
    {
      PointerAt(texts, i);
    }
    assert |texts| < d.n ==> sec.index[|texts|] == FREE;
  }
}
