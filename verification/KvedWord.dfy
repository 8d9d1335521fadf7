/** The 64-bit flash word of the kved store: what programming a word does to the
    bits already there, and how keys, signatures and string pointers are packed. */
module KvedWord {

  const WORD_MAX := 0xFFFF_FFFF_FFFF_FFFF
  type Word = w: nat | w <= WORD_MAX
  type Byte = b: nat | b <= 0xFF

  /** An erased word has every bit set; a tombstoned key word has none. */
  const FREE: Word := WORD_MAX
  const DELETED: Word := 0

  // ------------------------------------------------------------------ bits

  /** Bitwise conjunction. */
  function And(a: nat, b: nat): (r: nat)
    ensures r <= a && r <= b
  {
    if a == 0 || b == 0 then 0
    else 2 * And(a / 2, b / 2) + (if a % 2 == 1 && b % 2 == 1 then 1 else 0)
  }

  predicate AllOnes(a: nat) {
    a == 0 || (a % 2 == 1 && AllOnes(a / 2))
  }

  lemma {:induction false} AndAllOnes(a: nat, b: nat)
    requires AllOnes(a) && b <= a
    ensures And(a, b) == b
  {
    if a != 0 && b != 0 {
      AndAllOnes(a / 2, b / 2);
    }
  }

  /** Every bit of a conjunction is a bit of its first operand. */
  lemma {:induction false} AndIsSubset(a: nat, b: nat)
    ensures And(a, And(a, b)) == And(a, b)
  {
    if a != 0 && b != 0 {
      AndIsSubset(a / 2, b / 2);
    }
  }

  lemma AllOnesWiden(a: nat)
    requires AllOnes(a)
    ensures AllOnes(16 * a + 15)
  {
    AllOnesShift(a);
    AllOnesShift(2 * a + 1);
    AllOnesShift(4 * a + 3);
    AllOnesShift(8 * a + 7);
  }

  lemma AllOnesShift(a: nat)
    requires AllOnes(a)
    ensures AllOnes(2 * a + 1)
  {
    assert (2 * a + 1) / 2 == a && (2 * a + 1) % 2 == 1;
  }

  lemma WordIsAllOnes()
    ensures AllOnes(FREE)
  {
    var a: nat := 0;
    for i := 0 to 16
      invariant AllOnes(a)
      invariant a == [0, 0xF, 0xFF, 0xFFF, 0xFFFF, 0xF_FFFF, 0xFF_FFFF, 0xFFF_FFFF, 0xFFFF_FFFF,
                      0xF_FFFF_FFFF, 0xFF_FFFF_FFFF, 0xFFF_FFFF_FFFF, 0xFFFF_FFFF_FFFF,
                      0xF_FFFF_FFFF_FFFF, 0xFF_FFFF_FFFF_FFFF, 0xFFF_FFFF_FFFF_FFFF, FREE][i]
    {
      AllOnesWiden(a);
      a := 16 * a + 15;
    }
  }

  /** Bit `i` of a word, the lowest being bit 0. */
  predicate Bit(a: nat, i: nat) { if i == 0 then a % 2 == 1 else Bit(a / 2, i - 1) }

  lemma {:induction false} AndBits(a: nat, b: nat, i: nat)
    ensures Bit(And(a, b), i) <==> Bit(a, i) && Bit(b, i)
  {
    if a == 0 || b == 0 {
      ZeroBits(i);
    } else {
      assert And(a, b) / 2 == And(a / 2, b / 2);
      if i > 0 {
        AndBits(a / 2, b / 2, i - 1);
      }
    }
  }

  lemma {:induction false} ZeroBits(i: nat)
    ensures !Bit(0, i)
  {
    if i > 0 {
      ZeroBits(i - 1);
    }
  }

  /** Programming flash can only clear bits.  Writing over an erased word stores the
      word asked for, and a tombstone always lands; nothing can be written over a
      tombstone. */
  function Program(was: Word, put: Word): (r: Word)
    ensures was == FREE ==> r == put
    ensures was == 0 || put == 0 ==> r == 0
    ensures r <= was && And(was, r) == r
  {
    AndIsSubset(was, put);
    assert was == FREE ==> And(was, put) == put by {
      if was == FREE {
        WordIsAllOnes();
        AndAllOnes(FREE, put);
      }
    }
    And(was, put)
  }

  /** A bit is set afterwards exactly if it was set and was to be. */
  lemma ProgramBits(was: Word, put: Word, i: nat)
    ensures Bit(Program(was, put), i) <==> Bit(was, i) && Bit(put, i)
  {
    AndBits(was, put, i);
  }

  function ProgramByte(was: Byte, put: Byte): (r: Byte)
    ensures was == 0xFF ==> r == put
    ensures was == 0 || put == 0 ==> r == 0
  {
    assert was == 0xFF ==> And(was, put) == put by {
      if was == 0xFF {
        assert AllOnes(0xFF);
        AndAllOnes(0xFF, put);
      }
    }
    And(was, put)
  }

  // ------------------------------------------------------------------ keys

  const KEY_SIZE := 7
  const TYPE_STRING := 7
  const TYPE_COUNT := 11

  /** The upper 56 bits of a key word; two key words name the same entry exactly
      when their labels agree (the low byte holds type and size). */
  function Label(w: Word): nat { w / 256 }

  function TypeOf(w: Word): nat { (w % 256) / 16 }

  predicate IsString(w: Word) { TypeOf(w) == TYPE_STRING }

  predicate IsValidKey(sig: Word, w: Word) {
    Label(w) != Label(sig) && Label(w) != Label(DELETED) && Label(w) != Label(FREE)
  }

  /** Big-endian value of a byte string. */
  function Fold(bs: seq<Byte>): nat {
    if bs == [] then 0 else Fold(bs[..|bs| - 1]) * 256 + bs[|bs| - 1]
  }

  /** The `n` low-order bytes of `v`, most significant first. */
  function Unfold(v: nat, n: nat): (bs: seq<Byte>)
    ensures |bs| == n
  {
    if n == 0 then [] else Unfold(v / 256, n - 1) + [v % 256]
  }

  function Pow256(n: nat): nat { if n == 0 then 1 else 256 * Pow256(n - 1) }

  lemma {:induction false} FoldBound(bs: seq<Byte>)
    ensures Fold(bs) < Pow256(|bs|)
  {
    if bs != [] {
      FoldBound(bs[..|bs| - 1]);
    }
  }

  lemma {:induction false} UnfoldFold(bs: seq<Byte>)
    ensures Unfold(Fold(bs), |bs|) == bs
  {
    if bs != [] {
      UnfoldFold(bs[..|bs| - 1]);
      assert Fold(bs) / 256 == Fold(bs[..|bs| - 1]);
      assert Fold(bs) % 256 == bs[|bs| - 1];
    }
  }

  /** Length of the C string in a buffer (`strnlen`). */
  function StrLen(bs: seq<Byte>): (n: nat)
    ensures n <= |bs|
    ensures n < |bs| ==> bs[n] == 0
    ensures forall i :: 0 <= i < n ==> bs[i] != 0
  {
    if bs == [] || bs[0] == 0 then 0 else 1 + StrLen(bs[1..])
  }

  /** `strncpy` into a key buffer: the string, then zero bytes. */
  function Padded(key: seq<Byte>): (r: seq<Byte>)
    requires |key| == KEY_SIZE
    ensures |r| == KEY_SIZE
    ensures forall i :: 0 <= i < KEY_SIZE ==> r[i] == if i < StrLen(key) then key[i] else 0
  {
    var n := StrLen(key);
    key[..n] + seq(KEY_SIZE - n, _ => 0)
  }

  /** Byte `i` of a word, the lowest being byte 0. */
  function ByteAt(w: nat, i: nat): Byte { if i == 0 then w % 256 else ByteAt(w / 256, i - 1) }

  lemma {:induction false} ByteOfFold(bs: seq<Byte>, i: nat)
    requires i < |bs|
    ensures ByteAt(Fold(bs), |bs| - 1 - i) == bs[i]
  {
    var n := |bs| - 1;
    assert Fold(bs) / 256 == Fold(bs[..n]) && Fold(bs) % 256 == bs[n];
    if i < n {
      ByteOfFold(bs[..n], i);
    }
  }

  lemma {:induction false} ByteOfUnfold(v: nat, n: nat, i: nat)
    requires i < n
    ensures Unfold(v, n)[i] == ByteAt(v, n - 1 - i)
  {
    if i < n - 1 {
      ByteOfUnfold(v / 256, n - 1, i);
    }
  }

  /** The upper seven bytes of the word are the C string in the key buffer, first character
      topmost, and zero bytes behind it. */
  predicate Spells(w: Word, key: seq<Byte>) {
    |key| == KEY_SIZE && forall j :: 1 <= j <= 7 ==> ByteAt(w, j) == if 7 - j < StrLen(key) then key[7 - j] else 0
  }

  lemma SpellsLabel(w: Word, key: seq<Byte>)
    requires |key| == KEY_SIZE
    ensures Label(w) == Fold(Padded(key)) <==> Spells(w, key)
  {
    var k := Padded(key);
    forall j | 1 <= j <= 7
      ensures ByteAt(w, j) == Unfold(Label(w), KEY_SIZE)[7 - j] && ByteAt(Fold(k), j - 1) == k[7 - j]
    {
      ByteOfUnfold(Label(w), KEY_SIZE, 7 - j);
      ByteOfFold(k, 7 - j);
    }
    if Spells(w, key) {
      forall i | 0 <= i < KEY_SIZE
        ensures Unfold(Label(w), KEY_SIZE)[i] == k[i]
      {
        assert ByteAt(w, 7 - i) == k[i];
      }
      assert Unfold(Label(w), KEY_SIZE) == k;
      FoldUnfold(Label(w), KEY_SIZE);
      LabelFits(w);
    } else if Label(w) == Fold(k) {
      UnfoldFold(k);
    }
  }

  lemma LabelFits(w: Word)
    ensures Label(w) < Pow256(KEY_SIZE)
  {
    assert Pow256(KEY_SIZE) == 0x100_0000_0000_0000;
  }

  lemma {:induction false} FoldUnfold(v: nat, n: nat)
    requires v < Pow256(n)
    ensures Fold(Unfold(v, n)) == v
  {
    if n > 0 {
      FoldUnfold(v / 256, n - 1);
      assert Unfold(v, n)[..n - 1] == Unfold(v / 256, n - 1);
    }
  }

  /** Size nibble: stored length for a string key, width of the type otherwise. */
  function SizeOf(typ: nat, key: seq<Byte>): (r: nat)
    requires typ < TYPE_COUNT && |key| == KEY_SIZE
    ensures r <= 8
  {
    if typ == TYPE_STRING then StrLen(key)
    else [1, 1, 2, 2, 2, 2, 4, 7, 8, 8, 8][typ]
  }

  /** `kved_key_encode`: key bytes from the top of the word, type and size below. */
  method EncodeKey(typ: nat, key: seq<Byte>) returns (w: Word)
    requires typ < TYPE_COUNT && |key| == KEY_SIZE
    ensures forall j :: 1 <= j <= 7 ==> ByteAt(w, j) == if 7 - j < StrLen(key) then key[7 - j] else 0
    ensures ByteAt(w, 0) == 16 * typ + [1, 1, 2, 2, 2, 2, 4, StrLen(key), 8, 8, 8][typ]
    ensures Spells(w, key) && TypeOf(w) == typ && (IsString(w) <==> typ == 7)
  {
    var acc, k := 0, Padded(key);
    for p := 0 to KEY_SIZE
      invariant acc == Fold(k[..p])
    {
      assert k[..p + 1][..p] == k[..p];
      acc := acc * 256 + k[p];
    }
    assert k[..KEY_SIZE] == k;
    FoldBound(k);
    assert Pow256(KEY_SIZE) == 0x100_0000_0000_0000;
    w := acc * 256 + typ * 16 + SizeOf(typ, key);
    SpellsLabel(w, key);
  }

  /** `kved_key_decode`. */
  method DecodeKey(w: Word) returns (typ: nat, key: seq<Byte>)
    ensures typ == ByteAt(w, 0) / 16
    ensures |key| == 7 && forall j :: 1 <= j <= 7 ==> key[7 - j] == ByteAt(w, j)
  {
    typ := TypeOf(w);
    key := [];
    var rest := Label(w);
    for p := 0 to KEY_SIZE
      invariant |key| == p
      invariant Unfold(Label(w), KEY_SIZE) == Unfold(rest, KEY_SIZE - p) + key
    {
      key := [rest % 256] + key;
      rest := rest / 256;
    }
    forall j | 1 <= j <= 7
      ensures key[7 - j] == ByteAt(w, j)
    {
      ByteOfUnfold(Label(w), KEY_SIZE, 7 - j);
    }
  }

  /** Two keys get the same label if and only if they are the same C string. */
  lemma KeyRoundTrip(w: Word, w': Word, key: seq<Byte>, key': seq<Byte>)
    requires Spells(w, key) && Spells(w', key')
    ensures Label(w) == Label(w') <==> StrLen(key) == StrLen(key') && key[..StrLen(key)] == key'[..StrLen(key')]
  {
    SpellsLabel(w, key);
    SpellsLabel(w', key');
    UnfoldFold(Padded(key));
    UnfoldFold(Padded(key'));
    PaddedSame(key, key');
  }

  lemma PaddedSame(key: seq<Byte>, key': seq<Byte>)
    requires |key| == KEY_SIZE && |key'| == KEY_SIZE
    ensures Padded(key) == Padded(key') <==> StrLen(key) == StrLen(key') && key[..StrLen(key)] == key'[..StrLen(key')]
  {
    var n, n' := StrLen(key), StrLen(key');
    assert n < n' ==> Padded(key)[n] != Padded(key')[n];
    assert n' < n ==> Padded(key)[n'] != Padded(key')[n'];
    assert Padded(key)[..n] == key[..n] && Padded(key')[..n'] == key'[..n'];
  }

  // ------------------------------------------------------------- signatures

  /** Build-time string limit and the driver's entry limit, both folded into the
      signatures so that a store built differently is not recognised. */
  predicate IsLimits(maxString: nat, maxEntries: nat) {
    maxString <= 0x7FFF && 0 < maxEntries <= 0xFFFF
  }

  function Signature(maxString: nat, maxEntries: nat): (r: Word)
    requires IsLimits(maxString, maxEntries)
    ensures r != FREE && r != DELETED
  {
    0xDEAD_BEEF_0000_0000 + maxString * 0x1_0000 + maxEntries
  }

  function StrSignature(maxString: nat, maxEntries: nat): (r: Word)
    requires IsLimits(maxString, maxEntries)
    ensures r != FREE && r != DELETED
  {
    0xBF00_BF1B_0000_0000 + maxString * 0x1_0000 + maxEntries
  }

  function StrEndSignature(maxString: nat, maxEntries: nat): (r: Word)
    requires IsLimits(maxString, maxEntries)
    ensures r != FREE && r != DELETED
  {
    0xBEEF_DEAD_0000_0000 + maxString * 0x1_0000 + maxEntries
  }

  /** A store built with other limits is not recognised, and no sector is taken for one of
      another kind. */
  lemma SignaturesTellApart(s: nat, e: nat, s': nat, e': nat)
    requires IsLimits(s, e) && IsLimits(s', e')
    ensures Signature(s, e) == Signature(s', e') <==> s == s' && e == e'
    ensures StrSignature(s, e) == StrSignature(s', e') <==> s == s' && e == e'
    ensures StrEndSignature(s, e) == StrEndSignature(s', e') <==> s == s' && e == e'
    ensures Signature(s, e) / 0x1_0000_0000 == 0xDEAD_BEEF && StrSignature(s, e) / 0x1_0000_0000 == 0xBF00_BF1B
    ensures StrEndSignature(s, e) / 0x1_0000_0000 == 0xBEEF_DEAD
  {
  }

  // --------------------------------------------------------- string pointers

  /** A string table entry: word offset in the upper half, byte length in the lower. */
  function Pack(offset: nat, len: nat): (w: Word)
    ensures offset < 0x1_0000 && len < 0x1_0000 ==> PtrOffset(w) == offset && PtrLen(w) == len
    ensures offset < 0x1_0000 && len < 0x1_0000 ==> w / 0x1_0000_0000 == offset && w % 0x1_0000_0000 == len
    ensures offset < 0x1_0000 && 0 < len < 0x1_0000 ==> w != FREE && w != DELETED
  {
    (offset * 0x1_0000_0000 + len) % 0x1_0000_0000_0000_0000
  }

  function PtrOffset(w: Word): nat { w / 0x1_0000_0000 }

  /** The length is read into a 16-bit variable. */
  function PtrLen(w: Word): nat { (w % 0x1_0000_0000) % 0x1_0000 }
}
