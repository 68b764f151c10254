/** Bytes and 256-bit storage words: `binary.Word256`, `LeftPadWord256`,
    `Word256.UnpadLeft` and `Zero256`. */
module Binary {

  newtype byte = x: int | 0 <= x < 256

  const Word256Length: nat := 32

  /** A storage word: exactly 32 bytes, big-endian. */
  type Word256 = s: seq<byte> | |s| == 32 witness seq(32, _ => 0)

  /** `n` zero bytes. */
  function Zeros(n: nat): (z: seq<byte>)
  {
    seq(n, _ => 0)
  }

  /** The all-zero word, the value of a slot that was never written. */
  const Zero256: Word256 := Zeros(Word256Length)

  predicate AllZero(s: seq<byte>) {
    forall i :: 0 <= i < |s| ==> s[i] == 0
  }

  /** `LeftPadWord256`: prefix a key of at most 32 bytes with zero bytes up to a full word. */
  function LeftPadWord256(bz: seq<byte>): (w: Word256)
    requires |bz| <= Word256Length
    ensures w[Word256Length - |bz|..] == bz
    ensures AllZero(w[..Word256Length - |bz|])
  {
    Zeros(Word256Length - |bz|) + bz
  }

  /** `UnpadLeft`: drop every leading zero byte (Go's `bytes.TrimLeft(w, "\x00")`). */
  function UnpadLeft(s: seq<byte>): (r: seq<byte>)
  {
    if |s| > 0 && s[0] == 0 then UnpadLeft(s[1..]) else s
  }

  /** UnpadLeft removes exactly a run of zero bytes from the front, and what remains
      does not start with a zero byte. */
  lemma {:induction false} UnpadLeftShape(s: seq<byte>)
    ensures |UnpadLeft(s)| <= |s|
    ensures s == Zeros(|s| - |UnpadLeft(s)|) + UnpadLeft(s)
    ensures UnpadLeft(s) == [] || UnpadLeft(s)[0] != 0
  {
    if |s| > 0 && s[0] == 0 {
      var t := s[1..];
      UnpadLeftShape(t);
      var r := UnpadLeft(t);
      var n := |t| - |r|;
      assert Zeros(n + 1) == [0] + Zeros(n);
      calc {
        s;
        [s[0]] + t;
        [0] + (Zeros(n) + r);
        ([0] + Zeros(n)) + r;
        Zeros(n + 1) + r;
      }
    } else {
      assert s == Zeros(0) + s;
    }
  }

  /** Left-padding an unpadded word gives the word back: the unpadded form is lossless. */
  lemma {:induction false} LeftPadUnpadLeft(w: Word256)
    ensures |UnpadLeft(w)| <= Word256Length
    ensures LeftPadWord256(UnpadLeft(w)) == w
  {
    UnpadLeftShape(w);
  }

  /** The unpadded form is empty exactly for the all-zero word. */
  lemma {:induction false} UnpadLeftEmpty(w: Word256)
    ensures UnpadLeft(w) == [] <==> w == Zero256
  {
    UnpadLeftShape(w);
    if UnpadLeft(w) == [] {
      assert w == Zeros(32) + [];
    }
    if w == Zero256 {
      UnpadLeftPrefixZeros(Word256Length, []);
      assert Zero256 + [] == Zero256;
    }
  }

  /** Unpadding the padded form of a key gives the key without its own leading zeros. */
  lemma {:induction false} UnpadLeftPrefixZeros(n: nat, s: seq<byte>)
    ensures UnpadLeft(Zeros(n) + s) == UnpadLeft(s)
  {
    if n > 0 {
      assert (Zeros(n) + s)[1..] == Zeros(n - 1) + s;
      UnpadLeftPrefixZeros(n - 1, s);
    } else {
      assert Zeros(n) + s == s;
    }
  }

  lemma {:induction false} UnpadLeftOfLeftPad(bz: seq<byte>)
    requires |bz| <= Word256Length
    ensures UnpadLeft(LeftPadWord256(bz)) == UnpadLeft(bz)
  {
    assert LeftPadWord256(bz) == Zeros(Word256Length - |bz|) + bz;
    UnpadLeftPrefixZeros(Word256Length - |bz|, bz);
  }
}
