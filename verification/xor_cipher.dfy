/** The byte obfuscation the driver applies between the caller's plaintext
    and the ciphertext that rests in the device buffer: every byte is XORed
    with the fixed key `KEY`. */
module XorCipher {

  /** The driver's fixed obfuscation key. */
  const KEY: bv8 := 0x41

  /** One byte through the cipher. Because the key is not zero, the byte
      always changes, and XORing the result with the key gives it back. */
  function Crypt(b: bv8): (c: bv8)
    ensures c != b
    ensures c ^ KEY == b
  {
    b ^ KEY
  }

  /** A whole byte string through the cipher, byte by byte. */
  function Transform(s: seq<bv8>): (t: seq<bv8>)
    ensures |t| == |s|
    ensures forall i :: 0 <= i < |s| ==> t[i] == Crypt(s[i])
  {
    if s == [] then [] else [Crypt(s[0])] + Transform(s[1..])
  }

  /** The cipher is self-inverse: decrypting what was encrypted gives the
      plaintext back, for every byte string. */
  lemma {:induction false} TransformInvolution(s: seq<bv8>)
    ensures Transform(Transform(s)) == s
  {
    if s != [] {
      TransformInvolution(s[1..]);
      assert Transform(s) == [Crypt(s[0])] + Transform(s[1..]);
      assert Transform(s)[1..] == Transform(s[1..]);
      assert Transform(Transform(s)) == [Crypt(Crypt(s[0]))] + Transform(Transform(s[1..]));
    }
  }
}
