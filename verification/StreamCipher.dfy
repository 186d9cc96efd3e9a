/** The XOR stream both the session and the onion layers encrypt with: AES-256 on a block that
    holds a nonce in its first half and a running block number in its second. */
module StreamCipher {
  import opened Words

  type Key = k: Octets | |k| == 32 witness seq(32, i => 0)

  /** Byte j of the cipher's output under a key on (nonce, block number). */
  type Cipher = (Octets, nat, nat, nat) -> bv8

  /** The whole stream at once: byte i meets byte i % 16 of block i / 16. */
  function Crypt(aes: Cipher, key: Octets, nonce: nat, data: Octets): (r: Octets)
    ensures |r| == |data|
  {
    seq(|data|, i requires 0 <= i < |data| => data[i] ^ aes(key, nonce, i / 16, i % 16))
  }

  /** Encrypting and decrypting are the same operation. */
  lemma CryptTwice(aes: Cipher, key: Octets, nonce: nat, data: Octets)
    ensures Crypt(aes, key, nonce, Crypt(aes, key, nonce, data)) == data
  { }

  lemma XorTwice(x: bv8, k: bv8)
    ensures (x ^ k) ^ k == x
  {
  }

  /** The loop of the code: chunks of sixteen, each XORed with the next keystream block. */
  method CryptInPlace(aes: Cipher, key: Octets, nonce: nat, buf: array<bv8>)
    modifies buf
    ensures buf[..] == Crypt(aes, key, nonce, old(buf[..]))
  {
    var start, blockNum := 0, 0;
    while start < buf.Length
      invariant start == 16 * blockNum || (start == buf.Length && start <= 16 * blockNum)
      invariant start <= buf.Length
      invariant forall k :: 0 <= k < start ==> buf[k] == old(buf[k]) ^ aes(key, nonce, k / 16, k % 16)
      invariant forall k :: start <= k < buf.Length ==> buf[k] == old(buf[k])
    {
      var end := if start + 16 <= buf.Length then start + 16 else buf.Length;
      var i := 0;
      while start + i < end
        invariant start + i <= end
        invariant forall k :: 0 <= k < start + i ==> buf[k] == old(buf[k]) ^ aes(key, nonce, k / 16, k % 16)
        invariant forall k :: start + i <= k < buf.Length ==> buf[k] == old(buf[k])
      {
        assert (start + i) / 16 == blockNum && (start + i) % 16 == i;
        buf[start + i] := buf[start + i] ^ aes(key, nonce, blockNum, i);
        i := i + 1;
      }
      start, blockNum := end, blockNum + 1;
    }
  }

  /** The same on a copy, as both callers use it. */
  method CryptCopy(aes: Cipher, key: Key, nonce: nat, data: Octets) returns (r: Octets)
    ensures r == Crypt(aes, key, nonce, data)
  {
    var buf := new bv8[|data|](i requires 0 <= i < |data| => data[i]);
    assert buf[..] == data;
    CryptInPlace(aes, key, nonce, buf);
    r := buf[..];
  }
}
