/** The two byte ciphers of the camera protocol. The block cipher itself is any function on blocks. */
module StreamCipher {

  const BLOCK: nat := 16

  type Block = b: seq<bv8> | |b| == BLOCK witness seq(BLOCK, _ => 0)

  const INITIALIZATION_VECTOR: Block :=
    [0x30, 0x31, 0x32, 0x33, 0x34, 0x35, 0x36, 0x37, 0x38, 0x39, 0x61, 0x62, 0x63, 0x64, 0x65, 0x66]

  // ---- Cipher feedback ----

  function Xor(bytes: seq<bv8>, stream: seq<bv8>): (r: seq<bv8>)
    requires |bytes| <= |stream|
    ensures |r| == |bytes|
    ensures forall i :: 0 <= i < |r| ==> r[i] == bytes[i] ^ stream[i]
  {
    seq(|bytes|, i requires 0 <= i < |bytes| => bytes[i] ^ stream[i])
  }

  /** CFB with a 128-bit segment; a partial last block uses the front of its key stream. */
  function Cfb(cipher: Block -> Block, feedback: Block, bytes: seq<bv8>, encrypt: bool): (r: seq<bv8>)
    ensures |r| == |bytes|
    decreases |bytes|
  {
    if |bytes| < BLOCK then Xor(bytes, cipher(feedback))
    else
      var out: Block := Xor(bytes[..BLOCK], cipher(feedback));
      out + Cfb(cipher, if encrypt then out else bytes[..BLOCK], bytes[BLOCK..], encrypt)
  }

  lemma XorTwice(bytes: seq<bv8>, stream: seq<bv8>)
    requires |bytes| <= |stream|
    ensures Xor(Xor(bytes, stream), stream) == bytes
  {
    var once := Xor(bytes, stream);
    forall i | 0 <= i < |bytes| ensures once[i] ^ stream[i] == bytes[i] {
      CancelXor(bytes[i], stream[i]);
    }
  }

  lemma CancelXor(a: bv8, k: bv8)
    ensures (a ^ k) ^ k == a
  {
  }

  /** Decrypting what was encrypted gives the input, for any length, start value and block function. */
  lemma {:induction false} CfbRoundTrip(cipher: Block -> Block, feedback: Block, bytes: seq<bv8>)
    ensures Cfb(cipher, feedback, Cfb(cipher, feedback, bytes, true), false) == bytes
    decreases |bytes|
  {
    var sent := Cfb(cipher, feedback, bytes, true);
    if |bytes| < BLOCK {
      XorTwice(bytes, cipher(feedback));
    } else {
      var out: Block := Xor(bytes[..BLOCK], cipher(feedback));
      assert sent[..BLOCK] == out && sent[BLOCK..] == Cfb(cipher, out, bytes[BLOCK..], true);
      XorTwice(bytes[..BLOCK], cipher(feedback));
      CfbRoundTrip(cipher, out, bytes[BLOCK..]);
      assert bytes == bytes[..BLOCK] + bytes[BLOCK..];
    }
  }

  /** The input block of section 6.3 of NIST SP 800-38A: the start value, then the previous ciphertext block. */
  function InputBlock(start: Block, ciphertext: seq<bv8>, j: nat): Block
    requires BLOCK * j <= |ciphertext|
  {
    if j == 0 then start else ciphertext[BLOCK * (j - 1)..BLOCK * j]
  }

  /** Every full block obeys the recurrence `C_j = P_j xor CIPH(I_j)` of that section. */
  lemma {:induction false} FollowsTheStandard(cipher: Block -> Block, start: Block, plaintext: seq<bv8>, j: nat)
    requires BLOCK * (j + 1) <= |plaintext|
    ensures var c := Cfb(cipher, start, plaintext, true);
            c[BLOCK * j..BLOCK * (j + 1)]
            == Xor(plaintext[BLOCK * j..BLOCK * (j + 1)], cipher(InputBlock(start, c, j)))
    decreases j
  {
    var c := Cfb(cipher, start, plaintext, true);
    var out: Block := Xor(plaintext[..BLOCK], cipher(start));
    if j == 0 {
      assert c[..BLOCK] == out;
    } else {
      var rest, c' := plaintext[BLOCK..], Cfb(cipher, out, plaintext[BLOCK..], true);
      assert c == out + c';
      FollowsTheStandard(cipher, out, rest, j - 1);
      ShiftedSlice(out, c', j);
      assert rest[BLOCK * (j - 1)..BLOCK * j] == plaintext[BLOCK * j..BLOCK * (j + 1)];
      PreviousBlock(start, out, c', j);
    }
  }

  lemma ShiftedSlice(out: Block, tail: seq<bv8>, j: nat)
    requires j >= 1 && BLOCK * j <= |tail|
    ensures (out + tail)[BLOCK * j..BLOCK * (j + 1)] == tail[BLOCK * (j - 1)..BLOCK * j]
  {
  }

  lemma PreviousBlock(start: Block, out: Block, tail: seq<bv8>, j: nat)
    requires j >= 1 && BLOCK * (j - 1) <= |tail|
    ensures InputBlock(start, out + tail, j) == InputBlock(out, tail, j - 1)
  {
    if j == 1 {
      assert (out + tail)[0..BLOCK] == out;
    } else {
      ShiftedSlice(out, tail, j - 1);
    }
  }

  /** A partial last block is the plaintext xor the front of the next key stream. */
  lemma {:induction false} PartialBlock(cipher: Block -> Block, start: Block, plaintext: seq<bv8>, j: nat)
    requires BLOCK * j <= |plaintext| < BLOCK * (j + 1)
    ensures var c := Cfb(cipher, start, plaintext, true);
            c[BLOCK * j..] == Xor(plaintext[BLOCK * j..], cipher(InputBlock(start, c, j)))
    decreases j
  {
    var c := Cfb(cipher, start, plaintext, true);
    if j == 0 {
      assert plaintext[0..] == plaintext && c[0..] == c;
    } else {
      var out: Block := Xor(plaintext[..BLOCK], cipher(start));
      var rest, c' := plaintext[BLOCK..], Cfb(cipher, out, plaintext[BLOCK..], true);
      assert c == out + c';
      PartialBlock(cipher, out, rest, j - 1);
      assert c[BLOCK * j..] == c'[BLOCK * (j - 1)..];
      assert rest[BLOCK * (j - 1)..] == plaintext[BLOCK * j..];
      PreviousBlock(start, out, c', j);
    }
  }

  /** One round of the loop peels one block, or the partial rest, off the specification. */
  lemma CfbRound(cipher: Block -> Block, feedback: Block, bytes: seq<bv8>, offset: nat, count: nat, encrypt: bool)
    requires offset < |bytes| && count == if |bytes| - offset < BLOCK then |bytes| - offset else BLOCK
    ensures var part := bytes[offset..offset + count];
            var out := Xor(part, cipher(feedback));
            Cfb(cipher, feedback, bytes[offset..], encrypt)
            == out + if count < BLOCK then []
                     else Cfb(cipher, if encrypt then out else part, bytes[offset + count..], encrypt)
    ensures count < BLOCK ==> bytes[offset + count..] == []
  {
    var rest := bytes[offset..];
    assert rest[..count] == bytes[offset..offset + count] && rest[count..] == bytes[offset + count..];
    if count < BLOCK {
      assert rest == bytes[offset..offset + count];
    }
  }

  lemma CfbOfNothing(cipher: Block -> Block, feedback: Block, encrypt: bool)
    ensures Cfb(cipher, feedback, [], encrypt) == []
  {
  }

  method AesCfb128(bytes: seq<bv8>, cipher: Block -> Block, encrypt: bool) returns (result: array<bv8>)
    ensures fresh(result) && result[..] == Cfb(cipher, INITIALIZATION_VECTOR, bytes, encrypt)
  {
    hide Cfb;
    var feedback: Block := INITIALIZATION_VECTOR;
    result := new bv8[|bytes|];
    var offset := 0;
    assert bytes[0..] == bytes;
    while offset < |bytes|
      invariant 0 <= offset <= |bytes| == result.Length
      invariant result[..offset] + Cfb(cipher, feedback, bytes[offset..], encrypt)
             == Cfb(cipher, INITIALIZATION_VECTOR, bytes, encrypt)
    {
      var count := if |bytes| - offset < BLOCK then |bytes| - offset else BLOCK;
      ghost var before := result[..offset];
      var keyStream := cipher(feedback);
      CfbRound(cipher, feedback, bytes, offset, count, encrypt);
      var part := bytes[offset..offset + count];
      var out := XorInto(result, offset, part, keyStream);
      CfbOfNothing(cipher, feedback, encrypt);
      if count == BLOCK {
        feedback := if encrypt then out else part;
      }
      offset := offset + count;
      AppendAssociates(before, out, Cfb(cipher, feedback, bytes[offset..], encrypt));
    }
    CfbOfNothing(cipher, feedback, encrypt);
    assert bytes[offset..] == [] && result[..offset] == result[..];
  }

  lemma AppendAssociates(a: seq<bv8>, b: seq<bv8>, c: seq<bv8>)
    ensures a + (b + c) == a + b + c && b + [] == b
  {
  }

  /** One round of the inner loop: part of a block combined with its key stream. */
  method XorInto(target: array<bv8>, at: nat, part: seq<bv8>, stream: seq<bv8>) returns (out: seq<bv8>)
    requires at + |part| <= target.Length && |part| <= |stream|
    modifies target
    ensures out == Xor(part, stream) && target[..at + |part|] == old(target[..at]) + out
  {
    for i := 0 to |part|
      invariant target[..at] == old(target[..at])
      invariant forall k :: 0 <= k < i ==> target[at + k] == part[k] ^ stream[k]
    {
      target[at + i] := part[i] ^ stream[i];
    }
    out := target[at..at + |part|];
    assert target[..at + |part|] == target[..at] + out;
  }

  // ---- The byte-wise cipher ----

  const BC_KEY: seq<bv8> := [0x1f, 0x2d, 0x3c, 0x4b, 0x5a, 0x69, 0x78, 0xff]

  function BcStream(offset: nat, i: nat): bv8 {
    BC_KEY[(i + offset) % 8] ^ (offset % 256) as bv8
  }

  function Scramble(bytes: seq<bv8>, offset: nat): (r: seq<bv8>)
    ensures |r| == |bytes|
  {
    seq(|bytes|, i requires 0 <= i < |bytes| => bytes[i] ^ BcStream(offset, i))
  }

  /** Octet by octet: the key octet at the shifted place, and the low octet of the offset. */
  lemma ScrambleIs(bytes: seq<bv8>, offset: nat, i: nat)
    requires i < |bytes|
    ensures Scramble(bytes, offset)[i] == bytes[i] ^ BC_KEY[(i + offset) % 8] ^ (offset % 256) as bv8
  {
    XorAssociates(bytes[i], BC_KEY[(i + offset) % 8], (offset % 256) as bv8);
  }

  method BcXor(bytes: seq<bv8>, offset: nat) returns (result: array<bv8>)
    ensures fresh(result) && result[..] == Scramble(bytes, offset)
  {
    hide Scramble;
    result := new bv8[|bytes|];
    for index := 0 to |bytes|
      invariant forall i :: 0 <= i < index ==> result[i] == Scramble(bytes, offset)[i]
    {
      ScrambleIs(bytes, offset, index);
      result[index] := bytes[index] ^ BC_KEY[(index + offset) % 8] ^ (offset % 256) as bv8;
    }
  }

  lemma XorAssociates(a: bv8, b: bv8, c: bv8)
    ensures a ^ b ^ c == a ^ (b ^ c)
  {
  }

  /** The cipher is its own inverse for one offset. */
  lemma ScrambleTwice(bytes: seq<bv8>, offset: nat)
    ensures Scramble(Scramble(bytes, offset), offset) == bytes
  {
    hide BcStream;
    forall i | 0 <= i < |bytes| ensures Scramble(Scramble(bytes, offset), offset)[i] == bytes[i] {
      CancelXor(bytes[i], BcStream(offset, i));
    }
  }
}
