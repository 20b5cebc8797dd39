/** Masking of WebSocket payloads (section 5.3 of RFC 6455), byte by byte and word by word. */
module Masking {
  import opened ByteOrder
  import opened MaskWords

  /** The four bytes of a masking key. */
  type Key = k: seq<Byte> | |k| == 4 witness [0, 0, 0, 0]

  /** Section 5.3: octet `i` of the data is combined with octet `i` modulo 4 of the key; here the data begins at
      octet `offset` of the message. */
  function Masked(data: seq<Byte>, key: Key, offset: nat): (r: seq<Byte>)
    ensures |r| == |data|
  {
    seq(|data|, i requires 0 <= i < |data| => Xor(data[i], key[(offset + i) % 4]))
  }

  // ---------- properties of masking ----------

  lemma MaskedTwice(data: seq<Byte>, key: Key, offset: nat)
    ensures Masked(Masked(data, key, offset), key, offset) == data
  {
    var once := Masked(data, key, offset);
    forall i | 0 <= i < |data| ensures Masked(once, key, offset)[i] == data[i] {
      XorTwice(data[i], key[(offset + i) % 4]);
    }
  }

  lemma XorTwice(a: Byte, b: Byte)
    ensures Xor(Xor(a, b), b) == a
  {
  }

  lemma MaskedParts(front: seq<Byte>, back: seq<Byte>, key: Key, offset: nat)
    ensures Masked(front + back, key, offset) == Masked(front, key, offset) + Masked(back, key, offset + |front|)
  {
  }

  // ---------- prepared keys ----------

  /** The key as the number that `uint32_converter` reads it as. */
  function KeyWord(key: Key): bv32 {
    (key[0] as bv32) | ((key[1] as bv32) << 8) | ((key[2] as bv32) << 16) | ((key[3] as bv32) << 24)
  }

  /** Prepared key `w` is the key as it meets the message from octet `offset` on. */
  ghost predicate Represents(w: Word, key: Key, offset: nat) {
    forall i {:trigger ByteAt(w, i)} :: 0 <= i < WORD_SIZE ==> ByteAt(w, i) == key[(offset + i) % 4]
  }

  lemma PreparedRepresents(key: Key)
    ensures Represents(PrepareKey(KeyWord(key)), key, 0)
  {
    hide ByteAt, PrepareKey, KeyWord, Xor;
    forall i | 0 <= i < WORD_SIZE ensures ByteAt(PrepareKey(KeyWord(key)), i) == key[(0 + i) % 4] {
      PreparedByte(KeyWord(key), i);
      KeyByte(key, i % 4);
    }
  }

  lemma KeyByte(key: Key, j: nat)
    requires j < 4
    ensures ByteAt(WideKey(KeyWord(key)), j) == key[j]
  {
    hide ByteAt, KeyWord, WordOf, WideKey;
    assert key == [key[0], key[1], key[2], key[3]];
    KeyIsWord(key[0], key[1], key[2], key[3]);
    ReadBack(key, j);
  }

  lemma KeyIsWord(k0: Byte, k1: Byte, k2: Byte, k3: Byte)
    ensures WideKey(KeyWord([k0, k1, k2, k3])) == WordOf([k0, k1, k2, k3])
  {
    hide KeyWord, WideKey, OrWords, Up, Wide;
    assert WordOf([]) == 0;
    hide WordOf;
    FirstOfWord(k3, []);
    assert [k3] + [] == [k3] && [k2] + [k3] == [k2, k3] && [k1] + [k2, k3] == [k1, k2, k3];
    assert [k0] + [k1, k2, k3] == [k0, k1, k2, k3];
    FirstOfWord(k2, [k3]);
    FirstOfWord(k1, [k2, k3]);
    FirstOfWord(k0, [k1, k2, k3]);
    KeyInWords(k0, k1, k2, k3);
  }

  lemma FirstOfWord(first: Byte, rest: seq<Byte>)
    requires |rest| < WORD_SIZE
    ensures WordOf([first] + rest) == OrWords(Wide(first), Up(WordOf(rest)))
  {
    assert ([first] + rest)[1..] == rest;
  }

  lemma KeyInWords(k0: Byte, k1: Byte, k2: Byte, k3: Byte)
    ensures WideKey(KeyWord([k0, k1, k2, k3]))
      == OrWords(Wide(k0), Up(OrWords(Wide(k1), Up(OrWords(Wide(k2), Up(OrWords(Wide(k3), Up(0))))))))
  {
  }

  lemma Mod8Mod4(x: nat)
    ensures x % 8 % 4 == x % 4
  {
  }

  /** Shifting a prepared key by any number of bytes that is right modulo 4 moves it along the message. */
  lemma ShiftRepresents(w: Word, key: Key, offset: nat, shift: nat, length: nat)
    requires Represents(w, key, offset) && shift < WORD_SIZE && shift % 4 == length % 4
    ensures Represents(CircShift(w, shift), key, offset + length)
  {
    hide ByteAt, CircShift, Xor;
    var v := CircShift(w, shift);
    forall i | 0 <= i < WORD_SIZE ensures ByteAt(v, i) == key[(offset + length + i) % 4] {
      ShiftedByte(w, shift, i);
      ModSums(offset, shift, length, i);
      var j := (shift + i) % WORD_SIZE;
      assert ByteAt(w, j) == key[(offset + j) % 4];
    }
  }

  lemma ModSums(offset: nat, shift: nat, length: nat, i: nat)
    requires shift % 4 == length % 4
    ensures (offset + (shift + i) % 8) % 4 == (offset + length + i) % 4
  {
  }

  /** A word is determined by what it represents, so both circular functions return the same next key. */
  lemma RepresentsOne(v: Word, w: Word, key: Key, offset: nat)
    requires Represents(v, key, offset) && Represents(w, key, offset)
    ensures v == w
  {
    SameBytes(v, w);
  }

  // ---------- the masking functions ----------

  /** What `word_mask_circ` does to the data. */
  function WordMasked(data: seq<Byte>, w: Word): (r: seq<Byte>)
    ensures |r| == |data|
  {
    seq(|data|, i requires 0 <= i < |data| => Xor(data[i], ByteAt(w, i % WORD_SIZE)))
  }

  /** The key that `byte_mask_circ` takes from a prepared key. */
  function LowBytes(w: Word): Key { [ByteAt(w, 0), ByteAt(w, 1), ByteAt(w, 2), ByteAt(w, 3)] }

  /** `byte_mask`; the output may be the input. */
  method ByteMask(input: array<Byte>, output: array<Byte>, length: nat, key: Key, keyOffset: nat)
    requires length <= input.Length && length <= output.Length
    modifies output
    ensures output[..length] == Masked(old(input[..length]), key, keyOffset)
    ensures output[length..] == old(output[length..])
  {
    var keyIndex := keyOffset % 4;
    var i := 0;
    while i != length
      invariant 0 <= i <= length && keyIndex == (keyOffset + i) % 4
      invariant forall k :: 0 <= k < i ==> output[k] == Xor(old(input[k]), key[(keyOffset + k) % 4])
      invariant forall k :: i <= k < output.Length ==> output[k] == old(output[k])
      invariant forall k :: i <= k < input.Length ==> input[k] == old(input[k])
    {
      output[i] := Xor(input[i], key[keyIndex]);
      keyIndex := (keyIndex + 1) % 4;
      i := i + 1;
    }
  }

  /** The loop over whole words that the word functions share. */
  method MaskWholeWords(input: array<Byte>, output: array<Byte>, n: nat, w: Word)
    requires n * WORD_SIZE <= input.Length && n * WORD_SIZE <= output.Length
    modifies output
    ensures forall k :: 0 <= k < n * WORD_SIZE ==> output[k] == Xor(old(input[k]), ByteAt(w, k % WORD_SIZE))
    ensures forall k :: n * WORD_SIZE <= k < output.Length ==> output[k] == old(output[k])
    ensures forall k :: n * WORD_SIZE <= k < input.Length ==> input[k] == old(input[k])
  {
    hide ByteAt, Xor;
    var i := 0;
    while i < n
      invariant 0 <= i <= n
      invariant forall k :: 0 <= k < i * WORD_SIZE ==> output[k] == Xor(old(input[k]), ByteAt(w, k % WORD_SIZE))
      invariant forall k :: i * WORD_SIZE <= k < output.Length ==> output[k] == old(output[k])
      invariant forall k :: i * WORD_SIZE <= k < input.Length ==> input[k] == old(input[k])
    {
      MaskWord(input, output, i * WORD_SIZE, w);
      forall k | i * WORD_SIZE <= k < i * WORD_SIZE + WORD_SIZE ensures k % WORD_SIZE == k - i * WORD_SIZE {
        InWord(i, k);
      }
      i := i + 1;
    }
  }

  /** `output_word[i] = input_word[i] ^ prepared_key`, for the word at `first`. */
  method MaskWord(input: array<Byte>, output: array<Byte>, first: nat, w: Word)
    requires first + WORD_SIZE <= input.Length && first + WORD_SIZE <= output.Length
    modifies output
    ensures forall k :: 0 <= k < output.Length ==>
      output[k] == if first <= k < first + WORD_SIZE then Xor(old(input[k]), ByteAt(w, k - first)) else old(output[k])
  {
    hide ByteAt, WordOf, Xor, XorWords;
    ghost var bytes := input[first..first + WORD_SIZE];
    var word := XorWords(WordOf(input[first..first + WORD_SIZE]), w);
    MaskedWordBytes(bytes, w, word);
    WriteWord(output, first, word);
    forall k | first <= k < first + WORD_SIZE ensures output[k] == Xor(old(input[k]), ByteAt(w, k - first)) {
      assert bytes[k - first] == old(input[k]);
    }
  }

  lemma MaskedWordBytes(bytes: seq<Byte>, w: Word, masked: Word)
    requires |bytes| == WORD_SIZE && masked == XorWords(WordOf(bytes), w)
    ensures forall j {:trigger bytes[j]} :: 0 <= j < WORD_SIZE ==> ByteAt(masked, j) == Xor(bytes[j], ByteAt(w, j))
  {
    hide ByteAt, WordOf, Xor, XorWords;
    forall j | 0 <= j < WORD_SIZE ensures ByteAt(masked, j) == Xor(bytes[j], ByteAt(w, j)) {
      ReadBack(bytes, j);
      XorBytes(WordOf(bytes), w, j);
    }
  }

  lemma InWord(i: nat, k: nat)
    requires i * WORD_SIZE <= k < i * WORD_SIZE + WORD_SIZE
    ensures k % WORD_SIZE == k - i * WORD_SIZE
  {
  }

  method WriteWord(output: array<Byte>, first: nat, word: Word)
    requires first + WORD_SIZE <= output.Length
    modifies output
    ensures forall k :: 0 <= k < output.Length ==>
      output[k] == if first <= k < first + WORD_SIZE then ByteAt(word, k - first) else old(output[k])
  {
    forall j | 0 <= j < WORD_SIZE {
      output[first + j] := ByteAt(word, j);
    }
  }

  /** `word_mask_exact` */
  method WordMaskExact(input: array<Byte>, output: array<Byte>, length: nat, key: Key)
    requires length <= input.Length && length <= output.Length
    modifies output
    ensures output[..length] == Masked(old(input[..length]), key, 0)
    ensures output[length..] == old(output[length..])
  {
    hide ByteAt, PrepareKey, KeyWord, Xor;
    var preparedKey := PrepareKey(KeyWord(key));
    PreparedRepresents(key);
    var n := length / WORD_SIZE;
    MaskWholeWords(input, output, n, preparedKey);
    forall k | 0 <= k < n * WORD_SIZE ensures output[k] == Xor(old(input[k]), key[k % 4]) {
      Mod8Mod4(k);
    }
    var i := n * WORD_SIZE;
    while i < length
      invariant n * WORD_SIZE <= i <= length
      invariant forall k :: 0 <= k < i ==> output[k] == Xor(old(input[k]), key[k % 4])
      invariant forall k :: i <= k < output.Length ==> output[k] == old(output[k])
      invariant forall k :: i <= k < input.Length ==> input[k] == old(input[k])
    {
      output[i] := Xor(input[i], key[i % 4]);
      i := i + 1;
    }
  }

  /** `word_mask_circ` */
  method WordMaskCirc(input: array<Byte>, output: array<Byte>, length: nat, preparedKey: Word) returns (next: Word)
    requires length <= input.Length && length <= output.Length
    modifies output
    ensures output[..length] == WordMasked(old(input[..length]), preparedKey)
    ensures output[length..] == old(output[length..])
    ensures next == CircShift(preparedKey, length % WORD_SIZE)
  {
    hide ByteAt, CircShift, Xor;
    var n := length / WORD_SIZE;
    var l := length - n * WORD_SIZE;
    MaskWholeWords(input, output, n, preparedKey);
    var start := length - l;
    var i := 0;
    while i < l
      invariant 0 <= i <= l
      invariant forall k :: 0 <= k < start + i ==> output[k] == Xor(old(input[k]), ByteAt(preparedKey, k % WORD_SIZE))
      invariant forall k :: start + i <= k < output.Length ==> output[k] == old(output[k])
      invariant forall k :: start + i <= k < input.Length ==> input[k] == old(input[k])
    {
      InWord(n, start + i);
      output[start + i] := Xor(input[start + i], ByteAt(preparedKey, i));
      i := i + 1;
    }
    assert l == length % WORD_SIZE;
    next := CircShift(preparedKey, l);
  }

  /** `byte_mask_circ` */
  method ByteMaskCirc(input: array<Byte>, output: array<Byte>, length: nat, preparedKey: Word) returns (next: Word)
    requires length <= input.Length && length <= output.Length
    modifies output
    ensures output[..length] == Masked(old(input[..length]), LowBytes(preparedKey), 0)
    ensures output[length..] == old(output[length..])
    ensures next == CircShift(preparedKey, length % 4)
  {
    hide ByteAt, LowBytes, CircShift, Xor;
    var key := LowBytes(preparedKey);
    var i := 0;
    while i < length
      invariant 0 <= i <= length
      invariant forall k :: 0 <= k < i ==> output[k] == Xor(old(input[k]), key[k % 4])
      invariant forall k :: i <= k < output.Length ==> output[k] == old(output[k])
      invariant forall k :: i <= k < input.Length ==> input[k] == old(input[k])
    {
      output[i] := Xor(input[i], key[i % 4]);
      i := i + 1;
    }
    next := CircShift(preparedKey, length % 4);
  }

  // ---------- streaming ----------

  /** One call: with `word_mask_circ` or `byte_mask_circ`, whichever the caller prefers for the chunk. */
  datatype Chunk = Chunk(data: seq<Byte>, byWords: bool)

  function Concat(chunks: seq<Chunk>): seq<Byte> {
    if chunks == [] then [] else chunks[0].data + Concat(chunks[1..])
  }

  /** All calls one after the other, each with the key that the one before returned. */
  function Stream(chunks: seq<Chunk>, w: Word): seq<Byte> {
    if chunks == [] then []
    else if chunks[0].byWords then
      WordMasked(chunks[0].data, w) + Stream(chunks[1..], CircShift(w, |chunks[0].data| % WORD_SIZE))
    else Masked(chunks[0].data, LowBytes(w), 0) + Stream(chunks[1..], CircShift(w, |chunks[0].data| % 4))
  }

  lemma ChunkIsMasked(data: seq<Byte>, w: Word, key: Key, offset: nat)
    requires Represents(w, key, offset)
    ensures WordMasked(data, w) == Masked(data, key, offset) == Masked(data, LowBytes(w), 0)
  {
    hide ByteAt, Xor;
    forall i | 0 <= i < |data|
      ensures WordMasked(data, w)[i] == Masked(data, key, offset)[i] == Masked(data, LowBytes(w), 0)[i]
    {
      ModSums(offset, 0, 0, i);
      var j, k := i % WORD_SIZE, i % 4;
      assert ByteAt(w, j) == key[(offset + j) % 4];
      assert ByteAt(w, k) == key[(offset + k) % 4];
      ModSum4(offset, i);
      LowByte(w, k);
    }
  }

  lemma ModSum4(offset: nat, i: nat)
    ensures (offset + i % 4) % 4 == (offset + i) % 4
  {
  }

  lemma LowByte(w: Word, k: nat)
    requires k < 4
    ensures LowBytes(w)[k] == ByteAt(w, k)
  {
    hide ByteAt, Xor;
    assert k == 0 || k == 1 || k == 2 || k == 3;
  }

  /** Chunks of any lengths, masked one after the other by words or by bytes, give what masking the whole message
      byte by byte gives. */
  lemma {:induction false} StreamIsMasked(chunks: seq<Chunk>, w: Word, key: Key, offset: nat)
    requires Represents(w, key, offset)
    ensures Stream(chunks, w) == Masked(Concat(chunks), key, offset)
  {
    hide ByteAt, CircShift, WordMasked, LowBytes, Represents, Masked;
    if chunks != [] {
      var data, length := chunks[0].data, |chunks[0].data|;
      ChunkIsMasked(data, w, key, offset);
      MaskedParts(data, Concat(chunks[1..]), key, offset);
      var shift := if chunks[0].byWords then length % WORD_SIZE else length % 4;
      Mod8Mod4(length);
      ShiftRepresents(w, key, offset, shift, length);
      StreamIsMasked(chunks[1..], CircShift(w, shift), key, offset + length);
    }
  }

  lemma StreamFromStart(chunks: seq<Chunk>, key: Key)
    ensures Stream(chunks, PrepareKey(KeyWord(key))) == Masked(Concat(chunks), key, 0)
  {
    hide *;
    PreparedRepresents(key);
    StreamIsMasked(chunks, PrepareKey(KeyWord(key)), key, 0);
  }

  /** Both circular functions hand on the same key. */
  lemma SameNextKey(w: Word, key: Key, offset: nat, length: nat)
    requires Represents(w, key, offset)
    ensures CircShift(w, length % WORD_SIZE) == CircShift(w, length % 4)
    ensures Represents(CircShift(w, length % WORD_SIZE), key, offset + length)
  {
    Mod8Mod4(length);
    ShiftRepresents(w, key, offset, length % WORD_SIZE, length);
    ShiftRepresents(w, key, offset, length % 4, length);
    RepresentsOne(CircShift(w, length % WORD_SIZE), CircShift(w, length % 4), key, offset + length);
  }
}
