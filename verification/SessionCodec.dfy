/** The encrypted session codec: internal/protocol/session/codec.go. */
module SessionCodec {
  import opened Basics

  const BLOCK_SIZE := 16
  const MAC_SIZE := 20

  datatype Error = InvalidMessage | InvalidMAC

  /**
   * The library primitives: AES in CBC mode under a key and an initialisation
   * vector, and HMAC-SHA1 under a key.
   */
  datatype Suite = Suite(
    encrypt: (Bytes, Bytes, Bytes) -> Bytes,
    decrypt: (Bytes, Bytes, Bytes) -> Bytes,
    mac: (Bytes, Bytes) -> Bytes)

  /** CBC is a length-preserving bijection on whole blocks, and a MAC has 20 bytes. */
  ghost predicate Lawful(suite: Suite) {
    && (forall key, iv, data :: |data| % BLOCK_SIZE == 0 ==> |suite.encrypt(key, iv, data)| == |data|)
    && (forall key, iv, data :: |data| % BLOCK_SIZE == 0 ==> |suite.decrypt(key, iv, data)| == |data|)
    && (forall key, iv, data :: |data| % BLOCK_SIZE == 0 ==>
          suite.decrypt(key, iv, suite.encrypt(key, iv, data)) == data)
    && (forall key, iv, data :: |data| % BLOCK_SIZE == 0 ==>
          suite.encrypt(key, iv, suite.decrypt(key, iv, data)) == data)
    && (forall key, data :: |suite.mac(key, data)| == MAC_SIZE)
  }

  datatype Codec = Codec(suite: Suite, encryptionKey: Bytes, macKey: Bytes)

  // ---------------------------------------------------------------- padding

  function PaddingLength(length: nat, blockSize: int): (n: int)
    requires blockSize > 0
    ensures 1 <= n <= blockSize
    ensures (length + n) % blockSize == 0
  {
    PaddedLengthIsAligned(length, blockSize);
    blockSize - length % blockSize
  }

  lemma PaddedLengthIsAligned(length: nat, blockSize: int)
    requires blockSize > 0
    ensures (length + (blockSize - length % blockSize)) % blockSize == 0
  {
    var q := length / blockSize;
    assert length + (blockSize - length % blockSize) == (q + 1) * blockSize;
    RemainderOfSum(q + 1, 0, blockSize);
  }

  function Repeat(b: byte, n: nat): Bytes {
    seq(n, _ => b)
  }

  /** Go cuts the padding length to one byte. */
  function Pad(data: Bytes, blockSize: int): Bytes
    requires blockSize > 0
  {
    var padding := PaddingLength(|data|, blockSize);
    data + Repeat(padding % 0x100, padding)
  }

  function Unpad(data: Bytes, blockSize: int): Result<Bytes, Error>
    requires blockSize > 0
  {
    if data == [] || |data| % blockSize != 0 then Err(InvalidMessage)
    else
      var padding: int := data[|data| - 1];
      if padding == 0 || padding > blockSize || padding > |data| then Err(InvalidMessage)
      else if forall i :: |data| - padding <= i < |data| ==> data[i] == padding then Ok(data[..|data| - padding])
      else Err(InvalidMessage)
  }

  /** The padding that ends an aligned message is as long as its data asks for. */
  lemma PaddingLengthIsUnique(total: nat, padding: nat, blockSize: int)
    requires blockSize > 0 && 1 <= padding <= blockSize && padding <= total && total % blockSize == 0
    ensures PaddingLength(total - padding, blockSize) == padding
  {
    var q := total / blockSize;
    assert total == q * blockSize;
    var length := total - padding;
    if padding == blockSize {
      assert length == (q - 1) * blockSize;
      RemainderOfSum(q - 1, 0, blockSize);
    } else {
      assert length == (q - 1) * blockSize + (blockSize - padding);
      RemainderOfSum(q - 1, blockSize - padding, blockSize);
    }
  }

  /**
   * Padding is exact in both directions, for every block size: unpadding accepts
   * a message as `data` exactly when the message is `data` padded and the padding
   * length fits in a byte. (Section 6.3 of RFC 5652 has block sizes up to 255,
   * where it always fits.)
   */
  lemma UnpadInvertsPad(message: Bytes, data: Bytes, blockSize: int)
    requires blockSize > 0
    ensures Unpad(message, blockSize) == Ok(data)
       <==> message == Pad(data, blockSize) && PaddingLength(|data|, blockSize) < 0x100
  {
    if Unpad(message, blockSize) == Ok(data) {
      var padding: int := message[|message| - 1];
      PaddingLengthIsUnique(|message|, padding, blockSize);
      assert message == data + Repeat(padding, padding);
    }
    if message == Pad(data, blockSize) && PaddingLength(|data|, blockSize) < 0x100 {
      assert message[..|data|] == data;
    }
  }

  // ---------------------------------------------------------------- messages

  function Encrypt(codec: Codec, iv: Bytes, plaintext: Bytes): Bytes {
    var message := iv + codec.suite.encrypt(codec.encryptionKey, iv, Pad(plaintext, BLOCK_SIZE));
    message + codec.suite.mac(codec.macKey, message)
  }

  function Decrypt(codec: Codec, message: Bytes): Result<Bytes, Error> {
    if |message| < BLOCK_SIZE + MAC_SIZE + BLOCK_SIZE then Err(InvalidMessage)
    else
      var authenticated := message[..|message| - MAC_SIZE];
      if message[|message| - MAC_SIZE..] != codec.suite.mac(codec.macKey, authenticated) then Err(InvalidMAC)
      else
        var iv, ciphertext := authenticated[..BLOCK_SIZE], authenticated[BLOCK_SIZE..];
        if |ciphertext| % BLOCK_SIZE != 0 then Err(InvalidMessage)
        else Unpad(codec.suite.decrypt(codec.encryptionKey, iv, ciphertext), BLOCK_SIZE)
  }

  /** The encrypted size depends on the plaintext length alone. */
  lemma EncryptedSize(codec: Codec, iv: Bytes, plaintext: Bytes)
    requires Lawful(codec.suite) && |iv| == BLOCK_SIZE
    ensures |Encrypt(codec, iv, plaintext)| == 36 + 16 * (|plaintext| / 16 + 1)
  {
    assert |Pad(plaintext, BLOCK_SIZE)| == 16 * (|plaintext| / 16 + 1);
  }

  /**
   * Decrypt accepts a message as `plaintext` exactly when the message is that
   * plaintext encrypted under the initialisation vector it starts with.
   */
  lemma DecryptInvertsEncrypt(codec: Codec, message: Bytes, plaintext: Bytes)
    requires Lawful(codec.suite)
    ensures Decrypt(codec, message) == Ok(plaintext)
       <==> |message| >= BLOCK_SIZE && message == Encrypt(codec, message[..BLOCK_SIZE], plaintext)
  {
    if |message| >= BLOCK_SIZE {
      var iv := message[..BLOCK_SIZE];
      if Decrypt(codec, message) == Ok(plaintext) {
        var authenticated := message[..|message| - MAC_SIZE];
        var ciphertext := authenticated[BLOCK_SIZE..];
        UnpadInvertsPad(codec.suite.decrypt(codec.encryptionKey, iv, ciphertext), plaintext, BLOCK_SIZE);
        assert authenticated[..BLOCK_SIZE] == iv && authenticated == iv + ciphertext;
        assert message == authenticated + message[|message| - MAC_SIZE..];
      } else if message == Encrypt(codec, iv, plaintext) {
        RoundTrip(codec, iv, plaintext);
      }
    }
  }

  lemma RoundTrip(codec: Codec, iv: Bytes, plaintext: Bytes)
    requires Lawful(codec.suite) && |iv| == BLOCK_SIZE
    ensures Decrypt(codec, Encrypt(codec, iv, plaintext)) == Ok(plaintext)
  {
    var padded := Pad(plaintext, BLOCK_SIZE);
    var ciphertext := codec.suite.encrypt(codec.encryptionKey, iv, padded);
    var authenticated := iv + ciphertext;
    var message := Encrypt(codec, iv, plaintext);
    EncryptedSize(codec, iv, plaintext);
    assert message[..|message| - MAC_SIZE] == authenticated;
    assert message[|message| - MAC_SIZE..] == codec.suite.mac(codec.macKey, authenticated);
    assert authenticated[..BLOCK_SIZE] == iv && authenticated[BLOCK_SIZE..] == ciphertext;
    UnpadInvertsPad(padded, plaintext, BLOCK_SIZE);
  }

  // ---------------------------------------------------------------- the code

  method Pkcs7Pad(data: Bytes, blockSize: int) returns (padded: Bytes)
    requires blockSize > 0
    ensures |padded| % blockSize == 0 && |data| < |padded| <= |data| + blockSize
    ensures blockSize < 0x100 ==> Unpad(padded, blockSize) == Ok(data)
    ensures padded == Pad(data, blockSize)
  {
    var padding := blockSize - |data| % blockSize;
    PaddedLengthIsAligned(|data|, blockSize);
    padded := [];
    padded := padded + data;
    padded := padded + Repeat(padding % 0x100, padding);
    UnpadInvertsPad(padded, data, blockSize);
  }

  method Pkcs7Unpad(data: Bytes, blockSize: int) returns (r: Result<Bytes, Error>)
    requires blockSize > 0
    ensures r == Unpad(data, blockSize)
    ensures r.Ok? ==> data == Pad(r.value, blockSize)
  {
    if |data| == 0 || |data| % blockSize != 0 {
      return Err(InvalidMessage);
    }
    var padding: int := data[|data| - 1];
    if padding == 0 || padding > blockSize || padding > |data| {
      return Err(InvalidMessage);
    }
    for i := |data| - padding to |data|
      invariant forall j :: |data| - padding <= j < i ==> data[j] == padding
    {
      if data[i] != padding {
        return Err(InvalidMessage);
      }
    }
    UnpadInvertsPad(data, data[..|data| - padding], blockSize);
    return Ok(data[..|data| - padding]);
  }

  /** `iv` is what the random source returned. */
  method EncryptMessage(codec: Codec, iv: Bytes, plaintext: Bytes) returns (message: Bytes)
    requires Lawful(codec.suite) && |iv| == BLOCK_SIZE
    ensures message == Encrypt(codec, iv, plaintext)
    ensures Decrypt(codec, message) == Ok(plaintext)
  {
    var padded := Pkcs7Pad(plaintext, BLOCK_SIZE);
    var ciphertext := codec.suite.encrypt(codec.encryptionKey, iv, padded);
    message := [];
    message := message + iv;
    message := message + ciphertext;
    assert message == iv + ciphertext;
    message := message + codec.suite.mac(codec.macKey, message);
    RoundTrip(codec, iv, plaintext);
  }

  method DecryptMessage(codec: Codec, message: Bytes) returns (r: Result<Bytes, Error>)
    requires Lawful(codec.suite)
    ensures r == Decrypt(codec, message)
    ensures r.Ok? ==> message == Encrypt(codec, message[..BLOCK_SIZE], r.value)
  {
    if |message| < BLOCK_SIZE + MAC_SIZE + BLOCK_SIZE {
      return Err(InvalidMessage);
    }
    var authenticated := message[..|message| - MAC_SIZE];
    if message[|message| - MAC_SIZE..] != codec.suite.mac(codec.macKey, authenticated) {
      return Err(InvalidMAC);
    }
    var iv := authenticated[..BLOCK_SIZE];
    var ciphertext := authenticated[BLOCK_SIZE..];
    if |ciphertext| % BLOCK_SIZE != 0 {
      return Err(InvalidMessage);
    }
    r := Pkcs7Unpad(codec.suite.decrypt(codec.encryptionKey, iv, ciphertext), BLOCK_SIZE);
    if r.Ok? {
      DecryptInvertsEncrypt(codec, message, r.value);
    }
  }
}
