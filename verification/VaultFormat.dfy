/** The encrypted vault file: nonces, frame headers, frames, and the file a list of chunks becomes. */
module VaultFormat {
  import opened Wrappers
  import opened Bytes
  import opened Cipher

  // "CDXVLT02"
  const MAGIC: bytes := [0x43, 0x44, 0x58, 0x56, 0x4C, 0x54, 0x30, 0x32]
  const FILE_HEADER_LENGTH := 20
  const FRAME_HEADER_LENGTH := 9
  const CHUNK_SIZE := 0x1_0000
  const DATA_FRAME: byte := 0
  const FINAL_FRAME: byte := 1
  const NONCE_SPACE := 0x1_0000_0000_0000_0000_0000_0000

  datatype Error =
    | HeaderTruncated
    | UnsupportedFormat
    | Truncated
    | FrameOrder
    | FrameType
    | FrameLength
    | LengthOverflow
    | NonceOverflow
    | AuthenticationFailed
    | SequenceOverflow
    | SequenceExhausted
    | TrailingData
    | AlreadyFinished

  // ---------------------------------------------------------------- nonces

  predicate NonceFits(seed: Nonce, sequence: nat) {
    Value(seed) + sequence < NONCE_SPACE
  }

  /** The nonce of a frame as a 96-bit number; meaningful when `NonceFits`. */
  function NonceOf(seed: Nonce, sequence: nat): Nonce {
    BigEndian(Value(seed) + sequence, NONCE_LENGTH)
  }

  /** The in-place addition: the seed's bytes are rewritten from the last to the first while a carry
      runs ahead of them. `& 0xff` and `>> 8` are `% 256` and `/ 256`; the carry stays below 2^32,
      so the 64-bit arithmetic of the original never wraps. */
  method NonceBytes(seed: Nonce, sequence: u32) returns (r: Result<Nonce, Error>)
    ensures r.Ok? <==> NonceFits(seed, sequence)
    ensures r.Ok? ==> Value(r.value) == Value(seed) + sequence && r.value == NonceOf(seed, sequence)
    ensures r.Err? ==> r.error == NonceOverflow
  {
    var nonce := new byte[NONCE_LENGTH](i requires 0 <= i < NONCE_LENGTH => seed[i]);
    var carry: nat := sequence;
    var i := NONCE_LENGTH;
    assert seed[..NONCE_LENGTH] == seed;
    while i > 0
      invariant 0 <= i <= NONCE_LENGTH && carry < 0x1_0000_0000
      invariant nonce[..i] == seed[..i]
      invariant Total(seed, i, carry, nonce[i..]) == Value(seed) + sequence
    {
      i := i - 1;
      ghost var done := nonce[i + 1..];
      var sum := nonce[i] + carry % 256;
      assert nonce[i] == seed[i] by {
        assert nonce[..i + 1][i] == seed[..i + 1][i];
      }
      CarryStep(seed, i, carry, done);
      nonce[i] := sum % 256;
      carry := carry / 256 + sum / 256;
      assert nonce[i..] == [(sum % 256) as byte] + done;
      assert nonce[..i] == seed[..i] by {
        assert nonce[..i] == seed[..i + 1][..i];
      }
    }
    assert nonce[0..] == nonce[..];
    CarryDecides(seed, sequence, carry, nonce[..]);
    if carry != 0 {
      return Err(NonceOverflow);
    }
    return Ok(nonce[..]);
  }

  /** What the addition has accumulated when `done` is rewritten and `i` bytes are untouched. */
  ghost function Total(seed: Nonce, i: nat, carry: nat, done: bytes): nat
    requires i <= NONCE_LENGTH
  {
    (Value(seed[..i]) + carry) * Pow256(|done|) + Value(done)
  }

  /** A carry is left over exactly when the sum does not fit twelve bytes. */
  lemma CarryDecides(seed: Nonce, sequence: nat, carry: nat, nonce: Nonce)
    requires Total(seed, 0, carry, nonce) == Value(seed) + sequence
    ensures carry == 0 <==> NonceFits(seed, sequence)
    ensures carry == 0 ==> Value(nonce) == Value(seed) + sequence && nonce == NonceOf(seed, sequence)
  {
    Pow256Constants();
    ValueBound(nonce);
    BigEndianOfValue(nonce);
    if carry != 0 {
      assert carry * NONCE_SPACE >= NONCE_SPACE;
    }
  }

  /** Writing the low byte of the sum and carrying the rest loses nothing. */
  lemma CarryArithmetic(high: nat, digit: byte, carry: nat, weight: nat)
    ensures var sum := digit + carry % 256;
            (high + (carry / 256 + sum / 256)) * (256 * weight) + (sum % 256) * weight
              == (high * 256 + digit + carry) * weight
  {
    var sum := digit + carry % 256;
    var next := high + (carry / 256 + sum / 256);
    assert high * 256 + digit + carry == next * 256 + sum % 256;
    assert next * (256 * weight) == (next * 256) * weight;
    assert (next * 256) * weight + (sum % 256) * weight == (next * 256 + sum % 256) * weight;
  }

  /** One step of the addition keeps the sum of what is untouched, carried and already rewritten. */
  lemma CarryStep(seed: Nonce, i: nat, carry: nat, done: bytes)
    requires i < NONCE_LENGTH
    ensures var sum := seed[i] + carry % 256;
            Total(seed, i, carry / 256 + sum / 256, [(sum % 256) as byte] + done) == Total(seed, i + 1, carry, done)
  {
    assert seed[..i + 1][..i] == seed[..i];
    ValueCons((seed[i] + carry % 256) % 256, done);
    CarryArithmetic(Value(seed[..i]), seed[i], carry, Pow256(|done|));
  }

  /** Frames of one file never share a nonce, as section 8 of NIST SP 800-38D demands. */
  lemma NoncesOfOneFileDiffer(seed: Nonce, i: nat, j: nat)
    requires NonceFits(seed, i) && NonceFits(seed, j) && i != j
    ensures NonceOf(seed, i) != NonceOf(seed, j)
  {
    Pow256Constants();
    if NonceOf(seed, i) == NonceOf(seed, j) {
      BigEndianInjective(Value(seed) + i, Value(seed) + j, NONCE_LENGTH);
    }
  }

  /** Two files under one key, with final frames numbered `m` and `n`: distinct seeds do not suffice.
      The files share no nonce exactly when the two ranges of numbers they use are disjoint. */
  lemma NoncesOfTwoFilesDiffer(seed: Nonce, m: nat, other: Nonce, n: nat)
    requires NonceFits(seed, m) && NonceFits(other, n)
    ensures (forall i, j | 0 <= i <= m && 0 <= j <= n :: NonceOf(seed, i) != NonceOf(other, j))
            <==> (Value(seed) + m < Value(other) || Value(other) + n < Value(seed))
  {
    Pow256Constants();
    if Value(seed) + m < Value(other) || Value(other) + n < Value(seed) {
      forall i, j | 0 <= i <= m && 0 <= j <= n
        ensures NonceOf(seed, i) != NonceOf(other, j)
      {
        if NonceOf(seed, i) == NonceOf(other, j) {
          BigEndianInjective(Value(seed) + i, Value(other) + j, NONCE_LENGTH);
        }
      }
    } else if Value(seed) <= Value(other) {
      assert NonceOf(seed, Value(other) - Value(seed)) == NonceOf(other, 0);
    } else {
      assert NonceOf(seed, 0) == NonceOf(other, Value(seed) - Value(other));
    }
  }

  /** Two different seeds whose files share a nonce: frame 1 of one and frame 0 of the other. */
  lemma DistinctSeedsMayClash()
    ensures exists seed: Nonce, other: Nonce ::
              seed != other && NonceFits(seed, 1) && NonceFits(other, 0) && NonceOf(seed, 1) == NonceOf(other, 0)
  {
    hide BigEndian, Value, Pow256;
    var seed: Nonce, other: Nonce := BigEndian(0, NONCE_LENGTH), BigEndian(1, NONCE_LENGTH);
    Pow256Constants();
    ValueOfBigEndian(0, NONCE_LENGTH);
    ValueOfBigEndian(1, NONCE_LENGTH);
    assert NonceOf(seed, 1) == NonceOf(other, 0);
  }

  // ---------------------------------------------------------------- frames

  function HeaderBytes(frameType: byte, sequence: nat, length: nat): (h: bytes)
    ensures |h| == FRAME_HEADER_LENGTH
  {
    [frameType] + BigEndian(sequence, 4) + BigEndian(length, 4)
  }

  function FrameHeader(frameType: byte, sequence: u32, length: nat): Result<bytes, Error> {
    if length > U32_MAX then Err(LengthOverflow) else Ok(HeaderBytes(frameType, sequence, length))
  }

  /** A frame header is read back field by field. */
  lemma HeaderFields(frameType: byte, sequence: u32, length: u32)
    ensures var h := HeaderBytes(frameType, sequence, length);
            h[0] == frameType && Value(h[1..5]) == sequence && Value(h[5..9]) == length
  {
    var h := HeaderBytes(frameType, sequence, length);
    Pow256Constants();
    assert h[1..5] == BigEndian(sequence, 4);
    assert h[5..9] == BigEndian(length, 4);
    ValueOfBigEndian(sequence, 4);
    ValueOfBigEndian(length, 4);
  }

  /** Nine bytes are the header of the fields read from them. */
  lemma HeaderOfFields(h: bytes)
    requires |h| == FRAME_HEADER_LENGTH
    ensures h == HeaderBytes(h[0], Value(h[1..5]), Value(h[5..9]))
    ensures Value(h[1..5]) <= U32_MAX && Value(h[5..9]) <= U32_MAX
  {
    BigEndianOfValue(h[1..5]);
    BigEndianOfValue(h[5..9]);
    ValueBound(h[1..5]);
    ValueBound(h[5..9]);
    Pow256Constants();
    assert h == [h[0]] + h[1..5] + h[5..9];
  }

  function FileHeader(seed: Nonce): (h: bytes)
    ensures |h| == FILE_HEADER_LENGTH
  {
    MAGIC + seed
  }

  function AssociatedData(seed: Nonce, header: bytes): bytes {
    FileHeader(seed) + header
  }

  /** The ciphertext of one frame, bound to the file header and to the frame's own header. */
  function SealedText(c: Aead, seed: Nonce, frameType: byte, sequence: nat, plaintext: bytes): bytes {
    c.seal(NonceOf(seed, sequence), AssociatedData(seed, HeaderBytes(frameType, sequence, |plaintext|)), plaintext)
  }

  function Frame(c: Aead, seed: Nonce, frameType: byte, sequence: nat, plaintext: bytes): bytes {
    HeaderBytes(frameType, sequence, |plaintext|) + SealedText(c, seed, frameType, sequence, plaintext)
  }

  /** Data frames for `chunks`, numbered from `sequence`. */
  function DataFrames(c: Aead, seed: Nonce, chunks: seq<bytes>, sequence: nat): bytes {
    if chunks == [] then []
    else Frame(c, seed, DATA_FRAME, sequence, chunks[0]) + DataFrames(c, seed, chunks[1..], sequence + 1)
  }

  lemma {:induction false} DataFramesSnoc(c: Aead, seed: Nonce, chunks: seq<bytes>, last: bytes, sequence: nat)
    ensures DataFrames(c, seed, chunks + [last], sequence)
            == DataFrames(c, seed, chunks, sequence) + Frame(c, seed, DATA_FRAME, sequence + |chunks|, last)
  {
    if chunks == [] {
      assert DataFrames(c, seed, [last][1..], sequence + 1) == [];
    } else {
      assert (chunks + [last])[1..] == chunks[1..] + [last];
      DataFramesSnoc(c, seed, chunks[1..], last, sequence + 1);
    }
  }

  /** What follows the file header: the data frames and the final frame behind them. */
  function Body(c: Aead, seed: Nonce, chunks: seq<bytes>, sequence: nat): bytes {
    DataFrames(c, seed, chunks, sequence) + Frame(c, seed, FINAL_FRAME, sequence + |chunks|, [])
  }

  /** The vault file that carries `chunks`, one data frame each. */
  function Image(c: Aead, seed: Nonce, chunks: seq<bytes>): bytes {
    FileHeader(seed) + Body(c, seed, chunks, 0)
  }

  /** Every frame from `sequence` to the final one can be numbered, sized and given a nonce. */
  ghost predicate WellFormed(seed: Nonce, chunks: seq<bytes>, sequence: nat) {
    && (forall i :: 0 <= i < |chunks| ==> |chunks[i]| <= CHUNK_SIZE)
    && sequence + |chunks| < U32_MAX
    && NonceFits(seed, sequence + |chunks|)
  }

  // -------------------------------------------------------------- chunking

  /** The simple form the buffered writer refines: cut the whole text every 64 KiB. */
  function Chunks(data: bytes): (chunks: seq<bytes>)
    ensures Concat(chunks) == data
    ensures forall i :: 0 <= i < |chunks| ==> 0 < |chunks[i]| <= CHUNK_SIZE
    ensures forall i :: 0 <= i < |chunks| - 1 ==> |chunks[i]| == CHUNK_SIZE
    ensures |chunks| == (|data| + CHUNK_SIZE - 1) / CHUNK_SIZE
  {
    if data == [] then []
    else if |data| <= CHUNK_SIZE then
      assert Concat([data]) == data + Concat([]);
      [data]
    else
      assert data == data[..CHUNK_SIZE] + data[CHUNK_SIZE..];
      [data[..CHUNK_SIZE]] + Chunks(data[CHUNK_SIZE..])
  }

  /** Chunking is the only way to cut a text into full pieces and a nonempty last one. */
  lemma {:induction false} ChunksUnique(chunks: seq<bytes>)
    requires forall i :: 0 <= i < |chunks| ==> 0 < |chunks[i]| <= CHUNK_SIZE
    requires forall i :: 0 <= i < |chunks| - 1 ==> |chunks[i]| == CHUNK_SIZE
    ensures Chunks(Concat(chunks)) == chunks
  {
    if |chunks| == 1 {
      var only := chunks[0];
      assert chunks == [only] && chunks[1..] == [];
      assert Concat(chunks) == only;
      assert Chunks(only) == [only];
    } else if |chunks| > 1 {
      var rest := chunks[1..];
      ChunksUnique(rest);
      assert Concat(rest) == rest[0] + Concat(rest[1..]);
      var data := Concat(chunks);
      assert data[..CHUNK_SIZE] == chunks[0] && data[CHUNK_SIZE..] == Concat(rest);
      assert chunks == [chunks[0]] + rest;
    }
  }

  /** Exact capacity: the frames of `length` bytes of text can all be sealed under `seed`. */
  predicate Fits(seed: Nonce, length: nat) {
    var c := (length + CHUNK_SIZE - 1) / CHUNK_SIZE;
    c <= U32_MAX - 1 && NonceFits(seed, c)
  }
}
