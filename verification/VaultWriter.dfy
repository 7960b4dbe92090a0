/** The buffered writer, proved to emit the frames of the 64 KiB chunking of everything written to
    it, however the text was split, and to succeed exactly when those frames fit. */
module VaultWriter {
  import opened Wrappers
  import opened Bytes
  import opened Cipher
  import opened VaultFormat

  /** A frame with this number can be sealed. */
  predicate Sealable(seed: Nonce, sequence: nat) {
    sequence < U32_MAX && NonceFits(seed, sequence)
  }

  /** All full chunks of `length` bytes of text can be sealed as data frames. */
  predicate FullChunksFit(seed: Nonce, length: nat) {
    length / CHUNK_SIZE == 0 || Sealable(seed, length / CHUNK_SIZE - 1)
  }

  ghost predicate AllFull(chunks: seq<bytes>) {
    forall i :: 0 <= i < |chunks| ==> |chunks[i]| == CHUNK_SIZE
  }

  lemma {:induction false} FullLength(chunks: seq<bytes>)
    requires AllFull(chunks)
    ensures |Concat(chunks)| == CHUNK_SIZE * |chunks|
  {
    if chunks != [] {
      FullLength(chunks[1..]);
    }
  }

  /** What the sink holds once the data frames of `chunks` are written. */
  ghost function Emitted(c: Aead, seed: Nonce, chunks: seq<bytes>): bytes {
    FileHeader(seed) + DataFrames(c, seed, chunks, 0)
  }

  lemma EmittedSnoc(c: Aead, seed: Nonce, chunks: seq<bytes>, last: bytes)
    ensures Emitted(c, seed, chunks + [last]) == Emitted(c, seed, chunks) + Frame(c, seed, DATA_FRAME, |chunks|, last)
  {
    DataFramesSnoc(c, seed, chunks, last, 0);
  }

  lemma EmittedThenFinal(c: Aead, seed: Nonce, chunks: seq<bytes>)
    ensures Image(c, seed, chunks) == Emitted(c, seed, chunks) + Frame(c, seed, FINAL_FRAME, |chunks|, [])
  {
  }

  class VaultWriter {
    const cipher: Aead
    const fileHeader: bytes
    const nonceSeed: Nonce
    var sink: bytes
    var pending: bytes
    var sequence: u32
    var finished: bool

    ghost var sealed: seq<bytes>  // the text of each data frame in the sink
    ghost var failed: bool        // some write has returned an error

    ghost predicate Valid()
      reads this
    {
      && !finished
      && fileHeader == FileHeader(nonceSeed)
      && |pending| < CHUNK_SIZE
      && AllFull(sealed)
      && sequence == |sealed|
      && sink == Emitted(cipher, nonceSeed, sealed)
      && (sequence == 0 || Sealable(nonceSeed, sequence - 1))
      && (failed ==> !Sealable(nonceSeed, sequence))
    }

    /** The text in the data frames written so far and in the buffer. While no write has failed this
        is everything written; a failed write loses what it could not place. */
    ghost function Text(): bytes
      reads this
    {
      Concat(sealed) + pending
    }

    /** The random seed is an input here. */
    constructor (cipher: Aead, seed: Nonce)
      ensures Valid() && !failed
      ensures this.cipher == cipher && nonceSeed == seed
      ensures sink == FileHeader(seed) && Text() == []
    {
      this.cipher, nonceSeed, fileHeader := cipher, seed, MAGIC + seed;
      sink, pending, sequence, finished := MAGIC + seed, [], 0, false;
      sealed, failed := [], false;
    }

    method WriteFrame(frameType: byte, plaintext: bytes) returns (r: Result<(), Error>)
      requires fileHeader == FileHeader(nonceSeed) && |plaintext| <= CHUNK_SIZE
      modifies `sink, `sequence
      ensures r.Ok? <==> Sealable(nonceSeed, old(sequence))
      ensures r.Ok? ==>
                && sink == old(sink) + Frame(cipher, nonceSeed, frameType, old(sequence), plaintext)
                && sequence == old(sequence) + 1
      ensures r.Err? ==> sink == old(sink) && sequence == old(sequence)
    {
      if sequence == U32_MAX {
        return Err(SequenceExhausted);
      }
      var header := FrameHeader(frameType, sequence, |plaintext|);
      if header.Err? {
        return Err(LengthOverflow);
      }
      var associatedData := fileHeader + header.value;
      var nonce := NonceBytes(nonceSeed, sequence);
      if nonce.Err? {
        return Err(nonce.error);
      }
      var ciphertext := cipher.seal(nonce.value, associatedData, plaintext);
      sink := sink + header.value;
      sink := sink + ciphertext;
      assert sink == old(sink) + (header.value + ciphertext);
      sequence := sequence + 1;
      return Ok(());
    }

    /** A full chunk becomes the next data frame, or no data frame can be written any more. */
    method WriteFullChunk(chunk: bytes) returns (r: Result<(), Error>)
      requires Valid() && pending == [] && |chunk| == CHUNK_SIZE
      modifies `sink, `sequence, `sealed, `failed
      ensures Valid()
      ensures r.Ok? <==> Sealable(nonceSeed, old(sequence))
      ensures r.Ok? ==> failed == old(failed) && Text() == old(Text()) + chunk
      ensures r.Ok? ==> sealed == old(sealed) + [chunk]
      ensures r.Err? ==> failed && sink == old(sink) && sealed == old(sealed)
    {
      r := WriteFrame(DATA_FRAME, chunk);
      if r.Ok? {
        EmittedSnoc(cipher, nonceSeed, sealed, chunk);
        ConcatSnoc(sealed, chunk);
        sealed := sealed + [chunk];
      } else {
        failed := true;
      }
    }

    /** Tops up a partly filled buffer and sends it off when it becomes a full chunk. */
    method FillPending(input: bytes) returns (rest: bytes, r: Result<(), Error>)
      requires Valid() && pending != []
      modifies `pending, `sink, `sequence, `sealed, `failed
      ensures Valid()
      ensures r.Ok? ==> failed == old(failed) && Text() + rest == old(Text()) + input && (pending == [] || rest == [])
      ensures r.Err? ==> failed && pending == [] && Text() <= old(Text()) + input
      ensures r.Err? && !old(failed) ==> !FullChunksFit(nonceSeed, |old(Text()) + input|)
      ensures old(failed) ==> failed && sink == old(sink)
    {
      hide Emitted;
      var needed := CHUNK_SIZE - |pending|;
      var take := if needed <= |input| then needed else |input|;
      pending := pending + input[..take];
      rest := input[take..];
      assert Text() + rest == old(Text()) + input;
      r := Ok(());
      if |pending| == CHUNK_SIZE {
        var frame := pending;
        pending := [];
        assert Concat(sealed) + (frame + rest) == old(Text()) + input;
        assert Text() == Concat(sealed);
        r := WriteFullChunk(frame);
        if r.Err? {
          RefusedChunk(nonceSeed, sealed, sequence, frame + rest, old(Text()) + input);
        }
      }
    }

    /** Sends full chunks straight from the input while it holds any. */
    method SendFullChunks(input: bytes) returns (rest: bytes, r: Result<(), Error>)
      requires Valid() && (pending == [] || input == [])
      modifies `sink, `sequence, `sealed, `failed
      ensures Valid()
      ensures r.Ok? ==> failed == old(failed) && Text() + rest == old(Text()) + input && |pending| + |rest| < CHUNK_SIZE
      ensures r.Err? ==> failed && pending == [] && Text() <= old(Text()) + input
      ensures r.Err? && !old(failed) ==> !FullChunksFit(nonceSeed, |old(Text()) + input|)
      ensures old(failed) ==> failed && sink == old(sink)
    {
      hide Emitted;
      rest, r := input, Ok(());
      while |rest| >= CHUNK_SIZE
        invariant Valid() && r.Ok? && failed == old(failed) && pending == old(pending)
        invariant failed ==> sink == old(sink)
        invariant pending == [] || rest == []
        invariant Text() + rest == old(Text()) + input
      {
        r := WriteFullChunk(rest[..CHUNK_SIZE]);
        if r.Err? {
          RefusedChunk(nonceSeed, sealed, sequence, rest, old(Text()) + input);
          return;
        }
        assert rest == rest[..CHUNK_SIZE] + rest[CHUNK_SIZE..];
        rest := rest[CHUNK_SIZE..];
      }
    }

    method Write(input: bytes) returns (r: Result<nat, Error>)
      requires finished || Valid()
      modifies this
      ensures finished == old(finished)
      ensures finished ==> r == Err(AlreadyFinished) && unchanged(this)
      ensures !finished ==> Valid()
      ensures r.Ok? ==> r.value == |input| && failed == old(failed) && Text() == old(Text()) + input
      ensures !finished && r.Err? ==> failed && pending == [] && Text() <= old(Text()) + input
      ensures !finished && !old(failed) ==> (r.Ok? <==> FullChunksFit(nonceSeed, |old(Text()) + input|))
      ensures old(failed) ==> failed && sink == old(sink)
    {
      if finished {
        return Err(AlreadyFinished);
      }
      hide Emitted;
      var rest, done := input, Ok(());
      if pending != [] {
        rest, done := FillPending(rest);
        if done.Err? {
          return Err(done.error);
        }
      }
      rest, done := SendFullChunks(rest);
      if done.Err? {
        return Err(done.error);
      }
      AcceptedFits(nonceSeed, sealed, pending, rest);
      pending := pending + rest;
      return Ok(|input|);
    }

    /** Consumes the writer and hands back the sink. */
    method Finish() returns (r: Result<bytes, Error>)
      requires Valid()
      modifies this
      ensures r.Ok? <==> !old(failed) && Fits(nonceSeed, |old(Text())|)
      ensures r.Ok? ==> r.value == sink == Image(cipher, nonceSeed, Chunks(old(Text()))) && finished
    {
      hide Emitted;
      FullLength(sealed);
      ghost var chunks := sealed;
      if pending != [] {
        var tail := pending;
        pending := [];
        var sent := WriteFrame(DATA_FRAME, tail);
        if sent.Err? {
          return Err(sent.error);
        }
        EmittedSnoc(cipher, nonceSeed, sealed, tail);
        ConcatSnoc(sealed, tail);
        chunks := sealed + [tail];
      }
      assert Concat(chunks) == old(Text());
      ChunksUnique(chunks);
      var sent := WriteFrame(FINAL_FRAME, []);
      if sent.Err? {
        return Err(sent.error);
      }
      EmittedThenFinal(cipher, nonceSeed, chunks);
      finished := true;
      return Ok(sink);
    }
  }

  /** When a full chunk is refused, the text really holds more full chunks than can be sealed. */
  lemma RefusedChunk(seed: Nonce, sealed: seq<bytes>, sequence: nat, rest: bytes, total: bytes)
    requires AllFull(sealed) && sequence == |sealed| && !Sealable(seed, sequence)
    requires |rest| >= CHUNK_SIZE && total == Concat(sealed) + rest
    ensures !FullChunksFit(seed, |total|)
    ensures Concat(sealed) <= total
  {
    FullLength(sealed);
    assert |total| / CHUNK_SIZE >= sequence + 1;
  }

  /** When a write succeeds, every full chunk of the text has become a frame. */
  lemma AcceptedFits(seed: Nonce, sealed: seq<bytes>, pending: bytes, rest: bytes)
    requires AllFull(sealed) && |pending| + |rest| < CHUNK_SIZE
    requires sealed == [] || Sealable(seed, |sealed| - 1)
    ensures Concat(sealed) + (pending + rest) == Concat(sealed) + pending + rest
    ensures FullChunksFit(seed, |Concat(sealed) + pending + rest|)
  {
    FullLength(sealed);
    assert |Concat(sealed) + pending + rest| / CHUNK_SIZE == |sealed|;
  }

  /** Every run of the writer: the outcome and the file depend on the writes only through their
      concatenation, and sealing succeeds exactly when its chunks fit. Writes after a failed one are
      not attempted, as the archive builder stops at the first error. */
  method SealStream(cipher: Aead, seed: Nonce, writes: seq<bytes>) returns (r: Result<bytes, Error>)
    ensures r.Ok? <==> Fits(seed, |Concat(writes)|)
    ensures r.Ok? ==> r.value == Image(cipher, seed, Chunks(Concat(writes)))
  {
    hide Image, Chunks;
    var writer := new VaultWriter(cipher, seed);
    for i := 0 to |writes|
      invariant writer.Valid() && !writer.failed && fresh(writer)
      invariant writer.cipher == cipher && writer.nonceSeed == seed
      invariant writer.Text() == Concat(writes[..i])
    {
      ConcatSnoc(writes[..i], writes[i]);
      assert writes[..i] + [writes[i]] == writes[..i + 1];
      var sent := writer.Write(writes[i]);
      if sent.Err? {
        ConcatAppend(writes[..i + 1], writes[i + 1..]);
        assert writes == writes[..i + 1] + writes[i + 1..];
        return Err(sent.error);
      }
    }
    assert writes[..|writes|] == writes;
    r := writer.Finish();
  }
}
