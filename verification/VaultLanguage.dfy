/** The exact language of the reader, and the round trip through writer and reader. */
module VaultLanguage {
  import opened Wrappers
  import opened Bytes
  import opened Cipher
  import opened VaultFormat
  import opened VaultReader
  import opened VaultWriter

  // ----------------------------------------------------------- one frame

  /** The reader takes back any frame that may carry this number. */
  lemma FrameIsRead(c: Aead, seed: Nonce, frameType: byte, sequence: u32, chunk: bytes, rest: bytes)
    requires c.Lawful() && Sealable(seed, sequence) && |chunk| <= CHUNK_SIZE
    requires frameType == DATA_FRAME || (frameType == FINAL_FRAME && chunk == [])
    ensures NextFrame(c, seed, Frame(c, seed, frameType, sequence, chunk) + rest, sequence)
            == if frameType == DATA_FRAME then Data(chunk, rest)
               else if rest == [] then Final
               else Bad(TrailingData)
  {
    var header, text := HeaderBytes(frameType, sequence, |chunk|), SealedText(c, seed, frameType, sequence, chunk);
    var input := Frame(c, seed, frameType, sequence, chunk) + rest;
    HeaderFields(frameType, sequence, |chunk|);
    assert input == header + (text + rest);
    assert input[..FRAME_HEADER_LENGTH] == header;
    var end := FRAME_HEADER_LENGTH + |chunk| + TAG_LENGTH;
    assert |text| == |chunk| + TAG_LENGTH;
    assert input[FRAME_HEADER_LENGTH..end] == text && input[end..] == rest;
  }

  /** And it takes nothing else: what it accepts is the sealing of what it delivers. */
  lemma ReadIsFrame(c: Aead, seed: Nonce, input: bytes, sequence: u32)
    requires c.Lawful()
    ensures var step := NextFrame(c, seed, input, sequence);
            && (step.Data? ==>
                  && Sealable(seed, sequence) && |step.chunk| <= CHUNK_SIZE
                  && input == Frame(c, seed, DATA_FRAME, sequence, step.chunk) + step.rest)
            && (step.Final? ==>
                  && Sealable(seed, sequence)
                  && input == Frame(c, seed, FINAL_FRAME, sequence, []))
  {
    var step := NextFrame(c, seed, input, sequence);
    if !step.Bad? {
      var header := input[..FRAME_HEADER_LENGTH];
      HeaderOfFields(header);
      var length := Value(header[5..9]);
      var end := FRAME_HEADER_LENGTH + length + TAG_LENGTH;
      var text := input[FRAME_HEADER_LENGTH..end];
      var plaintext := c.open(NonceOf(seed, sequence), AssociatedData(seed, header), text).value;
      assert |text| == |plaintext| + TAG_LENGTH;
      assert text == SealedText(c, seed, header[0], sequence, plaintext);
      assert input == header + text + input[end..];
    }
  }

  /** A frame in any place but its own is refused as out of order, before anything is decrypted. */
  lemma MisplacedFrameIsRefused(c: Aead, seed: Nonce, frameType: byte, own: u32, chunk: bytes, rest: bytes, place: u32)
    requires own != place && |chunk| <= CHUNK_SIZE
    ensures NextFrame(c, seed, Frame(c, seed, frameType, own, chunk) + rest, place) == Bad(FrameOrder)
  {
    var header, text := HeaderBytes(frameType, own, |chunk|), SealedText(c, seed, frameType, own, chunk);
    HeaderFields(frameType, own, |chunk|);
    assert (Frame(c, seed, frameType, own, chunk) + rest)[..FRAME_HEADER_LENGTH] == header;
  }

  // -------------------------------------------------------- whole streams

  lemma BodyStep(c: Aead, seed: Nonce, chunks: seq<bytes>, sequence: nat)
    requires chunks != []
    ensures Body(c, seed, chunks, sequence)
            == Frame(c, seed, DATA_FRAME, sequence, chunks[0]) + Body(c, seed, chunks[1..], sequence + 1)
  {
  }

  /** Reading a well-formed body delivers its chunks; it ends cleanly unless something follows. */
  lemma {:induction false} BodyIsDrained(c: Aead, seed: Nonce, chunks: seq<bytes>, sequence: u32, rest: bytes)
    requires c.Lawful() && WellFormed(seed, chunks, sequence)
    ensures Drain(c, seed, Body(c, seed, chunks, sequence) + rest, sequence)
            == Transcript(chunks, if rest == [] then None else Some(TrailingData))
    decreases |chunks|
  {
    hide NextFrame, Frame;
    if chunks == [] {
      assert Body(c, seed, [], sequence) == Frame(c, seed, FINAL_FRAME, sequence, []);
      hide Body;
      FrameIsRead(c, seed, FINAL_FRAME, sequence, [], rest);
    } else {
      hide Body;
      var tail := chunks[1..];
      BodyStep(c, seed, chunks, sequence);
      var first, behind := Frame(c, seed, DATA_FRAME, sequence, chunks[0]), Body(c, seed, tail, sequence + 1);
      assert (first + behind) + rest == first + (behind + rest);
      FrameIsRead(c, seed, DATA_FRAME, sequence, chunks[0], behind + rest);
      BodyIsDrained(c, seed, tail, sequence + 1, rest);
      assert [chunks[0]] + tail == chunks;
    }
  }

  lemma DrainStep(c: Aead, seed: Nonce, input: bytes, sequence: u32)
    ensures var step, t := NextFrame(c, seed, input, sequence), Drain(c, seed, input, sequence);
            && (step.Bad? ==> t.end.Some?)
            && (step.Final? ==> t == Transcript([], None))
            && (step.Data? ==>
                  && t.chunks == [step.chunk] + Drain(c, seed, step.rest, sequence + 1).chunks
                  && t.end == Drain(c, seed, step.rest, sequence + 1).end)
  {
    hide NextFrame;
  }

  lemma BodyOfNothing(c: Aead, seed: Nonce, sequence: nat)
    ensures Body(c, seed, [], sequence) == Frame(c, seed, FINAL_FRAME, sequence, [])
  {
    hide Frame;
  }

  lemma WellFormedStep(seed: Nonce, chunk: bytes, chunks: seq<bytes>, sequence: nat)
    requires WellFormed(seed, chunks, sequence + 1) && |chunk| <= CHUNK_SIZE
    ensures WellFormed(seed, [chunk] + chunks, sequence)
  {
  }

  /** A clean drain means the input was the body of the delivered chunks. */
  lemma {:induction false} DrainedIsBody(c: Aead, seed: Nonce, input: bytes, sequence: u32)
    requires c.Lawful() && Drain(c, seed, input, sequence).end.None?
    ensures var chunks := Drain(c, seed, input, sequence).chunks;
            WellFormed(seed, chunks, sequence) && input == Body(c, seed, chunks, sequence)
    decreases |input|
  {
    hide NextFrame, Frame, Drain, Body;
    ReadIsFrame(c, seed, input, sequence);
    DrainStep(c, seed, input, sequence);
    match NextFrame(c, seed, input, sequence)
    case Final =>
      BodyOfNothing(c, seed, sequence);
    case Data(chunk, rest) =>
      DrainedIsBody(c, seed, rest, sequence + 1);
      var tail := Drain(c, seed, rest, sequence + 1).chunks;
      WellFormedStep(seed, chunk, tail, sequence);
      assert ([chunk] + tail)[1..] == tail;
      BodyStep(c, seed, [chunk] + tail, sequence);
  }

  lemma DecodeOfImage(c: Aead, seed: Nonce, chunks: seq<bytes>, rest: bytes)
    requires c.Lawful() && WellFormed(seed, chunks, 0)
    ensures Decode(c, Image(c, seed, chunks) + rest)
            == Transcript(chunks, if rest == [] then None else Some(TrailingData))
  {
    hide Body, Drain;
    var input := Image(c, seed, chunks) + rest;
    assert input[..|MAGIC|] == MAGIC && input[|MAGIC|..FILE_HEADER_LENGTH] == seed;
    assert input[FILE_HEADER_LENGTH..] == Body(c, seed, chunks, 0) + rest;
    BodyIsDrained(c, seed, chunks, 0, rest);
  }

  lemma ImageOfDecode(c: Aead, input: bytes)
    requires c.Lawful() && Accepts(c, input)
    ensures var seed: Nonce := input[|MAGIC|..FILE_HEADER_LENGTH]; var chunks := Decode(c, input).chunks;
            WellFormed(seed, chunks, 0) && input == Image(c, seed, chunks)
  {
    hide Body, Drain;
    var seed: Nonce := input[|MAGIC|..FILE_HEADER_LENGTH];
    DrainedIsBody(c, seed, input[FILE_HEADER_LENGTH..], 0);
    assert input == input[..|MAGIC|] + seed + input[FILE_HEADER_LENGTH..];
  }

  /** Exact language: a file is accepted if and only if it is the image of some well-formed list of
      chunks under some seed. */
  lemma ExactLanguage(c: Aead, input: bytes)
    requires c.Lawful()
    ensures Accepts(c, input)
            <==> exists seed: Nonce, chunks :: WellFormed(seed, chunks, 0) && input == Image(c, seed, chunks)
  {
    if Accepts(c, input) {
      ImageOfDecode(c, input);
    }
    forall seed: Nonce, chunks | WellFormed(seed, chunks, 0) && input == Image(c, seed, chunks)
      ensures Accepts(c, input)
    {
      DecodeOfImage(c, seed, chunks, []);
      assert input + [] == input;
    }
  }

  /** The frames of an accepted file are determined by its bytes, and decoding finds them. */
  lemma ImagesAreUnique(c: Aead, seed: Nonce, chunks: seq<bytes>, other: Nonce, others: seq<bytes>)
    requires c.Lawful() && WellFormed(seed, chunks, 0) && WellFormed(other, others, 0)
    requires Image(c, seed, chunks) == Image(c, other, others)
    ensures seed == other && chunks == others && Decode(c, Image(c, seed, chunks)).chunks == chunks
  {
    DecodeOfImage(c, seed, chunks, []);
    DecodeOfImage(c, other, others, []);
    var image := Image(c, seed, chunks);
    assert image + [] == image && Image(c, other, others) + [] == image;
    assert image[|MAGIC|..FILE_HEADER_LENGTH] == seed;
    assert Image(c, other, others)[|MAGIC|..FILE_HEADER_LENGTH] == other;
  }

  /** No accepted file is a strict prefix of another: whatever is cut from the end of an accepted file
      or added to it, it is refused. This needs no assumption about forgeries. */
  lemma NoTruncationNoExtension(c: Aead, input: bytes, n: nat, extra: bytes)
    requires c.Lawful() && Accepts(c, input)
    ensures n < |input| ==> !Accepts(c, input[..n])
    ensures extra != [] ==> Decode(c, input + extra) == Transcript(Decode(c, input).chunks, Some(TrailingData))
  {
    ImageOfDecode(c, input);
    DecodeOfImage(c, input[|MAGIC|..FILE_HEADER_LENGTH], Decode(c, input).chunks, extra);
    if n < |input| {
      var cut, tail := input[..n], input[n..];
      assert cut + tail == input;
      if Accepts(c, cut) {
        ImageOfDecode(c, cut);
        DecodeOfImage(c, cut[|MAGIC|..FILE_HEADER_LENGTH], Decode(c, cut).chunks, tail);
      }
    }
  }

  /** Every accepted frame costs at least a header and a tag, so a file bounds its own frame count. */
  lemma {:induction false} FramesAreBounded(c: Aead, seed: Nonce, input: bytes, sequence: u32)
    ensures (FRAME_HEADER_LENGTH + TAG_LENGTH) * |Drain(c, seed, input, sequence).chunks| <= |input|
    decreases |input|
  {
    var step := NextFrame(c, seed, input, sequence);
    if step.Data? {
      FramesAreBounded(c, seed, step.rest, sequence + 1);
    }
  }

  // ----------------------------------------------------------- round trip

  lemma FittingChunksAreWellFormed(seed: Nonce, data: bytes)
    requires Fits(seed, |data|)
    ensures WellFormed(seed, Chunks(data), 0)
  {
  }

  /** What the writer finished, the reader accepts and turns back into the text. */
  lemma SealedFileDecodes(c: Aead, seed: Nonce, data: bytes)
    requires c.Lawful() && Fits(seed, |data|)
    ensures Decode(c, Image(c, seed, Chunks(data))) == Transcript(Chunks(data), None)
    ensures Plaintext(c, Image(c, seed, Chunks(data))) == data
  {
    FittingChunksAreWellFormed(seed, data);
    DecodeOfImage(c, seed, Chunks(data), []);
    var image := Image(c, seed, Chunks(data));
    assert image + [] == image;
  }

  /** Any writes, any reads: if sealing succeeds, the reads return the written text in order, then
      zero bytes for ever, and verification succeeds. */
  method RoundTrip(cipher: Aead, seed: Nonce, writes: seq<bytes>, sizes: seq<nat>)
    returns (file: Result<bytes, Error>, served: seq<bytes>, end: Option<Error>)
    requires cipher.Lawful()
    ensures file.Ok? <==> Fits(seed, |Concat(writes)|)
    ensures file.Ok? ==> end.None? && |served| == |sizes| && Concat(served) <= Concat(writes)
    ensures file.Ok? ==> WithinSizes(served, sizes)
    ensures file.Ok? ==> forall i :: 0 <= i < |served| ==>
                           (served[i] == [] <==> sizes[i] == 0 || Concat(served[..i]) == Concat(writes))
  {
    served, end := [], None;
    file := SealStream(cipher, seed, writes);
    if file.Ok? {
      SealedFileDecodes(cipher, seed, Concat(writes));
      served, end := ReadStream(cipher, file.value, sizes);
    }
  }
}
