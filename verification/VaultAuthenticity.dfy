/** What the frames authenticate. Any number of honest files are sealed under one key with pairwise
    distinct seeds, some of them perhaps only in part; the reader is given an arbitrary byte string. The
    one assumption is about that run: every ciphertext it opened, with the nonce and associated data it
    opened it under, had been sealed for one of the honest files. */
module VaultAuthenticity {
  import opened Wrappers
  import opened Bytes
  import opened Cipher
  import opened VaultFormat
  import opened VaultReader
  import opened VaultLanguage

  /** A file the writer was given `data` for. A seal that was interrupted has sealed its first frames
      only; they stay on disk, or in the hands of whoever copied them. */
  datatype HonestFile = HonestFile(seed: Nonce, data: bytes, sealed: nat)
  {
    ghost predicate Valid() {
      sealed <= FrameCount() && (sealed == 0 || (sealed - 1 < U32_MAX && NonceFits(seed, sealed - 1)))
    }

    predicate Finished() { sealed == FrameCount() }

    function FrameCount(): nat { |Chunks(data)| + 1 }

    function FrameType(i: nat): byte { if i < |Chunks(data)| then DATA_FRAME else FINAL_FRAME }

    function FrameText(i: nat): bytes { if i < |Chunks(data)| then Chunks(data)[i] else [] }

    function FileImage(c: Aead): bytes { Image(c, seed, Chunks(data)) }
  }

  ghost predicate DistinctSeeds(files: seq<HonestFile>) {
    forall j, k :: 0 <= j < k < |files| ==> files[j].seed != files[k].seed
  }

  /** Frame `i` of `f` was sealed with exactly this nonce, associated data and ciphertext. */
  ghost predicate SealedAs(c: Aead, f: HonestFile, i: nat, nonce: Nonce, data: bytes, text: bytes) {
    && i < f.FrameCount() && i < f.sealed
    && nonce == NonceOf(f.seed, i)
    && data == AssociatedData(f.seed, HeaderBytes(f.FrameType(i), i, |f.FrameText(i)|))
    && text == SealedText(c, f.seed, f.FrameType(i), i, f.FrameText(i))
  }

  /** The log of everything honestly sealed under the key. */
  ghost predicate FrameLogged(c: Aead, files: seq<HonestFile>, nonce: Nonce, data: bytes, text: bytes) {
    exists k: nat, i: nat :: k < |files| && SealedAs(c, files[k], i, nonce, data, text)
  }

  /** No forgery in this run: each frame the reader accepts was in the log. */
  ghost predicate UnforgedFrames(c: Aead, files: seq<HonestFile>, seed: Nonce, input: bytes, sequence: u32)
    decreases |input|
  {
    var step := NextFrame(c, seed, input, sequence);
    step.Bad? ||
    var end := if step.Data? then |input| - |step.rest| else |input|;
    && FrameLogged(c, files, NonceOf(seed, sequence), AssociatedData(seed, input[..FRAME_HEADER_LENGTH]),
                   input[FRAME_HEADER_LENGTH..end])
    && (step.Data? ==> UnforgedFrames(c, files, seed, step.rest, sequence + 1))
  }

  /** The assumption is met by every finished file itself, so it is not empty. */
  lemma {:induction false} HonestFilesAreUnforged(c: Aead, files: seq<HonestFile>, k: nat, sequence: u32)
    requires c.Lawful() && k < |files| && files[k].Valid() && files[k].Finished() && sequence <= |Chunks(files[k].data)|
    ensures UnforgedFrames(c, files, files[k].seed, Body(c, files[k].seed, Chunks(files[k].data)[sequence..], sequence),
            sequence)
    decreases |Chunks(files[k].data)| - sequence
  {
    var f := files[k];
    var chunks := Chunks(f.data)[sequence..];
    var input := Body(c, f.seed, chunks, sequence);
    var frameType, text := f.FrameType(sequence), f.FrameText(sequence);
    var frame := Frame(c, f.seed, frameType, sequence, text);
    assert SealedAs(c, f, sequence, NonceOf(f.seed, sequence),
                    AssociatedData(f.seed, HeaderBytes(frameType, sequence, |text|)),
                    SealedText(c, f.seed, frameType, sequence, text));
    if chunks == [] {
      FrameIsRead(c, f.seed, FINAL_FRAME, sequence, [], []);
      assert input == frame && frame + [] == frame;
      FrameIsSplit(c, f.seed, frameType, sequence, text, []);
    } else {
      var rest := Body(c, f.seed, chunks[1..], sequence + 1);
      BodyStep(c, f.seed, chunks, sequence);
      FrameIsRead(c, f.seed, DATA_FRAME, sequence, text, rest);
      FrameIsSplit(c, f.seed, frameType, sequence, text, rest);
      assert chunks[1..] == Chunks(f.data)[sequence + 1..];
      HonestFilesAreUnforged(c, files, k, sequence + 1);
    }
  }

  /** And by what an interrupted seal leaves behind: its data frames without the final one. */
  lemma {:induction false} InterruptedFilesAreUnforged(c: Aead, files: seq<HonestFile>, k: nat, sequence: u32)
    requires c.Lawful() && k < |files| && files[k].Valid() && sequence <= files[k].sealed <= |Chunks(files[k].data)|
    ensures var f := files[k];
            UnforgedFrames(c, files, f.seed, DataFrames(c, f.seed, Chunks(f.data)[sequence..f.sealed], sequence),
                           sequence)
    decreases files[k].sealed - sequence
  {
    var f := files[k];
    var chunks := Chunks(f.data)[sequence..f.sealed];
    if chunks != [] {
      var text, rest := Chunks(f.data)[sequence], DataFrames(c, f.seed, chunks[1..], sequence + 1);
      assert chunks[0] == text && chunks[1..] == Chunks(f.data)[sequence + 1..f.sealed];
      assert SealedAs(c, f, sequence, NonceOf(f.seed, sequence),
                      AssociatedData(f.seed, HeaderBytes(DATA_FRAME, sequence, |text|)),
                      SealedText(c, f.seed, DATA_FRAME, sequence, text));
      FrameIsRead(c, f.seed, DATA_FRAME, sequence, text, rest);
      FrameIsSplit(c, f.seed, DATA_FRAME, sequence, text, rest);
      InterruptedFilesAreUnforged(c, files, k, sequence + 1);
    }
  }

  lemma FrameIsSplit(c: Aead, seed: Nonce, frameType: byte, sequence: nat, text: bytes, rest: bytes)
    requires c.Lawful()
    ensures var input := Frame(c, seed, frameType, sequence, text) + rest;
            && |input| >= FRAME_HEADER_LENGTH + |rest|
            && input[..FRAME_HEADER_LENGTH] == HeaderBytes(frameType, sequence, |text|)
            && input[FRAME_HEADER_LENGTH..|input| - |rest|] == SealedText(c, seed, frameType, sequence, text)
  {
  }

  /** Associated data pins down the file, the position, the type and the length of a frame. */
  lemma LoggedFrameIsTheFrame(c: Aead, files: seq<HonestFile>, seed: Nonce, frameType: byte, sequence: u32,
                              length: u32, text: bytes) returns (k: nat)
    requires forall j :: 0 <= j < |files| ==> files[j].Valid()
    requires FrameLogged(c, files, NonceOf(seed, sequence),
                         AssociatedData(seed, HeaderBytes(frameType, sequence, length)), text)
    ensures k < |files| && files[k].seed == seed && sequence < files[k].FrameCount() && sequence < files[k].sealed
    ensures frameType == files[k].FrameType(sequence)
    ensures text == SealedText(c, seed, frameType, sequence, files[k].FrameText(sequence))
  {
    var header := HeaderBytes(frameType, sequence, length);
    var data := AssociatedData(seed, header);
    var j: nat, i: nat :| j < |files| && SealedAs(c, files[j], i, NonceOf(seed, sequence), data, text);
    var f := files[j];
    k := j;
    var logged := HeaderBytes(f.FrameType(i), i, |f.FrameText(i)|);
    assert data[|MAGIC|..FILE_HEADER_LENGTH] == seed;
    assert AssociatedData(f.seed, logged)[|MAGIC|..FILE_HEADER_LENGTH] == f.seed;
    assert data[FILE_HEADER_LENGTH..] == header;
    assert AssociatedData(f.seed, logged)[FILE_HEADER_LENGTH..] == logged;
    HeaderFields(frameType, sequence, length);
    HeaderFields(f.FrameType(i), i, |f.FrameText(i)|);
  }

  /** From frame `sequence` on, the reader delivers the honest file's chunks in order, no more than were
      sealed, and ends cleanly only after all chunks of a finished file. */
  lemma {:induction false} DeliversHonestChunks(c: Aead, files: seq<HonestFile>, k: nat, input: bytes, sequence: u32)
    requires c.Lawful() && DistinctSeeds(files) && forall j :: 0 <= j < |files| ==> files[j].Valid()
    requires k < |files| && sequence <= |Chunks(files[k].data)|
    requires UnforgedFrames(c, files, files[k].seed, input, sequence)
    ensures var t := Drain(c, files[k].seed, input, sequence); var chunks := Chunks(files[k].data)[sequence..];
            && t.chunks <= chunks && (t.end.None? ==> t.chunks == chunks && files[k].Finished())
            && (sequence <= files[k].sealed ==> sequence + |t.chunks| <= files[k].sealed)
    decreases |input|
  {
    hide NextFrame, Chunks, FrameLogged;
    var f := files[k];
    var step := NextFrame(c, f.seed, input, sequence);
    if !step.Bad? {
      var found := AcceptedFrameIsHonest(c, files, f.seed, input, sequence);
      assert found == k;
      if step.Data? {
        DeliversHonestChunks(c, files, k, step.rest, sequence + 1);
        assert Chunks(f.data)[sequence..][1..] == Chunks(f.data)[sequence + 1..];
      }
    }
  }

  /** An accepted frame is the one with its number in the honest file with this seed. */
  lemma AcceptedFrameIsHonest(c: Aead, files: seq<HonestFile>, seed: Nonce, input: bytes, sequence: u32)
    returns (k: nat)
    requires c.Lawful() && forall j :: 0 <= j < |files| ==> files[j].Valid()
    requires UnforgedFrames(c, files, seed, input, sequence) && !NextFrame(c, seed, input, sequence).Bad?
    ensures k < |files| && files[k].seed == seed && sequence < files[k].sealed
    ensures var step := NextFrame(c, seed, input, sequence);
            if step.Data? then sequence < |Chunks(files[k].data)| && step.chunk == Chunks(files[k].data)[sequence]
            else sequence == |Chunks(files[k].data)|
  {
    var step := NextFrame(c, seed, input, sequence);
    var frameType, text, rest := if step.Data? then DATA_FRAME else FINAL_FRAME,
      if step.Data? then step.chunk else [], if step.Data? then step.rest else [];
    ReadIsFrame(c, seed, input, sequence);
    hide NextFrame, Frame, SealedText;
    assert input == Frame(c, seed, frameType, sequence, text) + rest;
    FrameIsSplit(c, seed, frameType, sequence, text, rest);
    var sealedText := SealedText(c, seed, frameType, sequence, text);
    k := LoggedFrameIsTheFrame(c, files, seed, frameType, sequence, |text|, sealedText);
    SameSealingSameText(c, seed, frameType, sequence, text, files[k].FrameText(sequence), |text|);
  }

  lemma SameSealingSameText(c: Aead, seed: Nonce, frameType: byte, sequence: nat, text: bytes, other: bytes,
      length: nat)
    requires c.Lawful() && |text| == length
    requires SealedText(c, seed, frameType, sequence, text) == SealedText(c, seed, frameType, sequence, other)
    ensures text == other
  {
    var nonce := NonceOf(seed, sequence);
    assert |text| == |other|;
    var data := AssociatedData(seed, HeaderBytes(frameType, sequence, length));
    assert c.open(nonce, data, c.seal(nonce, data, text)) == Some(text);
    assert c.open(nonce, data, c.seal(nonce, data, other)) == Some(other);
  }

  /** The assumption about a run of the reader over a whole file. */
  ghost predicate UnforgedFile(c: Aead, files: seq<HonestFile>, input: bytes) {
    HeaderError(input).None? ==>
      UnforgedFrames(c, files, input[|MAGIC|..FILE_HEADER_LENGTH], input[FILE_HEADER_LENGTH..], 0)
  }

  lemma HeaderNamesSeed(input: bytes, seed: Nonce)
    ensures FileHeader(seed) <= input <==>
              HeaderError(input).None? && input[|MAGIC|..FILE_HEADER_LENGTH] == seed
  {
    if FileHeader(seed) <= input {
      assert input[..FILE_HEADER_LENGTH] == FileHeader(seed);
      assert input[..|MAGIC|] == FileHeader(seed)[..|MAGIC|];
      assert input[|MAGIC|..FILE_HEADER_LENGTH] == FileHeader(seed)[|MAGIC|..];
    }
    if HeaderError(input).None? && input[|MAGIC|..FILE_HEADER_LENGTH] == seed {
      assert input[..FILE_HEADER_LENGTH] == input[..|MAGIC|] + input[|MAGIC|..FILE_HEADER_LENGTH];
    }
  }

  /** A file whose header is that of honest file `k` yields a prefix of it, or all of it if accepted. */
  lemma AuthenticForFile(c: Aead, files: seq<HonestFile>, k: nat, input: bytes)
    requires c.Lawful() && DistinctSeeds(files) && forall j :: 0 <= j < |files| ==> files[j].Valid()
    requires UnforgedFile(c, files, input) && k < |files| && FileHeader(files[k].seed) <= input
    ensures Plaintext(c, input) <= files[k].data && |Decode(c, input).chunks| <= files[k].sealed
    ensures Accepts(c, input) ==> files[k].Finished() && input == files[k].FileImage(c)
  {
    hide UnforgedFrames, Drain, Image, HeaderError, FileHeader, Chunks, Concat;
    HeaderNamesSeed(input, files[k].seed);
    DeliversHonestChunks(c, files, k, input[FILE_HEADER_LENGTH..], 0);
    var chunks, delivered := Chunks(files[k].data), Decode(c, input).chunks;
    assert chunks[0..] == chunks;
    ConcatAppend(delivered, chunks[|delivered|..]);
    assert chunks == delivered + chunks[|delivered|..];
    if Accepts(c, input) {
      ImageOfDecode(c, input);
    }
  }

  /** Authenticity: whatever byte string is presented, everything delivered before the first error is a
      prefix of the text of the one honest file whose header it carries, no more frames of it than were
      sealed, and a byte string that is accepted in full is that file, finished, byte for byte. */
  lemma Authentic(c: Aead, files: seq<HonestFile>, input: bytes)
    requires c.Lawful() && DistinctSeeds(files) && forall j :: 0 <= j < |files| ==> files[j].Valid()
    requires UnforgedFile(c, files, input)
    ensures Plaintext(c, input) != [] || Accepts(c, input) ==> exists f :: f in files && FileHeader(f.seed) <= input
    ensures forall f :: f in files && FileHeader(f.seed) <= input ==>
              && Plaintext(c, input) <= f.data && |Decode(c, input).chunks| <= f.sealed
              && (Accepts(c, input) ==> f.Finished() && input == f.FileImage(c))
  {
    if HeaderError(input).None? {
      var seed: Nonce, body := input[|MAGIC|..FILE_HEADER_LENGTH], input[FILE_HEADER_LENGTH..];
      if !NextFrame(c, seed, body, 0).Bad? {
        var k := AcceptedFrameIsHonest(c, files, seed, body, 0);
        HeaderNamesSeed(input, seed);
        assert files[k] in files && FileHeader(files[k].seed) <= input;
      }
    }
    forall f | f in files && FileHeader(f.seed) <= input
      ensures Plaintext(c, input) <= f.data && |Decode(c, input).chunks| <= f.sealed
      ensures Accepts(c, input) ==> f.Finished() && input == f.FileImage(c)
    {
      var k :| 0 <= k < |files| && files[k] == f;
      AuthenticForFile(c, files, k, input);
    }
  }

  /** The same of the reader that runs: what it hands out, if anything, is a prefix of the text of the
      honest file whose header the input carries, and it approves exactly the finished honest files. */
  method ReadUntrusted(cipher: Aead, ghost files: seq<HonestFile>, input: bytes, sizes: seq<nat>)
    returns (served: seq<bytes>, end: Option<Error>)
    requires cipher.Lawful() && DistinctSeeds(files) && forall j :: 0 <= j < |files| ==> files[j].Valid()
    requires UnforgedFile(cipher, files, input)
    ensures end.None? <==> exists f :: f in files && f.Finished() && input == f.FileImage(cipher)
    ensures Concat(served) != [] ==> exists f :: f in files && FileHeader(f.seed) <= input
    ensures forall f :: f in files && FileHeader(f.seed) <= input ==> Concat(served) <= f.data
  {
    served, end := ReadStream(cipher, input, sizes);
    Authentic(cipher, files, input);
    forall f | f in files && f.Finished()
      ensures Accepts(cipher, f.FileImage(cipher))
    {
      SealedFileDecodes(cipher, f.seed, f.data);
    }
  }
}
