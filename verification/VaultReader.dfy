/** The reader: what it makes of every byte string, and the buffered state machine that does it. */
module VaultReader {
  import opened Wrappers
  import opened Bytes
  import opened Cipher
  import opened VaultFormat

  // --------------------------------------------- the reader as a function

  datatype Step = Data(chunk: bytes, rest: bytes) | Final | Bad(error: Error)

  /** One frame, with the checks in the order the reader makes them. */
  function NextFrame(c: Aead, seed: Nonce, input: bytes, sequence: u32): (step: Step)
    ensures step.Data? ==> |step.rest| + FRAME_HEADER_LENGTH + TAG_LENGTH <= |input| && sequence < U32_MAX
  {
    if |input| < FRAME_HEADER_LENGTH then Bad(Truncated) else
    var header := input[..FRAME_HEADER_LENGTH];
    var frameType, length := header[0], Value(header[5..9]);
    if Value(header[1..5]) != sequence then Bad(FrameOrder)
    else if frameType != DATA_FRAME && frameType != FINAL_FRAME then Bad(FrameType)
    else if length > CHUNK_SIZE || (frameType == FINAL_FRAME && length != 0) then Bad(FrameLength)
    else
      var end := FRAME_HEADER_LENGTH + length + TAG_LENGTH;
      if |input| < end then Bad(Truncated)
      else if !NonceFits(seed, sequence) then Bad(NonceOverflow)
      else
        match c.open(NonceOf(seed, sequence), AssociatedData(seed, header), input[FRAME_HEADER_LENGTH..end])
        case None => Bad(AuthenticationFailed)
        case Some(plaintext) =>
          if sequence == U32_MAX then Bad(SequenceOverflow)
          else if frameType == DATA_FRAME then Data(plaintext, input[end..])
          else if |input| > end then Bad(TrailingData)
          else Final
  }

  /** The chunks delivered before the end, and how it ends: cleanly, or with the first error. */
  datatype Transcript = Transcript(chunks: seq<bytes>, end: Option<Error>)

  function Drain(c: Aead, seed: Nonce, input: bytes, sequence: u32): Transcript
    decreases |input|
  {
    match NextFrame(c, seed, input, sequence)
    case Bad(error) => Transcript([], Some(error))
    case Final => Transcript([], None)
    case Data(chunk, rest) =>
      var t := Drain(c, seed, rest, sequence + 1);
      Transcript([chunk] + t.chunks, t.end)
  }

  function HeaderError(input: bytes): Option<Error> {
    if |input| < FILE_HEADER_LENGTH then Some(HeaderTruncated)
    else if input[..|MAGIC|] != MAGIC then Some(UnsupportedFormat)
    else None
  }

  /** A whole file, read by a consumer that stops at the first error. */
  function Decode(c: Aead, input: bytes): Transcript {
    var bad := HeaderError(input);
    if bad.Some? then Transcript([], bad)
    else Drain(c, input[|MAGIC|..FILE_HEADER_LENGTH], input[FILE_HEADER_LENGTH..], 0)
  }

  function Plaintext(c: Aead, input: bytes): bytes {
    Concat(Decode(c, input).chunks)
  }

  predicate Accepts(c: Aead, input: bytes) {
    Decode(c, input).end.None?
  }

  lemma PieceAndRest(remaining: bytes, n: nat, ahead: bytes)
    requires n <= |remaining|
    ensures remaining[..n] + (remaining[n..] + ahead) == remaining + ahead
  {
  }

  // ------------------------------------------------------ the state machine

  class VaultReader {
    const cipher: Aead
    const fileHeader: bytes
    const nonceSeed: Nonce
    var inner: bytes             // input not yet consumed
    var plaintext: bytes
    var plaintextOffset: nat
    var sequence: u32
    var finalized: bool

    ghost predicate Valid()
      reads this
    {
      fileHeader == FileHeader(nonceSeed) && (finalized ==> plaintext == [])
    }

    /** Decrypted bytes not yet served. */
    ghost function Unread(): bytes
      reads this
    {
      if plaintextOffset < |plaintext| then plaintext[plaintextOffset..] else []
    }

    /** What the frames still to be read will deliver. */
    ghost function Ahead(): Transcript
      reads this
    {
      if finalized then Transcript([], None) else Drain(cipher, nonceSeed, inner, sequence)
    }

    /** All bytes still to be served, and how the stream will end. */
    ghost function Future(): bytes
      reads this
    {
      Unread() + Concat(Ahead().chunks)
    }

    ghost function End(): Option<Error>
      reads this
    {
      Ahead().end
    }

    constructor (cipher: Aead, seed: Nonce, body: bytes)
      ensures Valid() && Unread() == [] && !finalized
      ensures this.cipher == cipher && nonceSeed == seed && inner == body && sequence == 0
    {
      this.cipher, nonceSeed, fileHeader := cipher, seed, FileHeader(seed);
      inner, plaintext, plaintextOffset, sequence, finalized := body, [], 0, 0, false;
    }

    static method New(cipher: Aead, input: bytes) returns (r: Result<VaultReader, Error>)
      ensures r.Ok? <==> HeaderError(input).None?
      ensures r.Err? ==> Decode(cipher, input) == Transcript([], Some(r.error))
      ensures r.Ok? ==>
                && fresh(r.value) && r.value.Valid() && r.value.cipher == cipher
                && r.value.Future() == Plaintext(cipher, input)
                && r.value.End() == Decode(cipher, input).end
    {
      if |input| < FILE_HEADER_LENGTH {
        return Err(HeaderTruncated);
      }
      var header := input[..FILE_HEADER_LENGTH];
      assert header[..|MAGIC|] == input[..|MAGIC|] && header[|MAGIC|..] == input[|MAGIC|..FILE_HEADER_LENGTH];
      if header[..|MAGIC|] != MAGIC {
        return Err(UnsupportedFormat);
      }
      var reader := new VaultReader(cipher, header[|MAGIC|..], input[FILE_HEADER_LENGTH..]);
      return Ok(reader);
    }

    /** Fills `n` bytes from the input, or fails at its end, as `read_exact` does. */
    method ReadExact(n: nat) returns (r: Result<bytes, ()>)
      modifies `inner
      ensures r.Ok? <==> n <= |old(inner)|
      ensures r.Ok? ==> r.value == old(inner)[..n] && inner == old(inner)[n..]
      ensures r.Err? ==> inner == []
    {
      if |inner| < n {
        inner := [];
        return Err(());
      }
      r := Ok(inner[..n]);
      inner := inner[n..];
    }

    method ReadNextFrame() returns (r: Result<(), Error>)
      requires Valid() && !finalized && Unread() == []
      modifies this
      ensures Valid()
      ensures var step := NextFrame(cipher, nonceSeed, old(inner), old(sequence));
              && (r.Err? <==> step.Bad?)
              && (step.Bad? ==> r.error == step.error && !finalized)
              && (step.Final? ==> finalized && inner == [])
              && (step.Data? ==>
                    !finalized && inner == step.rest && sequence == old(sequence) + 1 && Unread() == step.chunk)
    {
      var header := ReadExact(FRAME_HEADER_LENGTH);
      if header.Err? {
        return Err(Truncated);
      }
      var frameType := header.value[0];
      var frameSequence := Value(header.value[1..5]);
      var length := Value(header.value[5..9]);
      if frameSequence != sequence {
        return Err(FrameOrder);
      }
      if frameType != DATA_FRAME && frameType != FINAL_FRAME {
        return Err(FrameType);
      }
      if length > CHUNK_SIZE || (frameType == FINAL_FRAME && length != 0) {
        return Err(FrameLength);
      }
      var ciphertext := ReadExact(length + TAG_LENGTH);
      if ciphertext.Err? {
        return Err(Truncated);
      }
      ghost var end := FRAME_HEADER_LENGTH + length + TAG_LENGTH;
      assert ciphertext.value == old(inner)[FRAME_HEADER_LENGTH..end] && inner == old(inner)[end..];
      var associatedData := fileHeader + header.value;
      var nonce := NonceBytes(nonceSeed, sequence);
      if nonce.Err? {
        return Err(NonceOverflow);
      }
      var unsealed := cipher.open(nonce.value, associatedData, ciphertext.value);
      if unsealed.None? {
        return Err(AuthenticationFailed);
      }
      if sequence == U32_MAX {
        return Err(SequenceOverflow);
      }
      sequence := sequence + 1;
      if frameType == FINAL_FRAME {
        if inner != [] {
          inner := inner[1..];
          return Err(TrailingData);
        }
        finalized := true;
        plaintext := [];
      } else {
        plaintext := unsealed.value;
        plaintextOffset := 0;
      }
      return Ok(());
    }

    /** Serves bytes for any buffer: nothing is lost, reordered or invented, zero bytes mean the clean
        end of the stream and only that, and an error is reported once every byte before it is served. */
    method Read(output: array<byte>) returns (r: Result<nat, Error>)
      requires Valid()
      modifies this, output
      ensures Valid()
      ensures r.Ok? ==> r.value <= output.Length && output[r.value..] == old(output[r.value..])
      ensures r.Ok? ==> output[..r.value] + Future() == old(Future()) && End() == old(End())
      ensures output.Length == 0 ==> r == Ok(0)
      ensures output.Length > 0 ==> (r.Err? <==> old(Future()) == [] && old(End()).Some?)
      ensures output.Length > 0 ==> (r == Ok(0) <==> old(Future()) == [] && old(End()).None?)
      ensures r == Ok(0) && output.Length > 0 ==> finalized
      ensures r.Err? ==> old(End()) == Some(r.error) && output[..] == old(output[..])
    {
      if output.Length == 0 {
        return Ok(0);
      }
      while plaintextOffset >= |plaintext| && !finalized
        invariant Valid() && Future() == old(Future()) && End() == old(End())
        invariant output[..] == old(output[..])
        decreases |inner| + if finalized then 0 else 1
      {
        hide NextFrame;
        ghost var rest, number := inner, sequence;
        assert Ahead() == Drain(cipher, nonceSeed, rest, number);
        var next := ReadNextFrame();
        if next.Err? {
          return Err(next.error);
        }
      }
      if finalized {
        return Ok(0);
      }
      var length := Serve(output);
      return Ok(length);
    }

    /** Copies as much of the current chunk as fits into the buffer. */
    method Serve(output: array<byte>) returns (length: nat)
      requires Valid() && !finalized && plaintextOffset < |plaintext| && output.Length > 0
      modifies `plaintextOffset, output
      ensures Valid() && 0 < length <= output.Length && output[length..] == old(output[length..])
      ensures output[..length] + Future() == old(Future()) && old(Future()) != [] && End() == old(End())
    {
      hide Drain, Concat;
      var remaining := plaintext[plaintextOffset..];
      length := if |remaining| <= output.Length then |remaining| else output.Length;
      forall k | 0 <= k < length {
        output[k] := remaining[k];
      }
      plaintextOffset := plaintextOffset + length;
      assert output[..length] == remaining[..length] && Unread() == remaining[length..];
      PieceAndRest(remaining, length, Concat(Ahead().chunks));
    }

    /** A read into a buffer of the given size, and what it brought. */
    method ReadSome(size: nat) returns (r: Result<bytes, Error>)
      requires Valid()
      modifies this
      ensures Valid()
      ensures r.Ok? ==> |r.value| <= size && r.value + Future() == old(Future()) && End() == old(End())
      ensures r.Ok? ==> (r.value == [] <==> size == 0 || (old(Future()) == [] && old(End()).None?))
      ensures r.Err? ==> old(Future()) == [] && old(End()) == Some(r.error)
    {
      hide Drain, Concat;
      var buffer := new byte[size](i => 0);
      var got := Read(buffer);
      if got.Err? {
        return Err(got.error);
      }
      return Ok(buffer[..got.value]);
    }

    /** Drains the reader through a buffer, as `io::copy` into a sink does, and then asks whether the
        final frame was seen. The last question never changes the answer. */
    method VerifyFinished() returns (r: Result<(), Error>)
      requires Valid()
      modifies this
      ensures r.Ok? <==> old(End()).None?
      ensures r.Err? ==> old(End()) == Some(r.error)
    {
      var buffer := new byte[0x2000](i => 0);
      var copied := 1;
      while copied > 0
        invariant Valid() && End() == old(End()) && fresh(buffer) && buffer.Length == 0x2000
        invariant copied == 0 ==> finalized && End().None?
        decreases |Future()| + copied
      {
        var got := Read(buffer);
        if got.Err? {
          return Err(got.error);
        }
        copied := got.value;
      }
      if !finalized {
        return Err(Truncated);
      }
      return Ok(());
    }
  }

  /** A read into a nonempty buffer comes back empty exactly when everything was served before it and the
      end is clean. */
  ghost predicate ZeroExactlyAtEnd(served: seq<bytes>, sizes: seq<nat>, whole: bytes, end: Option<Error>)
    requires |served| <= |sizes|
  {
    forall i :: 0 <= i < |served| ==>
        (served[i] == [] <==> sizes[i] == 0 || (Concat(served[..i]) == whole && end.None?))
  }

  /** No read brings more than its buffer holds. */
  ghost predicate WithinSizes(served: seq<bytes>, sizes: seq<nat>)
    requires |served| <= |sizes|
  {
    forall i :: 0 <= i < |served| ==> |served[i]| <= sizes[i]
  }

  lemma Account(front: bytes, piece: bytes, before: bytes, after: bytes, whole: bytes)
    requires front + before == whole && piece + after == before
    ensures (front + piece) + after == whole && (front == whole <==> before == [])
  {
    assert (front + piece) + after == front + (piece + after);
    assert |whole| == |front| + |before|;
  }

  lemma RefusedHoldsNothing(cipher: Aead, input: bytes, error: Error)
    requires Decode(cipher, input) == Transcript([], Some(error))
    ensures Plaintext(cipher, input) == []
  {
    hide Decode;
  }

  lemma NothingServedYet(sizes: seq<nat>, whole: bytes, end: Option<Error>)
    ensures Concat([]) == [] && ZeroExactlyAtEnd([], sizes, whole, end) && WithinSizes([], sizes)
  {
  }

  lemma OneMoreWithinSize(served: seq<bytes>, sizes: seq<nat>, piece: bytes)
    requires |served| < |sizes| && WithinSizes(served, sizes) && |piece| <= sizes[|served|]
    ensures WithinSizes(served + [piece], sizes)
  {
    hide Concat;
  }

  lemma OneMoreZeroAtEnd(served: seq<bytes>, sizes: seq<nat>, piece: bytes, whole: bytes, end: Option<Error>)
    requires |served| < |sizes| && ZeroExactlyAtEnd(served, sizes, whole, end)
    requires piece == [] <==> sizes[|served|] == 0 || (Concat(served) == whole && end.None?)
    ensures ZeroExactlyAtEnd(served + [piece], sizes, whole, end)
  {
    hide Concat;
    var longer := served + [piece];
    forall i | 0 <= i < |longer|
      ensures longer[i] == [] <==> sizes[i] == 0 || (Concat(longer[..i]) == whole && end.None?)
    {
      assert longer[..i] == served[..i];
      if i == |served| {
        assert served[..i] == served;
      }
    }
  }

  /** Serving `piece` of what was to come keeps the account straight. */
  lemma ServedOneMore(served: seq<bytes>, sizes: seq<nat>, piece: bytes, before: bytes, after: bytes,
                      whole: bytes, end: Option<Error>)
    requires Concat(served) + before == whole && piece + after == before && |served| < |sizes|
    requires ZeroExactlyAtEnd(served, sizes, whole, end) && WithinSizes(served, sizes) && |piece| <= sizes[|served|]
    requires piece == [] <==> sizes[|served|] == 0 || (before == [] && end.None?)
    ensures Concat(served + [piece]) + after == whole
    ensures ZeroExactlyAtEnd(served + [piece], sizes, whole, end) && WithinSizes(served + [piece], sizes)
  {
    hide Concat, ZeroExactlyAtEnd, WithinSizes;
    ConcatSnoc(served, piece);
    Account(Concat(served), piece, before, after, whole);
    OneMoreWithinSize(served, sizes, piece);
    OneMoreZeroAtEnd(served, sizes, piece, whole, end);
  }

  /** Every run of the reader: any list of buffers, then `verify_finished`. The bytes served are those of
      the functional reader, however they are split; reads into nonempty buffers return zero bytes from the
      clean end on and never before it; and the final verdict is the functional reader's. */
  method ReadStream(cipher: Aead, input: bytes, sizes: seq<nat>) returns (served: seq<bytes>, end: Option<Error>)
    ensures end == Decode(cipher, input).end
    ensures Concat(served) <= Plaintext(cipher, input)
    ensures |served| <= |sizes| && WithinSizes(served, sizes)
    ensures ZeroExactlyAtEnd(served, sizes, Plaintext(cipher, input), end)
    ensures |served| < |sizes| ==> end.Some? && Concat(served) == Plaintext(cipher, input)
  {
    hide Decode, Drain, HeaderError, Concat, ZeroExactlyAtEnd, WithinSizes, Plaintext;
    served := [];
    ghost var whole, last := Plaintext(cipher, input), Decode(cipher, input).end;
    NothingServedYet(sizes, whole, last);
    var unsealed := VaultReader.New(cipher, input);
    if unsealed.Err? {
      RefusedHoldsNothing(cipher, input, unsealed.error);
      return served, Some(unsealed.error);
    }
    var reader := unsealed.value;
    for k := 0 to |sizes|
      invariant reader.Valid() && fresh(reader) && reader.End() == last
      invariant |served| == k && Concat(served) + reader.Future() == whole
      invariant WithinSizes(served, sizes) && ZeroExactlyAtEnd(served, sizes, whole, last)
    {
      ghost var future := reader.Future();
      var got := reader.ReadSome(sizes[k]);
      if got.Err? {
        return served, Some(got.error);
      }
      ServedOneMore(served, sizes, got.value, future, reader.Future(), whole, last);
      served := served + [got.value];
    }
    var verified := reader.VerifyFinished();
    end := if verified.Err? then Some(verified.error) else None;
  }
}
