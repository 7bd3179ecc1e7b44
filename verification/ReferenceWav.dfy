/** The strict parser for reference recordings, and the WAV writer it reads back.

    A RIFF file is a header and a body of chunks: a four-byte identifier, a
    little-endian 32-bit size, the payload, and one pad byte if the size is odd
    (Multimedia Programming Interface and Data Specifications 1.0, chapter 2). */
module ReferenceWav {
  import opened Bytes
  import opened Wrappers

  datatype Result<+T> = Ok(value: T) | Err(error: Error)

  datatype Error =
    | NotRiff | BadRiffLength | TruncatedHeader | TruncatedChunk
    | MultipleFmt | ShortFmt | MultipleData | MissingChunks
    | NoContract | NotPcm16 | ContractMismatch | BadMetadata | Misaligned

  const RIFF: seq<byte> := [0x52, 0x49, 0x46, 0x46]
  const WAVE: seq<byte> := [0x57, 0x41, 0x56, 0x45]
  const FMT: seq<byte> := [0x66, 0x6D, 0x74, 0x20]
  const DATA: seq<byte> := [0x64, 0x61, 0x74, 0x61]

  // ---------------------------------------------------------------- the format

  datatype Chunk = Chunk(id: seq<byte>, payload: seq<byte>, pad: seq<byte>)
  {
    predicate Valid() {
      |id| == 4 && |payload| < 0x1_0000_0000 && |pad| == |payload| % 2
    }

    function Bytes(): (b: seq<byte>)
      requires Valid()
      ensures |b| == 8 + |payload| + |payload| % 2
    {
      id + PutLe32(|payload|) + payload + pad
    }
  }

  predicate AllValid(chunks: seq<Chunk>) {
    forall k :: 0 <= k < |chunks| ==> chunks[k].Valid()
  }

  function Body(chunks: seq<Chunk>): seq<byte>
    requires AllValid(chunks)
  {
    if chunks == [] then [] else chunks[0].Bytes() + Body(chunks[1..])
  }

  /** `data` is a RIFF/WAVE file made of exactly these chunks. */
  predicate IsRiff(data: seq<byte>, chunks: seq<Chunk>) {
    && AllValid(chunks)
    && 4 + |Body(chunks)| < 0x1_0000_0000
    && data == RIFF + PutLe32(4 + |Body(chunks)|) + WAVE + Body(chunks)
  }

  /** Exactly one chunk has this identifier, and this is its payload; or none has. */
  ghost predicate Picks(chunks: seq<Chunk>, id: seq<byte>, payload: Option<seq<byte>>) {
    match payload
    case None => forall k :: 0 <= k < |chunks| ==> chunks[k].id != id
    case Some(p) => exists k :: OnlyAt(chunks, id, p, k)
  }

  /** Chunk `k` is the only one with this identifier. */
  predicate OnlyAt(chunks: seq<Chunk>, id: seq<byte>, p: seq<byte>, k: nat) {
    k < |chunks| && chunks[k].id == id && chunks[k].payload == p
    && forall m :: 0 <= m < |chunks| && m != k ==> chunks[m].id != id
  }

  /** Sample rate and channel count the active codec demands. */
  datatype Contract = Contract(rate: nat, channels: nat)

  /** What a `fmt ` payload and the audio must satisfy. */
  predicate Meets(contract: Contract, fmt: seq<byte>, pcm: seq<byte>) {
    && |fmt| >= 16
    && Le16(fmt, 0) == 1 && Le16(fmt, 14) == 16
    && Le16(fmt, 2) == contract.channels && Le32(fmt, 4) == contract.rate
    && Le16(fmt, 12) == contract.channels * 2
    && Le32(fmt, 8) == contract.rate * (contract.channels * 2)
    && pcm != [] && contract.channels > 0 && |pcm| % (contract.channels * 2) == 0
  }

  // ---------------------------------------------------------------- the parser

  type Found = (Option<seq<byte>>, Option<seq<byte>>)

  /** The chunk loop, from the bytes still to be read and what has been found. */
  function Scan(rest: seq<byte>, fmt: Option<seq<byte>>, pcm: Option<seq<byte>>): Result<Found>
    decreases |rest|
  {
    if rest == [] then Ok((fmt, pcm))
    else if |rest| < 8 then Err(TruncatedHeader)
    else
      var size := Le32(rest, 4);
      var padded := 8 + size + size % 2;
      if padded > |rest| then Err(TruncatedChunk)
      else
        var id, payload := rest[..4], rest[8..8 + size];
        if id == FMT then
          if fmt.Some? then Err(MultipleFmt)
          else if size < 16 then Err(ShortFmt)
          else Scan(rest[padded..], Some(payload), pcm)
        else if id == DATA then
          if pcm.Some? then Err(MultipleData) else Scan(rest[padded..], fmt, Some(payload))
        else Scan(rest[padded..], fmt, pcm)
  }

  function CheckFormat(found: Found, contract: Option<Contract>): Result<(seq<byte>, nat)>
    requires found.0.Some? ==> |found.0.value| >= 16
  {
    if found.0.None? || found.1.None? then Err(MissingChunks)
    else
      var fmt, pcm := found.0.value, found.1.value;
      var channels, rate := Le16(fmt, 2), Le32(fmt, 4);
      var align := Le16(fmt, 12);
      if contract.None? then Err(NoContract)
      else if Le16(fmt, 0) != 1 || Le16(fmt, 14) != 16 then Err(NotPcm16)
      else if channels != contract.value.channels || rate != contract.value.rate then Err(ContractMismatch)
      else if align != channels * 2 || Le32(fmt, 8) != rate * align then Err(BadMetadata)
      else if pcm == [] || align == 0 || |pcm| % align != 0 then Err(Misaligned)
      else Ok((pcm, rate))
  }

  predicate Tagged(data: seq<byte>) {
    |data| >= 12 && data[..4] == RIFF && data[8..12] == WAVE
  }

  predicate HeaderOk(data: seq<byte>) { Tagged(data) && Le32(data, 4) + 8 == |data| }

  function ParseWav(data: seq<byte>, contract: Option<Contract>): Result<(seq<byte>, nat)> {
    if !Tagged(data) then Err(NotRiff)
    else if !HeaderOk(data) then Err(BadRiffLength)
    else
      var found := Scan(data[12..], None, None);
      if found.Err? then Err(found.error)
      else
        ScanFmtLength(data[12..], None, None);
        CheckFormat(found.value, contract)
  }

  lemma {:induction false} ScanFmtLength(rest: seq<byte>, fmt: Option<seq<byte>>, pcm: Option<seq<byte>>)
    requires fmt.Some? ==> |fmt.value| >= 16
    requires Scan(rest, fmt, pcm).Ok?
    ensures var f := Scan(rest, fmt, pcm).value.0; f.Some? ==> |f.value| >= 16
    decreases |rest|
  {
    if rest != [] {
      var size := Le32(rest, 4);
      var next := rest[8 + size + size % 2..];
      if rest[..4] == FMT {
        ScanFmtLength(next, Some(rest[8..8 + size]), pcm);
      } else if rest[..4] == DATA {
        ScanFmtLength(next, fmt, Some(rest[8..8 + size]));
      } else {
        ScanFmtLength(next, fmt, pcm);
      }
    }
  }

  /** The chunk at `offset`, read in place and read from the rest of the file. */
  lemma ReadInPlace(data: seq<byte>, offset: nat)
    requires offset + 8 <= |data|
    ensures var rest, size := data[offset..], Le32(data, offset + 4);
            && Le32(rest, 4) == size && rest[..4] == data[offset..offset + 4]
            && (offset + 8 + size + size % 2 <= |data| ==>
                  rest[8..8 + size] == data[offset + 8..offset + 8 + size]
                  && rest[8 + size + size % 2..] == data[offset + 8 + size + size % 2..])
  {}

  /** A chunk read in place: identifier, payload, and where the next one starts. */
  function ChunkAt(data: seq<byte>, offset: nat): Option<(seq<byte>, seq<byte>, nat)>
    requires offset + 8 <= |data|
  {
    var size := Le32(data, offset + 4);
    var next := offset + 8 + size + size % 2;
    if next > |data| then None
    else Some((data[offset..offset + 4], data[offset + 8..offset + 8 + size], next))
  }

  lemma ScanHeader(data: seq<byte>, offset: nat, fmt: Option<seq<byte>>, pcm: Option<seq<byte>>)
    requires offset < |data|
    ensures offset + 8 > |data| ==> Scan(data[offset..], fmt, pcm) == Err(TruncatedHeader)
    ensures offset + 8 <= |data| && ChunkAt(data, offset).None? ==> Scan(data[offset..], fmt, pcm) == Err(TruncatedChunk)
  {
    if offset + 8 <= |data| { ReadInPlace(data, offset); }
    hide Le32;
  }

  function Accept(id: seq<byte>, payload: seq<byte>, fmt: Option<seq<byte>>, pcm: Option<seq<byte>>): Result<Found> {
    if id == FMT then
      if fmt.Some? then Err(MultipleFmt)
      else if |payload| < 16 then Err(ShortFmt)
      else Ok((Some(payload), pcm))
    else if id == DATA then
      if pcm.Some? then Err(MultipleData) else Ok((fmt, Some(payload)))
    else Ok((fmt, pcm))
  }

  lemma ScanTurn(data: seq<byte>, offset: nat, fmt: Option<seq<byte>>, pcm: Option<seq<byte>>)
    requires offset + 8 <= |data| && ChunkAt(data, offset).Some?
    ensures var (id, payload, next) := ChunkAt(data, offset).value;
            var found := Accept(id, payload, fmt, pcm);
            Scan(data[offset..], fmt, pcm)
            == if found.Err? then Err(found.error) else Scan(data[next..], found.value.0, found.value.1)
  {
    hide Le32;
    ReadInPlace(data, offset);
  }

  lemma ScanNothing(fmt: Option<seq<byte>>, pcm: Option<seq<byte>>)
    ensures Scan([], fmt, pcm) == Ok((fmt, pcm))
  {
  }

  /** The chunk loop: one pass with a moving offset that never reads outside the
      buffer. */
  method ScanChunks(data: seq<byte>) returns (r: Result<Found>)
    requires |data| >= 12
    ensures r == Scan(data[12..], None, None)
    ensures r.Ok? && r.value.0.Some? ==> |r.value.0.value| >= 16
  {
    var riffEnd := |data|;
    var fmt: Option<seq<byte>>, pcm: Option<seq<byte>> := None, None;
    var offset := 12;
    hide Le32, Scan;
    while offset < riffEnd
      invariant 12 <= offset <= riffEnd == |data|
      invariant fmt.Some? ==> |fmt.value| >= 16
      invariant Scan(data[12..], None, None) == Scan(data[offset..], fmt, pcm)
      decreases riffEnd - offset
    {
      ScanHeader(data, offset, fmt, pcm);
      if offset + 8 > riffEnd {
        return Err(TruncatedHeader);
      }
      var chunkId := data[offset..offset + 4];
      var size := Le32(data, offset + 4);
      var start := offset + 8;
      var end := start + size;
      var paddedEnd := end + size % 2;
      if end > riffEnd || paddedEnd > riffEnd {
        return Err(TruncatedChunk);
      }
      assert ChunkAt(data, offset) == Some((chunkId, data[start..end], paddedEnd));
      ScanTurn(data, offset, fmt, pcm);
      hide ChunkAt;
      if chunkId == FMT {
        if fmt.Some? {
          return Err(MultipleFmt);
        }
        if size < 16 {
          return Err(ShortFmt);
        }
        fmt := Some(data[start..end]);
      } else if chunkId == DATA {
        if pcm.Some? {
          return Err(MultipleData);
        }
        pcm := Some(data[start..end]);
      }
      offset := paddedEnd;
    }
    assert data[offset..] == [];
    ScanNothing(fmt, pcm);
    r := Ok((fmt, pcm));
  }

  /** The parser as the handler runs it. */
  method Parse(data: seq<byte>, contract: Option<Contract>) returns (r: Result<(seq<byte>, nat)>)
    ensures r == ParseWav(data, contract)
  {
    hide Le32, CheckFormat, Scan;
    if |data| < 12 || data[..4] != RIFF || data[8..12] != WAVE {
      return Err(NotRiff);
    }
    var riffSize := Le32(data, 4);
    if riffSize < 4 || riffSize + 8 != |data| {
      return Err(BadRiffLength);
    }
    var found := ScanChunks(data);
    if found.Err? {
      return Err(found.error);
    }
    r := CheckFormat(found.value, contract);
  }

  // ---------------------------------------------------------------- exactness

  /** Extends what has been found by what the chunks contribute. */
  ghost predicate Extends(chunks: seq<Chunk>, id: seq<byte>, before: Option<seq<byte>>, after: Option<seq<byte>>) {
    if before.Some? then after == before && Picks(chunks, id, None) else Picks(chunks, id, after)
  }

  lemma PicksNoneCons(c: Chunk, chunks: seq<Chunk>, id: seq<byte>)
    ensures Picks([c] + chunks, id, None) <==> c.id != id && Picks(chunks, id, None)
  {
    var all := [c] + chunks;
    if c.id != id && Picks(chunks, id, None) {
      forall k | 0 <= k < |all| ensures all[k].id != id {
        if k > 0 { assert all[k] == chunks[k - 1]; }
      }
    }
    if Picks(all, id, None) {
      assert all[0] == c;
      forall k | 0 <= k < |chunks| ensures chunks[k].id != id {
        assert all[k + 1] == chunks[k];
      }
    }
  }

  lemma PicksHit(c: Chunk, chunks: seq<Chunk>, id: seq<byte>, p: seq<byte>)
    requires c.id == id
    ensures Picks([c] + chunks, id, Some(p)) <==> p == c.payload && Picks(chunks, id, None)
  {
    var all := [c] + chunks;
    assert forall k :: 0 <= k < |chunks| ==> all[k + 1] == chunks[k];
    assert all[0] == c;
    if p == c.payload && Picks(chunks, id, None) {
      assert OnlyAt(all, id, p, 0);
    }
    if Picks(all, id, Some(p)) {
      var k :| OnlyAt(all, id, p, k);
      assert k == 0;
      forall m | 0 <= m < |chunks| ensures chunks[m].id != id { assert all[m + 1] == chunks[m]; }
    }
  }

  lemma OnlyAtCons(c: Chunk, chunks: seq<Chunk>, id: seq<byte>, p: seq<byte>, k: nat)
    requires c.id != id
    ensures OnlyAt([c] + chunks, id, p, k + 1) <==> OnlyAt(chunks, id, p, k)
  {
    var all := [c] + chunks;
    if OnlyAt(chunks, id, p, k) {
      assert all[k + 1] == chunks[k];
      forall m | 0 <= m < |all| && m != k + 1 ensures all[m].id != id {
        if m > 0 { assert all[m] == chunks[m - 1]; }
      }
    }
    if OnlyAt(all, id, p, k + 1) {
      assert chunks[k] == all[k + 1];
      forall m | 0 <= m < |chunks| && m != k ensures chunks[m].id != id {
        assert all[m + 1] == chunks[m];
      }
    }
  }

  lemma PicksMiss(c: Chunk, chunks: seq<Chunk>, id: seq<byte>, p: seq<byte>)
    requires c.id != id
    ensures Picks([c] + chunks, id, Some(p)) <==> Picks(chunks, id, Some(p))
  {
    if Picks([c] + chunks, id, Some(p)) {
      var k: nat :| OnlyAt([c] + chunks, id, p, k);
      assert ([c] + chunks)[0] == c;
      OnlyAtCons(c, chunks, id, p, k - 1);
    }
    if Picks(chunks, id, Some(p)) {
      var k :| OnlyAt(chunks, id, p, k);
      OnlyAtCons(c, chunks, id, p, k);
    }
  }

  lemma PicksCons(c: Chunk, chunks: seq<Chunk>, id: seq<byte>, before: Option<seq<byte>>, after: Option<seq<byte>>)
    ensures Extends([c] + chunks, id, before, after) <==>
            if c.id == id then before.None? && Extends(chunks, id, Some(c.payload), after)
            else Extends(chunks, id, before, after)
  {
    hide Picks;
    PicksNoneCons(c, chunks, id);
    if after.Some? {
      if c.id == id {
        PicksHit(c, chunks, id, after.value);
      } else {
        PicksMiss(c, chunks, id, after.value);
      }
    }
  }

  function FirstChunk(rest: seq<byte>): (c: Chunk)
    requires |rest| >= 8 && 8 + Le32(rest, 4) + Le32(rest, 4) % 2 <= |rest|
    ensures c.Valid()
  {
    var size := Le32(rest, 4);
    Chunk(rest[..4], rest[8..8 + size], rest[8 + size..8 + size + size % 2])
  }

  lemma FirstChunkBytes(rest: seq<byte>)
    requires |rest| >= 8 && 8 + Le32(rest, 4) + Le32(rest, 4) % 2 <= |rest|
    ensures var c := FirstChunk(rest);
            var n := 8 + |c.payload| + |c.payload| % 2;
            rest == c.Bytes() + rest[n..]
  {
    var c := FirstChunk(rest);
    PutLe32OfLe32(rest[4..8]);
    assert PutLe32(|c.payload|) == rest[4..8];
  }

  /** Everything the scan reads is a chunk of the body. */
  lemma {:induction false} ScanSound(rest: seq<byte>, fmt: Option<seq<byte>>, pcm: Option<seq<byte>>) returns (chunks: seq<Chunk>)
    requires Scan(rest, fmt, pcm).Ok?
    ensures AllValid(chunks) && Body(chunks) == rest
    ensures var found := Scan(rest, fmt, pcm).value;
            Extends(chunks, FMT, fmt, found.0) && Extends(chunks, DATA, pcm, found.1)
    decreases |rest|
  {
    if rest == [] {
      chunks := [];
    } else {
      FirstChunkBytes(rest);
      var c := FirstChunk(rest);
      var next := rest[8 + |c.payload| + |c.payload| % 2..];
      var fmt' := if c.id == FMT then Some(c.payload) else fmt;
      var pcm' := if c.id == DATA then Some(c.payload) else pcm;
      var tail := ScanSound(next, fmt', pcm');
      chunks := [c] + tail;
      assert chunks[1..] == tail;
      var found := Scan(rest, fmt, pcm).value;
      assert found == Scan(next, fmt', pcm').value;
      PicksCons(c, tail, FMT, fmt, found.0);
      PicksCons(c, tail, DATA, pcm, found.1);
    }
  }

  lemma ChunkIsFirst(c: Chunk, next: seq<byte>)
    requires c.Valid()
    ensures var rest := c.Bytes() + next;
            && |rest| >= 8 && Le32(rest, 4) == |c.payload| && rest[..4] == c.id
            && rest[8..8 + |c.payload|] == c.payload
            && rest[8 + |c.payload| + |c.payload| % 2..] == next
  {
    var rest := c.Bytes() + next;
    var size := PutLe32(|c.payload|);
    assert rest[4] == size[0] && rest[5] == size[1] && rest[6] == size[2] && rest[7] == size[3];
    assert Le32(rest, 4) == Le32(size, 0);
  }

  /** One turn of the loop on a body that starts with chunk `c`. */
  lemma ScanStep(c: Chunk, next: seq<byte>, fmt: Option<seq<byte>>, pcm: Option<seq<byte>>)
    requires c.Valid()
    ensures var found := Accept(c.id, c.payload, fmt, pcm);
            Scan(c.Bytes() + next, fmt, pcm)
            == if found.Err? then Err(found.error) else Scan(next, found.value.0, found.value.1)
  {
    ChunkIsFirst(c, next);
  }

  /** Every body of chunks with at most one `fmt ` and one `data` is read, and
      yields their payloads. */
  lemma {:induction false} ScanComplete(chunks: seq<Chunk>, fmt: Option<seq<byte>>, pcm: Option<seq<byte>>, found: Found)
    requires AllValid(chunks)
    requires Extends(chunks, FMT, fmt, found.0) && Extends(chunks, DATA, pcm, found.1)
    requires forall k :: 0 <= k < |chunks| && chunks[k].id == FMT ==> |chunks[k].payload| >= 16
    ensures Scan(Body(chunks), fmt, pcm) == Ok(found)
    decreases chunks
  {
    if chunks != [] {
      hide Extends;
      var c, tail := chunks[0], chunks[1..];
      assert chunks == [c] + tail;
      ScanStep(c, Body(tail), fmt, pcm);
      assert Body(chunks) == c.Bytes() + Body(tail);
      PicksCons(c, tail, FMT, fmt, found.0);
      PicksCons(c, tail, DATA, pcm, found.1);
      assert FMT[0] != DATA[0];
      hide Scan, Chunk.Bytes;
      var fmt' := if c.id == FMT then Some(c.payload) else fmt;
      var pcm' := if c.id == DATA then Some(c.payload) else pcm;
      ScanComplete(tail, fmt', pcm', found);
    }
  }

  /** A file the parser must accept: RIFF/WAVE chunks tile it, with exactly one
      `fmt ` that meets the contract and exactly one frame-aligned `data`. */
  ghost predicate Acceptable(data: seq<byte>, contract: Contract, pcm: seq<byte>, rate: nat) {
    exists chunks, fmt ::
      IsRiff(data, chunks) && Picks(chunks, FMT, Some(fmt)) && Picks(chunks, DATA, Some(pcm))
      && Meets(contract, fmt, pcm) && rate == contract.rate
  }

  lemma RiffHeader(data: seq<byte>, chunks: seq<Chunk>)
    requires AllValid(chunks) && |data| >= 12 && data[12..] == Body(chunks)
    ensures HeaderOk(data) <==> IsRiff(data, chunks)
  {
    var body := Body(chunks);
    if HeaderOk(data) {
      assert Le32(data, 4) == 4 + |body|;
      PutLe32OfLe32(data[4..8]);
      assert data == data[..4] + data[4..8] + data[8..12] + data[12..];
    }
    if IsRiff(data, chunks) {
      var size := PutLe32(4 + |body|);
      assert data[4] == size[0] && data[5] == size[1] && data[6] == size[2] && data[7] == size[3];
      assert Le32(data, 4) == Le32(size, 0);
    }
  }

  lemma FmtIsLong(chunks: seq<Chunk>, fmt: seq<byte>)
    requires Picks(chunks, FMT, Some(fmt)) && |fmt| >= 16
    ensures forall k :: 0 <= k < |chunks| && chunks[k].id == FMT ==> |chunks[k].payload| >= 16
  {}

  lemma CheckFormatExact(found: Found, contract: Contract, pcm: seq<byte>, rate: nat)
    requires contract.channels > 0 && (found.0.Some? ==> |found.0.value| >= 16)
    ensures CheckFormat(found, Some(contract)) == Ok((pcm, rate))
            <==> found.0.Some? && found.1 == Some(pcm) && rate == contract.rate && Meets(contract, found.0.value, pcm)
  {}

  lemma ParserSound(data: seq<byte>, contract: Contract, pcm: seq<byte>, rate: nat)
    requires contract.channels > 0 && ParseWav(data, Some(contract)) == Ok((pcm, rate))
    ensures Acceptable(data, contract, pcm, rate)
  {
    var chunks := ScanSound(data[12..], None, None);
    RiffHeader(data, chunks);
    ScanFmtLength(data[12..], None, None);
    var found := Scan(data[12..], None, None).value;
    hide IsRiff, Scan, Body, AllValid;
    CheckFormatExact(found, contract, pcm, rate);
    hide CheckFormat, Meets, Picks;
    assert IsRiff(data, chunks) && Picks(chunks, FMT, Some(found.0.value)) && Picks(chunks, DATA, Some(pcm));
  }

  lemma ParserComplete(data: seq<byte>, contract: Contract, chunks: seq<Chunk>, fmt: seq<byte>, pcm: seq<byte>)
    requires contract.channels > 0 && IsRiff(data, chunks) && Meets(contract, fmt, pcm)
    requires Picks(chunks, FMT, Some(fmt)) && Picks(chunks, DATA, Some(pcm))
    ensures ParseWav(data, Some(contract)) == Ok((pcm, contract.rate))
  {
    assert data[12..] == Body(chunks);
    RiffHeader(data, chunks);
    FmtIsLong(chunks, fmt) by { hide IsRiff, Picks; }
    hide IsRiff, Picks, Scan;
    ScanComplete(chunks, None, None, (Some(fmt), Some(pcm)));
    CheckFormatExact((Some(fmt), Some(pcm)), contract, pcm, contract.rate);
    hide CheckFormat;
  }

  /** Sound and complete: the parser returns this payload and rate exactly when
      the input is an acceptable file with that payload and rate. */
  lemma ParserExact(data: seq<byte>, contract: Contract, pcm: seq<byte>, rate: nat)
    requires contract.channels > 0
    ensures ParseWav(data, Some(contract)) == Ok((pcm, rate)) <==> Acceptable(data, contract, pcm, rate)
  {
    hide ParseWav, IsRiff, Picks, Meets;
    if ParseWav(data, Some(contract)) == Ok((pcm, rate)) {
      ParserSound(data, contract, pcm, rate);
    }
    if Acceptable(data, contract, pcm, rate) {
      var chunks, fmt :| IsRiff(data, chunks) && Picks(chunks, FMT, Some(fmt)) && Picks(chunks, DATA, Some(pcm))
                         && Meets(contract, fmt, pcm) && rate == contract.rate;
      ParserComplete(data, contract, chunks, fmt, pcm);
    }
  }

  // ---------------------------------------------------------------- the writer

  predicate Fits(pcm: seq<byte>, rate: nat, channels: nat) {
    channels * 2 < 0x1_0000 && rate < 0x1_0000_0000 && ByteRate(rate, channels) < 0x1_0000_0000
    && 36 + |pcm| < 0x1_0000_0000
  }

  function ByteRate(rate: nat, channels: nat): nat { rate * (channels * 2) }

  function FmtPayload(rate: nat, channels: nat): (fmt: seq<byte>)
    requires Fits([], rate, channels)
    ensures |fmt| == 16
  {
    PutLe16(1) + PutLe16(channels) + PutLe32(rate) + PutLe32(ByteRate(rate, channels))
    + PutLe16(channels * 2) + PutLe16(16)
  }

  /** `write_wav`; nothing is written if a field does not fit. */
  function WriteWav(pcm: seq<byte>, rate: nat, channels: nat): Option<seq<byte>> {
    if !Fits(pcm, rate, channels) then None
    else
      Some(RIFF + PutLe32(36 + |pcm|) + WAVE
           + FMT + PutLe32(16) + FmtPayload(rate, channels)
           + DATA + PutLe32(|pcm|) + pcm)
  }

  lemma Le16At(b: seq<byte>, at: nat, part: seq<byte>)
    requires |part| == 2 && at + 2 <= |b| && b[at..at + 2] == part
    ensures Le16(b, at) == Le16(part, 0)
  {
    assert b[at] == b[at..at + 2][0] && b[at + 1] == b[at..at + 2][1];
  }

  lemma Le32At(b: seq<byte>, at: nat, part: seq<byte>)
    requires |part| == 4 && at + 4 <= |b| && b[at..at + 4] == part
    ensures Le32(b, at) == Le32(part, 0)
  {
    assert b[at..at + 2] == part[0..2] && b[at + 2..at + 4] == part[2..4];
    Le16At(b, at, part[0..2]);
    Le16At(part, 0, part[0..2]);
    Le16At(b, at + 2, part[2..4]);
    Le16At(part, 2, part[2..4]);
  }

  lemma FmtFields(rate: nat, channels: nat)
    requires Fits([], rate, channels)
    ensures var fmt := FmtPayload(rate, channels);
            && Le16(fmt, 0) == 1 && Le16(fmt, 2) == channels && Le32(fmt, 4) == rate
            && Le32(fmt, 8) == ByteRate(rate, channels) && Le16(fmt, 12) == channels * 2 && Le16(fmt, 14) == 16
  {
    var fmt := FmtPayload(rate, channels);
    hide ByteRate;
    Le16At(fmt, 0, PutLe16(1));
    Le16At(fmt, 2, PutLe16(channels));
    Le32At(fmt, 4, PutLe32(rate));
    Le32At(fmt, 8, PutLe32(ByteRate(rate, channels)));
    Le16At(fmt, 12, PutLe16(channels * 2));
    Le16At(fmt, 14, PutLe16(16));
  }

  lemma HeaderThenBody(size: nat, body: seq<byte>)
    requires size < 0x1_0000_0000 && size == 4 + |body|
    ensures var data := RIFF + PutLe32(size) + WAVE + body; HeaderOk(data) && data[12..] == body
  {
    var number := PutLe32(size);
    hide PutLe32;
    var data := RIFF + number + WAVE + body;
    assert data[4..8] == number;
    Le32At(data, 4, number);
    assert data[..4] == RIFF && data[8..12] == WAVE;
  }

  lemma WrittenHeader(pcm: seq<byte>, rate: nat, channels: nat)
    requires Fits(pcm, rate, channels)
    ensures var data := WriteWav(pcm, rate, channels).value;
            HeaderOk(data)
            && data[12..] == Chunk(FMT, FmtPayload(rate, channels), []).Bytes() + (DATA + PutLe32(|pcm|) + pcm)
  {
    var fmt := FmtPayload(rate, channels);
    var body := Chunk(FMT, fmt, []).Bytes() + (DATA + PutLe32(|pcm|) + pcm);
    HeaderThenBody(36 + |pcm|, body);
    assert WriteWav(pcm, rate, channels).value == RIFF + PutLe32(36 + |pcm|) + WAVE + body by {
      hide FmtPayload, PutLe32, Fits;
      Reassociate(RIFF + PutLe32(36 + |pcm|) + WAVE, FMT + PutLe32(16) + fmt, DATA, PutLe32(|pcm|), pcm);
      Reassociate4(RIFF + PutLe32(36 + |pcm|) + WAVE, FMT, PutLe32(16), fmt);
    }
    hide WriteWav, HeaderOk, Fits, PutLe32, FmtPayload, Chunk.Bytes;
  }

  lemma Reassociate(a: seq<byte>, b: seq<byte>, c: seq<byte>, d: seq<byte>, e: seq<byte>)
    ensures a + b + c + d + e == a + (b + [] + (c + d + e))
  {
    assert b + [] == b;
    assert b + (c + d + e) == b + c + d + e;
  }

  lemma Reassociate4(a: seq<byte>, b: seq<byte>, c: seq<byte>, d: seq<byte>)
    ensures a + b + c + d == a + (b + c + d)
  {
  }

  /** The writer never pads: an odd payload is taken for a truncated chunk. */
  lemma ScanData(pcm: seq<byte>, fmt: seq<byte>)
    requires |pcm| < 0x1_0000_0000
    ensures Scan(DATA + PutLe32(|pcm|) + pcm, Some(fmt), None)
            == if |pcm| % 2 == 0 then Ok((Some(fmt), Some(pcm))) else Err(TruncatedChunk)
  {
    if |pcm| % 2 == 0 {
      hide Scan, PutLe32;
      ScanEven(pcm, fmt);
    } else {
      ScanOdd(pcm, fmt);
    }
  }

  lemma ScanEven(pcm: seq<byte>, fmt: seq<byte>)
    requires |pcm| < 0x1_0000_0000 && |pcm| % 2 == 0
    ensures Scan(DATA + PutLe32(|pcm|) + pcm, Some(fmt), None) == Ok((Some(fmt), Some(pcm)))
  {
    DataChunk(pcm);
    hide Chunk.Bytes, Scan, PutLe32;
    ScanStep(Chunk(DATA, pcm, []), [], Some(fmt), None);
    assert FMT[0] != DATA[0];
    ScanNothing(Some(fmt), Some(pcm));
  }

  lemma ScanOdd(pcm: seq<byte>, fmt: seq<byte>)
    requires |pcm| < 0x1_0000_0000 && |pcm| % 2 == 1
    ensures Scan(DATA + PutLe32(|pcm|) + pcm, Some(fmt), None) == Err(TruncatedChunk)
  {
    var size, rest := PutLe32(|pcm|), DATA + PutLe32(|pcm|) + pcm;
    Le32At(rest, 4, size);
    assert Le32(rest, 4) == |pcm|;
    hide Le32, PutLe32;
    assert rest != [] && |rest| == 8 + |pcm|;
  }

  lemma DataChunk(pcm: seq<byte>)
    requires |pcm| < 0x1_0000_0000 && |pcm| % 2 == 0
    ensures Chunk(DATA, pcm, []).Valid()
    ensures DATA + PutLe32(|pcm|) + pcm == Chunk(DATA, pcm, []).Bytes() + []
  {
    hide PutLe32;
    assert DATA + PutLe32(|pcm|) + pcm + [] + [] == DATA + PutLe32(|pcm|) + pcm;
  }

  /** What the scan makes of the writer's output. */
  lemma ScanWritten(pcm: seq<byte>, rate: nat, channels: nat)
    requires Fits(pcm, rate, channels)
    ensures var data := WriteWav(pcm, rate, channels).value;
            HeaderOk(data)
            && Scan(data[12..], None, None)
               == if |pcm| % 2 == 0 then Ok((Some(FmtPayload(rate, channels)), Some(pcm))) else Err(TruncatedChunk)
  {
    WrittenHeader(pcm, rate, channels);
    var fmt := FmtPayload(rate, channels);
    ScanStep(Chunk(FMT, fmt, []), DATA + PutLe32(|pcm|) + pcm, None, None);
    hide WriteWav, Scan, FmtPayload, HeaderOk, Chunk.Bytes;
    ScanData(pcm, fmt);
  }

  /** The parser inverts the writer exactly on non-empty, whole-frame audio of the
      contract's rate and channel count. */
  lemma RoundTrip(pcm: seq<byte>, rate: nat, channels: nat, contract: Contract)
    requires Fits(pcm, rate, channels) && contract.channels > 0
    ensures WriteWav(pcm, rate, channels).Some?
    ensures ParseWav(WriteWav(pcm, rate, channels).value, Some(contract)) == Ok((pcm, rate))
            <==> contract == Contract(rate, channels) && pcm != [] && |pcm| % (channels * 2) == 0
  {
    ScanWritten(pcm, rate, channels);
    FmtFields(rate, channels);
    var data := WriteWav(pcm, rate, channels).value;
    var fmt := FmtPayload(rate, channels);
    assert HeaderOk(data);
    if |pcm| % 2 == 0 { ScanFmtLength(data[12..], None, None); }
    hide WriteWav, Scan, FmtPayload, Fits;
    CheckFormatExact((Some(fmt), Some(pcm)), contract, pcm, rate);
    hide CheckFormat;
    if channels > 0 && |pcm| % (channels * 2) == 0 {
      EvenFrames(|pcm|, channels);
    }
  }

  lemma EvenFrames(length: nat, channels: nat)
    requires channels > 0 && length % (channels * 2) == 0
    ensures length % 2 == 0
  {
    var q := length / (channels * 2);
    assert length == q * (channels * 2);
    assert length == 2 * (q * channels);
  }
}
