/** What makes the reference recording parser refuse a file: the exact cause of
    each error, in terms of the chunks the file begins with. */
module ReferenceWavRefusals {
  import opened Bytes
  import opened ReferenceWav
  import opened Wrappers

  // ---------------------------------------------------------------- the chunk loop

  predicate Has(chunks: seq<Chunk>, id: seq<byte>) { exists c :: c in chunks && c.id == id }

  /** No chunk of these is refused: at most one long enough `fmt `, counting one
      seen before, and at most one `data`. */
  predicate Fine(chunks: seq<Chunk>, seenFmt: bool, seenData: bool) {
    chunks == []
    || (&& (chunks[0].id == FMT ==> !seenFmt && |chunks[0].payload| >= 16)
        && (chunks[0].id == DATA ==> !seenData)
        && Fine(chunks[1..], seenFmt || chunks[0].id == FMT, seenData || chunks[0].id == DATA))
  }

  /** A whole chunk stands here. */
  predicate Whole(rest: seq<byte>) {
    |rest| >= 8 && 8 + Le32(rest, 4) + Le32(rest, 4) % 2 <= |rest|
  }

  /** What is wrong with the bytes that follow chunks with or without a `fmt ` and
      a `data`. */
  predicate Faulty(rest: seq<byte>, seenFmt: bool, seenData: bool, e: Error) {
    match e
    case TruncatedHeader => 0 < |rest| < 8
    case TruncatedChunk => |rest| >= 8 && !Whole(rest)
    case MultipleFmt => Whole(rest) && rest[..4] == FMT && seenFmt
    case ShortFmt => Whole(rest) && rest[..4] == FMT && !seenFmt && Le32(rest, 4) < 16
    case MultipleData => Whole(rest) && rest[..4] == DATA && seenData
    case _ => false
  }

  /** The body begins with chunks that are fine, and what follows them has this fault. */
  ghost predicate StopsAt(body: seq<byte>, seenFmt: bool, seenData: bool, chunks: seq<Chunk>, rest: seq<byte>, e: Error) {
    && AllValid(chunks) && body == Body(chunks) + rest && Fine(chunks, seenFmt, seenData)
    && Faulty(rest, seenFmt || Has(chunks, FMT), seenData || Has(chunks, DATA), e)
  }

  lemma HasCons(c: Chunk, chunks: seq<Chunk>, id: seq<byte>)
    ensures Has([c] + chunks, id) <==> c.id == id || Has(chunks, id)
  {
    assert forall x :: x in [c] + chunks <==> x == c || x in chunks;
  }

  lemma BodyCons(c: Chunk, chunks: seq<Chunk>, rest: seq<byte>)
    requires c.Valid() && AllValid(chunks)
    ensures AllValid([c] + chunks) && Body([c] + chunks) + rest == c.Bytes() + (Body(chunks) + rest)
  {
    assert ([c] + chunks)[1..] == chunks;
    assert c.Bytes() + Body(chunks) + rest == c.Bytes() + (Body(chunks) + rest);
  }

  /** One turn of the loop, on a whole chunk. */
  lemma WholeStep(body: seq<byte>, fmt: Option<seq<byte>>, pcm: Option<seq<byte>>) returns (c: Chunk, next: seq<byte>)
    requires Whole(body)
    ensures c.Valid() && body == c.Bytes() + next && |next| < |body| && c.id == body[..4] && |c.payload| == Le32(body, 4)
    ensures var found := Accept(c.id, c.payload, fmt, pcm);
            Scan(body, fmt, pcm) == if found.Err? then Err(found.error) else Scan(next, found.value.0, found.value.1)
  {
    hide Scan;
    FirstChunkBytes(body);
    c := FirstChunk(body);
    next := body[8 + |c.payload| + |c.payload| % 2..];
    ScanStep(c, next, fmt, pcm);
  }

  lemma FaultHere(body: seq<byte>, fmt: Option<seq<byte>>, pcm: Option<seq<byte>>, e: Error)
    requires Faulty(body, fmt.Some?, pcm.Some?, e)
    ensures Scan(body, fmt, pcm) == Err(e)
  {
    assert FMT[0] != DATA[0];
    if Whole(body) {
      var c, next := WholeStep(body, fmt, pcm);
    }
  }

  /** A refusal of the scan comes from such a fault. */
  lemma {:induction false} FaultFound(body: seq<byte>, fmt: Option<seq<byte>>, pcm: Option<seq<byte>>, e: Error)
    returns (chunks: seq<Chunk>, rest: seq<byte>)
    requires Scan(body, fmt, pcm) == Err(e)
    ensures StopsAt(body, fmt.Some?, pcm.Some?, chunks, rest, e)
    decreases |body|
  {
    if Whole(body) {
      var c, next := WholeStep(body, fmt, pcm);
      var found := Accept(c.id, c.payload, fmt, pcm);
      assert FMT[0] != DATA[0];
      if found.Err? {
        chunks, rest := [], body;
      } else {
        hide Scan;
        var tail, r := FaultFound(next, found.value.0, found.value.1, e);
        FaultLater(c, tail, r, fmt, pcm, e);
        chunks, rest := [c] + tail, r;
      }
    } else {
      chunks, rest := [], body;
    }
  }

  lemma FaultLater(c: Chunk, tail: seq<Chunk>, rest: seq<byte>, fmt: Option<seq<byte>>, pcm: Option<seq<byte>>, e: Error)
    requires c.Valid() && AllValid(tail) && Accept(c.id, c.payload, fmt, pcm).Ok?
    requires var found := Accept(c.id, c.payload, fmt, pcm).value;
             StopsAt(Body(tail) + rest, found.0.Some?, found.1.Some?, tail, rest, e)
    ensures StopsAt(c.Bytes() + (Body(tail) + rest), fmt.Some?, pcm.Some?, [c] + tail, rest, e)
  {
    assert FMT[0] != DATA[0];
    HasCons(c, tail, FMT);
    HasCons(c, tail, DATA);
    BodyCons(c, tail, rest);
    assert ([c] + tail)[1..] == tail;
    hide Faulty, Has, Chunk.Bytes, Body;
  }

  /** And such a fault makes the scan refuse. */
  lemma {:induction false} FaultRefuses(chunks: seq<Chunk>, rest: seq<byte>, fmt: Option<seq<byte>>, pcm: Option<seq<byte>>, e: Error)
    requires AllValid(chunks) && StopsAt(Body(chunks) + rest, fmt.Some?, pcm.Some?, chunks, rest, e)
    ensures Scan(Body(chunks) + rest, fmt, pcm) == Err(e)
    decreases chunks
  {
    if chunks == [] {
      assert Body(chunks) + rest == rest;
      FaultHere(rest, fmt, pcm, e);
    } else {
      var c, tail := chunks[0], chunks[1..];
      assert chunks == [c] + tail;
      assert FMT[0] != DATA[0];
      HasCons(c, tail, FMT);
      HasCons(c, tail, DATA);
      BodyCons(c, tail, rest);
      ScanStep(c, Body(tail) + rest, fmt, pcm);
      hide Scan, Faulty, Has, Chunk.Bytes, Body;
      var found := Accept(c.id, c.payload, fmt, pcm).value;
      FaultRefuses(tail, rest, found.0, found.1, e);
    }
  }

  /** The chunk loop refuses with an error exactly if the body begins with chunks
      that are fine and what follows them has that fault. */
  lemma ScanRefusesExact(body: seq<byte>, e: Error)
    ensures Scan(body, None, None) == Err(e) <==> exists chunks, rest :: StopsAt(body, false, false, chunks, rest, e)
  {
    hide Scan, StopsAt;
    if Scan(body, None, None) == Err(e) {
      var chunks, rest := FaultFound(body, None, None, e);
    }
    if chunks, rest :| StopsAt(body, false, false, chunks, rest, e) {
      Refused(body, chunks, rest, e);
    }
  }

  lemma Refused(body: seq<byte>, chunks: seq<Chunk>, rest: seq<byte>, e: Error)
    requires StopsAt(body, false, false, chunks, rest, e)
    ensures Scan(body, None, None) == Err(e)
  {
    hide Scan;
    FaultRefuses(chunks, rest, None, None, e);
  }

  // ---------------------------------------------------------------- header and format

  predicate LoopError(e: Error) {
    e == TruncatedHeader || e == TruncatedChunk || e == MultipleFmt || e == ShortFmt || e == MultipleData
  }

  /** The header is refused exactly if it is not RIFF/WAVE, or its length is not
      the file's; and the loop's errors are the file's. */
  lemma HeaderRefusesExact(data: seq<byte>, contract: Option<Contract>)
    ensures ParseWav(data, contract) == Err(NotRiff) <==>
            !(|data| >= 12 && data[..4] == RIFF && data[8..12] == WAVE)
    ensures ParseWav(data, contract) == Err(BadRiffLength) <==>
            |data| >= 12 && data[..4] == RIFF && data[8..12] == WAVE && Le32(data, 4) + 8 != |data|
    ensures forall e :: LoopError(e) ==>
            (ParseWav(data, contract) == Err(e) <==>
             HeaderOk(data) && exists chunks, rest :: StopsAt(data[12..], false, false, chunks, rest, e))
  {
    if |data| >= 12 {
      forall e ensures Scan(data[12..], None, None) == Err(e) <==>
                       exists chunks, rest :: StopsAt(data[12..], false, false, chunks, rest, e)
      {
        ScanRefusesExact(data[12..], e);
      }
      hide StopsAt, Le32;
      ErrorsOfTheLoop(data, contract);
      hide ParseWav, Scan;
    }
  }

  lemma ErrorsOfTheLoop(data: seq<byte>, contract: Option<Contract>)
    requires |data| >= 12
    ensures forall e :: LoopError(e) ==>
            (ParseWav(data, contract) == Err(e) <==> HeaderOk(data) && Scan(data[12..], None, None) == Err(e))
    ensures ParseWav(data, contract) == Err(NotRiff) <==> !Tagged(data)
    ensures ParseWav(data, contract) == Err(BadRiffLength) <==> Tagged(data) && !HeaderOk(data)
  {
    if HeaderOk(data) && Scan(data[12..], None, None).Err? {
      ScanErrors(data[12..], None, None);
    }
    hide Scan, Le32, HeaderOk, Tagged;
  }

  lemma {:induction false} ScanErrors(rest: seq<byte>, fmt: Option<seq<byte>>, pcm: Option<seq<byte>>)
    requires Scan(rest, fmt, pcm).Err?
    ensures LoopError(Scan(rest, fmt, pcm).error)
    decreases |rest|
  {
    var e := Scan(rest, fmt, pcm).error;
    var chunks, tail := FaultFound(rest, fmt, pcm, e);
  }

  /** Of a file whose chunks are fine: which refusal its format and audio earn. */
  lemma FormatRefusesExact(data: seq<byte>, contract: Option<Contract>, chunks: seq<Chunk>,
                           fmt: Option<seq<byte>>, pcm: Option<seq<byte>>)
    requires IsRiff(data, chunks) && Picks(chunks, FMT, fmt) && Picks(chunks, DATA, pcm)
    requires fmt.Some? ==> |fmt.value| >= 16
    ensures var r := ParseWav(data, contract);
            && (r == Err(MissingChunks) <==> fmt.None? || pcm.None?)
            && (fmt.Some? && pcm.Some? ==>
                  && (r == Err(NoContract) <==> contract.None?)
                  && (contract.Some? ==> Earns(fmt.value, pcm.value, contract.value, r)))
  {
    hide IsRiff, Picks, Scan, CheckFormat, Earns;
    RiffScans(data, chunks, fmt, pcm);
    ParsesAsFound(data, contract, (fmt, pcm));
    CheckRefuses((fmt, pcm), contract);
  }

  /** Each demand on the format, given that those before it are met. */
  predicate Earns(fmt: seq<byte>, pcm: seq<byte>, contract: Contract, r: Result<(seq<byte>, nat)>)
    requires |fmt| >= 16
  {
    var isPcm16 := Le16(fmt, 0) == 1 && Le16(fmt, 14) == 16;
    var matches := Le16(fmt, 2) == contract.channels && Le32(fmt, 4) == contract.rate;
    var consistent := Le16(fmt, 12) == 2 * contract.channels && Le32(fmt, 8) == contract.rate * (2 * contract.channels);
    var frames := pcm != [] && contract.channels > 0 && |pcm| % (2 * contract.channels) == 0;
    && (r == Err(NotPcm16) <==> !isPcm16)
    && (r == Err(ContractMismatch) <==> isPcm16 && !matches)
    && (r == Err(BadMetadata) <==> isPcm16 && matches && !consistent)
    && (r == Err(Misaligned) <==> isPcm16 && matches && consistent && !frames)
    && (r == Ok((pcm, contract.rate)) <==> isPcm16 && matches && consistent && frames)
  }

  lemma CheckRefuses(found: Found, contract: Option<Contract>)
    requires found.0.Some? ==> |found.0.value| >= 16
    ensures var r := CheckFormat(found, contract);
            && (r == Err(MissingChunks) <==> found.0.None? || found.1.None?)
            && (found.0.Some? && found.1.Some? ==>
                  && (r == Err(NoContract) <==> contract.None?)
                  && (contract.Some? ==> Earns(found.0.value, found.1.value, contract.value, r)))
  {}

  lemma RiffScans(data: seq<byte>, chunks: seq<Chunk>, fmt: Option<seq<byte>>, pcm: Option<seq<byte>>)
    requires IsRiff(data, chunks) && Picks(chunks, FMT, fmt) && Picks(chunks, DATA, pcm)
    requires fmt.Some? ==> |fmt.value| >= 16
    ensures HeaderOk(data) && Scan(data[12..], None, None) == Ok((fmt, pcm))
  {
    assert data[12..] == Body(chunks);
    RiffHeader(data, chunks);
    hide IsRiff, Scan, Body;
    if fmt.Some? { FmtIsLong(chunks, fmt.value); }
    assert fmt.None? ==> forall k :: 0 <= k < |chunks| ==> chunks[k].id != FMT;
    ScanComplete(chunks, None, None, (fmt, pcm));
  }

  lemma ParsesAsFound(data: seq<byte>, contract: Option<Contract>, found: Found)
    requires HeaderOk(data) && Scan(data[12..], None, None) == Ok(found)
    ensures found.0.Some? ==> |found.0.value| >= 16
    ensures ParseWav(data, contract) == CheckFormat(found, contract)
  {
    ScanFmtLength(data[12..], None, None);
    hide Scan, CheckFormat, Le32;
  }
}
