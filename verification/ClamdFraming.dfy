/** The INSTREAM framing of the malware scanner
    (agent-server/focusproof/media_adapters/clamd_malware_scanner.py:228-290, 307-339) and the
    decoder at the other end (scripts/run_real_image_evidence_gate.py:136-153). */
module ClamdFraming {
  import opened Basics
  import opened Framing

  const CHUNK_BYTES: nat := 65536
  const MAX_RESPONSE_BYTES: nat := 4096
  const RECV_BYTES: nat := 1024

  /** `zINSTREAM\\0`. */
  const COMMAND: Bytes := [122, 73, 78, 83, 84, 82, 69, 65, 77, 0]

  /** `stream: OK\\0`. */
  const CLEAN_REPLY: Bytes := [115, 116, 114, 101, 97, 109, 58, 32, 79, 75, 0]

  /** `stream: ` and ` FOUND`. */
  const STREAM: Bytes := [115, 116, 114, 101, 97, 109, 58, 32]
  const FOUND: Bytes := [32, 70, 79, 85, 78, 68]

  /** One length-prefixed piece; the empty one is the terminator. */
  function Frame(chunk: Bytes): (b: Bytes)
    requires |chunk| <= CHUNK_BYTES
    ensures |b| == 4 + |chunk|
  {
    BigEndian(|chunk|) + chunk
  }

  function Frames(chunks: seq<Bytes>): Bytes
    requires forall c <- chunks :: 0 < |c| <= CHUNK_BYTES
  {
    if chunks == [] then [] else Frame(chunks[0]) + Frames(chunks[1..])
  }

  function Concat(chunks: seq<Bytes>): Bytes {
    if chunks == [] then [] else chunks[0] + Concat(chunks[1..])
  }

  datatype Decoded = Incomplete | Decoded(data: Bytes, rest: Bytes)

  /** Reads frames until the terminator. */
  function DecodeFrames(wire: Bytes): Decoded
    decreases |wire|
  {
    if |wire| < 4 then Incomplete
    else
      var size := FromBigEndian(wire[..4]);
      if size == 0 then Decoded([], wire[4..])
      else if |wire| < 4 + size then Incomplete
      else match DecodeFrames(wire[4 + size..])
        case Incomplete => Incomplete
        case Decoded(data, rest) => Decoded(wire[4..4 + size] + data, rest)
  }

  function Decode(wire: Bytes): Decoded {
    if |wire| < |COMMAND| || wire[..|COMMAND|] != COMMAND then Incomplete else DecodeFrames(wire[|COMMAND|..])
  }

  function Prepend(data: Bytes, d: Decoded): Decoded {
    match d
    case Incomplete => Incomplete
    case Decoded(more, rest) => Decoded(data + more, rest)
  }

  lemma DecodeOneFrame(chunk: Bytes, tail: Bytes)
    requires 0 < |chunk| <= CHUNK_BYTES
    ensures DecodeFrames(Frame(chunk) + tail) == Prepend(chunk, DecodeFrames(tail))
  {
    var wire := Frame(chunk) + tail;
    assert wire[..4] == BigEndian(|chunk|);
    BigEndianRoundTrip(|chunk|);
    assert wire[4..4 + |chunk|] == chunk && wire[4 + |chunk|..] == tail;
  }

  /** Whole frames decode to their contents, and what follows decides the rest. */
  lemma {:induction false} DecodeSkipsFrames(chunks: seq<Bytes>, tail: Bytes)
    requires forall c <- chunks :: 0 < |c| <= CHUNK_BYTES
    ensures DecodeFrames(Frames(chunks) + tail) == Prepend(Concat(chunks), DecodeFrames(tail))
    decreases |chunks|
  {
    if chunks == [] {
      assert [] + tail == tail;
      if DecodeFrames(tail).Decoded? {
        assert [] + DecodeFrames(tail).data == DecodeFrames(tail).data;
      }
    } else {
      DecodeSkipsFrames(chunks[1..], tail);
      DecodeOneFrame(chunks[0], Frames(chunks[1..]) + tail);
      assert Frames(chunks) + tail == Frame(chunks[0]) + (Frames(chunks[1..]) + tail);
      if DecodeFrames(tail).Decoded? {
        assert chunks[0] + (Concat(chunks[1..]) + DecodeFrames(tail).data)
               == (chunks[0] + Concat(chunks[1..])) + DecodeFrames(tail).data;
      }
    }
  }

  /** A frame cut short decodes to nothing, unless it is the whole terminator. */
  lemma CutFrameIsIncomplete(chunk: Bytes, n: nat)
    requires 0 < |chunk| <= CHUNK_BYTES && n < 4 + |chunk|
    ensures DecodeFrames(Frame(chunk)[..n]) == Incomplete
  {
    if n >= 4 {
      assert Frame(chunk)[..n][..4] == BigEndian(|chunk|);
      BigEndianRoundTrip(|chunk|);
    }
  }

  lemma TerminatorDecodes()
    ensures DecodeFrames(BigEndian(0)) == Decoded([], [])
  {
    BigEndianRoundTrip(0);
    assert BigEndian(0)[..4] == BigEndian(0) && BigEndian(0)[4..] == [];
  }

  lemma {:induction false} FramesAppend(chunks: seq<Bytes>, c: Bytes)
    requires (forall d <- chunks :: 0 < |d| <= CHUNK_BYTES) && 0 < |c| <= CHUNK_BYTES
    ensures Frames(chunks + [c]) == Frames(chunks) + Frame(c)
    ensures Concat(chunks + [c]) == Concat(chunks) + c
  {
    hide Frame;
    if chunks == [] {
      assert chunks + [c] == [c] && [c][1..] == [];
      assert Frames([]) == [] && Concat([]) == [];
      assert Frame(c) + [] == Frame(c) == [] + Frame(c) && c + [] == c == [] + c;
    } else {
      assert (chunks + [c])[1..] == chunks[1..] + [c] && (chunks + [c])[0] == chunks[0];
      FramesAppend(chunks[1..], c);
      ConcatAssociates(Frame(chunks[0]), Frames(chunks[1..]), Frame(c));
      ConcatAssociates(chunks[0], Concat(chunks[1..]), c);
    }
  }

  // ---------------------------------------------------------------------
  // The scanner

  datatype Status = Clean | Malicious | Oversize | Timeout | Unavailable | Error

  /** What one use of the socket comes to: everything goes out, or only a first part does. */
  datatype Send = Sent | Broken(bytes: nat, timedOut: bool)

  /** What one read of the source, or of the socket, comes to: some bytes, a time-out, an error of
      the operating system, or any other exception. */
  datatype Read = Gives(n: nat) | Raises(status: ReadFailure)

  type ReadFailure = s: Status | s in {Timeout, Unavailable, Error} witness Error

  predicate AllGive(script: seq<Read>) {
    forall i :: 0 <= i < |script| ==> script[i].Gives?
  }

  /** A source: its contents and how much each read gives; the declared facts, where the
      contents that hash to the declared digest stand for the digest. */
  datatype Source = Source(contents: Bytes, portions: seq<Read>, byteSize: nat, digestOf: Bytes)

  function Clamp(n: nat, most: nat): (m: nat)
    requires most > 0
    ensures 0 < m <= most
  {
    if n == 0 then 1 else if n > most then most else n
  }

  function Least(a: nat, b: nat): nat {
    if a < b then a else b
  }

  /** The declared facts hold and the size is within bounds. */
  predicate FactsHold(source: Source, maxBytes: nat) {
    && |source.contents| == source.byteSize && source.contents == source.digestOf
    && source.byteSize <= maxBytes
  }

  /** What the first address that is not refused says. */
  function ConnectOutcome(candidates: seq<Option<ReadFailure>>): (failure: Option<Status>)
    ensures failure.Some? ==> failure.value in {Timeout, Unavailable, Error}
    ensures failure.None? <==> exists k :: && 0 <= k < |candidates| && candidates[k].None?
                                           && forall i :: 0 <= i < k ==> candidates[i] == Some(Unavailable)
  {
    if candidates == [] then Some(Unavailable)
    else if candidates[0] != Some(Unavailable) then
      (match candidates[0] case None => None case Some(status) => Some(status))
    else
      var rest := ConnectOutcome(candidates[1..]);
      assert rest.None? ==> exists k :: 0 <= k < |candidates[1..]| && candidates[1..][k].None?
                                        && forall i :: 0 <= i < k ==> candidates[1..][i] == Some(Unavailable);
      rest
  }

  class Connection {
    var wire: Bytes
    var sends: seq<Send>
    const reply: Bytes
    var grabs: seq<Read>
    const candidates: seq<Option<ReadFailure>>

    constructor (candidates: seq<Option<ReadFailure>>, sends: seq<Send>, reply: Bytes, grabs: seq<Read>)
      ensures wire == [] && this.reply == reply && this.candidates == candidates
    {
      wire, this.candidates, this.sends, this.reply, this.grabs := [], candidates, sends, reply, grabs;
    }

    /** `_connect`: the addresses in turn, where `None` is one that answers. A refused one is skipped,
        a time-out or any other exception ends the search, and no address at all is a refusal. */
    method Connect() returns (failure: Option<Status>)
      ensures failure == ConnectOutcome(candidates)
    {
      for i := 0 to |candidates|
        invariant ConnectOutcome(candidates) == ConnectOutcome(candidates[i..])
      {
        assert candidates[i..][1..] == candidates[i + 1..];
        if candidates[i].None? {
          return None;
        }
        if candidates[i].value != Unavailable {
          return candidates[i];
        }
      }
      failure := Some(Unavailable);
    }

    /** `sendall`, after the deadline was looked at. */
    method SendAll(b: Bytes) returns (status: Option<Status>)
      modifies this`wire, this`sends
      ensures status.None? ==> wire == old(wire) + b
      ensures status.Some? ==> exists n :: 0 <= n <= |b| && wire == old(wire) + b[..n]
      ensures status.Some? ==> status.value in {Timeout, Unavailable}
      ensures old(sends) == [] ==> status.None? && sends == []
    {
      var send := if sends == [] then Sent else sends[0];
      sends := if sends == [] then [] else sends[1..];
      match send {
        case Sent =>
          wire := wire + b;
          status := None;
        case Broken(bytes, timedOut) =>
          var n := Least(bytes, |b|);
          wire := wire + b[..n];
          status := Some(if timedOut then Timeout else Unavailable);
      }
    }

    /** `_receive_response`: at most one byte more than a response may have. */
    method ReceiveResponse() returns (failure: Option<Status>, response: Bytes)
      modifies this`grabs
      ensures failure.None? ==> response == reply[..Least(|reply|, MAX_RESPONSE_BYTES + 1)]
      ensures failure.Some? ==> failure.value in {Timeout, Unavailable, Error}
      ensures AllGive(old(grabs)) ==> failure.None?
    {
      response := [];
      while |response| <= MAX_RESPONSE_BYTES
        invariant |response| <= Least(|reply|, MAX_RESPONSE_BYTES + 1)
        invariant response == reply[..|response|]
        invariant AllGive(old(grabs)) ==> AllGive(grabs)
        decreases MAX_RESPONSE_BYTES + 1 - |response|
      {
        var grab := if grabs == [] then Gives(RECV_BYTES) else grabs[0];
        grabs := if grabs == [] then [] else grabs[1..];
        if grab.Raises? {
          return Some(grab.status), response;
        }
        if |response| == |reply| {
          break;
        }
        var limit := Least(Least(RECV_BYTES, MAX_RESPONSE_BYTES + 1 - |response|), |reply| - |response|);
        var n := Clamp(grab.n, limit);
        response := response + reply[|response|..|response| + n];
      }
      failure := None;
    }

    /** Sends the length and then the chunk. */
    method SendFrame(chunk: Bytes) returns (status: Option<Status>)
      requires 0 < |chunk| <= CHUNK_BYTES
      modifies this`wire, this`sends
      ensures status.None? ==> wire == old(wire) + Frame(chunk)
      ensures status.Some? ==> exists n: nat :: n <= 4 + |chunk| && wire == old(wire) + Frame(chunk)[..n]
      ensures status.Some? ==> status.value in {Timeout, Unavailable}
      ensures old(sends) == [] ==> status.None? && sends == []
    {
      hide BigEndian;
      ghost var before := wire;
      status := SendAll(BigEndian(|chunk|));
      if status.Some? {
        ghost var m: nat :| m <= 4 && wire == before + BigEndian(|chunk|)[..m];
        assert BigEndian(|chunk|)[..m] == Frame(chunk)[..m];
        return;
      }
      ghost var between := wire;
      status := SendAll(chunk);
      if status.Some? {
        ghost var m: nat :| m <= |chunk| && wire == between + chunk[..m];
        assert before + Frame(chunk)[..4 + m] == wire;
      }
    }

    /** The framing loop: all of the source goes out in whole frames, or nothing decodable does. */
    method SendSource(source: Source, maxBytes: nat) returns (status: Option<Status>, ghost chunks: seq<Bytes>)
      requires wire == COMMAND
      modifies this`wire, this`sends
      ensures status.None? ==> Sending(wire, source.contents, |source.contents|, chunks)
      ensures status.None? ==> |source.contents| <= maxBytes
      ensures status.Some? ==> Decode(wire) == Incomplete
      ensures status == Some(Oversize) ==> |source.contents| > maxBytes
      ensures status.Some? ==> status.value in {Oversize, Timeout, Unavailable, Error}
      ensures old(sends) == [] ==> sends == []
      ensures old(sends) == [] && AllGive(source.portions) ==>
                status == if |source.contents| > maxBytes then Some(Oversize) else None
    {
      hide Decode, Frame, Sending;
      var position := 0;
      var portions := source.portions;
      chunks := [];
      StartSending(source.contents);
      while position < |source.contents|
        invariant 0 <= position <= |source.contents| && position <= maxBytes
        invariant old(sends) == [] ==> sends == []
        invariant Sending(wire, source.contents, position, chunks)
        invariant AllGive(source.portions) ==> AllGive(portions)
        decreases |source.contents| - position
      {
        var portion := if portions == [] then Gives(CHUNK_BYTES) else portions[0];
        portions := if portions == [] then [] else portions[1..];
        if portion.Raises? {
          StillIncomplete(wire, source.contents, position, chunks, [0], 0);
          return Some(portion.status), chunks;
        }
        var n := Clamp(portion.n, Least(CHUNK_BYTES, |source.contents| - position));
        var chunk := source.contents[position..position + n];
        if position + n > maxBytes {
          StillIncomplete(wire, source.contents, position, chunks, chunk, 0);
          return Some(Oversize), chunks;
        }
        ghost var before := wire;
        status := SendFrame(chunk);
        if status.Some? {
          ghost var m: nat :| m <= 4 + |chunk| && wire == before + Frame(chunk)[..m];
          StillIncomplete(before, source.contents, position, chunks, chunk, m);
          return;
        }
        SendOneMore(before, source.contents, position, chunks, chunk);
        chunks := chunks + [chunk];
        position := position + n;
      }
      status := None;
      if portions != [] && portions[0].Raises? {
        StillIncomplete(wire, source.contents, position, chunks, [0], 0);
        status := Some(portions[0].status);
      }
    }

    /** `_scan_admitted`. The peer can decode a stream exactly when the whole source went out
        with its declared facts holding, and it then decodes that source. */
    method ScanAdmitted(source: Source, maxBytes: nat, utf8: Bytes -> bool) returns (status: Status)
      requires wire == []
      modifies this
      ensures Decode(wire).Decoded? ==> Decode(wire) == Decoded(source.contents, []) && FactsHold(source, maxBytes)
      ensures ConnectOutcome(candidates).Some? ==> status == ConnectOutcome(candidates).value && wire == []
      ensures ConnectOutcome(candidates).None? && old(sends) == [] && AllGive(source.portions) ==>
                (Decode(wire).Decoded? <==> FactsHold(source, maxBytes))
      ensures ConnectOutcome(candidates).None? && old(sends) == [] && AllGive(source.portions) && AllGive(old(grabs)) ==>
                status == if |source.contents| > maxBytes then Oversize
                          else if !FactsHold(source, maxBytes) then Error
                          else ParseResponse(reply[..Least(|reply|, MAX_RESPONSE_BYTES + 1)], utf8)
      ensures status in {Clean, Malicious} ==> Decode(wire) == Decoded(source.contents, [])
      ensures status == Clean ==> reply == CLEAN_REPLY
      ensures status == Oversize ==> |source.contents| > maxBytes
      ensures !FactsHold(source, maxBytes) ==> status in {Oversize, Timeout, Unavailable, Error}
    {
      var unconnected := Connect();
      if unconnected.Some? {
        return unconnected.value;
      }
      hide Decode, BigEndian, Sending, ParseResponse;
      var broken := SendAll(COMMAND);
      if broken.Some? {
        CutCommand(wire);
        return broken.value;
      }
      ghost var chunks;
      broken, chunks := SendSource(source, maxBytes);
      if broken.Some? {
        return broken.value;
      }
      if |source.contents| != source.byteSize || source.contents != source.digestOf {
        StillIncomplete(wire, source.contents, |source.contents|, chunks, [0], 0);
        return Error;
      }
      ghost var before := wire;
      broken := SendAll(BigEndian(0));
      if broken.Some? {
        ghost var m: nat :| m <= 4 && wire == before + BigEndian(0)[..m];
        CutTerminator(before, source.contents, chunks, m);
        return broken.value;
      }
      assert BigEndian(0)[..4] == BigEndian(0);
      CutTerminator(before, source.contents, chunks, 4);
      var failure, response := ReceiveResponse();
      if failure.Some? {
        return failure.value;
      }
      CleanExactly(response, utf8);
      ResponseIsWhole(reply, response);
      status := ParseResponse(response, utf8);
      ParsedStatus(response, utf8);
    }
  }

  lemma ResponseIsWhole(reply: Bytes, response: Bytes)
    requires response == reply[..Least(|reply|, MAX_RESPONSE_BYTES + 1)]
    ensures response == CLEAN_REPLY ==> reply == CLEAN_REPLY
  {
  }

  lemma ParsedStatus(raw: Bytes, utf8: Bytes -> bool)
    ensures ParseResponse(raw, utf8) in {Clean, Malicious, Error}
  {
  }

  /** Whole frames of the source's first bytes have gone out, and nothing else. */
  ghost predicate Sending(wire: Bytes, contents: Bytes, position: nat, chunks: seq<Bytes>) {
    && position <= |contents|
    && (forall c <- chunks :: 0 < |c| <= CHUNK_BYTES)
    && wire == COMMAND + Frames(chunks)
    && Concat(chunks) == contents[..position]
  }

  lemma StartSending(contents: Bytes)
    ensures Sending(COMMAND, contents, 0, [])
  {
    assert COMMAND + [] == COMMAND;
  }

  lemma SendOneMore(wire: Bytes, contents: Bytes, position: nat, chunks: seq<Bytes>, chunk: Bytes)
    requires Sending(wire, contents, position, chunks)
    requires 0 < |chunk| <= CHUNK_BYTES && position + |chunk| <= |contents|
    requires chunk == contents[position..position + |chunk|]
    ensures Sending(wire + Frame(chunk), contents, position + |chunk|, chunks + [chunk])
  {
    FramesAppend(chunks, chunk);
    hide Frame;
    assert COMMAND + Frames(chunks) + Frame(chunk) == COMMAND + (Frames(chunks) + Frame(chunk));
    assert contents[..position] + chunk == contents[..position + |chunk|];
  }

  lemma DecodeAfterCommand(tail: Bytes)
    ensures Decode(COMMAND + tail) == DecodeFrames(tail)
  {
    assert (COMMAND + tail)[..|COMMAND|] == COMMAND && (COMMAND + tail)[|COMMAND|..] == tail;
  }

  lemma CutCommand(wire: Bytes)
    requires exists n :: 0 <= n <= |COMMAND| && wire == [] + COMMAND[..n]
    ensures Decode(wire) == Incomplete
  {
    if |wire| == |COMMAND| {
      assert wire == COMMAND + [];
      DecodeAfterCommand([]);
    }
  }

  lemma StillIncomplete(
    wire: Bytes, contents: Bytes, position: nat, chunks: seq<Bytes>, chunk: Bytes, n: nat)
    requires Sending(wire, contents, position, chunks)
    requires 0 < |chunk| <= CHUNK_BYTES && n <= 4 + |chunk|
    ensures Decode(wire + Frame(chunk)[..n]) == Incomplete
    ensures n == 0 ==> Decode(wire) == Incomplete
  {
    var tail := Frame(chunk)[..n];
    assert wire + tail == COMMAND + (Frames(chunks) + tail);
    DecodeAfterCommand(Frames(chunks) + tail);
    DecodeSkipsFrames(chunks, tail);
    if n == 4 + |chunk| {
      assert tail == Frame(chunk) + [];
      DecodeOneFrame(chunk, []);
    } else {
      CutFrameIsIncomplete(chunk, n);
    }
    assert n == 0 ==> wire + tail == wire;
  }

  lemma CutTerminator(wire: Bytes, contents: Bytes, chunks: seq<Bytes>, n: nat)
    requires Sending(wire, contents, |contents|, chunks) && n <= 4
    ensures n < 4 ==> Decode(wire + BigEndian(0)[..n]) == Incomplete
    ensures n == 4 ==> Decode(wire + BigEndian(0)[..n]) == Decoded(contents, [])
  {
    var tail := BigEndian(0)[..n];
    assert wire + tail == COMMAND + (Frames(chunks) + tail);
    DecodeAfterCommand(Frames(chunks) + tail);
    DecodeSkipsFrames(chunks, tail);
    if n == 4 {
      assert tail == BigEndian(0);
      TerminatorDecodes();
      assert contents[..|contents|] + [] == contents;
    }
  }

  // ---------------------------------------------------------------------
  // The response

  predicate StartsWith(s: Bytes, prefix: Bytes) {
    |prefix| <= |s| && s[..|prefix|] == prefix
  }

  predicate EndsWith(s: Bytes, suffix: Bytes) {
    |suffix| <= |s| && s[|s| - |suffix|..] == suffix
  }

  /** `_parse_response`. `utf8` is strict decodability. */
  function ParseResponse(raw: Bytes, utf8: Bytes -> bool): Status {
    if |raw| > MAX_RESPONSE_BYTES then Error
    else if raw == [] || raw[|raw| - 1] != 0 || 0 in raw[..|raw| - 1] then Error
    else
      var line := raw[..|raw| - 1];
      if 10 in line || 13 in line || !utf8(line) then Error
      else if line == CLEAN_REPLY[..|CLEAN_REPLY| - 1] then Clean
      else if StartsWith(line, STREAM) && EndsWith(line, FOUND) then Malicious
      else Error
  }

  /** Only one response is clean, and it is clean whenever its text can be decoded. */
  lemma CleanExactly(raw: Bytes, utf8: Bytes -> bool)
    ensures ParseResponse(raw, utf8) == Clean
            <==> raw == CLEAN_REPLY && utf8(CLEAN_REPLY[..|CLEAN_REPLY| - 1])
  {
    if |raw| > 0 && raw[|raw| - 1] == 0 {
      assert raw == raw[..|raw| - 1] + [0];
      assert CLEAN_REPLY == CLEAN_REPLY[..|CLEAN_REPLY| - 1] + [0];
    }
  }

  /** `stream: ` and ` FOUND` sharing their space. */
  const NAMELESS: Bytes := [115, 116, 114, 101, 97, 109, 58, 32, 70, 79, 85, 78, 68]

  predicate IsPlain(line: Bytes) {
    0 !in line && 10 !in line && 13 !in line
  }

  /** A response is malicious exactly when it is one decodable line that names what was found, or that
      is cut so short that the two phrases overlap. */
  lemma MaliciousExactly(raw: Bytes, utf8: Bytes -> bool)
    ensures ParseResponse(raw, utf8) == Malicious
            <==> exists line: Bytes ::
                   && raw == line + [0] && |raw| <= MAX_RESPONSE_BYTES && IsPlain(line) && utf8(line)
                   && (line == NAMELESS || exists name: Bytes :: line == STREAM + name + FOUND)
  {
    if ParseResponse(raw, utf8) == Malicious {
      var line := raw[..|raw| - 1];
      assert raw == line + [0];
      FoundLine(line);
    }
    forall line: Bytes | raw == line + [0] && |raw| <= MAX_RESPONSE_BYTES && IsPlain(line) && utf8(line)
                         && (line == NAMELESS || exists name: Bytes :: line == STREAM + name + FOUND)
      ensures ParseResponse(raw, utf8) == Malicious
    {
      assert raw[..|raw| - 1] == line;
      FoundLine(line);
    }
  }

  lemma FoundLine(line: Bytes)
    ensures StartsWith(line, STREAM) && EndsWith(line, FOUND)
            <==> line == NAMELESS || exists name: Bytes :: line == STREAM + name + FOUND
    ensures StartsWith(line, STREAM) && EndsWith(line, FOUND) ==> line != CLEAN_REPLY[..|CLEAN_REPLY| - 1]
  {
    if StartsWith(line, STREAM) && EndsWith(line, FOUND) {
      if |line| >= 14 {
        var name := line[8..|line| - 6];
        assert line == line[..8] + name + line[|line| - 6..];
      } else {
        OverlapIsNameless(line);
      }
    }
  }

  lemma OverlapIsNameless(line: Bytes)
    requires StartsWith(line, STREAM) && EndsWith(line, FOUND) && |line| < 14
    ensures line == NAMELESS
  {
    var n := |line|;
    assert line[7] == STREAM[7] && forall i :: 0 <= i < 8 ==> line[i] == line[..8][i];
    var tail := line[n - 6..];
    assert line[n - 6] == tail[0] && line[n - 5] == tail[1] && line[n - 4] == tail[2]
           && line[n - 3] == tail[3] && line[n - 2] == tail[4] && line[n - 1] == tail[5];
    assert line[n - 6] == 32 && line[n - 5] == 70 && line[n - 4] == 79 && line[n - 3] == 85;
    assert n == 13;
  }
}
