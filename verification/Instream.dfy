/**
 The upload framing of backend/app/security/malware.py: the file goes out in chunks, each behind its
 length in four bytes, most significant first; a length of zero ends the stream.
 */
module Instream {
  import opened Sequences
  import opened Bytes

  const CHUNK: nat := 64 * 1024

  /** `struct.pack("!I", n)`. */
  function Word(n: nat): (r: seq<byte>)
    requires n < 0x1_0000_0000
    ensures |r| == 4
  {
    [(n / 0x100_0000) as byte, (n / 0x1_0000 % 256) as byte, (n / 256 % 256) as byte, (n % 256) as byte]
  }

  function WordValue(b: seq<byte>): nat
    requires |b| == 4
  {
    0x100_0000 * b[0] as nat + 0x1_0000 * b[1] as nat + 256 * b[2] as nat + b[3] as nat
  }

  lemma WordRoundTrip(n: nat)
    requires n < 0x1_0000_0000
    ensures WordValue(Word(n)) == n
  {
    assert n == 256 * (n / 256) + n % 256;
    assert n / 256 == 256 * (n / 256 / 256) + n / 256 % 256 && n / 256 / 256 == n / 0x1_0000;
    assert n / 0x1_0000 == 256 * (n / 0x1_0000 / 256) + n / 0x1_0000 % 256 && n / 0x1_0000 / 256 == n / 0x100_0000;
  }

  predicate Chunk(chunk: seq<byte>) {
    0 < |chunk| <= CHUNK
  }

  function Frame(chunk: seq<byte>): seq<byte>
    requires Chunk(chunk)
  {
    Word(|chunk|) + chunk
  }

  function Frames(chunks: seq<seq<byte>>): seq<byte>
    requires forall i :: 0 <= i < |chunks| ==> Chunk(chunks[i])
  {
    if chunks == [] then [] else Frame(chunks[0]) + Frames(chunks[1..])
  }

  /** All frames and the terminator. */
  function Stream(chunks: seq<seq<byte>>): seq<byte>
    requires forall i :: 0 <= i < |chunks| ==> Chunk(chunks[i])
  {
    Frames(chunks) + Word(0)
  }

  // ------------------------------------------------------------- the scanner's side

  datatype Received = Waiting | Complete(content: seq<byte>, rest: seq<byte>)

  /** Takes frames until one of length zero; `Waiting` when the bytes so far end before that. */
  function Receive(b: seq<byte>): Received
    decreases |b|
  {
    if |b| < 4 then Waiting
    else
      var n := WordValue(b[..4]);
      if n == 0 then Complete([], b[4..])
      else if |b| < 4 + n then Waiting
      else
        match Receive(b[4 + n..])
        case Waiting => Waiting
        case Complete(content, rest) => Complete(b[4..4 + n] + content, rest)
  }

  lemma FrameReceived(chunk: seq<byte>, more: seq<byte>)
    requires Chunk(chunk)
    ensures Receive(Frame(chunk) + more)
              == match Receive(more) {
                   case Waiting => Waiting
                   case Complete(content, rest) => Complete(chunk + content, rest)
                 }
  {
    var b := Frame(chunk) + more;
    WordRoundTrip(|chunk|);
    assert b[..4] == Word(|chunk|);
    assert b[4..4 + |chunk|] == chunk && b[4 + |chunk|..] == more;
  }

  lemma EndReceived(rest: seq<byte>)
    ensures Receive(Word(0) + rest) == Complete([], rest)
  {
  }

  /** For every chunking, the receiver gets the file and stops exactly behind the terminator. */
  lemma {:induction false} FramesRoundTrip(chunks: seq<seq<byte>>, rest: seq<byte>)
    requires forall i :: 0 <= i < |chunks| ==> Chunk(chunks[i])
    ensures Receive(Stream(chunks) + rest) == Complete(Flatten(chunks), rest)
  {
    if chunks == [] {
      EndReceived(rest);
      assert Stream(chunks) == Word(0);
    } else {
      FramesRoundTrip(chunks[1..], rest);
      FrameReceived(chunks[0], Stream(chunks[1..]) + rest);
      assert Stream(chunks) + rest == Frame(chunks[0]) + (Stream(chunks[1..]) + rest);
    }
  }

  lemma FrameIncomplete(chunk: seq<byte>, k: nat)
    requires Chunk(chunk) && k < |Frame(chunk)|
    ensures Receive(Frame(chunk)[..k]) == Waiting
  {
  }

  /** No data frame, nor any part of one, is taken for the terminator: a stream cut short is never complete. */
  lemma {:induction false} CutStreamIsIncomplete(chunks: seq<seq<byte>>, k: nat)
    requires forall i :: 0 <= i < |chunks| ==> Chunk(chunks[i])
    requires k < |Stream(chunks)|
    ensures Receive(Stream(chunks)[..k]) == Waiting
  {
    if chunks != [] {
      var frame, more := Frame(chunks[0]), Stream(chunks[1..]);
      assert Stream(chunks) == frame + more;
      if k < |frame| {
        FrameIncomplete(chunks[0], k);
        assert Stream(chunks)[..k] == frame[..k];
      } else {
        CutStreamIsIncomplete(chunks[1..], k - |frame|);
        FrameReceived(chunks[0], more[..k - |frame|]);
        assert Stream(chunks)[..k] == frame + more[..k - |frame|];
      }
    }
  }

  // ----------------------------------------------------------------- the sending loop

  class Source {
    var remaining: seq<byte>

    constructor (content: seq<byte>)
      ensures remaining == content
    {
      remaining := content;
    }

    /** At most `limit` bytes, as few as it likes but none only at the end. */
    method Read(limit: nat) returns (chunk: seq<byte>)
      requires limit > 0
      modifies this
      ensures |chunk| <= limit && old(remaining) == chunk + remaining
      ensures chunk == [] <==> old(remaining) == []
    {
      var k :| 0 <= k <= limit && k <= |remaining| && (k == 0 <==> remaining == []);
      chunk := remaining[..k];
      remaining := remaining[k..];
    }
  }

  /** Whatever sizes the reads have, the bytes after the command decode to the whole file. */
  method SendFile(source: Source, command: seq<byte>) returns (stream: seq<byte>)
    modifies source
    ensures |stream| >= |command| && stream[..|command|] == command
    ensures Receive(stream[|command|..]) == Complete(old(source.remaining), [])
    ensures forall k :: 0 <= k < |stream| - |command| ==> Receive(stream[|command|..][..k]) == Waiting
  {
    stream := command;
    ghost var chunks: seq<seq<byte>> := [];
    var chunk := source.Read(CHUNK);
    while chunk != []
      invariant forall i :: 0 <= i < |chunks| ==> Chunk(chunks[i])
      invariant |chunk| <= CHUNK && (chunk == [] ==> source.remaining == [])
      invariant Flatten(chunks) + (chunk + source.remaining) == old(source.remaining)
      invariant stream == command + Frames(chunks)
      decreases |chunk| + |source.remaining|
    {
      FlattenSnoc(chunks, chunk);
      FramesSnoc(chunks, chunk);
      stream := stream + Word(|chunk|);
      stream := stream + chunk;
      chunks := chunks + [chunk];
      chunk := source.Read(CHUNK);
    }
    stream := stream + Word(0);
    assert stream[|command|..] == Stream(chunks);
    StreamDecodes(chunks);
  }

  lemma StreamDecodes(chunks: seq<seq<byte>>)
    requires forall i :: 0 <= i < |chunks| ==> Chunk(chunks[i])
    ensures Receive(Stream(chunks)) == Complete(Flatten(chunks), [])
    ensures forall k :: 0 <= k < |Stream(chunks)| ==> Receive(Stream(chunks)[..k]) == Waiting
  {
    assert Stream(chunks) == Stream(chunks) + [];
    FramesRoundTrip(chunks, []);
    forall k | 0 <= k < |Stream(chunks)| ensures Receive(Stream(chunks)[..k]) == Waiting {
      CutStreamIsIncomplete(chunks, k);
    }
  }

  lemma {:induction false} FramesSnoc(chunks: seq<seq<byte>>, chunk: seq<byte>)
    requires Chunk(chunk) && forall i :: 0 <= i < |chunks| ==> Chunk(chunks[i])
    ensures Frames(chunks + [chunk]) == Frames(chunks) + Word(|chunk|) + chunk
  {
    if chunks == [] {
      assert ([] + [chunk])[1..] == [];
    } else {
      FramesSnoc(chunks[1..], chunk);
      assert (chunks + [chunk])[1..] == chunks[1..] + [chunk];
      assert Frames(chunks + [chunk]) == Frame(chunks[0]) + Frames(chunks[1..] + [chunk]);
    }
  }

  lemma {:induction false} FlattenSnoc(chunks: seq<seq<byte>>, chunk: seq<byte>)
    ensures Flatten(chunks + [chunk]) == Flatten(chunks) + chunk
  {
    if chunks == [] {
      assert ([] + [chunk])[1..] == [];
    } else {
      FlattenSnoc(chunks[1..], chunk);
      assert (chunks + [chunk])[1..] == chunks[1..] + [chunk];
    }
  }
}
