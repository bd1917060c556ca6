/**
  Reader of the `ssz_snappy` encoding strategy of the Ethereum consensus p2p interface
  ("Encoding strategies"): a payload is `<length prefix> <snappy framed body>`, where the prefix is
  the length `n` of the raw SSZ bytes as an unsigned protobuf varint and the body decompresses to
  exactly `n` bytes.

  The varint decoder, its encoding length, the Snappy frame decompressor and `maxEncodedLen` are
  the fields of a `Codec`. The decompressor is stateful; it is given the chunks it was fed before.
*/
module SszSnappyDecode {
  import opened Results
  import opened Types

  const MAX_VARINT_BYTES: nat := 10

  /** The SSZ size bounds of the expected payload type. */
  datatype TypeSizes = TypeSizes(minSize: nat, maxSize: nat)

  datatype SszSnappyError =
    | InvalidVarintBytesCount
    | UnderSszMinSize(minSize: nat, sszDataLength: nat)
    | OverSszMaxSize(maxSize: nat, sszDataLength: nat)
    | TooMuchBytesRead(readBytes: nat, sszDataLength: nat)
    | DecompressorError
    | TooManyBytes(sszDataLength: nat)
    | SourceAborted

  /** One call of the decompressor: it threw, or it returned `null` (None) or some bytes. */
  datatype Uncompressed = Threw | Produced(output: Option<Bytes>)

  datatype Codec = Codec(
    varintDecode: Bytes -> Option<nat>,        // None: the decoder threw
    varintEncodingLength: nat -> nat,
    uncompress: (seq<Bytes>, Bytes) -> Uncompressed,  // (chunks fed before, this chunk)
    maxEncodedLen: nat -> nat)

  /** The state of a buffered source: bytes received and not yet consumed, chunks still to come. */
  datatype SourceState = SourceState(buffer: Bytes, pending: seq<Bytes>, isDone: bool)

  /** A chunked byte stream with a buffer that persists across iterators. */
  class BufferedSource {
    var buffer: Bytes
    var pending: seq<Bytes>
    var isDone: bool

    constructor (chunks: seq<Bytes>)
      ensures State() == SourceState([], chunks, false)
    {
      buffer, pending, isDone := [], chunks, false;
    }

    function State(): SourceState
      reads this
    {
      SourceState(buffer, pending, isDone)
    }

    /**
      One `next()` of an iterator; `first` is true on the iterator's first call. A first call
      hands out the bytes left by an earlier consumer without reading; otherwise the next chunk
      is appended to the buffer, or the source reports that it is done.
    */
    method Next(first: bool) returns (more: bool)
      modifies this
      ensures (more, State()) == Advanced(old(State()), first)
    {
      if first && |buffer| > 0 {
        return true;
      }
      if pending == [] {
        isDone := true;
        return false;
      }
      buffer, pending := buffer + pending[0], pending[1..];
      return true;
    }

    /** Drops the first `n` buffered bytes, or all of them when fewer are buffered. */
    method Consume(n: nat)
      modifies this
      ensures State() == old(State()).(buffer := Drop(old(buffer), n))
    {
      buffer := Drop(buffer, n);
    }
  }

  function Drop(b: Bytes, n: nat): (r: Bytes)
    ensures |r| == if n <= |b| then |b| - n else 0
  {
    if n <= |b| then b[n..] else []
  }

  /** The effect of one `next()` on a source state; see `BufferedSource.Next`. */
  function Advanced(s: SourceState, first: bool): (r: (bool, SourceState))
    ensures r.0 && !(first && |s.buffer| > 0) ==> |r.1.pending| == |s.pending| - 1
    ensures !(first && |s.buffer| > 0) ==> r.0 == (s.pending != [])
  {
    if first && |s.buffer| > 0 then (true, s)
    else if s.pending == [] then (false, s.(isDone := true))
    else (true, s.(buffer := s.buffer + s.pending[0], pending := s.pending[1..]))
  }

  /** The outcome of a reader: its result and the source state it leaves. */
  datatype Read<T> = Read(result: Result<T, SszSnappyError>, source: SourceState)

  // ---------------------------------------------------------------------------------------------
  // Header
  // ---------------------------------------------------------------------------------------------

  /** The header step on a non-empty buffer: decode the varint, consume its length, check the bounds. */
  function HeaderAt(codec: Codec, sizes: TypeSizes, s: SourceState): Read<nat> {
    match codec.varintDecode(s.buffer)
    case None => Read(Err(InvalidVarintBytesCount), s)
    case Some(n) =>
      var consumed := s.(buffer := Drop(s.buffer, codec.varintEncodingLength(n)));
      if n < sizes.minSize then Read(Err(UnderSszMinSize(sizes.minSize, n)), consumed)
      else if n > sizes.maxSize then Read(Err(OverSszMaxSize(sizes.maxSize, n)), consumed)
      else Read(Ok(n), consumed)
  }

  /** The header reader from source state `s`; `first` tells whether no chunk was asked for yet. */
  function HeaderFrom(codec: Codec, sizes: TypeSizes, s: SourceState, first: bool): Read<nat>
    decreases |s.pending|, if first then 1 else 0
  {
    var (more, s1) := Advanced(s, first);
    if !more then Read(Err(SourceAborted), s1)
    else if |s1.buffer| == 0 then HeaderFrom(codec, sizes, s1, false)
    else HeaderAt(codec, sizes, s1)
  }

  /** The first non-empty buffer an iterator over `s` hands out, or None when the source ends before. */
  function FirstNonEmpty(s: SourceState, first: bool): (r: Option<SourceState>)
    ensures r.Some? ==> |r.value.buffer| > 0
    decreases |s.pending|, if first then 1 else 0
  {
    var (more, s1) := Advanced(s, first);
    if !more then None
    else if |s1.buffer| == 0 then FirstNonEmpty(s1, false)
    else Some(s1)
  }

  /**
    The header reader passes over empty chunks and decodes the first non-empty buffer; a source
    that ends first is `SOURCE_ABORTED`, and nothing else is consumed.
  */
  lemma {:induction false} HeaderSkipsEmptyChunks(codec: Codec, sizes: TypeSizes, s: SourceState, first: bool)
    ensures FirstNonEmpty(s, first).None? ==> HeaderFrom(codec, sizes, s, first).result == Err(SourceAborted)
    ensures FirstNonEmpty(s, first).Some? ==>
              HeaderFrom(codec, sizes, s, first) == HeaderAt(codec, sizes, FirstNonEmpty(s, first).value)
    decreases |s.pending|, if first then 1 else 0
  {
    var (more, s1) := Advanced(s, first);
    if more && |s1.buffer| == 0 {
      HeaderSkipsEmptyChunks(codec, sizes, s1, false);
    }
  }

  /**
    A header read succeeds only with a length within the type's bounds, and then it has consumed
    exactly the varint's encoding length from the buffer it decoded.
  */
  lemma {:induction false} HeaderResult(codec: Codec, sizes: TypeSizes, s: SourceState, first: bool)
    ensures var h := HeaderFrom(codec, sizes, s, first);
      h.result.Ok? ==>
        && sizes.minSize <= h.result.value <= sizes.maxSize
        && FirstNonEmpty(s, first).Some?
        && var b := FirstNonEmpty(s, first).value;
           codec.varintDecode(b.buffer) == Some(h.result.value)
           && h.source == b.(buffer := Drop(b.buffer, codec.varintEncodingLength(h.result.value)))
    decreases |s.pending|, if first then 1 else 0
  {
    HeaderSkipsEmptyChunks(codec, sizes, s, first);
  }

  /** The four ways the header reader fails, each with its condition. */
  lemma HeaderErrors(codec: Codec, sizes: TypeSizes, s: SourceState, first: bool)
    ensures var h := HeaderFrom(codec, sizes, s, first);
      match FirstNonEmpty(s, first)
      case None => h.result == Err(SourceAborted)
      case Some(b) =>
        match codec.varintDecode(b.buffer)
        case None => h.result == Err(InvalidVarintBytesCount)
        case Some(n) =>
          (n < sizes.minSize <==> h.result == Err(UnderSszMinSize(sizes.minSize, n)))
          && (sizes.minSize <= n && n > sizes.maxSize <==> h.result == Err(OverSszMaxSize(sizes.maxSize, n)))
  {
    HeaderSkipsEmptyChunks(codec, sizes, s, first);
  }

  method ReadSszSnappyHeader(source: BufferedSource, sizes: TypeSizes, codec: Codec) returns (r: Result<nat, SszSnappyError>)
    modifies source
    ensures Read(r, source.State()) == HeaderFrom(codec, sizes, old(source.State()), true)
  {
    var first := true;
    while true
      invariant HeaderFrom(codec, sizes, source.State(), first) == HeaderFrom(codec, sizes, old(source.State()), true)
      decreases |source.pending|, if first then 1 else 0
    {
      var more := source.Next(first);
      first := false;
      if !more {
        return Err(SourceAborted);
      }
      // an empty buffer holds no varint: ask for more
      if |source.buffer| == 0 {
        continue;
      }
      var decoded := codec.varintDecode(source.buffer);
      if decoded.None? {
        return Err(InvalidVarintBytesCount);
      }
      var sszDataLength := decoded.value;
      source.Consume(codec.varintEncodingLength(sszDataLength));
      if sszDataLength < sizes.minSize {
        return Err(UnderSszMinSize(sizes.minSize, sszDataLength));
      }
      if sszDataLength > sizes.maxSize {
        return Err(OverSszMaxSize(sizes.maxSize, sszDataLength));
      }
      return Ok(sszDataLength);
    }
  }

  // ---------------------------------------------------------------------------------------------
  // Body
  // ---------------------------------------------------------------------------------------------

  /** The outcome of the body reader, with the chunks its decompressor was fed. */
  datatype BodyRead = BodyRead(result: Result<Bytes, SszSnappyError>, source: SourceState, fed: seq<Bytes>)

  function OutputBytes(o: Option<Bytes>): Bytes {
    if o.Some? then o.value else []
  }

  /**
    The body reader from source state `s`, for a declared length `n`, with `readBytes` bytes
    counted so far, `fed` the chunks given to the decompressor and `data` its output so far.
  */
  function BodyFrom(codec: Codec, n: nat, s: SourceState, first: bool, readBytes: nat, fed: seq<Bytes>, data: Bytes): BodyRead
    decreases |s.pending|, if first then 1 else 0
  {
    var (more, s1) := Advanced(s, first);
    if !more then BodyRead(Err(SourceAborted), s1, fed)
    else
      var read := readBytes + |s1.buffer|;
      if read > codec.maxEncodedLen(n) then BodyRead(Err(TooMuchBytesRead(read, n)), s1, fed)
      else if |s1.buffer| == 0 then BodyFrom(codec, n, s1, false, read, fed, data)
      else match codec.uncompress(fed, s1.buffer)
        case Threw => BodyRead(Err(DecompressorError), s1, fed)
        case Produced(o) =>
          var s2 := s1.(buffer := []);
          var fed' := fed + [s1.buffer];
          var data' := data + OutputBytes(o);
          if |data'| > n then BodyRead(Err(TooManyBytes(n)), s2, fed')
          else if |data'| < n then BodyFrom(codec, n, s2, false, read, fed', data')
          else BodyRead(Ok(data'[..n]), s2, fed')
  }

  /** The concatenated decompressor outputs for `chunks` fed one after another after `prior`; None if it throws. */
  function Decompressed(codec: Codec, prior: seq<Bytes>, chunks: seq<Bytes>): Option<Bytes>
    decreases |chunks|
  {
    if chunks == [] then Some([])
    else match codec.uncompress(prior, chunks[0])
      case Threw => None
      case Produced(o) =>
        match Decompressed(codec, prior + [chunks[0]], chunks[1..])
        case None => None
        case Some(rest) => Some(OutputBytes(o) + rest)
  }

  /** The sum of the lengths of `chunks`. */
  function TotalLength(chunks: seq<Bytes>): nat {
    if chunks == [] then 0 else TotalLength(chunks[..|chunks| - 1]) + |chunks[|chunks| - 1]|
  }

  lemma DecompressedAppend(codec: Codec, prior: seq<Bytes>, chunk: Bytes, o: Option<Bytes>, rest: seq<Bytes>, tail: Bytes)
    requires codec.uncompress(prior, chunk) == Produced(o)
    requires Decompressed(codec, prior + [chunk], rest) == Some(tail)
    ensures Decompressed(codec, prior, [chunk] + rest) == Some(OutputBytes(o) + tail)
  {
    assert ([chunk] + rest)[0] == chunk;
    assert ([chunk] + rest)[1..] == rest;
  }

  /**
    `b` succeeded only with `data` followed by the decompressor's output for the chunks fed after
    `fed`, in order.
  */
  ghost predicate ExtendsOutput(codec: Codec, fed: seq<Bytes>, data: Bytes, b: BodyRead) {
    b.result.Ok? ==>
      && |fed| <= |b.fed| && b.fed[..|fed|] == fed
      && Decompressed(codec, fed, b.fed[|fed|..]).Some?
      && b.result.value == data + Decompressed(codec, fed, b.fed[|fed|..]).value
  }

  lemma ExtendsOutputStep(codec: Codec, fed: seq<Bytes>, chunk: Bytes, o: Option<Bytes>, data: Bytes, b: BodyRead)
    requires codec.uncompress(fed, chunk) == Produced(o)
    requires ExtendsOutput(codec, fed + [chunk], data + OutputBytes(o), b)
    ensures ExtendsOutput(codec, fed, data, b)
  {
    if b.result.Ok? {
      var fed' := fed + [chunk];
      var rest := b.fed[|fed'|..];
      var tail := Decompressed(codec, fed', rest).value;
      assert b.fed[..|fed'|] == fed';
      assert b.fed[..|fed|] == fed'[..|fed|] == fed;
      assert b.fed[|fed|..] == [chunk] + rest;
      DecompressedAppend(codec, fed, chunk, o, rest, tail);
    }
  }

  /**
    A successful body is exactly `n` bytes: the output so far followed by what the decompressor
    made of the chunks fed to it by this read, in order.
  */
  lemma {:induction false} BodyIsTheDecompressedStream(codec: Codec, n: nat, s: SourceState, first: bool,
                                                       readBytes: nat, fed: seq<Bytes>, data: Bytes)
    ensures var b := BodyFrom(codec, n, s, first, readBytes, fed, data);
      && (b.result.Ok? ==> |b.result.value| == n)
      && ExtendsOutput(codec, fed, data, b)
    decreases |s.pending|, if first then 1 else 0
  {
    var (more, s1) := Advanced(s, first);
    var read := readBytes + |s1.buffer|;
    if more && read <= codec.maxEncodedLen(n) {
      if |s1.buffer| == 0 {
        BodyIsTheDecompressedStream(codec, n, s1, false, read, fed, data);
      } else if codec.uncompress(fed, s1.buffer).Produced? {
        var o := codec.uncompress(fed, s1.buffer).output;
        var s2 := s1.(buffer := []);
        var fed' := fed + [s1.buffer];
        var data' := data + OutputBytes(o);
        if |data'| < n {
          BodyIsTheDecompressedStream(codec, n, s2, false, read, fed', data');
          ExtendsOutputStep(codec, fed, s1.buffer, o, data, BodyFrom(codec, n, s2, false, read, fed', data'));
        } else if |data'| == n {
          var b := BodyRead(Ok(data'[..n]), s2, fed');
          assert data'[..n] == data';
          assert Decompressed(codec, fed', []) == Some([]);
          assert b.fed[|fed'|..] == [];
          assert ExtendsOutput(codec, fed', data', b);
          ExtendsOutputStep(codec, fed, s1.buffer, o, data, b);
        }
      }
    }
  }

  /**
    Feeding `chunk` after `fed` produced `o`; a body whose chunks start with `fed + [chunk]` and
    whose later chunks decompress also decompresses from `fed`, with `o` in front.
  */
  lemma OutputAfterChunk(codec: Codec, fed: seq<Bytes>, chunk: Bytes, o: Option<Bytes>, whole: seq<Bytes>)
    requires codec.uncompress(fed, chunk) == Produced(o)
    requires |fed| + 1 <= |whole| && whole[..|fed| + 1] == fed + [chunk]
    requires Decompressed(codec, fed + [chunk], whole[|fed| + 1..]).Some?
    ensures whole[..|fed|] == fed
    ensures Decompressed(codec, fed, whole[|fed|..])
         == Some(OutputBytes(o) + Decompressed(codec, fed + [chunk], whole[|fed| + 1..]).value)
  {
    var fed' := fed + [chunk];
    assert whole[..|fed|] == whole[..|fed'|][..|fed|] == fed;
    assert whole[|fed|..] == [chunk] + whole[|fed'|..];
    DecompressedAppend(codec, fed, chunk, o, whole[|fed'|..], Decompressed(codec, fed', whole[|fed'|..]).value);
  }

  /**
    The chunks `b` fed start with `fed`, they decompress, and `data` followed by their output
    stays within `n` bytes, strictly below `n` once a chunk has been fed.
  */
  ghost predicate OutputBelow(codec: Codec, n: nat, fed: seq<Bytes>, data: Bytes, b: BodyRead) {
    && |fed| <= |b.fed| && b.fed[..|fed|] == fed
    && Decompressed(codec, fed, b.fed[|fed|..]).Some?
    && |data| + |Decompressed(codec, fed, b.fed[|fed|..]).value| <= n
    && (|fed| < |b.fed| ==> |data| + |Decompressed(codec, fed, b.fed[|fed|..]).value| < n)
  }

  /** The chunks `b` fed decompress to more than `n` bytes after `data`, and did not before the last one. */
  ghost predicate OutputOverflows(codec: Codec, n: nat, fed: seq<Bytes>, data: Bytes, b: BodyRead) {
    && |fed| < |b.fed|
    && OutputBelow(codec, n, fed, data, b.(fed := b.fed[..|b.fed| - 1]))
    && Decompressed(codec, fed, b.fed[|fed|..]).Some?
    && |data| + |Decompressed(codec, fed, b.fed[|fed|..]).value| > n
  }

  lemma OutputBelowStep(codec: Codec, n: nat, fed: seq<Bytes>, chunk: Bytes, o: Option<Bytes>, data: Bytes, b: BodyRead)
    requires codec.uncompress(fed, chunk) == Produced(o)
    requires |data + OutputBytes(o)| < n
    requires OutputBelow(codec, n, fed + [chunk], data + OutputBytes(o), b)
    ensures OutputBelow(codec, n, fed, data, b)
  {
    OutputAfterChunk(codec, fed, chunk, o, b.fed);
  }

  lemma OutputOverflowsStep(codec: Codec, n: nat, fed: seq<Bytes>, chunk: Bytes, o: Option<Bytes>, data: Bytes, b: BodyRead)
    requires codec.uncompress(fed, chunk) == Produced(o)
    requires |data + OutputBytes(o)| < n
    requires OutputOverflows(codec, n, fed + [chunk], data + OutputBytes(o), b)
    ensures OutputOverflows(codec, n, fed, data, b)
  {
    var fed' := fed + [chunk];
    var b' := b.(fed := b.fed[..|b.fed| - 1]);
    OutputBelowStep(codec, n, fed, chunk, o, data, b');
    assert b.fed[..|fed'|] == b'.fed[..|fed'|] == fed';
    OutputAfterChunk(codec, fed, chunk, o, b.fed);
  }

  /**
    A body read that failed for any reason but too much output fed chunks whose output, after
    `data`, stays within `n` bytes, strictly below `n` once one was fed.
  */
  lemma {:induction false} BodyErrorOutputBelow(codec: Codec, n: nat, s: SourceState, first: bool,
                                                readBytes: nat, fed: seq<Bytes>, data: Bytes)
    requires |data| <= n
    ensures var b := BodyFrom(codec, n, s, first, readBytes, fed, data);
      b.result.Err? && !b.result.error.TooManyBytes? ==> OutputBelow(codec, n, fed, data, b)
    decreases |s.pending|, if first then 1 else 0
  {
    var b := BodyFrom(codec, n, s, first, readBytes, fed, data);
    var (more, s1) := Advanced(s, first);
    var read := readBytes + |s1.buffer|;
    if !more || read > codec.maxEncodedLen(n) {
      assert b.fed[|fed|..] == [];
    } else if |s1.buffer| == 0 {
      BodyErrorOutputBelow(codec, n, s1, false, read, fed, data);
    } else if codec.uncompress(fed, s1.buffer).Threw? {
      assert b.fed[|fed|..] == [];
    } else {
      var o := codec.uncompress(fed, s1.buffer).output;
      var data' := data + OutputBytes(o);
      if |data'| < n {
        BodyErrorOutputBelow(codec, n, s1.(buffer := []), false, read, fed + [s1.buffer], data');
        if b.result.Err? && !b.result.error.TooManyBytes? {
          OutputBelowStep(codec, n, fed, s1.buffer, o, data, b);
        }
      }
    }
  }

  /** The first chunk `b` fed after `fed` took the output past `n`. */
  lemma OverflowOnChunk(codec: Codec, n: nat, fed: seq<Bytes>, chunk: Bytes, o: Option<Bytes>, data: Bytes, b: BodyRead)
    requires codec.uncompress(fed, chunk) == Produced(o)
    requires |data| <= n < |data + OutputBytes(o)|
    requires b.fed == fed + [chunk]
    ensures OutputOverflows(codec, n, fed, data, b)
  {
    var b' := b.(fed := b.fed[..|b.fed| - 1]);
    assert b'.fed == fed;
    assert b'.fed[|fed|..] == [];
    assert b.fed[|fed| + 1..] == [];
    assert Decompressed(codec, fed + [chunk], []) == Some([]);
    OutputAfterChunk(codec, fed, chunk, o, b.fed);
  }

  /** A body read that failed for too much output crossed `n` with its last chunk only. */
  lemma {:induction false} BodyErrorOutputOverflows(codec: Codec, n: nat, s: SourceState, first: bool,
                                                    readBytes: nat, fed: seq<Bytes>, data: Bytes)
    requires |data| <= n
    ensures var b := BodyFrom(codec, n, s, first, readBytes, fed, data);
      b.result.Err? && b.result.error.TooManyBytes? ==> OutputOverflows(codec, n, fed, data, b)
    decreases |s.pending|, if first then 1 else 0
  {
    var b := BodyFrom(codec, n, s, first, readBytes, fed, data);
    var (more, s1) := Advanced(s, first);
    var read := readBytes + |s1.buffer|;
    if more && read <= codec.maxEncodedLen(n) {
      if |s1.buffer| == 0 {
        BodyErrorOutputOverflows(codec, n, s1, false, read, fed, data);
      } else if codec.uncompress(fed, s1.buffer).Produced? {
        var o := codec.uncompress(fed, s1.buffer).output;
        var fed' := fed + [s1.buffer];
        var data' := data + OutputBytes(o);
        if |data'| > n {
          OverflowOnChunk(codec, n, fed, s1.buffer, o, data, b);
        } else if |data'| < n {
          BodyErrorOutputOverflows(codec, n, s1.(buffer := []), false, read, fed', data');
          if b.result.Err? && b.result.error.TooManyBytes? {
            OutputOverflowsStep(codec, n, fed, s1.buffer, o, data, b);
          }
        }
      }
    }
  }

  /**
    A body read that failed in the decompressor failed on the buffer it last handed over, which
    was not counted as fed; one whose source ran out found no chunk pending.
  */
  lemma {:induction false} BodyErrorCause(codec: Codec, n: nat, s: SourceState, first: bool,
                                          readBytes: nat, fed: seq<Bytes>, data: Bytes)
    ensures var b := BodyFrom(codec, n, s, first, readBytes, fed, data);
      && (b.result == Err(DecompressorError) ==>
            |b.source.buffer| > 0 && codec.uncompress(b.fed, b.source.buffer).Threw?)
      && (b.result == Err(SourceAborted) ==> b.source.pending == [] && b.source.isDone)
    decreases |s.pending|, if first then 1 else 0
  {
    var (more, s1) := Advanced(s, first);
    var read := readBytes + |s1.buffer|;
    if more && read <= codec.maxEncodedLen(n) {
      if |s1.buffer| == 0 {
        BodyErrorCause(codec, n, s1, false, read, fed, data);
      } else if codec.uncompress(fed, s1.buffer).Produced? {
        var o := codec.uncompress(fed, s1.buffer).output;
        var data' := data + OutputBytes(o);
        if |data'| < n {
          BodyErrorCause(codec, n, s1.(buffer := []), false, read, fed + [s1.buffer], data');
        }
      }
    }
  }

  /**
    How a body read fails: too much output crosses `n` with the last chunk fed; a decompressor
    error is raised by the buffer handed over last, with no chunk fed for it; a source that ends
    leaves nothing pending; and in the last two cases the output so far is within `n` bytes,
    strictly below `n` once a chunk has been fed.
  */
  lemma BodyErrors(codec: Codec, n: nat, s: SourceState, first: bool, readBytes: nat, fed: seq<Bytes>, data: Bytes)
    requires |data| <= n
    ensures var b := BodyFrom(codec, n, s, first, readBytes, fed, data);
      && (b.result == Err(TooManyBytes(n)) ==> OutputOverflows(codec, n, fed, data, b))
      && (b.result == Err(DecompressorError) ==>
            && |b.source.buffer| > 0 && codec.uncompress(b.fed, b.source.buffer).Threw?
            && OutputBelow(codec, n, fed, data, b))
      && (b.result == Err(SourceAborted) ==>
            && b.source.pending == [] && b.source.isDone
            && OutputBelow(codec, n, fed, data, b))
  {
    BodyErrorOutputBelow(codec, n, s, first, readBytes, fed, data);
    BodyErrorOutputOverflows(codec, n, s, first, readBytes, fed, data);
    BodyErrorCause(codec, n, s, first, readBytes, fed, data);
  }

  /**
    `b`, started from source state `s` with `readBytes` counted, pulled a prefix of the pending
    chunks; if it succeeded, the counted bytes, the bytes buffered in `s` and the pulled chunks
    add up to at most `maxEncodedLen(n)`.
  */
  ghost predicate WithinInputBound(codec: Codec, n: nat, s: SourceState, readBytes: nat, b: BodyRead) {
    && |b.source.pending| <= |s.pending|
    && b.source.pending == s.pending[|s.pending| - |b.source.pending|..]
    && (b.result.Ok? ==>
          readBytes + |s.buffer| + TotalLength(s.pending[..|s.pending| - |b.source.pending|]) <= codec.maxEncodedLen(n))
  }

  /** One `next()` followed by a read within the bound is a read within the bound. */
  lemma InputBoundStep(codec: Codec, n: nat, s: SourceState, first: bool, readBytes: nat,
                       s2: SourceState, read: nat, b: BodyRead)
    requires Advanced(s, first).0
    requires s2.pending == Advanced(s, first).1.pending
    requires read + |s2.buffer| == readBytes + |Advanced(s, first).1.buffer|
    requires WithinInputBound(codec, n, s2, read, b)
    ensures WithinInputBound(codec, n, s, readBytes, b)
  {
    var s1 := Advanced(s, first).1;
    if !(first && |s.buffer| > 0) {
      var L := |b.source.pending|;
      var k := |s1.pending| - L;
      assert s1.pending == s.pending[1..];
      assert s1.buffer == s.buffer + s.pending[0];
      assert b.source.pending == s.pending[|s.pending| - L..] by {
        assert s1.pending[k..] == s.pending[k + 1..];
      }
      if b.result.Ok? {
        TotalLengthOfPulled(s.pending, k);
      }
    }
  }

  /** Pulling `k + 1` chunks takes the first chunk and then `k` of the rest. */
  lemma TotalLengthOfPulled(pending: seq<Bytes>, k: nat)
    requires k < |pending|
    ensures TotalLength(pending[..k + 1]) == |pending[0]| + TotalLength(pending[1..][..k])
  {
    TotalLengthPrepend(pending[0], pending[1..][..k]);
    assert pending[..k + 1] == [pending[0]] + pending[1..][..k];
  }

  /**
    Input bound: the bytes a successful body read takes from the source (its buffer and the
    chunks it pulls) never exceed `maxEncodedLen(n)`, and it pulls a prefix of the pending chunks.
  */
  lemma {:induction false} BodyReadsAtMostMaxEncodedLen(codec: Codec, n: nat, s: SourceState, first: bool,
                                                        readBytes: nat, fed: seq<Bytes>, data: Bytes)
    ensures WithinInputBound(codec, n, s, readBytes, BodyFrom(codec, n, s, first, readBytes, fed, data))
    decreases |s.pending|, if first then 1 else 0
  {
    var (more, s1) := Advanced(s, first);
    var b := BodyFrom(codec, n, s, first, readBytes, fed, data);
    if more {
      var read := readBytes + |s1.buffer|;
      if read <= codec.maxEncodedLen(n) && |s1.buffer| == 0 {
        BodyReadsAtMostMaxEncodedLen(codec, n, s1, false, read, fed, data);
        InputBoundStep(codec, n, s, first, readBytes, s1, read, b);
      } else if read <= codec.maxEncodedLen(n) && codec.uncompress(fed, s1.buffer).Produced? {
        var o := codec.uncompress(fed, s1.buffer).output;
        var s2 := s1.(buffer := []);
        var data' := data + OutputBytes(o);
        if |data'| < n {
          BodyReadsAtMostMaxEncodedLen(codec, n, s2, false, read, fed + [s1.buffer], data');
        } else {
          assert s2.pending[..0] == [];
        }
        InputBoundStep(codec, n, s, first, readBytes, s2, read, b);
      } else {
        assert s1.pending[..0] == [];
        InputBoundStep(codec, n, s, first, readBytes, s1, readBytes, b);
      }
    }
  }

  lemma {:induction false} TotalLengthPrepend(c: Bytes, chunks: seq<Bytes>)
    ensures TotalLength([c] + chunks) == |c| + TotalLength(chunks)
    decreases |chunks|
  {
    if chunks != [] {
      var init := chunks[..|chunks| - 1];
      TotalLengthPrepend(c, init);
      assert ([c] + chunks)[..|chunks|] == [c] + init;
    }
  }

  /**
    An input that goes past `maxEncodedLen(n)` is refused as soon as it is received: before the
    empty-chunk skip and before the decompressor sees it.
  */
  lemma TooMuchInputIsRefusedFirst(codec: Codec, n: nat, s: SourceState, first: bool, readBytes: nat, fed: seq<Bytes>, data: Bytes)
    requires Advanced(s, first).0
    requires readBytes + |Advanced(s, first).1.buffer| > codec.maxEncodedLen(n)
    ensures BodyFrom(codec, n, s, first, readBytes, fed, data).result
         == Err(TooMuchBytesRead(readBytes + |Advanced(s, first).1.buffer|, n))
  {
  }

  method ReadSszSnappyBody(source: BufferedSource, sszDataLength: nat, codec: Codec) returns (r: Result<Bytes, SszSnappyError>)
    modifies source
    ensures Read(r, source.State()) == var b := BodyFrom(codec, sszDataLength, old(source.State()), true, 0, [], []);
                                       Read(b.result, b.source)
  {
    var fed: seq<Bytes> := [];          // the state of the decompressor
    var uncompressedData: Bytes := [];
    var readBytes: nat := 0;
    var first := true;
    while true
      invariant BodyFrom(codec, sszDataLength, source.State(), first, readBytes, fed, uncompressedData)
             == BodyFrom(codec, sszDataLength, old(source.State()), true, 0, [], [])
      decreases |source.pending|, if first then 1 else 0
    {
      ghost var spec := BodyFrom(codec, sszDataLength, source.State(), first, readBytes, fed, uncompressedData);
      var more := source.Next(first);
      first := false;
      if !more {
        return Err(SourceAborted);
      }
      readBytes := readBytes + |source.buffer|;
      if readBytes > codec.maxEncodedLen(sszDataLength) {
        return Err(TooMuchBytesRead(readBytes, sszDataLength));
      }
      // nothing to decompress in an empty buffer
      if |source.buffer| == 0 {
        continue;
      }
      var uncompressed := codec.uncompress(fed, source.buffer);
      if uncompressed.Threw? {
        return Err(DecompressorError);
      }
      fed := fed + [source.buffer];
      source.Consume(|source.buffer|);
      assert source.buffer == [];
      ghost var data' := uncompressedData + OutputBytes(uncompressed.output);
      if uncompressed.output.Some? {
        uncompressedData := uncompressedData + uncompressed.output.value;
      }
      assert uncompressedData == data';
      if |uncompressedData| > sszDataLength {
        return Err(TooManyBytes(sszDataLength));
      }
      // fewer than `sszDataLength` bytes so far
      if |uncompressedData| < sszDataLength {
        assert spec == BodyFrom(codec, sszDataLength, source.State(), false, readBytes, fed, uncompressedData);
        continue;
      }
      assert spec == BodyRead(Ok(uncompressedData[..sszDataLength]), source.State(), fed);
      return Ok(uncompressedData[..sszDataLength]);
    }
  }

  // ---------------------------------------------------------------------------------------------
  // Payload
  // ---------------------------------------------------------------------------------------------

  /** A payload read: the header, then the body with the header's length on what the header left. */
  function PayloadFrom(codec: Codec, sizes: TypeSizes, s: SourceState): Read<Bytes> {
    var h := HeaderFrom(codec, sizes, s, true);
    match h.result
    case Err(e) => Read(Err(e), h.source)
    case Ok(n) =>
      var b := BodyFrom(codec, n, h.source, true, 0, [], []);
      Read(b.result, b.source)
  }

  method ReadSszSnappyPayload(source: BufferedSource, sizes: TypeSizes, codec: Codec) returns (r: Result<Bytes, SszSnappyError>)
    modifies source
    ensures Read(r, source.State()) == PayloadFrom(codec, sizes, old(source.State()))
  {
    var header := ReadSszSnappyHeader(source, sizes, codec);
    if header.Err? {
      return Err(header.error);
    }
    r := ReadSszSnappyBody(source, header.value, codec);
  }

  /** A successful payload has a length within the type's SSZ bounds. */
  lemma PayloadWithinTypeBounds(codec: Codec, sizes: TypeSizes, s: SourceState)
    ensures PayloadFrom(codec, sizes, s).result.Ok? ==>
              sizes.minSize <= |PayloadFrom(codec, sizes, s).result.value| <= sizes.maxSize
  {
    var h := HeaderFrom(codec, sizes, s, true);
    HeaderResult(codec, sizes, s, true);
    if h.result.Ok? {
      BodyIsTheDecompressedStream(codec, h.result.value, h.source, true, 0, [], []);
    }
  }
}
