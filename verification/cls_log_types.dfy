/** The log record and log header of the class log, with their versioned
    encodings. An encoding is a frame: a struct version, the oldest decoder
    version able to read it (compat), and a sequence of encoded fields. A
    string or a buffer list is carried as a length-prefixed byte chunk, a
    timestamp as a stamp. A decoder refuses a frame whose compat exceeds its
    own version, reads fields in order, and skips whatever fields it does not
    read at the end of the frame. */
module ClsLogTypes {
  import opened ByteString

  /** utime_t: seconds and nanoseconds, compared as a pair. */
  datatype UTime = UTime(sec: nat, nsec: nat)

  /** ceph::real_time: an opaque clock reading; its conversion to utime_t is
      supplied by the caller. */
  datatype RealTime = RealTime(ticks: int)

  datatype LogEntry = LogEntry(id: Bytes, section: Bytes, name: Bytes, timestamp: UTime, data: Bytes)

  datatype LogHeader = LogHeader(maxMarker: Bytes, maxTime: UTime)

  datatype Field = Chunk(bytes: Bytes) | Stamp(time: UTime)

  datatype Frame = Frame(version: nat, compat: nat, fields: seq<Field>)

  datatype DecodeError =
    | EndOfFrame                                  // a field was read past the end of the frame
    | UnexpectedField                             // a chunk was expected where a stamp is, or the reverse
    | TooOld(decoderVersion: nat, compat: nat)    // the frame needs a newer decoder

  datatype Result<+T> = Ok(value: T) | Err(error: DecodeError) {
    predicate IsFailure() {
      Err?
    }

    function PropagateFailure<U>(): Result<U>
      requires Err?
    {
      Err(error)
    }

    function Extract(): T
      requires Ok?
    {
      value
    }
  }

  /** Read position inside a frame's fields. */
  datatype Cursor = Cursor(fields: seq<Field>, pos: nat)

  /** A default-constructed entry: every string and the data empty, time zero. */
  const DefaultEntry := LogEntry([], [], [], UTime(0, 0), [])

  /** Constructor from a utime_t: the id stays empty. */
  function NewEntry(timestamp: UTime, section: Bytes, name: Bytes, data: Bytes): (e: LogEntry)
    ensures e.id == []
    ensures e.section == section && e.name == name && e.timestamp == timestamp && e.data == data
  {
    LogEntry([], section, name, timestamp, data)
  }

  /** Constructor from a real_time, converted by toUTime: the id stays empty. */
  function NewEntryFromRealTime(toUTime: RealTime -> UTime, timestamp: RealTime,
                                section: Bytes, name: Bytes, data: Bytes): (e: LogEntry)
    ensures e.id == []
    ensures e.section == section && e.name == name && e.timestamp == toUTime(timestamp) && e.data == data
    ensures e == NewEntry(toUTime(timestamp), section, name, data)
  {
    LogEntry([], section, name, toUTime(timestamp), data)
  }

  /** Opens a frame for a decoder of the given version. */
  function DecodeStart(decoderVersion: nat, f: Frame): (r: Result<Cursor>)
    ensures r.Ok? <==> f.compat <= decoderVersion
    ensures r.Ok? ==> r.value == Cursor(f.fields, 0)
    ensures r.Err? ==> r.error == TooOld(decoderVersion, f.compat)
  {
    if decoderVersion < f.compat then Err(TooOld(decoderVersion, f.compat)) else Ok(Cursor(f.fields, 0))
  }

  /** Reads a string or buffer list: the chunk at the read position, moving one
      field on; past the end, or on a stamp, the read fails. */
  function ReadChunk(c: Cursor): (r: Result<(Bytes, Cursor)>)
    ensures r.Ok? ==> c.pos < |c.fields| && c.fields[c.pos] == Chunk(r.value.0)
                      && r.value.1 == Cursor(c.fields, c.pos + 1)
    ensures c.pos < |c.fields| && c.fields[c.pos].Chunk? ==>
              r == Ok((c.fields[c.pos].bytes, Cursor(c.fields, c.pos + 1)))
    ensures c.pos < |c.fields| && c.fields[c.pos].Stamp? ==> r == Err(UnexpectedField)
    ensures c.pos >= |c.fields| ==> r == Err(EndOfFrame)
  {
    if c.pos >= |c.fields| then Err(EndOfFrame)
    else match c.fields[c.pos]
      case Chunk(b) => Ok((b, Cursor(c.fields, c.pos + 1)))
      case Stamp(_) => Err(UnexpectedField)
  }

  /** Reads a utime_t: the stamp at the read position, moving one field on;
      past the end, or on a chunk, the read fails. */
  function ReadStamp(c: Cursor): (r: Result<(UTime, Cursor)>)
    ensures r.Ok? ==> c.pos < |c.fields| && c.fields[c.pos] == Stamp(r.value.0)
                      && r.value.1 == Cursor(c.fields, c.pos + 1)
    ensures c.pos < |c.fields| && c.fields[c.pos].Stamp? ==>
              r == Ok((c.fields[c.pos].time, Cursor(c.fields, c.pos + 1)))
    ensures c.pos < |c.fields| && c.fields[c.pos].Chunk? ==> r == Err(UnexpectedField)
    ensures c.pos >= |c.fields| ==> r == Err(EndOfFrame)
  {
    if c.pos >= |c.fields| then Err(EndOfFrame)
    else match c.fields[c.pos]
      case Stamp(t) => Ok((t, Cursor(c.fields, c.pos + 1)))
      case Chunk(_) => Err(UnexpectedField)
  }

  /** cls_log_entry::encode: version 2, compat 1, and a frame from which the
      entry decodes back. */
  function EncodeEntry(e: LogEntry): (f: Frame)
    ensures f.version == 2 && f.compat == 1
    ensures DecodeEntry(f) == Ok(e)
  {
    Frame(2, 1, [Chunk(e.section), Chunk(e.name), Stamp(e.timestamp), Chunk(e.data), Chunk(e.id)])
  }

  /** The frames an entry decoder of version 2 can read: compat at most 2,
      then chunk, chunk, stamp, chunk, and one more chunk (the id) when the
      frame's version is 2 or later. */
  predicate EntryFrameReadable(f: Frame)
  {
    && f.compat <= 2
    && |f.fields| >= (if f.version >= 2 then 5 else 4)
    && f.fields[0].Chunk? && f.fields[1].Chunk? && f.fields[2].Stamp? && f.fields[3].Chunk?
    && (f.version >= 2 ==> f.fields[4].Chunk?)
  }

  /** cls_log_entry::decode into an existing entry: the four v1 fields are
      always read; the id only from a frame of version 2 or later, otherwise
      the prior id is kept. */
  function DecodeEntryInto(prior: LogEntry, f: Frame): (r: Result<LogEntry>)
    ensures r.Ok? <==> EntryFrameReadable(f)
    ensures f.compat > 2 ==> r == Err(TooOld(2, f.compat))
    ensures r.Ok? ==> && f.fields[0] == Chunk(r.value.section) && f.fields[1] == Chunk(r.value.name)
                      && f.fields[2] == Stamp(r.value.timestamp) && f.fields[3] == Chunk(r.value.data)
    ensures r.Ok? && f.version >= 2 ==> f.fields[4] == Chunk(r.value.id)
    ensures r.Ok? && f.version < 2 ==> r.value.id == prior.id
  {
    var c0 :- DecodeStart(2, f);
    var section :- ReadChunk(c0);
    var name :- ReadChunk(section.1);
    var timestamp :- ReadStamp(name.1);
    var data :- ReadChunk(timestamp.1);
    if f.version >= 2 then
      var id :- ReadChunk(data.1);
      Ok(LogEntry(id.0, section.0, name.0, timestamp.0, data.0))
    else
      Ok(LogEntry(prior.id, section.0, name.0, timestamp.0, data.0))
  }

  /** Decoding into a default-constructed entry: the fields come from the
      frame, and an old frame yields an empty id. */
  function DecodeEntry(f: Frame): (r: Result<LogEntry>)
    ensures r.Ok? <==> EntryFrameReadable(f)
    ensures f.compat > 2 ==> r == Err(TooOld(2, f.compat))
    ensures r.Ok? ==> && f.fields[0] == Chunk(r.value.section) && f.fields[1] == Chunk(r.value.name)
                      && f.fields[2] == Stamp(r.value.timestamp) && f.fields[3] == Chunk(r.value.data)
    ensures r.Ok? && f.version >= 2 ==> f.fields[4] == Chunk(r.value.id)
    ensures r.Ok? && f.version < 2 ==> r.value.id == []
  {
    DecodeEntryInto(DefaultEntry, f)
  }

  /** The fields a version-1 writer produced: no id. */
  function V1EntryFields(section: Bytes, name: Bytes, timestamp: UTime, data: Bytes): seq<Field>
  {
    [Chunk(section), Chunk(name), Stamp(timestamp), Chunk(data)]
  }

  /** Decoding an encoded entry gives it back, whatever the entry decoded into held. */
  lemma EntryRoundTrip(e: LogEntry, prior: LogEntry)
    ensures DecodeEntryInto(prior, EncodeEntry(e)) == Ok(e)
    ensures DecodeEntry(EncodeEntry(e)) == Ok(e)
  {
  }

  /** The encoding is version 2 and readable by any decoder of version 1 or
      later; its first four fields are exactly a version-1 payload, so a
      version-1 frame cut from it decodes to the same section, name, timestamp
      and data. */
  lemma EncodedEntryLayout(e: LogEntry, decoderVersion: nat, prior: LogEntry)
    ensures EncodeEntry(e).version == 2
    ensures DecodeStart(decoderVersion, EncodeEntry(e)).Ok? <==> 1 <= decoderVersion
    ensures EncodeEntry(e).fields == V1EntryFields(e.section, e.name, e.timestamp, e.data) + [Chunk(e.id)]
    ensures DecodeEntryInto(prior, Frame(1, 1, EncodeEntry(e).fields[..4])) == Ok(e.(id := prior.id))
  {
  }

  /** A version-1 payload (no id) decodes its four fields and leaves the id as
      it was; decoded into a default-constructed entry the id is empty. */
  lemma V1PayloadKeepsId(prior: LogEntry, section: Bytes, name: Bytes, timestamp: UTime, data: Bytes,
                          compat: nat)
    requires compat <= 1
    ensures DecodeEntryInto(prior, Frame(1, compat, V1EntryFields(section, name, timestamp, data)))
            == Ok(LogEntry(prior.id, section, name, timestamp, data))
    ensures DecodeEntry(Frame(1, compat, V1EntryFields(section, name, timestamp, data)))
            == Ok(NewEntry(timestamp, section, name, data))
  {
  }

  /** A frame from a newer writer that still admits version-2 decoders decodes
      to the entry its leading fields carry; fields appended after the id are
      skipped. */
  lemma NewerEntryFrameSkipsTrailing(e: LogEntry, prior: LogEntry, version: nat, compat: nat, extra: seq<Field>)
    requires 2 <= version && compat <= 2
    ensures DecodeEntryInto(prior, Frame(version, compat, EncodeEntry(e).fields + extra)) == Ok(e)
  {
    var fs := EncodeEntry(e).fields + extra;
    assert fs[..5] == EncodeEntry(e).fields;
    assert fs[0] == Chunk(e.section) && fs[1] == Chunk(e.name) && fs[2] == Stamp(e.timestamp);
    assert fs[3] == Chunk(e.data) && fs[4] == Chunk(e.id);
  }

  /** Decoding fails, rather than inventing an id, when a version-2 frame is
      missing its id field, and fails on a frame that needs a decoder newer
      than version 2. */
  lemma EntryDecodeErrors(prior: LogEntry, section: Bytes, name: Bytes, timestamp: UTime, data: Bytes,
                          f: Frame)
    ensures DecodeEntryInto(prior, Frame(2, 1, V1EntryFields(section, name, timestamp, data))) == Err(EndOfFrame)
    ensures f.compat > 2 ==> DecodeEntryInto(prior, f) == Err(TooOld(2, f.compat))
    ensures |f.fields| < 4 ==> DecodeEntryInto(prior, f).Err?
  {
  }

  /** cls_log_header::encode: version 1, compat 1, and a frame from which the
      header decodes back. */
  function EncodeHeader(h: LogHeader): (f: Frame)
    ensures f.version == 1 && f.compat == 1
    ensures |f.fields| == 2 && f.fields[0].Chunk? && f.fields[1].Stamp?
    ensures DecodeHeader(f) == Ok(h)
  {
    Frame(1, 1, [Chunk(h.maxMarker), Stamp(h.maxTime)])
  }

  /** cls_log_header::decode: succeeds exactly on a frame of compat at most 1
      that starts with a chunk and a stamp, and takes the header from them. */
  function DecodeHeader(f: Frame): (r: Result<LogHeader>)
    ensures r.Ok? <==> f.compat <= 1 && |f.fields| >= 2 && f.fields[0].Chunk? && f.fields[1].Stamp?
    ensures r.Ok? ==> f.fields[0] == Chunk(r.value.maxMarker) && f.fields[1] == Stamp(r.value.maxTime)
  {
    var c0 :- DecodeStart(1, f);
    var marker :- ReadChunk(c0);
    var time :- ReadStamp(marker.1);
    Ok(LogHeader(marker.0, time.0))
  }

  /** operator== on headers: both the max marker and the max time agree. */
  predicate HeaderEq(lhs: LogHeader, rhs: LogHeader)
    ensures HeaderEq(lhs, rhs) <==> lhs == rhs
  {
    lhs.maxMarker == rhs.maxMarker && lhs.maxTime == rhs.maxTime
  }

  /** operator!= on headers. */
  predicate HeaderNe(lhs: LogHeader, rhs: LogHeader)
    ensures HeaderNe(lhs, rhs) <==> lhs != rhs
  {
    !HeaderEq(lhs, rhs)
  }

  /** Header equality is structural equality, hence reflexive and symmetric,
      and != is exactly its negation. */
  lemma HeaderEquality(a: LogHeader, b: LogHeader)
    ensures HeaderEq(a, b) <==> a == b
    ensures HeaderEq(a, a)
    ensures HeaderEq(a, b) <==> HeaderEq(b, a)
    ensures HeaderNe(a, b) <==> !HeaderEq(a, b)
  {
  }

  /** Decoding an encoded header gives a header equal to it; a frame that needs
      a decoder newer than version 1 is refused. */
  lemma HeaderRoundTrip(h: LogHeader, f: Frame)
    ensures DecodeHeader(EncodeHeader(h)).Ok?
    ensures HeaderEq(DecodeHeader(EncodeHeader(h)).value, h)
    ensures f.compat > 1 ==> DecodeHeader(f) == Err(TooOld(1, f.compat))
  {
  }
}
