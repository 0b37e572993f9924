/** What travels between peers: frames around payloads, and the payloads of header messages (src/net.cpp). */
module Wire {
  import opened Arithmetic
  import opened Errors
  import opened Transactions
  import opened Blocks
  import opened Serialize
  import opened TransactionCodec
  import opened BlockCodec
  import opened RecordLog
  import opened Headers

  const MESSAGE_START: Bytes := [0x54, 0x42, 0x49, 0x54]
  const MESSAGE_HEADER_SIZE := 24
  const COMMAND_SIZE := 12
  const MAX_P2P_PAYLOAD := 0x100_0000

  datatype Message = Message(command: Bytes, payload: Bytes)

  // ---------------------------------------------------------------- frames

  predicate ValidCommand(command: Bytes) {
    0 < |command| <= COMMAND_SIZE && forall i :: 0 <= i < |command| ==> 0x20 <= command[i] <= 0x7e
  }

  function PaddedCommand(command: Bytes): (field: Bytes)
    requires |command| <= COMMAND_SIZE
    ensures |field| == COMMAND_SIZE
  {
    command + seq(COMMAND_SIZE - |command|, _ => 0)
  }

  function PayloadCheck(payload: Bytes): (check: Bytes)
    ensures |check| == 4
  {
    LittleEndian(Checksum(payload), 32)[..4]
  }

  function FrameBytes(m: Message): Bytes
    requires ValidCommand(m.command) && |m.payload| <= MAX_P2P_PAYLOAD
  {
    MESSAGE_START + (PaddedCommand(m.command) + (LittleEndian(|m.payload|, 4) + (PayloadCheck(m.payload) + m.payload)))
  }

  function EncodeFrame(m: Message): Result<Bytes> {
    if !ValidCommand(m.command) then Err(BadArgument)
    else if |m.payload| > MAX_P2P_PAYLOAD then Err(LimitExceeded)
    else Ok(FrameBytes(m))
  }

  /** The command field from a place on: characters, then nothing but zeros. */
  function ReadCommand(field: Bytes, command: Bytes, padding: bool): Result<Bytes> {
    if field == [] then Ok(command)
    else if field[0] == 0 then ReadCommand(field[1..], command, true)
    else if padding || field[0] < 0x20 || field[0] > 0x7e then Err(BadFormat)
    else ReadCommand(field[1..], command + [field[0]], false)
  }

  function DecodeFrame(frame: Bytes): Result<Message> {
    if |frame| < MESSAGE_HEADER_SIZE then Err(Truncated)
    else if frame[..4] != MESSAGE_START then Err(BadFormat)
    else
      var command :- ReadCommand(frame[4..16], [], false);
      if !ValidCommand(command) then Err(BadArgument) else
      var length := FromLittleEndian(frame[16..20]);
      if length > MAX_P2P_PAYLOAD then Err(LimitExceeded)
      else if |frame| != MESSAGE_HEADER_SIZE + length then Err(BadFormat)
      else if PayloadCheck(frame[24..]) != frame[20..24] then Err(ChecksumMismatch)
      else Ok(Message(command, frame[24..]))
  }

  method EncodeP2pFrame(m: Message) returns (r: Result<Bytes>)
    ensures r == EncodeFrame(m)
  {
    hide LittleEndian;
    if !ValidCommand(m.command) {
      return Err(BadArgument);
    }
    if |m.payload| > MAX_P2P_PAYLOAD {
      return Err(LimitExceeded);
    }
    var frame := new Output();
    frame.Insert(MESSAGE_START);
    for index := 0 to COMMAND_SIZE
      invariant frame.bytes == MESSAGE_START + PaddedCommand(m.command)[..index]
    {
      frame.Push(if index < |m.command| then m.command[index] else 0);
    }
    frame.AppendLittleEndian(|m.payload|, 4);
    frame.Insert(PayloadCheck(m.payload));
    frame.Insert(m.payload);
    assert PaddedCommand(m.command)[..COMMAND_SIZE] == PaddedCommand(m.command);
    assert frame.bytes == FrameBytes(m);
    return Ok(frame.bytes);
  }

  method DecodeP2pFrame(frame: Bytes) returns (r: Result<Message>)
    ensures r == DecodeFrame(frame)
  {
    hide FromLittleEndian, PayloadCheck;
    if |frame| < MESSAGE_HEADER_SIZE {
      return Err(Truncated);
    }
    if frame[..4] != MESSAGE_START {
      return Err(BadFormat);
    }
    var command: Bytes := [];
    var padding := false;
    for index := 4 to 4 + COMMAND_SIZE
      invariant ReadCommand(frame[index..16], command, padding) == ReadCommand(frame[4..16], [], false)
    {
      assert frame[index..16][1..] == frame[index + 1..16];
      var character := frame[index];
      if character == 0 {
        padding := true;
      } else {
        if padding || character < 0x20 || character > 0x7e {
          return Err(BadFormat);
        }
        command := command + [character];
      }
    }
    if !ValidCommand(command) {
      return Err(BadArgument);
    }
    var length := FromLittleEndian(frame[16..20]);
    if length > MAX_P2P_PAYLOAD {
      return Err(LimitExceeded);
    }
    if |frame| != MESSAGE_HEADER_SIZE + length {
      return Err(BadFormat);
    }
    if PayloadCheck(frame[24..]) != frame[20..24] {
      return Err(ChecksumMismatch);
    }
    return Ok(Message(command, frame[24..]));
  }

  ghost predicate AllZero(field: Bytes) {
    forall i :: 0 <= i < |field| ==> field[i] == 0
  }

  lemma {:induction false} ZerosRead(field: Bytes, command: Bytes, padding: bool)
    ensures AllZero(field) ==> ReadCommand(field, command, padding) == Ok(command)
    ensures padding && ReadCommand(field, command, padding).Ok? ==>
              AllZero(field) && ReadCommand(field, command, padding).value == command
  {
    if field != [] {
      ZerosRead(field[1..], command, true);
      assert field == [field[0]] + field[1..];
    }
  }

  /** Reading the field is undoing the padding. */
  lemma {:induction false} CommandReads(command: Bytes, zeros: Bytes, before: Bytes)
    requires AllZero(zeros) && forall i :: 0 <= i < |command| ==> 0x20 <= command[i] <= 0x7e
    ensures ReadCommand(command + zeros, before, false) == Ok(before + command)
  {
    if command == [] {
      assert command + zeros == zeros && before + command == before;
      ZerosRead(zeros, before, false);
    } else {
      CommandReads(command[1..], zeros, before + [command[0]]);
      assert (command + zeros)[1..] == command[1..] + zeros;
      assert before + [command[0]] + command[1..] == before + command;
    }
  }

  lemma {:induction false} CommandCanonical(field: Bytes, before: Bytes)
    requires ReadCommand(field, before, false).Ok?
    ensures var command := ReadCommand(field, before, false).value;
            before <= command && |command| - |before| <= |field|
            && field == command[|before|..] + seq(|field| - (|command| - |before|), _ => 0)
  {
    if field != [] {
      if field[0] == 0 {
        ZerosRead(field[1..], before, true);
        assert field == [field[0]] + field[1..];
      } else {
        CommandCanonical(field[1..], before + [field[0]]);
        assert field == [field[0]] + field[1..];
      }
    }
  }

  /** A frame decodes to a message exactly when it is the message's frame. */
  lemma {:induction false} FrameExact(m: Message, frame: Bytes)
    ensures DecodeFrame(frame) == Ok(m) <==> EncodeFrame(m) == Ok(frame)
  {
    if DecodeFrame(frame) == Ok(m) {
      FrameCanonical(m, frame);
    }
    if ValidCommand(m.command) && |m.payload| <= MAX_P2P_PAYLOAD {
      FrameRoundTrip(m);
    }
  }

  lemma {:induction false} FrameRoundTrip(m: Message)
    requires ValidCommand(m.command) && |m.payload| <= MAX_P2P_PAYLOAD
    ensures DecodeFrame(FrameBytes(m)) == Ok(m)
  {
    hide LittleEndian, FromLittleEndian, PayloadCheck;
    PowersOf256();
    var frame := FrameBytes(m);
    IntegerRoundTrip(|m.payload|, 4);
    assert frame[..4] == MESSAGE_START;
    assert frame[4..16] == PaddedCommand(m.command);
    assert frame[16..20] == LittleEndian(|m.payload|, 4);
    assert frame[20..24] == PayloadCheck(m.payload);
    assert frame[24..] == m.payload;
    CommandReads(m.command, seq(COMMAND_SIZE - |m.command|, _ => 0), []);
    assert [] + m.command == m.command;
  }

  lemma {:induction false} FrameCanonical(m: Message, frame: Bytes)
    requires DecodeFrame(frame) == Ok(m)
    ensures ValidCommand(m.command) && |m.payload| <= MAX_P2P_PAYLOAD && FrameBytes(m) == frame
  {
    hide LittleEndian, FromLittleEndian, PayloadCheck;
    CommandCanonical(frame[4..16], []);
    BytesRoundTrip(frame[16..20]);
    assert frame == frame[..4] + (frame[4..16] + (frame[16..20] + (frame[20..24] + frame[24..])));
  }

  // ---------------------------------------------------------------- header messages

  /** A header record: height, header, and a zero where blocks have their transaction count. */
  function RecordLayout(record: HeaderRecord): Bytes {
    LittleEndian(record.height, 8) + (HeaderBytes(record.header) + CompactSize(0))
  }

  ghost function RecordListBytes(records: seq<HeaderRecord>): Bytes {
    if records == [] then [] else RecordListBytes(records[..|records| - 1]) + RecordLayout(records[|records| - 1])
  }

  ghost function HeadersPayload(records: seq<HeaderRecord>): Result<Bytes> {
    if |records| > MAX_HEADERS_PER_RESPONSE then Err(LimitExceeded)
    else Ok(CompactSize(|records|) + RecordListBytes(records))
  }

  function ReadRecordLayout(input: Bytes, offset: nat): Result<(HeaderRecord, nat)> {
    var (height, o1) :- ReadInteger(input, offset, 8);
    IntegerInRange(input[offset..o1]);
    var (headerBytes, o2) :- ReadBytes(input, o1, HEADER_SIZE);
    var header :- ReadHeader(headerBytes);
    var (count, o3) :- ReadCompactSize(input, o2);
    if count != 0 then Err(BadFormat)
    else if !WorkShown(HeaderRecord(height, header)) then Err(BadProofOfWork)
    else Ok((HeaderRecord(height, header), o3))
  }

  ghost function ReadRecords(input: Bytes, offset: nat, n: nat): Result<(seq<HeaderRecord>, nat)> {
    if n == 0 then Ok(([], offset)) else
    var (before, o) :- ReadRecords(input, offset, n - 1);
    var (next, after) :- ReadRecordLayout(input, o);
    Ok((before + [next], after))
  }

  ghost function ReadHeadersPayload(payload: Bytes): Result<seq<HeaderRecord>> {
    var (count, o) :- ReadCompactSize(payload, 0);
    if count > MAX_HEADERS_PER_RESPONSE then Err(LimitExceeded) else
    var (records, end) :- ReadRecords(payload, o, count);
    if end != |payload| then Err(TrailingBytes) else Ok(records)
  }

  method WriteRecord(output: Output, record: HeaderRecord)
    modifies output
    ensures output.bytes == old(output.bytes) + RecordLayout(record)
  {
    hide LittleEndian, CompactSize, HeaderBytes;
    output.AppendLittleEndian(record.height, 8);
    var header := SerializeHeader(record.header);
    output.Insert(header);
    output.AppendCompactSize(0);
  }

  method SerializeHeaders(records: seq<HeaderRecord>) returns (r: Result<Bytes>)
    ensures r == HeadersPayload(records)
  {
    hide CompactSize, RecordLayout;
    if |records| > MAX_HEADERS_PER_RESPONSE {
      return Err(LimitExceeded);
    }
    var output := new Output();
    output.AppendCompactSize(|records|);
    ghost var head := output.bytes;
    assert head == CompactSize(|records|);
    for i := 0 to |records|
      invariant output.bytes == head + RecordListBytes(records[..i])
    {
      WriteRecord(output, records[i]);
      assert records[..i + 1][..i] == records[..i];
    }
    assert records[..|records|] == records;
    return Ok(output.bytes);
  }

  method DeserializeHeaders(payload: Bytes) returns (r: Result<seq<HeaderRecord>>)
    ensures r == ReadHeadersPayload(payload)
  {
    hide ReadCompactSize, ReadRecordLayout;
    var reader := new Reader(payload);
    var count :- reader.ReadCompact();
    if count > MAX_HEADERS_PER_RESPONSE {
      return Err(LimitExceeded);
    }
    ghost var start := reader.offset;
    var records: seq<HeaderRecord> := [];
    for i := 0 to count
      invariant ReadRecords(payload, start, i) == Ok((records, reader.offset))
    {
      ReadRecordsStop(payload, start, i + 1, count);
      var next :- TakeRecord(reader);
      records := records + [next];
    }
    if reader.offset != |payload| {
      return Err(TrailingBytes);
    }
    return Ok(records);
  }

  method TakeRecord(reader: Reader) returns (r: Result<HeaderRecord>)
    modifies reader
    ensures Agrees(r, ReadRecordLayout(reader.input, old(reader.offset)), reader.offset)
  {
    hide ReadCompactSize, ReadHeader, FromLittleEndian, WorkShown;
    PowersOf256();
    var height :- reader.ReadLittleEndian(8);
    var headerBytes :- reader.ReadSome(HEADER_SIZE);
    var header :- DeserializeHeader(headerBytes);
    var count :- reader.ReadCompact();
    if count != 0 {
      return Err(BadFormat);
    }
    if !WorkShown(HeaderRecord(height, header)) {
      return Err(BadProofOfWork);
    }
    return Ok(HeaderRecord(height, header));
  }

  lemma {:induction false} ReadRecordsStop(input: Bytes, offset: nat, m: nat, n: nat)
    requires m <= n
    ensures ReadRecords(input, offset, m).Err? ==> ReadRecords(input, offset, n) == ReadRecords(input, offset, m)
    decreases n
  {
    hide ReadRecordLayout;
    if m < n {
      ReadRecordsStop(input, offset, m, n - 1);
    }
  }

  lemma {:induction false} RecordLayoutReads(input: Bytes, offset: nat, record: HeaderRecord)
    requires WorkShown(record)
    ensures At(input, offset, RecordLayout(record)) ==>
              ReadRecordLayout(input, offset) == Ok((record, offset + |RecordLayout(record)|))
  {
    hide CompactSize, ReadCompactSize, LittleEndian, FromLittleEndian, HeaderBytes, ReadHeader, WorkShown;
    PowersOf256();
    var (a, b) := (LittleEndian(record.height, 8), HeaderBytes(record.header));
    AtJoin(input, offset, a, b + CompactSize(0));
    AtJoin(input, offset + 8, b, CompactSize(0));
    IntegerReads(input, offset, 8, record.height);
    BytesRead(input, offset + 8, b);
    HeaderCodecExact(record.header, b);
    CompactSizeReads(input, offset + 88, 0);
  }

  lemma {:induction false} RecordLayoutCanonical(input: Bytes, offset: nat)
    requires ReadRecordLayout(input, offset).Ok?
    ensures var (record, after) := ReadRecordLayout(input, offset).value;
            WorkShown(record) && after == offset + |RecordLayout(record)| && At(input, offset, RecordLayout(record))
  {
    hide CompactSize, ReadCompactSize, LittleEndian, FromLittleEndian, HeaderBytes, ReadHeader, WorkShown;
    PowersOf256();
    var record := ReadRecordLayout(input, offset).value.0;
    IntegerInRange(input[offset..offset + 8]);
    IntegerReads(input, offset, 8, record.height);
    var b := input[offset + 8..offset + 88];
    BytesRead(input, offset + 8, b);
    HeaderCodecExact(record.header, b);
    CompactSizeCanonical(input, offset + 88);
    AtJoin(input, offset + 8, b, CompactSize(0));
    AtJoin(input, offset, LittleEndian(record.height, 8), b + CompactSize(0));
  }

  lemma {:induction false} RecordsRead(input: Bytes, offset: nat, records: seq<HeaderRecord>)
    requires forall i :: 0 <= i < |records| ==> WorkShown(records[i])
    ensures At(input, offset, RecordListBytes(records)) ==>
              ReadRecords(input, offset, |records|) == Ok((records, offset + |RecordListBytes(records)|))
  {
    hide RecordLayout, ReadRecordLayout, At, WorkShown;
    if records != [] {
      var (front, last) := (records[..|records| - 1], records[|records| - 1]);
      assert records == front + [last];
      AtJoin(input, offset, RecordListBytes(front), RecordLayout(last));
      RecordsRead(input, offset, front);
      RecordLayoutReads(input, offset + |RecordListBytes(front)|, last);
    }
  }

  lemma {:induction false} RecordsCanonical(input: Bytes, offset: nat, n: nat)
    requires offset <= |input| && ReadRecords(input, offset, n).Ok?
    ensures var (records, after) := ReadRecords(input, offset, n).value;
            && |records| == n && (forall i :: 0 <= i < n ==> WorkShown(records[i]))
            && after == offset + |RecordListBytes(records)| && At(input, offset, RecordListBytes(records))
  {
    hide RecordLayout, ReadRecordLayout, WorkShown;
    if n > 0 {
      var (records, after) := ReadRecords(input, offset, n).value;
      RecordsCanonical(input, offset, n - 1);
      var (front, o) := ReadRecords(input, offset, n - 1).value;
      RecordLayoutCanonical(input, o);
      assert records[..n - 1] == front;
      AtJoin(input, offset, RecordListBytes(front), RecordLayout(records[n - 1]));
    }
  }

  /** A payload is read as header records exactly when it is their one payload and every record shows its work. */
  lemma {:induction false} HeadersExact(records: seq<HeaderRecord>, payload: Bytes)
    ensures ReadHeadersPayload(payload) == Ok(records) <==>
              HeadersPayload(records) == Ok(payload) && forall i :: 0 <= i < |records| ==> WorkShown(records[i])
  {
    hide CompactSize, ReadCompactSize, RecordListBytes, ReadRecords, At, WorkShown;
    if ReadHeadersPayload(payload) == Ok(records) {
      CompactSizeCanonical(payload, 0);
      CompactSizeInside(payload, 0);
      var (count, o) := ReadCompactSize(payload, 0).value;
      RecordsCanonical(payload, o, count);
      AtJoin(payload, 0, CompactSize(count), RecordListBytes(records));
      AtAll(payload);
    }
    if HeadersPayload(records) == Ok(payload) && forall i :: 0 <= i < |records| ==> WorkShown(records[i]) {
      AtAll(payload);
      AtJoin(payload, 0, CompactSize(|records|), RecordListBytes(records));
      CompactSizeReads(payload, 0, |records|);
      RecordsRead(payload, |CompactSize(|records|)|, records);
    }
  }
}
