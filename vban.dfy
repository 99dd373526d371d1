/** The VBAN packet header: its 28-byte wire layout, the accessors the
    receiver filters on, the byte <-> enum conversions and the construction of
    an audio packet (src/vban.rs). */
module Vban {
  import opened Wire

  /** `mem::size_of::<VBanPacket>()`: four bytes of magic, four one-byte
      fields, sixteen name bytes and a `u32`, with no padding. */
  const HEADER_SIZE: nat := 28

  /** The receive buffer size: the UDP payload of a 1500-byte MTU. */
  const VBAN_MAX_PACKET_SIZE: nat := 1472

  /** The ASCII bytes "VBAN". */
  const VBAN_MAGIC: seq<u8> := [0x56, 0x42, 0x41, 0x4E]

  /** The sample-rate table, in wire order (not sorted). */
  const VBAN_SRLIST: seq<int> := [
    6000, 12000, 24000, 48000, 96000, 192000, 384000,
    8000, 16000, 32000, 64000, 128000, 256000, 512000,
    11025, 22050, 44100, 88200, 176400, 352800, 705600
  ]

  type Magic = s: seq<u8> | |s| == 4 witness [0, 0, 0, 0]

  type NameBytes = s: seq<u8> | |s| == 16
    witness [0, 0, 0, 0, 0, 0, 0, 0, 0, 0, 0, 0, 0, 0, 0, 0]

  datatype Protocol = Audio | Serial | Txt | Service | Undef1 | Undef2 | Undef3 | User

  datatype BitFormat = U8 | I16 | I24 | I32 | F32 | F64 | I12 | I10

  /** `VBanPacket`: the header fields exactly as they sit on the wire. */
  datatype Header = Header(
    fourC: Magic,
    subProtocol: u8,
    smpCount: u8,
    channels: u8,
    dataFormat: u8,
    streamName: NameBytes,
    frameOrdering: u32)

  // ---------------------------------------------------------------------------
  // Enum <-> byte conversions (the `From` impls)

  /** `VbanProtocol::from(u8)`; its panic arm is excluded by the precondition,
      which every caller below discharges. */
  function ProtocolFromByte(v: u8): (p: Protocol)
    requires v % 0x20 == 0
    ensures p == Audio <==> v == 0
  {
    match v
    case 0x00 => Audio
    case 0x20 => Serial
    case 0x40 => Txt
    case 0x60 => Service
    case 0x80 => Undef1
    case 0xA0 => Undef2
    case 0xC0 => Undef3
    case 0xE0 => User
  }

  /** `u8::from(VbanProtocol)`: the protocol bits of the sub-protocol byte. */
  function ProtocolToByte(p: Protocol): (v: u8)
    ensures v % 0x20 == 0
    ensures ProtocolFromByte(v) == p
  {
    match p
    case Audio => 0x00
    case Serial => 0x20
    case Txt => 0x40
    case Service => 0x60
    case Undef1 => 0x80
    case Undef2 => 0xA0
    case Undef3 => 0xC0
    case User => 0xE0
  }

  lemma ProtocolByteRoundTrip(v: u8)
    requires v % 0x20 == 0
    ensures ProtocolToByte(ProtocolFromByte(v)) == v
  {
  }

  /** `VBanBitFormat::from(u8)`; its panic arm is excluded by the precondition. */
  function BitFormatFromByte(bits: u8): (f: BitFormat)
    requires bits < 8
    ensures f == I16 <==> bits == 1
  {
    match bits
    case 0 => U8
    case 1 => I16
    case 2 => I24
    case 3 => I32
    case 4 => F32
    case 5 => F64
    case 6 => I12
    case 7 => I10
  }

  /** `u8::from(VBanBitFormat)`. */
  function BitFormatToByte(f: BitFormat): (bits: u8)
    ensures bits < 8
    ensures BitFormatFromByte(bits) == f
  {
    match f
    case U8 => 0
    case I16 => 1
    case I24 => 2
    case I32 => 3
    case F32 => 4
    case F64 => 5
    case I12 => 6
    case I10 => 7
  }

  lemma BitFormatByteRoundTrip(bits: u8)
    requires bits < 8
    ensures BitFormatToByte(BitFormatFromByte(bits)) == bits
  {
  }

  // ---------------------------------------------------------------------------
  // Accessors

  predicate IsVban(h: Header) {
    h.fourC == VBAN_MAGIC
  }

  /** The protocol is the top three bits of the sub-protocol byte
      (`& 0xE0`, written here as clearing the low five bits); the result is
      always a multiple of 0x20, so the conversion's panic arm cannot be
      reached from here. */
  function GetProtocol(h: Header): (p: Option<Protocol>)
    ensures p.Some?
    ensures p.value == Audio <==> h.subProtocol < 0x20
  {
    Some(ProtocolFromByte(h.subProtocol - h.subProtocol % 0x20))
  }

  function IsAudio(h: Header): (b: bool)
    ensures b <==> h.subProtocol < 0x20
  {
    GetProtocol(h) == Some(Audio)
  }

  /** The sample format is the low three bits of the format byte (`& 0x07`,
      written here as `% 8`), so the conversion's panic arm cannot be
      reached from here. */
  function GetBitFormat(h: Header): (f: BitFormat)
    ensures BitFormatToByte(f) == h.dataFormat % 8
    ensures f == I16 <==> h.dataFormat % 8 == 1
  {
    BitFormatFromByte(h.dataFormat % 8)
  }

  /** PCM means the top five bits of the format byte are clear (`& 0xF8`
      is zero). */
  function IsPcm(h: Header): (b: bool)
    ensures b <==> h.dataFormat < 8
  {
    h.dataFormat - h.dataFormat % 8 == 0
  }

  /** The sample-rate table index: the low five bits of the sub-protocol
      byte (`& 0x1F`). */
  function SrIndex(h: Header): nat {
    h.subProtocol % 0x20
  }

  datatype SrLookup = Rate(rate: int) | InvalidSubprotocol | IndexOutOfBounds

  /** `get_sr` as written: the guard is `index > len`, so index 21 passes it
      and the table access panics (`IndexOutOfBounds`). */
  function GetSrAsWritten(h: Header): (r: SrLookup)
    ensures r.IndexOutOfBounds? <==> h.subProtocol % 0x20 == |VBAN_SRLIST|
    ensures r.InvalidSubprotocol? <==> h.subProtocol % 0x20 > |VBAN_SRLIST|
  {
    var i := SrIndex(h);
    if i > |VBAN_SRLIST| then InvalidSubprotocol
    else if i < |VBAN_SRLIST| then Rate(VBAN_SRLIST[i])
    else IndexOutOfBounds
  }

  datatype SrError = InvalidSubprotocolValue

  /** `get_sr` with the guard the table needs (`index >= len`): every index
      inside the table resolves, every other one is an error. */
  function GetSr(h: Header): (r: Result<int, SrError>)
    ensures r.Ok? <==> h.subProtocol % 0x20 < |VBAN_SRLIST|
    ensures r.Ok? ==> r.value == VBAN_SRLIST[h.subProtocol % 0x20]
  {
    var i := SrIndex(h);
    if i >= |VBAN_SRLIST| then Err(InvalidSubprotocolValue) else Ok(VBAN_SRLIST[i])
  }

  /** The two versions of `get_sr` differ only at index 21. */
  lemma GetSrAgreesOffIndex21(h: Header)
    requires h.subProtocol % 0x20 != 21
    ensures GetSrAsWritten(h).Rate? <==> GetSr(h).Ok?
    ensures GetSr(h).Ok? ==> GetSrAsWritten(h).rate == GetSr(h).value
  {
  }

  /** A header whose sub-protocol byte is 21 makes `get_sr` as written index
      past the 21-entry table. */
  lemma GetSrIndex21Panics(h: Header)
    requires h.subProtocol == 21
    ensures GetSrAsWritten(h) == IndexOutOfBounds
    ensures GetSr(h).Err?
    ensures IsAudio(h)
  {
  }

  /** `get_channels` as written: `channels + 1` on a `u8`, which overflows for
      the encoded value 255 (256 channels). */
  function GetChannelsAsWritten(h: Header): (r: Option<u8>)
    ensures r.None? <==> h.channels == 255
    ensures r.Some? ==> r.value == GetChannels(h)
  {
    AddU8(h.channels, 1)
  }

  /** `get_channels` computed in a wider type: always 1..256. */
  function GetChannels(h: Header): (c: nat)
    ensures 1 <= c <= 256
    ensures c - 1 == h.channels
  {
    h.channels + 1
  }

  /** `get_frame_count` as written: `smp_count + 1` on a `u8`, which overflows
      for the encoded value 255 (256 samples per channel). */
  function GetFrameCountAsWritten(h: Header): (r: Option<u8>)
    ensures r.None? <==> h.smpCount == 255
    ensures r.Some? ==> r.value == GetFrameCount(h)
  {
    AddU8(h.smpCount, 1)
  }

  /** `get_frame_count` computed in a wider type: always 1..256. */
  function GetFrameCount(h: Header): (n: nat)
    ensures 1 <= n <= 256
    ensures n - 1 == h.smpCount
  {
    h.smpCount + 1
  }

  function GetSeqNum(h: Header): u32 {
    h.frameOrdering
  }

  /** Position of the first NUL byte of `s`, or `|s|` when there is none. */
  function FirstNul(s: seq<u8>): (i: nat)
    ensures i <= |s|
    ensures i < |s| ==> s[i] == 0
    ensures forall k :: 0 <= k < i ==> s[k] != 0
  {
    if s == [] then 0
    else if s[0] == 0 then 0
    else 1 + FirstNul(s[1..])
  }

  /** `get_stream_name`, on bytes: the name field up to its first NUL, or all
      sixteen bytes when it has none. */
  function GetStreamName(h: Header): (name: seq<u8>)
    ensures |name| <= 16
    ensures name == h.streamName[..|name|]
    ensures 0 !in name
    ensures |name| < 16 ==> h.streamName[|name|] == 0
  {
    h.streamName[..FirstNul(h.streamName)]
  }

  // ---------------------------------------------------------------------------
  // Wire format

  /** `to_bytes`: magic, sub-protocol, sample count, channels, format, name,
      then the sequence number little-endian. */
  function ToBytes(h: Header): (b: seq<u8>)
    ensures |b| == HEADER_SIZE
    ensures b[..4] == h.fourC
    ensures b[4] == h.subProtocol && b[5] == h.smpCount
    ensures b[6] == h.channels && b[7] == h.dataFormat
    ensures b[8..24] == h.streamName
    ensures FromLe(b[24..28]) == h.frameOrdering
  {
    var b := h.fourC + [h.subProtocol, h.smpCount, h.channels, h.dataFormat]
             + h.streamName + LeU32(h.frameOrdering);
    assert b[24..28] == LeU32(h.frameOrdering);
    b
  }

  /** `from_bytes`: reads the fields back in the same order. */
  function FromBytes(b: seq<u8>): (h: Header)
    requires |b| == HEADER_SIZE
    ensures h.fourC == b[..4] && h.streamName == b[8..24]
    ensures h.subProtocol == b[4] && h.smpCount == b[5]
    ensures h.channels == b[6] && h.dataFormat == b[7]
    ensures LeU32(h.frameOrdering) == b[24..28]
  {
    Header(b[..4], b[4], b[5], b[6], b[7], b[8..24], ReadLeU32(b[24..28]))
  }

  lemma FromBytesOfToBytes(h: Header)
    ensures FromBytes(ToBytes(h)) == h
  {
    var b := ToBytes(h);
    assert LeU32(FromBytes(b).frameOrdering) == b[24..28];
    assert FromLe(LeU32(FromBytes(b).frameOrdering)) == FromBytes(b).frameOrdering;
  }

  lemma ToBytesOfFromBytes(b: seq<u8>)
    requires |b| == HEADER_SIZE
    ensures ToBytes(FromBytes(b)) == b
  {
    var b' := ToBytes(FromBytes(b));
    assert b'[24..28] == LeU32(FromBytes(b).frameOrdering);
    assert b' == b'[..4] + b'[4..8] + b'[8..24] + b'[24..28];
    assert b == b[..4] + b[4..8] + b[8..24] + b[24..28];
  }

  /** The receiver's filters read directly off the wire bytes. */
  lemma FiltersOnWire(b: seq<u8>)
    requires |b| == HEADER_SIZE
    ensures IsVban(FromBytes(b)) <==> b[..4] == VBAN_MAGIC
    ensures IsAudio(FromBytes(b)) <==> b[4] < 0x20
    ensures IsPcm(FromBytes(b)) <==> b[7] < 8
    ensures GetBitFormat(FromBytes(b)) == I16 <==> b[7] % 8 == 1
  {
    var f := GetBitFormat(FromBytes(b));
    assert BitFormatFromByte(BitFormatToByte(f)) == f;
  }

  /** The receiver's sequence number is the little-endian `u32` in bytes
      24..27 of the datagram, and the sender's counter lands there. */
  lemma SeqNumOnWire(b: seq<u8>, h: Header)
    requires |b| == HEADER_SIZE
    ensures GetSeqNum(FromBytes(b)) == FromLe(b[24..28])
    ensures FromLe(ToBytes(h)[24..28]) == GetSeqNum(h)
  {
    assert LeU32(FromBytes(b).frameOrdering) == b[24..28];
  }

  // ---------------------------------------------------------------------------
  // Building an audio packet

  /** Index of the first occurrence of `x` in `s`. */
  function FirstIndexOf(s: seq<int>, x: int): (r: Option<nat>)
    ensures r.Some? <==> x in s
    ensures r.Some? ==> r.value < |s| && s[r.value] == x
    ensures r.Some? ==> forall k :: 0 <= k < r.value ==> s[k] != x
  {
    if s == [] then None
    else if s[0] == x then Some(0)
    else match FirstIndexOf(s[1..], x)
      case None => None
      case Some(i) => Some(i + 1)
  }

  datatype PacketPanic = UnsupportedSampleRate | SmpCountUnderflow | ChannelsUnderflow

  /** `make_audio_packet`: a header built from its arguments followed by the
      payload, or the panic it stops at (checked in the source's order: the
      rate lookup, then `smp_count - 1` on a `u16`, then `channels - 1` on a
      `u8`). */
  function MakeAudioPacket(
    sampleRate: int,
    streamName: NameBytes,
    smpCount: u16,
    channels: u8,
    streamData: seq<u8>,
    bitFmt: BitFormat,
    frameOrdering: u32): (r: Result<seq<u8>, PacketPanic>)
    ensures r.Err? <==> sampleRate !in VBAN_SRLIST || smpCount == 0 || channels == 0
    ensures r.Err? && sampleRate !in VBAN_SRLIST ==> r.error == UnsupportedSampleRate
    ensures r.Ok? ==> |r.value| == HEADER_SIZE + |streamData|
    ensures r.Ok? ==> r.value[HEADER_SIZE..] == streamData
  {
    match FirstIndexOf(VBAN_SRLIST, sampleRate)
    case None => Err(UnsupportedSampleRate)
    case Some(srIndex) =>
      match SubChecked(smpCount, 1)
      case None => Err(SmpCountUnderflow)
      case Some(count) =>
        match SubChecked(channels, 1)
        case None => Err(ChannelsUnderflow)
        case Some(chans) =>
          var header := Header(VBAN_MAGIC, srIndex, count % 0x100, chans,
                               BitFormatToByte(bitFmt), streamName, frameOrdering);
          Ok(ToBytes(header) + streamData)
  }

  /** What a receiver decodes from a packet that `make_audio_packet` built:
      the magic, audio protocol and PCM bits, the requested format, rate,
      channel count, name and sequence number, and the sample count reduced
      by one and truncated to a byte. */
  lemma AudioPacketHeader(
    sampleRate: int, streamName: NameBytes, smpCount: u16, channels: u8,
    streamData: seq<u8>, bitFmt: BitFormat, frameOrdering: u32)
    requires MakeAudioPacket(sampleRate, streamName, smpCount, channels,
                             streamData, bitFmt, frameOrdering).Ok?
    ensures var p := MakeAudioPacket(sampleRate, streamName, smpCount, channels,
                                     streamData, bitFmt, frameOrdering).value;
            var h := FromBytes(p[..HEADER_SIZE]);
            && IsVban(h) && IsAudio(h) && IsPcm(h)
            && GetBitFormat(h) == bitFmt
            && GetSr(h) == Ok(sampleRate)
            && GetChannels(h) == channels
            && h.smpCount == (smpCount - 1) % 0x100
            && h.streamName == streamName
            && GetSeqNum(h) == frameOrdering
  {
    var srIndex := FirstIndexOf(VBAN_SRLIST, sampleRate).value;
    var header := Header(VBAN_MAGIC, srIndex, (smpCount - 1) % 0x100, channels - 1,
                         BitFormatToByte(bitFmt), streamName, frameOrdering);
    PacketStartsWithHeader(header, sampleRate, streamName, smpCount, channels,
                           streamData, bitFmt, frameOrdering);
    AudioHeaderReads(header, sampleRate, bitFmt);
  }

  /** The first 28 bytes of a built packet decode to the header it was
      built from. */
  lemma PacketStartsWithHeader(
    header: Header, sampleRate: int, streamName: NameBytes, smpCount: u16, channels: u8,
    streamData: seq<u8>, bitFmt: BitFormat, frameOrdering: u32)
    requires MakeAudioPacket(sampleRate, streamName, smpCount, channels,
                             streamData, bitFmt, frameOrdering).Ok?
    requires header == Header(VBAN_MAGIC, FirstIndexOf(VBAN_SRLIST, sampleRate).value,
                              (smpCount - 1) % 0x100, channels - 1,
                              BitFormatToByte(bitFmt), streamName, frameOrdering)
    ensures var p := MakeAudioPacket(sampleRate, streamName, smpCount, channels,
                                     streamData, bitFmt, frameOrdering).value;
            FromBytes(p[..HEADER_SIZE]) == header
  {
    var p := MakeAudioPacket(sampleRate, streamName, smpCount, channels,
                             streamData, bitFmt, frameOrdering).value;
    assert p == ToBytes(header) + streamData;
    assert p[..HEADER_SIZE] == ToBytes(header);
    FromBytesOfToBytes(header);
  }

  /** A header with the magic, a table index for `sampleRate` and the byte
      of `bitFmt` passes the receiver's filters and reads back that rate and
      format. */
  lemma AudioHeaderReads(h: Header, sampleRate: int, bitFmt: BitFormat)
    requires h.fourC == VBAN_MAGIC
    requires h.subProtocol < |VBAN_SRLIST| && VBAN_SRLIST[h.subProtocol] == sampleRate
    requires h.dataFormat == BitFormatToByte(bitFmt)
    ensures IsVban(h) && IsAudio(h) && IsPcm(h)
    ensures GetBitFormat(h) == bitFmt
    ensures GetSr(h) == Ok(sampleRate)
  {
    assert h.subProtocol % 0x20 == h.subProtocol;
    assert BitFormatToByte(GetBitFormat(h)) == BitFormatToByte(bitFmt);
    assert BitFormatFromByte(BitFormatToByte(GetBitFormat(h))) == GetBitFormat(h);
  }

  /** Encode-then-decode gives back the logical fields whenever the sample
      count is 1..256 and the channel count 1..255, when the frame count is
      read in a wide type. */
  lemma AudioPacketRoundTrip(
    sampleRate: int, streamName: NameBytes, smpCount: u16, channels: u8,
    streamData: seq<u8>, frameOrdering: u32)
    requires sampleRate in VBAN_SRLIST
    requires 1 <= smpCount <= 256 && channels >= 1
    ensures MakeAudioPacket(sampleRate, streamName, smpCount, channels,
                            streamData, I16, frameOrdering).Ok?
    ensures var p := MakeAudioPacket(sampleRate, streamName, smpCount, channels,
                                     streamData, I16, frameOrdering).value;
            var h := FromBytes(p[..HEADER_SIZE]);
            && GetSr(h) == Ok(sampleRate) && GetChannels(h) == channels
            && GetFrameCount(h) == smpCount && GetSeqNum(h) == frameOrdering
  {
    assert (smpCount - 1) % 0x100 == smpCount - 1;
    AudioPacketHeader(sampleRate, streamName, smpCount, channels, streamData, I16, frameOrdering);
  }

  /** The sample-count byte of a built `I16` packet is the argument minus
      one, truncated to a byte. */
  lemma SmpCountByte(
    sampleRate: int, streamName: NameBytes, smpCount: u16, channels: u8, streamData: seq<u8>,
    frameOrdering: u32)
    requires sampleRate in VBAN_SRLIST && smpCount >= 1 && channels >= 1
    ensures MakeAudioPacket(sampleRate, streamName, smpCount, channels, streamData, I16, frameOrdering).Ok?
    ensures var p := MakeAudioPacket(sampleRate, streamName, smpCount, channels,
                                     streamData, I16, frameOrdering).value;
            FromBytes(p[..HEADER_SIZE]).smpCount == (smpCount - 1) % 0x100
  {
    AudioPacketHeader(sampleRate, streamName, smpCount, channels, streamData, I16, frameOrdering);
  }

  /** Outside 1..256 the sample count is not recovered: 256 encodes the byte
      255, on which `get_frame_count` as written overflows, and 257 aliases
      to 1. */
  lemma AudioPacketSmpCountHazards(
    sampleRate: int, streamName: NameBytes, channels: u8, streamData: seq<u8>,
    frameOrdering: u32)
    requires sampleRate in VBAN_SRLIST && channels >= 1
    ensures var p := MakeAudioPacket(sampleRate, streamName, 256, channels,
                                     streamData, I16, frameOrdering).value;
            GetFrameCountAsWritten(FromBytes(p[..HEADER_SIZE])).None?
    ensures var p := MakeAudioPacket(sampleRate, streamName, 257, channels,
                                     streamData, I16, frameOrdering).value;
            GetFrameCount(FromBytes(p[..HEADER_SIZE])) == 1
  {
    SmpCountByte(sampleRate, streamName, 256, channels, streamData, frameOrdering);
    SmpCountByte(sampleRate, streamName, 257, channels, streamData, frameOrdering);
  }
}
