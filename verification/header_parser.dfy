/** RDReadRadolanHeader and its two field readers (src/classes/read.c, and the older
    copy in src/read.c). The decompressed file is a byte sequence read front to back:
    a read of n bytes at position pos delivers the bytes that remain, at most n. */
module HeaderParser {
  import opened RadolanTypes
  import opened CStrings
  import Tables = ScanTypeTables

  function Min(a: nat, b: nat): nat {
    if a <= b then a else b
  }

  /** The bytes gzread(f, buf, n) delivers at stream position pos. */
  function Delivered(s: seq<byte>, pos: nat, n: nat): (d: seq<byte>)
    ensures |d| == Min(n, if pos <= |s| then |s| - pos else 0)
    ensures pos + |d| <= |s| || |d| == 0
  {
    if pos >= |s| then [] else s[pos..Min(pos + n, |s|)]
  }

  /** The n-byte buffer after that read: delivered bytes, then NUL where nothing was delivered. */
  function Filled(s: seq<byte>, pos: nat, n: nat): (r: seq<byte>)
    ensures |r| == n
    ensures pos + n <= |s| ==> r == s[pos..pos + n]
  {
    Delivered(s, pos, n) + Zeros(n - |Delivered(s, pos, n)|)
  }

  /** A read that fits in the stream delivers all n bytes, and the buffer holds exactly them. */
  lemma WholeField(s: seq<byte>, pos: nat, n: nat)
    requires pos + n <= |s|
    ensures |Delivered(s, pos, n)| == n
    ensures Delivered(s, pos, n) == Filled(s, pos, n) == s[pos..pos + n]
  {
    if n == 0 {
      assert Delivered(s, pos, n) == [];
    }
  }

  /** A field of len digits inside the stream arrives whole, and its buffer reads as its
      decimal value. */
  lemma AtoiOfField(s: seq<byte>, pos: nat, len: nat)
    requires len > 0 && pos + len <= |s|
    requires forall i :: pos <= i < pos + len ==> IsDigit(s[i])
    ensures |Delivered(s, pos, len)| == len
    ensures Atoi(Filled(s, pos, len)) == DecimalValue(s[pos..pos + len])
  {
    WholeField(s, pos, len);
    var d := s[pos..pos + len];
    forall i | 0 <= i < |d|
      ensures IsDigit(d[i])
    {
      assert d[i] == s[pos + i];
    }
    AtoiOfDigits(d);
  }

  /** readUnsignedShortInt: reads len ASCII bytes; stores (unsigned short) atoi of them only
      when all len bytes arrived. Returns the field and the new stream position. */
  function ReadUnsignedShortInt(s: seq<byte>, pos: nat, len: nat, v0: u16): (u16, nat) {
    var d := Delivered(s, pos, len);
    (if |d| == len then ToU16(Atoi(Filled(s, pos, len))) else v0, pos + |d|)
  }

  /** readUnsignedInt as written: reads len bytes but stores the value only when gzread
      reported exactly one byte. */
  function ReadUnsignedInt(s: seq<byte>, pos: nat, len: nat, v0: u32): (u32, nat) {
    var d := Delivered(s, pos, len);
    (if |d| == 1 then ToU32(Atoi(Filled(s, pos, len))) else v0, pos + |d|)
  }

  /** readUnsignedInt as evidently intended: store when all len bytes arrived. */
  function ReadUnsignedIntCorrected(s: seq<byte>, pos: nat, len: nat, v0: u32): (u32, nat) {
    var d := Delivered(s, pos, len);
    (if |d| == len then ToU32(Atoi(Filled(s, pos, len))) else v0, pos + |d|)
  }

  /** The corrected reader stores a field of digits as its decimal value. */
  lemma {:induction false} CorrectedFieldOfDigits(s: seq<byte>, pos: nat, len: nat, v0: u32)
    requires len > 0 && pos + len <= |s|
    requires forall i :: pos <= i < pos + len ==> IsDigit(s[i])
    ensures ReadUnsignedIntCorrected(s, pos, len, v0).0 == ToU32(DecimalValue(s[pos..pos + len]))
    ensures ReadUnsignedIntCorrected(s, pos, len, v0).1 == pos + len
  {
    AtoiOfField(s, pos, len);
    CorrectedReadOfWholeField(s, pos, len, v0, DecimalValue(s[pos..pos + len]));
  }

  /** The corrected reader on a field that arrives whole stores the atoi of its buffer. */
  lemma CorrectedReadOfWholeField(s: seq<byte>, pos: nat, len: nat, v0: u32, n: int)
    requires |Delivered(s, pos, len)| == len && Atoi(Filled(s, pos, len)) == n
    ensures ReadUnsignedIntCorrected(s, pos, len, v0).0 == ToU32(n)
    ensures ReadUnsignedIntCorrected(s, pos, len, v0).1 == pos + len
  {
  }

  /** A five-digit field is never stored by readUnsignedInt: only a stream that ends one
      byte into the field changes the value. */
  lemma RadarLocationNeverStored(s: seq<byte>, pos: nat, v0: u32)
    requires ReadUnsignedInt(s, pos, 5, v0).0 != v0
    ensures |s| == pos + 1
  {
  }

  /** A complete five-digit radar location (10000 for the composite) is read but not
      stored; the corrected reader stores its decimal value. */
  lemma RadarLocationLost(s: seq<byte>, pos: nat, v0: u32)
    requires pos + 5 < |s|
    requires forall i :: pos <= i < pos + 5 ==> IsDigit(s[i])
    ensures ReadUnsignedInt(s, pos, 5, v0) == (v0, pos + 5)
    ensures ReadUnsignedIntCorrected(s, pos, 5, v0) == (ToU32(DecimalValue(s[pos..pos + 5])), pos + 5)
  {
    CorrectedFieldOfDigits(s, pos, 5, v0);
  }

  /** A field of len digits read by readUnsignedShortInt yields its decimal value. */
  lemma {:induction false} ShortFieldOfDigits(s: seq<byte>, pos: nat, len: nat, v0: u16)
    requires len > 0 && pos + len <= |s|
    requires forall i :: pos <= i < pos + len ==> IsDigit(s[i])
    ensures ReadUnsignedShortInt(s, pos, len, v0).0 == ToU16(DecimalValue(s[pos..pos + len]))
    ensures ReadUnsignedShortInt(s, pos, len, v0).1 == pos + len
  {
    AtoiOfField(s, pos, len);
    ShortReadOfWholeField(s, pos, len, v0, DecimalValue(s[pos..pos + len]));
  }

  /** readUnsignedShortInt on a field that arrives whole stores the atoi of its buffer. */
  lemma ShortReadOfWholeField(s: seq<byte>, pos: nat, len: nat, v0: u16, n: int)
    requires |Delivered(s, pos, len)| == len && Atoi(Filled(s, pos, len)) == n
    ensures ReadUnsignedShortInt(s, pos, len, v0).0 == ToU16(n)
    ensures ReadUnsignedShortInt(s, pos, len, v0).1 == pos + len
  {
  }

  /** The ten header tags, in the order the parser looks for them. */
  const BY: seq<byte> := [0x42, 0x59]  // "BY"
  const VS: seq<byte> := [0x56, 0x53]  // "VS"
  const SW: seq<byte> := [0x53, 0x57]  // "SW"
  const PR: seq<byte> := [0x50, 0x52]  // "PR"
  const INT: seq<byte> := [0x49, 0x4E, 0x54]  // "INT"
  const GP: seq<byte> := [0x47, 0x50]  // "GP"
  const VV: seq<byte> := [0x56, 0x56]  // "VV"
  const MF: seq<byte> := [0x4D, 0x46]  // "MF"
  const QN: seq<byte> := [0x51, 0x4E]  // "QN"
  const MS: seq<byte> := [0x4D, 0x53]  // "MS"

  /** The literals the PR and QN values are compared with. */
  const EXP_E_M00: seq<byte> := [0x20, 0x45, 0x2D, 0x30, 0x30]  // " E-00"
  const EXP_E_P00: seq<byte> := [0x20, 0x45, 0x2B, 0x30, 0x30]  // " E+00"
  const EXP_E_M01: seq<byte> := [0x20, 0x45, 0x2D, 0x30, 0x31]  // " E-01"
  const EXP_E_M02: seq<byte> := [0x20, 0x45, 0x2D, 0x30, 0x32]  // " E-02"
  const QN_001: seq<byte> := [0x30, 0x30, 0x31]  // "001"
  const QN_002: seq<byte> := [0x30, 0x30, 0x32]  // "002"
  const QN_003: seq<byte> := [0x30, 0x30, 0x33]  // "003"
  const QN_004: seq<byte> := [0x30, 0x30, 0x34]  // "004"

  const Tokens: seq<seq<byte>> := [BY, VS, SW, PR, INT, GP, VV, MF, QN, MS]

  /** The window the tags are searched in: the 250 bytes after the fixed prefix with
      byte 249 forced to NUL. */
  function TagWindow(s: seq<byte>, pos: nat): (buf: seq<byte>)
    ensures |buf| == 250 && buf[249] == NUL
    ensures StrLen(buf) <= 249
  {
    Filled(s, pos, 250)[..249] + [NUL]
  }

  /** strstr(buffer, tag) followed by skipping the tag: where the tag's value starts. */
  function ValueOffset(buf: seq<byte>, tag: seq<byte>): (r: Option<nat>)
    requires |tag| > 0
    ensures r.Some? ==> |tag| <= r.value <= StrLen(buf) && OccursAt(Str(buf), tag, r.value - |tag|)
  {
    match Find(Str(buf), tag, 0)
    case None => None
    case Some(k) => Some(k + |tag|)
  }

  /** A tag the window holds is found at its first occurrence; an absent tag is not found. */
  lemma TagFoundAtFirstOccurrence(buf: seq<byte>, tag: seq<byte>)
    requires |tag| > 0
    ensures ValueOffset(buf, tag).Some? ==>
      forall k :: 0 <= k < ValueOffset(buf, tag).value - |tag| ==> !OccursAt(Str(buf), tag, k)
    ensures ValueOffset(buf, tag).None? <==> forall k :: 0 <= k ==> !OccursAt(Str(buf), tag, k)
  {
    FindIsFirst(Str(buf), tag, 0);
  }

  /** The number atoi reads from an n-byte field copied with strncpy. */
  function NumberAt(buf: seq<byte>, p: nat, n: nat): int {
    Atoi(Strncpy(buf, p, n))
  }

  /** A field of n digits reads as its decimal value (BY's seven digits, say). */
  lemma {:induction false} NumberOfDigits(buf: seq<byte>, p: nat, n: nat)
    requires n > 0 && p + n <= |buf|
    requires forall i :: p <= i < p + n ==> IsDigit(buf[i])
    ensures NumberAt(buf, p, n) == DecimalValue(buf[p..p + n])
  {
    StrncpyOfNulFree(buf, p, n);
    AtoiOfDigits(buf[p..p + n]);
  }

  function RadarFormatOf(ed: Edition, code: int): Option<RadarFormat> {
    if code == 1 then Some(R100km)
    else if code == 2 then Some(R128km)
    else if code == 3 && ed == Classes then Some(R150km)
    else None
  }

  /** The PR tag's exponent: the five bytes after the tag decide the precision. */
  function PrecisionAt(buf: seq<byte>, p: nat): Option<real> {
    if StrnEq(buf, p, EXP_E_M00, 5) || StrnEq(buf, p, EXP_E_P00, 5) then Some(1.0)
    else if StrnEq(buf, p, EXP_E_M01, 5) then Some(0.1)
    else if StrnEq(buf, p, EXP_E_M02, 5) then Some(0.01)
    else None
  }

  /** The QN tag as written: four bytes are compared with a three-digit literal. */
  function QuantificationAt(buf: seq<byte>, p: nat): Option<Quantification> {
    if StrnEq(buf, p, QN_001, 4) then Some(RAVOQ_HV)
    else if StrnEq(buf, p, QN_002, 4) then Some(RAVOQ_HV_ConfidenceEstimate)
    else if StrnEq(buf, p, QN_003, 4) then Some(RAVOQ)
    else if StrnEq(buf, p, QN_004, 4) then Some(Winterrath)
    else None
  }

  /** The QN tag as evidently intended: the three digits alone decide. */
  function QuantificationAtCorrected(buf: seq<byte>, p: nat): (r: Option<Quantification>)
    ensures r == Some(RAVOQ_HV) <==> p + 3 <= |buf| && buf[p..p + 3] == QN_001
    ensures r == Some(RAVOQ_HV_ConfidenceEstimate) <==> p + 3 <= |buf| && buf[p..p + 3] == QN_002
    ensures r == Some(RAVOQ) <==> p + 3 <= |buf| && buf[p..p + 3] == QN_003
    ensures r == Some(Winterrath) <==> p + 3 <= |buf| && buf[p..p + 3] == QN_004
  {
    QnLiterals();
    StrnEqWithoutTerminator(buf, p, QN_001);
    StrnEqWithoutTerminator(buf, p, QN_002);
    StrnEqWithoutTerminator(buf, p, QN_003);
    StrnEqWithoutTerminator(buf, p, QN_004);
    if StrnEq(buf, p, QN_001, 3) then Some(RAVOQ_HV)
    else if StrnEq(buf, p, QN_002, 3) then Some(RAVOQ_HV_ConfidenceEstimate)
    else if StrnEq(buf, p, QN_003, 3) then Some(RAVOQ)
    else if StrnEq(buf, p, QN_004, 3) then Some(Winterrath)
    else None
  }

  lemma QnLiterals()
    ensures |QN_001| == 3 && NUL !in QN_001
    ensures |QN_002| == 3 && NUL !in QN_002
    ensures |QN_003| == 3 && NUL !in QN_003
    ensures |QN_004| == 3 && NUL !in QN_004
  {
  }

  /** As written, QN is recognised only when its three digits end the window's string. */
  lemma QuantificationNeedsTerminator(buf: seq<byte>, p: nat)
    requires QuantificationAt(buf, p).Some?
    ensures p + 3 <= |buf| && ByteAt(buf, p + 3) == NUL
    ensures QuantificationAt(buf, p) == QuantificationAtCorrected(buf, p)
  {
    QnLiterals();
    StrnEqWithTerminator(buf, p, QN_001);
    StrnEqWithTerminator(buf, p, QN_002);
    StrnEqWithTerminator(buf, p, QN_003);
    StrnEqWithTerminator(buf, p, QN_004);
  }

  /** A header that continues after "QN003" keeps its previous quantification. */
  lemma QuantificationIgnoredBeforeNextTag()
    ensures QuantificationAt(QN_003 + MS, 0) == None
    ensures QuantificationAtCorrected(QN_003 + MS, 0) == Some(RAVOQ)
  {
    var buf := QN_003 + MS;
    assert buf[0..3] == QN_003;
    QnLiterals();
    StrnEqWithTerminator(buf, 0, QN_001);
    StrnEqWithTerminator(buf, 0, QN_002);
    StrnEqWithTerminator(buf, 0, QN_003);
    StrnEqWithTerminator(buf, 0, QN_004);
  }

  /** The MS tag: a three-digit count, then that many bytes of station list. A negative
      count leaves no list (the source's calloc fails and it writes through NULL). */
  function StationsAt(buf: seq<byte>, p: nat): (r: Option<seq<byte>>)
    ensures r.Some? <==> NumberAt(buf, p, 3) >= 0
    ensures r.Some? ==> |r.value| == NumberAt(buf, p, 3)
  {
    var len := NumberAt(buf, p, 3);
    if len < 0 then None else Some(Strncpy(buf, p + 3, len))
  }

  /** What the parser keeps while it walks the tags. */
  datatype TagState = TagState(header: RadolanHeader, stations: Option<seq<byte>>)

  /** a and b agree on the header fields that no tag writes. */
  predicate SameUntagged(a: RadolanHeader, b: RadolanHeader) {
    && a.scanType == b.scanType && a.day == b.day && a.hour == b.hour && a.minute == b.minute
    && a.month == b.month && a.year == b.year && a.radarLocation == b.radarLocation
    && a.headerSize == b.headerSize && a.numberOfRadarStations == b.numberOfRadarStations
  }

  /** One iteration of the tag loop: look up tag i; when present, store its value. Each
      tag writes its own field only (MF also writes resolution and binaryFormat). */
  function ApplyTag(ed: Edition, buf: seq<byte>, i: nat, st: TagState): (r: TagState)
    requires i < 10
    ensures SameUntagged(r.header, st.header)
    ensures i != 0 ==> r.header.payloadSize == st.header.payloadSize
    ensures i != 1 ==> r.header.radarFormat == st.header.radarFormat
    ensures i != 2 ==> r.header.softwareVersion == st.header.softwareVersion
    ensures i != 3 ==> r.header.precision == st.header.precision
    ensures i != 4 ==> r.header.intervalDuration == st.header.intervalDuration
    ensures i != 5 && i != 7 ==> r.header.resolution == st.header.resolution
    ensures i != 6 ==> r.header.predictionMinutes == st.header.predictionMinutes
    ensures i != 7 ==> r.header.binaryFormat == st.header.binaryFormat
    ensures i != 8 ==> r.header.quantification == st.header.quantification
    ensures i != 9 ==> r.stations == st.stations
    ensures i == 5 && ValueOffset(buf, GP).Some? ==>
      r.header.resolution == Strncpy(buf, ValueOffset(buf, GP).value, 9) + [NUL]
    ensures i == 7 && ValueOffset(buf, MF).Some? ==>
      && r.header.resolution == Strncpy(buf, ValueOffset(buf, MF).value, 8) + st.header.resolution[8..]
      && r.header.binaryFormat == st.header.binaryFormat[..8] + [NUL]
  {
    match ValueOffset(buf, Tokens[i])
    case None => st
    case Some(p) => StoreTag(ed, buf, i, p, st)
  }

  /** The store of tag i's value found at offset p. */
  function StoreTag(ed: Edition, buf: seq<byte>, i: nat, p: nat, st: TagState): (r: TagState)
    requires i < 10
    ensures SameUntagged(r.header, st.header)
    ensures i != 0 ==> r.header.payloadSize == st.header.payloadSize
    ensures i != 1 ==> r.header.radarFormat == st.header.radarFormat
    ensures i != 2 ==> r.header.softwareVersion == st.header.softwareVersion
    ensures i != 3 ==> r.header.precision == st.header.precision
    ensures i != 4 ==> r.header.intervalDuration == st.header.intervalDuration
    ensures i != 5 && i != 7 ==> r.header.resolution == st.header.resolution
    ensures i != 6 ==> r.header.predictionMinutes == st.header.predictionMinutes
    ensures i != 7 ==> r.header.binaryFormat == st.header.binaryFormat
    ensures i != 8 ==> r.header.quantification == st.header.quantification
    ensures i != 9 ==> r.stations == st.stations
    ensures i == 5 ==> r.header.resolution == Strncpy(buf, p, 9) + [NUL]
    ensures i == 7 ==> r.header.resolution == Strncpy(buf, p, 8) + st.header.resolution[8..]
    ensures i == 7 ==> r.header.binaryFormat == st.header.binaryFormat[..8] + [NUL]
  {
    var h := st.header;
    if i == 0 then st.(header := h.(payloadSize := ToSizeT(NumberAt(buf, p, 7))))
    else if i == 1 then
      (match RadarFormatOf(ed, NumberAt(buf, p, 2))
       case Some(f) => st.(header := h.(radarFormat := f))
       case None => st)
    else if i == 2 then st.(header := h.(softwareVersion := Strncpy(buf, p, 8) + [NUL]))
    else if i == 3 then
      (match PrecisionAt(buf, p)
       case Some(x) => st.(header := h.(precision := x))
       case None => st)
    else if i == 4 then st.(header := h.(intervalDuration := ToU16(NumberAt(buf, p, 4))))
    else if i == 5 then st.(header := h.(resolution := Strncpy(buf, p, 9) + [NUL]))
    else if i == 6 then st.(header := h.(predictionMinutes := ToU32(NumberAt(buf, p, 3))))
    else if i == 7 then
      // MF copies into resolution and terminates binaryFormat
      st.(header := h.(resolution := Strncpy(buf, p, 8) + h.resolution[8..],
                       binaryFormat := h.binaryFormat[..8] + [NUL]))
    else if i == 8 then
      (match QuantificationAt(buf, p)
       case Some(q) => st.(header := h.(quantification := q))
       case None => st)
    else st.(stations := StationsAt(buf, p))
  }

  /** The state after the first n iterations of the tag loop. */
  function TagsUpTo(ed: Edition, buf: seq<byte>, n: nat, st0: TagState): TagState
    requires n <= 10
  {
    if n == 0 then st0 else ApplyTag(ed, buf, n - 1, TagsUpTo(ed, buf, n - 1, st0))
  }

  /** A tag's value field, or the previous value when the tag is absent. */
  function Or<T>(o: Option<T>, dflt: T): T {
    if o.Some? then o.value else dflt
  }

  /** The ten iterations of the tag loop, spelled out. */
  function TenTags(ed: Edition, buf: seq<byte>, st0: TagState): TagState {
    ApplyTag(ed, buf, 9, ApplyTag(ed, buf, 8, ApplyTag(ed, buf, 7, ApplyTag(ed, buf, 6,
      ApplyTag(ed, buf, 5, ApplyTag(ed, buf, 4, ApplyTag(ed, buf, 3, ApplyTag(ed, buf, 2,
      ApplyTag(ed, buf, 1, ApplyTag(ed, buf, 0, st0))))))))))
  }

  lemma {:induction false} TagsUpToTen(ed: Edition, buf: seq<byte>, st0: TagState)
    ensures TagsUpTo(ed, buf, 10, st0) == TenTags(ed, buf, st0)
  {
    var s1 := ApplyTag(ed, buf, 0, st0);
    var s2 := ApplyTag(ed, buf, 1, s1);
    var s3 := ApplyTag(ed, buf, 2, s2);
    var s4 := ApplyTag(ed, buf, 3, s3);
    var s5 := ApplyTag(ed, buf, 4, s4);
    var s6 := ApplyTag(ed, buf, 5, s5);
    var s7 := ApplyTag(ed, buf, 6, s6);
    var s8 := ApplyTag(ed, buf, 7, s7);
    var s9 := ApplyTag(ed, buf, 8, s8);
    assert TagsUpTo(ed, buf, 1, st0) == s1;
    assert TagsUpTo(ed, buf, 2, st0) == s2;
    assert TagsUpTo(ed, buf, 3, st0) == s3;
    assert TagsUpTo(ed, buf, 4, st0) == s4;
    assert TagsUpTo(ed, buf, 5, st0) == s5;
    assert TagsUpTo(ed, buf, 6, st0) == s6;
    assert TagsUpTo(ed, buf, 7, st0) == s7;
    assert TagsUpTo(ed, buf, 8, st0) == s8;
    assert TagsUpTo(ed, buf, 9, st0) == s9;
  }

  /** Fields no tag writes come through the loop unchanged; the station list is MS's. */
  lemma TagLoopKeepsPrefixFields(ed: Edition, buf: seq<byte>, st0: TagState)
    ensures SameUntagged(TagsUpTo(ed, buf, 10, st0).header, st0.header)
    ensures TagsUpTo(ed, buf, 10, st0).stations
            == (if ValueOffset(buf, MS).Some? then StationsAt(buf, ValueOffset(buf, MS).value) else st0.stations)
  {
    TagsUpToTen(ed, buf, st0);
  }

  /** The payloadSize field is decided by the BY tag alone: its value when the tag is present and
      parses, the previous value otherwise. */
  lemma TagLoopPayloadSize(ed: Edition, buf: seq<byte>, st0: TagState)
    ensures TagsUpTo(ed, buf, 10, st0).header.payloadSize
            == Or(if ValueOffset(buf, BY).Some? then Some(ToSizeT(NumberAt(buf, ValueOffset(buf, BY).value, 7))) else None, st0.header.payloadSize)
  {
    TagsUpToTen(ed, buf, st0);
  }

  /** The radarFormat field is decided by the VS tag alone: its value when the tag is present and
      parses, the previous value otherwise. */
  lemma TagLoopRadarFormat(ed: Edition, buf: seq<byte>, st0: TagState)
    ensures TagsUpTo(ed, buf, 10, st0).header.radarFormat
            == Or(if ValueOffset(buf, VS).Some? then RadarFormatOf(ed, NumberAt(buf, ValueOffset(buf, VS).value, 2)) else None, st0.header.radarFormat)
  {
    TagsUpToTen(ed, buf, st0);
  }

  /** The softwareVersion field is decided by the SW tag alone: its value when the tag is present and
      parses, the previous value otherwise. */
  lemma TagLoopSoftwareVersion(ed: Edition, buf: seq<byte>, st0: TagState)
    ensures TagsUpTo(ed, buf, 10, st0).header.softwareVersion
            == Or(if ValueOffset(buf, SW).Some? then Some(Strncpy(buf, ValueOffset(buf, SW).value, 8) + [NUL]) else None, st0.header.softwareVersion)
  {
    TagsUpToTen(ed, buf, st0);
  }

  /** The precision field is decided by the PR tag alone: its value when the tag is present and
      parses, the previous value otherwise. */
  lemma TagLoopPrecision(ed: Edition, buf: seq<byte>, st0: TagState)
    ensures TagsUpTo(ed, buf, 10, st0).header.precision
            == Or(if ValueOffset(buf, PR).Some? then PrecisionAt(buf, ValueOffset(buf, PR).value) else None, st0.header.precision)
  {
    TagsUpToTen(ed, buf, st0);
  }

  /** The intervalDuration field is decided by the INT tag alone: its value when the tag is present and
      parses, the previous value otherwise. */
  lemma TagLoopIntervalDuration(ed: Edition, buf: seq<byte>, st0: TagState)
    ensures TagsUpTo(ed, buf, 10, st0).header.intervalDuration
            == Or(if ValueOffset(buf, INT).Some? then Some(ToU16(NumberAt(buf, ValueOffset(buf, INT).value, 4))) else None, st0.header.intervalDuration)
  {
    TagsUpToTen(ed, buf, st0);
  }

  /** The predictionMinutes field is decided by the VV tag alone: its value when the tag is present and
      parses, the previous value otherwise. */
  lemma TagLoopPredictionMinutes(ed: Edition, buf: seq<byte>, st0: TagState)
    ensures TagsUpTo(ed, buf, 10, st0).header.predictionMinutes
            == Or(if ValueOffset(buf, VV).Some? then Some(ToU32(NumberAt(buf, ValueOffset(buf, VV).value, 3))) else None, st0.header.predictionMinutes)
  {
    TagsUpToTen(ed, buf, st0);
  }

  /** The quantification field is decided by the QN tag alone: its value when the tag is present and
      parses, the previous value otherwise. */
  lemma TagLoopQuantification(ed: Edition, buf: seq<byte>, st0: TagState)
    ensures TagsUpTo(ed, buf, 10, st0).header.quantification
            == Or(if ValueOffset(buf, QN).Some? then QuantificationAt(buf, ValueOffset(buf, QN).value) else None, st0.header.quantification)
  {
    TagsUpToTen(ed, buf, st0);
  }

  /** QN and MS, the tags after MF, leave resolution and binaryFormat alone. */
  lemma {:induction false} LastTagsKeepFormatFields(ed: Edition, buf: seq<byte>, st: TagState)
    ensures ApplyTag(ed, buf, 9, ApplyTag(ed, buf, 8, st)).header.resolution == st.header.resolution
    ensures ApplyTag(ed, buf, 9, ApplyTag(ed, buf, 8, st)).header.binaryFormat == st.header.binaryFormat
  {
  }

  /** Before MF, binaryFormat is untouched, and once GP has run resolution holds its value. */
  lemma {:induction false} FormatFieldsBeforeMf(ed: Edition, buf: seq<byte>, n: nat, st0: TagState)
    requires n <= 7
    ensures TagsUpTo(ed, buf, n, st0).header.binaryFormat == st0.header.binaryFormat
    ensures n >= 6 && ValueOffset(buf, GP).Some? ==>
      TagsUpTo(ed, buf, n, st0).header.resolution == Strncpy(buf, ValueOffset(buf, GP).value, 9) + [NUL]
  {
    if n > 0 {
      FormatFieldsBeforeMf(ed, buf, n - 1, st0);
    }
  }

  /** MF lands in resolution: with both GP and MF present, resolution ends as MF's eight
      bytes, GP's ninth byte and a NUL, and binaryFormat only gains a NUL at index 8. */
  lemma MfOverwritesResolution(ed: Edition, buf: seq<byte>, st0: TagState)
    requires ValueOffset(buf, GP).Some? && ValueOffset(buf, MF).Some?
    ensures TagsUpTo(ed, buf, 10, st0).header.resolution
            == Strncpy(buf, ValueOffset(buf, MF).value, 8) + [Strncpy(buf, ValueOffset(buf, GP).value, 9)[8], NUL]
    ensures TagsUpTo(ed, buf, 10, st0).header.binaryFormat == st0.header.binaryFormat[..8] + [NUL]
  {
    FormatFieldsBeforeMf(ed, buf, 7, st0);
    var s7 := TagsUpTo(ed, buf, 7, st0);
    var s8 := TagsUpTo(ed, buf, 8, st0);
    assert s8 == ApplyTag(ed, buf, 7, s7);
    var gp := Strncpy(buf, ValueOffset(buf, GP).value, 9) + [NUL];
    assert gp[8..] == [Strncpy(buf, ValueOffset(buf, GP).value, 9)[8], NUL];
    LastTagsKeepFormatFields(ed, buf, s8);
    assert TagsUpTo(ed, buf, 10, st0) == ApplyTag(ed, buf, 9, ApplyTag(ed, buf, 8, s8));
  }

  /** The MF step as evidently intended: its eight bytes go to binaryFormat. */
  function ApplyMfCorrected(buf: seq<byte>, st: TagState): (r: TagState)
    ensures ValueOffset(buf, MF).Some? ==>
      r.header.binaryFormat == Strncpy(buf, ValueOffset(buf, MF).value, 8) + [NUL]
    ensures r.header.resolution == st.header.resolution
    ensures ValueOffset(buf, MF).None? ==> r == st
  {
    match ValueOffset(buf, MF)
    case None => st
    case Some(p) => st.(header := st.header.(binaryFormat := Strncpy(buf, p, 8) + [NUL]))
  }

  /** With the corrected MF step, GP's value survives in resolution. */
  lemma MfCorrectedKeepsResolution(ed: Edition, buf: seq<byte>, st0: TagState)
    requires ValueOffset(buf, GP).Some?
    ensures ApplyMfCorrected(buf, TagsUpTo(ed, buf, 7, st0)).header.resolution
            == Strncpy(buf, ValueOffset(buf, GP).value, 9) + [NUL]
  {
  }

  /** PR: the exponent in the five bytes after the tag sets the precision. */
  lemma PrecisionFromExponent(buf: seq<byte>, p: nat)
    ensures PrecisionAt(buf, p) == Some(0.1) <==> p + 5 <= |buf| && buf[p..p + 5] == EXP_E_M01
    ensures PrecisionAt(buf, p) == Some(0.01) <==> p + 5 <= |buf| && buf[p..p + 5] == EXP_E_M02
    ensures PrecisionAt(buf, p) == Some(1.0) <==>
      p + 5 <= |buf| && (buf[p..p + 5] == EXP_E_M00 || buf[p..p + 5] == EXP_E_P00)
  {
    var e00, ep00, e01, e02 := EXP_E_M00, EXP_E_P00, EXP_E_M01, EXP_E_M02;
    assert NUL !in e00 && NUL !in ep00 && NUL !in e01 && NUL !in e02 by {
      assert forall i :: 0 <= i < 5 ==> e00[i] != NUL && ep00[i] != NUL && e01[i] != NUL && e02[i] != NUL;
    }
    assert e01 != e00 && e01 != ep00 && e02 != e00 && e02 != ep00 && e01 != e02 by {
      assert e01[4] != e00[4] && e01[2] != ep00[2] && e02[4] != e00[4] && e02[2] != ep00[2] && e01[4] != e02[4];
    }
    StrnEqWithoutTerminator(buf, p, e00);
    StrnEqWithoutTerminator(buf, p, ep00);
    StrnEqWithoutTerminator(buf, p, e01);
    StrnEqWithoutTerminator(buf, p, e02);
  }

  /** VS: 1 and 2 select 100 km and 128 km; 3 selects 150 km only in the classes tree. */
  lemma RadarFormatCodes(ed: Edition, code: int)
    ensures RadarFormatOf(ed, code).Some? <==> code == 1 || code == 2 || (code == 3 && ed == Classes)
    ensures RadarFormatOf(ed, code) == Some(R150km) ==> ed == Classes
  {
  }

  /** The payload size the format fixes for a product: the extended grids hold 1500 x 1400
      cells, FZ (classes tree) trusts the declared size, every other product 900 x 900. */
  function RealPayloadSize(ed: Edition, t: ScanType, declared: size_t): (n: size_t)
    ensures t in {TZ, TH, EX, EZ, EW} ==> n == 1500 * 1400 * Tables.BytesPerPixel(t)
    ensures ed == Classes && t == FZ ==> n == declared
    ensures n <= 1500 * 1400 * 2 || n == declared
    ensures t !in {TZ, TH, EX, EZ, EW} && (ed == Legacy || t != FZ) ==> n == 900 * 900 * Tables.BytesPerPixel(t)
  {
    if t in {TZ, TH, EX, EZ, EW} then 1500 * 1400 * Tables.BytesPerPixel(t)
    else if ed == Classes && t == FZ then declared
    else 900 * 900 * Tables.BytesPerPixel(t)
  }

  /** Result of reading a header: the header record, the station list, and the stream
      position the payload is read from. */
  datatype HeaderRead = HeaderRead(header: RadolanHeader, stations: Option<seq<byte>>, dataStart: nat)

  /** gzseek with a size_t offset: offsets that are negative as a signed 64-bit z_off_t fail
      and leave the stream at 0, where gzrewind put it. */
  function SeekTarget(offset: size_t): nat {
    if offset < 0x8000_0000_0000_0000 then offset else 0
  }

  /** The product code: two bytes read into a NUL-terminated buffer and looked up by name. */
  function ProductCode(ed: Edition, s: seq<byte>): ScanType {
    Tables.ScanTypeFromString(ed, Chars(Str(Filled(s, 0, 2) + [NUL])))
  }

  /** Two non-NUL bytes at the start of the file are looked up as they stand. */
  lemma ProductCodeOfName(ed: Edition, s: seq<byte>)
    requires |s| >= 2 && s[0] != NUL && s[1] != NUL
    ensures ProductCode(ed, s) == Tables.ScanTypeFromString(ed, Chars(s[..2]))
  {
    assert Filled(s, 0, 2) + [NUL] == s[..2] + [NUL];
    var b := s[..2] + [NUL];
    assert b == [s[0], s[1], NUL];
    assert b[1..] == [s[1], NUL];
    assert b[1..][1..] == [NUL];
    assert StrLen([NUL]) == 0;
    assert StrLen(b[1..]) == 1;
    assert StrLen(b) == 2;
    assert Str(b) == s[..2];
  }

  /** Day, hour, minute, radar location, month and year, read in that order from pos. */
  function ReadDateFields(s: seq<byte>, pos: nat, h0: RadolanHeader): (RadolanHeader, nat) {
    var (day, p1) := ReadUnsignedShortInt(s, pos, 2, h0.day);
    var (hour, p2) := ReadUnsignedShortInt(s, p1, 2, h0.hour);
    var (minute, p3) := ReadUnsignedShortInt(s, p2, 2, h0.minute);
    var (location, p4) := ReadUnsignedInt(s, p3, 5, h0.radarLocation);
    var (month, p5) := ReadUnsignedShortInt(s, p4, 2, h0.month);
    var (year, p6) := ReadUnsignedShortInt(s, p5, 2, h0.year);
    (h0.(day := day, hour := hour, minute := minute, radarLocation := location,
         month := month, year := year), p6)
  }

  /** The header fields read from the fixed prefix, and the position after it. */
  function ReadPrefix(ed: Edition, s: seq<byte>, h0: RadolanHeader): (RadolanHeader, nat) {
    ReadDateFields(s, |Delivered(s, 0, 2)|, h0.(scanType := ProductCode(ed, s)))
  }

  /** The size correction applied after the tag loop. */
  function CorrectSizes(ed: Edition, h: RadolanHeader): (r: RadolanHeader)
    ensures (r.headerSize + r.payloadSize) % 0x1_0000_0000_0000_0000 == h.payloadSize
    ensures r.payloadSize == RealPayloadSize(ed, h.scanType, h.payloadSize)
    ensures r.(headerSize := h.headerSize, payloadSize := h.payloadSize) == h
  {
    var size := RealPayloadSize(ed, h.scanType, h.payloadSize);
    WrappedDifferenceAddsUp(h.payloadSize, size);
    h.(headerSize := ToSizeT(h.payloadSize - size), payloadSize := size)
  }

  /** The size_t difference total - part, added back to part, wraps around to total. */
  lemma WrappedDifferenceAddsUp(total: size_t, part: size_t)
    ensures (ToSizeT(total - part) + part) % 0x1_0000_0000_0000_0000 == total
  {
  }

  /** RDReadRadolanHeader as a function of the stream and the record's previous contents. */
  function HeaderOf(ed: Edition, s: seq<byte>, h0: RadolanHeader, stations0: Option<seq<byte>>): HeaderRead {
    var (h1, pos) := ReadPrefix(ed, s, h0);
    var st := TagsUpTo(ed, TagWindow(s, pos), 10, TagState(h1, stations0));
    var h := CorrectSizes(ed, st.header);
    HeaderRead(h, st.stations, SeekTarget(h.headerSize))
  }

  /** RDReadRadolanHeader: the prefix, the loop over the ten tags, the size correction and
      the seek to the end of the header. */
  method ReadRadolanHeader(ed: Edition, s: seq<byte>, h0: RadolanHeader, stations0: Option<seq<byte>>)
    returns (r: HeaderRead)
    ensures r == HeaderOf(ed, s, h0, stations0)
  {
    var prefix := ReadPrefix(ed, s, h0);
    var h, pos := prefix.0, prefix.1;
    var buf := TagWindow(s, pos);
    var st := TagState(h, stations0);
    var i := 0;
    while i < 10
      invariant 0 <= i <= 10
      invariant st == TagsUpTo(ed, buf, i, TagState(h, stations0))
    {
      st := ApplyTag(ed, buf, i, st);
      i := i + 1;
    }
    var hdr := CorrectSizes(ed, st.header);
    r := HeaderRead(hdr, st.stations, SeekTarget(hdr.headerSize));
  }

  /** Fifteen digits at pos are read as day, hour, minute, (unstored) radar location,
      month and year. */
  lemma DateFieldsOfDigits(s: seq<byte>, pos: nat, h0: RadolanHeader)
    requires pos + 15 <= |s|
    requires forall i :: pos <= i < pos + 15 ==> IsDigit(s[i])
    ensures ReadDateFields(s, pos, h0).1 == pos + 15
    ensures ReadDateFields(s, pos, h0).0 == h0.(day := ToU16(DecimalValue(s[pos..pos + 2])),
                                              hour := ToU16(DecimalValue(s[pos + 2..pos + 4])),
                                              minute := ToU16(DecimalValue(s[pos + 4..pos + 6])),
                                              month := ToU16(DecimalValue(s[pos + 11..pos + 13])),
                                              year := ToU16(DecimalValue(s[pos + 13..pos + 15])))
  {
    ShortFieldOfDigits(s, pos, 2, h0.day);
    ShortFieldOfDigits(s, pos + 2, 2, h0.hour);
    ShortFieldOfDigits(s, pos + 4, 2, h0.minute);
    assert ReadUnsignedInt(s, pos + 6, 5, h0.radarLocation) == (h0.radarLocation, pos + 11);
    ShortFieldOfDigits(s, pos + 11, 2, h0.month);
    ShortFieldOfDigits(s, pos + 13, 2, h0.year);
  }

  /** A file that starts with a product code and fifteen digits: the prefix sets the product
      and the date fields and ends at byte 17; the radar location keeps its previous value. */
  lemma PrefixOfWellFormedHeader(ed: Edition, s: seq<byte>, h0: RadolanHeader)
    requires |s| >= 17
    requires forall i :: 2 <= i < 17 ==> IsDigit(s[i])
    ensures ReadPrefix(ed, s, h0).1 == 17
    ensures ReadPrefix(ed, s, h0).0 == h0.(scanType := ProductCode(ed, s),
                                           day := ToU16(DecimalValue(s[2..4])),
                                           hour := ToU16(DecimalValue(s[4..6])),
                                           minute := ToU16(DecimalValue(s[6..8])),
                                           month := ToU16(DecimalValue(s[13..15])),
                                           year := ToU16(DecimalValue(s[15..17])))
  {
    assert |Delivered(s, 0, 2)| == 2;
    DateFieldsOfDigits(s, 2, h0.(scanType := ProductCode(ed, s)));
  }

  /** The tag window of a long enough file is the 249 bytes after the prefix and a NUL. */
  lemma TagWindowAfterPrefix(s: seq<byte>)
    requires |s| >= 17 + 249
    ensures TagWindow(s, 17) == s[17..17 + 249] + [NUL]
  {
  }

  /** The correction splits the declared byte count into header and payload size (modulo
      2^64). FZ's header size is 0. A declared count below the real payload size wraps
      the header size past 2^63, so the seek fails and the payload is read from offset 0. */
  lemma SizesAddUpToDeclared(ed: Edition, h: RadolanHeader)
    ensures var r := CorrectSizes(ed, h);
      && (ed == Classes && h.scanType == FZ ==> r.headerSize == 0 && r.payloadSize == h.payloadSize)
      && (h.payloadSize >= r.payloadSize ==> r.headerSize == h.payloadSize - r.payloadSize)
      && (r.payloadSize <= h.payloadSize < 0x8000_0000_0000_0000 ==> SeekTarget(r.headerSize) == r.headerSize)
      && (h.payloadSize < r.payloadSize ==> SeekTarget(r.headerSize) == 0)
  {
    var r := CorrectSizes(ed, h);
    if h.payloadSize < r.payloadSize {
      assert r.payloadSize <= 1500 * 1400 * 2;
      assert r.headerSize == h.payloadSize - r.payloadSize + 0x1_0000_0000_0000_0000;
    }
  }
}
