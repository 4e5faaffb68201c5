/** Constants, enumerations and records of the RADOLAN composite format
    (include/radolan/types.h), shared by both source trees. */
module RadolanTypes {

  type byte = bv8

  datatype Option<T> = None | Some(value: T)

  /** C integer types that the header fields are declared with. */
  type u16 = x: int | 0 <= x < 0x1_0000
  type u32 = x: int | 0 <= x < 0x1_0000_0000
  type size_t = x: int | 0 <= x < 0x1_0000_0000_0000_0000

  /** Conversions the C code performs implicitly on assignment: two's complement wrap. */
  function ToU16(v: int): u16 { v % 0x1_0000 }
  function ToU32(v: int): u32 { v % 0x1_0000_0000 }
  function ToSizeT(v: int): size_t { v % 0x1_0000_0000_0000_0000 }

  const SIZE_MAX: size_t := 0x1_0000_0000_0000_0000 - 1

  /** Which copy of the library a member models where the two trees differ:
      src/classes/ (Classes) or the older src/ (Legacy). */
  datatype Edition = Classes | Legacy

  /** Flag bits of the 4-bit nibble in front of every 12-bit value. */
  const SECONDARY_VALUE_BIT: byte := 0x01
  const ERROR_BIT: byte := 0x02
  const NEGATIVE_SIGN_BIT: byte := 0x04
  const CLUTTER_BIT: byte := 0x08

  /** Sentinels written into the grid by the two-byte path. */
  const CLUTTER_VALUE: real := -2490.0
  const ERROR_VALUE: real := -2500.0

  /** Sentinel bytes of the one-byte (RVP6) path. */
  const RX_CLUTTER_VALUE: byte := 0xF9
  const RX_ERROR_VALUE: byte := 0xFA

  const DBZ_BASEVALUE: real := -32.5
  const DBZ_OUTSIDEVALUE: real := 92.5

  /** Product identifiers of chapter 1.1 of the RADOLAN format description, version 2.1.
      FZ is used by the classes tree only; the legacy enumeration ends at EW. */
  datatype ScanType =
    | UNKNOWN | RX | RO | RK | RZ | RY | RH | RJ | RP | RT | RC | RI | RG | RB | RA | RM
    | RL | RN | RD | RF | RW | RU | RR | SQ | SH | SF | RV | RS | RQ | RE | TZ | TH
    | EX | EZ | EH | EB | EW | FZ

  /** Whether the edition's enumeration declares this product. */
  predicate Declared(ed: Edition, t: ScanType) {
    ed == Classes || t != FZ
  }

  /** Radar format (tag VS). R150km is used by the classes tree only. */
  datatype RadarFormat = R100km | R128km | R150km

  /** Quantification (tag QN). */
  datatype Quantification = RAVOQ_HV | RAVOQ_HV_ConfidenceEstimate | RAVOQ | Winterrath

  /** The fixed-size char arrays of the header record. */
  type Chars9 = s: seq<byte> | |s| == 9 witness [0, 0, 0, 0, 0, 0, 0, 0, 0]
  type Chars10 = s: seq<byte> | |s| == 10 witness [0, 0, 0, 0, 0, 0, 0, 0, 0, 0]

  /** RDRadolanHeader without its station list, which lives in the Scan object. */
  datatype RadolanHeader = RadolanHeader(
    scanType: ScanType,
    day: u16,
    hour: u16,
    minute: u16,
    month: u16,
    year: u16,
    radarLocation: u32,
    headerSize: size_t,
    payloadSize: size_t,
    radarFormat: RadarFormat,
    softwareVersion: Chars9,
    precision: real,
    intervalDuration: u16,
    resolution: Chars10,
    predictionMinutes: u32,
    binaryFormat: Chars9,
    quantification: Quantification,
    numberOfRadarStations: int)
}
