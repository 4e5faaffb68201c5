/** Per-product lookup tables of src/classes/radolan_utils.cpp and of its older
    copy src/radolan_utils.cpp: value ranges and sentinels, RVP6 byte conversion,
    bytes per pixel, units, mm/h conversion, product names and grid sizes. */
module ScanTypeTables {
  import opened RadolanTypes

  /** Products encoded with one RVP6 byte per pixel. */
  predicate IsRvp6(t: ScanType) {
    t == RX || t == EX
  }

  function MinValue(t: ScanType): real {
    if IsRvp6(t) then DBZ_BASEVALUE else 0.0
  }

  /** The classes tree caps RVP6 products at 92.5 (byte 250), the legacy tree at 95.0 (byte 255). */
  function MaxValue(ed: Edition, t: ScanType): real {
    if IsRvp6(t) then (if ed == Classes then 92.5 else 95.0) else 4095.0
  }

  function MissingValue(t: ScanType): real {
    if IsRvp6(t) then DBZ_OUTSIDEVALUE else ERROR_VALUE
  }

  function ClutterValue(ed: Edition, t: ScanType): real {
    if IsRvp6(t) then 92.0
    else if ed == Classes && t == FZ then ERROR_VALUE
    else CLUTTER_VALUE
  }

  /** A value that lies in the product's range and is neither the missing nor the clutter marker. */
  predicate IsCleanMeasurement(ed: Edition, t: ScanType, value: real) {
    value >= MinValue(t) && value <= MaxValue(ed, t)
    && value != MissingValue(t) && value != ClutterValue(ed, t)
  }

  /** As IsCleanMeasurement, but the minimum itself is excluded. */
  predicate IsCleanMeasurementAndNotMin(ed: Edition, t: ScanType, value: real) {
    value > MinValue(t) && value <= MaxValue(ed, t)
    && value != MissingValue(t) && value != ClutterValue(ed, t)
  }

  /** C's float to integer conversion: truncation toward zero. */
  function Trunc(x: real): int {
    if x >= 0.0 then x.Floor else -((-x).Floor)
  }

  /** RVP6 value back to its byte. The float-to-unsigned-char conversion in the source is
      only defined when the truncated result fits a byte, hence the requires. */
  function RVP6ToByteValue(rvp6: real): byte
    requires -1.0 < 2.0 * (rvp6 - DBZ_BASEVALUE) < 256.0
  {
    Trunc(2.0 * (rvp6 - DBZ_BASEVALUE)) as byte
  }

  function ByteToRVP6Value(b: byte): real {
    DBZ_BASEVALUE + (b as int as real) / 2.0
  }

  /** Byte to RVP6 and back is the identity on every byte. */
  lemma RVP6ByteRoundTrip(b: byte)
    ensures -1.0 < 2.0 * (ByteToRVP6Value(b) - DBZ_BASEVALUE) < 256.0
    ensures RVP6ToByteValue(ByteToRVP6Value(b)) == b
  {
    assert 2.0 * (ByteToRVP6Value(b) - DBZ_BASEVALUE) == b as int as real;
  }

  /** RVP6 to byte and back rounds down to the half-dBZ step below the value. */
  lemma RVP6ValueRoundTrip(rvp6: real)
    requires DBZ_BASEVALUE <= rvp6 && 2.0 * (rvp6 - DBZ_BASEVALUE) < 256.0
    ensures ByteToRVP6Value(RVP6ToByteValue(rvp6)) <= rvp6 < ByteToRVP6Value(RVP6ToByteValue(rvp6)) + 0.5
  {
    var x := 2.0 * (rvp6 - DBZ_BASEVALUE);
    var n := x.Floor;
    assert 0 <= n < 256 && Trunc(x) == n;
    ByteOfInt(n);
    assert ByteToRVP6Value(RVP6ToByteValue(rvp6)) == DBZ_BASEVALUE + n as real / 2.0;
  }

  /** Converting a value below 256 to a byte and back loses nothing. */
  lemma ByteOfInt(n: int)
    requires 0 <= n < 256
    ensures (n as byte) as int == n
  {
    var c := ByteWithValue(n);
    assert (c as int) as byte == c;
  }

  /** The byte whose value is n, counted up from zero. */
  lemma {:induction false} ByteWithValue(n: nat) returns (c: byte)
    requires n < 256
    ensures c as int == n
    decreases n
  {
    if n == 0 {
      c := 0;
    } else {
      var p := ByteWithValue(n - 1);
      c := p + 1;
    }
  }
  /** The RVP6 clutter and missing markers are the decoded sentinel bytes 249 and 250;
      the maximum is byte 250 in the classes tree and byte 255 in the legacy tree. */
  lemma Rvp6MarkersAreSentinelBytes(ed: Edition, t: ScanType)
    requires IsRvp6(t)
    ensures ClutterValue(ed, t) == ByteToRVP6Value(RX_CLUTTER_VALUE)
    ensures MissingValue(t) == ByteToRVP6Value(RX_ERROR_VALUE)
    ensures MinValue(t) == ByteToRVP6Value(0)
    ensures MaxValue(ed, t) == ByteToRVP6Value(if ed == Classes then 250 else 255)
  {
  }

  /** Every product has a non-empty range. */
  lemma MinBelowMax(ed: Edition, t: ScanType)
    ensures MinValue(t) < MaxValue(ed, t)
    ensures IsRvp6(t) ==> MinValue(t) == -32.5
    ensures !IsRvp6(t) ==> MinValue(t) == 0.0 && MaxValue(ed, t) == 4095.0
  {
  }

  /** The stricter predicate implies the weaker, and they differ exactly at the minimum. */
  lemma CleanAndNotMinIsCleanWithoutMin(ed: Edition, t: ScanType, value: real)
    ensures IsCleanMeasurementAndNotMin(ed, t, value) ==> IsCleanMeasurement(ed, t, value)
    ensures IsCleanMeasurement(ed, t, value) && !IsCleanMeasurementAndNotMin(ed, t, value)
            <==> IsCleanMeasurement(ed, t, value) && value == MinValue(t)
  {
  }

  function BytesPerPixel(t: ScanType): (n: nat)
    ensures n == 1 <==> IsRvp6(t)
    ensures n == 1 || n == 2
  {
    if IsRvp6(t) then 1 else 2
  }

  /** Unit string of a product (classes tree only). */
  function Units(t: ScanType): string {
    match t
    case RX | EX | FZ => "dBZ"
    case RZ | RY | RV | EZ => "0.01 mm /5 min"
    case RH | RB | RW | RL | RU | RS | RQ => "0.1 mm / h"
    case SQ => "0.1 mm / 6 h"
    case SH => "0.1 mm / 12 h"
    case SF => "0.1 mm / 24 h"
    case _ => "unknown"
  }

  /** A float that may be minus infinity. */
  datatype Rate = NegInfinity | Finite(value: real)

  /** Conversion of a stored value to mm per hour (rates) or to mm (sums). Identical in both trees. */
  function MMPerHour(t: ScanType, value: real): Rate {
    match t
    case RX | EX => NegInfinity
    case RZ | RY | RV | EZ => Finite(value * 12.0 / 100.0)
    case RH | RB | RW | RL | RU | RS | RQ => Finite(value / 10.0)
    case SQ => Finite(value / 10.0)
    case SH => Finite(value / 10.0)
    case SF => Finite(value)
    case _ => Finite(value)
  }

  /** The conversion follows the unit: hundredths of a mm per 5 minutes become mm per hour,
      tenths of a mm per hour become mm per hour, reflectivities have no rain rate. */
  lemma MMPerHourFollowsUnits(t: ScanType, value: real)
    ensures Units(t) == "0.01 mm /5 min" ==> MMPerHour(t, value) == Finite(value / 100.0 * (60.0 / 5.0))
    ensures Units(t) == "0.1 mm / h" ==> MMPerHour(t, value) == Finite(value / 10.0)
    ensures Units(t) == "0.1 mm / 6 h" || Units(t) == "0.1 mm / 12 h" ==> MMPerHour(t, value) == Finite(value / 10.0)
  {
    if Units(t) == "0.01 mm /5 min" {
    } else if Units(t) == "0.1 mm / h" {
    }
  }

  /** The conversion yields minus infinity exactly for the reflectivities RX and EX. */
  lemma MMPerHourNegInfinity(t: ScanType, value: real)
    ensures IsRvp6(t) <==> MMPerHour(t, value).NegInfinity?
  {
  }

  /** SF is stored in tenths of a mm like SQ and SH, yet is returned unscaled, and FZ is
      labelled dBZ yet is returned unchanged instead of minus infinity. */
  lemma MMPerHourUnitMismatches(value: real)
    requires value != 0.0
    ensures Units(SF) == "0.1 mm / 24 h" && MMPerHour(SF, value) != Finite(value / 10.0)
    ensures Units(FZ) == "dBZ" && MMPerHour(FZ, value) == Finite(value)
  {
  }

  /** The corrected conversion: every summed product in tenths of a mm is scaled to mm. */
  function MMPerHourCorrected(t: ScanType, value: real): (r: Rate)
    ensures Units(t) == "0.1 mm / 24 h" ==> r == Finite(value / 10.0)
    ensures t != SF ==> r == MMPerHour(t, value)
  {
    if t == SF then Finite(value / 10.0) else MMPerHour(t, value)
  }

  function ScanTypeToString(ed: Edition, t: ScanType): string {
    match t
    case RX => "RX" case RO => "RO" case RK => "RK" case RZ => "RZ" case RY => "RY"
    case RH => "RH" case RJ => "RJ" case RP => "RP" case RT => "RT" case RC => "RC"
    case RI => "RI" case RG => "RG" case RB => "RB" case RA => "RA" case RM => "RM"
    case RL => "RL" case RN => "RN" case RD => "RD" case RF => "RF" case RW => "RW"
    case RU => "RU" case RR => "RR" case SQ => "SQ" case SH => "SH" case SF => "SF"
    case RV => "RV" case RS => "RS" case RQ => "RQ" case TZ => "TZ" case TH => "TH"
    case EX => "EX" case EZ => "EZ" case EH => "EH" case EB => "EB" case EW => "EW"
    case FZ => if ed == Classes then "FZ" else "UNKNOWN"
    case RE => "UNKNOWN"
    case UNKNOWN => "UNKNOWN"
  }

  /** The chain of strcmp calls against the product names. Every name has two characters,
      so the chain is a lookup on the two characters of a two-character string (the
      duplicated RX test in the source changes nothing). The classes tree also reads "RE"
      as RQ and knows "FZ"; every other string is UNKNOWN. */
  function ScanTypeFromString(ed: Edition, s: string): ScanType {
    if |s| != 2 then UNKNOWN
    else
      match (s[0], s[1])
      case ('R', 'X') => RX
      case ('R', 'O') => RO
      case ('R', 'K') => RK
      case ('R', 'Z') => RZ
      case ('R', 'Y') => RY
      case ('R', 'H') => RH
      case ('R', 'J') => RJ
      case ('R', 'P') => RP
      case ('R', 'T') => RT
      case ('R', 'C') => RC
      case ('R', 'I') => RI
      case ('R', 'G') => RG
      case ('R', 'B') => RB
      case ('R', 'A') => RA
      case ('R', 'M') => RM
      case ('R', 'L') => RL
      case ('R', 'N') => RN
      case ('R', 'D') => RD
      case ('R', 'F') => RF
      case ('R', 'W') => RW
      case ('R', 'U') => RU
      case ('R', 'R') => RR
      case ('S', 'Q') => SQ
      case ('S', 'H') => SH
      case ('S', 'F') => SF
      case ('R', 'V') => RV
      case ('R', 'S') => RS
      case ('R', 'Q') => RQ
      case ('T', 'Z') => TZ
      case ('T', 'H') => TH
      case ('E', 'X') => EX
      case ('E', 'Z') => EZ
      case ('E', 'H') => EH
      case ('E', 'B') => EB
      case ('E', 'W') => EW
      case ('R', 'E') => if ed == Classes then RQ else UNKNOWN
      case ('F', 'Z') => if ed == Classes then FZ else UNKNOWN
      case _ => UNKNOWN
  }

  /** Name to product and back: every declared product except UNKNOWN and RE survives. */
  lemma ScanTypeStringRoundTrip(ed: Edition, t: ScanType)
    requires Declared(ed, t) && t != UNKNOWN && t != RE
    ensures ScanTypeFromString(ed, ScanTypeToString(ed, t)) == t
  {
    if t in {RX, RO, RK, RZ, RY, RH, RJ, RP} {
      ChainRoundTrip1(ed, t);
    } else if t in {RT, RC, RI, RG, RB, RA, RM, RL} {
      ChainRoundTrip2(ed, t);
    } else if t in {RN, RD, RF, RW, RU, RR, SQ, SH} {
      ChainRoundTrip3(ed, t);
    } else if t in {SF, RV, RS, RQ, TZ, TH, EX} {
      ChainRoundTrip4(ed, t);
    } else {
      ChainRoundTrip5(ed, t);
    }
  }

  // The round trip, proved for stretches of the strcmp chain in its order.

  lemma ChainRoundTrip1(ed: Edition, t: ScanType)
    requires t in {RX, RO, RK, RZ, RY, RH, RJ, RP}
    ensures ScanTypeFromString(ed, ScanTypeToString(ed, t)) == t
  {
  }

  lemma ChainRoundTrip2(ed: Edition, t: ScanType)
    requires t in {RT, RC, RI, RG, RB, RA, RM, RL}
    ensures ScanTypeFromString(ed, ScanTypeToString(ed, t)) == t
  {
  }

  lemma ChainRoundTrip3(ed: Edition, t: ScanType)
    requires t in {RN, RD, RF, RW, RU, RR, SQ, SH}
    ensures ScanTypeFromString(ed, ScanTypeToString(ed, t)) == t
  {
  }

  lemma ChainRoundTrip4(ed: Edition, t: ScanType)
    requires t in {SF, RV, RS, RQ, TZ, TH, EX}
    ensures ScanTypeFromString(ed, ScanTypeToString(ed, t)) == t
  {
  }

  lemma ChainRoundTrip5(ed: Edition, t: ScanType)
    requires t in {EZ, EH, EB, EW} || (ed == Classes && t == FZ)
    ensures ScanTypeFromString(ed, ScanTypeToString(ed, t)) == t
  {
  }

  /** RE has no name of its own; the classes tree reads "RE" as RQ, the legacy tree not at all. */
  lemma ScanTypeStringExceptions(ed: Edition)
    ensures ScanTypeToString(ed, RE) == "UNKNOWN" && ScanTypeToString(ed, UNKNOWN) == "UNKNOWN"
    ensures ScanTypeFromString(ed, "UNKNOWN") == UNKNOWN
    ensures ScanTypeFromString(ed, "RE") == (if ed == Classes then RQ else UNKNOWN)
    ensures ScanTypeFromString(ed, "FZ") == (if ed == Classes then FZ else UNKNOWN)
  {
  }

  /** Product to name and back: every recognised name other than "RE" is the name of its product. */
  lemma ScanTypeNameRoundTrip(ed: Edition, s: string)
    requires ScanTypeFromString(ed, s) != UNKNOWN && s != "RE"
    ensures ScanTypeToString(ed, ScanTypeFromString(ed, s)) == s
  {
    assert s == [s[0], s[1]];
  }

  /** RDGridSize: writes its two output arguments, given here with their previous values.
      -1 stored into a size_t is SIZE_MAX. The classes copy lacks a break after FZ, so FZ
      falls through into the UNKNOWN case; the legacy copy has no case for RE (nor FZ) and
      no default, so those leave both outputs untouched. */
  method GridSize(ed: Edition, t: ScanType, width0: size_t, height0: size_t)
    returns (width: size_t, height: size_t)
    ensures t == UNKNOWN ==> width == SIZE_MAX && height == SIZE_MAX
    ensures t in {EX, EZ, EH, EB, EW} ==> width == 1500 && height == 1400
    ensures t !in {UNKNOWN, EX, EZ, EH, EB, EW, RE, FZ} ==> width == 900 && height == 900
    ensures t == RE ==> if ed == Classes then width == 900 && height == 900
                        else width == width0 && height == height0
    ensures t == FZ ==> if ed == Classes then width == SIZE_MAX && height == SIZE_MAX
                        else width == width0 && height == height0
  {
    width, height := width0, height0;
    match t {
      case EX | EZ | EH | EB | EW =>
        width, height := 1500, 1400;
      case FZ =>
        if ed == Classes {
          width, height := 450, 450;
          // no break: execution continues into the UNKNOWN case
          width, height := ToSizeT(-1), ToSizeT(-1);
        }
      case UNKNOWN =>
        width, height := ToSizeT(-1), ToSizeT(-1);
      case RE =>
        if ed == Classes {
          width, height := 900, 900;
        }
      case _ =>
        width, height := 900, 900;
    }
  }

  /** RDGridSize as evidently intended: FZ is a 450 x 450 grid. */
  method GridSizeCorrected(ed: Edition, t: ScanType, width0: size_t, height0: size_t)
    returns (width: size_t, height: size_t)
    ensures ed == Classes && t == FZ ==> width == 450 && height == 450
    ensures ed == Classes && t != UNKNOWN ==> width < SIZE_MAX && height < SIZE_MAX
    ensures t != FZ ==> (width, height) == GridSizeOf(ed, t, width0, height0)
  {
    if ed == Classes && t == FZ {
      width, height := 450, 450;
    } else {
      width, height := GridSize(ed, t, width0, height0);
    }
  }

  /** The outputs of GridSize as a value, for stating GridSizeCorrected's contract. */
  function GridSizeOf(ed: Edition, t: ScanType, width0: size_t, height0: size_t): (size_t, size_t) {
    if t == UNKNOWN then (SIZE_MAX, SIZE_MAX)
    else if t in {EX, EZ, EH, EB, EW} then (1500, 1400)
    else if t == RE || t == FZ then
      (if ed == Classes && t == RE then (900, 900)
       else if ed == Classes then (SIZE_MAX, SIZE_MAX)
       else (width0, height0))
    else (900, 900)
  }

  /** C's tolower in the "C" locale. */
  function ToLower(b: byte): byte {
    if 0x41 <= b <= 0x5A then b + 0x20 else b
  }

  /** The buffer after lower-casing the C string it holds; the bytes from the NUL on are untouched. */
  function LowercasedCString(s: seq<byte>, len: nat): (r: seq<byte>)
    requires len <= |s|
    ensures |r| == |s|
    ensures forall i :: 0 <= i < len ==> r[i] == ToLower(s[i])
    ensures r[len..] == s[len..]
  {
    seq(|s|, i requires 0 <= i < |s| => if i < len then ToLower(s[i]) else s[i])
  }

  /** convertToLowercase: lower-cases, in place, the bytes before the first NUL. */
  method ConvertToLowercase(s: array<byte>)
    requires exists i :: 0 <= i < s.Length && s[i] == 0
    modifies s
    ensures exists len :: (0 <= len < s.Length && old(s[len]) == 0
            && (forall i :: 0 <= i < len ==> old(s[i]) != 0)
            && s[..] == LowercasedCString(old(s[..]), len))
  {
    var len := 0;
    while s[len] != 0
      invariant 0 <= len < s.Length
      invariant forall i :: 0 <= i < len ==> s[i] != 0
      invariant exists i :: len <= i < s.Length && s[i] == 0
      decreases s.Length - len
    {
      len := len + 1;
    }
    ghost var before := s[..];
    var i := 0;
    while i < len
      invariant 0 <= i <= len
      invariant forall k :: 0 <= k < i ==> s[k] == ToLower(before[k])
      invariant forall k :: i <= k < s.Length ==> s[k] == before[k]
    {
      var c := s[i];
      s[i] := ToLower(c);
      i := i + 1;
    }
    assert s[..] == LowercasedCString(before, len);
  }
}
