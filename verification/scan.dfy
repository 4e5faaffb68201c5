/** The scan record and its life cycle (RDScan in include/radolan/types.h; RDReadScan,
    RDAllocateScan, RDFreeScan and RDCloneScan in src/classes/read.c and src/read.c).
    The compressed file is given as its decompressed bytes, or None when it cannot be
    opened; each allocation the reader makes is given as succeeding or failing. */
module RadolanScan {
  import opened RadolanTypes
  import Tables = ScanTypeTables
  import Header = HeaderParser
  import opened PayloadDecoder
  import Coordinates

  /** Grid dimensions the reader allocates for a product, as (dimLat, dimLon). */
  function Dimensions(ed: Edition, t: ScanType): (int, int) {
    if t in {TZ, TH, EX, EZ, EW} then (1500, 1400)
    else if ed == Classes && t == FZ then (450, 450)
    else (900, 900)
  }

  function CellCount(ed: Edition, t: ScanType): nat {
    var d := Dimensions(ed, t);
    d.0 * d.1
  }

  /** Except for FZ, the corrected payload is exactly one grid of pixels, so the RVP6 loop,
      which runs over the payload, and the two-byte loop, which runs over the grid, both
      fill the whole data array. */
  lemma PayloadFillsGrid(ed: Edition, t: ScanType, declared: size_t)
    requires !(ed == Classes && t == FZ)
    ensures Header.RealPayloadSize(ed, t, declared) == CellCount(ed, t) * Tables.BytesPerPixel(t)
    ensures Tables.IsRvp6(t) ==> Header.RealPayloadSize(ed, t, declared) == CellCount(ed, t)
  {
  }

  /** The reader's grid and the other grid tables disagree: GridSize gives TZ and TH 900 x 900
      cells and EH and EB 1500 x 1400, the reader the other way round; the coordinate system
      gives EZ and EW a 900 x 900 grid where the reader allocates 1500 x 1400. */
  lemma GridTablesDisagree(ed: Edition, w0: size_t, h0: size_t)
    ensures forall t :: t in {TZ, TH} ==>
      Tables.GridSizeOf(ed, t, w0, h0) == (900, 900) && CellCount(ed, t) == 1500 * 1400
    ensures forall t :: t in {EH, EB} ==>
      Tables.GridSizeOf(ed, t, w0, h0) == (1500, 1400) && CellCount(ed, t) == 900 * 900
    ensures forall t :: t in {EZ, EW} ==>
      Coordinates.GridInfoOf(t).horizontal * Coordinates.GridInfoOf(t).vertical == 900 * 900 &&
      CellCount(ed, t) == 1500 * 1400
  {
  }

  /** Which allocation the reader attempts succeeds: the scan itself (only when the caller
      passes none), the data grid, and the read buffer. */
  datatype Allocation = Allocation(scanOk: bool, dataOk: bool, bufferOk: bool)

  datatype Failure = CannotOpen | OutOfMemory | ShortRead(oneByte: bool)

  /** RDReadScan's return value. The classes tree returns 1 on success and 0 on every
      failure; the legacy tree 0 on success, -1 when out of memory, -2 when the file cannot
      be opened, -3 on a short RVP6 read but -1 on a short two-byte read. */
  function StatusCode(ed: Edition, f: Option<Failure>): int {
    if ed == Classes then (if f.None? then 1 else 0)
    else match f
      case None => 0
      case Some(CannotOpen) => -2
      case Some(OutOfMemory) => -1
      case Some(ShortRead(oneByte)) => if oneByte then -3 else -1
  }

  /** The return values the legacy header documents: 0 success, -1 out of memory, -2 file
      not found, -3 read error. */
  function DocumentedStatusCode(f: Option<Failure>): int {
    match f
    case None => 0
    case Some(CannotOpen) => -2
    case Some(OutOfMemory) => -1
    case Some(ShortRead(_)) => -3
  }

  /** The legacy codes follow the documentation except for a short two-byte read, which
      reports -1, the out-of-memory code. The two trees use 0 for opposite outcomes, so the
      library test's success check (a result of at least 0) passes every failure of the
      classes tree. */
  lemma StatusCodes(f: Option<Failure>)
    ensures StatusCode(Legacy, f) == DocumentedStatusCode(f) <==> f != Some(ShortRead(false))
    ensures StatusCode(Legacy, Some(ShortRead(false))) == StatusCode(Legacy, Some(OutOfMemory))
    ensures StatusCode(Classes, f) == 0 <==> f.Some?
    ensures StatusCode(Legacy, f) == 0 <==> f.None?
    ensures StatusCode(Legacy, f) != DocumentedStatusCode(f) ==> StatusCode(Legacy, f) == -1 && DocumentedStatusCode(f) == -3
    ensures StatusCode(Legacy, f) >= 0 <==> f.None?
    ensures StatusCode(Classes, f) >= 0
  {
  }

  /** The header of a scan the reader allocated itself with calloc. The zero radar format is
      not one of the enumeration's values; R100km stands in for it (the reader never
      reads that field). */
  const ZERO_HEADER: RadolanHeader := RadolanHeader(
    UNKNOWN, 0, 0, 0, 0, 0, 0, 0, 0, R100km, [0, 0, 0, 0, 0, 0, 0, 0, 0], 0.0, 0,
    [0, 0, 0, 0, 0, 0, 0, 0, 0, 0], 0, [0, 0, 0, 0, 0, 0, 0, 0, 0], RAVOQ_HV, 0)

  /** The header as RDReadRadolanHeader leaves it, from the record's previous contents h0; a
      station list is Some only when an MS tag was read. */
  function Parse(ed: Edition, s: seq<byte>, h0: RadolanHeader): Header.HeaderRead {
    Header.HeaderOf(ed, s, h0, None)
  }

  /** The bytes gzread delivers into the buffer: up to payloadSize bytes from the position
      the header reader seeked to. */
  function PayloadRead(s: seq<byte>, r: Header.HeaderRead): (p: seq<byte>)
    ensures |p| <= r.header.payloadSize
  {
    var available := if r.dataStart <= |s| then s[r.dataStart..] else [];
    available[..Header.Min(|available|, r.header.payloadSize)]
  }

  /** Where RDReadScan stops, if it does: the checks in the order the source makes them. */
  function Outcome(ed: Edition, file: Option<seq<byte>>, needScan: bool, alloc: Allocation, h0: RadolanHeader): Option<Failure> {
    if file.None? then Some(CannotOpen)
    else if needScan && !alloc.scanOk then Some(OutOfMemory)
    else if !alloc.dataOk || !alloc.bufferOk then Some(OutOfMemory)
    else ReadFailure(file.value, Parse(ed, file.value, h0))
  }

  /** The payload check: gzread must deliver the whole payload the header declares. */
  function ReadFailure(s: seq<byte>, r: Header.HeaderRead): Option<Failure> {
    if |PayloadRead(s, r)| != r.header.payloadSize then Some(ShortRead(Tables.IsRvp6(r.header.scanType)))
    else None
  }

  /** The two-byte cells a payload fills: the buffer holds one grid of words, zero where the
      payload ends early. */
  function GridWords(ed: Edition, h: RadolanHeader, payload: seq<byte>, littleEndianHost: bool): (ws: seq<word>)
    ensures |ws| == CellCount(ed, h.scanType)
  {
    var cells := CellCount(ed, h.scanType);
    Words(ed, payload[..Header.Min(|payload|, 2 * cells)], cells, littleEndianHost)
  }

  /** The data grid decoded from a payload. */
  function Grid(ed: Edition, h: RadolanHeader, payload: seq<byte>, omitOutside: bool, littleEndianHost: bool): seq<real> {
    if Tables.IsRvp6(h.scanType) then Rvp6Values(h.scanType, omitOutside, payload)
    else CellValues(ed, h.scanType, h.precision, omitOutside, GridWords(ed, h, payload, littleEndianHost))
  }

  /** The reader's (min_value, max_value) after decoding a payload. */
  function GridRange(ed: Edition, h: RadolanHeader, payload: seq<byte>, omitOutside: bool, littleEndianHost: bool): (real, real) {
    var t := h.scanType;
    var limits := (Tables.MinValue(t), Tables.MaxValue(ed, t));
    if Tables.IsRvp6(t) then Range(Rvp6Values(t, omitOutside, payload), limits)
    else Range(RangeValues(ed, t, h.precision, omitOutside, GridWords(ed, h, payload, littleEndianHost)), limits)
  }

  /** RDScan. The station list is the header's radarStations field; data is the grid of
      dimLat x dimLon values. */
  class Scan {
    var filename: seq<byte>
    var header: RadolanHeader
    var radarStations: array?<byte>
    var data: array?<real>
    var dimLon: int
    var dimLat: int
    var minValue: real
    var maxValue: real

    /** A zero-filled scan, as calloc returns it. */
    constructor Zeroed()
      ensures filename == [] && header == ZERO_HEADER && radarStations == null && data == null
      ensures dimLon == 0 && dimLat == 0 && minValue == 0.0 && maxValue == 0.0
    {
      filename := [];
      header := ZERO_HEADER;
      radarStations := null;
      data := null;
      dimLon := 0;
      dimLat := 0;
      minValue := 0.0;
      maxValue := 0.0;
    }

    /** The record after the header step of RDReadScan on stream s, from the header h0 and
        station list stations0 it held before: the file name stored, the parsed header, a
        fresh station list when the header has an MS tag, and the product's grid size. */
    ghost predicate Loaded(ed: Edition, name: seq<byte>, s: seq<byte>, h0: RadolanHeader, stations0: array?<byte>)
      reads this, radarStations
    {
      var r := Parse(ed, s, h0);
      && filename == name && header == r.header
      && (dimLat, dimLon) == Dimensions(ed, r.header.scanType)
      && (r.stations.Some? ==> radarStations != null && radarStations[..] == r.stations.value)
      && (r.stations.None? ==> radarStations == stations0)
    }

    /** The grid after the decoding step of a read that delivered payload: the decoded
        payload and its range when the read succeeded, otherwise the zeroed grid and the
        product's limits. */
    ghost predicate Decoded(ed: Edition, payload: seq<byte>, success: bool, omitOutside: bool, littleEndianHost: bool)
      reads this, data
    {
      var t := header.scanType;
      && data != null && data.Length == CellCount(ed, t)
      && if success then
           && data[..] == Grid(ed, header, payload, omitOutside, littleEndianHost)
           && (minValue, maxValue) == GridRange(ed, header, payload, omitOutside, littleEndianHost)
         else
           && (forall k :: 0 <= k < data.Length ==> data[k] == 0.0)
           && minValue == Tables.MinValue(t) && maxValue == Tables.MaxValue(ed, t)
    }

    /** The header step of RDReadScan after the header is parsed into r: store the file
        name, the header and a station list when the header has an MS tag, and set the
        product's grid size. */
    method StoreHeader(ed: Edition, name: seq<byte>, r: Header.HeaderRead)
      modifies this
      ensures filename == name && header == r.header
      ensures (dimLat, dimLon) == Dimensions(ed, r.header.scanType)
      ensures r.stations.Some? ==> radarStations != null && fresh(radarStations) && radarStations[..] == r.stations.value
      ensures r.stations.None? ==> radarStations == old(radarStations)
      ensures data == old(data) && minValue == old(minValue) && maxValue == old(maxValue)
    {
      filename := name;
      header := r.header;
      if r.stations.Some? {
        var list := r.stations.value;
        radarStations := new byte[|list|](k requires 0 <= k < |list| => list[k]);
      }
      var dims := Dimensions(ed, r.header.scanType);
      dimLat, dimLon := dims.0, dims.1;
    }

    /** The steps of RDReadScan after the header r is parsed from s: store it, allocate the
        grid (when dataOk), set the product's limits, allocate the read buffer (when
        bufferOk), read the payload and decode it. */
    method Fill(ed: Edition, name: seq<byte>, s: seq<byte>, r: Header.HeaderRead,
                omitOutside: bool, littleEndianHost: bool, dataOk: bool, bufferOk: bool)
      returns (failure: Option<Failure>)
      requires Tables.IsRvp6(r.header.scanType) ==> r.header.payloadSize == CellCount(ed, r.header.scanType)
      modifies this
      ensures failure == if !dataOk || !bufferOk then Some(OutOfMemory) else ReadFailure(s, r)
      ensures filename == name && header == r.header
      ensures (dimLat, dimLon) == Dimensions(ed, r.header.scanType)
      ensures r.stations.Some? ==> radarStations != null && fresh(radarStations) && radarStations[..] == r.stations.value
      ensures r.stations.None? ==> radarStations == old(radarStations)
      ensures !dataOk ==> data == null && minValue == old(minValue) && maxValue == old(maxValue)
      ensures dataOk ==> data != null && fresh(data) && Decoded(ed, PayloadRead(s, r), failure.None?, omitOutside, littleEndianHost)
    {
      StoreHeader(ed, name, r);
      var t := r.header.scanType;
      if !dataOk {
        data := null;
        return Some(OutOfMemory);
      }
      data := new real[dimLat * dimLon](_ => 0.0);
      minValue := Tables.MinValue(t);
      maxValue := Tables.MaxValue(ed, t);
      if !bufferOk {
        return Some(OutOfMemory);
      }
      var payload := PayloadRead(s, r);
      if |payload| != r.header.payloadSize {
        return Some(ShortRead(Tables.IsRvp6(t)));
      }
      if Tables.IsRvp6(t) {
        minValue, maxValue := DecodeRvp6Payload(data, t, omitOutside, payload, (minValue, maxValue));
      } else {
        var words := GridWords(ed, r.header, payload, littleEndianHost);
        minValue, maxValue := DecodeTwoBytePayload(data, ed, t, r.header.precision, omitOutside, words, (minValue, maxValue));
      }
      return None;
    }

    /** RDValueAt: the value of a grid point, read without a bounds check. */
    function ValueAt(p: Coordinates.GridPoint): real
      reads this, data
      requires data != null && 0 <= Coordinates.CellIndex(dimLon, p) < data.Length
    {
      data[Coordinates.CellIndex(dimLon, p)]
    }
  }

  /** The RVP6 loop of RDReadScan: one value per payload byte written into grid, and the
      running minimum and maximum started from range0. */
  method DecodeRvp6Payload(grid: array<real>, t: ScanType, omitOutside: bool, bytes: seq<byte>, range0: (real, real))
    returns (lo: real, hi: real)
    requires grid.Length == |bytes|
    modifies grid
    ensures grid[..] == Rvp6Values(t, omitOutside, bytes)
    ensures (lo, hi) == Range(Rvp6Values(t, omitOutside, bytes), range0)
  {
    lo, hi := range0.0, range0.1;
    var i := 0;
    while i < |bytes|
      invariant 0 <= i <= |bytes|
      invariant forall k :: 0 <= k < i ==> grid[k] == DecodeRvp6(t, omitOutside, bytes[k])
      invariant (lo, hi) == Rvp6RangeUpTo(t, omitOutside, bytes, i, range0)
    {
      var v := DecodeRvp6(t, omitOutside, bytes[i]);
      grid[i] := v;
      if v > hi {
        hi := v;
      } else if v < lo {
        lo := v;
      }
      i := i + 1;
    }
    Rvp6LoopRange(t, omitOutside, bytes, range0);
    assert grid[..] == Rvp6Values(t, omitOutside, bytes);
  }

  /** The two-byte loop of RDReadScan: one value per word written into grid, and the minimum
      and maximum over the cells of the negative and plain branches, started from range0. */
  method DecodeTwoBytePayload(grid: array<real>, ed: Edition, t: ScanType, precision: real, omitOutside: bool,
                              words: seq<word>, range0: (real, real))
    returns (lo: real, hi: real)
    requires grid.Length == |words|
    modifies grid
    ensures grid[..] == CellValues(ed, t, precision, omitOutside, words)
    ensures (lo, hi) == Range(RangeValues(ed, t, precision, omitOutside, words), range0)
  {
    lo, hi := range0.0, range0.1;
    var i := 0;
    while i < |words|
      invariant 0 <= i <= |words|
      invariant forall k :: 0 <= k < i ==> grid[k] == DecodeCell(ed, t, precision, omitOutside, words[k])
      invariant (lo, hi) == TwoByteRangeUpTo(ed, t, precision, omitOutside, words, i, range0)
    {
      var w := words[i];
      var v := DecodeCell(ed, t, precision, omitOutside, w);
      grid[i] := v;
      ghost var before := (lo, hi);
      if UpdatesRange(BranchOf(Flag(w))) {
        if v > hi {
          hi := v;
        } else if v < lo {
          lo := v;
        }
        assert (lo, hi) == Step(before, v);
      }
      i := i + 1;
    }
    TwoByteRangeUpToIsRange(ed, t, precision, omitOutside, words, |words|, range0);
    assert words[..|words|] == words;
    assert grid[..] == CellValues(ed, t, precision, omitOutside, words);
  }

  /** After the size correction the payload is one grid of pixels, except for FZ. */
  lemma CorrectedPayloadFillsGrid(ed: Edition, h: RadolanHeader)
    ensures var c := Header.CorrectSizes(ed, h);
      && (!(ed == Classes && c.scanType == FZ) ==> c.payloadSize == CellCount(ed, c.scanType) * Tables.BytesPerPixel(c.scanType))
      && (Tables.IsRvp6(c.scanType) ==> c.payloadSize == CellCount(ed, c.scanType))
  {
    if !(ed == Classes && h.scanType == FZ) {
      PayloadFillsGrid(ed, h.scanType, h.payloadSize);
    }
  }

  /** The parsed header's payload is one grid of pixels, except for FZ. */
  lemma ParsedPayloadFillsGrid(ed: Edition, s: seq<byte>, h0: RadolanHeader)
    ensures var h := Parse(ed, s, h0).header;
      && (!(ed == Classes && h.scanType == FZ) ==> h.payloadSize == CellCount(ed, h.scanType) * Tables.BytesPerPixel(h.scanType))
      && (Tables.IsRvp6(h.scanType) ==> h.payloadSize == CellCount(ed, h.scanType))
  {
    var (h1, pos) := Header.ReadPrefix(ed, s, h0);
    var st := Header.TagsUpTo(ed, Header.TagWindow(s, pos), 10, Header.TagState(h1, None));
    assert Parse(ed, s, h0).header == Header.CorrectSizes(ed, st.header);
    CorrectedPayloadFillsGrid(ed, st.header);
  }

  /** RDReadScan. A null scan makes the reader allocate one of its own, which it never hands
      back. */
  method ReadScan(ed: Edition, filename: seq<byte>, file: Option<seq<byte>>, scan: Scan?,
                  omitOutside: bool, littleEndianHost: bool, alloc: Allocation)
    returns (status: int)
    requires |filename| < 1024
    modifies scan
    ensures status == StatusCode(ed, Outcome(ed, file, scan == null, alloc, if scan == null then ZERO_HEADER else old(scan.header)))
    ensures scan != null && file.None? ==> unchanged(scan)
    ensures scan != null && file.Some? ==> scan.Loaded(ed, filename, file.value, old(scan.header), old(scan.radarStations))
    ensures scan != null && file.Some? && !alloc.dataOk ==>
              scan.data == null && scan.minValue == old(scan.minValue) && scan.maxValue == old(scan.maxValue)
    ensures scan != null && file.Some? && alloc.dataOk ==>
              && scan.data != null && fresh(scan.data)
              && scan.Decoded(ed, PayloadRead(file.value, Parse(ed, file.value, old(scan.header))),
                              Outcome(ed, file, false, alloc, old(scan.header)).None?, omitOutside, littleEndianHost)
  {
    if file.None? {
      return StatusCode(ed, Some(CannotOpen));
    }
    var s := file.value;
    var target: Scan;
    if scan == null {
      if !alloc.scanOk {
        return StatusCode(ed, Some(OutOfMemory));
      }
      target := new Scan.Zeroed();
    } else {
      target := scan;
    }
    var r := Header.ReadRadolanHeader(ed, s, target.header, None);
    ParsedPayloadFillsGrid(ed, s, target.header);
    var failure := target.Fill(ed, filename, s, r, omitOutside, littleEndianHost, alloc.dataOk, alloc.bufferOk);
    return StatusCode(ed, failure);
  }

  /** RDAllocateScan: malloc'd, so every field but the station list and the bounds holds
      whatever the heap held; staleData stands for the data address found there. */
  method AllocateScan(ok: bool, staleData: array?<real>) returns (scan: Scan?)
    ensures !ok ==> scan == null
    ensures ok ==>
              && scan != null && fresh(scan) && scan.radarStations == null
              && scan.minValue == 4095.0 && scan.maxValue == 0.0 && scan.data == staleData
  {
    if !ok {
      return null;
    }
    scan := new Scan.Zeroed();
    scan.data := staleData;
    scan.radarStations := null;
    scan.minValue := 4095.0;
    scan.maxValue := 0.0;
  }

  /** RDAllocateScan as evidently intended: the data field starts out null. */
  method AllocateScanCorrected(ok: bool) returns (scan: Scan?)
    ensures !ok ==> scan == null
    ensures ok ==>
              && scan != null && fresh(scan) && scan.radarStations == null && scan.data == null
              && scan.minValue == 4095.0 && scan.maxValue == 0.0
  {
    scan := AllocateScan(ok, null);
  }

  /** The blocks RDFreeScan hands to free: the station list, the data grid and the record. */
  function Released(scan: Scan?): (objs: set<object>)
    reads scan
    ensures scan == null <==> objs == {}
    ensures scan != null ==>
              && scan in objs
              && (scan.data != null ==> scan.data in objs)
              && (scan.radarStations != null ==> scan.radarStations in objs)
              && (forall o :: o in objs ==> o == scan || o == scan.data || o == scan.radarStations)
  {
    if scan == null then {}
    else
      var stations: set<object> := if scan.radarStations == null then {} else {scan.radarStations};
      var grid: set<object> := if scan.data == null then {} else {scan.data};
      {scan} + stations + grid
  }

  /** RDFreeScan: the blocks it frees. */
  method FreeScan(scan: Scan?) returns (released: set<object>)
    ensures released == Released(scan)
  {
    released := {};
    if scan != null {
      if scan.radarStations != null {
        released := released + {scan.radarStations};
      }
      if scan.data != null {
        released := released + {scan.data};
      }
      released := released + {scan};
    }
  }

  /** Freeing a freshly allocated scan frees the stale data block the record started out
      with, a block the scan never owned; with the corrected allocation only the record is
      freed. */
  method FreeAfterAllocate(staleData: array<real>) returns (asWritten: set<object>, corrected: set<object>)
    ensures staleData in asWritten
    ensures forall o :: o in corrected ==> fresh(o)
  {
    var scan := AllocateScan(true, staleData);
    asWritten := FreeScan(scan);
    var fixedScan := AllocateScanCorrected(true);
    corrected := FreeScan(fixedScan);
  }

  /** The grid RDCloneScan copies must lie within the original's data array. */
  predicate CloneableGrid(original: Scan)
    reads original
  {
    original.data != null && original.dimLon >= 0 && original.dimLat >= 0 &&
    original.dimLon * original.dimLat <= original.data.Length
  }

  /** RDCloneScan: a copy of the record that shares the station list and owns a fresh copy of
      the grid; null when the original is null or an allocation fails. When the grid
      allocation fails the half-made copy is freed, and with it the original's station list.
      released lists the blocks freed. */
  method CloneScan(original: Scan?, cloneOk: bool, dataOk: bool) returns (clone: Scan?, released: set<object>)
    requires original != null ==> CloneableGrid(original)
    ensures original == null || !cloneOk ==> clone == null && released == {}
    ensures original != null && cloneOk && !dataOk ==>
              && clone == null
              && (original.radarStations != null ==> original.radarStations in released)
              && (forall o :: o in released ==> o == original.radarStations || fresh(o))
    ensures original != null && cloneOk && dataOk ==>
              && released == {}
              && clone != null && fresh(clone) && clone.data != null && fresh(clone.data)
              && clone.data[..] == original.data[..original.dimLon * original.dimLat]
              && clone.radarStations == original.radarStations
              && clone.filename == original.filename && clone.header == original.header
              && clone.dimLon == original.dimLon && clone.dimLat == original.dimLat
              && clone.minValue == original.minValue && clone.maxValue == original.maxValue
  {
    released := {};
    if original == null {
      return null, {};
    }
    if !cloneOk {
      return null, {};
    }
    var copy := new Scan.Zeroed();
    copy.filename, copy.header, copy.radarStations := original.filename, original.header, original.radarStations;
    copy.dimLon, copy.dimLat := original.dimLon, original.dimLat;
    copy.minValue, copy.maxValue := original.minValue, original.maxValue;
    copy.data := null;
    if !dataOk {
      released := FreeScan(copy);
      return null, released;
    }
    var n := original.dimLon * original.dimLat;
    var source := original.data;
    copy.data := new real[n](k requires 0 <= k < n reads source => source[k]);
    return copy, {};
  }

  /** RDCloneScan as evidently intended: a failed grid allocation frees only the half-made
      record and leaves the original's station list alone. */
  method CloneScanCorrected(original: Scan?, cloneOk: bool, dataOk: bool) returns (clone: Scan?, released: set<object>)
    requires original != null ==> CloneableGrid(original)
    ensures forall o :: o in released ==> fresh(o)
    ensures original == null || !cloneOk || !dataOk ==> clone == null
    ensures original != null && cloneOk && dataOk ==>
              && released == {}
              && clone != null && fresh(clone) && clone.data != null && fresh(clone.data)
              && clone.data[..] == original.data[..original.dimLon * original.dimLat]
              && clone.radarStations == original.radarStations
  {
    if original != null && cloneOk && !dataOk {
      var copy := new Scan.Zeroed();
      released := FreeScan(copy);
      return null, released;
    }
    clone, released := CloneScan(original, cloneOk, dataOk);
  }
}
