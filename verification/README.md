# RADOLAN composite reader — a Dafny model

This project models the core of the meteo-ubonn `radolan` library. The library reads the
gzip-compressed RADOLAN composite products of the Deutscher Wetterdienst, as described in
chapter 1.1 of the RADOLAN format description, version 2.1. It also maps grid cells to and
from the polar stereographic plane.

The model covers four parts:

- **Header parser** (`HeaderParser`, helped by `CStrings`).
  - `RDReadRadolanHeader` reads the fixed ASCII prefix: product code, day, hour, minute,
    radar location, month and year.
  - It then searches a 250-byte window for the ten tags BY, VS, SW, PR, INT, GP, VV, MF, QN
    and MS, in that order, and parses each tag's fixed-width value with
    `strncpy`/`strncmp`/`atoi`.
  - It corrects the declared byte count into a header size and a payload size, and seeks
    to the payload.
  - The stream is a byte sequence. The tag loop is a `method` proved equal to a fold of the
    one-tag step `ApplyTag`, with one lemma per header field.
- **Payload decoder and scan life cycle** (`PayloadDecoder`, `RadolanScan`).
  - `RDReadScan` has two decoding paths. The one-byte RVP6 path decodes each byte as
    −32.5 + b/2, with the sentinels 249 and 250. The two-byte path splits each 16-bit word
    into a 4-bit flag nibble and a 12-bit magnitude, and decodes it with a five-way branch
    priority.
  - Both paths fill the scan's data array in place and track `min_value`/`max_value`.
  - `RDAllocateScan`, `RDFreeScan` and `RDCloneScan` are methods over the class `Scan`. Its
    station list and data grid are arrays, so aliasing between a scan and its clone is
    visible.
- **Product tables** (`ScanTypeTables`). These cover:
  - minimum, maximum, missing and clutter values, and the "clean measurement" predicates;
  - the RVP6 byte conversion;
  - bytes per pixel, units and the mm/h conversion;
  - product names in both directions;
  - `RDGridSize` (its two output arguments become out-parameters that start from the caller's values);
  - `convertToLowercase` (an in-place array loop).
- **Coordinate system** (`Coordinates`). This covers:
  - the point records and `RDEquals`;
  - the per-product grid layout (`updateGridInfo`) and the quadrant classification;
  - the grid → cartesian map and its inverse `gridPoint`, with its inside check;
  - the cell polygon.

  `RDCoordinateSystem` is a class whose fields `setScanType`/`updateGridInfo` rewrite.

The repository holds two copies of the reader and the tables: `src/classes/` and the older
`src/`. Wherever they differ, a member takes an `Edition` parameter (`Classes` or `Legacy`).
The product enumeration includes FZ and the radar formats include R150km, both of which
only the classes copy declares (`Declared`).

## Model

| member | source | states |
|---|---|---|
| CStrings.StrLen | src/classes/read.c:107-117 | strlen: every byte before the result is non-NUL, and the byte at the result is NUL (or the end of the buffer) |
| CStrings.FindIsFirst | src/classes/read.c:117 | strstr finds the first occurrence of a tag, and reports none only when the tag does not occur |
| CStrings.StrncpyOfNulFree | src/classes/read.c:128 | strncpy of n NUL-free bytes copies them unchanged |
| CStrings.StrnEqWithoutTerminator | src/classes/read.c:152-160 | strncmp over exactly the literal's length is equality of the slice with the literal |
| CStrings.StrnEqWithTerminator | src/classes/read.c:186-197 | strncmp over one byte more than the literal also demands a NUL right after it |
| CStrings.AtoiOfDigits | src/classes/read.c:41 | atoi of a field of decimal digits is its decimal value |
| ScanTypeTables.RVP6ByteRoundTrip | src/classes/radolan_utils.cpp:103-109 | byte → dBZ → byte is the identity on all 256 bytes, in both copies |
| ScanTypeTables.RVP6ValueRoundTrip | src/classes/radolan_utils.cpp:103-105 | dBZ → byte → dBZ rounds down to the half-dBZ step at or below the value |
| ScanTypeTables.Rvp6MarkersAreSentinelBytes | src/classes/radolan_utils.cpp:37-81 | for RX/EX the clutter value is byte 249 decoded, missing is byte 250, minimum is byte 0, and maximum is byte 250 (classes) or byte 255 (legacy, 95.0) |
| ScanTypeTables.MinBelowMax | src/classes/radolan_utils.cpp:37-58 | every product has minimum < maximum; the minimum is −32.5 for RX/EX, and the range is (0, 4095) for every other product |
| ScanTypeTables.CleanAndNotMinIsCleanWithoutMin | src/classes/radolan_utils.cpp:83-97 | RDIsCleanMeasurementAndNotMin implies RDIsCleanMeasurement, and the two differ exactly at the minimum |
| ScanTypeTables.BytesPerPixel | src/classes/radolan_utils.cpp:148-157 | one byte per pixel exactly for RX and EX, two otherwise |
| ScanTypeTables.MMPerHourFollowsUnits | src/classes/radolan_utils.cpp:159-244 | the mm/h conversion matches each product's unit string: ×12/100 for 0.01 mm per 5 min, ÷10 for tenths of a mm per hour, per 6 h and per 12 h |
| ScanTypeTables.MMPerHourNegInfinity | src/classes/radolan_utils.cpp:159-244 | the conversion yields −∞ exactly for the reflectivities RX and EX |
| ScanTypeTables.MMPerHourUnitMismatches | src/classes/radolan_utils.cpp:204-244 | SF is labelled in tenths of a mm but returned unscaled; FZ is labelled dBZ but returned as is |
| ScanTypeTables.MMPerHourCorrected | src/classes/radolan_utils.cpp:204-244 | the corrected conversion scales SF by 1/10 and agrees with the original for every other product |
| ScanTypeTables.ScanTypeStringRoundTrip | src/classes/radolan_utils.cpp:246-405 | name → product → name: every product the edition declares, except UNKNOWN and RE, is recovered from its name |
| ScanTypeTables.ScanTypeStringExceptions | src/radolan_utils.cpp:191-312 | RE and UNKNOWN are named "UNKNOWN"; "RE" reads as RQ in the classes copy and as UNKNOWN in the legacy copy, and "FZ" likewise as FZ or UNKNOWN |
| ScanTypeTables.ScanTypeNameRoundTrip | src/classes/radolan_utils.cpp:246-405 | name → product → name: every recognised string except "RE" is the name of the product it reads as |
| ScanTypeTables.GridSize | src/classes/radolan_utils.cpp:407-461 | UNKNOWN gives SIZE_MAX × SIZE_MAX, EX/EZ/EH/EB/EW give 1500 × 1400 and the rest 900 × 900. FZ falls through to SIZE_MAX (classes copy). RE (and FZ) leave the outputs untouched in the legacy copy (src/radolan_utils.cpp:314-373) |
| ScanTypeTables.GridSizeCorrected | src/classes/radolan_utils.cpp:453-459 | FZ is 450 × 450, in the classes copy no known product gets SIZE_MAX, and every product but FZ keeps the sizes of GridSize |
| ScanTypeTables.LowercasedCString | src/classes/radolan_utils.cpp:491-497 | the bytes before the terminator are lower-cased and the rest are kept |
| ScanTypeTables.ConvertToLowercase | src/classes/radolan_utils.cpp:491-497 | in place: the array equals the old one with the bytes before its first NUL lower-cased |
| HeaderParser.Delivered | src/classes/read.c:38 | gzread delivers min(n, bytes left) bytes |
| HeaderParser.ShortFieldOfDigits | src/classes/read.c:48-58 | readUnsignedShortInt stores a field of len digits as its decimal value (mod 2^16) and advances by len |
| HeaderParser.RadarLocationNeverStored | src/classes/read.c:36-46 | readUnsignedInt(5) changes the stored value only when the stream ends one byte after the field start |
| HeaderParser.RadarLocationLost | src/classes/read.c:95-100 | on a well-formed prefix the five-digit radar location is consumed but not stored; the corrected reader stores its value |
| HeaderParser.CorrectedFieldOfDigits | src/classes/read.c:36-46 | the corrected readUnsignedInt stores a field of digits as its decimal value (mod 2^32) |
| HeaderParser.TagWindow | src/classes/read.c:107-109 | the tag window is 250 bytes whose last is NUL, so its string holds at most 249 bytes |
| HeaderParser.TagWindowAfterPrefix | src/classes/read.c:107-109 | after a 17-byte prefix the window is the next 249 bytes and a NUL |
| HeaderParser.ValueOffset | src/classes/read.c:117-124 | a tag's value starts right after an occurrence of the tag within the window's string |
| HeaderParser.TagFoundAtFirstOccurrence | src/classes/read.c:117-124 | the occurrence used is the first one, and a tag is absent only when it does not occur |
| HeaderParser.NumberOfDigits | src/classes/read.c:128-130 | a fixed-width field of digits reads as its decimal value |
| HeaderParser.ApplyTag | src/classes/read.c:115-209 | one loop iteration writes only its own tag's field (MF writes resolution and binaryFormat), and GP/MF store exactly the copied bytes |
| HeaderParser.TagsUpToTen | src/classes/read.c:115 | the ten loop iterations are the ten tag steps in the order BY … MS |
| HeaderParser.TagLoopKeepsPrefixFields | src/classes/read.c:115-209 | the tag loop leaves every prefix field unchanged; the station list is MS's list or is kept |
| HeaderParser.TagLoopPayloadSize | src/classes/read.c:127-132 | BY sets the payload size to its 7-digit value (mod 2^64); an absent BY keeps it |
| HeaderParser.TagLoopRadarFormat | src/classes/read.c:133-145 | VS sets the radar format per its code; any other code, or no VS, keeps it |
| HeaderParser.RadarFormatCodes | src/read.c:137-148 | codes 1 and 2 are recognised in both copies, code 3 (R150km) only in the classes copy |
| HeaderParser.TagLoopSoftwareVersion | src/classes/read.c:146-150 | SW sets the version to the 8 copied bytes and a NUL |
| HeaderParser.TagLoopPrecision | src/classes/read.c:151-162 | PR sets the precision from the exponent, or keeps it |
| HeaderParser.PrecisionFromExponent | src/classes/read.c:151-162 | precision is 1 exactly for " E-00"/" E+00", 0.1 for " E-01" and 0.01 for " E-02" |
| HeaderParser.TagLoopIntervalDuration | src/classes/read.c:163-168 | INT sets the interval to its 4-digit value (mod 2^16) |
| HeaderParser.TagLoopPredictionMinutes | src/classes/read.c:174-179 | VV sets the prediction minutes to its 3-digit value |
| HeaderParser.TagLoopQuantification | src/classes/read.c:185-199 | QN sets the quantification from its comparison, or keeps it |
| HeaderParser.FormatFieldsBeforeMf | src/classes/read.c:169-173 | before MF, binaryFormat is untouched and GP has set resolution to its 9 bytes and a NUL |
| HeaderParser.LastTagsKeepFormatFields | src/classes/read.c:185-207 | QN and MS leave resolution and binaryFormat alone |
| HeaderParser.MfOverwritesResolution | src/classes/read.c:169-184 | with GP and MF present, resolution ends as MF's 8 bytes, GP's 9th byte and a NUL, and binaryFormat only gains a NUL at index 8 |
| HeaderParser.ApplyMfCorrected | src/classes/read.c:180-184 | the corrected MF step copies into binaryFormat and never touches resolution |
| HeaderParser.MfCorrectedKeepsResolution | src/classes/read.c:169-184 | with the corrected MF step, resolution keeps GP's value |
| HeaderParser.QnLiterals | src/classes/read.c:186-195 | the four QN literals have three bytes and no NUL |
| HeaderParser.QuantificationNeedsTerminator | src/classes/read.c:185-197 | as written, QN is recognised only when a NUL follows its three digits, and then it agrees with the corrected reading |
| HeaderParser.QuantificationIgnoredBeforeNextTag | src/classes/read.c:185-197 | "003" followed by the MS tag is ignored as written but read as RAVOQ by the corrected comparison |
| HeaderParser.QuantificationAtCorrected | src/classes/read.c:185-197 | corrected: each quantification is chosen exactly when the three bytes equal its literal |
| HeaderParser.StationsAt | src/classes/read.c:200-207 | MS yields a station list exactly when its count is non-negative, and the list has that many bytes |
| HeaderParser.RealPayloadSize | src/classes/read.c:211-227 | 1500·1400·bpp for TZ/TH/EX/EZ/EW, the declared size for FZ (classes), 900·900·bpp otherwise (src/read.c:230-242 has no FZ case) |
| HeaderParser.CorrectSizes | src/classes/read.c:211-229 | header size + payload size equals the declared size mod 2^64, the payload is the real payload size, and no other field changes |
| HeaderParser.SizesAddUpToDeclared | src/classes/read.c:228-232 | FZ gets header size 0; when the declared size covers the payload the header size is the difference and the seek lands there; otherwise the size wraps and the seek fails to offset 0 |
| HeaderParser.ProductCodeOfName | src/classes/read.c:91-93 | the product code is the lookup of the file's first two bytes |
| HeaderParser.DateFieldsOfDigits | src/classes/read.c:95-100 | on 15 digits, day, hour, minute, month and year are their 2-digit values, the location is skipped, and 15 bytes are consumed |
| HeaderParser.PrefixOfWellFormedHeader | src/classes/read.c:91-100 | a well-formed 17-byte prefix sets product, day, hour, minute, month and year, and the tag window starts at byte 17 |
| HeaderParser.ReadRadolanHeader | src/classes/read.c:84-233 | the loop over the ten tags, with the prefix, size correction and seek, computes HeaderOf (the fold) |
| PayloadDecoder.ByteSwapInvolution | src/classes/read.c:393-396 | the byte swap exchanges the two bytes, so applying it twice is the identity |
| PayloadDecoder.DecodedWordIsFileWord | src/classes/read.c:386-396 | the classes copy recovers the file's little-endian word on little- and big-endian hosts |
| PayloadDecoder.WordsAreFileWords | src/classes/read.c:370-396 | cell k of the classes decoder holds the file's word k |
| PayloadDecoder.LegacyBigEndianSwapsBytes | src/read.c:430-438 | the legacy swap is shadowed: on a big-endian host every word keeps its bytes exchanged, which is right only for palindromic words |
| PayloadDecoder.WordSplit | src/classes/read.c:398-405 | flag = top 4 bits, magnitude = word & 0x0FFF, and the two split the word without overlap |
| PayloadDecoder.MagnitudeBound | src/classes/read.c:404-405 | the magnitude is below 4096 |
| PayloadDecoder.BranchPriority | src/classes/read.c:410-463 | exactly one branch per cell: clutter iff bit 8, error iff bit 2 without 8, secondary iff bit 1 without bits 8 and 2, negative iff the flag is exactly 4, plain iff 0 |
| PayloadDecoder.CellValue | src/classes/read.c:408-455 | clutter cells are the minimum (omitOutside) or −2500 (the maximum arm is dead); negative cells are −precision·magnitude, all others precision·magnitude |
| PayloadDecoder.CellSign | src/classes/read.c:445-455 | with a non-negative precision, plain cells are ≥ 0 and negative cells ≤ 0 |
| PayloadDecoder.Rvp6Decoding | src/classes/read.c:330-348 | an RVP6 byte is the table's byte-to-dBZ value unless it is a sentinel under omitOutside (then −32.5), lies in [−32.5, 95], and kept sentinels are the clutter value and 92.5 |
| PayloadDecoder.RangeAppend | src/classes/read.c:350-352 | the running range after one more value is one more step |
| PayloadDecoder.RangeBounds | src/classes/read.c:350-352 | the running min/max only widens, encloses every value fed to it, and each bound is the start or an attained value |
| PayloadDecoder.Rvp6RangeClasses | src/classes/read.c:281-352 | one-byte path: min_value stays −32.5, max_value is at least 92.5, bounds every value, and is 92.5 or attained |
| PayloadDecoder.Rvp6RangeLegacy | src/read.c:299-377 | legacy one-byte path: with maximum 95.0 neither bound ever changes |
| PayloadDecoder.RangeUpToIsRange | src/classes/read.c:349-351 | the minimum and maximum after n loop iterations are the range of the first n values |
| PayloadDecoder.Rvp6LoopRange | src/classes/read.c:330-352 | after the whole RVP6 payload the loop's minimum and maximum are the range of all decoded bytes |
| PayloadDecoder.TwoByteRangeUpToIsRange | src/classes/read.c:448-460 | the two-byte loop's minimum and maximum after n words are the range of the negative and plain cells among them |
| PayloadDecoder.RangeValuesExtend | src/classes/read.c:445-463 | one more word adds its value to the range inputs exactly when it is a negative or plain cell |
| PayloadDecoder.RangeValuesAreUpdatingCells | src/classes/read.c:445-463 | the values that feed min/max are exactly those of the negative and plain cells |
| PayloadDecoder.TwoByteRange | src/classes/read.c:356-463 | two-byte path: min ≤ 0, max ≥ 4095, every negative or plain cell lies within, and max is 4095 or attained |
| Coordinates.MakeGeographicalPointRad | include/radolan/coordinatesystem.h:22-28 | the constructor takes the longitude first and stores both coordinates in the matching fields |
| Coordinates.MakeGeographicalPoint | include/radolan/coordinatesystem.h:45-51 | the same for degrees |
| Coordinates.EqualsIsPointEquality | include/radolan/coordinatesystem.h:30-102 | each RDEquals overload holds exactly when the two points are equal |
| Coordinates.CellIndexInBounds | include/radolan/coordinatesystem.h:106-109 | RDValueAt of a point inside the grid indexes inside the dimLon·dimLat array |
| Coordinates.CellIndexWrapsRows | include/radolan/coordinatesystem.h:106-109 | the converse fails: column dimLon of row 0 reads cell (0, 1) |
| Coordinates.UndefinedIsOutside | include/radolan/coordinatesystem.h:104 | RDGridPointUndefined (−1, −1) is outside every grid |
| Coordinates.DegreeConversionsAreInverse | src/coordinatesystem.cpp:70-78 | toRad and toDeg are inverse over the reals, and 180° is π |
| Coordinates.GridInfoOf | src/coordinatesystem.cpp:43-68 | EX/TH/TZ: 1400 × 1500 with offset (600, 800); else 900 × 900 with offset (450, 450); origin 51° N 9° E |
| Coordinates.QuadrantCases | src/coordinatesystem.cpp:101-126 | each quadrant holds exactly when the column and row compare to the offset as ≤ or >, so the four are exhaustive and disjoint |
| Coordinates.CorrectionOnlyOnOffset | src/coordinatesystem.cpp:103-105 | the corrected quadrant agrees with the original off the offset column and row |
| Coordinates.CartesianDistances | src/coordinatesystem.cpp:128-160 | a cell's cartesian point lies an integral distance from the origin: the cell's offset distance, one more on the right/upper side |
| Coordinates.RoundTripOffOffset | src/coordinatesystem.cpp:258-313 | gridPoint(cartesianCoordinate(p)) is p, with inside iff p is in the grid, for every p off the offset column and row |
| Coordinates.RoundTripOnOffset | src/coordinatesystem.cpp:101-126 | on the offset column (row) the round trip lands one column left (one row below) |
| Coordinates.RoundTripCorrected | src/coordinatesystem.cpp:258-313 | with the corrected quadrant, every grid point survives the round trip, through gridPoint as written and through the corrected one |
| Coordinates.PolygonCorners | src/coordinatesystem.cpp:204-239 | each quadrant's polygon is a unit square with the cell's cartesian point as one corner: extending right and up (lower left), right and down (upper left), left and down (upper and lower right) |
| Coordinates.PolygonCornersCorrected | src/coordinatesystem.cpp:232-238 | corrected: the lower-right polygon is a unit square extending left and up from the cell's point (its lower-right corner); the other quadrants are unchanged |
| Coordinates.CorrectedPolygonIsCell | src/coordinatesystem.cpp:192-242 | corrected: the polygon of every cell (ix, iy) is the square [ix−ox, ix−ox+1] × [iy−oy, iy−oy+1] km from the origin, in every quadrant |
| Coordinates.OffsetRowNeighboursStack | src/coordinatesystem.cpp:192-242 | corrected: the polygons of (ix, oy) and (ix, oy−1) have the same x-range and the upper one starts where the lower one ends |
| Coordinates.PolygonInteriorMapsToCell | src/coordinatesystem.cpp:258-313 | corrected: every point strictly inside a cell's polygon maps back to that cell through the corrected gridPoint, so no two polygons overlap |
| Coordinates.CorrectedPolygonsCover | src/coordinatesystem.cpp:258-313 | corrected: every point lies in the closed polygon of the cell the corrected gridPoint assigns it, so the polygons cover the plane |
| Coordinates.CorrectedColumnIgnoresRow | src/coordinatesystem.cpp:283-301 | corrected: two points with the same x get the same column above and below the origin |
| Coordinates.LowerRightColumnShifted | src/coordinatesystem.cpp:283-301 | as written, the points 0.5 km left and right of the origin, both 0.5 km below it, land in the same column ox−1, while 0.5 km right and above lands in column ox; corrected, the lower-right one lands in column ox |
| Coordinates.LowerRightPolygonShifted | src/coordinatesystem.cpp:232-238 | as written, the centre of the polygon of lower-right cell (ox+1, oy−1) maps to (ox+1, oy−2) through the corrected gridPoint (one row low), and to (ox, oy−2) through gridPoint as written |
| Coordinates.TestFixtures | src/radolan_test.cpp:23-92 | RX: (0,0) and (899,899) round trip inside; the origin maps to (449,449); (449,449)'s cartesian point is one cell below-left of the origin under either quadrant, and (450,450)'s is the origin |
| Coordinates.NoCellAtOrigin | src/coordinatesystem.cpp:128-160 | with the corrected quadrant, no cell's cartesian point is the origin |
| Coordinates.AnchorCellTouchesOrigin | src/radolan_test.cpp:41-55 | the anchor cell (ox−1, oy−1) is the cell the origin maps to, and the origin is the upper-right corner of its corrected polygon |
| Coordinates.CoordinateSystem.constructor | src/coordinatesystem.cpp:25-29 | the new system has the given type and its grid layout, and the cartesian origin is the projected geographical origin |
| Coordinates.CoordinateSystem.SetScanType | src/coordinatesystem.cpp:35-40 | afterwards the layout is that of the new type; the same type changes nothing |
| Coordinates.CoordinateSystem.UpdateGridInfo | src/coordinatesystem.cpp:43-68 | the layout fields become the type's layout and the cartesian origin is recomputed |
| Coordinates.CoordinateSystem.CartesianOfGrid | src/coordinatesystem.cpp:128-160 | on a valid system, gridPoint inverts it off the offset column and row |
| Coordinates.CoordinateSystem.GridPointAt | src/coordinatesystem.cpp:258-313 | isInside holds exactly when 0 ≤ ix < horizontal and 0 ≤ iy < vertical |
| Coordinates.CoordinateSystem.Polygon | src/coordinatesystem.cpp:192-242 | the polygon has four corners |
| Coordinates.CoordinateSystem.GeographicalPolygon | src/coordinatesystem.cpp:192-242 | count 4 and a fresh array holding the polygon, or null and count 0 when the allocation fails |
| RadolanScan.PayloadFillsGrid | src/classes/read.c:211-270 | apart from FZ, the corrected payload is one grid of pixels, so the RVP6 loop over the payload fills exactly the data array |
| RadolanScan.CorrectedPayloadFillsGrid | src/classes/read.c:211-229 | after the size correction of any header the payload is one grid of pixels (FZ in the classes tree aside), one byte per cell for RX and EX |
| RadolanScan.ParsedPayloadFillsGrid | src/classes/read.c:251-279 | the same for the payload size of every parsed header |
| RadolanScan.GridTablesDisagree | src/classes/read.c:254-270 | the reader's grid disagrees with RDGridSize for TZ, TH, EH and EB, and with the coordinate system for EZ and EW |
| RadolanScan.StatusCodes | src/read.c:251-522 | the legacy codes are the documented ones except that a short two-byte read gives −1; classes returns 1/0, so the library test's ≥ 0 check always passes there |
| RadolanScan.PayloadRead | src/classes/read.c:314-324 | gzread delivers at most payloadSize bytes |
| RadolanScan.Scan.Zeroed | src/read.c:258-265 | a calloc'd scan: every field zero or null |
| RadolanScan.Scan.StoreHeader | src/classes/read.c:248-270 | stores the file name, the header and a fresh station list (MS) and sets the grid dimensions of the product |
| RadolanScan.DecodeRvp6Payload | src/classes/read.c:330-353 | the grid becomes the decoded bytes, and the returned minimum and maximum are the running range over them |
| RadolanScan.DecodeTwoBytePayload | src/classes/read.c:383-464 | the grid becomes the decoded words, and the returned minimum and maximum are the running range over the negative and plain cells |
| RadolanScan.Scan.Fill | src/classes/read.c:272-465 | after the header: out of memory for the grid leaves no grid; otherwise a zeroed grid with the product's limits, and the decoded payload when the buffer exists and the read is complete |
| RadolanScan.ReadScan | src/classes/read.c:235-474 | the status code of the first failing step, with the scan's state after each outcome stated in terms of the parsed header and the decoded payload |
| RadolanScan.AllocateScan | src/classes/read.c:476-486 | a fresh record with no station list, min 4095, max 0, and a data field left as the heap had it |
| RadolanScan.AllocateScanCorrected | src/classes/read.c:476-486 | the same with a null data field |
| RadolanScan.Released | src/classes/read.c:489-501 | RDFreeScan frees the record, its station list and its grid when non-null, and nothing else |
| RadolanScan.FreeScan | src/classes/read.c:489-501 | the blocks freed are those of Released |
| RadolanScan.FreeAfterAllocate | src/read.c:524-549 | freeing a freshly allocated scan frees a stale data block it never owned; with the corrected allocation only fresh blocks are freed |
| RadolanScan.CloneScan | src/classes/read.c:503-522 | a fresh record with a fresh copy of the dimLon·dimLat grid sharing the original's station list; when the grid allocation fails, the original's station list is freed |
| RadolanScan.CloneScanCorrected | src/classes/read.c:503-522 | corrected: a failed clone frees only fresh blocks; a successful one is as above |

## Left out

- zlib stream I/O (`gzopen`, `gzread`, `gzseek`, `gzrewind`, `gzclose`). The file is its
  decompressed bytes, or `None` when it cannot be opened. A read delivers what the sequence
  has, and bytes beyond its end read as NUL (in C they are uninitialised stack bytes).
- gzread's `-1` error return, and the `int` result compared with a `size_t`, are not
  modelled. A read error and a short read are the same `ShortRead` outcome.
- gzseek's `z_off_t` is modelled as a 64-bit offset. A negative offset (a wrapped header
  size) makes the seek fail and leaves the stream at offset 0.
- The gzclose calls, and the file handle leaked on every early return. The null-scan
  record that `RDReadScan` allocates and never hands back is not tracked either.
- Allocation failure is an input (`Allocation`, `allocOk`, `cloneOk`, `dataOk`). The
  station-list `calloc` in the MS branch is assumed to succeed. A negative MS count (which
  `calloc` rejects and `strncpy` then writes through NULL) yields no station list.
- The MS station list has no NUL terminator; it is a byte array of exactly the counted
  length. The previous station list it replaces is leaked and is not tracked.
- Classes FZ products declare their own payload size, and the reader copies that many bytes
  into a 450 × 450 two-byte buffer. The model truncates the payload to the buffer instead of
  modelling the overflow.
- The decode loops keep the running minimum and maximum in locals and store them in the
  record once after the loop, where the C code updates `min_value` and `max_value` in place.
  Nothing reads those fields inside the loop, so the stored values are the same.
- Floating point. Values, precision, coordinates and π are reals, and `0.1f` is exactly
  0.1. The exact round trips assume `(o + d) − o == d`.
- NaN. `RDGeographicalPointUndefined` and `RDCartesianPointUndefined` are not modelled,
  and `RDEquals` on NaN points is therefore not captured.
- The trigonometric projection (`cartesianCoordinate(RDGeographicalPointRad)` and
  `geographicalCoordinateRad`, with `sin`, `cos`, `atan`, `asin`) is given as the two
  function-valued fields `forward` and `inverse` of `CoordinateSystem`. Geographical round
  trips therefore state nothing about the projection itself.
- Coordinates.CoordinateSystem.Polygon: the four corners are stated only by their count;
  their layout is stated on the cartesian side by `PolygonCorners` and the polygon lemmas.
- `RDRainrateFromDezibels` (`powf`), `RDScanTime`, `RDScanTimeInSecondsSinceEpoch`,
  `RDGuessFilename` (clock and libc time functions), `RDPrintHeaderInformation`,
  `RDPrintScan`, and the malformed `fprintf` calls of the legacy reader (src/read.c:421-422)
  are console output or depend on the system clock.
- `readInt` and `readLong` are never called by the reader.
- The `rawMin`/`rawMax` locals of the two-byte loop are never read.
- The exporters (netCDF, shapefile), the observation file (HDF5) and the command-line
  front ends are thin wrappers over libraries that are not part of this model.
- `include/radolan/endianess.h` is a cast-based probe; the host byte order is the
  parameter `littleEndianHost`.
- RadolanScan.ReadScan: when the caller passes a null scan, the contract states only the
  status code. The record the reader allocates for itself is unreachable to the caller.
- RadolanScan.ReadScan: `strcpy` into the 1024-byte file name field overflows for longer
  names; the model requires names shorter than 1024 bytes.

## Findings

| source | as written | input that shows it | evidently intended | confidence | as-written member | corrected member |
|---|---|---|---|---|---|---|
| src/classes/read.c:36-46 | `readUnsignedInt` stores its value only when gzread returns 1, yet it reads `len` = 5 bytes | any well-formed header, e.g. prefix "RX0112500010690912" | store when all 5 bytes arrive, so `radarLocation` is set | high, not executed | HeaderParser.RadarLocationLost | HeaderParser.CorrectedFieldOfDigits |
| src/classes/read.c:180-184 | the MF value is copied into `resolution`, and only `binaryFormat[8]` is written | a header with "GP 900x 900" and "MF 00000000" | copy MF into `binaryFormat` | high, not executed | HeaderParser.MfOverwritesResolution | HeaderParser.MfCorrectedKeepsResolution |
| src/classes/read.c:185-197 | `strncmp(pos, "003", 4)` also compares the byte after the digits | "QN003MS…": the next tag follows the digits | compare the three digits | high, not executed | HeaderParser.QuantificationIgnoredBeforeNextTag | HeaderParser.QuantificationAtCorrected |
| src/classes/radolan_utils.cpp:453-459 | the FZ case has no `break` and falls into the UNKNOWN case | `RDGridSize(RD_FZ, …)` yields SIZE_MAX × SIZE_MAX | 450 × 450 | high, not executed | ScanTypeTables.GridSize | ScanTypeTables.GridSizeCorrected |
| src/classes/radolan_utils.cpp:204-244 | SF, whose unit is tenths of a mm per 24 h, is returned unscaled | `RDMMPerHour(RD_SF, 10.0)` gives 10.0 | 1.0 mm, as for SQ and SH | medium, not executed | ScanTypeTables.MMPerHourUnitMismatches | ScanTypeTables.MMPerHourCorrected |
| src/read.c:433-438 | the swapped word is assigned to a new variable declared inside the `if`, which shadows `bufferValue` | big-endian host, file bytes (1, 0): word 0x0100 decoded instead of 1 | swap into the outer `bufferValue`, as src/classes/read.c:393-396 does | high, not executed | PayloadDecoder.LegacyBigEndianSwapsBytes | PayloadDecoder.DecodedWordIsFileWord |
| src/read.c:409-413 | a short two-byte read returns −1, the out-of-memory code | a truncated two-byte file, e.g. RW with a payload shorter than 1620000 bytes | −3, the documented read error (include/radolan/read.h:31-34) | medium, not executed | RadolanScan.StatusCodes | RadolanScan.DocumentedStatusCode |
| src/coordinatesystem.cpp:103-105 | the offset column and row count as left and lower (`<= 0`), while gridPoint counts dx = 0 as right (`dx<0.0`) | RX grid point (450, 450) maps back to (449, 449) | `< 0`, so every cell survives the round trip | high, not executed | Coordinates.RoundTripOnOffset | Coordinates.RoundTripCorrected |
| src/coordinatesystem.cpp:232-238 | the lower-right polygon extends left and down from the cell's cartesian point, which is the cell's lower-right corner, so it covers the row below the cell | RX cell (451, 449): its polygon's centre maps to (451, 448) through the corrected gridPoint | extend left and up, so the polygons tile the plane | high, not executed | Coordinates.LowerRightPolygonShifted | Coordinates.CorrectedPolygonIsCell |
| src/coordinatesystem.cpp:301 | the lower-right column is `floor(dx) + offset - 1`, where the upper-right one (line 297) is `ceil(dx) + offset - 1` | RX: the points 0.5 km left and right of the origin, 0.5 km below it, both map to column 449, while 0.5 km right and above maps to 450 | `ceil(dx) + offset - 1`, so a column covers the same x-range above and below the origin | high, not executed | Coordinates.LowerRightColumnShifted | Coordinates.PolygonInteriorMapsToCell |
| src/radolan_test.cpp:41-47 | the test expects the geographical coordinate of the anchor cell (449, 449), or (599, 799) for EX/TH/TZ, to be the grid origin 51° N 9° E | RX: cartesianCoordinate(449, 449) is 1 km west and 1 km south of the origin, under the quadrant as written and corrected | the code's convention: a cell's cartesian point is its corner farthest from the origin, the point gridPoint inverts, as the same test's round trips of (0, 0) and (899, 899) check; the origin is the anchor cell's opposite corner, and maps to that cell as lines 50-55 expect | medium, not executed | Coordinates.TestFixtures | Coordinates.AnchorCellTouchesOrigin |
| src/classes/read.c:476-486 | `malloc` leaves `data` holding whatever the heap held, and RDFreeScan frees it | RDAllocateScan() then RDFreeScan(): frees a stale address | set `data` to NULL | high, not executed | RadolanScan.FreeAfterAllocate | RadolanScan.AllocateScanCorrected |
| src/classes/read.c:511-517 | the half-made clone shares the original's station list, and RDFreeScan(clone) frees it | clone of a scan with an MS list when the grid `calloc` fails | free only the clone record | high, not executed | RadolanScan.CloneScan | RadolanScan.CloneScanCorrected |
