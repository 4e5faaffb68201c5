/** The payload decoding of RDReadScan, one grid cell at a time: the 16-bit word of the
    two-byte products (4 flag bits, 12 value bits, little-endian on disk), the single
    RVP6 byte of RX and EX, and the running minimum and maximum the reader keeps. */
module PayloadDecoder {
  import opened RadolanTypes
  import Tables = ScanTypeTables

  type word = bv16

  /** The unsigned short a host with the given byte order reads from two consecutive
      file bytes b0, b1. */
  function HostWord(b0: byte, b1: byte, littleEndianHost: bool): word {
    if littleEndianHost then (b1 as word << 8) | b0 as word
    else (b0 as word << 8) | b1 as word
  }

  /** The word the file stores: b0 is its low byte. */
  function FileWord(b0: byte, b1: byte): word {
    (b1 as word << 8) | b0 as word
  }

  /** Exchange of the two bytes of a word, written as the sum of the two masked shifts. */
  function ByteSwap(w: word): word {
    ((w >> 8) & 0xFF) + ((w << 8) & 0xFF00)
  }

  lemma ByteSwapInvolution(w: word)
    ensures ByteSwap(ByteSwap(w)) == w
    ensures ByteSwap(w) & 0xFF == w >> 8
  {
  }

  /** The word the decoding loop goes on with. The classes tree swaps the bytes on a
      big-endian host. The legacy tree assigns the swapped word to a second variable
      declared inside the if-block, which the rest of the loop never reads, so it decodes
      the raw host word on every host. */
  function DecodedWord(ed: Edition, raw: word, littleEndianHost: bool): word {
    if ed == Classes && !littleEndianHost then ByteSwap(raw) else raw
  }

  /** On either host, the classes tree recovers the word the file stores. */
  lemma DecodedWordIsFileWord(b0: byte, b1: byte, littleEndianHost: bool)
    ensures DecodedWord(Classes, HostWord(b0, b1, littleEndianHost), littleEndianHost) == FileWord(b0, b1)
  {
  }

  /** The legacy tree on a big-endian host decodes the bytes in the wrong order whenever
      they differ; e.g. the file word 0x0001 (bytes 01 00) is read as 0x0100. */
  lemma LegacyBigEndianSwapsBytes(b0: byte, b1: byte)
    ensures DecodedWord(Legacy, HostWord(b0, b1, false), false) == FileWord(b1, b0)
    ensures DecodedWord(Legacy, HostWord(b0, b1, false), false) == FileWord(b0, b1) <==> b0 == b1
    ensures DecodedWord(Legacy, HostWord(1, 0, false), false) == 0x0100
  {
  }

  /** The four high bits of a word: the flag nibble. */
  function Flag(w: word): byte {
    (w >> 12) as byte
  }

  /** The twelve low bits, obtained as the source does by shifting the flags out of a
      16-bit variable and back. */
  function MagnitudeBits(w: word): word {
    ((w << 4) as word) >> 4
  }

  function Magnitude(w: word): nat {
    MagnitudeBits(w) as int
  }

  /** The flags and the magnitude split the word: nothing is lost and nothing overlaps. */
  lemma WordSplit(w: word)
    ensures w >> 12 < 16
    ensures MagnitudeBits(w) == w & 0x0FFF
    ensures w == ((w >> 12) << 12) | MagnitudeBits(w)
    ensures ((w >> 12) << 12) & MagnitudeBits(w) == 0
  {
  }

  lemma MagnitudeBound(w: word)
    ensures Magnitude(w) < 0x1000
  {
    assert MagnitudeBits(w) <= 0x0FFF;
  }

  predicate BitSet(flag: byte, bit: byte) {
    flag & bit == bit
  }

  /** The branch a cell takes, with the flag bits examined in this order. */
  datatype Branch = ClutterBranch | ErrorBranch | SecondaryBranch | NegativeBranch | PlainBranch

  function BranchOf(flag: byte): Branch {
    if BitSet(flag, CLUTTER_BIT) then ClutterBranch
    else if BitSet(flag, ERROR_BIT) then ErrorBranch
    else if BitSet(flag, SECONDARY_VALUE_BIT) then SecondaryBranch
    else if BitSet(flag, NEGATIVE_SIGN_BIT) then NegativeBranch
    else PlainBranch
  }

  /** Each branch is taken exactly when its bit is the highest-priority bit set:
      clutter before error before secondary before negative sign. */
  lemma BranchPriority(flag: byte)
    requires flag < 16
    ensures BranchOf(flag) == ClutterBranch <==> flag >= 8
    ensures BranchOf(flag) == ErrorBranch <==> flag < 8 && flag & 2 != 0
    ensures BranchOf(flag) == SecondaryBranch <==> flag < 8 && flag & 2 == 0 && flag & 1 != 0
    ensures BranchOf(flag) == NegativeBranch <==> flag == 4
    ensures BranchOf(flag) == PlainBranch <==> flag == 0
  {
  }

  /** Only cells of the negative and the plain branches take part in the minimum and maximum. */
  predicate UpdatesRange(b: Branch) {
    b == NegativeBranch || b == PlainBranch
  }

  /** The value written for one word of a two-byte product: rain = precision * magnitude,
      negated under the sign bit; clutter becomes the minimum (omitOutside) or ERROR_VALUE
      unless the magnitude equals CLUTTER_VALUE, in which case the product's maximum. */
  function DecodeCell(ed: Edition, t: ScanType, precision: real, omitOutside: bool, w: word): (v: real)
  {
    var magnitude := Magnitude(w) as real;
    var rain := precision * magnitude;
    match BranchOf(Flag(w))
    case ClutterBranch =>
      if magnitude != CLUTTER_VALUE then (if omitOutside then Tables.MinValue(t) else ERROR_VALUE)
      else Tables.MaxValue(ed, t)
    case ErrorBranch => rain
    case SecondaryBranch => rain
    case NegativeBranch => -rain
    case PlainBranch => rain
  }

  /** A cell decodes to a sentinel exactly when its clutter bit is set, and then never to the
      product's maximum: a 12-bit magnitude cannot equal the negative CLUTTER_VALUE, so the
      arm that writes the maximum is dead. Every other cell is the rain value up to sign. */
  lemma CellValue(ed: Edition, t: ScanType, precision: real, omitOutside: bool, w: word)
    ensures BranchOf(Flag(w)) == ClutterBranch ==>
      DecodeCell(ed, t, precision, omitOutside, w) == (if omitOutside then Tables.MinValue(t) else ERROR_VALUE)
    ensures BranchOf(Flag(w)) == NegativeBranch ==>
      DecodeCell(ed, t, precision, omitOutside, w) == -(precision * Magnitude(w) as real)
    ensures BranchOf(Flag(w)) != ClutterBranch && BranchOf(Flag(w)) != NegativeBranch ==>
      DecodeCell(ed, t, precision, omitOutside, w) == precision * Magnitude(w) as real
  {
    assert Magnitude(w) as real != CLUTTER_VALUE;
  }

  /** A non-negative precision makes every plain cell non-negative and every negative-sign
      cell non-positive. */
  lemma CellSign(ed: Edition, t: ScanType, precision: real, omitOutside: bool, w: word)
    requires precision >= 0.0
    ensures BranchOf(Flag(w)) == PlainBranch ==> DecodeCell(ed, t, precision, omitOutside, w) >= 0.0
    ensures BranchOf(Flag(w)) == NegativeBranch ==> DecodeCell(ed, t, precision, omitOutside, w) <= 0.0
  {
    CellValue(ed, t, precision, omitOutside, w);
  }

  /** The value written for one byte of an RVP6 product (RX, EX): MinValue + byte/2, except
      that the clutter and error bytes become MinValue under omitOutside. */
  function DecodeRvp6(t: ScanType, omitOutside: bool, b: byte): real {
    if (b == RX_CLUTTER_VALUE || b == RX_ERROR_VALUE) && omitOutside then Tables.MinValue(t)
    else Tables.MinValue(t) + (b as int as real) / 2.0
  }

  /** For RX and EX the decoded byte is the table's byte-to-dBZ conversion, and lies in
      [-32.5, 95]; kept, the clutter byte reads as the table's RVP6 clutter value and the
      error byte as the classes tree's maximum. */
  lemma Rvp6Decoding(ed: Edition, t: ScanType, omitOutside: bool, b: byte)
    requires Tables.IsRvp6(t)
    ensures !omitOutside || (b != RX_CLUTTER_VALUE && b != RX_ERROR_VALUE) ==>
      DecodeRvp6(t, omitOutside, b) == Tables.ByteToRVP6Value(b)
    ensures omitOutside && (b == RX_CLUTTER_VALUE || b == RX_ERROR_VALUE) ==> DecodeRvp6(t, omitOutside, b) == DBZ_BASEVALUE
    ensures DBZ_BASEVALUE <= DecodeRvp6(t, omitOutside, b) <= 95.0
    ensures DecodeRvp6(t, false, RX_CLUTTER_VALUE) == Tables.ClutterValue(ed, t)
    ensures DecodeRvp6(t, false, RX_ERROR_VALUE) == Tables.MaxValue(Classes, t) == DBZ_OUTSIDEVALUE
  {
  }

  /** One step of the min/max update: a value above the maximum raises it; otherwise a value
      below the minimum lowers it. */
  function Step(range: (real, real), v: real): (real, real) {
    if v > range.1 then (range.0, v)
    else if v < range.0 then (v, range.1)
    else range
  }

  /** The range after feeding the values in order. */
  function Range(values: seq<real>, range0: (real, real)): (real, real)
    decreases |values|
  {
    if |values| == 0 then range0
    else Step(Range(values[..|values| - 1], range0), values[|values| - 1])
  }

  /** Feeding one more value is one more step. */
  lemma RangeAppend(values: seq<real>, v: real, range0: (real, real))
    ensures Range(values + [v], range0) == Step(Range(values, range0), v)
  {
    assert (values + [v])[..|values|] == values;
  }

  /** The running range after the first n values, as the reader's loop holds it after n
      iterations. */
  function RangeUpTo(values: seq<real>, n: nat, range0: (real, real)): (real, real)
    requires n <= |values|
  {
    if n == 0 then range0 else Step(RangeUpTo(values, n - 1, range0), values[n - 1])
  }

  /** The loop's running range after n values is the range of the first n values. */
  lemma {:induction false} RangeUpToIsRange(values: seq<real>, n: nat, range0: (real, real))
    requires n <= |values|
    ensures RangeUpTo(values, n, range0) == Range(values[..n], range0)
    decreases n
  {
    if n > 0 {
      RangeUpToIsRange(values, n - 1, range0);
      assert values[..n] == values[..n - 1] + [values[n - 1]];
      RangeAppend(values[..n - 1], values[n - 1], range0);
    }
  }

  /** From a well-ordered start, the range only widens, holds every value fed to it, and
      each bound is the start's or one of the values. */
  lemma {:induction false} RangeBounds(values: seq<real>, range0: (real, real))
    requires range0.0 <= range0.1
    ensures Range(values, range0).0 <= range0.0 && range0.1 <= Range(values, range0).1
    ensures forall k :: 0 <= k < |values| ==> Range(values, range0).0 <= values[k] <= Range(values, range0).1
    ensures Range(values, range0).0 == range0.0 || exists k :: 0 <= k < |values| && values[k] == Range(values, range0).0
    ensures Range(values, range0).1 == range0.1 || exists k :: 0 <= k < |values| && values[k] == Range(values, range0).1
    decreases |values|
  {
    if |values| > 0 {
      var init := values[..|values| - 1];
      RangeBounds(init, range0);
      var r := Range(init, range0);
      assert forall k :: 0 <= k < |init| ==> values[k] == init[k];
      if Range(values, range0).0 != range0.0 && Range(values, range0).0 != r.0 {
        assert values[|values| - 1] == Range(values, range0).0;
      }
      if Range(values, range0).1 != range0.1 && Range(values, range0).1 != r.1 {
        assert values[|values| - 1] == Range(values, range0).1;
      }
    }
  }

  /** The values an RVP6 payload decodes to. */
  function Rvp6Values(t: ScanType, omitOutside: bool, bytes: seq<byte>): (vs: seq<real>)
    ensures |vs| == |bytes|
    ensures forall k :: 0 <= k < |bytes| ==> vs[k] == DecodeRvp6(t, omitOutside, bytes[k])
  {
    seq(|bytes|, k requires 0 <= k < |bytes| => DecodeRvp6(t, omitOutside, bytes[k]))
  }

  /** The RVP6 loop's running range after the first n bytes. */
  function Rvp6RangeUpTo(t: ScanType, omitOutside: bool, bytes: seq<byte>, n: nat, range0: (real, real)): (real, real)
    requires n <= |bytes|
  {
    if n == 0 then range0 else Step(Rvp6RangeUpTo(t, omitOutside, bytes, n - 1, range0), DecodeRvp6(t, omitOutside, bytes[n - 1]))
  }

  /** The RVP6 loop's running range after n bytes is the range of their decoded values. */
  lemma {:induction false} Rvp6RangeUpToIsRange(t: ScanType, omitOutside: bool, bytes: seq<byte>, n: nat, range0: (real, real))
    requires n <= |bytes|
    ensures Rvp6RangeUpTo(t, omitOutside, bytes, n, range0) == RangeUpTo(Rvp6Values(t, omitOutside, bytes), n, range0)
    decreases n
  {
    if n > 0 {
      Rvp6RangeUpToIsRange(t, omitOutside, bytes, n - 1, range0);
    }
  }

  /** After the whole payload the RVP6 loop's running range is the range of all decoded bytes. */
  lemma Rvp6LoopRange(t: ScanType, omitOutside: bool, bytes: seq<byte>, range0: (real, real))
    ensures Rvp6RangeUpTo(t, omitOutside, bytes, |bytes|, range0) == Range(Rvp6Values(t, omitOutside, bytes), range0)
  {
    var values := Rvp6Values(t, omitOutside, bytes);
    Rvp6RangeUpToIsRange(t, omitOutside, bytes, |bytes|, range0);
    RangeUpToIsRange(values, |bytes|, range0);
    assert values[..|bytes|] == values;
  }

  /** RX/EX with the classes limits (-32.5, 92.5): the minimum stays at -32.5 and the maximum
      becomes the larger of 92.5 and the largest decoded value. */
  lemma Rvp6RangeClasses(t: ScanType, omitOutside: bool, bytes: seq<byte>)
    requires Tables.IsRvp6(t)
    ensures Range(Rvp6Values(t, omitOutside, bytes), (Tables.MinValue(t), Tables.MaxValue(Classes, t))).0 == DBZ_BASEVALUE
    ensures var r := Range(Rvp6Values(t, omitOutside, bytes), (Tables.MinValue(t), Tables.MaxValue(Classes, t)));
      92.5 <= r.1 &&
      (forall k :: 0 <= k < |bytes| ==> DecodeRvp6(t, omitOutside, bytes[k]) <= r.1) &&
      (r.1 == 92.5 || exists k :: 0 <= k < |bytes| && DecodeRvp6(t, omitOutside, bytes[k]) == r.1)
  {
    var vs := Rvp6Values(t, omitOutside, bytes);
    forall k | 0 <= k < |bytes| ensures DBZ_BASEVALUE <= vs[k] {
      Rvp6Decoding(Classes, t, omitOutside, bytes[k]);
    }
    RangeBounds(vs, (Tables.MinValue(t), Tables.MaxValue(Classes, t)));
  }

  /** RX/EX with the legacy limits (-32.5, 95.0): no byte decodes outside them, so the
      reader's minimum and maximum stay at their initial values. */
  lemma Rvp6RangeLegacy(t: ScanType, omitOutside: bool, bytes: seq<byte>)
    requires Tables.IsRvp6(t)
    ensures Range(Rvp6Values(t, omitOutside, bytes), (Tables.MinValue(t), Tables.MaxValue(Legacy, t))) == (DBZ_BASEVALUE, 95.0)
  {
    var vs := Rvp6Values(t, omitOutside, bytes);
    forall k | 0 <= k < |bytes| ensures DBZ_BASEVALUE <= vs[k] <= 95.0 {
      Rvp6Decoding(Legacy, t, omitOutside, bytes[k]);
    }
    RangeBounds(vs, (Tables.MinValue(t), Tables.MaxValue(Legacy, t)));
  }

  /** The values a two-byte payload decodes to. */
  function CellValues(ed: Edition, t: ScanType, precision: real, omitOutside: bool, words: seq<word>): (vs: seq<real>)
    ensures |vs| == |words|
    ensures forall k :: 0 <= k < |words| ==> vs[k] == DecodeCell(ed, t, precision, omitOutside, words[k])
  {
    seq(|words|, k requires 0 <= k < |words| => DecodeCell(ed, t, precision, omitOutside, words[k]))
  }

  /** The values of the cells that take part in the minimum and maximum, in order. */
  function RangeValues(ed: Edition, t: ScanType, precision: real, omitOutside: bool, words: seq<word>): seq<real>
    decreases |words|
  {
    if |words| == 0 then []
    else
      var w := words[|words| - 1];
      RangeValues(ed, t, precision, omitOutside, words[..|words| - 1]) +
      (if UpdatesRange(BranchOf(Flag(w))) then [DecodeCell(ed, t, precision, omitOutside, w)] else [])
  }

  /** One more word adds its value when its branch updates the range. */
  lemma RangeValuesExtend(ed: Edition, t: ScanType, precision: real, omitOutside: bool, words: seq<word>, i: nat)
    requires i < |words|
    ensures UpdatesRange(BranchOf(Flag(words[i]))) ==>
      RangeValues(ed, t, precision, omitOutside, words[..i + 1]) ==
      RangeValues(ed, t, precision, omitOutside, words[..i]) + [DecodeCell(ed, t, precision, omitOutside, words[i])]
    ensures !UpdatesRange(BranchOf(Flag(words[i]))) ==>
      RangeValues(ed, t, precision, omitOutside, words[..i + 1]) == RangeValues(ed, t, precision, omitOutside, words[..i])
  {
    assert words[..i + 1][..i] == words[..i];
    assert RangeValues(ed, t, precision, omitOutside, words[..i]) + [] == RangeValues(ed, t, precision, omitOutside, words[..i]);
  }

  /** The two-byte loop's running range after the first n words: only the negative and
      plain cells step it. */
  function TwoByteRangeUpTo(ed: Edition, t: ScanType, precision: real, omitOutside: bool, words: seq<word>,
                            n: nat, range0: (real, real)): (real, real)
    requires n <= |words|
  {
    if n == 0 then range0
    else
      var r := TwoByteRangeUpTo(ed, t, precision, omitOutside, words, n - 1, range0);
      var w := words[n - 1];
      if UpdatesRange(BranchOf(Flag(w))) then Step(r, DecodeCell(ed, t, precision, omitOutside, w)) else r
  }

  /** The loop's running range after n words is the range of the updating cells among them. */
  lemma {:induction false} TwoByteRangeUpToIsRange(ed: Edition, t: ScanType, precision: real, omitOutside: bool,
                                                   words: seq<word>, n: nat, range0: (real, real))
    requires n <= |words|
    ensures TwoByteRangeUpTo(ed, t, precision, omitOutside, words, n, range0)
            == Range(RangeValues(ed, t, precision, omitOutside, words[..n]), range0)
    decreases n
  {
    if n > 0 {
      TwoByteRangeUpToIsRange(ed, t, precision, omitOutside, words, n - 1, range0);
      RangeValuesExtend(ed, t, precision, omitOutside, words, n - 1);
      var w := words[n - 1];
      if UpdatesRange(BranchOf(Flag(w))) {
        RangeAppend(RangeValues(ed, t, precision, omitOutside, words[..n - 1]), DecodeCell(ed, t, precision, omitOutside, w), range0);
      }
    }
  }

  /** RangeValues holds exactly the values of the negative and plain cells. */
  lemma {:induction false} RangeValuesAreUpdatingCells(ed: Edition, t: ScanType, precision: real, omitOutside: bool, words: seq<word>)
    ensures forall k :: 0 <= k < |words| && UpdatesRange(BranchOf(Flag(words[k]))) ==>
      DecodeCell(ed, t, precision, omitOutside, words[k]) in RangeValues(ed, t, precision, omitOutside, words)
    ensures forall v :: v in RangeValues(ed, t, precision, omitOutside, words) ==>
      exists k :: 0 <= k < |words| && UpdatesRange(BranchOf(Flag(words[k]))) && DecodeCell(ed, t, precision, omitOutside, words[k]) == v
    decreases |words|
  {
    if |words| > 0 {
      var init := words[..|words| - 1];
      RangeValuesAreUpdatingCells(ed, t, precision, omitOutside, init);
      assert forall k :: 0 <= k < |init| ==> words[k] == init[k];
    }
  }

  /** After a two-byte payload, every negative or plain cell lies within the reader's
      [min, max], the bounds only widened from the product's limits, and a bound that moved
      is the value of such a cell. Sentinel, error and secondary cells are not constrained. */
  lemma TwoByteRange(ed: Edition, t: ScanType, precision: real, omitOutside: bool, words: seq<word>)
    requires !Tables.IsRvp6(t)
    ensures var r := Range(RangeValues(ed, t, precision, omitOutside, words), (Tables.MinValue(t), Tables.MaxValue(ed, t)));
      r.0 <= 0.0 && 4095.0 <= r.1 &&
      (forall k :: 0 <= k < |words| && UpdatesRange(BranchOf(Flag(words[k]))) ==>
        r.0 <= DecodeCell(ed, t, precision, omitOutside, words[k]) <= r.1) &&
      (r.1 == 4095.0 ||
       exists k :: 0 <= k < |words| && UpdatesRange(BranchOf(Flag(words[k]))) && DecodeCell(ed, t, precision, omitOutside, words[k]) == r.1)
  {
    var vs := RangeValues(ed, t, precision, omitOutside, words);
    RangeValuesAreUpdatingCells(ed, t, precision, omitOutside, words);
    RangeBounds(vs, (Tables.MinValue(t), Tables.MaxValue(ed, t)));
    var r := Range(vs, (Tables.MinValue(t), Tables.MaxValue(ed, t)));
    forall k | 0 <= k < |words| && UpdatesRange(BranchOf(Flag(words[k])))
      ensures r.0 <= DecodeCell(ed, t, precision, omitOutside, words[k]) <= r.1
    {
      var v := DecodeCell(ed, t, precision, omitOutside, words[k]);
      assert v in vs;
      var j :| 0 <= j < |vs| && vs[j] == v;
    }
    if r.1 != 4095.0 {
      var j :| 0 <= j < |vs| && vs[j] == r.1;
      assert vs[j] in vs;
    }
  }

  /** The cells of a two-byte payload read from bytes: cell k is the word at bytes 2k, 2k+1
      as the host reads it and the edition decodes it; bytes past the payload are the zeros
      of the calloc'd buffer. */
  function Words(ed: Edition, payload: seq<byte>, cells: nat, littleEndianHost: bool): (ws: seq<word>)
    ensures |ws| == cells
  {
    seq(cells, k requires 0 <= k < cells =>
      DecodedWord(ed, HostWord(ByteAtOrZero(payload, 2 * k), ByteAtOrZero(payload, 2 * k + 1), littleEndianHost), littleEndianHost))
  }

  function ByteAtOrZero(s: seq<byte>, i: nat): byte {
    if i < |s| then s[i] else 0
  }

  /** With the classes tree, cell k holds the file's little-endian word k on every host. */
  lemma WordsAreFileWords(payload: seq<byte>, cells: nat, littleEndianHost: bool, k: nat)
    requires k < cells && 2 * k + 1 < |payload|
    ensures Words(Classes, payload, cells, littleEndianHost)[k] == FileWord(payload[2 * k], payload[2 * k + 1])
  {
    DecodedWordIsFileWord(payload[2 * k], payload[2 * k + 1], littleEndianHost);
  }
}
