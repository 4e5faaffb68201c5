/** The C library string routines the header parser relies on (strlen, strstr,
    strncpy, strncmp, atoi), over byte sequences. A byte read past the end of a
    sequence reads as NUL. */
module CStrings {
  import opened RadolanTypes

  const NUL: byte := 0

  /** Bytes as the chars they encode (Latin-1). */
  function Chars(b: seq<byte>): (r: string)
    ensures |r| == |b|
    ensures forall i :: 0 <= i < |b| ==> r[i] as int == b[i] as int
  {
    seq(|b|, i requires 0 <= i < |b| => (b[i] as int) as char)
  }

  function ByteAt(buf: seq<byte>, i: nat): byte {
    if i < |buf| then buf[i] else NUL
  }

  function Zeros(n: nat): (r: seq<byte>)
    ensures |r| == n && forall i :: 0 <= i < n ==> r[i] == NUL
  {
    seq(n, _ => NUL)
  }

  /** strlen: index of the first NUL (or the end of the buffer). */
  function StrLen(buf: seq<byte>): (n: nat)
    ensures n <= |buf|
    ensures forall i :: 0 <= i < n ==> buf[i] != NUL
    ensures n < |buf| ==> buf[n] == NUL
  {
    if |buf| == 0 || buf[0] == NUL then 0 else 1 + StrLen(buf[1..])
  }

  /** The C string stored in a buffer: its bytes before the first NUL. */
  function Str(buf: seq<byte>): (s: seq<byte>)
    ensures s == buf[..StrLen(buf)]
    ensures NUL !in s
  {
    buf[..StrLen(buf)]
  }

  /** strncpy(dst, buf + from, n): the n bytes written to dst. Copying stops at the
      first NUL and the rest of dst is padded with NULs. */
  function Strncpy(buf: seq<byte>, from: nat, n: nat): (r: seq<byte>)
    ensures |r| == n
    decreases n
  {
    if n == 0 then []
    else if ByteAt(buf, from) == NUL then Zeros(n)
    else [buf[from]] + Strncpy(buf, from + 1, n - 1)
  }

  /** Copying n bytes none of which is NUL copies them as they are. */
  lemma {:induction false} StrncpyOfNulFree(buf: seq<byte>, from: nat, n: nat)
    requires from + n <= |buf|
    requires forall i :: from <= i < from + n ==> buf[i] != NUL
    ensures Strncpy(buf, from, n) == buf[from..from + n]
    decreases n
  {
    if n > 0 {
      StrncpyOfNulFree(buf, from + 1, n - 1);
    }
  }

  /** strncmp(buf + from, lit, n) == 0 for a string literal lit (which has its own NUL). */
  predicate StrnEq(buf: seq<byte>, from: nat, lit: seq<byte>, n: nat)
    decreases n
  {
    if n == 0 then true
    else if |lit| == 0 then ByteAt(buf, from) == NUL
    else ByteAt(buf, from) == lit[0] && StrnEq(buf, from + 1, lit[1..], n - 1)
  }

  /** Comparing exactly the literal's own length is a plain slice comparison. */
  lemma {:induction false} StrnEqWithoutTerminator(buf: seq<byte>, from: nat, lit: seq<byte>)
    requires NUL !in lit
    ensures StrnEq(buf, from, lit, |lit|) <==> |lit| == 0 || (from + |lit| <= |buf| && buf[from..from + |lit|] == lit)
    decreases |lit|
  {
    if |lit| > 0 {
      var tail := lit[1..];
      assert lit == [lit[0]] + tail;
      assert NUL !in tail by { assert forall b :: b in tail ==> b in lit; }
      StrnEqWithoutTerminator(buf, from + 1, tail);
      assert lit[0] in lit;
      if StrnEq(buf, from, lit, |lit|) {
        assert ByteAt(buf, from) == lit[0] && StrnEq(buf, from + 1, tail, |tail|);
        assert buf[from..from + |lit|] == [buf[from]] + buf[from + 1..from + |lit|];
      }
      if from + |lit| <= |buf| && buf[from..from + |lit|] == lit {
        assert buf[from] == lit[0];
        assert buf[from + 1..from + |lit|] == tail;
      }
    }
  }

  /** Comparing one byte past the literal also demands the NUL that ends the buffer's string. */
  lemma {:induction false} StrnEqWithTerminator(buf: seq<byte>, from: nat, lit: seq<byte>)
    requires NUL !in lit
    ensures StrnEq(buf, from, lit, |lit| + 1) <==>
      (|lit| == 0 || (from + |lit| <= |buf| && buf[from..from + |lit|] == lit)) && ByteAt(buf, from + |lit|) == NUL
    decreases |lit|
  {
    if |lit| > 0 {
      var tail := lit[1..];
      assert lit == [lit[0]] + tail;
      assert NUL !in tail by { assert forall b :: b in tail ==> b in lit; }
      StrnEqWithTerminator(buf, from + 1, tail);
      assert lit[0] in lit;
      if StrnEq(buf, from, lit, |lit| + 1) {
        assert ByteAt(buf, from) == lit[0] && StrnEq(buf, from + 1, tail, |tail| + 1);
        assert buf[from..from + |lit|] == [buf[from]] + buf[from + 1..from + |lit|];
      }
      if from + |lit| <= |buf| && buf[from..from + |lit|] == lit && ByteAt(buf, from + |lit|) == NUL {
        assert buf[from] == lit[0];
        assert buf[from + 1..from + |lit|] == tail;
      }
    }
  }

  predicate OccursAt(s: seq<byte>, tag: seq<byte>, k: nat) {
    k + |tag| <= |s| && s[k..k + |tag|] == tag
  }

  /** strstr on a NUL-free string: an index at or after from at which tag occurs
      (FindIsFirst: the first one). */
  function Find(s: seq<byte>, tag: seq<byte>, from: nat): (r: Option<nat>)
    requires |tag| > 0
    ensures r.Some? ==> from <= r.value && OccursAt(s, tag, r.value)
    decreases |s| - from
  {
    if from + |tag| > |s| then None
    else if s[from..from + |tag|] == tag then Some(from)
    else Find(s, tag, from + 1)
  }

  /** Find returns the first occurrence, and None only when there is none. */
  lemma {:induction false} FindIsFirst(s: seq<byte>, tag: seq<byte>, from: nat)
    requires |tag| > 0
    ensures Find(s, tag, from).Some? ==> forall k :: from <= k < Find(s, tag, from).value ==> !OccursAt(s, tag, k)
    ensures Find(s, tag, from).None? ==> forall k :: from <= k ==> !OccursAt(s, tag, k)
    decreases |s| - from
  {
    if from + |tag| <= |s| && s[from..from + |tag|] != tag {
      FindIsFirst(s, tag, from + 1);
    }
  }

  predicate IsSpace(b: byte) {
    b == 0x20 || (0x09 <= b <= 0x0D)
  }

  predicate IsDigit(b: byte) {
    0x30 <= b <= 0x39
  }

  /** Value of a run of decimal digits, most significant first (meaningful for digits only). */
  function DecimalValue(ds: seq<byte>): (v: nat) {
    if |ds| == 0 then 0
    else 10 * DecimalValue(ds[..|ds| - 1]) + (ds[|ds| - 1] - 0x30) as int
  }

  /** The digits at the head of s. */
  function LeadingDigits(s: seq<byte>): (ds: seq<byte>)
    ensures |ds| <= |s| && ds == s[..|ds|]
    ensures forall i :: 0 <= i < |ds| ==> IsDigit(ds[i])
    ensures |ds| < |s| ==> !IsDigit(s[|ds|])
  {
    if |s| == 0 || !IsDigit(s[0]) then [] else [s[0]] + LeadingDigits(s[1..])
  }

  function SkipSpace(s: seq<byte>): (r: seq<byte>)
    ensures |r| <= |s| && r == s[|s| - |r|..]
    ensures |r| > 0 ==> !IsSpace(r[0])
  {
    if |s| > 0 && IsSpace(s[0]) then SkipSpace(s[1..]) else s
  }

  /** atoi on the C string held in s: leading white space, an optional sign, then digits. */
  function Atoi(s: seq<byte>): int {
    var t := SkipSpace(Str(s));
    if |t| > 0 && t[0] == 0x2D then -(DecimalValue(LeadingDigits(t[1..])) as int)
    else if |t| > 0 && t[0] == 0x2B then DecimalValue(LeadingDigits(t[1..]))
    else DecimalValue(LeadingDigits(t))
  }

  /** A field of plain digits reads as its decimal value. */
  lemma {:induction false} AtoiOfDigits(s: seq<byte>)
    requires |s| > 0 && forall i :: 0 <= i < |s| ==> IsDigit(s[i])
    ensures Atoi(s) == DecimalValue(s)
  {
    StrOfNulFree(s);
    LeadingDigitsOfDigits(s);
  }

  lemma {:induction false} StrOfNulFree(s: seq<byte>)
    requires NUL !in s
    ensures Str(s) == s
  {
  }

  lemma {:induction false} LeadingDigitsOfDigits(s: seq<byte>)
    requires forall i :: 0 <= i < |s| ==> IsDigit(s[i])
    ensures LeadingDigits(s) == s
    decreases |s|
  {
    if |s| > 0 {
      LeadingDigitsOfDigits(s[1..]);
    }
  }
}
