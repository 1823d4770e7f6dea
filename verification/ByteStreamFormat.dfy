/** The two framings of H.264 data: NAL units behind big-endian length prefixes, as containers store them
    (ISO/IEC 14496-15), and the byte stream format of Annex B of ITU-T H.264 with start codes. */
module ByteStreamFormat {
  import opened Basics

  type Nal = seq<byte>

  // ---------------------------------------------------------------- sequences

  lemma SliceOfSlice<T>(s: seq<T>, a: nat, b: nat, c: nat, d: nat)
    requires a <= b <= |s| && c <= d <= b - a
    ensures s[a..b][c..d] == s[a + c..a + d]
  {
    var t := s[a..b];
    assert forall i :: 0 <= i < |t| ==> t[i] == s[a + i];
  }

  lemma SliceOfConcat<T>(a: seq<T>, b: seq<T>, c: seq<T>)
    ensures (a + b + c)[0..|a|] == a
    ensures (a + b + c)[|a|..|a| + |b|] == b
    ensures (a + b + c)[|a| + |b|..|a| + |b| + |c|] == c
  {
  }

  lemma ConcatOfSlices<T>(s: seq<T>, i: nat, j: nat, k: nat)
    requires i <= j <= k <= |s|
    ensures s[i..] == s[i..j] + s[j..k] + s[k..]
  {
  }

  lemma DropFirst<T>(a: seq<T>, b: seq<T>, c: seq<T>)
    ensures (a + b + c)[|a|..] == b + c
  {
  }

  lemma ConcatIsAssociative<T>(a: seq<T>, b: seq<T>, c: seq<T>)
    ensures a + b + c == a + (b + c)
  {
  }

  lemma SliceOfBuffer<T>(a: array<T>, len: nat, i: nat, j: nat)
    requires i <= j <= len <= a.Length
    ensures a[..len][i..j] == a[i..j]
  {
  }

  /** Overwriting the bytes behind what has already been written over orig. */
  lemma Overwrite<T>(orig: seq<T>, written: seq<T>, piece: seq<T>)
    requires |written| + |piece| <= |orig|
    ensures var now, d := written + orig[|written|..], |written| + |piece|;
            now[..|written|] + piece + now[d..] == written + piece + orig[d..]
  {
    var now, d := written + orig[|written|..], |written| + |piece|;
    assert now[..|written|] == written;
    assert now[d..] == orig[d..];
  }

  lemma ThreeSlices<T>(s: seq<T>, q: nat, a: seq<T>, b: seq<T>, c: seq<T>)
    requires q + |a| + |b| + |c| <= |s| && s[q..q + |a| + |b| + |c|] == a + b + c
    ensures s[q..q + |a|] == a
    ensures s[q + |a|..q + |a| + |b|] == b
    ensures s[q + |a| + |b|..q + |a| + |b| + |c|] == c
  {
    var e := |a| + |b| + |c|;
    SliceOfConcat(a, b, c);
    SliceOfSlice(s, q, q + e, 0, |a|);
    SliceOfSlice(s, q, q + e, |a|, |a| + |b|);
    SliceOfSlice(s, q, q + e, |a| + |b|, e);
  }

  // ---------------------------------------------------------------- length-prefixed framing

  /** The widths of length prefix that occur. */
  type Width = w: int | 2 <= w <= 4 witness 2

  /** The sizes the prefix may announce; the 4-byte test refuses sizes of 2^24 and above. */
  predicate Fits(w: Width, size: int) {
    0 <= size < if w == 2 then 0x1_0000 else 0x100_0000
  }

  /** n as w big-endian bytes. */
  function Digits(w: nat, n: nat): (p: seq<byte>)
    ensures |p| == w
  {
    if w == 0 then [] else Digits(w - 1, n / 256) + [n % 256]
  }

  function Encode(w: Width, nals: seq<Nal>): seq<byte> {
    if nals == [] then [] else Digits(w, |nals[0]|) + nals[0] + Encode(w, nals[1..])
  }

  predicate AllFit(w: Width, nals: seq<Nal>) {
    forall i :: 0 <= i < |nals| ==> Fits(w, |nals[i]|)
  }

  /** s is the encoding of a list of units ending in a non-empty one. */
  predicate IsFraming(w: Width, nals: seq<Nal>, s: seq<byte>) {
    && nals != [] && nals[|nals| - 1] != []
    && AllFit(w, nals)
    && s == Encode(w, nals)
  }

  ghost predicate Framed(w: Width, s: seq<byte>) {
    exists nals :: IsFraming(w, nals, s)
  }

  function BigEndian(p: seq<byte>): nat {
    if p == [] then 0 else BigEndian(p[..|p| - 1]) * 256 + p[|p| - 1]
  }

  /** The size announced by the prefix at position q. */
  function SizeAt(w: Width, s: seq<byte>, q: nat): nat
    requires q + w <= |s|
  {
    BigEndian(s[q..q + w])
  }

  function Pow256(w: nat): nat {
    if w == 0 then 1 else 256 * Pow256(w - 1)
  }

  lemma {:induction false} DigitsRoundTrip(w: nat, n: nat)
    requires n < Pow256(w)
    ensures BigEndian(Digits(w, n)) == n
  {
    if w > 0 {
      DigitsRoundTrip(w - 1, n / 256);
      assert Digits(w, n)[..w - 1] == Digits(w - 1, n / 256);
    }
  }

  lemma {:induction false} BigEndianRoundTrip(p: seq<byte>)
    ensures Digits(|p|, BigEndian(p)) == p
  {
    if p != [] {
      var q := p[..|p| - 1];
      BigEndianRoundTrip(q);
      assert BigEndian(p) / 256 == BigEndian(q) && BigEndian(p) % 256 == p[|p| - 1];
    }
  }

  lemma FitsBounds(w: Width, size: nat)
    requires Fits(w, size)
    ensures size < Pow256(w)
  {
    assert Pow256(2) == 0x1_0000 && Pow256(3) == 0x100_0000 && Pow256(4) == 0x1_0000_0000;
  }

  /** Walking from prefix to prefix, from position q on, ends exactly at the end of s and not in a prefix. */
  predicate ParsesFrom(w: Width, s: seq<byte>, q: nat)
    decreases |s| - q
  {
    q + w < |s| &&
    var next := q + w + SizeAt(w, s, q);
    Fits(w, SizeAt(w, s, q)) && next <= |s| && (next == |s| || ParsesFrom(w, s, next))
  }

  /** The units passed by that walk. */
  function UnitsFrom(w: Width, s: seq<byte>, q: nat): seq<Nal>
    requires q == |s| || ParsesFrom(w, s, q)
    decreases |s| - q
  {
    if q == |s| then []
    else
      var next := q + w + SizeAt(w, s, q);
      [s[q + w..next]] + UnitsFrom(w, s, next)
  }

  lemma EncodeCons(w: Width, n: Nal, rest: seq<Nal>)
    ensures Encode(w, [n] + rest) == Digits(w, |n|) + n + Encode(w, rest)
  {
    assert ([n] + rest)[1..] == rest;
  }

  lemma PrependUnit(w: Width, n: Nal, rest: seq<Nal>, t: seq<byte>)
    requires Fits(w, |n|) && if rest == [] then n != [] && t == [] else IsFraming(w, rest, t)
    ensures IsFraming(w, [n] + rest, Digits(w, |n|) + n + t)
  {
    EncodeCons(w, n, rest);
  }

  lemma AnnouncedDigits(w: Width, s: seq<byte>, q: nat)
    requires q + w <= |s|
    ensures Digits(w, SizeAt(w, s, q)) == s[q..q + w]
  {
    BigEndianRoundTrip(s[q..q + w]);
  }

  /** A unit at q, made of a prefix and n, in front of a framing of what follows it. */
  lemma FramedFrom(w: Width, s: seq<byte>, q: nat, n: Nal, rest: seq<Nal>)
    requires q + w + |n| <= |s| && |n| == SizeAt(w, s, q) && Fits(w, |n|) && n == s[q + w..q + w + |n|]
    requires if rest == [] then n != [] && q + w + |n| == |s| else IsFraming(w, rest, s[q + w + |n|..])
    ensures IsFraming(w, [n] + rest, s[q..])
  {
    AnnouncedDigits(w, s, q);
    ConcatOfSlices(s, q, q + w, q + w + |n|);
    PrependUnit(w, n, rest, s[q + w + |n|..]);
  }

  lemma {:induction false} ParsedIsFramed(w: Width, s: seq<byte>, q: nat)
    requires ParsesFrom(w, s, q)
    ensures IsFraming(w, UnitsFrom(w, s, q), s[q..])
    decreases |s| - q
  {
    var size := SizeAt(w, s, q);
    var next := q + w + size;
    if next < |s| { ParsedIsFramed(w, s, next); }
    FramedFrom(w, s, q, s[q + w..next], UnitsFrom(w, s, next));
  }

  lemma ParsesCons(w: Width, s: seq<byte>, q: nat, size: nat)
    requires q + w < |s| && size == SizeAt(w, s, q) && Fits(w, size) && q + w + size <= |s|
    requires q + w + size == |s| || ParsesFrom(w, s, q + w + size)
    ensures ParsesFrom(w, s, q)
    ensures UnitsFrom(w, s, q) == [s[q + w..q + w + size]] + UnitsFrom(w, s, q + w + size)
  {
  }

  /** The walk's first step, stated for a list that lies somewhere in s. */
  lemma EncodedUnit(w: Width, nals: seq<Nal>, s: seq<byte>, q: nat)
    requires nals != [] && Fits(w, |nals[0]|)
    requires q + |Encode(w, nals)| <= |s| && s[q..q + |Encode(w, nals)|] == Encode(w, nals)
    ensures |Encode(w, nals)| == w + |nals[0]| + |Encode(w, nals[1..])|
    ensures SizeAt(w, s, q) == |nals[0]| && s[q + w..q + w + |nals[0]|] == nals[0]
    ensures s[q + w + |nals[0]|..q + |Encode(w, nals)|] == Encode(w, nals[1..])
  {
    var d, n, rest := Digits(w, |nals[0]|), nals[0], Encode(w, nals[1..]);
    assert Encode(w, nals) == d + n + rest;
    ThreeSlices(s, q, d, n, rest);
    FitsBounds(w, |n|);
    DigitsRoundTrip(w, |n|);
  }

  lemma FirstUnitOf(w: Width, nals: seq<Nal>, s: seq<byte>, q: nat)
    requires q <= |s| && IsFraming(w, nals, s[q..])
    ensures var size := |nals[0]|;
            && q + w < |s| && q + w + size <= |s| && Fits(w, size)
            && size == SizeAt(w, s, q) && nals[0] == s[q + w..q + w + size]
            && s[q + w + size..] == Encode(w, nals[1..])
            && (|nals| == 1 <==> q + w + size == |s|)
  {
    var e := |Encode(w, nals)|;
    assert s[q..q + e] == s[q..];
    EncodedUnit(w, nals, s, q);
    EncodeLength(w, nals[1..]);
    assert s[q + w + |nals[0]|..] == s[q + w + |nals[0]|..q + e];
  }

  lemma {:induction false} FramingIsParsed(w: Width, nals: seq<Nal>, s: seq<byte>, q: nat)
    requires q <= |s| && IsFraming(w, nals, s[q..])
    ensures ParsesFrom(w, s, q) && UnitsFrom(w, s, q) == nals
    decreases |nals|
  {
    var n, rest := nals[0], nals[1..];
    FirstUnitOf(w, nals, s, q);
    assert nals == [n] + rest;
    var next := q + w + |n|;
    if |nals| > 1 { FramingIsParsed(w, rest, s, next); }
    assert UnitsFrom(w, s, next) == rest;
    ParsesCons(w, s, q, |n|);
    assert s[q + w..next] == n;
  }

  /** The walk passes one unit. */
  lemma WalkOn(w: Width, s: seq<byte>, q: nat, next: nat, done: seq<Nal>, n: Nal)
    requires ParsesFrom(w, s, q) && next == q + w + SizeAt(w, s, q) <= |s| && n == s[q + w..next]
    ensures next == |s| || ParsesFrom(w, s, next)
    ensures done + UnitsFrom(w, s, q) == done + [n] + UnitsFrom(w, s, next)
  {
    assert UnitsFrom(w, s, q) == [n] + UnitsFrom(w, s, next);
  }

  predicate Parses(w: Width, s: seq<byte>) {
    ParsesFrom(w, s, 0)
  }

  function Units(w: Width, s: seq<byte>): seq<Nal>
    requires Parses(w, s)
  {
    UnitsFrom(w, s, 0)
  }

  /** The walk finds the framing: it succeeds exactly on the framed sequences, and their framing is unique. */
  lemma FramingIsTheParse(w: Width, nals: seq<Nal>, s: seq<byte>)
    ensures IsFraming(w, nals, s) <==> Parses(w, s) && nals == Units(w, s)
  {
    assert s[0..] == s;
    if IsFraming(w, nals, s) { FramingIsParsed(w, nals, s, 0); }
    if Parses(w, s) { ParsedIsFramed(w, s, 0); }
  }

  lemma FramedIffParses(w: Width, s: seq<byte>)
    ensures Framed(w, s) <==> Parses(w, s)
  {
    if Framed(w, s) {
      var nals :| IsFraming(w, nals, s);
      FramingIsTheParse(w, nals, s);
    }
    if Parses(w, s) { FramingIsTheParse(w, Units(w, s), s); }
  }

  lemma {:induction false} EncodeLength(w: Width, nals: seq<Nal>)
    ensures |Encode(w, nals)| == Payload(nals) + w * |nals|
  {
    if nals != [] { EncodeLength(w, nals[1..]); }
  }

  /** The bytes of the units alone. */
  function Payload(nals: seq<Nal>): nat {
    if nals == [] then 0 else |nals[0]| + Payload(nals[1..])
  }

  // ---------------------------------------------------------------- byte stream format (Annex B)

  /** The start code put in the place of a prefix of width w. */
  function StartCode(w: Width): (c: seq<byte>)
    ensures |c| == StartCodeLength(w)
  {
    if w == 3 then [0, 0, 1] else [0, 0, 0, 1]
  }

  function StartCodeLength(w: Width): nat {
    if w == 3 then 3 else 4
  }

  function ByteStream(w: Width, nals: seq<Nal>): seq<byte> {
    if nals == [] then [] else StartCode(w) + nals[0] + ByteStream(w, nals[1..])
  }

  lemma {:induction false} ByteStreamLength(w: Width, nals: seq<Nal>)
    ensures |ByteStream(w, nals)| == Payload(nals) + StartCodeLength(w) * |nals|
  {
    if nals != [] { ByteStreamLength(w, nals[1..]); }
  }

  lemma {:induction false} ByteStreamAppend(w: Width, nals: seq<Nal>, n: Nal)
    ensures ByteStream(w, nals + [n]) == ByteStream(w, nals) + (StartCode(w) + n)
  {
    if nals == [] {
      assert ByteStream(w, [n]) == StartCode(w) + n + ByteStream(w, []);
    } else {
      assert (nals + [n])[1..] == nals[1..] + [n];
      ByteStreamAppend(w, nals[1..], n);
    }
  }

  /** The three bytes at position i end a NAL unit (0x000000) or start the next one (0x000001). */
  predicate EndsUnit(s: seq<byte>, i: nat) {
    i + 3 <= |s| && s[i] == 0 && s[i + 1] == 0 && s[i + 2] <= 1
  }

  /** The length of the NAL unit that s begins with (section B.2). */
  function UnitLength(s: seq<byte>): (n: nat)
    ensures n <= |s|
  {
    if s == [] || EndsUnit(s, 0) then 0 else 1 + UnitLength(s[1..])
  }

  /** The decoding process of section B.2: zero bytes are skipped up to a start code prefix, then a NAL
      unit runs to the next 0x000000 or 0x000001 or to the end. Anything else is not a byte stream. */
  function Decode(s: seq<byte>): Option<seq<Nal>>
    decreases |s|
  {
    if s == [] then Some([])
    else if EndsUnit(s, 0) && s[2] == 1 then
      var n := UnitLength(s[3..]);
      match Decode(s[3 + n..])
      case None => None
      case Some(rest) => Some([s[3..3 + n]] + rest)
    else if s[0] == 0 then Decode(s[1..])
    else None
  }

  /** What section 7.4.1 asks of a NAL unit, as far as the framing depends on it: it is not empty, does not
      end in a zero byte, and contains neither 0x000000 nor 0x000001. */
  predicate Conforming(n: Nal) {
    n != [] && n[|n| - 1] != 0 && forall i :: 0 <= i < |n| ==> !EndsUnit(n, i)
  }

  lemma {:induction false} UnitRunsToStartCode(n: Nal, rest: seq<byte>)
    requires n == [] || Conforming(n)
    requires rest == [] || EndsUnit(rest, 0)
    ensures UnitLength(n + rest) == |n|
  {
    if n != [] {
      assert !EndsUnit(n + rest, 0) by { assert !EndsUnit(n, 0); }
      assert (n + rest)[1..] == n[1..] + rest;
      forall i | 0 <= i < |n| - 1 ensures !EndsUnit(n[1..], i) { assert !EndsUnit(n, i + 1); }
      UnitRunsToStartCode(n[1..], rest);
    } else {
      assert n + rest == rest;
    }
  }

  lemma DecodeUnit(n: Nal, rest: seq<byte>)
    requires Conforming(n) && (rest == [] || EndsUnit(rest, 0)) && Decode(rest).Some?
    ensures Decode([0, 0, 1] + n + rest) == Some([n] + Decode(rest).value)
  {
    var code: seq<byte> := [0, 0, 1];
    var s := code + n + rest;
    DropFirst(code, n, rest);
    UnitRunsToStartCode(n, rest);
    SliceOfConcat(code, n, rest);
    assert s[3 + |n|..] == s[3 + |n|..3 + |n| + |rest|];
  }

  lemma DecodeBehindStartCode(w: Width, n: Nal, rest: seq<byte>)
    requires Conforming(n) && (rest == [] || EndsUnit(rest, 0)) && Decode(rest).Some?
    ensures Decode(StartCode(w) + n + rest) == Some([n] + Decode(rest).value)
    ensures EndsUnit(StartCode(w) + n + rest, 0)
  {
    DecodeUnit(n, rest);
    if w != 3 {
      var s := [0, 0, 0, 1] + n + rest;
      assert s[1..] == [0, 0, 1] + n + rest;
    }
  }

  /** Decoding a byte stream of conforming units gives the units back. */
  lemma {:induction false} DecodeByteStream(w: Width, nals: seq<Nal>)
    requires forall n :: n in nals ==> Conforming(n)
    ensures Decode(ByteStream(w, nals)) == Some(nals)
    ensures nals != [] ==> EndsUnit(ByteStream(w, nals), 0)
  {
    if nals != [] {
      DecodeByteStream(w, nals[1..]);
      DecodeBehindStartCode(w, nals[0], ByteStream(w, nals[1..]));
      assert [nals[0]] + nals[1..] == nals;
    }
  }

  /** A stream is at least as long as its units and their start code prefixes, one byte longer when it
      begins with a four-byte start code. */
  lemma {:induction false} DecodeNeedsRoom(s: seq<byte>)
    requires Decode(s).Some?
    ensures |s| >= Payload(Decode(s).value) + 3 * |Decode(s).value|
    ensures |s| > 0 && !(EndsUnit(s, 0) && s[2] == 1) ==> |s| > Payload(Decode(s).value) + 3 * |Decode(s).value|
    decreases |s|
  {
    if s != [] {
      if EndsUnit(s, 0) && s[2] == 1 {
        var n := UnitLength(s[3..]);
        DecodeNeedsRoom(s[3 + n..]);
        assert Decode(s).value[1..] == Decode(s[3 + n..]).value;
      } else {
        DecodeNeedsRoom(s[1..]);
      }
    }
  }
}
