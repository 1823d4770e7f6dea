/** Rewriting of H.264 packets and codec configuration for decoders (AVCFormat.cpp): length prefixes
    become start codes, in buffers the caller allocates from getPackageSize. */
module AvcFormat {
  import opened Basics
  import opened ByteStreamFormat

  const HDR_BUF_SIZE := 1024

  datatype Status = OK | BAD_VALUE

  // ---------------------------------------------------------------- specification

  /** The width guessed for a packet: 4 before 3 before 2. */
  ghost function GuessedWidth(s: seq<byte>): Option<Width> {
    if Parses(4, s) then Some(4) else if Parses(3, s) then Some(3) else if Parses(2, s) then Some(2) else None
  }

  ghost function Reframed(s: seq<byte>): seq<byte>
    requires GuessedWidth(s).Some?
  {
    var w := GuessedWidth(s).value;
    ByteStream(w, Units(w, s))
  }

  ghost function PackageSize(s: seq<byte>): nat {
    if Parses(2, s) then |s| + 2 * |Units(2, s)| else |s|
  }

  /** 4- and 3-byte prefixes are replaced in place, 2-byte ones grow by two bytes a unit. */
  lemma ReframedLength(s: seq<byte>)
    requires GuessedWidth(s).Some?
    ensures GuessedWidth(s) != Some(2) ==> |Reframed(s)| == |s|
    ensures GuessedWidth(s) == Some(2) ==> |Reframed(s)| == |s| + 2 * |Units(2, s)|
  {
    var w := GuessedWidth(s).value;
    FramingIsTheParse(w, Units(w, s), s);
    EncodeLength(w, Units(w, s));
    ByteStreamLength(w, Units(w, s));
  }

  /** The size announced always holds the output, and is exact unless a wider guess than 2 was made for
      a packet that also passes the 2-byte test. */
  lemma PackageSizeSuffices(s: seq<byte>)
    requires GuessedWidth(s).Some?
    ensures |Reframed(s)| <= PackageSize(s)
    ensures |Reframed(s)| == PackageSize(s) <==> GuessedWidth(s) == Some(2) || !Parses(2, s)
  {
    ReframedLength(s);
  }

  /** How the 2-byte test reads a 4-byte framing: an empty unit in front of each unit. */
  function Halved(nals: seq<Nal>): (h: seq<Nal>)
    ensures |h| == 2 * |nals|
  {
    if nals == [] then [] else [[], nals[0]] + Halved(nals[1..])
  }

  lemma DigitsOfSmallSize(n: nat)
    requires n < 0x1_0000
    ensures Digits(4, n) == Digits(2, 0) + Digits(2, n)
  {
    assert Digits(1, 0) == Digits(0, 0) + [0];
    assert Digits(3, n / 256) == Digits(2, n / 65536) + [n / 256 % 256];
  }

  /** Stated for any two widths that relate as 4 and 2 do. */
  lemma {:induction false} HalvedEncoding(wide: Width, narrow: Width, nals: seq<Nal>)
    requires AllFit(narrow, nals)
    requires forall i :: 0 <= i < |nals| ==> Digits(wide, |nals[i]|) == Digits(narrow, 0) + Digits(narrow, |nals[i]|)
    ensures AllFit(narrow, Halved(nals)) && Encode(narrow, Halved(nals)) == Encode(wide, nals)
    ensures nals != [] ==> Halved(nals)[2 * |nals| - 1] == nals[|nals| - 1]
    ensures IsFraming(wide, nals, Encode(wide, nals)) ==> IsFraming(narrow, Halved(nals), Encode(wide, nals))
  {
    if nals != [] {
      HalvedEncoding(wide, narrow, nals[1..]);
      var n, t := nals[0], Halved(nals[1..]);
      assert Halved(nals) == [[]] + ([n] + t);
      EncodeCons(narrow, [], [n] + t);
      EncodeCons(narrow, n, t);
      Regroup(Digits(narrow, 0), Digits(narrow, |n|), n, Encode(narrow, t));
    }
  }

  lemma Regroup<T>(a: seq<T>, b: seq<T>, c: seq<T>, d: seq<T>)
    ensures a + [] + (b + c + d) == a + b + c + d
  {
  }

  /** Every 4-byte framed packet of units below 2^16 bytes passes the 2-byte test too, and then four bytes
      a unit too many are announced. */
  lemma FourByteFramingAlsoReadsAsTwo(s: seq<byte>)
    requires Parses(4, s) && AllFit(2, Units(4, s))
    ensures Parses(2, s) && Units(2, s) == Halved(Units(4, s))
    ensures PackageSize(s) == |Reframed(s)| + 4 * |Units(4, s)|
  {
    var nals := Units(4, s);
    FramingIsTheParse(4, nals, s);
    forall i | 0 <= i < |nals| ensures Digits(4, |nals[i]|) == Digits(2, 0) + Digits(2, |nals[i]|) {
      DigitsOfSmallSize(|nals[i]|);
    }
    HalvedEncoding(4, 2, nals);
    FramingIsTheParse(2, Halved(nals), s);
    ReframedLength(s);
  }

  // ---------------------------------------------------------------- the round trip

  /** A framed packet is read with its own width. */
  ghost predicate NoWiderGuess(w: Width, s: seq<byte>) {
    && (w < 4 ==> !Parses(4, s))
    && (w < 3 ==> !Parses(3, s))
  }

  lemma EncodingIsFramed(w: Width, nals: seq<Nal>)
    requires nals != [] && AllFit(w, nals) && forall n :: n in nals ==> Conforming(n)
    ensures Parses(w, Encode(w, nals)) && Units(w, Encode(w, nals)) == nals
  {
    assert Conforming(nals[|nals| - 1]);
    assert IsFraming(w, nals, Encode(w, nals));
    FramingIsTheParse(w, nals, Encode(w, nals));
  }

  lemma StreamStart(w: Width, nals: seq<Nal>)
    requires nals != []
    ensures |ByteStream(w, nals)| >= 3 && ByteStream(w, nals)[2] == StartCode(w)[2]
  {
    assert ByteStream(w, nals) == StartCode(w) + nals[0] + ByteStream(w, nals[1..]);
  }

  /** A wider guess leaves no room for the units: what is written is too short to decode to them. */
  lemma WiderGuessLosesUnits(w: Width, nals: seq<Nal>, s: seq<byte>)
    requires nals != [] && s == Encode(w, nals) && GuessedWidth(s).Some? && GuessedWidth(s).value > w
    ensures Decode(Reframed(s)) != Some(nals)
  {
    EncodeLength(w, nals);
    ReframedLength(s);
    var g, t := GuessedWidth(s).value, Reframed(s);
    FramingIsTheParse(g, Units(g, s), s);
    StreamStart(g, Units(g, s));
    assert |t| < Payload(nals) + 3 * |nals| + if g == 4 then 1 else 0;
    assert !(EndsUnit(t, 0) && t[2] == 1) <==> g == 4;
    if Decode(t).Some? { DecodeNeedsRoom(t); }
  }

  /** Reframing a packet and decoding the byte stream gives the packet's units back exactly when no wider
      prefix is guessed. */
  lemma RoundTripExactly(w: Width, nals: seq<Nal>)
    requires nals != [] && AllFit(w, nals) && forall n :: n in nals ==> Conforming(n)
    ensures GuessedWidth(Encode(w, nals)).Some?
    ensures Decode(Reframed(Encode(w, nals))) == Some(nals) <==> NoWiderGuess(w, Encode(w, nals))
  {
    EncodingIsFramed(w, nals);
    if NoWiderGuess(w, Encode(w, nals)) {
      DecodeByteStream(w, nals);
    } else {
      WiderGuessLosesUnits(w, nals, Encode(w, nals));
    }
  }

  /** Four-byte prefixes are never mistaken. */
  lemma FourByteRoundTrip(nals: seq<Nal>)
    requires nals != [] && AllFit(4, nals) && forall n :: n in nals ==> Conforming(n)
    ensures GuessedWidth(Encode(4, nals)).Some? && Decode(Reframed(Encode(4, nals))) == Some(nals)
  {
    RoundTripExactly(4, nals);
  }

  /** The 3-byte prefixes of two units can read as one 4-byte prefix, so the guess can be wrong: here units
      of 1 and 318 bytes are taken for a single one of 321 bytes. */
  lemma ThreeByteFramingCanBeMistaken() returns (nals: seq<Nal>)
    ensures nals != [] && AllFit(3, nals) && forall n :: n in nals ==> Conforming(n)
    ensures Parses(4, Encode(3, nals)) && GuessedWidth(Encode(3, nals)).Some?
    ensures Decode(Reframed(Encode(3, nals))) != Some(nals)
  {
    var big: Nal := seq(318, i => 65);
    nals := [[65], big];
    assert Conforming([65]) && Conforming(big);
    TwoUnitsReadAsOne(big);
    RoundTripExactly(3, nals);
  }

  lemma EncodeOne(w: Width, a: Nal)
    ensures Encode(w, [a]) == Digits(w, |a|) + a
  {
    EncodeCons(w, a, []);
    assert [a] + [] == [a];
  }

  lemma EncodeTwo(w: Width, a: Nal, b: Nal)
    ensures Encode(w, [a, b]) == Digits(w, |a|) + a + (Digits(w, |b|) + b)
  {
    EncodeOne(w, b);
    assert [a, b][1..] == [b];
  }

  lemma TwoUnitsReadAsOne(big: Nal)
    requires |big| == 318
    ensures Encode(3, [[65], big]) == Encode(4, [[0, 1, 62] + big])
    ensures Parses(4, Encode(3, [[65], big]))
  {
    var whole: Nal := [0, 1, 62] + big;
    EncodeTwo(3, [65], big);
    EncodeOne(4, whole);
    SmallPrefixes();
    assert Digits(3, 1) + [65] + (Digits(3, 318) + big) == Digits(4, 321) + whole;
    FramingIsTheParse(4, [whole], Encode(4, [whole]));
  }

  lemma SmallPrefixes()
    ensures Digits(3, 1) == [0, 0, 1] && Digits(3, 318) == [0, 1, 62] && Digits(4, 321) == [0, 0, 1, 65]
    ensures Digits(2, 1) == [0, 1] && Digits(2, 319) == [1, 63] && Digits(3, 321) == [0, 1, 65]
  {
    assert Digits(0, 0) == [] && Digits(1, 0) == [0] && Digits(1, 1) == [1] && Digits(2, 0) == [0, 0];
    assert Digits(2, 1) == [0, 1] && Digits(3, 1) == [0, 0, 1];
  }

  /** Likewise with 2-byte prefixes: units of 1 and 319 bytes are taken for a single one of 321 bytes behind a 3-byte
      prefix. */
  lemma TwoByteFramingCanBeMistaken() returns (nals: seq<Nal>)
    ensures nals != [] && AllFit(2, nals) && forall n :: n in nals ==> Conforming(n)
    ensures Parses(3, Encode(2, nals)) && GuessedWidth(Encode(2, nals)).Some?
    ensures Decode(Reframed(Encode(2, nals))) != Some(nals)
  {
    var big: Nal := seq(319, i => 65);
    nals := [[65], big];
    assert Conforming([65]) && Conforming(big);
    TwoShortUnitsReadAsOne(big);
    RoundTripExactly(2, nals);
  }

  lemma TwoShortUnitsReadAsOne(big: Nal)
    requires |big| == 319
    ensures Encode(2, [[65], big]) == Encode(3, [[1, 63] + big])
    ensures Parses(3, Encode(2, [[65], big]))
  {
    var whole: Nal := [1, 63] + big;
    EncodeTwo(2, [65], big);
    EncodeOne(3, whole);
    SmallPrefixes();
    assert Digits(2, 1) + [65] + (Digits(2, 319) + big) == Digits(3, 321) + whole;
    FramingIsTheParse(3, [whole], Encode(3, [whole]));
  }

  // ---------------------------------------------------------------- the configuration record

  /** An AVCDecoderConfigurationRecord (section 5.2.4.1 of ISO/IEC 14496-15): version, profile,
      compatibility, level and length-size bytes, the parameter sets, and anything behind them. */
  datatype ConfigRecord = ConfigRecord(head: seq<byte>, spsByte: byte, sps: seq<Nal>, pps: seq<Nal>,
      extension: seq<byte>) {
    predicate WellFormed() {
      && |head| == 5 && head[0] == 1
      && |sps| == spsByte % 32 && |pps| < 256
      && AllFit(2, sps) && AllFit(2, pps)
    }

    function Bytes(): seq<byte>
      requires WellFormed()
    {
      (head + [spsByte]) + Encode(2, sps) + ([|pps|] + Encode(2, pps) + extension)
    }

    /** Where the fields of the record lie in it. */
    lemma Layout()
      requires WellFormed()
      ensures var a, b := |Encode(2, sps)|, |Encode(2, pps)|;
              && 7 + a + b <= |Bytes()|
              && Bytes()[5] == spsByte && Bytes()[6..6 + a] == Encode(2, sps)
              && Bytes()[6 + a] == |pps| && Bytes()[7 + a..7 + a + b] == Encode(2, pps)
    {
      var s, h, a, b := Bytes(), head + [spsByte], Encode(2, sps), Encode(2, pps);
      var t: seq<byte> := [|pps|] + b + extension;
      SliceOfConcat(h, a, t);
      SliceOfConcat([|pps|], b, extension);
      SliceOfSlice(s, 6 + |a|, |s|, 1, 1 + |b|);
    }

    /** The parameter sets behind start codes, sequence parameter sets first. */
    function Stream(): seq<byte> {
      ByteStream(4, sps + pps)
    }
  }

  lemma {:induction false} ByteStreamConcat(w: Width, a: seq<Nal>, b: seq<Nal>)
    ensures ByteStream(w, a + b) == ByteStream(w, a) + ByteStream(w, b)
  {
    if a == [] {
      assert a + b == b;
    } else {
      assert (a + b)[1..] == a[1..] + b;
      ByteStreamConcat(w, a[1..], b);
    }
  }

  /** The configuration handed to the decoder decodes to the parameter sets of the record. */
  lemma ConfigRoundTrip(r: ConfigRecord)
    requires r.WellFormed() && forall n :: n in r.sps + r.pps ==> Conforming(n)
    ensures Decode(r.Stream()) == Some(r.sps + r.pps)
  {
    DecodeByteStream(4, r.sps + r.pps);
  }

  // ---------------------------------------------------------------- the formatter

  /** The size in the prefix at position q of a buffer, read from the highest byte down. */
  method ReadSize(w: Width, p: array<byte>, q: nat, ghost s: seq<byte>) returns (size: nat)
    requires q + w <= |s| <= p.Length && s == p[..|s|]
    ensures size == SizeAt(w, s, q)
  {
    SizeAtBytes(w, s[q..q + w]);
    return if w == 2 then p[q] as int * 0x100 + p[q + 1]
           else if w == 3 then p[q] as int * 0x1_0000 + p[q + 1] as int * 0x100 + p[q + 2]
           else p[q] as int * 0x100_0000 + p[q + 1] as int * 0x1_0000 + p[q + 2] as int * 0x100 + p[q + 3];
  }

  lemma SizeAtBytes(w: Width, p: seq<byte>)
    requires |p| == w
    ensures BigEndian(p) ==
              if w == 2 then p[0] as int * 0x100 + p[1]
              else if w == 3 then p[0] as int * 0x1_0000 + p[1] as int * 0x100 + p[2]
              else p[0] as int * 0x100_0000 + p[1] as int * 0x1_0000 + p[2] as int * 0x100 + p[3]
  {
    assert p[..1][..0] == [];
    assert BigEndian(p[..1]) == p[0] as int;
    assert p[..2][..1] == p[..1];
    assert BigEndian(p[..2]) == p[0] as int * 0x100 + p[1];
    if w == 2 {
      assert p[..2] == p;
    } else {
      assert p[..3][..2] == p[..2];
      assert BigEndian(p[..3]) == p[0] as int * 0x1_0000 + p[1] as int * 0x100 + p[2];
      if w == 3 { assert p[..3] == p; } else { assert p[..w - 1] == p[..3]; }
    }
  }

  /** A size read from w bytes, below 2^24, fits the width. */
  lemma SizeFits(w: Width, p: seq<byte>)
    requires |p| == w
    ensures Fits(w, BigEndian(p)) <==> w < 4 || BigEndian(p) < 0x100_0000
  {
    SizeAtBytes(w, p);
  }

  /** The three width tests, which differ in the width of the prefix and in the bound of the 4-byte one. */
  method CheckSizeInBuffer(w: Width, p: array<byte>, len: int) returns (accepted: bool)
    requires len <= p.Length
    ensures accepted <==> len >= 0 && Framed(w, p[..len])
    ensures accepted <==> len >= 0 && Parses(w, p[..len])
  {
    if len < 0 { return false; }
    ghost var s := p[..len];
    FramedIffParses(w, s);
    var q := 0;
    while q + w < len
      invariant 0 <= q && ParsesFrom(w, s, 0) == ParsesFrom(w, s, q)
      decreases len - q
    {
      var size := ReadSize(w, p, q, s);
      SizeFits(w, s[q..q + w]);
      assert ParsesFrom(w, s, q) <==>
        && Fits(w, size) && q + size + w <= len
        && (q + size + w == len || ParsesFrom(w, s, q + size + w));
      if w == 4 && size >= 0x100_0000 {
        return false;
      }
      if q + size + w == len {
        return true;
      }
      q := q + size + w;
    }
    return false;
  }

  method MemCpy(dst: array<byte>, d: nat, src: array<byte>, s: nat, n: nat)
    requires dst != src && d + n <= dst.Length && s + n <= src.Length
    modifies dst
    ensures dst[..] == old(dst[..])[..d] + src[s..s + n] + old(dst[..])[d + n..]
  {
    forall i | 0 <= i < n {
      dst[d + i] := src[s + i];
    }
  }

  method PutStartCode(w: Width, dst: array<byte>, d: nat)
    requires d + StartCodeLength(w) <= dst.Length
    modifies dst
    ensures dst[..] == old(dst[..])[..d] + StartCode(w) + old(dst[..])[d + StartCodeLength(w)..]
  {
    dst[d], dst[d + 1], dst[d + 2] := 0, 0, 1;
    if w != 3 {
      dst[d + 2], dst[d + 3] := 0, 1;
    }
  }

  /** A start code and n bytes of src behind it, written behind what has already been written over orig. */
  method PutUnit(w: Width, dst: array<byte>, d: nat, src: array<byte>, s: nat, n: nat,
                 ghost orig: seq<byte>, ghost written: seq<byte>)
    returns (d': nat)
    requires dst != src && d + StartCodeLength(w) + n <= dst.Length && s + n <= src.Length
    requires |orig| == dst.Length && |written| == d && dst[..] == written + orig[d..]
    modifies dst
    ensures d' == d + StartCodeLength(w) + n
    ensures dst[..] == written + (StartCode(w) + src[s..s + n]) + orig[d'..]
  {
    ghost var code, unit := StartCode(w), src[s..s + n];
    PutStartCode(w, dst, d);
    Overwrite(orig, written, code);
    d' := d + StartCodeLength(w);
    MemCpy(dst, d', src, s, n);
    Overwrite(orig, written + code, unit);
    ConcatIsAssociative(written, code, unit);
    d' := d' + n;
  }

  class AVCFormat {
    var avccFound: bool
    var codecMeta: array?<byte>
    var codecMetaSize: nat

    constructor ()
      ensures !avccFound && codecMeta == null && codecMetaSize == 0
    {
      avccFound, codecMeta, codecMetaSize := false, null, 0;
    }

    method GetPackageSize(input: array<byte>, inSize: nat) returns (r: nat)
      requires inSize <= input.Length
      ensures r == if avccFound then PackageSize(input[..inSize]) else 0
    {
      if !avccFound {
        return 0;
      }
      ghost var s := input[..inSize];
      var two := CheckSizeInBuffer(2, input, inSize);
      if two {
        var newLen, src := 0, 0;
        ghost var count := 0;
        while src + 2 < inSize
          invariant 0 <= src <= inSize && (src == inSize || ParsesFrom(2, s, src))
          invariant count + |UnitsFrom(2, s, src)| == |UnitsFrom(2, s, 0)|
          invariant newLen == src + 2 * count
          decreases inSize - src
        {
          var nalsize := ReadSize(2, input, src, s);
          WalkOn(2, s, src, src + nalsize + 2, [], s[src + 2..src + nalsize + 2]);
          count := count + 1;
          src := src + nalsize + 2;
          newLen := newLen + nalsize + 4;
        }
        return newLen;
      }
      return inSize;
    }

    /** The body of the loops below: the unit announced at src goes to dest behind a start code. */
    method MoveUnit(w: Width, input: array<byte>, src: nat, out: array<byte>, dest: nat,
                    ghost s: seq<byte>, ghost orig: seq<byte>, ghost done: seq<Nal>)
      returns (src': nat, dest': nat, ghost n: Nal)
      requires input != out && |s| <= input.Length && s == input[..|s|] && ParsesFrom(w, s, src)
      requires |orig| == out.Length && dest + StartCodeLength(w) + SizeAt(w, s, src) <= out.Length
      requires |ByteStream(w, done)| == dest && out[..] == ByteStream(w, done) + orig[dest..]
      modifies out
      ensures src < src' == src + w + |n| <= |s| && (src' == |s| || ParsesFrom(w, s, src'))
      ensures dest' == dest + StartCodeLength(w) + |n| <= out.Length
      ensures done + UnitsFrom(w, s, src) == done + [n] + UnitsFrom(w, s, src')
      ensures |ByteStream(w, done + [n])| == dest' && out[..] == ByteStream(w, done + [n]) + orig[dest'..]
    {
      var nalsize := ReadSize(w, input, src, s);
      src' := src + w + nalsize;
      n := s[src + w..src'];
      SliceOfBuffer(input, |s|, src + w, src');
      WalkOn(w, s, src, src', done, n);
      ByteStreamAppend(w, done, n);
      assert input[src + w..src + w + nalsize] == n;
      dest' := PutUnit(w, out, dest, input, src + w, nalsize, orig, ByteStream(w, done));
      assert ByteStream(w, done) + (StartCode(w) + n) == ByteStream(w, done + [n]);
    }

    /** The loops for 4- and 3-byte prefixes: each prefix is overwritten by a start code of its width. */
    method ReplacePrefixes(w: Width, input: array<byte>, inSize: nat, out: array<byte>)
      requires w > 2 && inSize <= input.Length && inSize <= out.Length && input != out
      requires Parses(w, input[..inSize])
      modifies out
      ensures |ByteStream(w, Units(w, input[..inSize]))| == inSize
      ensures out[..] == ByteStream(w, Units(w, input[..inSize])) + old(out[..])[inSize..]
    {
      ghost var s, orig := input[..inSize], out[..];
      ghost var done: seq<Nal>, n := [], [];
      var dest, src := 0, 0;
      while dest + w < inSize
        invariant 0 <= dest == src <= inSize && (src == inSize || ParsesFrom(w, s, src))
        invariant done + UnitsFrom(w, s, src) == UnitsFrom(w, s, 0)
        invariant |ByteStream(w, done)| == dest && out[..] == ByteStream(w, done) + orig[dest..]
        decreases inSize - dest
      {
        src, dest, n := MoveUnit(w, input, src, out, dest, s, orig, done);
        done := done + [n];
      }
      assert done == UnitsFrom(w, s, 0);
    }

    /** The loop for 2-byte prefixes: each one grows to a four-byte start code. */
    method ExpandPrefixes(input: array<byte>, inSize: nat, out: array<byte>) returns (newLen: nat)
      requires inSize <= input.Length && input != out && Parses(2, input[..inSize])
      requires inSize + 2 * |Units(2, input[..inSize])| <= out.Length
      modifies out
      ensures newLen == |ByteStream(2, Units(2, input[..inSize]))| <= out.Length
      ensures out[..] == ByteStream(2, Units(2, input[..inSize])) + old(out[..])[newLen..]
    {
      ghost var s, orig := input[..inSize], out[..];
      ghost var done: seq<Nal>, n := [], [];
      var src := 0;
      newLen := 0;
      while src + 2 < inSize
        invariant 0 <= src <= inSize && (src == inSize || ParsesFrom(2, s, src))
        invariant done + UnitsFrom(2, s, src) == UnitsFrom(2, s, 0)
        invariant |ByteStream(2, done)| == newLen == src + 2 * |done| <= out.Length
        invariant out[..] == ByteStream(2, done) + orig[newLen..]
        decreases inSize - src
      {
        assert |done| + |UnitsFrom(2, s, src)| == |UnitsFrom(2, s, 0)|;
        src, newLen, n := MoveUnit(2, input, src, out, newLen, s, orig, done);
        done := done + [n];
      }
      assert done == UnitsFrom(2, s, 0);
    }

    method FormatPackage(input: array<byte>, inSize: nat, out: array<byte>) returns (r: int)
      requires inSize <= input.Length && input != out
      requires avccFound ==> PackageSize(input[..inSize]) <= out.Length
      modifies out
      ensures !avccFound ==> r == -1 && out[..] == old(out[..])
      ensures avccFound && GuessedWidth(input[..inSize]).None? ==> r == inSize && out[..] == old(out[..])
      ensures avccFound && GuessedWidth(input[..inSize]).Some? ==>
                0 <= r <= out.Length && out[..r] == Reframed(input[..inSize]) && out[r..] == old(out[r..])
    {
      if !avccFound {
        return -1;
      }
      ghost var s := input[..inSize];
      if GuessedWidth(s).Some? { PackageSizeSuffices(s); }
      var four := CheckSizeInBuffer(4, input, inSize);
      if four {
        ReplacePrefixes(4, input, inSize, out);
      } else {
        var three := CheckSizeInBuffer(3, input, inSize);
        if three {
          ReplacePrefixes(3, input, inSize, out);
        } else {
          var two := CheckSizeInBuffer(2, input, inSize);
          if two {
            r := ExpandPrefixes(input, inSize, out);
            return r;
          }
        }
      }
      return inSize;
    }

    /** The body of the loop below: the unit of index i, encoded at p, goes to meta behind a start code. */
    method AppendUnit(input: array<byte>, p: nat, meta: array<byte>, headerLen: nat, ghost s: seq<byte>,
                      ghost orig: seq<byte>, ghost before: seq<byte>, ghost nals: seq<Nal>, ghost i: nat,
                        ghost end: nat)
      returns (p': nat, headerLen': nat)
      requires input != meta && |s| == input.Length && s == input[..|s|]
      requires i < |nals| && AllFit(2, nals) && p <= end <= |s| && s[p..end] == Encode(2, nals[i..])
      requires |orig| == meta.Length && headerLen + |ByteStream(4, nals[i..])| <= meta.Length
      requires |before + ByteStream(4, nals[..i])| == headerLen
      requires meta[..] == before + ByteStream(4, nals[..i]) + orig[headerLen..]
      modifies meta
      ensures p' <= end && s[p'..end] == Encode(2, nals[i + 1..])
      ensures headerLen' + |ByteStream(4, nals[i + 1..])| == headerLen + |ByteStream(4, nals[i..])|
      ensures |before + ByteStream(4, nals[..i + 1])| == headerLen'
      ensures meta[..] == before + ByteStream(4, nals[..i + 1]) + orig[headerLen'..]
    {
      ghost var n := nals[i];
      assert nals[i..][1..] == nals[i + 1..] && nals[..i + 1] == nals[..i] + [n];
      EncodedUnit(2, nals[i..], s, p);
      ByteStreamAppend(4, nals[..i], n);
      ghost var written := before + ByteStream(4, nals[..i]);
      ConcatIsAssociative(before, ByteStream(4, nals[..i]), StartCode(4) + n);
      var nalsize := ReadSize(2, input, p, s);
      SliceOfBuffer(input, |s|, p + 2, p + 2 + nalsize);
      headerLen' := PutUnit(4, meta, headerLen, input, p + 2, nalsize, orig, written);
      p' := p + nalsize + 2;
    }

    /** One of the two loops of formatCodecMeta: cnt units behind 2-byte sizes at p, appended at headerLen. */
    method AppendUnits(input: array<byte>, p: nat, cnt: nat, meta: array<byte>, headerLen: nat,
                       ghost nals: seq<Nal>, ghost before: seq<byte>)
      returns (p': nat, headerLen': nat)
      requires cnt == |nals| && AllFit(2, nals)
      requires p + |Encode(2, nals)| <= input.Length && input[p..p + |Encode(2, nals)|] == Encode(2, nals)
      requires input != meta && headerLen + |ByteStream(4, nals)| <= meta.Length && meta[..headerLen] == before
      modifies meta
      ensures p' == p + |Encode(2, nals)| && headerLen' == headerLen + |ByteStream(4, nals)|
      ensures meta[..headerLen'] == before + ByteStream(4, nals)
    {
      p', headerLen' := p, headerLen;
      ghost var s, orig := input[..input.Length], meta[..];
      ghost var end := p + |Encode(2, nals)|;
      assert nals[0..] == nals;
      assert s[p..end] == input[p..end];
      for i := 0 to cnt
        invariant p' <= end && s[p'..end] == Encode(2, nals[i..])
        invariant headerLen' + |ByteStream(4, nals[i..])| == headerLen + |ByteStream(4, nals)|
        invariant |before + ByteStream(4, nals[..i])| == headerLen'
        invariant meta[..] == before + ByteStream(4, nals[..i]) + orig[headerLen'..]
      {
        p', headerLen' := AppendUnit(input, p', meta, headerLen', s, orig, before, nals, i, end);
      }
      assert nals[..cnt] == nals;
      assert |s[p'..end]| == 0;
    }

    /** Whether the record is taken: present, of acceptable size, and of version 1. */
    static predicate Accepts(input: array?<byte>, inSize: int)
      requires input != null ==> inSize <= input.Length
      reads if input == null then {} else {input}
    {
      input != null && 10 <= inSize <= HDR_BUF_SIZE && input[0] == 1
    }

    /** The two loops of formatCodecMeta in turn. */
    method CopyParameterSets(input: array<byte>, inSize: nat, meta: array<byte>, ghost record: ConfigRecord)
      returns (headerLen: nat)
      requires 7 <= inSize <= input.Length && input != meta
      requires record.WellFormed() && input[..inSize] == record.Bytes() && |record.Stream()| <= meta.Length
      modifies meta
      ensures headerLen == |record.Stream()| && meta[..headerLen] == record.Stream()
    {
      ghost var sps, pps := record.sps, record.pps;
      ghost var a, b := |Encode(2, sps)|, |Encode(2, pps)|;
      FieldsOf(input, inSize, record);
      ByteStreamConcat(4, sps, pps);
      var cnt := input[5] % 32;
      var p;
      p, headerLen := AppendUnits(input, 6, cnt, meta, 0, sps, []);
      assert [] + ByteStream(4, sps) == ByteStream(4, sps);
      cnt := input[p];
      p := p + 1;
      p, headerLen := AppendUnits(input, p, cnt, meta, headerLen, pps, ByteStream(4, sps));
    }

    static lemma FieldsOf(input: array<byte>, inSize: nat, record: ConfigRecord)
      requires inSize <= input.Length && record.WellFormed() && input[..inSize] == record.Bytes()
      ensures var a, b := |Encode(2, record.sps)|, |Encode(2, record.pps)|;
              && 7 + a + b <= inSize
              && input[5] == record.spsByte && input[6..6 + a] == Encode(2, record.sps)
              && input[6 + a] == |record.pps| && input[7 + a..7 + a + b] == Encode(2, record.pps)
    {
      var s, a, b := record.Bytes(), |Encode(2, record.sps)|, |Encode(2, record.pps)|;
      record.Layout();
      SliceOfBuffer(input, inSize, 6, 6 + a);
      SliceOfBuffer(input, inSize, 7 + a, 7 + a + b);
      assert input[5] == s[5] && input[6 + a] == s[6 + a];
    }

    method FormatCodecMeta(input: array?<byte>, inSize: int, ghost record: ConfigRecord) returns (status: Status)
      requires input != null ==> inSize <= input.Length
      requires Accepts(input, inSize) ==>
                 record.WellFormed() && input[..inSize] == record.Bytes() && |record.Stream()| <= HDR_BUF_SIZE
      modifies this
      ensures status == OK <==> Accepts(input, inSize) && |record.Stream()| < HDR_BUF_SIZE
      ensures avccFound == (old(avccFound) || status == OK)
      ensures Accepts(input, inSize) ==>
                codecMeta != null && codecMetaSize <= codecMeta.Length && codecMeta[..codecMetaSize] == record.Stream()
    {
      if input == null || inSize < 10 || inSize > HDR_BUF_SIZE {
        return BAD_VALUE;
      }
      var meta := new byte[HDR_BUF_SIZE];
      codecMeta := meta;
      if input[0] != 1 {
        return BAD_VALUE;
      }
      var headerLen := CopyParameterSets(input, inSize, meta, record);
      codecMetaSize := headerLen;
      if headerLen >= HDR_BUF_SIZE {
        return BAD_VALUE;
      }
      avccFound := true;
      return OK;
    }
  }
}
