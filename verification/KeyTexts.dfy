/** Base64 of 32-byte secrets: the daemon's printer and the store's key reader, whose
    32-bit accumulator lets its high bits fall away (crates/vs-daemon/src/daemon/webentry.rs,
    crates/vs-store/src/auth.rs; RFC 4648, sections 4 and 5). */
module KeyTexts {

  import opened Results
  import T = Text

  type Byte = n: nat | n < 256
  type Sextet = n: nat | n < 64

  const TWO32: nat := 0x1_0000_0000
  const KEY_LEN: nat := 32

  // -------------------------------------------------------------- alphabets

  /** The standard alphabet, or the one safe in addresses. */
  function CharOf(n: Sextet, url: bool): char
  {
    if n < 26 then 'A' + n as char
    else if n < 52 then 'a' + (n - 26) as char
    else if n < 62 then '0' + (n - 52) as char
    else if n == 62 then (if url then '-' else '+')
    else (if url then '_' else '/')
  }

  function SextetOf(c: char): Option<Sextet>
  {
    if 'A' <= c <= 'Z' then Some(c as nat - 'A' as nat)
    else if 'a' <= c <= 'z' then Some(c as nat - 'a' as nat + 26)
    else if '0' <= c <= '9' then Some(c as nat - '0' as nat + 52)
    else if c == '+' then Some(62)
    else if c == '/' then Some(63)
    else None
  }

  lemma AlphabetInverse(n: Sextet, c: char)
    ensures SextetOf(CharOf(n, false)) == Some(n)
    ensures SextetOf(c).Some? ==> CharOf(SextetOf(c).value, false) == c
  {
  }

  /** The two alphabets differ in their last two characters only. */
  lemma AlphabetsDiffer(n: Sextet)
    ensures n < 62 ==> CharOf(n, true) == CharOf(n, false)
    ensures CharOf(62, true) == '-' && CharOf(63, true) == '_'
    ensures CharOf(62, false) == '+' && CharOf(63, false) == '/'
    ensures CharOf(0, true) == 'A' && CharOf(26, true) == 'a' && CharOf(52, true) == '0'
  {
  }

  // --------------------------------------------------------- bytes and sextets

  // How three bytes share their bits among four sextets, and back.

  function First(x: nat): nat { x / 4 }
  function Second(x: nat, y: nat): nat { x % 4 * 16 + y / 16 }
  function Third(y: nat, z: nat): nat { y % 16 * 4 + z / 64 }
  function Fourth(z: nat): nat { z % 64 }

  function Byte0(p: nat, q: nat): nat { p * 4 + q / 16 }
  function Byte1(q: nat, r: nat): nat { q % 16 * 16 + r / 4 }
  function Byte2(r: nat, t: nat): nat { r % 4 * 64 + t }

  /** Three bytes become four sextets; a shorter end is filled with zero bits. */
  function ToSextets(b: seq<Byte>): (s: seq<Sextet>)
    ensures |s| == (4 * |b| + 2) / 3
  {
    if |b| == 0 then []
    else if |b| == 1 then [First(b[0]), Second(b[0], 0)]
    else if |b| == 2 then [First(b[0]), Second(b[0], b[1]), Third(b[1], 0)]
    else [First(b[0]), Second(b[0], b[1]), Third(b[1], b[2]), Fourth(b[2])] + ToSextets(b[3..])
  }

  function FromSextets(s: seq<Sextet>): seq<Byte>
  {
    if |s| < 2 then []
    else if |s| == 2 then [Byte0(s[0], s[1])]
    else if |s| == 3 then [Byte0(s[0], s[1]), Byte1(s[1], s[2])]
    else [Byte0(s[0], s[1]), Byte1(s[1], s[2]), Byte2(s[2], s[3])] + FromSextets(s[4..])
  }

  lemma ThreeBytes(x: Byte, y: Byte, z: Byte)
    ensures var p, q, r, t := First(x), Second(x, y), Third(y, z), Fourth(z);
            Byte0(p, q) == x && Byte1(q, r) == y && Byte2(r, t) == z
  {
  }

  lemma FourSextets(p: Sextet, q: Sextet, r: Sextet, t: Sextet)
    ensures var x, y, z := Byte0(p, q), Byte1(q, r), Byte2(r, t);
            First(x) == p && Second(x, y) == q && Third(y, z) == r && Fourth(z) == t
  {
  }

  /** What is read is what was printed, whatever the number of bytes. */
  lemma {:induction false} SextetsRoundTrip(b: seq<Byte>)
    ensures FromSextets(ToSextets(b)) == b
    decreases |b|
  {
    hide *;
    if |b| >= 3 {
      ThreeBytes(b[0], b[1], b[2]);
      SextetsRoundTrip(b[3..]);
      assert b == [b[0], b[1], b[2]] + b[3..];
      PrintGroup(b[0], b[1], b[2], b[3..]);
      GroupSextets(b[0], b[1], b[2]);
      ReadGroup(First(b[0]), Second(b[0], b[1]), Third(b[1], b[2]), Fourth(b[2]), ToSextets(b[3..]));
    } else {
      ShortRoundTrip(b);
    }
  }

  lemma GroupSextets(x: Byte, y: Byte, z: Byte)
    ensures First(x) < 64 && Second(x, y) < 64 && Third(y, z) < 64 && Fourth(z) < 64
  {
  }

  lemma PrintTwo(x: Byte, y: Byte)
    ensures ToSextets([x, y]) == [First(x), Second(x, y), Third(y, 0)]
  {
    hide First, Second, Third;
  }

  lemma PrintOne(x: Byte)
    ensures ToSextets([x]) == [First(x), Second(x, 0)]
  {
    hide First, Second;
  }

  lemma ReadThree(p: Sextet, q: Sextet, r: Sextet)
    ensures FromSextets([p, q, r]) == [Byte0(p, q), Byte1(q, r)]
  {
    hide Byte0, Byte1;
  }

  lemma ReadTwo(p: Sextet, q: Sextet)
    ensures FromSextets([p, q]) == [Byte0(p, q)]
  {
    hide Byte0;
  }

  lemma ShortRoundTrip(b: seq<Byte>)
    requires |b| < 3
    ensures FromSextets(ToSextets(b)) == b
  {
    hide *;
    if |b| == 2 {
      ThreeBytes(b[0], b[1], 0);
      GroupSextets(b[0], b[1], 0);
      assert b == [b[0], b[1]];
      PrintTwo(b[0], b[1]);
      ReadThree(First(b[0]), Second(b[0], b[1]), Third(b[1], 0));
    } else if |b| == 1 {
      ThreeBytes(b[0], 0, 0);
      GroupSextets(b[0], 0, 0);
      assert b == [b[0]];
      PrintOne(b[0]);
      ReadTwo(First(b[0]), Second(b[0], 0));
    } else {
      NothingRead();
    }
  }

  lemma NothingRead()
    ensures FromSextets(ToSextets([])) == []
  {
  }

  lemma ReadGroup(p: Sextet, q: Sextet, r: Sextet, t: Sextet, rest: seq<Sextet>)
    ensures FromSextets([p, q, r, t] + rest) == [Byte0(p, q), Byte1(q, r), Byte2(r, t)] + FromSextets(rest)
  {
    hide Byte0, Byte1, Byte2;
    assert ([p, q, r, t] + rest)[4..] == rest;
  }

  /** The bits of a short end that no byte uses, cleared. */
  function Canonical(s: seq<Sextet>): (c: seq<Sextet>)
    ensures |c| == |s|
  {
    if |s| % 4 == 2 then s[|s|-1 := s[|s|-1] / 16 * 16]
    else if |s| % 4 == 3 then s[|s|-1 := s[|s|-1] / 4 * 4]
    else s
  }

  /** What is printed again is the text without its unused bits. */
  lemma {:induction false} BytesRoundTrip(s: seq<Sextet>)
    requires |s| % 4 != 1
    ensures ToSextets(FromSextets(s)) == Canonical(s)
    decreases |s|
  {
    hide *;
    if |s| >= 4 {
      BytesRoundTrip(s[4..]);
      FourSextets(s[0], s[1], s[2], s[3]);
      GroupBytes(s[0], s[1], s[2], s[3]);
      assert s == [s[0], s[1], s[2], s[3]] + s[4..];
      ReadGroup(s[0], s[1], s[2], s[3], s[4..]);
      PrintGroup(Byte0(s[0], s[1]), Byte1(s[1], s[2]), Byte2(s[2], s[3]), FromSextets(s[4..]));
      CanonicalGroup([s[0], s[1], s[2], s[3]], s[4..]);
    } else {
      ShortBytes(s);
    }
  }

  lemma GroupBytes(p: Sextet, q: Sextet, r: Sextet, t: Sextet)
    ensures Byte0(p, q) < 256 && Byte1(q, r) < 256 && Byte2(r, t) < 256
  {
  }

  lemma ShortBytes(s: seq<Sextet>)
    requires |s| < 4 && |s| != 1
    ensures ToSextets(FromSextets(s)) == Canonical(s)
  {
    hide *;
    if |s| == 3 {
      FourSextets(s[0], s[1], s[2] / 4 * 4, 0);
      ClearedBits(s[0], s[1], s[2]);
      assert s == [s[0], s[1], s[2]];
      ReadThree(s[0], s[1], s[2]);
      PrintTwo(Byte0(s[0], s[1]), Byte1(s[1], s[2]));
      CanonicalThree(s[0], s[1], s[2]);
    } else if |s| == 2 {
      ClearedBits(s[0], s[1], 0);
      assert s == [s[0], s[1]];
      ReadTwo(s[0], s[1]);
      PrintOne(Byte0(s[0], s[1]));
      CanonicalTwo(s[0], s[1]);
    } else {
      NothingRead();
      NothingCanonical();
    }
  }

  lemma ClearedBits(p: Sextet, q: Sextet, r: Sextet)
    ensures var x, y := Byte0(p, q), Byte1(q, r);
            && x < 256 && y < 256
            && First(x) == p && Second(x, y) == q && Third(y, 0) == r / 4 * 4 && Second(x, 0) == q / 16 * 16
  {
  }

  lemma CanonicalThree(p: Sextet, q: Sextet, r: Sextet)
    ensures Canonical([p, q, r]) == [p, q, r / 4 * 4]
  {
  }

  lemma CanonicalTwo(p: Sextet, q: Sextet)
    ensures Canonical([p, q]) == [p, q / 16 * 16]
  {
  }

  lemma NothingCanonical()
    ensures ToSextets(FromSextets([])) == Canonical([])
  {
  }

  lemma PrintGroup(x: Byte, y: Byte, z: Byte, rest: seq<Byte>)
    ensures ToSextets([x, y, z] + rest) == [First(x), Second(x, y), Third(y, z), Fourth(z)] + ToSextets(rest)
  {
    hide First, Second, Third, Fourth;
    assert ([x, y, z] + rest)[3..] == rest;
  }

  lemma CanonicalGroup(group: seq<Sextet>, rest: seq<Sextet>)
    requires |group| == 4
    ensures Canonical(group + rest) == group + Canonical(rest)
  {
    var s := group + rest;
    assert |s| % 4 == |rest| % 4;
    if |rest| % 4 >= 2 {
      assert s[|s|-1] == rest[|rest|-1];
      var v := if |rest| % 4 == 2 then rest[|rest|-1] / 16 * 16 else rest[|rest|-1] / 4 * 4;
      assert (group + rest)[|s|-1 := v] == group + rest[|rest|-1 := v];
    }
  }

  // ------------------------------------------------------------- the printer

  function Text(s: seq<Sextet>, url: bool): (t: string)
    ensures |t| == |s| && forall i :: 0 <= i < |s| ==> t[i] == CharOf(s[i], url)
  {
    seq(|s|, i requires 0 <= i < |s| => CharOf(s[i], url))
  }

  function Base64(b: seq<Byte>, url: bool): string { Text(ToSextets(b), url) }

  /** Byte `i` of the chunk, or zero past its end. */
  function ByteAt(chunk: seq<Byte>, i: nat): nat { if i < |chunk| then chunk[i] else 0 }

  /** The chunk's bytes side by side in 24 bits. */
  function Packed(chunk: seq<Byte>): nat
  {
    ByteAt(chunk, 0) * 65536 + ByteAt(chunk, 1) * 256 + ByteAt(chunk, 2)
  }

  /** Two to the power 18 less six per place. */
  function PlaceValue(i: nat): (d: nat)
    requires i < 4
    ensures d > 0
  {
    if i == 0 then 262144 else if i == 1 then 4096 else if i == 2 then 64 else 1
  }

  lemma PackedSextets(chunk: seq<Byte>)
    requires 1 <= |chunk| <= 3
    ensures |ToSextets(chunk)| == |chunk| + 1
    ensures forall i :: 0 <= i <= |chunk| ==> Packed(chunk) / PlaceValue(i) % 64 == ToSextets(chunk)[i]
  {
    hide *;
    var x, y, z: Byte := chunk[0], if |chunk| > 1 then chunk[1] else 0, if |chunk| > 2 then chunk[2] else 0;
    PackedIs(chunk, x, y, z);
    PackedFirst(x, y, z);
    PackedSecond(x, y, z);
    PackedThird(x, y, z);
    PackedFourth(x, y, z);
    Places();
    if |chunk| == 3 {
      PrintThree(x, y, z);
      assert chunk == [x, y, z];
    } else if |chunk| == 2 {
      PrintTwo(x, y);
      assert chunk == [x, y];
    } else {
      PrintOne(x);
      assert chunk == [x];
    }
  }

  lemma PackedIs(chunk: seq<Byte>, x: Byte, y: Byte, z: Byte)
    requires 1 <= |chunk| <= 3 && x == chunk[0]
    requires y == (if |chunk| > 1 then chunk[1] else 0) && z == (if |chunk| > 2 then chunk[2] else 0)
    ensures Packed(chunk) == x as nat * 65536 + y as nat * 256 + z
  {
  }

  lemma Places()
    ensures PlaceValue(0) == 262144 && PlaceValue(1) == 4096 && PlaceValue(2) == 64 && PlaceValue(3) == 1
  {
  }

  lemma PackedFirst(x: Byte, y: Byte, z: Byte)
    ensures (x as nat * 65536 + y as nat * 256 + z) / 262144 % 64 == First(x)
  {
  }

  lemma PackedSecond(x: Byte, y: Byte, z: Byte)
    ensures (x as nat * 65536 + y as nat * 256 + z) / 4096 % 64 == Second(x, y)
  {
    var high, low := x as nat * 16 + y / 16, y % 16 * 256 + z;
    assert x as nat * 65536 + y as nat * 256 + z == high * 4096 + low;
    Quotient(high, low);
    SecondLow(x, y);
  }

  lemma Quotient(high: nat, low: nat)
    requires low < 4096
    ensures (high * 4096 + low) / 4096 == high
  {
  }

  lemma SecondLow(x: Byte, y: Byte)
    ensures (x as nat * 16 + y / 16) % 64 == Second(x, y)
  {
    assert x as nat * 16 + y / 16 == x / 4 * 64 + Second(x, y);
  }

  lemma PackedThird(x: Byte, y: Byte, z: Byte)
    ensures (x as nat * 65536 + y as nat * 256 + z) / 64 % 64 == Third(y, z)
  {
    assert x as nat * 65536 + y as nat * 256 + z == (x as nat * 1024 + y as nat * 4 + z / 64) * 64 + z % 64;
  }

  lemma PackedFourth(x: Byte, y: Byte, z: Byte)
    ensures (x as nat * 65536 + y as nat * 256 + z) / 1 % 64 == Fourth(z)
  {
  }

  lemma ToSextetsChunk(b: seq<Byte>, n: nat)
    requires n == (if |b| >= 3 then 3 else |b|)
    ensures ToSextets(b) == ToSextets(b[..n]) + ToSextets(b[n..])
  {
    hide *;
    NoSextets();
    if |b| >= 3 {
      FrontThree(b);
      GroupSplit(b[0], b[1], b[2], b[3..]);
    } else {
      assert b[..n] == b;
      assert b[n..] == [];
      assert ToSextets(b) + [] == ToSextets(b);
    }
  }

  lemma FrontThree<T>(b: seq<T>)
    requires |b| >= 3
    ensures b[..3] == [b[0], b[1], b[2]] && b == [b[0], b[1], b[2]] + b[3..]
  {
  }

  lemma GroupSplit(x: Byte, y: Byte, z: Byte, rest: seq<Byte>)
    ensures ToSextets([x, y, z] + rest) == ToSextets([x, y, z]) + ToSextets(rest)
  {
    PrintGroup(x, y, z, rest);
    PrintThree(x, y, z);
  }

  lemma PrintThree(x: Byte, y: Byte, z: Byte)
    ensures ToSextets([x, y, z]) == [First(x), Second(x, y), Third(y, z), Fourth(z)]
  {
    hide First, Second, Third, Fourth;
    assert [x, y, z][3..] == [];
  }

  lemma NoSextets()
    ensures ToSextets([]) == []
  {
  }

  method Base64Url(bytes: seq<Byte>) returns (out: string)
    ensures out == Base64(bytes, true)
  {
    hide ToSextets, Packed, CharOf;
    out := "";
    var i := 0;
    while i < |bytes|
      invariant 0 <= i <= |bytes|
      invariant out + Base64(bytes[i..], true) == Base64(bytes, true)
    {
      var n := if |bytes| - i >= 3 then 3 else |bytes| - i;
      var chunk := bytes[i..i+n];
      var chars := ChunkChars(chunk);
      assert bytes[i..][..n] == chunk && bytes[i..][n..] == bytes[i+n..];
      ToSextetsChunk(bytes[i..], n);
      TextConcat(ToSextets(chunk), ToSextets(bytes[i+n..]), true);
      T.Append(out, chars, Base64(bytes[i+n..], true));
      out := out + chars;
      i := i + n;
    }
    NoBytes();
    assert out + [] == out;
  }

  lemma NoBytes()
    ensures Base64([], true) == []
  {
  }

  lemma TextConcat(a: seq<Sextet>, b: seq<Sextet>, url: bool)
    ensures Text(a + b, url) == Text(a, url) + Text(b, url)
  {
    hide CharOf;
  }

  method ChunkChars(chunk: seq<Byte>) returns (out: string)
    requires 1 <= |chunk| <= 3
    ensures out == Base64(chunk, true)
  {
    var acc := 0;
    for i := 0 to |chunk|
      invariant acc == Packed(chunk[..i])
    {
      acc := acc + chunk[i] as nat * (if i == 0 then 65536 else if i == 1 then 256 else 1);
    }
    assert chunk[..|chunk|] == chunk;
    PackedSextets(chunk);
    out := "";
    for i := 0 to |chunk| + 1
      invariant out == Text(ToSextets(chunk)[..i], true)
    {
      out := out + [CharOf(acc / PlaceValue(i) % 64, true)];
    }
    assert ToSextets(chunk)[..|chunk|+1] == ToSextets(chunk);
  }

  // -------------------------------------------------------------- the reader

  function Power(bits: nat): (p: nat)
    requires bits <= 6 && bits % 2 == 0
    ensures p > 0
  {
    if bits == 0 then 1 else if bits == 2 then 4 else if bits == 4 then 16 else 64
  }

  /** Decoding sextet by sextet with the left-over bits in full. */
  function Stream(low: nat, bits: nat, s: seq<Sextet>): seq<Byte>
    requires bits <= 6 && bits % 2 == 0 && low < Power(bits)
    decreases |s|
  {
    if s == [] then []
    else if bits + 6 < 8 then Stream(low * 64 + s[0], bits + 6, s[1..])
    else
      var v, left := low * 64 + s[0], bits + 6 - 8;
      StreamByte(low, bits, s[0]);
      [v / Power(left)] + Stream(v % Power(left), left, s[1..])
  }

  lemma StreamByte(low: nat, bits: nat, s: Sextet)
    requires 2 <= bits <= 6 && bits % 2 == 0 && low < Power(bits)
    ensures (low * 64 + s) / Power(bits - 2) < 256
  {
  }

  lemma StreamSkip(s: Sextet, rest: seq<Sextet>)
    ensures Stream(0, 0, [s] + rest) == Stream(s, 6, rest)
  {
    assert ([s] + rest)[1..] == rest;
  }

  lemma StreamTakes(low: nat, bits: nat, s: Sextet, rest: seq<Sextet>)
    requires 2 <= bits <= 6 && bits % 2 == 0 && low < Power(bits)
    ensures var v, p := low * 64 + s, Power(bits - 2);
            v / p < 256 && Stream(low, bits, [s] + rest) == [v / p] + Stream(v % p, bits - 2, rest)
  {
    StreamByte(low, bits, s);
    assert ([s] + rest)[1..] == rest;
  }

  lemma StreamEnds(low: nat, bits: nat)
    requires bits <= 6 && bits % 2 == 0 && low < Power(bits)
    ensures Stream(low, bits, []) == []
  {
  }

  lemma StreamTwo(p: Sextet, q: Sextet, rest: seq<Sextet>)
    ensures Stream(0, 0, [p, q] + rest) == [Byte0(p, q)] + Stream(q % 16, 4, rest)
  {
    hide Stream;
    assert [p, q] + rest == [p] + ([q] + rest);
    StreamSkip(p, [q] + rest);
    StreamTakes(p, 6, q, rest);
    FirstByte(p, q);
  }

  lemma FirstByte(p: Sextet, q: Sextet)
    ensures (p * 64 + q) / Power(4) == Byte0(p, q) && (p * 64 + q) % Power(4) == q % 16
  {
  }

  lemma StreamThree(p: Sextet, q: Sextet, r: Sextet, rest: seq<Sextet>)
    ensures Stream(0, 0, [p, q, r] + rest) == [Byte0(p, q), Byte1(q, r)] + Stream(r % 4, 2, rest)
  {
    hide Stream, Byte0;
    assert [p, q, r] + rest == [p, q] + ([r] + rest);
    StreamTwo(p, q, [r] + rest);
    StreamTakes(q % 16, 4, r, rest);
    SecondByte(q, r);
    assert [Byte0(p, q)] + ([Byte1(q, r)] + Stream(r % 4, 2, rest))
           == [Byte0(p, q), Byte1(q, r)] + Stream(r % 4, 2, rest);
  }

  lemma SecondByte(q: Sextet, r: Sextet)
    ensures (q % 16 * 64 + r) / 4 == Byte1(q, r) && (q % 16 * 64 + r) % 4 == r % 4
  {
  }

  lemma StreamFour(p: Sextet, q: Sextet, r: Sextet, t: Sextet, rest: seq<Sextet>)
    ensures Stream(0, 0, [p, q, r, t] + rest) == [Byte0(p, q), Byte1(q, r), Byte2(r, t)] + Stream(0, 0, rest)
  {
    hide Stream, Byte0, Byte1;
    assert [p, q, r, t] + rest == [p, q, r] + ([t] + rest);
    StreamThree(p, q, r, [t] + rest);
    StreamTakes(r % 4, 2, t, rest);
    ThirdByte(r, t);
    assert [Byte0(p, q), Byte1(q, r)] + ([Byte2(r, t)] + Stream(0, 0, rest))
        == [Byte0(p, q), Byte1(q, r), Byte2(r, t)] + Stream(0, 0, rest);
  }

  lemma ThirdByte(r: Sextet, t: Sextet)
    ensures (r % 4 * 64 + t) / Power(0) == Byte2(r, t) && (r % 4 * 64 + t) % Power(0) == 0
  {
  }

  /** Sextet by sextet or group by group, the bytes are the same. */
  lemma {:induction false} StreamGroups(s: seq<Sextet>)
    ensures Stream(0, 0, s) == FromSextets(s)
    decreases |s|
  {
    hide Byte0, Byte1, Byte2, Stream;
    if |s| >= 4 {
      StreamGroups(s[4..]);
      assert s == [s[0], s[1], s[2], s[3]] + s[4..];
      StreamFour(s[0], s[1], s[2], s[3], s[4..]);
    } else if |s| == 3 {
      assert s == [s[0], s[1], s[2]] + [];
      StreamThree(s[0], s[1], s[2], []);
      StreamEnds(s[2] % 4, 2);
    } else if |s| == 2 {
      assert s == [s[0], s[1]] + [];
      StreamTwo(s[0], s[1], []);
      StreamEnds(s[1] % 16, 4);
    } else if |s| == 1 {
      assert s == [s[0]] + [];
      StreamSkip(s[0], []);
      StreamEnds(s[0], 6);
    } else {
      StreamEnds(0, 0);
    }
  }

  function TrimPadding(s: string): string
  {
    if s != [] && s[|s|-1] == '=' then TrimPadding(s[..|s|-1]) else s
  }

  predicate InAlphabet(s: string) { forall i :: 0 <= i < |s| ==> SextetOf(s[i]).Some? }

  function SextetsOf(s: string): (r: seq<Sextet>)
    requires InAlphabet(s)
    ensures |r| == |s| && forall i :: 0 <= i < |s| ==> Some(r[i]) == SextetOf(s[i])
  {
    seq(|s|, i requires 0 <= i < |s| => SextetOf(s[i]).value)
  }

  function DecodeKey(text: string): Option<seq<Byte>>
  {
    var s := TrimPadding(text);
    if |s| != 43 || !InAlphabet(s) then None else Some(FromSextets(SextetsOf(s)))
  }

  /** The accumulator takes in six more bits; what overflows 32 bits is lost. */
  function Shifted(acc: nat, v: Sextet): nat { acc * 64 % TWO32 + v }

  /** The eight bits above the lowest `bits`. */
  function ByteAbove(acc: nat, bits: nat): Byte
    requires bits <= 6 && bits % 2 == 0
  {
    acc / Power(bits) % 256
  }

  /** Shifting left in 32 bits keeps the low 26 bits. */
  lemma ShiftWraps(acc: nat)
    requires acc < TWO32
    ensures acc * 64 % TWO32 == acc % 0x400_0000 * 64
  {
    assert acc * 64 == acc / 0x400_0000 * TWO32 + acc % 0x400_0000 * 64;
  }

  /** Shifting in 32 bits loses only bits that no later byte uses. */
  lemma WrappedStep(acc: nat, bits: nat, s: Sextet)
    requires acc < TWO32 && bits <= 6 && bits % 2 == 0
    ensures var next, low := acc * 64 % TWO32 + s, acc % Power(bits);
            && next < TWO32
            && (bits == 0 ==> next % 64 == s)
            && (bits >= 2 ==> (
                  && next / Power(bits - 2) % 256 == (low * 64 + s) / Power(bits - 2)
                  && next % Power(bits - 2) == (low * 64 + s) % Power(bits - 2)))
  {
    ShiftWraps(acc);
    var a := acc % 0x400_0000;
    if bits == 2 { WrappedBy2(acc, a, s); }
    else if bits == 4 { WrappedBy4(acc, a, s); }
    else if bits == 6 { WrappedBy6(acc, a, s); }
  }

  lemma LowBits(acc: nat)
    ensures var a := acc % 0x400_0000; a % 4 == acc % 4 && a % 16 == acc % 16 && a % 64 == acc % 64
  {
    var j, a := acc / 0x400_0000, acc % 0x400_0000;
    assert acc == j * 0x400_0000 + a;
    Mod64(j * 0x10_0000, a);
    Mod16(j * 0x40_0000, a);
    Mod4(j * 0x100_0000, a);
  }

  lemma Mod64(k: nat, a: nat)
    ensures (k * 64 + a) % 64 == a % 64
  {
    assert k * 64 + a == (k + a / 64) * 64 + a % 64;
  }

  lemma Mod16(k: nat, a: nat)
    ensures (k * 16 + a) % 16 == a % 16
  {
    assert k * 16 + a == (k + a / 16) * 16 + a % 16;
  }

  lemma Mod4(k: nat, a: nat)
    ensures (k * 4 + a) % 4 == a % 4
  {
    assert k * 4 + a == (k + a / 4) * 4 + a % 4;
  }

  /** A multiple of 256 on top of eight bits is cut off again. */
  lemma CutTo256(k: nat, w: nat)
    requires w < 256
    ensures (k * 256 + w) % 256 == w
  {
  }

  lemma Shift4(k: nat, v: nat)
    ensures (k * 1024 + v) / 4 == k * 256 + v / 4 && (k * 1024 + v) % 4 == v % 4
  {
  }

  lemma Shift16(k: nat, v: nat)
    ensures (k * 4096 + v) / 16 == k * 256 + v / 16 && (k * 4096 + v) % 16 == v % 16
  {
  }

  lemma WrappedBy2(acc: nat, a: nat, s: Sextet)
    requires a == acc % 0x400_0000
    ensures (a * 64 + s) % 256 == acc % 4 * 64 + s
  {
    LowBits(acc);
    CutTo256(a / 4, a % 4 * 64 + s);
    assert a * 64 + s == a / 4 * 256 + (a % 4 * 64 + s);
  }

  lemma WrappedBy4(acc: nat, a: nat, s: Sextet)
    requires a == acc % 0x400_0000
    ensures (a * 64 + s) / 4 % 256 == (acc % 16 * 64 + s) / 4 && (a * 64 + s) % 4 == (acc % 16 * 64 + s) % 4
  {
    LowBits(acc);
    var k, v := a / 16, a % 16 * 64 + s;
    assert a * 64 + s == k * 1024 + v;
    Shift4(k, v);
    CutTo256(k, v / 4);
  }

  lemma WrappedBy6(acc: nat, a: nat, s: Sextet)
    requires a == acc % 0x400_0000
    ensures (a * 64 + s) / 16 % 256 == (acc % 64 * 64 + s) / 16 && (a * 64 + s) % 16 == (acc % 64 * 64 + s) % 16
  {
    LowBits(acc);
    var k, v := a / 64, a % 64 * 64 + s;
    assert a * 64 + s == k * 4096 + v;
    Shift16(k, v);
    CutTo256(k, v / 16);
  }

  /** The reader's state after some characters: what is left to decode completes the bytes. */
  ghost predicate Decoding(s: string, done: seq<Byte>, acc: nat, bits: nat, i: nat)
  {
    && i <= |s| && bits <= 6 && bits % 2 == 0
    && (InAlphabet(s) ==> done + Stream(acc % Power(bits), bits, SextetsOf(s)[i..]) == FromSextets(SextetsOf(s)))
  }

  lemma DecodingStarts(s: string)
    ensures Decoding(s, [], 0, 0, 0)
  {
    if InAlphabet(s) {
      StreamGroups(SextetsOf(s));
      assert SextetsOf(s)[0..] == SextetsOf(s);
    }
  }

  /** One more character: its six bits wait, or complete one byte. */
  lemma DecodingStep(s: string, done: seq<Byte>, acc: nat, bits: nat, i: nat, v: Sextet)
    requires Decoding(s, done, acc, bits, i) && i < |s| && SextetOf(s[i]) == Some(v) && acc < TWO32
    ensures var next := Shifted(acc, v);
            && next < TWO32
            && (bits == 0 ==> Decoding(s, done, next, 6, i + 1))
            && (bits >= 2 ==> Decoding(s, done + [ByteAbove(next, bits - 2)], next, bits - 2, i + 1))
  {
    WrappedStep(acc, bits, v);
    hide SextetOf, Decoding, Power;
    if bits == 0 {
      DecodingWaits(s, done, acc, acc * 64 % TWO32 + v, i, v);
    } else {
      DecodingCompletes(s, done, acc, bits, acc * 64 % TWO32 + v, i, v);
    }
  }

  lemma DecodingWaits(s: string, done: seq<Byte>, acc: nat, next: nat, i: nat, v: Sextet)
    requires Decoding(s, done, acc, 0, i) && i < |s| && SextetOf(s[i]) == Some(v) && next % 64 == v
    ensures Decoding(s, done, next, 6, i + 1)
  {
    hide SextetOf, Stream, FromSextets, InAlphabet;
    if InAlphabet(s) {
      var all := SextetsOf(s);
      assert all[i..] == [v] + all[i+1..];
      StreamSkip(v, all[i+1..]);
    }
  }

  lemma DecodingCompletes(s: string, done: seq<Byte>, acc: nat, bits: nat, next: nat, i: nat, v: Sextet)
    requires Decoding(s, done, acc, bits, i) && i < |s| && SextetOf(s[i]) == Some(v) && bits >= 2
    requires var low := acc % Power(bits);
             && next / Power(bits - 2) % 256 == (low * 64 + v) / Power(bits - 2)
             && next % Power(bits - 2) == (low * 64 + v) % Power(bits - 2)
    ensures Decoding(s, done + [next / Power(bits - 2) % 256], next, bits - 2, i + 1)
  {
    hide SextetOf, Stream, FromSextets, InAlphabet, Power;
    if InAlphabet(s) {
      var all := SextetsOf(s);
      var b := next / Power(bits - 2) % 256;
      assert all[i..] == [v] + all[i+1..];
      StreamTakes(acc % Power(bits), bits, v, all[i+1..]);
      BytesAppend(done, b, Stream(next % Power(bits - 2), bits - 2, all[i+1..]));
    }
  }

  lemma BytesAppend(done: seq<Byte>, b: Byte, rest: seq<Byte>)
    ensures done + ([b] + rest) == (done + [b]) + rest
  {
  }

  lemma DecodingEnds(s: string, done: seq<Byte>, acc: nat, bits: nat)
    requires Decoding(s, done, acc, bits, |s|) && InAlphabet(s)
    ensures FromSextets(SextetsOf(s)) == done
  {
    assert SextetsOf(s)[|s|..] == [];
    StreamEnds(acc % Power(bits), bits);
    assert done + [] == done;
  }

  method DecodeBase64Key(text: string) returns (key: Option<seq<Byte>>)
    ensures key == DecodeKey(text)
  {
    hide FromSextets, SextetOf, TrimPadding;
    var s := TrimPadding(text);
    if |s| != 43 { return None; }
    key := ReadSextets(s);
  }

  /** Every write is in range: 43 characters give 32 whole bytes and two bits over. */
  method ReadSextets(s: string) returns (key: Option<seq<Byte>>)
    requires |s| == 43
    ensures key == if InAlphabet(s) then Some(FromSextets(SextetsOf(s))) else None
  {
    hide Stream, FromSextets, Decoding, SextetOf, Power, Shifted, ByteAbove;
    var buf := new Byte[KEY_LEN](_ => 0);
    var n: nat, acc: nat, bits: nat := 0, 0, 0;
    DecodingStarts(s);
    assert buf[..0] == [];
    for i := 0 to 43
      invariant n <= KEY_LEN && 8 * n + bits == 6 * i && bits <= 6 && bits % 2 == 0 && acc < TWO32
      invariant forall j :: 0 <= j < i ==> SextetOf(s[j]).Some?
      invariant Decoding(s, buf[..n], acc, bits, i)
    {
      var sextet := SextetOf(s[i]);
      if sextet.None? { return None; }
      DecodingStep(s, buf[..n], acc, bits, i, sextet.value);
      acc := Shifted(acc, sextet.value);
      bits := bits + 6;
      if bits >= 8 {
        bits := bits - 8;
        ghost var before := buf[..n];
        buf[n] := ByteAbove(acc, bits);
        n := n + 1;
        assert buf[..n] == before + [ByteAbove(acc, bits)];
      }
    }
    assert n == KEY_LEN && buf[..n] == buf[..];
    DecodingEnds(s, buf[..], acc, bits);
    return Some(buf[..]);
  }

  // ------------------------------------------------------------------ results

  lemma {:induction false} PaddingTrimmed(s: string, pad: nat)
    requires s != [] ==> s[|s|-1] != '='
    ensures TrimPadding(s + seq(pad, _ => '=')) == s
    decreases pad
  {
    var t := s + seq(pad, _ => '=');
    if pad == 0 {
      assert t == s;
    } else {
      assert t[|t|-1] == '=' && t[..|t|-1] == s + seq(pad - 1, _ => '=');
      PaddingTrimmed(s, pad - 1);
    }
  }

  lemma TextRead(s: seq<Sextet>)
    ensures InAlphabet(Text(s, false)) && SextetsOf(Text(s, false)) == s
    ensures s != [] ==> Text(s, false)[|s|-1] != '='
  {
    forall i | 0 <= i < |s| ensures SextetOf(Text(s, false)[i]) == Some(s[i]) && Text(s, false)[i] != '=' {
      AlphabetInverse(s[i], '=');
    }
  }

  /** A printed key has 43 characters and reads back as the key, padded or not. */
  lemma KeyRoundTrip(key: seq<Byte>, pad: nat)
    requires |key| == KEY_LEN
    ensures |Base64(key, true)| == |Base64(key, false)| == 43
    ensures DecodeKey(Base64(key, false) + seq(pad, _ => '=')) == Some(key)
  {
    hide ToSextets, FromSextets, SextetOf, CharOf;
    TextRead(ToSextets(key));
    PaddingTrimmed(Base64(key, false), pad);
    SextetsRoundTrip(key);
  }

  /** Which texts are read as a key: the key's own, up to padding and the last character's
      two unused bits. */
  lemma KeyTextsExactly(text: string, key: seq<Byte>)
    ensures DecodeKey(text) == Some(key) <==>
              && |TrimPadding(text)| == 43 && InAlphabet(TrimPadding(text))
              && |key| == KEY_LEN && Text(Canonical(SextetsOf(TrimPadding(text))), false) == Base64(key, false)
  {
    hide ToSextets, FromSextets, SextetOf, CharOf, Canonical;
    var s := TrimPadding(text);
    if |s| == 43 && InAlphabet(s) {
      var sextets := SextetsOf(s);
      BytesRoundTrip(sextets);
      FromCount(sextets);
      if Text(Canonical(sextets), false) == Base64(key, false) {
        TextRead(Canonical(sextets));
        TextRead(ToSextets(key));
        SextetsRoundTrip(key);
        SextetsRoundTrip(FromSextets(sextets));
      }
    }
  }

  lemma {:induction false} FromCount(s: seq<Sextet>)
    requires |s| % 4 != 1
    ensures |FromSextets(s)| == 3 * |s| / 4
    decreases |s|
  {
    hide Byte0, Byte1, Byte2;
    if |s| >= 4 { FromCount(s[4..]); }
  }
}
