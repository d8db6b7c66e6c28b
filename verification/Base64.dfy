/**
 Base64 (section 4 of RFC 4648) as the etcd client encodes and decodes it: the
 loops collect groups in small arrays, and the decoder's tail looks up zero bytes.
 */
module Base64 {
  import opened Common

  type Bytes = seq<Byte>

  const PAD: Byte := 61

  // ------------------------------------------------------------------- the alphabet

  const UPPER: string := "ABCDEFGHIJKLMNOPQRSTUVWXYZ"
  const LOWER: string := "abcdefghijklmnopqrstuvwxyz"
  const OTHER: string := "0123456789+/"
  const ALPHABET: string := UPPER + LOWER + OTHER

  /** The character for a sextet, by ranges of the alphabet. */
  function Symbol(v: nat): Byte
    requires v < 64
  {
    if v < 26 then 65 + v
    else if v < 52 then 97 + v - 26
    else if v < 62 then 48 + v - 52
    else if v == 62 then 43 else 47
  }

  /** What looking a character up gives, cut to a byte: 255 when it is not in the alphabet. */
  function Lookup(c: Byte): Byte {
    if 65 <= c <= 90 then c - 65
    else if 97 <= c <= 122 then c - 97 + 26
    else if 48 <= c <= 57 then c - 48 + 52
    else if c == 43 then 62 else if c == 47 then 63 else 255
  }

  predicate IsBase64(c: Byte) {
    48 <= c <= 57 || 65 <= c <= 90 || 97 <= c <= 122 || c == 43 || c == 47
  }

  lemma UpperIs(v: nat)
    requires v < 26
    ensures |UPPER| == 26 && UPPER[v] as int == 65 + v
  {
  }

  lemma LowerIs(v: nat)
    requires v < 26
    ensures |LOWER| == 26 && LOWER[v] as int == 97 + v
  {
  }

  lemma OtherIs(v: nat)
    requires v < 12
    ensures |OTHER| == 12 && OTHER[v] as int == Symbol(52 + v)
  {
  }

  /** The ranges are the alphabet, letter by letter. */
  lemma AlphabetIs(v: nat)
    requires v < 64
    ensures |ALPHABET| == 64 && ALPHABET[v] as int == Symbol(v)
  {
    UpperIs(0);
    LowerIs(0);
    OtherIs(0);
    if v < 26 { UpperIs(v); } else if v < 52 { LowerIs(v - 26); } else { OtherIs(v - 52); }
  }

  /** Looking up finds the only position of a character, and fails exactly outside the alphabet. */
  lemma LookupIsFind(c: Byte, v: nat)
    requires v < 64
    ensures |ALPHABET| == 64
    ensures ALPHABET[v] as int == c <==> Lookup(c) == v
    ensures Lookup(c) < 64 <==> IsBase64(c)
    ensures Lookup(c) < 64 || Lookup(c) == 255
  {
    AlphabetIs(v);
  }

  lemma LookupSymbol(v: nat)
    requires v < 64
    ensures Lookup(Symbol(v)) == v && IsBase64(Symbol(v)) && Symbol(v) != PAD
  {
  }

  // -------------------------------------------------------------- what is computed

  /** The four sextets of three bytes. */
  function Quad(a: Byte, b: Byte, c: Byte): (q: seq<Byte>)
    ensures |q| == 4 && forall i :: 0 <= i < 4 ==> q[i] < 64
  {
    [a / 4, (a % 4) * 16 + b / 16, (b % 16) * 4 + c / 64, c % 64]
  }

  function Byte0(p: Byte, q: Byte): Byte { (p as int * 4 + q / 16 % 4) % 256 }

  function Byte1(q: Byte, r: Byte): Byte { (q % 16 * 16 + r / 4 % 16) as int % 256 }

  function Byte2(r: Byte, t: Byte): Byte { (r % 4 * 64 + t as int) % 256 }

  /** The three bytes of four looked-up values, each cut to a byte. */
  function Triple(p: Byte, q: Byte, r: Byte, t: Byte): (s: Bytes)
    ensures |s| == 3
  {
    [Byte0(p, q), Byte1(q, r), Byte2(r, t)]
  }

  /** The characters of a group. */
  function Text(q: seq<Byte>): (t: Bytes)
    requires forall i :: 0 <= i < |q| ==> q[i] < 64
    ensures |t| == |q|
  {
    seq(|q|, i requires 0 <= i < |q| => Symbol(q[i]))
  }

  function Encode(s: Bytes): Bytes {
    if s == [] then []
    else if |s| == 1 then Text(Quad(s[0], 0, 0)[..2]) + [PAD, PAD]
    else if |s| == 2 then Text(Quad(s[0], s[1], 0)[..3]) + [PAD]
    else Text(Quad(s[0], s[1], s[2])) + Encode(s[3..])
  }

  /** How many characters of the alphabet come first. */
  function Run(t: Bytes): (n: nat)
    ensures n <= |t| && (n < |t| ==> !IsBase64(t[n])) && forall i :: 0 <= i < n ==> IsBase64(t[i])
  {
    if t == [] || !IsBase64(t[0]) then 0 else 1 + Run(t[1..])
  }

  function At(t: Bytes, n: nat, i: nat): Byte
    requires n <= |t|
  {
    if i < n then Lookup(t[i]) else Lookup(0)
  }

  /** The bytes of a group of n characters; missing ones are looked up as zero bytes. */
  function Group(t: Bytes, n: nat): Bytes
    requires n <= |t| && n <= 4
  {
    Triple(At(t, n, 0), At(t, n, 1), At(t, n, 2), At(t, n, 3))[..if n == 0 then 0 else n - 1]
  }

  function Decode(t: Bytes): Bytes {
    if Run(t) >= 4 then Group(t, 4) + Decode(t[4..]) else Group(t, Run(t))
  }

  // ---------------------------------------------------------------------- round trip

  lemma MiddleBits(a: Byte, b: Byte, m: nat, k: nat)
    requires (m == 4 && k == 16) || (m == 16 && k == 4)
    ensures var q := (a % m) * k + b / (256 / k); q / k % m == a % m && q % k == b / (256 / k)
  {
  }

  lemma FirstByte(a: Byte, b: Byte, c: Byte)
    ensures Byte0(Quad(a, b, c)[0], Quad(a, b, c)[1]) == a
  {
    MiddleBits(a, b, 4, 16);
  }

  lemma SecondByte(a: Byte, b: Byte, c: Byte)
    ensures Byte1(Quad(a, b, c)[1], Quad(a, b, c)[2]) == b
  {
    MiddleBits(a, b, 4, 16);
    MiddleBits(b, c, 16, 4);
  }

  lemma ThirdByte(a: Byte, b: Byte, c: Byte)
    ensures Byte2(Quad(a, b, c)[2], Quad(a, b, c)[3]) == c
  {
    MiddleBits(b, c, 16, 4);
  }

  lemma LookupText(q: seq<Byte>, i: nat)
    requires (forall k :: 0 <= k < |q| ==> q[k] < 64) && i < |q|
    ensures Lookup(Text(q)[i]) == q[i] && IsBase64(Text(q)[i]) && Text(q)[i] != PAD
  {
    LookupSymbol(q[i]);
  }

  lemma RunIs(t: Bytes, n: nat)
    requires n <= |t| && (forall i :: 0 <= i < n ==> IsBase64(t[i])) && (n < |t| ==> !IsBase64(t[n]))
    ensures Run(t) == n
  {
  }

  /** Decoding undoes encoding, for every byte string. */
  lemma {:induction false} RoundTrip(s: Bytes)
    ensures Decode(Encode(s)) == s
  {
    if |s| == 0 {
      assert Run([]) == 0;
    } else if |s| == 1 {
      assert s == [s[0]];
      OneLeft(s[0]);
    } else if |s| == 2 {
      assert s == [s[0], s[1]];
      TwoLeft(s[0], s[1]);
    } else {
      FullGroup(s);
      RoundTrip(s[3..]);
      assert s == [s[0], s[1], s[2]] + s[3..];
    }
  }

  /** Characters that stand for known sextets: what their group decodes to. */
  lemma GroupIs(e: Bytes, n: nat, p: Byte, q: Byte, r: Byte, t: Byte)
    requires 1 <= n <= 4 && n <= |e|
    requires At(e, n, 0) == p && At(e, n, 1) == q && At(e, n, 2) == r && At(e, n, 3) == t
    ensures Group(e, n) == Triple(p, q, r, t)[..n - 1]
  {
  }

  lemma RunAtLeast(e: Bytes, n: nat)
    requires n <= |e| && forall i :: 0 <= i < n ==> IsBase64(e[i])
    ensures Run(e) >= n
  {
  }

  /** The text of sextets in front of something else. */
  lemma FrontText(q: seq<Byte>, rest: Bytes)
    requires forall i :: 0 <= i < |q| ==> q[i] < 64
    ensures var e := Text(q) + rest; forall i :: 0 <= i < |q| ==> Lookup(e[i]) == q[i] && IsBase64(e[i])
  {
    var e := Text(q) + rest;
    forall i | 0 <= i < |q| ensures Lookup(e[i]) == q[i] && IsBase64(e[i]) {
      LookupText(q, i);
      assert e[i] == Text(q)[i];
    }
  }

  lemma FullText(q: seq<Byte>, rest: Bytes)
    requires |q| == 4 && forall i :: 0 <= i < |q| ==> q[i] < 64
    ensures var e := Text(q) + rest;
            Run(e) >= 4 && Group(e, 4) == Triple(q[0], q[1], q[2], q[3]) && e[4..] == rest
  {
    var e := Text(q) + rest;
    FrontText(q, rest);
    RunAtLeast(e, 4);
    GroupIs(e, 4, q[0], q[1], q[2], q[3]);
    var tr := Triple(q[0], q[1], q[2], q[3]);
    assert tr[..3] == tr;
  }

  lemma FullGroup(s: Bytes)
    requires |s| >= 3
    ensures var e := Encode(s);
            Run(e) >= 4 && Group(e, 4) == [s[0], s[1], s[2]] && e[4..] == Encode(s[3..])
  {
    FullText(Quad(s[0], s[1], s[2]), Encode(s[3..]));
    FirstByte(s[0], s[1], s[2]);
    SecondByte(s[0], s[1], s[2]);
    ThirdByte(s[0], s[1], s[2]);
  }

  lemma PaddedText(q: seq<Byte>, n: nat, rest: Bytes)
    requires |q| == 4 && 2 <= n <= 3 && forall i :: 0 <= i < |q| ==> q[i] < 64
    requires rest != [] && rest[0] == PAD
    ensures Decode(Text(q[..n]) + rest) == Triple(q[0], q[1], if n == 2 then Lookup(0) else q[2], Lookup(0))[..n - 1]
  {
    var e := Text(q[..n]) + rest;
    FrontText(q[..n], rest);
    assert e[n] == PAD;
    RunIs(e, n);
    GroupIs(e, n, q[0], q[1], if n == 2 then Lookup(0) else q[2], Lookup(0));
  }

  lemma OneLeft(a: Byte)
    ensures Decode(Encode([a])) == [a]
  {
    PaddedText(Quad(a, 0, 0), 2, [PAD, PAD]);
    FirstByte(a, 0, 0);
  }

  lemma TwoLeft(a: Byte, b: Byte)
    ensures Decode(Encode([a, b])) == [a, b]
  {
    PaddedText(Quad(a, b, 0), 3, [PAD]);
    FirstByte(a, b, 0);
    SecondByte(a, b, 0);
  }

  /** The first n characters are of the alphabet, the rest is padding. */
  predicate Padded(e: Bytes, n: nat) {
    && n <= |e|
    && (forall i :: 0 <= i < n ==> IsBase64(e[i]) && e[i] != PAD)
    && (forall i :: n <= i < |e| ==> e[i] == PAD)
  }

  lemma PaddedCons(text: Bytes, rest: Bytes, n: nat)
    requires Padded(rest, n) && forall i :: 0 <= i < |text| ==> IsBase64(text[i]) && text[i] != PAD
    ensures Padded(text + rest, |text| + n)
  {
    assert forall i :: |text| <= i < |text + rest| ==> (text + rest)[i] == rest[i - |text|];
  }

  /** Four characters for every three bytes begun, and padding at the end only. */
  lemma {:induction false} EncodeShape(s: Bytes)
    ensures |Encode(s)| == 4 * ((|s| + 2) / 3)
    ensures Padded(Encode(s), (4 * |s| + 2) / 3)
  {
    if |s| >= 3 {
      var q := Quad(s[0], s[1], s[2]);
      EncodeShape(s[3..]);
      TextHasNoPad(q);
      PaddedCons(Text(q), Encode(s[3..]), (4 * (|s| - 3) + 2) / 3);
    } else if |s| == 2 {
      TextHasNoPad(Quad(s[0], s[1], 0)[..3]);
      PaddedCons(Text(Quad(s[0], s[1], 0)[..3]), [PAD], 0);
    } else if |s| == 1 {
      TextHasNoPad(Quad(s[0], 0, 0)[..2]);
      PaddedCons(Text(Quad(s[0], 0, 0)[..2]), [PAD, PAD], 0);
    }
  }

  lemma TextHasNoPad(q: seq<Byte>)
    requires forall i :: 0 <= i < |q| ==> q[i] < 64
    ensures forall i :: 0 <= i < |q| ==> IsBase64(Text(q)[i]) && Text(q)[i] != PAD
  {
    forall i | 0 <= i < |q| ensures IsBase64(Text(q)[i]) && Text(q)[i] != PAD { LookupText(q, i); }
  }

  /** The low bits of the n-th character that no byte uses. */
  predicate LowBitsZero(e: Bytes, n: nat, bits: nat)
    requires bits > 0
  {
    0 < n <= |e| && Lookup(e[n - 1]) % bits == 0
  }

  /** The bits of the last sextet that no byte uses are zero (section 3.5 of RFC 4648). */
  lemma {:induction false} UnusedBitsAreZero(s: Bytes)
    ensures |s| % 3 == 1 ==> LowBitsZero(Encode(s), (4 * |s| + 2) / 3, 16)
    ensures |s| % 3 == 2 ==> LowBitsZero(Encode(s), (4 * |s| + 2) / 3, 4)
  {
    if |s| >= 3 {
      var t := s[3..];
      UnusedBitsAreZero(t);
      if |t| % 3 == 1 { BitsBehindGroup(s, 16); } else if |t| % 3 == 2 { BitsBehindGroup(s, 4); }
    } else if |s| == 1 {
      OneUnused(s);
    } else if |s| == 2 {
      TwoUnused(s);
    }
  }

  lemma BitsBehindGroup(s: Bytes, bits: nat)
    requires |s| >= 3 && bits > 0
    ensures LowBitsZero(Encode(s[3..]), (4 * |s[3..]| + 2) / 3, bits) ==> LowBitsZero(Encode(s), (4 * |s| + 2) / 3, bits)
  {
    var text, rest := Text(Quad(s[0], s[1], s[2])), Encode(s[3..]);
    var n := (4 * |s[3..]| + 2) / 3;
    assert Encode(s) == text + rest && |text| == 4 && (4 * |s| + 2) / 3 == n + 4;
    assert 0 < n <= |rest| ==> (text + rest)[n + 3] == rest[n - 1];
  }

  lemma FilledAt(q: seq<Byte>, n: nat, rest: Bytes, bits: nat, high: nat)
    requires |q| == 4 && 0 < n <= 4 && (forall i :: 0 <= i < 4 ==> q[i] < 64) && q[n - 1] == high * bits
    requires bits == 4 || bits == 16
    ensures LowBitsZero(Text(q[..n]) + rest, n, bits)
  {
    FrontText(q[..n], rest);
    assert Lookup((Text(q[..n]) + rest)[n - 1]) == q[n - 1];
    MultipleOf(high, bits);
  }

  lemma MultipleOf(x: nat, m: nat)
    requires m == 4 || m == 16
    ensures x * m % m == 0
  {
    if m == 4 { assert x * 4 % 4 == 0; } else { assert x * 16 % 16 == 0; }
  }

  lemma OneUnused(s: Bytes)
    requires |s| == 1
    ensures LowBitsZero(Encode(s), 2, 16)
  {
    FilledAt(Quad(s[0], 0, 0), 2, [PAD, PAD], 16, s[0] as int % 4);
  }

  lemma TwoUnused(s: Bytes)
    requires |s| == 2
    ensures LowBitsZero(Encode(s), 3, 4)
  {
    FilledAt(Quad(s[0], s[1], 0), 3, [PAD], 4, s[1] as int % 16);
  }

  // ---------------------------------------------------------------------- the loops

  /** What was written, and the group and the input still to be encoded, make up the whole. */
  predicate Encoding(input: Bytes, ret: Bytes, group: Bytes, i: nat, pos: nat)
    requires |group| == 3 && i <= 3 && pos <= |input|
  {
    ret + Encode(group[..i] + input[pos..]) == Encode(input)
  }

  lemma EncodeTakes(input: Bytes, ret: Bytes, group: Bytes, i: nat, pos: nat)
    requires |group| == 3 && i < 3 && pos < |input| && Encoding(input, ret, group, i, pos)
    ensures Encoding(input, ret, group[i := input[pos]], i + 1, pos + 1)
  {
    assert group[i := input[pos]][..i + 1] + input[pos + 1..] == group[..i] + input[pos..];
  }

  lemma EncodeFlushes(input: Bytes, ret: Bytes, group: Bytes, pos: nat)
    requires |group| == 3 && pos <= |input| && Encoding(input, ret, group, 3, pos)
    ensures Encoding(input, ret + Text(Quad(group[0], group[1], group[2])), group, 0, pos)
  {
    var rest := input[pos..];
    var all := group[..3] + rest;
    assert all[3..] == rest && group[..0] + rest == rest;
    assert Encode(all) == Text(Quad(all[0], all[1], all[2])) + Encode(rest);
    var text := Text(Quad(group[0], group[1], group[2]));
    assert ret + (text + Encode(rest)) == ret + text + Encode(rest);
  }

  lemma EncodeBegins(input: Bytes, group: Bytes)
    requires |group| == 3
    ensures Encoding(input, [], group, 0, 0)
  {
    assert group[..0] + input[0..] == input;
    assert [] + Encode(input) == Encode(input);
  }

  lemma EncodeEnds(input: Bytes, ret: Bytes, group: Bytes, i: nat)
    requires |group| == 3 && i < 3 && Encoding(input, ret, group, i, |input|)
    ensures ret + Encode(group[..i]) == Encode(input) && (i == 0 ==> ret == Encode(input))
  {
    assert group[..i] + input[|input|..] == group[..i];
    if i == 0 { assert Encode(group[..0]) == [] && ret + [] == ret; }
  }

  /** The encoder collects three bytes at a time. */
  method Base64Encode(input: Bytes) returns (ret: Bytes)
    ensures ret == Encode(input)
  {
    ret := [];
    var i, pos := 0, 0;
    var group: seq<Byte> := [0, 0, 0];
    EncodeBegins(input, group);
    while pos < |input|
      invariant 0 <= pos <= |input| && 0 <= i < 3 && |group| == 3
      invariant Encoding(input, ret, group, i, pos)
    {
      EncodeTakes(input, ret, group, i, pos);
      group := group[i := input[pos]];
      i, pos := i + 1, pos + 1;
      if i == 3 {
        EncodeFlushes(input, ret, group, pos);
        ret := ret + Text(Quad(group[0], group[1], group[2]));
        i := 0;
      }
    }
    EncodeEnds(input, ret, group, i);
    if i != 0 {
      ret := EncodeTail(group, i, ret);
    }
  }

  /** One or two bytes left over: zero bytes fill the group, and = the text. */
  method EncodeTail(group0: Bytes, i0: nat, ret0: Bytes) returns (ret: Bytes)
    requires |group0| == 3 && 1 <= i0 <= 2
    ensures ret == ret0 + Encode(group0[..i0])
  {
    var group, i, j := group0, i0, i0;
    while j < 3
      invariant i <= j <= 3 && |group| == 3
      invariant forall k :: 0 <= k < i ==> group[k] == group0[k]
      invariant forall k :: i <= k < j ==> group[k] == 0
    {
      group := group[j := 0];
      j := j + 1;
    }
    ghost var text := Text(Quad(group[0], group[1], group[2])[..i + 1]);
    ret := ret0 + Text(Quad(group[0], group[1], group[2])[..i + 1]);
    while i < 3
      invariant i0 <= i <= 3
      invariant ret == ret0 + (text + seq(i - i0, k => PAD))
    {
      ret := ret + [PAD];
      i := i + 1;
    }
    assert seq(3 - i0, k => PAD) == if i0 == 1 then [PAD, PAD] else [PAD];
    assert Encode(group0[..i0]) == text + seq(3 - i0, k => PAD);
  }

  /** What was written, and the group and the text still to be decoded, make up the whole. */
  predicate Decoding(text: Bytes, ret: Bytes, group: Bytes, i: nat, pos: nat)
    requires |group| == 4 && i <= 4 && pos <= |text|
  {
    (forall k :: 0 <= k < i ==> IsBase64(group[k])) && ret + Decode(group[..i] + text[pos..]) == Decode(text)
  }

  lemma DecodeTakes(text: Bytes, ret: Bytes, group: Bytes, i: nat, pos: nat)
    requires |group| == 4 && i < 4 && pos < |text| && IsBase64(text[pos]) && Decoding(text, ret, group, i, pos)
    ensures Decoding(text, ret, group[i := text[pos]], i + 1, pos + 1)
  {
    assert group[i := text[pos]][..i + 1] + text[pos + 1..] == group[..i] + text[pos..];
  }

  lemma DecodeGroup(group: Bytes, rest: Bytes)
    requires |group| == 4 && forall i :: 0 <= i < 4 ==> IsBase64(group[i])
    ensures Decode(group + rest) == Group(group, 4) + Decode(rest)
  {
    var t := group + rest;
    assert forall i :: 0 <= i < 4 ==> t[i] == group[i];
    RunAtLeast(t, 4);
    assert t[4..] == rest;
    assert Group(t, 4) == Group(group, 4);
  }

  lemma DecodeFlushes(text: Bytes, ret: Bytes, group: Bytes, pos: nat)
    requires |group| == 4 && pos <= |text| && Decoding(text, ret, group, 4, pos)
    ensures Decoding(text, ret + Group(group, 4), group, 0, pos)
  {
    var rest := text[pos..];
    assert group[..4] == group && group[..0] + rest == rest;
    DecodeGroup(group, rest);
    assert ret + (Group(group, 4) + Decode(rest)) == ret + Group(group, 4) + Decode(rest);
  }

  lemma DecodeBegins(text: Bytes, group: Bytes)
    requires |group| == 4
    ensures Decoding(text, [], group, 0, 0)
  {
    assert group[..0] + text[0..] == text;
    assert [] + Decode(text) == Decode(text);
  }

  lemma DecodeEnds(text: Bytes, ret: Bytes, group: Bytes, i: nat, pos: nat)
    requires |group| == 4 && i < 4 && pos <= |text| && Decoding(text, ret, group, i, pos)
    requires pos == |text| || !IsBase64(text[pos])
    ensures ret + Group(group, i) == Decode(text) && (i == 0 ==> ret == Decode(text))
  {
    var t := group[..i] + text[pos..];
    assert forall k :: 0 <= k < i ==> t[k] == group[k];
    RunIs(t, i);
    assert Group(t, i) == Group(group, i);
  }

  /** The decoder collects four characters at a time, up to the first that is not of the alphabet. */
  method Base64Decode(text: Bytes) returns (ret: Bytes)
    ensures ret == Decode(text)
  {
    ret := [];
    var i, pos := 0, 0;
    var group: seq<Byte> := [0, 0, 0, 0];
    DecodeBegins(text, group);
    while pos < |text| && text[pos] != PAD && IsBase64(text[pos])
      invariant 0 <= pos <= |text| && 0 <= i < 4 && |group| == 4
      invariant Decoding(text, ret, group, i, pos)
      decreases |text| - pos
    {
      DecodeTakes(text, ret, group, i, pos);
      group := group[i := text[pos]];
      i, pos := i + 1, pos + 1;
      if i == 4 {
        DecodeFlushes(text, ret, group, pos);
        var bytes := DecodeFilled(group, 4);
        ret := ret + bytes;
        i := 0;
      }
    }
    DecodeEnds(text, ret, group, i, pos);
    if i != 0 {
      var bytes := DecodeFilled(group, i);
      ret := ret + bytes;
    }
  }

  /** Fills the group with zero bytes, looks all four up and keeps one byte less than it had characters. */
  method DecodeFilled(group0: Bytes, i: nat) returns (bytes: Bytes)
    requires |group0| == 4 && 1 <= i <= 4
    ensures bytes == Group(group0, i)
  {
    var group, j := group0, i;
    while j < 4
      invariant i <= j <= 4 && |group| == 4
      invariant forall k :: 0 <= k < i ==> group[k] == group0[k]
      invariant forall k :: i <= k < j ==> group[k] == 0
    {
      group := group[j := 0];
      j := j + 1;
    }
    assert forall k :: 0 <= k < 4 ==> Lookup(group[k]) == At(group0, i, k);
    bytes := Triple(Lookup(group[0]), Lookup(group[1]), Lookup(group[2]), Lookup(group[3]))[..i - 1];
  }
}
