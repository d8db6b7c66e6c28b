/**
 Form data: percent-encoding (section 2.1 of RFC 3986) with + for a space, and
 parsing of key=value pairs joined by &.  Strings are byte strings; the result None
 stands for a failed assert of the decoder.
 */
module FormData {
  import opened Common

  type Bytes = seq<Byte>

  const SPACE: Byte := 32
  const PERCENT: Byte := 37
  const AMP: Byte := 38
  const PLUS: Byte := 43
  const EQUALS: Byte := 61

  // -------------------------------------------------------------- hexadecimal digits

  predicate Between(b: Byte, lo: char, hi: char) { lo as int <= b <= hi as int }

  function ToHex(x: Byte): Byte
    requires x < 16
  {
    if x > 9 then x + 55 else x + 48
  }

  /** The decoder takes every letter, not only those up to F. */
  function FromHex(x: Byte): Option<Byte> {
    if Between(x, 'A', 'Z') then Some(x - 65 + 10)
    else if Between(x, 'a', 'z') then Some(x - 97 + 10)
    else if Between(x, '0', '9') then Some(x - 48)
    else None
  }

  lemma HexRoundTrip(x: Byte)
    requires x < 16
    ensures FromHex(ToHex(x)) == Some(x)
  {
  }

  // ----------------------------------------------------------------------- encoding

  /** The unreserved characters of RFC 3986. */
  predicate Unreserved(b: Byte) {
    || Between(b, '0', '9') || Between(b, 'A', 'Z') || Between(b, 'a', 'z')
    || b == '-' as int || b == '_' as int || b == '.' as int || b == '~' as int
  }

  function EncodeByte(b: Byte): Bytes {
    if Unreserved(b) then [b]
    else if b == SPACE then [PLUS]
    else [PERCENT, ToHex(b / 16), ToHex(b % 16)]
  }

  function Encode(s: Bytes): Bytes {
    if s == [] then [] else EncodeByte(s[0]) + Encode(s[1..])
  }

  /** One byte off the front of an encoded string, and how long its code was. */
  function DecodeByte(s: Bytes): Option<(Byte, nat)>
    requires s != []
  {
    if s[0] == PLUS then Some((SPACE, 1))
    else if s[0] == PERCENT then
      if |s| < 3 || FromHex(s[1]).None? || FromHex(s[2]).None? then None
      else
        var code := FromHex(s[1]).value as int * 16 + FromHex(s[2]).value as int;
        Some((code % 256, 3))
    else Some((s[0], 1))
  }

  function Decode(s: Bytes): Option<Bytes>
    decreases |s|
  {
    if s == [] then Some([])
    else
      match DecodeByte(s)
      case None => None
      case Some((b, n)) => if n <= |s| then Before([b], Decode(s[n..])) else None
  }

  function Before(front: Bytes, o: Option<Bytes>): Option<Bytes> {
    if o.None? then None else Some(front + o.value)
  }

  lemma ByteRoundTrip(b: Byte, t: Bytes)
    ensures DecodeByte(EncodeByte(b) + t) == Some((b, |EncodeByte(b)|))
    ensures (EncodeByte(b) + t)[|EncodeByte(b)|..] == t
  {
    if !Unreserved(b) && b != SPACE {
      HexRoundTrip(b / 16);
      HexRoundTrip(b % 16);
    }
  }

  /** Decoding undoes encoding, and no assert of the decoder fails. */
  lemma {:induction false} RoundTrip(s: Bytes)
    ensures Decode(Encode(s)) == Some(s)
  {
    if s != [] {
      RoundTrip(s[1..]);
      ByteRoundTrip(s[0], Encode(s[1..]));
      assert s == [s[0]] + s[1..];
    }
  }

  /** An encoded string holds only unreserved characters, + and %. */
  lemma {:induction false} EncodeIsSafe(s: Bytes, i: nat)
    requires i < |Encode(s)|
    ensures Unreserved(Encode(s)[i]) || Encode(s)[i] == PLUS || Encode(s)[i] == PERCENT
  {
    var code := EncodeByte(s[0]);
    if i >= |code| { EncodeIsSafe(s[1..], i - |code|); }
  }

  /** One turn of the encoder's loop. */
  lemma PutByte(str: Bytes, i: nat, before: Bytes, out: Bytes)
    requires i < |str| && out == before + EncodeByte(str[i])
    ensures out + Encode(str[i + 1..]) == before + Encode(str[i..])
  {
    assert str[i..][1..] == str[i + 1..];
    assert before + (EncodeByte(str[i]) + Encode(str[i + 1..])) == out + Encode(str[i + 1..]);
  }

  method UrlEncode(str: Bytes) returns (out: Bytes)
    ensures out == Encode(str)
  {
    out := [];
    var i := 0;
    while i < |str|
      invariant 0 <= i <= |str|
      invariant out + Encode(str[i..]) == Encode(str)
    {
      ghost var before := out;
      if Unreserved(str[i]) {
        out := out + [str[i]];
      } else if str[i] == SPACE {
        out := out + [PLUS];
      } else {
        out := out + [PERCENT] + [ToHex(str[i] / 16)] + [ToHex(str[i] % 16)];
      }
      PutByte(str, i, before, out);
      i := i + 1;
    }
  }

  /** The decoder's loop; None when an assert fails. */
  method UrlDecode(str: Bytes) returns (r: Option<Bytes>)
    ensures r == Decode(str)
  {
    var out: Bytes := [];
    var i := 0;
    NothingBefore(str);
    while i < |str|
      invariant 0 <= i <= |str|
      invariant Before(out, Decode(str[i..])) == Decode(str)
    {
      TakeByte(str, i, out);
      if str[i] == PLUS {
        out := out + [SPACE];
      } else if str[i] == PERCENT {
        if !(i + 2 < |str|) { return None; }
        i := i + 1;
        var high := FromHex(str[i]);
        if high.None? { return None; }
        i := i + 1;
        var low := FromHex(str[i]);
        if low.None? { return None; }
        out := out + [(high.value as int * 16 + low.value as int) % 256];
      } else {
        out := out + [str[i]];
      }
      i := i + 1;
    }
    assert str[i..] == [] && Decode(str[i..]) == Some([]);
    assert out + [] == out;
    r := Some(out);
  }

  lemma NothingBefore(str: Bytes)
    ensures Before([], Decode(str[0..])) == Decode(str)
  {
    assert str[0..] == str;
    var o := Decode(str);
    assert o.Some? ==> [] + o.value == o.value;
  }

  lemma BeforeTwice(x: Bytes, y: Bytes, o: Option<Bytes>)
    ensures Before(x, Before(y, o)) == Before(x + y, o)
  {
    if o.Some? { assert x + (y + o.value) == x + y + o.value; }
  }

  /** One turn of the decoder's loop: by the code at position i, or a failed assert. */
  lemma TakeByte(str: Bytes, i: nat, out: Bytes)
    requires i < |str|
    ensures var o := DecodeByte(str[i..]);
            if o.None? then Decode(str[i..]) == None
            else i + o.value.1 <= |str|
                 && Before(out, Decode(str[i..])) == Before(out + [o.value.0], Decode(str[i + o.value.1..]))
  {
    var o := DecodeByte(str[i..]);
    if o.Some? {
      var (b, n) := o.value;
      assert str[i..][n..] == str[i + n..];
      assert Decode(str[i..]) == Before([b], Decode(str[i + n..]));
      BeforeTwice(out, [b], Decode(str[i + n..]));
    }
  }

  // ------------------------------------------------------------------ key=value pairs

  /** The position of the first c, or the length when there is none. */
  function Find(s: Bytes, c: Byte): (i: nat)
    ensures i <= |s| && (i < |s| ==> s[i] == c) && forall k :: 0 <= k < i ==> s[k] != c
  {
    if s == [] || s[0] == c then 0 else 1 + Find(s[1..], c)
  }

  function Split(s: Bytes): (items: seq<Bytes>)
    ensures items != []
    decreases |s|
  {
    var i := Find(s, AMP);
    if i == |s| then [s] else [s[..i]] + Split(s[i + 1..])
  }

  function Join(items: seq<Bytes>): Bytes
    requires items != []
  {
    if |items| == 1 then items[0] else items[0] + [AMP] + Join(items[1..])
  }

  lemma FindAt(a: Bytes, c: Byte, t: Bytes)
    requires c !in a
    ensures Find(a + [c] + t, c) == |a| && Find(a, c) == |a|
  {
    var s := a + [c] + t;
    assert forall k :: 0 <= k < |a| ==> s[k] == a[k] && a[k] in a;
    assert s[|a|] == c;
  }

  /** Splitting undoes joining. */
  lemma {:induction false} SplitJoin(items: seq<Bytes>)
    requires items != [] && forall i :: 0 <= i < |items| ==> AMP !in items[i]
    ensures Split(Join(items)) == items
  {
    if |items| == 1 {
      FindAt(items[0], AMP, []);
    } else {
      SplitFirst(items[0], Join(items[1..]));
      SplitJoin(items[1..]);
    }
  }

  lemma SplitFirst(item: Bytes, rest: Bytes)
    requires AMP !in item
    ensures Split(item + [AMP] + rest) == [item] + Split(rest)
  {
    FindAt(item, AMP, rest);
    var s := item + [AMP] + rest;
    assert s[..|item|] == item && s[|item| + 1..] == rest;
  }

  datatype Pair = Pair(key: Bytes, value: Bytes)

  /** An item without = is its own key and its own value. */
  function ParseItem(item: Bytes): Option<Pair> {
    var pos := Find(item, EQUALS);
    var key := Decode(item[..pos]);
    var value := Decode(if pos == |item| then item else item[pos + 1..]);
    if key.None? || value.None? then None else Some(Pair(key.value, value.value))
  }

  function ParseItems(items: seq<Bytes>): Option<map<Bytes, Bytes>> {
    if items == [] then Some(map[])
    else
      var m := ParseItems(items[..|items| - 1]);
      var p := ParseItem(items[|items| - 1]);
      if m.None? || p.None? then None else Some(m.value[p.value.key := p.value.value])
  }

  /** One item: its key up to the first =, its value behind it. */
  method ParseOne(item: Bytes) returns (r: Option<Pair>)
    ensures r == ParseItem(item)
  {
    var pos := Find(item, EQUALS);
    var key := UrlDecode(item[..pos]);
    var value := UrlDecode(if pos == |item| then item else item[pos + 1..]);
    r := if key.None? || value.None? then None else Some(Pair(key.value, value.value));
  }

  lemma ItemsSnoc(items: seq<Bytes>, i: nat)
    requires i < |items|
    ensures var m, p := ParseItems(items[..i]), ParseItem(items[i]);
            ParseItems(items[..i + 1])
            == if m.None? || p.None? then None else Some(m.value[p.value.key := p.value.value])
  {
    assert items[..i + 1][..i] == items[..i];
  }

  method ParsePostData(data: Bytes) returns (r: Option<map<Bytes, Bytes>>)
    ensures r == ParseItems(Split(data))
  {
    var items := Split(data);
    var result: map<Bytes, Bytes> := map[];
    var i := 0;
    while i < |items|
      invariant 0 <= i <= |items|
      invariant ParseItems(items[..i]) == Some(result)
    {
      var p := ParseOne(items[i]);
      ItemsSnoc(items, i);
      if p.None? {
        NoneStays(items, i + 1);
        return None;
      }
      result := result[p.value.key := p.value.value];
      i := i + 1;
    }
    assert items[..i] == items;
    r := Some(result);
  }

  lemma {:induction false} NoneStays(items: seq<Bytes>, i: nat)
    requires i <= |items| && ParseItems(items[..i]) == None
    ensures ParseItems(items) == None
    decreases |items| - i
  {
    if i == |items| {
      assert items[..i] == items;
    } else {
      assert items[..i + 1][..i] == items[..i];
      NoneStays(items, i + 1);
    }
  }

  // ------------------------------------------------------------- parsing and printing

  function PrintPair(p: Pair): Bytes { Encode(p.key) + [EQUALS] + Encode(p.value) }

  function PrintItems(pairs: seq<Pair>): seq<Bytes> { seq(|pairs|, i requires 0 <= i < |pairs| => PrintPair(pairs[i])) }

  function Print(pairs: seq<Pair>): Bytes
    requires pairs != []
  {
    Join(PrintItems(pairs))
  }

  function LastWins(pairs: seq<Pair>): map<Bytes, Bytes> {
    if pairs == [] then map[]
    else LastWins(pairs[..|pairs| - 1])[pairs[|pairs| - 1].key := pairs[|pairs| - 1].value]
  }

  predicate HasKey(pairs: seq<Pair>, k: Bytes) { exists i :: 0 <= i < |pairs| && pairs[i].key == k }

  /** No later pair has the key of the i-th. */
  predicate IsLast(pairs: seq<Pair>, i: nat)
    requires i < |pairs|
  {
    forall j :: i < j < |pairs| ==> pairs[j].key != pairs[i].key
  }

  /** Each key of a pair is there, with the value of its last pair, and no other key is. */
  lemma {:induction false} LastWinsIs(pairs: seq<Pair>, k: Bytes, i: nat)
    ensures k in LastWins(pairs) <==> HasKey(pairs, k)
    ensures i < |pairs| && IsLast(pairs, i) && k == pairs[i].key ==> LastWins(pairs)[k] == pairs[i].value
  {
    if pairs != [] {
      var front, last := pairs[..|pairs| - 1], pairs[|pairs| - 1];
      LastWinsIs(front, k, i);
      assert pairs == front + [last];
      assert HasKey(front, k) ==> HasKey(pairs, k);
      assert last.key == k ==> pairs[|pairs| - 1].key == k && HasKey(pairs, k);
      assert HasKey(pairs, k) ==> HasKey(front, k) || last.key == k;
    }
  }

  lemma EncodeHasNo(s: Bytes, c: Byte)
    requires c == AMP || c == EQUALS
    ensures c !in Encode(s)
  {
    forall i | 0 <= i < |Encode(s)| ensures Encode(s)[i] != c { EncodeIsSafe(s, i); }
  }

  lemma PairRoundTrip(p: Pair)
    ensures ParseItem(PrintPair(p)) == Some(p) && AMP !in PrintPair(p)
  {
    var k, v := Encode(p.key), Encode(p.value);
    EncodeHasNo(p.key, AMP);
    EncodeHasNo(p.value, AMP);
    EncodeHasNo(p.key, EQUALS);
    FindAt(k, EQUALS, v);
    var item := PrintPair(p);
    assert item[..|k|] == k && item[|k| + 1..] == v;
    RoundTrip(p.key);
    RoundTrip(p.value);
  }

  lemma {:induction false} ItemsRoundTrip(pairs: seq<Pair>)
    ensures ParseItems(PrintItems(pairs)) == Some(LastWins(pairs))
  {
    if pairs != [] {
      var front, last := pairs[..|pairs| - 1], pairs[|pairs| - 1];
      ItemsRoundTrip(front);
      PairRoundTrip(last);
      assert PrintItems(pairs)[..|pairs| - 1] == PrintItems(front);
    }
  }

  /** Parsing undoes printing: the data of any pairs gives each key its last value. */
  lemma ParsePrint(pairs: seq<Pair>)
    requires pairs != []
    ensures ParseItems(Split(Print(pairs))) == Some(LastWins(pairs))
  {
    forall i | 0 <= i < |pairs| ensures AMP !in PrintItems(pairs)[i] { PairRoundTrip(pairs[i]); }
    SplitJoin(PrintItems(pairs));
    ItemsRoundTrip(pairs);
  }

  /** With no pairs at all, the empty data still gives one entry. */
  lemma EmptyDataHasOneEntry()
    ensures ParseItems(Split([])) == Some(map[[] := []])
  {
    assert Split([]) == [[]];
    assert ParseItem([]) == Some(Pair([], []));
    assert ParseItems([[]][..0]) == Some(map[]);
  }

  // --------------------------------------------------------- which code is which

  const DIGITS: string := "0123456789"
  const UPPER: string := "ABCDEFGHIJKLMNOPQRSTUVWXYZ"
  const LOWER: string := "abcdefghijklmnopqrstuvwxyz"
  const MARKS: string := "-_.~"

  /** The position of a byte in a run of consecutive characters. */
  lemma InRun(b: Byte, run: string, first: char)
    requires first as int + |run| <= 256 && forall i :: 0 <= i < |run| ==> run[i] as int == first as int + i
    ensures b as char in run <==> first as int <= b < first as int + |run|
  {
    if first as int <= b < first as int + |run| {
      assert run[b - first as int] as int == b;
    }
  }

  lemma RunsAreConsecutive()
    ensures |DIGITS| == 10 && forall i :: 0 <= i < 10 ==> DIGITS[i] as int == '0' as int + i
    ensures |UPPER| == 26 && forall i :: 0 <= i < 26 ==> UPPER[i] as int == 'A' as int + i
    ensures |LOWER| == 26 && forall i :: 0 <= i < 26 ==> LOWER[i] as int == 'a' as int + i
  {
  }

  /** The bytes that stand for themselves: letters, digits and four marks (section 2.3 of RFC 3986). */
  lemma UnreservedAre(b: Byte)
    ensures Unreserved(b) <==> b as char in DIGITS || b as char in UPPER || b as char in LOWER || b as char in MARKS
  {
    RunsAreConsecutive();
    InRun(b, DIGITS, '0');
    InRun(b, UPPER, 'A');
    InRun(b, LOWER, 'a');
    assert b as char in MARKS <==> b as char == '-' || b as char == '_' || b as char == '.' || b as char == '~';
  }

  predicate UpperHex(b: Byte) { b as char in DIGITS || 65 <= b <= 70 }

  /**
   The code of one byte: itself if it is unreserved, + for a space, and otherwise % with two upper-case
   hexadecimal digits of its value.
   */
  lemma CodeOf(b: Byte)
    ensures Unreserved(b) ==> Encode([b]) == [b]
    ensures b == SPACE ==> Encode([b]) == [PLUS]
    ensures !Unreserved(b) && b != SPACE ==>
              var e := Encode([b]);
              && |e| == 3 && e[0] == PERCENT && UpperHex(e[1]) && UpperHex(e[2])
              && FromHex(e[1]).Some? && FromHex(e[2]).Some?
              && FromHex(e[1]).value as int * 16 + FromHex(e[2]).value as int == b
  {
    assert [b][1..] == [] && Encode([b]) == EncodeByte(b) + Encode([]);
    HexDigit(b / 16);
    HexDigit(b % 16);
  }

  lemma HexDigit(x: Byte)
    requires x < 16
    ensures UpperHex(ToHex(x)) && FromHex(ToHex(x)) == Some(x)
  {
    RunsAreConsecutive();
    InRun(ToHex(x), DIGITS, '0');
  }

  /** Each byte is encoded by itself. */
  lemma {:induction false} EncodeConcat(a: Bytes, b: Bytes)
    ensures Encode(a + b) == Encode(a) + Encode(b)
  {
    if a == [] {
      assert a + b == b;
    } else {
      assert (a + b)[0] == a[0] && (a + b)[1..] == a[1..] + b;
      EncodeConcat(a[1..], b);
    }
  }

  /** Lower-case digits decode like upper-case ones. */
  lemma LowerHex(x: Byte)
    requires 97 <= x <= 122
    ensures FromHex(x) == FromHex(x - 32)
  {
  }

  /** An item is split at its first =, whatever follows; without one it is its own key and value. */
  lemma SplitAtFirst(key: Bytes, rest: Bytes)
    ensures ParseItem(Encode(key) + [EQUALS] + rest)
            == if Decode(rest).None? then None else Some(Pair(key, Decode(rest).value))
    ensures ParseItem(Encode(key)) == Some(Pair(key, key))
  {
    var k := Encode(key);
    EncodeHasNo(key, EQUALS);
    FindAt(k, EQUALS, rest);
    var item := k + [EQUALS] + rest;
    assert item[..|k|] == k && item[|k| + 1..] == rest;
    assert k[..|k|] == k;
    RoundTrip(key);
  }
}
