/** The Nano address codec, swap-core/nano-ceremony/src/address.rs, for any checksum
    function: base-32 text over four zero bits, a 32-byte key and a 5-byte checksum. */
module Address {
  import opened Chunking
  import opened Common

  type Byte = x: nat | x < 256
  type Key = s: seq<Byte> | |s| == 32 witness seq(32, _ => 0)
  type Digest = s: seq<Byte> | |s| == 5 witness [0, 0, 0, 0, 0]

  const ALPHABET: string := "13456789abcdefghijkmnopqrstuwxyz"

  // ---------- one group of bits, most significant first ----------

  function Pow2(n: nat): (p: nat)
    ensures p >= 1
  {
    if n == 0 then 1 else 2 * Pow2(n - 1)
  }

  function ShiftRight(v: nat, n: nat): nat {
    if n == 0 then v else ShiftRight(v, n - 1) / 2
  }

  function BitsOf(v: nat, width: nat): (bits: seq<bool>)
    ensures |bits| == width
  {
    if width == 0 then [] else BitsOf(v / 2, width - 1) + [v % 2 == 1]
  }

  function ValueOf(bits: seq<bool>): (v: nat)
    ensures v < Pow2(|bits|)
  {
    if bits == [] then 0
    else 2 * ValueOf(bits[..|bits| - 1]) + (if bits[|bits| - 1] then 1 else 0)
  }

  lemma {:induction false} ValueOfBitsOf(v: nat, width: nat)
    requires v < Pow2(width)
    ensures ValueOf(BitsOf(v, width)) == v
  {
    if width > 0 {
      ValueOfBitsOf(v / 2, width - 1);
      assert BitsOf(v, width)[..width - 1] == BitsOf(v / 2, width - 1);
    }
  }

  lemma {:induction false} BitsOfValueOf(bits: seq<bool>)
    ensures BitsOf(ValueOf(bits), |bits|) == bits
  {
    if bits != [] {
      BitsOfValueOf(bits[..|bits| - 1]);
    }
  }

  // ---------- groups of `width` bits: bytes of eight, digits of five ----------

  predicate Fit(values: seq<nat>, width: nat) {
    forall i :: 0 <= i < |values| ==> values[i] < Pow2(width)
  }

  function Groups(values: seq<nat>, width: nat): (groups: seq<seq<bool>>)
    ensures |groups| == |values| && AllOf(groups, width)
  {
    seq(|values|, i requires 0 <= i < |values| => BitsOf(values[i], width))
  }

  function Values(groups: seq<seq<bool>>): (values: seq<nat>)
    ensures |values| == |groups|
  {
    seq(|groups|, i requires 0 <= i < |groups| => ValueOf(groups[i]))
  }

  lemma ValuesOfGroups(values: seq<nat>, width: nat)
    requires Fit(values, width)
    ensures Values(Groups(values, width)) == values
  {
    forall i | 0 <= i < |values| ensures ValueOf(Groups(values, width)[i]) == values[i] {
      ValueOfBitsOf(values[i], width);
    }
  }

  lemma GroupsOfValues(groups: seq<seq<bool>>, width: nat)
    requires AllOf(groups, width)
    ensures Groups(Values(groups), width) == groups && Fit(Values(groups), width)
  {
    forall i | 0 <= i < |groups| ensures BitsOf(ValueOf(groups[i]), width) == groups[i] {
      BitsOfValueOf(groups[i]);
    }
  }

  function Spread(values: seq<nat>, width: nat): (bits: seq<bool>)
    ensures |bits| == |values| * width
  {
    FlattenLength(Groups(values, width), width);
    Flatten(Groups(values, width))
  }

  function Gather(bits: seq<bool>, width: nat): seq<nat> {
    Values(Chunks(bits, width))
  }

  lemma GatherSpread(values: seq<nat>, width: nat)
    requires Fit(values, width) && width > 0
    ensures Gather(Spread(values, width), width) == values
  {
    ChunksFlatten(Groups(values, width), width);
    ValuesOfGroups(values, width);
  }

  lemma SpreadGather(bits: seq<bool>, width: nat, n: nat)
    requires |bits| == n * width && width > 0
    ensures Fit(Gather(bits, width), width) && Spread(Gather(bits, width), width) == bits
  {
    WholeIs(|bits|, width, n);
    FlattenChunks(bits, width);
    GroupsOfValues(Chunks(bits, width), width);
  }

  lemma Widths()
    ensures Pow2(5) == 32 && Pow2(8) == 256
  {
  }

  lemma SpreadPush(values: seq<nat>, k: nat, width: nat)
    requires k < |values|
    ensures Spread(values[..k + 1], width) == Spread(values[..k], width) + BitsOf(values[k], width)
  {
    assert Groups(values[..k + 1], width) == Groups(values[..k], width) + [BitsOf(values[k], width)];
    FlattenPush(Groups(values[..k], width), BitsOf(values[k], width));
  }

  /** `bytes_to_bits`: the bits of each byte after `pad` zeros. */
  method BytesToBits(bytes: seq<Byte>, pad: nat) returns (bits: seq<bool>)
    ensures bits == seq(pad, _ => false) + Spread(bytes, 8)
  {
    bits := seq(pad, _ => false);
    ghost var start := bits;
    for k := 0 to |bytes|
      invariant bits == start + Spread(bytes[..k], 8)
    {
      bits := PushGroup(bits, bytes[k], 8);
      SpreadPush(bytes, k, 8);
    }
    assert bytes[..|bytes|] == bytes;
  }

  /** The inner loop: one group, most significant bit first. */
  method PushGroup(bits: seq<bool>, v: nat, width: nat) returns (pushed: seq<bool>)
    ensures pushed == bits + BitsOf(v, width)
  {
    pushed := bits;
    var i := width;
    while i > 0
      invariant 0 <= i <= width
      invariant pushed == bits + BitsOf(ShiftRight(v, i), width - i)
    {
      i := i - 1;
      pushed := pushed + [ShiftRight(v, i) % 2 == 1];
    }
  }

  // ---------- characters ----------

  lemma AlphabetSteps()
    ensures |ALPHABET| == 32 && forall i :: 0 <= i < 31 ==> ALPHABET[i] < ALPHABET[i + 1]
  {
  }

  lemma {:induction false} AlphabetAscends(i: nat, j: nat)
    requires i < j < |ALPHABET|
    ensures ALPHABET[i] < ALPHABET[j]
    decreases j - i
  {
    AlphabetSteps();
    if i + 1 < j {
      AlphabetAscends(i + 1, j);
    }
  }

  /** `char_value`: the first position of the character in the alphabet from `i` on. */
  function CharValue(c: char, i: nat := 0): (v: Option<nat>)
    requires i <= |ALPHABET|
    ensures v.Some? ==> i <= v.value < |ALPHABET| && ALPHABET[v.value] == c
    ensures v == None ==> forall k :: i <= k < |ALPHABET| ==> ALPHABET[k] != c
    decreases |ALPHABET| - i
  {
    if i == |ALPHABET| then None else if ALPHABET[i] == c then Some(i) else CharValue(c, i + 1)
  }

  lemma CharValueOfDigit(v: nat)
    requires v < |ALPHABET|
    ensures CharValue(ALPHABET[v]) == Some(v)
  {
    var found := CharValue(ALPHABET[v]);
    if found.value < v {
      AlphabetAscends(found.value, v);
    } else if found.value > v {
      AlphabetAscends(v, found.value);
    }
  }

  function Chars(digits: seq<nat>): (text: string)
    requires Fit(digits, 5)
    ensures |text| == |digits|
  {
    Widths();
    seq(|digits|, i requires 0 <= i < |digits| => ALPHABET[digits[i]])
  }

  predicate InAlphabet(text: string) {
    forall i :: 0 <= i < |text| ==> CharValue(text[i]).Some?
  }

  function Digits(text: string): (digits: seq<nat>)
    requires InAlphabet(text)
    ensures |digits| == |text| && Fit(digits, 5)
  {
    Widths();
    seq(|text|, i requires 0 <= i < |text| => CharValue(text[i]).value)
  }

  lemma DigitsOfChars(digits: seq<nat>)
    requires Fit(digits, 5)
    ensures InAlphabet(Chars(digits)) && Digits(Chars(digits)) == digits
  {
    Widths();
    forall i | 0 <= i < |digits| ensures CharValue(Chars(digits)[i]) == Some(digits[i]) {
      CharValueOfDigit(digits[i]);
    }
  }

  lemma CharsOfDigits(text: string)
    requires InAlphabet(text)
    ensures Chars(Digits(text)) == text
  {
    forall i | 0 <= i < |text| ensures Chars(Digits(text))[i] == text[i] {
      assert CharValue(text[i]).Some?;
    }
  }

  /** `encode_bits`: one character for every five bits. */
  function EncodeBits(bits: seq<bool>): string
    requires |bits| % 5 == 0
  {
    SpreadGather(bits, 5, |bits| / 5);
    Chars(Gather(bits, 5))
  }

  lemma DigitsPush(text: string, k: nat)
    requires k < |text| && InAlphabet(text[..k]) && CharValue(text[k]).Some?
    ensures InAlphabet(text[..k + 1])
    ensures Spread(Digits(text[..k + 1]), 5) == Spread(Digits(text[..k]), 5) + BitsOf(CharValue(text[k]).value, 5)
  {
    var shorter, longer := text[..k], text[..k + 1];
    forall i | 0 <= i < k + 1 ensures CharValue(longer[i]).Some? {
      assert i < k ==> CharValue(shorter[i]).Some?;
    }
    var digits := Digits(longer);
    assert digits[..k] == Digits(shorter) && digits[..k + 1] == digits;
    SpreadPush(digits, k, 5);
  }

  /** The bits of `text`, pushed character by character, or None at the first stranger. */
  method PushBits(text: string) returns (bits: Option<seq<bool>>)
    ensures bits == if InAlphabet(text) then Some(Spread(Digits(text), 5)) else None
  {
    var pushed: seq<bool> := [];
    for k := 0 to |text|
      invariant InAlphabet(text[..k]) && pushed == Spread(Digits(text[..k]), 5)
    {
      var v := CharValue(text[k]);
      if v == None { return None; }
      pushed := PushGroup(pushed, v.value, 5);
      DigitsPush(text, k);
    }
    assert text[..|text|] == text;
    bits := Some(pushed);
  }

  /** Packs bits into an array of bytes, most significant bit first. */
  method PackBytes(bits: seq<bool>) returns (bytes: array<Byte>)
    requires |bits| % 8 == 0
    ensures 8 * bytes.Length == |bits| && bytes[..] == Gather(bits, 8)
  {
    SpreadGather(bits, 8, |bits| / 8);
    Widths();
    var chunks := Chunks(bits, 8);
    bytes := new Byte[|chunks|];
    for i := 0 to |chunks|
      invariant forall k :: 0 <= k < i ==> bytes[k] == Gather(bits, 8)[k]
    {
      var v := PackOne(chunks[i]);
      assert v == Gather(bits, 8)[i];
      bytes[i] := v;
    }
  }

  /** The inner loop: one byte. */
  method PackOne(chunk: seq<bool>) returns (v: nat)
    ensures v == ValueOf(chunk)
  {
    v := 0;
    for j := 0 to |chunk|
      invariant v == ValueOf(chunk[..j])
    {
      assert chunk[..j + 1][..j] == chunk[..j];
      v := v * 2 + (if chunk[j] then 1 else 0);
    }
    assert chunk[..|chunk|] == chunk;
  }

  // ---------- addresses ----------

  /** The digest is stored in reverse. */
  function Checksum(digest: Key -> Digest, key: Key): Digest {
    var d := digest(key);
    [d[4], d[3], d[2], d[1], d[0]]
  }

  const PAD: seq<bool> := [false, false, false, false]

  /** All 300 bits of an address. */
  function Payload(digest: Key -> Digest, key: Key): (bits: seq<bool>)
    ensures |bits| == 300 && bits[..4] == PAD
    ensures bits[4..260] == Spread(key, 8) && bits[260..] == Spread(Checksum(digest, key), 8)
  {
    PAD + Spread(key, 8) + Spread(Checksum(digest, key), 8)
  }

  function Text(digest: Key -> Digest, key: Key): string {
    EncodeBits(Payload(digest, key))
  }

  method Encode(digest: Key -> Digest, key: Key) returns (address: string)
    ensures address == "nano_" + Text(digest, key)
  {
    var body := BytesToBits(key, 4);
    var check := BytesToBits(Checksum(digest, key), 0);
    assert body == PAD + Spread(key, 8);
    assert check == Spread(Checksum(digest, key), 8);
    TextConcat(body, check);
    address := "nano_" + EncodeBits(body) + EncodeBits(check);
  }

  lemma TextConcat(a: seq<bool>, b: seq<bool>)
    requires |a| % 5 == 0 && |b| % 5 == 0
    ensures EncodeBits(a + b) == EncodeBits(a) + EncodeBits(b)
  {
    WholeIs(|a|, 5, |a| / 5);
    WholeIs(|b|, 5, |b| / 5);
    ChunksConcat(a, b, 5);
    assert Gather(a + b, 5) == Gather(a, 5) + Gather(b, 5);
  }

  /** A text is a key's exactly when its bits are that key's payload. */
  lemma TextIsPayload(digest: Key -> Digest, text: string, k: Key)
    ensures |Text(digest, k)| == 60
    ensures text == Text(digest, k) <==> InAlphabet(text) && Spread(Digits(text), 5) == Payload(digest, k)
  {
    TextIsBits(text, Payload(digest, k));
  }

  lemma TextIsBits(text: string, bits: seq<bool>)
    requires |bits| % 5 == 0
    ensures |EncodeBits(bits)| == |bits| / 5
    ensures text == EncodeBits(bits) <==> InAlphabet(text) && Spread(Digits(text), 5) == bits
  {
    var digits := Gather(bits, 5);
    SpreadGather(bits, 5, |bits| / 5);
    DigitsOfChars(digits);
    if InAlphabet(text) {
      GatherSpread(Digits(text), 5);
      CharsOfDigits(text);
    }
  }

  lemma PayloadParts(digest: Key -> Digest, k: Key)
    ensures Payload(digest, k)[..4] == PAD
    ensures Gather(Payload(digest, k)[4..260], 8) == k
    ensures Gather(Payload(digest, k)[260..], 8) == Checksum(digest, k)
  {
    Widths();
    GatherSpread(k, 8);
    GatherSpread(Checksum(digest, k), 8);
  }

  /** Zero padding, a key's bits and a matching checksum's bits are the payload of that key. */
  lemma PayloadOfParts(digest: Key -> Digest, middle: seq<bool>, tail: seq<bool>, key: Key)
    requires |middle| == 256 && |tail| == 40
    requires Gather(middle, 8) == key && Gather(tail, 8) == Checksum(digest, key)
    ensures PAD + middle + tail == Payload(digest, key)
  {
    SpreadGather(middle, 8, 32);
    SpreadGather(tail, 8, 5);
  }

  // ---------- an address as a number ----------

  /** The number that digits stand for, the most significant first. */
  function Number(digits: seq<nat>, base: nat): nat {
    if digits == [] then 0 else Number(digits[..|digits| - 1], base) * base + digits[|digits| - 1]
  }

  /** The number that bytes stand for, the least significant first. */
  function Little(bytes: seq<nat>): nat {
    if bytes == [] then 0 else bytes[0] + 256 * Little(bytes[1..])
  }

  lemma {:induction false} PowSum(m: nat, n: nat)
    ensures Pow2(m + n) == Pow2(m) * Pow2(n)
  {
    if n > 0 {
      PowSum(m, n - 1);
      assert Pow2(m + n) == 2 * Pow2(m + n - 1);
    }
  }

  /** A number moved n places to the left. */
  function Shifted(v: nat, n: nat): nat {
    if n == 0 then v else 2 * Shifted(v, n - 1)
  }

  lemma {:induction false} ShiftedIs(v: nat, n: nat)
    ensures Shifted(v, n) == v * Pow2(n)
  {
    if n > 0 {
      ShiftedIs(v, n - 1);
      Twofold(v, Pow2(n - 1));
    }
  }

  lemma Twofold(a: nat, p: nat)
    ensures a * (2 * p) == 2 * (a * p)
  {
  }

  lemma {:induction false} ValueConcat(a: seq<bool>, b: seq<bool>)
    ensures ValueOf(a + b) == Shifted(ValueOf(a), |b|) + ValueOf(b)
  {
    if b == [] {
      assert a + b == a;
    } else {
      assert (a + b)[..|a + b| - 1] == a + b[..|b| - 1];
      ValueConcat(a, b[..|b| - 1]);
    }
  }

  lemma {:induction false} NoBits(n: nat)
    ensures ValueOf(seq(n, _ => false)) == 0
  {
    if n > 0 {
      assert seq(n, _ => false)[..n - 1] == seq(n - 1, _ => false);
      NoBits(n - 1);
    }
  }

  lemma {:induction false} SpreadNumber(values: seq<nat>, width: nat)
    requires Fit(values, width)
    ensures ValueOf(Spread(values, width)) == Number(values, Pow2(width))
  {
    if values == [] {
      assert Spread(values, width) == [];
    } else {
      var n := |values| - 1;
      SpreadNumber(values[..n], width);
      SpreadPush(values, n, width);
      assert values[..n + 1] == values;
      ValueConcat(Spread(values[..n], width), BitsOf(values[n], width));
      ShiftedIs(ValueOf(Spread(values[..n], width)), width);
      ValueOfBitsOf(values[n], width);
    }
  }

  lemma PaddedNumber(k: Key)
    ensures ValueOf(PAD + Spread(k, 8)) == Number(k, 256)
  {
    Widths();
    SpreadNumber(k, 8);
    NoBits(4);
    assert PAD == seq(4, _ => false);
    ValueConcat(PAD, Spread(k, 8));
    ShiftedIs(0, 256);
  }

  lemma PayloadNumber(digest: Key -> Digest, k: Key)
    ensures ValueOf(Payload(digest, k)) == Shifted(Number(k, 256), 40) + Number(Checksum(digest, k), 256)
  {
    Widths();
    PaddedNumber(k);
    SpreadNumber(Checksum(digest, k), 8);
    ValueConcat(PAD + Spread(k, 8), Spread(Checksum(digest, k), 8));
  }

  lemma ChecksumNumber(digest: Key -> Digest, k: Key)
    ensures Number(Checksum(digest, k), 256) == Little(digest(k))
  {
    var (c, d) := (Checksum(digest, k), digest(k));
    assert c[..4][..3] == c[..3] && c[..3][..2] == c[..2] && c[..2][..1] == c[..1] && c[..1][..0] == [];
    assert d[1..][1..] == d[2..] && d[2..][1..] == d[3..] && d[3..][1..] == d[4..] && d[4..][1..] == [];
    assert Number(c[..1], 256) == d[4] == Little(d[4..]);
    assert Number(c[..2], 256) == Little(d[3..]);
    assert Number(c[..3], 256) == Little(d[2..]);
    assert Number(c[..4], 256) == Little(d[1..]);
  }

  /** AN ADDRESS IS A NUMBER.  Read as sixty base-32 digits, the text of a key is the key as a 256-bit
      big-endian number followed by its digest as a 40-bit little-endian one. */
  lemma TextIsNumber(digest: Key -> Digest, k: Key)
    ensures var t := Text(digest, k);
            && |t| == 60 && InAlphabet(t)
            && Number(Digits(t), 32) == Number(k, 256) * 0x100_0000_0000 + Little(digest(k))
  {
    var t := Text(digest, k);
    TextIsPayload(digest, t, k);
    Widths();
    SpreadNumber(Digits(t), 5);
    PayloadNumber(digest, k);
    ChecksumNumber(digest, k);
    ShiftedIs(Number(k, 256), 40);
    Forty();
  }

  lemma Forty()
    ensures Pow2(40) == 0x100_0000_0000
  {
    PowSum(20, 20);
    PowSum(10, 10);
    PowSum(5, 5);
    Widths();
  }

  lemma AlphabetAt(k: nat)
    requires k < 32
    ensures |ALPHABET| == 32
    ensures ALPHABET[k] as int ==
              if k == 0 then '1' as int else if k < 8 then '3' as int + k - 1 else if k < 19 then 'a' as int + k - 8
              else if k < 28 then 'm' as int + k - 19 else 'w' as int + k - 28
  {
  }

  /** The digits are the figures and the small letters without 0, 2, l and v. */
  lemma AlphabetIs(c: char)
    ensures CharValue(c).Some? <==> ('0' <= c <= '9' || 'a' <= c <= 'z') && c !in {'0', '2', 'l', 'v'}
  {
    AlphabetSteps();
    if CharValue(c).Some? {
      AlphabetAt(CharValue(c).value);
    } else if ('0' <= c <= '9' || 'a' <= c <= 'z') && c !in {'0', '2', 'l', 'v'} {
      var n := c as int;
      AlphabetAt(
        if c == '1' then 0 else if c <= '9' then n - '3' as int + 1
        else if c < 'l' then n - 'a' as int + 8 else if c < 'v' then n - 'm' as int + 19 else n - 'w' as int + 28);
      assert false;
    }
  }

  /** ONE KEY PER TEXT: keys with the same address are the same key. */
  lemma TextIsInjective(digest: Key -> Digest, k: Key, l: Key)
    requires Text(digest, k) == Text(digest, l)
    ensures k == l
  {
    TextIsPayload(digest, Text(digest, k), k);
    TextIsPayload(digest, Text(digest, l), l);
    PayloadParts(digest, k);
    PayloadParts(digest, l);
  }

  /** The checks of `decode` on the 300 bits: padding, then checksum. */
  method Unpack(digest: Key -> Digest, bits: seq<bool>) returns (r: Option<Key>)
    requires |bits| == 300
    ensures r.Some? ==> bits == Payload(digest, r.value)
    ensures forall k: Key :: bits == Payload(digest, k) ==> r == Some(k)
  {
    forall k: Key | bits == Payload(digest, k)
      ensures bits[..4] == PAD && Gather(bits[4..260], 8) == k && Gather(bits[260..], 8) == Checksum(digest, k)
    {
      PayloadParts(digest, k);
    }
    if bits[..4] != PAD { return None; }
    var key := PackBytes(bits[4..260]);
    var check := PackBytes(bits[260..]);
    if check[..] != Checksum(digest, key[..]) { return None; }
    PayloadOfParts(digest, bits[4..260], bits[260..], key[..]);
    assert bits == PAD + bits[4..260] + bits[260..];
    r := Some(key[..]);
  }

  /** The text after the prefix is accepted exactly when it is the text of the key returned. */
  method DecodeRest(digest: Key -> Digest, rest: string) returns (r: Option<Key>)
    ensures r.Some? ==> rest == Text(digest, r.value)
    ensures forall k: Key :: rest == Text(digest, k) ==> r == Some(k)
  {
    forall k: Key
      ensures rest == Text(digest, k) <==> InAlphabet(rest) && Spread(Digits(rest), 5) == Payload(digest, k)
      ensures rest == Text(digest, k) ==> |rest| == 60
    {
      TextIsPayload(digest, rest, k);
    }
    if |rest| != 60 { return None; }
    var bits := PushBits(rest);
    if bits == None { return None; }
    r := Unpack(digest, bits.value);
  }

  /** EXACT DECODING.  `decode` returns a key exactly for that key's text behind one of the
      two prefixes, so a `nano_` address is accepted only if encoding the key gives it back. */
  method Decode(digest: Key -> Digest, address: string) returns (r: Option<Key>)
    ensures r.Some? ==> address == "nano_" + Text(digest, r.value) || address == "xrb_" + Text(digest, r.value)
    ensures forall k: Key :: address == "nano_" + Text(digest, k) ==> r == Some(k)
    ensures forall k: Key :: address == "xrb_" + Text(digest, k) ==> r == Some(k)
  {
    if "nano_" <= address {
      assert address == "nano_" + address[5..];
      r := DecodeRest(digest, address[5..]);
      forall k: Key | address == "nano_" + Text(digest, k) ensures r == Some(k) {
        assert address[5..] == Text(digest, k);
      }
      assert address[0] == 'n';
    } else if "xrb_" <= address {
      assert address == "xrb_" + address[4..];
      r := DecodeRest(digest, address[4..]);
      forall k: Key | address == "xrb_" + Text(digest, k) ensures r == Some(k) {
        assert address[4..] == Text(digest, k);
      }
    } else {
      r := None;
    }
  }

  /** ROUND TRIP, for every key and every checksum function. */
  method EncodeThenDecode(digest: Key -> Digest, key: Key) returns (r: Option<Key>)
    ensures r == Some(key)
  {
    var address := Encode(digest, key);
    r := Decode(digest, address);
  }
}
