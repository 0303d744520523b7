/** Base64 as in section 4 of RFC 4648: bytes by groups of three, digits by groups of four. */
module Base64 {

  type byte = b: int | 0 <= b < 256

  datatype Result<T> = Ok(value: T) | RangeError | Bug

  const PAD: char := '='

  function From(first: char, n: nat): string
    requires first as int + n < 0x80
  {
    seq(n, i requires 0 <= i < n => (first as int + i) as char)
  }

  /** The 64 digits of the standard, in its order. */
  function Alphabet(): (digits: string)
    ensures |digits| == 64
  {
    From('A', 26) + From('a', 26) + From('0', 10) + ['+', '/']
  }

  // ------------------------------------------------------------------ digits

  function Value64(a: char): (r: Result<nat>)
    ensures r.Ok? ==> r.value < 64
  {
    if 'A' <= a <= 'Z' then Ok((a - 'A') as nat)
    else if 'a' <= a <= 'z' then Ok((a - 'a') as nat + 26)
    else if '0' <= a <= '9' then Ok((a - '0') as nat + 52)
    else if a == '+' then Ok(62)
    else if a == '/' then Ok(63)
    else if a == PAD then Ok(0)
    else RangeError
  }

  function ToValue64(v: nat): Result<char> {
    if v < 26 then Ok('A' + v as char)
    else if v < 52 then Ok('a' + (v - 26) as char)
    else if v < 62 then Ok('0' + (v - 52) as char)
    else if v == 62 then Ok('+')
    else if v == 63 then Ok('/')
    else Bug
  }

  /** The digits are those of the standard, in its order, and no other value has one. */
  lemma DigitsAreStandard(v: nat)
    ensures ToValue64(v) == if v < 64 then Ok(Alphabet()[v]) else Bug
  {
  }

  lemma DigitReadBack(v: nat)
    requires v < 64
    ensures ToValue64(v).Ok? && ToValue64(v).value != PAD && Value64(ToValue64(v).value) == Ok(v)
  {
  }

  /** Only the digits and the padding have a value. */
  lemma ReadIsDigit(a: char)
    ensures Value64(a).Ok? <==> a in Alphabet() || a == PAD
    ensures Value64(a).Ok? && a != PAD ==> ToValue64(Value64(a).value) == Ok(a)
  {
    if Value64(a).Ok? && a != PAD {
      var v := Value64(a).value;
      DigitsAreStandard(v);
      assert ToValue64(v) == Ok(a);
      assert Alphabet()[v] == a;
    }
    if a in Alphabet() {
      var i :| 0 <= i < |Alphabet()| && Alphabet()[i] == a;
      DigitsAreStandard(i);
      DigitReadBack(i);
    }
  }

  // ------------------------------------------------------------------ groups

  /** The digit of a value known to have one. */
  function Digit(v: nat): char
    requires v < 64
  {
    ToValue64(v).value
  }

  /** Four digits for the first n of three bytes. */
  function Unconvert(n: int, a: byte, b: byte, c: byte): (r: Result<string>)
    ensures r.Ok? <==> 1 <= n <= 3
    ensures r.Ok? ==> |r.value| == 4
  {
    if n < 1 || n > 3 then Bug
    else
      var b' := if n == 1 then 0 else b;
      var c' := if n < 3 then 0 else c;
      Ok([Digit(a / 4), Digit((a % 4) * 16 + b' / 16),
          if n == 1 then PAD else Digit((b' % 16) * 4 + c' / 64),
          if n < 3 then PAD else Digit(c' % 64)])
  }

  /** Three bytes for four digits. */
  function Convert(a: char, b: char, c: char, d: char): (r: Result<seq<byte>>)
    ensures r.Ok? ==> |r.value| == 3
  {
    var v1, v2, v3, v4 := Value64(a), Value64(b), Value64(c), Value64(d);
    if !v1.Ok? || !v2.Ok? || !v3.Ok? || !v4.Ok? then RangeError
    else
      Ok([v1.value * 4 + v2.value / 16, (v2.value % 16) * 16 + v3.value / 4, (v3.value % 4) * 64 + v4.value])
  }

  function ByteGroup(a: byte, b: byte, c: byte): nat {
    a * 0x10000 + b * 0x100 + c
  }

  function DigitGroup(v1: nat, v2: nat, v3: nat, v4: nat): nat {
    v1 * 0x40000 + v2 * 0x1000 + v3 * 0x40 + v4
  }

  /** Three bytes and their four digits are the same 24 bits. */
  lemma EncodedGroup(a: byte, b: byte, c: byte)
    ensures var t := Unconvert(3, a, b, c).value;
      && (forall i :: 0 <= i < 4 ==> Value64(t[i]).Ok? && t[i] != PAD)
      && DigitGroup(Value64(t[0]).value, Value64(t[1]).value, Value64(t[2]).value, Value64(t[3]).value) ==
         ByteGroup(a, b, c)
  {
    DigitReadBack(a / 4);
    DigitReadBack((a % 4) * 16 + b / 16);
    DigitReadBack((b % 16) * 4 + c / 64);
    DigitReadBack(c % 64);
  }

  lemma DecodedGroup(a: char, b: char, c: char, d: char)
    requires Convert(a, b, c, d).Ok?
    ensures var s := Convert(a, b, c, d).value;
      DigitGroup(Value64(a).value, Value64(b).value, Value64(c).value, Value64(d).value) == ByteGroup(s[0], s[1], s[2])
  {
  }

  lemma ByteGroupTellsApart(a: byte, b: byte, c: byte, a': byte, b': byte, c': byte)
    requires ByteGroup(a, b, c) == ByteGroup(a', b', c')
    ensures a == a' && b == b' && c == c'
  {
  }

  /** What a block gives back: its bytes, zeros in the place of those left out. */
  lemma BlockReadBack(n: nat, a: byte, b: byte, c: byte)
    requires 1 <= n <= 3
    ensures var t := Unconvert(n, a, b, c).value;
      Convert(t[0], t[1], t[2], t[3]) == Ok([a, if n == 1 then 0 else b, if n < 3 then 0 else c])
  {
    var b' := if n == 1 then 0 else b;
    var c' := if n < 3 then 0 else c;
    var t := Unconvert(n, a, b, c).value;
    EncodedGroup(a, b', c');
    PaddingIsZero(n, a, b', c');
    DecodedGroup(t[0], t[1], t[2], t[3]);
    var s := Convert(t[0], t[1], t[2], t[3]).value;
    ByteGroupTellsApart(s[0], s[1], s[2], a, b', c');
  }

  lemma PaddingIsZero(n: nat, a: byte, b: byte, c: byte)
    requires 1 <= n <= 3 && (n == 1 ==> b == 0) && (n < 3 ==> c == 0)
    ensures var t, w := Unconvert(n, a, b, c).value, Unconvert(3, a, b, c).value;
      forall i :: 0 <= i < 4 ==> Value64(t[i]) == Value64(w[i])
  {
    PaddingReadsAsZero();
    if n == 1 {
      assert (b % 16) * 4 + c / 64 == 0;
    }
    if n < 3 {
      assert c % 64 == 0;
    }
  }

  lemma PaddingReadsAsZero()
    ensures Value64(PAD) == Value64(Digit(0))
  {
  }

  // ------------------------------------------------------------------ encoding

  function Block(s: seq<byte>, i: nat): string
    requires 3 * i + 3 <= |s|
  {
    Unconvert(3, s[3 * i], s[3 * i + 1], s[3 * i + 2]).value
  }

  /** The first k full blocks. */
  function Blocks(s: seq<byte>, k: nat): (t: string)
    requires 3 * k <= |s|
    ensures |t| == 4 * k
  {
    if k == 0 then "" else Blocks(s, k - 1) + Block(s, k - 1)
  }

  /** The last, partial, block. */
  function Last(rest: seq<byte>): (t: string)
    requires |rest| < 3
    ensures |t| == if rest == [] then 0 else 4
  {
    match |rest|
    case 0 => ""
    case 1 => Unconvert(1, rest[0], 0, 0).value
    case _ => Unconvert(2, rest[0], rest[1], 0).value
  }

  function Tail(s: seq<byte>): (t: string)
    ensures |t| == if |s| % 3 == 0 then 0 else 4
  {
    Last(s[|s| / 3 * 3..])
  }

  /** All the blocks. */
  function Encoded(s: seq<byte>): string {
    Blocks(s, |s| / 3) + Tail(s)
  }

  /** How many full blocks are encoded: the loop, which counts bytes, stops at the number of
      blocks. */
  function Rounds(s: seq<byte>): (k: nat)
    ensures 3 * k <= |s|
  {
    (|s| / 3 + 2) / 3
  }

  /** base64::encode */
  method Encode(s: seq<byte>) returns (ret: string)
    ensures ret == Blocks(s, Rounds(s)) + Tail(s)
  {
    ret := "";
    var num := |s| / 3;
    var res := |s| % 3;
    if |s| == 0 {
      return "";
    }
    ret := EncodeBlocks(s, num);
    num := num * 3;
    var last := EncodeLast(s, num, res);
    ret := ret + last;
  }

  method EncodeBlocks(s: seq<byte>, num: nat) returns (ret: string)
    requires num == |s| / 3
    ensures ret == Blocks(s, Rounds(s))
  {
    ret := "";
    var i := 0;
    ghost var k, all := 0, Rounds(s);
    while i < num
      invariant i == 3 * k && k <= all
      invariant ret == Blocks(s, k)
    {
      var block := EncodeBlock(s, i, k);
      ret := ret + block;
      i, k := i + 3, k + 1;
    }
    assert k == all;
  }

  method EncodeBlock(s: seq<byte>, i: nat, ghost k: nat) returns (t: string)
    requires i == 3 * k && i + 3 <= |s|
    ensures t == Block(s, k)
  {
    t := Unconvert(3, s[i], s[i + 1], s[i + 2]).value;
  }

  method EncodeLast(s: seq<byte>, num: nat, res: nat) returns (t: string)
    requires |s| == num + res && res < 3
    ensures t == Last(s[num..])
  {
    match res {
      case 0 => t := "";
      case 1 => t := Unconvert(1, s[num], 0, 0).value;
      case _ => t := Unconvert(2, s[num], s[num + 1], 0).value;
    }
  }

  /** All the blocks are encoded if and only if there is one full block at most. */
  lemma EncodedOnlyShort(s: seq<byte>)
    ensures Blocks(s, Rounds(s)) + Tail(s) == Encoded(s) <==> |s| < 6
  {
    ThirdOfBlocks(|s| / 3);
  }

  lemma ThirdOfBlocks(n: nat)
    ensures (n + 2) / 3 == n <==> n < 2
    ensures (n + 2) / 3 <= n
  {
  }

  /** The length, the digits and the padding that the standard prescribes. */
  lemma EncodedIsPadded(s: seq<byte>)
    ensures |Encoded(s)| == (|s| + 2) / 3 * 4
    ensures IsPadded(Encoded(s), (3 - |s| % 3) % 3)
  {
    EncodedLength(s, |s| / 3);
    PaddedBlocks(s, |s| / 3, s[3 * (|s| / 3)..]);
  }

  lemma EncodedLength(s: seq<byte>, k: nat)
    requires 3 * k <= |s| < 3 * k + 3
    ensures |Encoded(s)| == (|s| + 2) / 3 * 4
  {
    assert |s| / 3 == k;
  }

  lemma PaddedBlocks(s: seq<byte>, k: nat, rest: seq<byte>)
    requires 3 * k <= |s| && rest == s[3 * k..] && |rest| < 3
    ensures IsPadded(Blocks(s, k) + Last(rest), (3 - |rest|) % 3)
  {
    BlocksAreDigits(s, k);
    PaddedText(Blocks(s, k), rest);
  }

  /** Digits, then so many characters of padding. */
  ghost predicate IsPadded(t: string, missing: nat) {
    forall i :: 0 <= i < |t| ==> if i < |t| - missing then t[i] in Alphabet() else t[i] == PAD
  }

  lemma PaddedText(digits: string, rest: seq<byte>)
    requires |rest| < 3 && forall i :: 0 <= i < |digits| ==> digits[i] in Alphabet()
    ensures IsPadded(digits + Last(rest), (3 - |rest|) % 3)
  {
    if rest != [] {
      LastIsPadded(rest);
      PaddedEnd(digits, Last(rest), 3 - |rest|);
    } else {
      PaddedEnd(digits, "", 0);
    }
  }

  lemma PaddedEnd(digits: string, end: string, missing: nat)
    requires missing <= |end| && forall i :: 0 <= i < |digits| ==> digits[i] in Alphabet()
    requires IsPadded(end, missing)
    ensures IsPadded(digits + end, missing)
  {
    var t := digits + end;
    forall i | 0 <= i < |t| ensures if i < |t| - missing then t[i] in Alphabet() else t[i] == PAD {
      if i >= |digits| {
        assert t[i] == end[i - |digits|];
      }
    }
  }

  lemma LastIsPadded(rest: seq<byte>)
    requires 0 < |rest| < 3
    ensures forall i :: 0 <= i < 4 ==> if i <= |rest| then Last(rest)[i] in Alphabet() else Last(rest)[i] == PAD
  {
    DigitsIn(Last(rest), |rest|, rest[0], if |rest| == 1 then 0 else rest[1], 0);
  }

  lemma DigitsIn(t: string, n: nat, a: byte, b: byte, c: byte)
    requires 1 <= n <= 3 && t == Unconvert(n, a, b, c).value
    ensures forall i :: 0 <= i < 4 ==> if i <= n then t[i] in Alphabet() else t[i] == PAD
  {
    var b' := if n == 1 then 0 else b;
    var c' := if n < 3 then 0 else c;
    DigitsAreStandard(a / 4);
    DigitsAreStandard((a % 4) * 16 + b' / 16);
    DigitsAreStandard((b' % 16) * 4 + c' / 64);
    DigitsAreStandard(c' % 64);
  }

  lemma {:induction false} BlocksAreDigits(s: seq<byte>, k: nat)
    requires 3 * k <= |s|
    ensures forall i :: 0 <= i < |Blocks(s, k)| ==> Blocks(s, k)[i] in Alphabet()
  {
    if k > 0 {
      BlocksAreDigits(s, k - 1);
      DigitsIn(Block(s, k - 1), 3, s[3 * k - 3], s[3 * k - 2], s[3 * k - 1]);
    }
  }

  // ------------------------------------------------------------------ decoding

  /** The least padding that makes whole blocks. */
  function Completed(t: string): (r: string)
    ensures |r| % 4 == 0 && t <= r && |r| < |t| + 4
  {
    t + if |t| % 4 == 0 then "" else seq(4 - |t| % 4, _ => PAD)
  }

  method Complement(t: string) returns (r: string)
    ensures r == Completed(t)
  {
    r := t;
    var alone := |t| % 4;
    var missing := if alone != 0 then 4 - alone else 0;
    ghost var all := missing;
    while missing > 0
      invariant 0 <= missing <= all && r == t + seq(all - missing, _ => PAD)
    {
      r := r + [PAD];
      missing := missing - 1;
    }
  }

  /** The bytes of the first k blocks, or the refusal of one of their characters. */
  function DecodedBlocks(t: string, k: nat): (r: Result<seq<byte>>)
    requires 4 * k <= |t|
    ensures r.Ok? ==> |r.value| == 3 * k
  {
    if k == 0 then Ok([])
    else
      var before := DecodedBlocks(t, k - 1);
      var block := Convert(t[4 * k - 4], t[4 * k - 3], t[4 * k - 2], t[4 * k - 1]);
      if !before.Ok? then before else if !block.Ok? then block else Ok(before.value + block.value)
  }

  function Decoded(t: string): Result<seq<byte>> {
    DecodedBlocks(Completed(t), |Completed(t)| / 4)
  }

  /** base64::decode */
  method Decode(str: string) returns (r: Result<seq<byte>>)
    ensures r == Decoded(str)
  {
    var tmp := Complement(str);
    var len := |tmp|;
    var ret := [];
    var i := 0;
    ghost var k := 0;
    while i < len
      invariant i == 4 * k && k <= len / 4 && DecodedBlocks(tmp, k) == Ok(ret)
    {
      var block := Convert(tmp[i], tmp[i + 1], tmp[i + 2], tmp[i + 3]);
      NextDecoded(tmp, k, ret, block);
      if !block.Ok? {
        StaysRefused(tmp, k + 1, len / 4);
        return block;
      }
      ret := ret + block.value;
      i, k := i + 4, k + 1;
    }
    r := Ok(ret);
  }

  lemma NextDecoded(t: string, k: nat, before: seq<byte>, block: Result<seq<byte>>)
    requires 4 * k + 4 <= |t| && DecodedBlocks(t, k) == Ok(before)
    requires block == Convert(t[4 * k], t[4 * k + 1], t[4 * k + 2], t[4 * k + 3])
    ensures DecodedBlocks(t, k + 1) == if block.Ok? then Ok(before + block.value) else block
  {
  }

  lemma {:induction false} StaysRefused(t: string, j: nat, k: nat)
    requires j <= k && 4 * k <= |t| && !DecodedBlocks(t, j).Ok?
    ensures DecodedBlocks(t, k) == DecodedBlocks(t, j)
    decreases k
  {
    if j < k {
      StaysRefused(t, j, k - 1);
    }
  }

  /** A text is refused if and only if one of its characters is neither a digit nor padding. */
  lemma {:induction false} RefusedText(t: string, k: nat)
    requires 4 * k <= |t|
    ensures DecodedBlocks(t, k).Ok? <==> forall i :: 0 <= i < 4 * k ==> t[i] in Alphabet() || t[i] == PAD
    ensures !DecodedBlocks(t, k).Ok? ==> DecodedBlocks(t, k).RangeError?
  {
    if k > 0 {
      RefusedText(t, k - 1);
      ReadIsDigit(t[4 * k - 4]);
      ReadIsDigit(t[4 * k - 3]);
      ReadIsDigit(t[4 * k - 2]);
      ReadIsDigit(t[4 * k - 1]);
    }
  }

  lemma DecodeRefuses(t: string)
    ensures Decoded(t).Ok? <==> forall c :: c in t ==> c in Alphabet() || c == PAD
  {
    var r := Completed(t);
    RefusedText(r, |r| / 4);
    assert forall i :: 0 <= i < |t| ==> r[i] == t[i];
    assert forall i :: |t| <= i < |r| ==> r[i] == PAD;
  }

  // ------------------------------------------------------------------ round trip

  function Zeros(n: nat): seq<byte> {
    seq(n, _ => 0)
  }

  lemma {:induction false} BlocksReadBack(s: seq<byte>, t: string, k: nat)
    requires 3 * k <= |s| && 4 * k <= |t| && t[..4 * k] == Blocks(s, k)
    ensures DecodedBlocks(t, k) == Ok(s[..3 * k])
  {
    if k == 0 {
      assert s[..0] == [];
    } else {
      LastFour(t, 4 * k - 4, Blocks(s, k - 1), Block(s, k - 1));
      BlocksReadBack(s, t, k - 1);
      NextReadBack(s, t, k);
    }
  }

  lemma NextReadBack(s: seq<byte>, t: string, k: nat)
    requires 0 < k && 3 * k <= |s| && 4 * k <= |t| && DecodedBlocks(t, k - 1) == Ok(s[..3 * k - 3])
    requires var last := Block(s, k - 1);
      t[4 * k - 4] == last[0] && t[4 * k - 3] == last[1] && t[4 * k - 2] == last[2] && t[4 * k - 1] == last[3]
    ensures DecodedBlocks(t, k) == Ok(s[..3 * k])
  {
    BlockGives(s, k - 1);
    OneMoreBlock(t, k, s[..3 * k - 3], Block(s, k - 1), Three(s, 3 * k - 3));
    TakeThree(s, 3 * k - 3);
  }

  lemma BlockGives(s: seq<byte>, j: nat)
    requires 3 * j + 3 <= |s|
    ensures var t := Block(s, j); Convert(t[0], t[1], t[2], t[3]) == Ok(Three(s, 3 * j))
  {
    BlockReadBack(3, s[3 * j], s[3 * j + 1], s[3 * j + 2]);
  }

  function Three(s: seq<byte>, i: nat): seq<byte>
    requires i + 3 <= |s|
  {
    [s[i], s[i + 1], s[i + 2]]
  }

  lemma TakeThree(s: seq<byte>, i: nat)
    requires i + 3 <= |s|
    ensures s[..i + 3] == s[..i] + Three(s, i)
  {
  }

  lemma LastFour(t: string, n: nat, u: string, last: string)
    requires |u| == n && |last| == 4 && n + 4 <= |t| && t[..n + 4] == u + last
    ensures t[..n] == u && t[n] == last[0] && t[n + 1] == last[1] && t[n + 2] == last[2] && t[n + 3] == last[3]
  {
    assert t[..n] == t[..n + 4][..n] && u == (u + last)[..n];
    assert t[n] == t[..n + 4][n] && t[n + 1] == t[..n + 4][n + 1] && t[n + 2] == t[..n + 4][n + 2] &&
      t[n + 3] == t[..n + 4][n + 3];
  }

  lemma OneMoreBlock(t: string, k: nat, before: seq<byte>, block: string, bytes: seq<byte>)
    requires k > 0 && 4 * k <= |t| && |block| == 4 && DecodedBlocks(t, k - 1) == Ok(before)
    requires t[4 * k - 4] == block[0] && t[4 * k - 3] == block[1] && t[4 * k - 2] == block[2] &&
      t[4 * k - 1] == block[3]
    requires Convert(block[0], block[1], block[2], block[3]) == Ok(bytes)
    ensures DecodedBlocks(t, k) == Ok(before + bytes)
  {
  }

  /** The bytes come back from all their blocks, with zeros up to a whole block. */
  lemma DecodedEncoded(s: seq<byte>)
    ensures Decoded(Encoded(s)) == Ok(s + Zeros((3 - |s| % 3) % 3))
  {
    var k := |s| / 3;
    AllReadBack(s, k, s[3 * k..]);
  }

  lemma AllReadBack(s: seq<byte>, k: nat, rest: seq<byte>)
    requires 3 * k <= |s| && rest == s[3 * k..] && |rest| < 3
    ensures Decoded(Blocks(s, k) + Last(rest)) == Ok(s + Zeros((3 - |rest|) % 3))
  {
    var t := Blocks(s, k) + Last(rest);
    assert t[..4 * k] == Blocks(s, k) && t[4 * k..] == Last(rest);
    BlocksReadBack(s, t, k);
    FromBlocks(t, k, s, s[..3 * k], rest);
  }

  lemma FromBlocks(t: string, k: nat, s: seq<byte>, before: seq<byte>, rest: seq<byte>)
    requires s == before + rest && |rest| < 3 && 4 * k <= |t| && t[4 * k..] == Last(rest)
    requires DecodedBlocks(t, k) == Ok(before)
    ensures Decoded(t) == Ok(s + Zeros((3 - |rest|) % 3))
  {
    if rest == [] {
      DecodedWhole(t, k);
      WithZeros(s, before, rest, 0);
    } else {
      RestReadBack(t, k, before, rest);
      WithZeros(s, before, rest, 3 - |rest|);
    }
  }

  lemma WithZeros(s: seq<byte>, before: seq<byte>, rest: seq<byte>, n: nat)
    requires s == before + rest
    ensures s + Zeros(n) == before + (rest + Zeros(n))
    ensures rest == [] && n == 0 ==> s + Zeros(n) == before
  {
  }

  lemma RestReadBack(t: string, k: nat, before: seq<byte>, rest: seq<byte>)
    requires 0 < |rest| < 3 && |t| == 4 * k + 4 && t[4 * k..] == Last(rest) && DecodedBlocks(t, k) == Ok(before)
    ensures Decoded(t) == Ok(before + (rest + Zeros(3 - |rest|)))
  {
    LastReadBack(rest);
    LastBlock(t, k, before, Last(rest));
  }

  lemma DecodedWhole(t: string, k: nat)
    requires |t| == 4 * k
    ensures Decoded(t) == DecodedBlocks(t, k)
  {
    assert Completed(t) == t;
  }

  lemma LastBlock(t: string, k: nat, before: seq<byte>, last: string)
    requires |t| == 4 * k + 4 && |last| == 4 && t[4 * k..] == last && DecodedBlocks(t, k) == Ok(before)
    ensures var block := Convert(last[0], last[1], last[2], last[3]);
      Decoded(t) == if block.Ok? then Ok(before + block.value) else block
  {
    assert Completed(t) == t && |t| / 4 == k + 1;
    assert t[4 * k] == last[0] && t[4 * k + 1] == last[1] && t[4 * k + 2] == last[2] && t[4 * k + 3] == last[3];
  }

  lemma LastReadBack(rest: seq<byte>)
    requires 0 < |rest| < 3
    ensures var t := Last(rest); Convert(t[0], t[1], t[2], t[3]) == Ok(rest + Zeros(3 - |rest|))
  {
    BlockReadBack(|rest|, rest[0], if |rest| == 1 then 0 else rest[1], 0);
    if |rest| == 1 {
      assert rest + Zeros(2) == [rest[0], 0, 0];
    } else {
      assert rest + Zeros(1) == [rest[0], rest[1], 0];
    }
  }

  /** As written, encoding then decoding gives the bytes back if and only if there is one full
      block at most. */
  lemma RoundTripOnlyShort(s: seq<byte>)
    ensures Decoded(Blocks(s, Rounds(s)) + Tail(s)) == Ok(s + Zeros((3 - |s| % 3) % 3)) <==> |s| < 6
  {
    if |s| < 6 {
      EncodedOnlyShort(s);
      DecodedEncoded(s);
    } else {
      ComesBackShort(s, |s| / 3, |s| % 3);
    }
  }

  lemma ComesBackShort(s: seq<byte>, k: nat, r: nat)
    requires |s| == 3 * k + r && r < 3 && k >= 2
    ensures Decoded(Blocks(s, Rounds(s)) + Tail(s)).Ok? ==>
      |Decoded(Blocks(s, Rounds(s)) + Tail(s)).value| < |s| + (3 - r) % 3
  {
    var t := Blocks(s, Rounds(s)) + Tail(s);
    ThirdOfBlocks(k);
    assert Rounds(s) < k;
    TailLength(s, k, r);
    DecodedLength(t, Rounds(s) + if r == 0 then 0 else 1);
  }

  lemma TailLength(s: seq<byte>, k: nat, r: nat)
    requires |s| == 3 * k + r && r < 3
    ensures |Tail(s)| == if r == 0 then 0 else 4
  {
    assert |s| / 3 == k;
  }

  lemma DecodedLength(t: string, n: nat)
    requires |t| == 4 * n
    ensures Decoded(t).Ok? ==> |Decoded(t).value| == 3 * n
  {
    assert Completed(t) == t;
  }

  /** Examples of section 10 of the standard, and one with the last two digits. */
  lemma Examples()
    ensures Encoded([0x66]) == "Zg==" && Encoded([0x66, 0x6f]) == "Zm8=" && Encoded([0x66, 0x6f, 0x6f]) == "Zm9v"
    ensures Encoded([0xfb, 0xff, 0xbf]) == "+/+/"
  {
    assert Tail([0x66]) == "Zg==" && Tail([0x66, 0x6f]) == "Zm8=";
    assert Block([0x66, 0x6f, 0x6f], 0) == "Zm9v" && Block([0xfb, 0xff, 0xbf], 0) == "+/+/";
    assert Blocks([0x66, 0x6f, 0x6f], 1) == Blocks([0x66, 0x6f, 0x6f], 0) + "Zm9v";
    assert Blocks([0xfb, 0xff, 0xbf], 1) == Blocks([0xfb, 0xff, 0xbf], 0) + "+/+/";
  }
}
