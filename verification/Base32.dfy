/** The base32 codec of TOTP secrets: apps/api/src/domain/auth/totp.ts. Section 6 of RFC 4648,
    without padding. The accumulators are JavaScript int32 values; they are kept here as the
    unsigned number with the same 32 bits. */
module Base32 {

  type Bits = seq<bool>

  const WORD := 0x1_0000_0000

  // ---------------------------------------------------------------- int32 operators

  /** `x << n` */
  function ShiftLeft(x: nat, n: nat): nat
    requires x < WORD
    ensures ShiftLeft(x, n) < WORD
    decreases n, x
  {
    if n == 0 then x else ShiftLeft(2 * x % WORD, n - 1)
  }

  /** `x >>> n` */
  function ShiftRight(x: nat, n: nat): (r: nat)
    ensures r <= x
    decreases n, x
  {
    if n == 0 then x else ShiftRight(x / 2, n - 1)
  }

  /** `x | y` */
  function Or(x: nat, y: nat): nat
    decreases x + y
  {
    if x == 0 then y
    else if y == 0 then x
    else 2 * Or(x / 2, y / 2) + (if x % 2 == 1 || y % 2 == 1 then 1 else 0)
  }

  /** `x & y` */
  function And(x: nat, y: nat): nat
    decreases y, x
  {
    if y == 0 then 0
    else 2 * And(x / 2, y / 2) + (if x % 2 == 1 && y % 2 == 1 then 1 else 0)
  }

  /** The bit of `x` with weight two to the `k`. */
  predicate Bit(x: nat, k: nat) {
    if k == 0 then x % 2 == 1 else Bit(x / 2, k - 1)
  }

  /** `Or` and `And` work bit by bit. */
  lemma {:induction false} Bitwise(x: nat, y: nat, k: nat)
    ensures Bit(Or(x, y), k) == (Bit(x, k) || Bit(y, k))
    ensures Bit(And(x, y), k) == (Bit(x, k) && Bit(y, k))
    decreases k
  {
    ZeroHasNoBit(k);
    if k > 0 { Bitwise(x / 2, y / 2, k - 1); }
  }

  lemma {:induction false} ZeroHasNoBit(k: nat)
    ensures !Bit(0, k)
  {
    if k > 0 { ZeroHasNoBit(k - 1); }
  }

  function Pow2(n: nat): (p: nat)
    ensures p > 0
  {
    if n == 0 then 1 else 2 * Pow2(n - 1)
  }

  // ---------------------------------------------------------------- bits of a number

  /** The `n` lowest bits of `x`, most significant first. */
  function Low(n: nat, x: nat): (b: Bits)
    ensures |b| == n
  {
    if n == 0 then [] else Low(n - 1, x / 2) + [x % 2 == 1]
  }

  function Zeros(n: nat): (b: Bits)
    ensures |b| == n && forall i :: 0 <= i < n ==> !b[i]
  {
    seq(n, i => false)
  }

  lemma {:induction false} LowSplits(n: nat, m: nat, x: nat)
    ensures Low(n + m, x) == Low(n, ShiftRight(x, m)) + Low(m, x)
    decreases m
  {
    if m > 0 {
      LowSplits(n, m - 1, x / 2);
      var a, b, c := Low(n, ShiftRight(x, m)), Low(m - 1, x / 2), [x % 2 == 1];
      assert a + b + c == a + (b + c);
    }
  }

  lemma {:induction false} LowIgnores(n: nat, x: nat, m: nat)
    requires n <= m
    ensures Low(n, x + Pow2(m)) == Low(n, x)
  {
    if n > 0 {
      assert (x + Pow2(m)) / 2 == x / 2 + Pow2(m - 1) && (x + Pow2(m)) % 2 == x % 2;
      LowIgnores(n - 1, x / 2, m - 1);
    }
  }

  lemma Doubled(x: nat)
    requires x < WORD
    ensures var d := 2 * x % WORD;
            d % 2 == 0 && d / 2 == (if x < 0x8000_0000 then x else x - 0x8000_0000)
  {}

  /** Doubling in 32 bits appends a zero bit, and loses only the 32nd. */
  lemma LowDoubled(n: nat, x: nat, d: nat)
    requires x < WORD && n < 32 && d == 2 * x % WORD
    ensures Low(n + 1, d) == Low(n, x) + [false]
  {
    Doubled(x);
    Pow2Of31();
    if x >= 0x8000_0000 { LowIgnores(n, x - 0x8000_0000, 31); }
  }

  lemma Pow2Of31()
    ensures Pow2(31) == 0x8000_0000
  {
    assert Pow2(10) == 1024;
    assert Pow2(20) == 0x10_0000;
    assert Pow2(30) == 0x4000_0000;
  }

  lemma {:induction false} LowShifted(n: nat, m: nat, x: nat)
    requires x < WORD && n + m <= 32
    ensures Low(n + m, ShiftLeft(x, m)) == Low(n, x) + Zeros(m)
    decreases m
  {
    if m == 0 {
      assert Zeros(0) == [];
    } else {
      LowDoubled(n, x, 2 * x % WORD);
      LowShifted(n + 1, m - 1, 2 * x % WORD);
      assert Zeros(m) == [false] + Zeros(m - 1);
    }
  }

  lemma {:induction false} OrShifts(x: nat, y: nat, m: nat)
    ensures ShiftRight(Or(x, y), m) == Or(ShiftRight(x, m), ShiftRight(y, m))
    decreases m
  {
    if m > 0 {
      ShiftedZero(m - 1);
      assert Or(x, y) / 2 == Or(x / 2, y / 2);
      OrShifts(x / 2, y / 2, m - 1);
    }
  }

  lemma {:induction false} ShiftedZero(m: nat)
    ensures ShiftRight(0, m) == 0
  {
    if m > 0 { ShiftedZero(m - 1); }
  }

  lemma {:induction false} LowOr(n: nat, x: nat, y: nat)
    requires Low(n, x) == Zeros(n)
    ensures Low(n, Or(x, y)) == Low(n, y)
  {
    if n > 0 {
      var b := Low(n, x);
      assert b[n - 1] == (x % 2 == 1) && b[..n - 1] == Low(n - 1, x / 2);
      assert Zeros(n)[..n - 1] == Zeros(n - 1);
      LowOr(n - 1, x / 2, y / 2);
      assert Or(x, y) / 2 == Or(x / 2, y / 2) && (Or(x, y) % 2 == 1 <==> y % 2 == 1);
    }
  }

  lemma {:induction false} ShiftedAway(y: nat, m: nat)
    requires y < Pow2(m)
    ensures ShiftRight(y, m) == 0
    decreases m
  {
    if m > 0 { ShiftedAway(y / 2, m - 1); }
  }

  /** `(x << m) | y` puts the `m` bits of `y` behind the bits of `x`: while no more than 32 bits
      matter, what wraps around is never seen. */
  lemma ShiftedIn(n: nat, x: nat, m: nat, y: nat)
    requires x < WORD && n + m <= 32 && y < Pow2(m)
    ensures Low(n + m, Or(ShiftLeft(x, m), y)) == Low(n, x) + Low(m, y)
  {
    var s := ShiftLeft(x, m);
    LowSplits(n, m, Or(s, y));
    OrShifts(s, y, m);
    ShiftedAway(y, m);
    LowShifted(n, m, x);
    LowSplits(n, m, s);
    assert Low(m, s) == (Low(n, ShiftRight(s, m)) + Low(m, s))[n..] == Zeros(m);
    assert Low(n, ShiftRight(s, m)) == (Low(n, ShiftRight(s, m)) + Low(m, s))[..n] == Low(n, x);
    LowOr(m, s, y);
  }

  lemma {:induction false} AndIsMod(x: nat, m: nat)
    ensures And(x, Pow2(m) - 1) < Pow2(m) && Low(m, And(x, Pow2(m) - 1)) == Low(m, x)
    decreases m
  {
    if m > 0 {
      AndIsMod(x / 2, m - 1);
      assert (Pow2(m) - 1) / 2 == Pow2(m - 1) - 1 && (Pow2(m) - 1) % 2 == 1;
      var a := And(x, Pow2(m) - 1);
      assert a / 2 == And(x / 2, Pow2(m - 1) - 1) && a % 2 == x % 2;
    }
  }

  lemma {:induction false} LowDetermines(n: nat, x: nat, y: nat)
    requires x < Pow2(n) && y < Pow2(n) && Low(n, x) == Low(n, y)
    ensures x == y
  {
    if n > 0 {
      var b, c := Low(n, x), Low(n, y);
      assert b[n - 1] == (x % 2 == 1) && b[..n - 1] == Low(n - 1, x / 2);
      assert c[n - 1] == (y % 2 == 1) && c[..n - 1] == Low(n - 1, y / 2);
      LowDetermines(n - 1, x / 2, y / 2);
    }
  }

  lemma {:induction false} OrBound(x: nat, y: nat, m: nat)
    requires x < Pow2(m) && y < Pow2(m)
    ensures Or(x, y) < Pow2(m)
    decreases m
  {
    if m > 0 { OrBound(x / 2, y / 2, m - 1); }
  }

  // ---------------------------------------------------------------- the alphabet

  const ALPHABET: string := "ABCDEFGHIJKLMNOPQRSTUVWXYZ234567"

  /** `ALPHABET[i]` */
  function Letter(i: nat): (c: char)
    requires i < 32
    ensures |ALPHABET| == 32 && c == ALPHABET[i]
  {
    if i < 26 then ('A' as int + i) as char else ('2' as int + i - 26) as char
  }

  /** The character class of the input check, `[A-Z2-7]`. */
  predicate InAlphabet(c: char) {
    'A' <= c <= 'Z' || '2' <= c <= '7'
  }

  /** `ALPHABET.indexOf(c)` */
  function Index(c: char): (i: nat)
    requires InAlphabet(c)
    ensures i < 32
  {
    if c >= 'A' then c as int - 'A' as int else c as int - '2' as int + 26
  }

  /** The check lets through the letters of the alphabet, each of which has one index. */
  lemma AlphabetLaws(c: char)
    ensures InAlphabet(c) <==> exists i :: 0 <= i < 32 && Letter(i) == c
    ensures forall i :: 0 <= i < 32 && Letter(i) == c ==> Index(c) == i
  {
    if InAlphabet(c) { assert Letter(Index(c)) == c; }
  }

  // ---------------------------------------------------------------- the two loops

  ghost predicate IsBytes(bytes: seq<nat>) {
    forall i :: 0 <= i < |bytes| ==> bytes[i] < 256
  }

  ghost predicate IsText(text: string) {
    forall i :: 0 <= i < |text| ==> InAlphabet(text[i])
  }

  lemma Pow2Small()
    ensures Pow2(5) == 32 && Pow2(8) == 256 && Pow2(32) == WORD
  {
    Pow2Of31();
  }

  /** `(value << n) | x` */
  function Put(value: nat, n: nat, x: nat): (r: nat)
    requires value < WORD && x < WORD
    ensures r < WORD
  {
    Pow2Small();
    OrBound(ShiftLeft(value, n), x, 32);
    Or(ShiftLeft(value, n), x)
  }

  /** `x & 31` */
  function Mask5(x: nat): (r: nat)
    ensures r < 32 && Low(5, r) == Low(5, x)
  {
    Pow2Small();
    AndIsMod(x, 5);
    And(x, 31)
  }

  /** `x & 0xff` */
  function Mask8(x: nat): (r: nat)
    ensures r < 256 && Low(8, r) == Low(8, x)
  {
    Pow2Small();
    AndIsMod(x, 8);
    And(x, 0xff)
  }

  /** The inner loop of `encodeBase32`: a symbol for every five bits waiting. */
  function Drain(bits: nat, value: nat, result: string): (r: (nat, string))
    ensures r.0 < 5
    decreases bits
  {
    if bits < 5 then (bits, result)
    else Drain(bits - 5, value, result + [Letter(Mask5(ShiftRight(value, bits - 5)))])
  }

  /** `encodeBase32` from some point on, with `bytes` to go. */
  function Encode(bytes: seq<nat>, bits: nat, value: nat, result: string): string
    requires IsBytes(bytes) && bits < 5 && value < WORD
    decreases bytes
  {
    if bytes == [] then
      if bits > 0 then result + [Letter(Mask5(ShiftLeft(value, 5 - bits)))] else result
    else
      var v := Put(value, 8, bytes[0]);
      var drained := Drain(bits + 8, v, result);
      Encode(bytes[1..], drained.0, v, drained.1)
  }

  function Encoded(bytes: seq<nat>): string
    requires IsBytes(bytes)
  {
    Encode(bytes, 0, 0, "")
  }

  method EncodeBase32(bytes: seq<nat>) returns (result: string)
    requires IsBytes(bytes)
    ensures result == Encoded(bytes)
  {
    var bits: nat := 0;
    var value: nat := 0;
    result := "";
    for i := 0 to |bytes|
      invariant 0 <= bits < 5 && value < WORD
      invariant Encoded(bytes) == Encode(bytes[i..], bits, value, result)
    {
      assert bytes[i..][1..] == bytes[i + 1..];
      value := Put(value, 8, bytes[i]);
      bits := bits + 8;
      ghost var drained := Drain(bits, value, result);
      while bits >= 5
        invariant 0 <= bits <= 12
        invariant Drain(bits, value, result) == drained
      {
        result := result + [Letter(Mask5(ShiftRight(value, bits - 5)))];
        bits := bits - 5;
      }
    }
    if bits > 0 { result := result + [Letter(Mask5(ShiftLeft(value, 5 - bits)))]; }
  }

  /** `decodeBase32` from some point on, with `text` to go. */
  function Decode(text: string, bits: nat, buffer: nat, bytes: seq<nat>): seq<nat>
    requires IsText(text) && bits < 8 && buffer < WORD
    decreases text
  {
    if text == "" then bytes
    else
      var b := Put(buffer, 5, Index(text[0]));
      if bits + 5 < 8 then Decode(text[1..], bits + 5, b, bytes)
      else Decode(text[1..], bits - 3, b, bytes + [Mask8(ShiftRight(b, bits - 3))])
  }

  function DecodedFrom(text: string): seq<nat>
    requires IsText(text)
  {
    Decode(text, 0, 0, [])
  }

  datatype Decoded = Bytes(bytes: seq<nat>) | InvalidSecret

  /** The input check, `^[A-Z2-7]+$`. */
  method Matches(value: string) returns (ok: bool)
    ensures ok <==> value != "" && IsText(value)
  {
    if value == "" { return false; }
    for i := 0 to |value|
      invariant forall k :: 0 <= k < i ==> InAlphabet(value[k])
    {
      if !InAlphabet(value[i]) { return false; }
    }
    ok := true;
  }

  method DecodeBase32(value: string) returns (r: Decoded)
    ensures r.Bytes? <==> value != "" && IsText(value)
    ensures r.Bytes? ==> r.bytes == DecodedFrom(value)
  {
    var wellFormed := Matches(value);
    if !wellFormed { return InvalidSecret; }
    var bits: nat := 0;
    var buffer: nat := 0;
    var bytes: seq<nat> := [];
    for i := 0 to |value|
      invariant 0 <= bits < 8 && buffer < WORD
      invariant DecodedFrom(value) == Decode(value[i..], bits, buffer, bytes)
    {
      assert value[i..][1..] == value[i + 1..];
      var index := Index(value[i]);
      buffer := Put(buffer, 5, index);
      bits := bits + 5;
      if bits >= 8 {
        bytes := bytes + [Mask8(ShiftRight(buffer, bits - 8))];
        bits := bits - 8;
      }
    }
    r := Bytes(bytes);
  }

  // ---------------------------------------------------------------- what the codec means

  /** The numbers of `xs`, `w` bits each. */
  function Chunks(w: nat, xs: seq<nat>): Bits {
    if xs == [] then [] else Low(w, xs[0]) + Chunks(w, xs[1..])
  }

  lemma {:induction false} ChunksLength(w: nat, xs: seq<nat>)
    ensures |Chunks(w, xs)| == w * |xs|
  {
    if xs != [] {
      ChunksLength(w, xs[1..]);
      assert w * |xs| == w * (|xs| - 1) + w;
    }
  }

  lemma {:induction false} ChunksAppend(w: nat, xs: seq<nat>, ys: seq<nat>)
    ensures Chunks(w, xs + ys) == Chunks(w, xs) + Chunks(w, ys)
  {
    if xs == [] {
      assert xs + ys == ys;
    } else {
      assert (xs + ys)[1..] == xs[1..] + ys;
      ChunksAppend(w, xs[1..], ys);
    }
  }

  function Indices(text: string): (r: seq<nat>)
    requires IsText(text)
    ensures |r| == |text|
  {
    seq(|text|, i requires 0 <= i < |text| => Index(text[i]))
  }

  /** The bits of a text and of a byte string. */
  function TextBits(text: string): (b: Bits)
    requires IsText(text)
    ensures |b| == 5 * |text|
  {
    ChunksLength(5, Indices(text));
    Chunks(5, Indices(text))
  }

  function ByteBits(bytes: seq<nat>): (b: Bits)
    ensures |b| == 8 * |bytes|
  {
    ChunksLength(8, bytes);
    Chunks(8, bytes)
  }

  /** The bits `bits` in base 32: five to a symbol, the last symbol filled up with zeros. */
  ghost predicate Spells(text: string, bits: Bits) {
    IsText(text) && exists pad: nat :: pad < 5 && TextBits(text) == bits + Zeros(pad)
  }

  /** All whole bytes of the bits of `text`. */
  ghost predicate Reads(bits: Bits, bytes: seq<nat>) {
    && IsBytes(bytes)
    && |bytes| == |bits| / 8
    && ByteBits(bytes) == bits[..8 * |bytes|]
  }

  lemma Symbol(x: nat, result: string)
    requires x < 32 && IsText(result)
    ensures IsText(result + [Letter(x)]) && TextBits(result + [Letter(x)]) == TextBits(result) + Low(5, x)
  {
    AlphabetLaws(Letter(x));
    assert Indices(result + [Letter(x)]) == Indices(result) + [x];
    ChunksAppend(5, Indices(result), [x]);
    assert Chunks(5, [x]) == Low(5, x);
  }

  lemma FirstSymbol(text: string)
    requires IsText(text) && text != ""
    ensures TextBits(text) == Low(5, Index(text[0])) + TextBits(text[1..])
  {
    assert Indices(text)[1..] == Indices(text[1..]);
  }

  lemma Associate(a: Bits, b: Bits, c: Bits)
    ensures (a + b) + c == a + (b + c)
  {}

  /** What has been written, and what waits in the accumulator. */
  function Written(result: string, bits: nat, value: nat): Bits
    requires IsText(result)
  {
    TextBits(result) + Low(bits, value)
  }

  lemma {:induction false} DrainKeeps(bits: nat, value: nat, result: string)
    requires IsText(result)
    ensures var r := Drain(bits, value, result);
            IsText(r.1) && Written(r.1, r.0, value) == Written(result, bits, value)
    decreases bits
  {
    if bits >= 5 {
      var x := Mask5(ShiftRight(value, bits - 5));
      LowSplits(5, bits - 5, value);
      Symbol(x, result);
      Associate(TextBits(result), Low(5, x), Low(bits - 5, value));
      DrainKeeps(bits - 5, value, result + [Letter(x)]);
    }
  }

  lemma LastSymbol(bits: nat, value: nat, result: string)
    requires 0 < bits < 5 && value < WORD && IsText(result)
    ensures Spells(result + [Letter(Mask5(ShiftLeft(value, 5 - bits)))], Written(result, bits, value))
  {
    var x := Mask5(ShiftLeft(value, 5 - bits));
    LowShifted(bits, 5 - bits, value);
    Symbol(x, result);
    Associate(TextBits(result), Low(bits, value), Zeros(5 - bits));
  }

  /** The encoder writes the waiting bits and then the bits of the bytes to come. */
  lemma {:induction false} EncodeSpells(bytes: seq<nat>, bits: nat, value: nat, result: string)
    requires IsBytes(bytes) && bits < 5 && value < WORD && IsText(result)
    ensures Spells(Encode(bytes, bits, value, result), Written(result, bits, value) + ByteBits(bytes))
    decreases bytes
  {
    if bytes == [] {
      assert Written(result, bits, value) + ByteBits(bytes) == Written(result, bits, value);
      if bits > 0 { LastSymbol(bits, value, result); }
      else { assert Written(result, bits, value) + Zeros(0) == TextBits(result); }
    } else {
      var v := Put(value, 8, bytes[0]);
      Pow2Small();
      ShiftedIn(bits, value, 8, bytes[0]);
      DrainKeeps(bits + 8, v, result);
      var r := Drain(bits + 8, v, result);
      EncodeSpells(bytes[1..], r.0, v, r.1);
      Associate(TextBits(result), Low(bits, value), Low(8, bytes[0]));
      Associate(Written(result, bits, value), Low(8, bytes[0]), ByteBits(bytes[1..]));
    }
  }

  function Taken(bytes: seq<nat>, bits: nat, buffer: nat): Bits {
    ByteBits(bytes) + Low(bits, buffer)
  }

  lemma ByteLeaves(bytes: seq<nat>, bits: nat, buffer: nat)
    ensures Taken(bytes + [Mask8(ShiftRight(buffer, bits))], bits, buffer) == Taken(bytes, bits + 8, buffer)
  {
    var x := Mask8(ShiftRight(buffer, bits));
    LowSplits(8, bits, buffer);
    ChunksAppend(8, bytes, [x]);
    assert Chunks(8, [x]) == Low(8, x);
    Associate(ByteBits(bytes), Low(8, x), Low(bits, buffer));
  }

  lemma SymbolEnters(bytes: seq<nat>, bits: nat, buffer: nat, index: nat, rest: Bits)
    requires bits < 8 && buffer < WORD && index < 32
    ensures Taken(bytes, bits + 5, Put(buffer, 5, index)) + rest == Taken(bytes, bits, buffer) + (Low(5, index) + rest)
  {
    Pow2Small();
    ShiftedIn(bits, buffer, 5, index);
    Associate(ByteBits(bytes), Low(bits, buffer), Low(5, index));
    Associate(Taken(bytes, bits, buffer), Low(5, index), rest);
  }

  /** The decoder reads the waiting bits and then the bits of the symbols to come. */
  lemma {:induction false} DecodeReads(text: string, bits: nat, buffer: nat, bytes: seq<nat>)
    requires IsText(text) && bits < 8 && buffer < WORD && IsBytes(bytes)
    ensures Reads(Taken(bytes, bits, buffer) + TextBits(text), Decode(text, bits, buffer, bytes))
    decreases text
  {
    if text == "" {
      assert Taken(bytes, bits, buffer) + TextBits(text) == Taken(bytes, bits, buffer);
    } else {
      FirstSymbol(text);
      SymbolEnters(bytes, bits, buffer, Index(text[0]), TextBits(text[1..]));
      var b := Put(buffer, 5, Index(text[0]));
      if bits + 5 < 8 {
        DecodeReads(text[1..], bits + 5, b, bytes);
      } else {
        ByteLeaves(bytes, bits - 3, b);
        DecodeReads(text[1..], bits - 3, b, bytes + [Mask8(ShiftRight(b, bits - 3))]);
      }
    }
  }

  // ---------------------------------------------------------------- the two together

  ghost predicate Fits(w: nat, xs: seq<nat>) {
    forall i :: 0 <= i < |xs| ==> xs[i] < Pow2(w)
  }

  lemma {:induction false} ChunksDetermine(w: nat, xs: seq<nat>, ys: seq<nat>)
    requires |xs| == |ys| && Chunks(w, xs) == Chunks(w, ys) && Fits(w, xs) && Fits(w, ys)
    ensures xs == ys
  {
    if xs != [] {
      SameParts(Low(w, xs[0]), Chunks(w, xs[1..]), Low(w, ys[0]), Chunks(w, ys[1..]));
      LowDetermines(w, xs[0], ys[0]);
      ChunksDetermine(w, xs[1..], ys[1..]);
      assert xs == [xs[0]] + xs[1..] && ys == [ys[0]] + ys[1..];
    }
  }

  lemma SameParts(a: Bits, b: Bits, c: Bits, d: Bits)
    requires a + b == c + d && |a| == |c|
    ensures a == c && b == d
  {
    assert (a + b)[..|a|] == a && (c + d)[..|c|] == c;
    assert (a + b)[|a|..] == b && (c + d)[|c|..] == d;
  }

  lemma TextBitsDetermine(a: string, b: string)
    requires IsText(a) && IsText(b) && |a| == |b| && TextBits(a) == TextBits(b)
    ensures a == b
  {
    Pow2Small();
    ChunksDetermine(5, Indices(a), Indices(b));
    forall i | 0 <= i < |a| ensures a[i] == b[i] {
      assert Indices(a)[i] == Index(a[i]) && Indices(b)[i] == Index(b[i]);
    }
  }

  lemma EncodeBytes(bytes: seq<nat>)
    requires IsBytes(bytes)
    ensures Spells(Encoded(bytes), ByteBits(bytes))
  {
    EncodeSpells(bytes, 0, 0, "");
    assert Written("", 0, 0) + ByteBits(bytes) == ByteBits(bytes);
  }

  lemma DecodeText(text: string)
    requires IsText(text)
    ensures Reads(TextBits(text), DecodedFrom(text))
  {
    DecodeReads(text, 0, 0, []);
    assert Taken([], 0, 0) + TextBits(text) == TextBits(text);
  }

  /** n bytes take ceil(8n / 5) symbols, and only the encoder's text spells them. */
  lemma SpellingIsUnique(bytes: seq<nat>, text: string)
    requires IsBytes(bytes)
    ensures |Encoded(bytes)| == (8 * |bytes| + 4) / 5
    ensures Spells(text, ByteBits(bytes)) <==> text == Encoded(bytes)
  {
    EncodeBytes(bytes);
    if Spells(text, ByteBits(bytes)) { TextBitsDetermine(text, Encoded(bytes)); }
  }

  /** Decoding an encoding gives the bytes back; only the empty string of bytes, whose encoding
      is empty, is refused by the decoder's input check. */
  lemma DecodeEncode(bytes: seq<nat>)
    requires IsBytes(bytes)
    ensures var text := Encoded(bytes);
            IsText(text) && DecodedFrom(text) == bytes && (text == "" <==> bytes == [])
  {
    var text := Encoded(bytes);
    EncodeBytes(bytes);
    var pad: nat :| pad < 5 && TextBits(text) == ByteBits(bytes) + Zeros(pad);
    DecodeText(text);
    var again := DecodedFrom(text);
    assert |again| == |bytes|;
    assert TextBits(text)[..8 * |bytes|] == ByteBits(bytes);
    Pow2Small();
    ChunksDetermine(8, again, bytes);
  }

  /** What no whole byte covers at the end of a text: fewer than five bits, all zero. */
  ghost predicate Canonical(text: string) {
    && IsText(text)
    && 5 * |text| % 8 < 5
    && forall i :: 8 * (5 * |text| / 8) <= i < 5 * |text| ==> !TextBits(text)[i]
  }

  /** Encoding what was decoded gives the text back exactly when the text is canonical. */
  lemma EncodeDecode(text: string)
    requires IsText(text)
    ensures IsBytes(DecodedFrom(text))
    ensures Encoded(DecodedFrom(text)) == text <==> Canonical(text)
  {
    DecodeText(text);
    var bytes := DecodedFrom(text);
    SpellingIsUnique(bytes, text);
    var all, n := TextBits(text), 8 * |bytes|;
    if Canonical(text) { assert all == all[..n] + Zeros(|all| - n); }
    if Spells(text, ByteBits(bytes)) {
      var pad: nat :| pad < 5 && all == ByteBits(bytes) + Zeros(pad);
      assert forall i :: n <= i < |all| ==> all[i] == Zeros(pad)[i - n];
    }
  }
}
