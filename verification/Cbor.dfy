/** The CBOR decoder of apps/api/src/infra/webauthn/cbor.ts.

    `Decoder` is the decoder as the source writes it: a shared offset and a shared item
    counter, advanced by `TakeByte` and by the recursive `Decode`.  `DecodeAt` is the
    function it computes.  `CborGrammar` characterises the accepted inputs by a grammar of
    encodings that never mentions an offset. */
module Cbor {

  type byte = b: int | 0 <= b < 256

  const MAX_CBOR_BYTES: nat := 24 * 1024
  const MAX_CBOR_DEPTH: nat := 16
  const MAX_CBOR_ITEMS: nat := 1024

  datatype Value =
    | Int(n: int)
    | Bytes(bytes: seq<byte>)
    | Text(text: string)
    | Array(elements: seq<Value>)
    | Map(entries: seq<Entry>)
    | Bool(b: bool)
    | Null

  /** One key and value of a `Map`, in insertion order. */
  datatype Entry = Entry(key: Value, value: Value)

  datatype Error =
    | SizeOutOfBounds | TrailingInput | Truncated | DepthExceeded | ItemLimit
    | UnsupportedInfo | IndefiniteBytes | TruncatedBytes | TruncatedText
    | IndefiniteArray | UnsupportedSimple

  datatype Result<T> = Ok(value: T) | Err(error: Error)

  /** What one decoding step yields: a value with the offset and item count it leaves. */
  datatype Outcome<T> = Done(value: T, offset: nat, items: nat) | Fail(error: Error)

  /** The input, and the platform's total (lossy) UTF-8 decoding as a parameter. */
  datatype Source = Source(data: seq<byte>, utf8: seq<byte> -> string)

  // ---------------------------------------------------------------- numbers

  const TWO53: nat := 0x20_0000_0000_0000

  /** Round half to even to 53 significant bits; `sticky` says that a lower bit was set. */
  function RoundBits(n: nat, sticky: bool): (r: nat)
    requires n >= TWO53
    ensures r >= TWO53
  {
    if n >= 2 * TWO53 then 2 * RoundBits(n / 2, sticky || n % 2 == 1)
    else if n % 2 == 1 && (sticky || (n / 2) % 2 == 1) then n + 1
    else n - n % 2
  }

  /** `Number(bigint)`: the nearest double, exact up to 2^53. */
  function ToNumber(n: nat): (r: nat)
    ensures n <= TWO53 ==> r == n
    ensures n >= TWO53 ==> r >= TWO53
  {
    if n <= TWO53 then n else RoundBits(n, false)
  }

  /** `x` times two to the `k`. */
  function Scaled(x: nat, k: nat): nat {
    if k == 0 then x else 2 * Scaled(x, k - 1)
  }

  /** `r` has the 53 significant bits `q`, and is as near as such a number can be to `n`, or with `sticky` to
      a little more than `n`; of two as near it has the even bits. */
  ghost predicate Rounds(n: nat, sticky: bool, r: nat, q: nat, k: nat) {
    && r == Scaled(2 * q, k) && q <= TWO53 <= 2 * q && Scaled(TWO53, k) <= n < Scaled(2 * TWO53, k)
    && var half: int, off: int := Scaled(1, k), n - r;
       -half <= off <= half && (sticky ==> off < half) && (!sticky && off in {-half, half} ==> q % 2 == 0)
  }

  lemma {:induction false} RoundBitsRounds(n: nat, sticky: bool) returns (q: nat, k: nat)
    requires n >= TWO53
    ensures Rounds(n, sticky, RoundBits(n, sticky), q, k)
  {
    if n < 2 * TWO53 {
      q, k := RoundBits(n, sticky) / 2, 0;
    } else {
      q, k := RoundBitsRounds(n / 2, sticky || n % 2 == 1);
      k := k + 1;
    }
  }

  /** From 2^53 on `Number(bigint)` is the nearest number of 53 significant bits, and of two as near the one
      whose last bit is 0. */
  lemma NearestDouble(n: nat) returns (q: nat, k: nat)
    requires n >= TWO53
    ensures Rounds(n, false, ToNumber(n), q, k)
  {
    q, k := RoundBitsRounds(n, false);
  }

  /** `-1 - Number(value)` in double arithmetic; `v == -1` is the indefinite marker. */
  function NegativeOf(v: int): (r: int)
    requires v >= -1
    ensures -1 <= v < TWO53 ==> r == -1 - v
  {
    if v == -1 then 0 else var m: int := ToNumber(ToNumber(v) + 1); -m
  }

  /** Big-endian value of the `k` bytes at `off`. */
  function BigEndian(data: seq<byte>, off: nat, k: nat): nat
    requires off + k <= |data|
  {
    if k == 0 then 0 else BigEndian(data, off, k - 1) * 256 + data[off + k - 1]
  }

  // ---------------------------------------------------------------- the decoding function

  /** Initial byte split in two, and the argument that follows it (-1 when indefinite). */
  datatype Head = Head(major: nat, additional: nat, arg: int)

  predicate HeadOk(h: Head) {
    h.major < 8 && h.additional < 32 && h.arg >= -1 && (h.arg == -1 <==> h.additional == 31)
  }

  function ArgBytes(additional: nat): nat {
    if additional == 24 then 1 else if additional == 25 then 2
    else if additional == 26 then 4 else if additional == 27 then 8 else 0
  }

  function ReadHead(data: seq<byte>, off: nat): (r: Outcome<Head>)
    requires off <= |data|
    ensures r.Done? ==> off < r.offset <= |data| && HeadOk(r.value)
  {
    if off >= |data| then Fail(Truncated) else
    var major, additional := data[off] / 32, data[off] % 32;
    var k := ArgBytes(additional);
    if additional < 24 then Done(Head(major, additional, additional), off + 1, 0)
    else if additional == 31 then Done(Head(major, additional, -1), off + 1, 0)
    else if additional > 27 then Fail(UnsupportedInfo)
    else if off + 1 + k > |data| then Fail(Truncated)
    else Done(Head(major, additional, BigEndian(data, off + 1, k)), off + 1 + k, 0)
  }

  /** JavaScript `Map` keys: primitives are compared by value, objects by identity, and two
      separately decoded objects are never identical. */
  predicate Primitive(v: Value) {
    v.Int? || v.Text? || v.Bool? || v.Null?
  }

  /** `map.set(key, value)`: overwrite in place, or append. */
  function MapSet(entries: seq<Entry>, key: Value, value: Value): seq<Entry> {
    if entries == [] then [Entry(key, value)]
    else if Primitive(key) && entries[0].key == key then [Entry(key, value)] + entries[1..]
    else [entries[0]] + MapSet(entries[1..], key, value)
  }

  /** The map built by setting the values two by two. */
  function MapOf(values: seq<Value>): seq<Entry>
    requires |values| % 2 == 0
  {
    if values == [] then []
    else MapSet(MapOf(values[..|values| - 2]), values[|values| - 2], values[|values| - 1])
  }

  function AsArray(o: Outcome<seq<Value>>): Outcome<Value> {
    if o.Fail? then Fail(o.error) else Done(Array(o.value), o.offset, o.items)
  }

  function AsMap(o: Outcome<seq<Value>>): Outcome<Value>
    requires o.Done? ==> |o.value| % 2 == 0
  {
    if o.Fail? then Fail(o.error) else Done(Map(MapOf(o.value)), o.offset, o.items)
  }

  function DecodeAt(src: Source, off: nat, items: nat, depth: nat): (r: Outcome<Value>)
    requires off <= |src.data| && items <= MAX_CBOR_ITEMS
    ensures r.Done? ==> r.offset <= |src.data| && items < r.items <= MAX_CBOR_ITEMS
    ensures r.Done? ==> depth <= MAX_CBOR_DEPTH
    decreases MAX_CBOR_ITEMS - items, 0, 0
  {
    if depth > MAX_CBOR_DEPTH then Fail(DepthExceeded)
    else if items + 1 > MAX_CBOR_ITEMS then Fail(ItemLimit)
    else
      var head := ReadHead(src.data, off);
      if head.Fail? then Fail(head.error) else
      DecodeBody(src, head.value, head.offset, items + 1, depth)
  }

  /** The major types that hold no further item. */
  function DecodeScalar(src: Source, head: Head, off: nat, items: nat): (r: Outcome<Value>)
    requires 0 < off <= |src.data| && HeadOk(head)
    ensures r.Done? ==> r.offset <= |src.data| && r.items == items
  {
    var n := Length(head);
    match head.major
    case 0 => Done(Int(n), off, items)
    case 1 => Done(Int(NegativeOf(head.arg)), off, items)
    case 2 =>
      if n < 0 then Fail(IndefiniteBytes)
      else if off + n > |src.data| then Fail(TruncatedBytes)
      else Done(Bytes(src.data[off..off + n]), off + n, items)
    case 3 =>
      if off + n > |src.data| then Fail(TruncatedText)
      // subarray with an end before its start is empty, and the offset moves back by one
      else Done(Text(src.utf8(if n < 0 then [] else src.data[off..off + n])), off + n, items)
    case _ =>
      if head.additional == 20 then Done(Bool(false), off, items)
      else if head.additional == 21 then Done(Bool(true), off, items)
      else if head.additional == 22 then Done(Null, off, items)
      else Fail(UnsupportedSimple)
  }

  /** `Number(value)`, -1 for the indefinite marker. */
  function Length(head: Head): (n: int)
    requires HeadOk(head)
    ensures n >= -1 && (n == -1 <==> head.arg == -1)
  {
    if head.arg == -1 then -1 else ToNumber(head.arg)
  }

  /** The switch over the major type, the head having been read. */
  function DecodeBody(src: Source, head: Head, off: nat, items: nat, depth: nat): (r: Outcome<Value>)
    requires 0 < off <= |src.data| && items <= MAX_CBOR_ITEMS && depth <= MAX_CBOR_DEPTH && HeadOk(head)
    ensures r.Done? ==> r.offset <= |src.data| && items <= r.items <= MAX_CBOR_ITEMS
    decreases MAX_CBOR_ITEMS - items, 3, 0
  {
    var n := Length(head);
    if head.major == 4 then
      if n < 0 then Fail(IndefiniteArray)
      else if n > MAX_CBOR_ITEMS - items then Fail(ItemLimit)
      else AsArray(DecodeMany(src, off, items, depth + 1, n))
    else if head.major == 5 then
      if n < 0 then AsMap(DecodeToBreak(src, off, items, depth + 1))
      else AsMap(DecodeMany(src, off, items, depth + 1, 2 * n))
    else if head.major == 6 then DecodeAt(src, off, items, depth + 1)
    else DecodeScalar(src, head, off, items)
  }

  /** `count` values in a row: the elements of an array, or keys and values in turn. */
  function DecodeMany(src: Source, off: nat, items: nat, depth: nat, count: nat): (r: Outcome<seq<Value>>)
    requires off <= |src.data| && items <= MAX_CBOR_ITEMS
    ensures r.Done? ==> r.offset <= |src.data| && items + count <= r.items <= MAX_CBOR_ITEMS && |r.value| == count
    decreases MAX_CBOR_ITEMS - items, 1, count
  {
    if count == 0 then Done([], off, items) else
    var first := DecodeAt(src, off, items, depth);
    if first.Fail? then Fail(first.error) else
    var rest := DecodeMany(src, first.offset, first.items, depth, count - 1);
    if rest.Fail? then rest else Done([first.value] + rest.value, rest.offset, rest.items)
  }

  /** Keys and values in turn up to the break byte 0xff. */
  function DecodeToBreak(src: Source, off: nat, items: nat, depth: nat): (r: Outcome<seq<Value>>)
    requires off <= |src.data| && items <= MAX_CBOR_ITEMS
    ensures r.Done? ==> r.offset <= |src.data| && items <= r.items <= MAX_CBOR_ITEMS && |r.value| % 2 == 0
    decreases MAX_CBOR_ITEMS - items, 2, 0
  {
    if off < |src.data| && src.data[off] == 0xff then Done([], off + 1, items) else
    var pair := DecodeMany(src, off, items, depth, 2);
    if pair.Fail? then pair else
    var rest := DecodeToBreak(src, pair.offset, pair.items, depth);
    if rest.Fail? then rest else Done(pair.value + rest.value, rest.offset, rest.items)
  }

  // ---------------------------------------------------------------- the decoder

  /** `Prefixed(acc, o)`: the outcome of a loop that has already collected `acc`. */
  function Prefixed(acc: seq<Value>, o: Outcome<seq<Value>>): Outcome<seq<Value>> {
    if o.Fail? then o else Done(acc + o.value, o.offset, o.items)
  }

  lemma PrefixedLaws(acc: seq<Value>, more: seq<Value>, o: Outcome<seq<Value>>)
    ensures Prefixed([], o) == o
    ensures Prefixed(acc, Prefixed(more, o)) == Prefixed(acc + more, o)
    ensures o.Done? && o.value == [] ==> Prefixed(acc, o) == Done(acc, o.offset, o.items)
  {
    if o.Done? {
      assert [] + o.value == o.value;
      assert acc + (more + o.value) == (acc + more) + o.value;
      assert acc + [] == acc;
    }
  }

  lemma NothingBefore(o: Outcome<seq<Value>>)
    ensures Prefixed([], o) == o
  {
    PrefixedLaws([], [], o);
  }

  lemma NothingLeft(src: Source, off: nat, items: nat, depth: nat, acc: seq<Value>)
    requires off <= |src.data| && items <= MAX_CBOR_ITEMS
    ensures Prefixed(acc, Many(src, off, items, depth, 0)) == Done(acc, off, items)
  {
    PrefixedLaws(acc, [], Many(src, off, items, depth, 0));
  }

  ghost predicate Agrees<T>(r: Result<T>, o: Outcome<T>, offset: nat, items: nat) {
    match r
    case Ok(v) => o == Done(v, offset, items)
    case Err(e) => o == Fail(e)
  }

  // The next two only give the decoding functions names that are unfolded less eagerly.
  function Many(src: Source, off: nat, items: nat, depth: nat, count: nat): (r: Outcome<seq<Value>>)
    requires off <= |src.data| && items <= MAX_CBOR_ITEMS
    ensures r.Done? ==> r.offset <= |src.data| && items + count <= r.items <= MAX_CBOR_ITEMS && |r.value| == count
  {
    DecodeMany(src, off, items, depth, count)
  }

  function ToBreak(src: Source, off: nat, items: nat, depth: nat): (r: Outcome<seq<Value>>)
    requires off <= |src.data| && items <= MAX_CBOR_ITEMS
    ensures r.Done? ==> r.offset <= |src.data| && items <= r.items <= MAX_CBOR_ITEMS && |r.value| % 2 == 0
  {
    DecodeToBreak(src, off, items, depth)
  }

  ghost predicate IsMap(entries: seq<Entry>, values: seq<Value>)
    requires |values| % 2 == 0
  {
    entries == MapOf(values)
  }

  class Decoder {
    const src: Source
    var offset: nat
    var decodedItems: nat

    constructor (src: Source)
      ensures this.src == src && offset == 0 && decodedItems == 0
    {
      this.src := src;
      offset, decodedItems := 0, 0;
    }

    ghost predicate Valid() reads this {
      offset <= |src.data| && decodedItems <= MAX_CBOR_ITEMS
    }

    method TakeByte() returns (r: Result<byte>)
      requires Valid()
      modifies this`offset
      ensures Valid()
      ensures old(offset) >= |src.data| ==> r == Err(Truncated) && offset == old(offset)
      ensures old(offset) < |src.data| ==> r == Ok(src.data[old(offset)]) && offset == old(offset) + 1
    {
      if offset >= |src.data| { return Err(Truncated); }
      offset := offset + 1;
      r := Ok(src.data[offset - 1]);
    }

    /** `k` bytes, most significant first. */
    method TakeBytes(k: nat) returns (r: Result<nat>)
      requires Valid()
      modifies this`offset
      ensures Valid()
      ensures old(offset) + k > |src.data| ==> r == Err(Truncated)
      ensures old(offset) + k <= |src.data| ==>
                r == Ok(BigEndian(src.data, old(offset), k)) && offset == old(offset) + k
    {
      var n := 0;
      for i := 0 to k
        invariant Valid() && offset == old(offset) + i
        invariant n == BigEndian(src.data, old(offset), i)
      {
        var b := TakeByte();
        if b.Err? { return Err(b.error); }
        n := n * 256 + b.value;
      }
      r := Ok(n);
    }

    method TakeHead() returns (r: Result<Head>)
      requires Valid()
      modifies this`offset
      ensures Valid()
      ensures Agrees(r, ReadHead(src.data, old(offset)), offset, 0)
    {
      var initial := TakeByte();
      if initial.Err? { return Err(initial.error); }
      var major, additional := initial.value / 32, initial.value % 32;
      if additional < 24 {
        r := Ok(Head(major, additional, additional));
      } else if additional <= 27 {
        var arg := TakeBytes(ArgBytes(additional));
        if arg.Err? { return Err(arg.error); }
        r := Ok(Head(major, additional, arg.value));
      } else if additional == 31 {
        r := Ok(Head(major, additional, -1));
      } else {
        r := Err(UnsupportedInfo);
      }
    }

    method Decode(depth: nat) returns (r: Result<Value>)
      requires Valid()
      modifies this
      ensures Valid()
      ensures Agrees(r, DecodeAt(src, old(offset), old(decodedItems), depth), offset, decodedItems)
      decreases MAX_CBOR_ITEMS - decodedItems, 0
    {
      if depth > MAX_CBOR_DEPTH { return Err(DepthExceeded); }
      // the source counts first and compares after; the count is not read again once it throws
      if decodedItems + 1 > MAX_CBOR_ITEMS { return Err(ItemLimit); }
      decodedItems := decodedItems + 1;
      var h := TakeHead();
      if h.Err? { return Err(h.error); }
      var head := h.value;
      var n := Length(head);
      match head.major {
        case 0 => r := Ok(Int(n));
        case 1 => r := Ok(Int(NegativeOf(head.arg)));
        case 2 =>
          if n < 0 { return Err(IndefiniteBytes); }
          if offset + n > |src.data| { return Err(TruncatedBytes); }
          r := Ok(Bytes(src.data[offset..offset + n]));
          offset := offset + n;
        case 3 =>
          if offset + n > |src.data| { return Err(TruncatedText); }
          r := Ok(Text(src.utf8(if n < 0 then [] else src.data[offset..offset + n])));
          offset := offset + n;
        case 4 =>
          if n < 0 { return Err(IndefiniteArray); }
          if n > MAX_CBOR_ITEMS - decodedItems { return Err(ItemLimit); }
          r := DecodeElements(depth, n);
        case 5 =>
          if head.additional == 31 { r := DecodeIndefiniteMap(depth); }
          else { r := DecodeMap(depth, n); }
        case 6 => r := Decode(depth + 1);
        case _ =>
          if head.additional == 20 { r := Ok(Bool(false)); }
          else if head.additional == 21 { r := Ok(Bool(true)); }
          else if head.additional == 22 { r := Ok(Null); }
          else { r := Err(UnsupportedSimple); }
      }
    }

    method DecodeElements(depth: nat, length: nat) returns (r: Result<Value>)
      requires Valid() && depth <= MAX_CBOR_DEPTH
      modifies this
      ensures Valid()
      ensures Agrees(r, AsArray(Many(src, old(offset), old(decodedItems), depth + 1, length)),
                     offset, decodedItems)
      decreases MAX_CBOR_ITEMS - decodedItems, 1
    {
      var elements := [];
      NothingBefore(Many(src, offset, decodedItems, depth + 1, length));
      for i := 0 to length
        invariant Valid() && decodedItems >= old(decodedItems)
        invariant |elements| == i
        invariant Many(src, old(offset), old(decodedItems), depth + 1, length)
               == Prefixed(elements, Many(src, offset, decodedItems, depth + 1, length - i))
      {
        ghost var before := elements;
        var element := Decode(depth + 1);
        if element.Err? { return Err(element.error); }
        elements := elements + [element.value];
        ghost var tail := Many(src, offset, decodedItems, depth + 1, length - i - 1);
        PrefixedLaws(before, [element.value], tail);
      }
      NothingLeft(src, offset, decodedItems, depth + 1, elements);
      r := Ok(Array(elements));
    }

    /** One key, then one value, set into `entries`. */
    method DecodeEntry(depth: nat, entries: seq<Entry>, ghost sofar: seq<Value>)
      returns (r: Result<seq<Entry>>, ghost pair: seq<Value>)
      requires Valid() && depth <= MAX_CBOR_DEPTH
      requires |sofar| % 2 == 0 && IsMap(entries, sofar)
      modifies this
      ensures Valid()
      ensures var o := Many(src, old(offset), old(decodedItems), depth + 1, 2);
              match r
              case Err(e) => o == Fail(e)
              case Ok(m) => o == Done(pair, offset, decodedItems) && |pair| == 2 && IsMap(m, sofar + pair)
      decreases MAX_CBOR_ITEMS - decodedItems, 1
    {
      pair := [];
      var key := Decode(depth + 1);
      if key.Err? { return Err(key.error), []; }
      ghost var rest := Many(src, offset, decodedItems, depth + 1, 1);
      var value := Decode(depth + 1);
      if value.Err? { return Err(value.error), []; }
      ghost var none := Many(src, offset, decodedItems, depth + 1, 0);
      pair := [key.value, value.value];
      assert [key.value] + ([value.value] + []) == pair;
      assert (sofar + pair)[..|sofar + pair| - 2] == sofar;
      r := Ok(MapSet(entries, key.value, value.value));
    }

    method DecodeMap(depth: nat, length: nat) returns (r: Result<Value>)
      requires Valid() && depth <= MAX_CBOR_DEPTH
      modifies this
      ensures Valid()
      ensures Agrees(r, AsMap(Many(src, old(offset), old(decodedItems), depth + 1, 2 * length)),
                     offset, decodedItems)
      decreases MAX_CBOR_ITEMS - decodedItems, 2
    {
      var entries := [];
      ghost var sofar: seq<Value> := [];
      ghost var left := length + length;
      ghost var total := Many(src, offset, decodedItems, depth + 1, left);
      NothingBefore(total);
      for i := 0 to length
        invariant Valid() && decodedItems >= old(decodedItems)
        invariant left + i + i == length + length
        invariant |sofar| % 2 == 0 && IsMap(entries, sofar)
        invariant total == Prefixed(sofar, Many(src, offset, decodedItems, depth + 1, left))
      {
        PairStep(src, offset, decodedItems, depth + 1, left, sofar);
        var entry, pair := DecodeEntry(depth, entries, sofar);
        if entry.Err? { return Err(entry.error); }
        entries, sofar, left := entry.value, sofar + pair, left - 2;
      }
      NothingLeft(src, offset, decodedItems, depth + 1, sofar);
      r := Ok(Map(entries));
    }

    method DecodeIndefiniteMap(depth: nat) returns (r: Result<Value>)
      requires Valid() && depth <= MAX_CBOR_DEPTH
      modifies this
      ensures Valid()
      ensures Agrees(r, AsMap(ToBreak(src, old(offset), old(decodedItems), depth + 1)), offset, decodedItems)
      decreases MAX_CBOR_ITEMS - decodedItems, 2
    {
      var entries := [];
      ghost var sofar: seq<Value> := [];
      ghost var total := ToBreak(src, offset, decodedItems, depth + 1);
      NothingBefore(total);
      while true
        invariant Valid() && decodedItems >= old(decodedItems)
        invariant |sofar| % 2 == 0 && IsMap(entries, sofar)
        invariant total == Prefixed(sofar, ToBreak(src, offset, decodedItems, depth + 1))
        decreases MAX_CBOR_ITEMS - decodedItems
      {
        BreakStep(src, offset, decodedItems, depth + 1, sofar);
        if offset < |src.data| && src.data[offset] == 0xff {
          offset := offset + 1;
          break;
        }
        var entry, pair := DecodeEntry(depth, entries, sofar);
        if entry.Err? { return Err(entry.error); }
        entries, sofar := entry.value, sofar + pair;
      }
      r := Ok(Map(entries));
    }
  }

  lemma {:induction false} DecodeManySplit(src: Source, off: nat, items: nat, depth: nat, a: nat, b: nat)
    requires off <= |src.data| && items <= MAX_CBOR_ITEMS
    ensures var first := DecodeMany(src, off, items, depth, a);
            DecodeMany(src, off, items, depth, a + b) ==
            if first.Fail? then first
            else Prefixed(first.value, DecodeMany(src, first.offset, first.items, depth, b))
    decreases a
  {
    var first := DecodeAt(src, off, items, depth);
    if a == 0 {
      var rest := DecodeMany(src, off, items, depth, b);
      if rest.Done? { assert [] + rest.value == rest.value; }
    } else if first.Done? {
      DecodeManySplit(src, first.offset, first.items, depth, a - 1, b);
      var mid := DecodeMany(src, first.offset, first.items, depth, a - 1);
      if mid.Done? {
        var rest := DecodeMany(src, mid.offset, mid.items, depth, b);
        if rest.Done? { assert [first.value] + (mid.value + rest.value) == ([first.value] + mid.value) + rest.value; }
      }
    }
  }

  lemma PairStep(src: Source, off: nat, items: nat, depth: nat, left: nat, sofar: seq<Value>)
    requires off <= |src.data| && items <= MAX_CBOR_ITEMS && left >= 2
    ensures var pair := Many(src, off, items, depth, 2);
            Prefixed(sofar, Many(src, off, items, depth, left)) ==
            if pair.Fail? then pair
            else Prefixed(sofar + pair.value, Many(src, pair.offset, pair.items, depth, left - 2))
  {
    DecodeManySplit(src, off, items, depth, 2, left - 2);
    var pair := Many(src, off, items, depth, 2);
    if pair.Done? {
      PrefixedLaws(sofar, pair.value, Many(src, pair.offset, pair.items, depth, left - 2));
    }
  }

  lemma BreakStep(src: Source, off: nat, items: nat, depth: nat, sofar: seq<Value>)
    requires off <= |src.data| && items <= MAX_CBOR_ITEMS
    ensures var pair := Many(src, off, items, depth, 2);
            Prefixed(sofar, ToBreak(src, off, items, depth)) ==
            if off < |src.data| && src.data[off] == 0xff then Done(sofar, off + 1, items)
            else if pair.Fail? then pair
            else Prefixed(sofar + pair.value, ToBreak(src, pair.offset, pair.items, depth))
  {
    var pair := Many(src, off, items, depth, 2);
    if off < |src.data| && src.data[off] == 0xff {
      PrefixedLaws(sofar, [], Done([], off + 1, items));
    } else if pair.Done? {
      PrefixedLaws(sofar, pair.value, ToBreak(src, pair.offset, pair.items, depth));
    }
  }

  /** The whole-input specification. */
  function Accepted(src: Source): Result<Value> {
    if |src.data| == 0 || |src.data| > MAX_CBOR_BYTES then Err(SizeOutOfBounds) else
    var o := DecodeAt(src, 0, 0, 0);
    if o.Fail? then Err(o.error)
    else if o.offset != |src.data| then Err(TrailingInput)
    else Ok(o.value)
  }

  method DecodeCbor(src: Source) returns (r: Result<Value>)
    ensures r == Accepted(src)
  {
    if |src.data| == 0 || |src.data| > MAX_CBOR_BYTES { return Err(SizeOutOfBounds); }
    var decoder := new Decoder(src);
    r := decoder.Decode(0);
    if r.Ok? && decoder.offset != |src.data| { r := Err(TrailingInput); }
  }
}
