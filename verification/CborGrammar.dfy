/** The encodings that `Cbor.DecodeCbor` accepts, as a grammar: section 3 of RFC 8949 cut down
    to what the decoder supports, plus the two indefinite-length integers it lets through.
    The decoder and the grammar are proved to agree on every input, in both directions. */
module CborGrammar {
  import opened Cbor

  // ---------------------------------------------------------------- the grammar

  /** The argument of a head, in any of the widths that RFC 8949 allows. */
  datatype Arg = Short(n: nat) | Wide(k: nat, n: nat) | Indefinite {
    predicate Ok() {
      match this
      case Short(n) => n < 24
      case Wide(k, n) => k in {1, 2, 4, 8} && n < Pow256(k)
      case Indefinite => true
    }

    function Info(): nat {
      match this
      case Short(n) => n
      case Wide(k, _) => if k == 1 then 24 else if k == 2 then 25 else if k == 4 then 26 else 27
      case Indefinite => 31
    }

    function Number(): int {
      match this
      case Short(n) => n
      case Wide(_, n) => n
      case Indefinite => -1
    }
  }

  datatype Item =
    | UInt(arg: Arg)
    | NInt(arg: Arg)
    | ByteString(arg: Arg, content: seq<byte>)
    | TextString(arg: Arg, content: seq<byte>)
    | List(arg: Arg, items: seq<Item>)
    | Pairs(arg: Arg, items: seq<Item>)
    | PairsToBreak(items: seq<Item>)
    | Tagged(arg: Arg, item: Item)
    | Simple(code: nat)

  predicate WellFormed(x: Item) {
    match x
    case UInt(arg) => arg.Ok()
    case NInt(arg) => arg.Ok()
    case ByteString(arg, content) => arg.Ok() && arg.Number() == |content|
    case TextString(arg, content) => arg.Ok() && arg.Number() == |content|
    case List(arg, items) => arg.Ok() && arg.Number() == |items| && AllWellFormed(items)
    case Pairs(arg, items) => arg.Ok() && 2 * arg.Number() == |items| && AllWellFormed(items)
    case PairsToBreak(items) => |items| % 2 == 0 && AllWellFormed(items)
    case Tagged(arg, item) => arg.Ok() && WellFormed(item)
    case Simple(code) => 20 <= code <= 22
  }

  predicate AllWellFormed(xs: seq<Item>) {
    xs != [] ==> WellFormed(xs[0]) && AllWellFormed(xs[1..])
  }

  function Pow256(k: nat): nat {
    if k == 0 then 1 else 256 * Pow256(k - 1)
  }

  function ToBytes(n: nat, k: nat): (r: seq<byte>)
    ensures |r| == k
  {
    if k == 0 then [] else ToBytes(n / 256, k - 1) + [n % 256]
  }

  function RenderHead(major: nat, arg: Arg): seq<byte>
    requires major < 8 && arg.Ok()
  {
    [major * 32 + arg.Info()] + (if arg.Wide? then ToBytes(arg.n, arg.k) else [])
  }

  function Render(x: Item): seq<byte>
    requires WellFormed(x)
  {
    match x
    case UInt(arg) => RenderHead(0, arg)
    case NInt(arg) => RenderHead(1, arg)
    case ByteString(arg, content) => RenderHead(2, arg) + content
    case TextString(arg, content) => RenderHead(3, arg) + content
    case List(arg, items) => RenderHead(4, arg) + RenderAll(items)
    case Pairs(arg, items) => RenderHead(5, arg) + RenderAll(items)
    case PairsToBreak(items) => RenderHead(5, Indefinite) + (RenderAll(items) + [0xff])
    case Tagged(arg, item) => RenderHead(6, arg) + Render(item)
    case Simple(code) => RenderHead(7, Short(code))
  }

  function RenderAll(xs: seq<Item>): seq<byte>
    requires AllWellFormed(xs)
  {
    if xs == [] then [] else Render(xs[0]) + RenderAll(xs[1..])
  }

  function Meaning(x: Item, utf8: seq<byte> -> string): Value
    requires WellFormed(x)
  {
    match x
    case UInt(arg) => Int(if arg.Indefinite? then -1 else ToNumber(arg.n))
    case NInt(arg) => Int(NegativeOf(arg.Number()))
    case ByteString(_, content) => Bytes(content)
    case TextString(_, content) => Text(utf8(content))
    case List(_, items) => Array(MeaningAll(items, utf8))
    case Pairs(_, items) => Map(MapOf(MeaningAll(items, utf8)))
    case PairsToBreak(items) => Map(MapOf(MeaningAll(items, utf8)))
    case Tagged(_, item) => Meaning(item, utf8)
    case Simple(code) => if code == 20 then Bool(false) else if code == 21 then Bool(true) else Null
  }

  function MeaningAll(xs: seq<Item>, utf8: seq<byte> -> string): (r: seq<Value>)
    requires AllWellFormed(xs)
    ensures |r| == |xs|
  {
    if xs == [] then [] else [Meaning(xs[0], utf8)] + MeaningAll(xs[1..], utf8)
  }

  /** Items decoded, counting the item itself; every tag counts. */
  function Count(x: Item): nat {
    1 + match x
        case List(_, items) => CountAll(items)
        case Pairs(_, items) => CountAll(items)
        case PairsToBreak(items) => CountAll(items)
        case Tagged(_, item) => Count(item)
        case _ => 0
  }

  function CountAll(xs: seq<Item>): (r: nat)
    ensures r >= |xs|
  {
    if xs == [] then 0 else Count(xs[0]) + CountAll(xs[1..])
  }

  /** Levels below the item; an empty container adds none. */
  function Height(x: Item): nat {
    match x
    case List(_, items) => HeightAll(items)
    case Pairs(_, items) => HeightAll(items)
    case PairsToBreak(items) => HeightAll(items)
    case Tagged(_, item) => 1 + Height(item)
    case _ => 0
  }

  function HeightAll(xs: seq<Item>): nat {
    if xs == [] then 0
    else if 1 + Height(xs[0]) > HeightAll(xs[1..]) then 1 + Height(xs[0])
    else HeightAll(xs[1..])
  }

  /** `part` stands in `data` at `off`. */
  ghost predicate Occurs(data: seq<byte>, off: nat, part: seq<byte>) {
    off + |part| <= |data| && forall i :: 0 <= i < |part| ==> part[i] == data[off + i]
  }

  lemma OccursSplit(data: seq<byte>, off: nat, a: seq<byte>, b: seq<byte>)
    ensures Occurs(data, off, a + b) <==> Occurs(data, off, a) && Occurs(data, off + |a|, b)
  {
    if Occurs(data, off, a + b) {
      forall i | 0 <= i < |a| ensures a[i] == data[off + i] { assert a[i] == (a + b)[i]; }
      forall i | 0 <= i < |b| ensures b[i] == data[off + |a| + i] { assert b[i] == (a + b)[|a| + i]; }
    }
    if Occurs(data, off, a) && Occurs(data, off + |a|, b) {
      forall i | 0 <= i < |a + b| ensures (a + b)[i] == data[off + i] {
        if i >= |a| { assert (a + b)[i] == b[i - |a|]; }
      }
    }
  }

  // ---------------------------------------------------------------- heads

  lemma {:induction false} ToBytesBigEndian(data: seq<byte>, off: nat, n: nat, k: nat)
    requires off + k <= |data| && n < Pow256(k)
    ensures Occurs(data, off, ToBytes(n, k)) <==> BigEndian(data, off, k) == n
  {
    if k > 0 {
      ToBytesBigEndian(data, off, n / 256, k - 1);
      OccursSplit(data, off, ToBytes(n / 256, k - 1), [n % 256]);
      OccursByte(data, off + (k - 1), n % 256);
      assert BigEndian(data, off, k) / 256 == BigEndian(data, off, k - 1);
      assert BigEndian(data, off, k) % 256 == data[off + k - 1];
    }
  }

  lemma {:induction false} BigEndianBound(data: seq<byte>, off: nat, k: nat)
    requires off + k <= |data|
    ensures BigEndian(data, off, k) < Pow256(k)
  {
    if k > 0 { BigEndianBound(data, off, k - 1); }
  }

  lemma OccursByte(data: seq<byte>, off: nat, b: byte)
    ensures Occurs(data, off, [b]) <==> off < |data| && data[off] == b
  {
    if Occurs(data, off, [b]) { assert [b][0] == data[off + 0]; }
  }

  lemma HeadByte(data: seq<byte>, off: nat, major: nat, info: nat)
    requires major < 8 && info < 32
    ensures Occurs(data, off, [major * 32 + info]) <==>
            off < |data| && data[off] / 32 == major && data[off] % 32 == info
  {
    OccursByte(data, off, major * 32 + info);
  }

  lemma ReadRenderedHead(data: seq<byte>, off: nat, major: nat, arg: Arg)
    requires major < 8 && arg.Ok() && Occurs(data, off, RenderHead(major, arg))
    ensures ReadHead(data, off) ==
            Done(Head(major, arg.Info(), arg.Number()), off + |RenderHead(major, arg)|, 0)
  {
    var tail := if arg.Wide? then ToBytes(arg.n, arg.k) else [];
    OccursSplit(data, off, [major * 32 + arg.Info()], tail);
    HeadByte(data, off, major, arg.Info());
    if arg.Wide? {
      ToBytesBigEndian(data, off + 1, arg.n, arg.k);
      assert ArgBytes(arg.Info()) == arg.k;
    }
  }

  function ArgOf(h: Head): Arg {
    if h.additional < 24 then Short(h.additional)
    else if h.additional == 31 || h.arg < 0 then Indefinite
    else Wide(ArgBytes(h.additional), h.arg)
  }

  lemma InvertHead(data: seq<byte>, off: nat)
    requires off <= |data| && ReadHead(data, off).Done?
    ensures var h, arg := ReadHead(data, off), ArgOf(ReadHead(data, off).value);
            && arg.Ok() && arg.Info() == h.value.additional && arg.Number() == h.value.arg
            && Occurs(data, off, RenderHead(h.value.major, arg))
            && h.offset == off + |RenderHead(h.value.major, arg)|
  {
    var h := ReadHead(data, off).value;
    var arg := ArgOf(h);
    if arg.Wide? {
      BigEndianBound(data, off + 1, arg.k);
      ToBytesBigEndian(data, off + 1, arg.n, arg.k);
    }
    HeadByte(data, off, h.major, h.additional);
    OccursSplit(data, off, [h.major * 32 + arg.Info()], if arg.Wide? then ToBytes(arg.n, arg.k) else []);
  }

  // ---------------------------------------------------------------- every encoding decodes

  // Like `Many`, only a name that is unfolded less eagerly.
  function At(src: Source, off: nat, items: nat, depth: nat): (r: Outcome<Value>)
    requires off <= |src.data| && items <= MAX_CBOR_ITEMS
    ensures r.Done? ==> r.offset <= |src.data| && r.items <= MAX_CBOR_ITEMS
  {
    DecodeAt(src, off, items, depth)
  }

  /** Reading the head of an encoding leaves its body. */
  lemma HeadStep(data: seq<byte>, off: nat, major: nat, arg: Arg, body: seq<byte>)
    requires major < 8 && arg.Ok() && Occurs(data, off, RenderHead(major, arg) + body)
    ensures var o := off + |RenderHead(major, arg)|;
            Occurs(data, o, body) && o + |body| == off + |RenderHead(major, arg) + body|
            && ReadHead(data, off) == Done(Head(major, arg.Info(), arg.Number()), o, 0)
  {
    OccursSplit(data, off, RenderHead(major, arg), body);
    ReadRenderedHead(data, off, major, arg);
  }

  /** What is decoded once the head has been read, major type by major type. */
  lemma ScalarBody(src: Source, off: nat, items: nat, depth: nat, h: Head, o: nat)
    requires off <= |src.data| && items < MAX_CBOR_ITEMS && depth <= MAX_CBOR_DEPTH
    requires ReadHead(src.data, off) == Done(h, o, 0) && h.major !in {4, 5, 6}
    ensures At(src, off, items, depth) == DecodeScalar(src, h, o, items + 1)
  {
    assert DecodeAt(src, off, items, depth) == DecodeBody(src, h, o, items + 1, depth);
  }

  lemma ListBody(src: Source, off: nat, items: nat, depth: nat, h: Head, o: nat)
    requires off <= |src.data| && items < MAX_CBOR_ITEMS && depth <= MAX_CBOR_DEPTH
    requires ReadHead(src.data, off) == Done(h, o, 0) && h.major == 4 && 0 <= h.arg <= MAX_CBOR_ITEMS - items - 1
    ensures At(src, off, items, depth) == AsArray(Many(src, o, items + 1, depth + 1, h.arg))
  {
    assert DecodeAt(src, off, items, depth) == DecodeBody(src, h, o, items + 1, depth);
  }

  lemma MapBody(src: Source, off: nat, items: nat, depth: nat, h: Head, o: nat)
    requires off <= |src.data| && items < MAX_CBOR_ITEMS && depth <= MAX_CBOR_DEPTH
    requires ReadHead(src.data, off) == Done(h, o, 0) && h.major == 5 && 0 <= h.arg <= TWO53
    ensures At(src, off, items, depth) == AsMap(Many(src, o, items + 1, depth + 1, 2 * h.arg))
  {
    assert DecodeAt(src, off, items, depth) == DecodeBody(src, h, o, items + 1, depth);
  }

  lemma OpenMapBody(src: Source, off: nat, items: nat, depth: nat, h: Head, o: nat)
    requires off <= |src.data| && items < MAX_CBOR_ITEMS && depth <= MAX_CBOR_DEPTH
    requires ReadHead(src.data, off) == Done(h, o, 0) && h.major == 5 && h.arg == -1
    ensures At(src, off, items, depth) == AsMap(ToBreak(src, o, items + 1, depth + 1))
  {
    assert DecodeAt(src, off, items, depth) == DecodeBody(src, h, o, items + 1, depth);
  }

  lemma TagBody(src: Source, off: nat, items: nat, depth: nat, h: Head, o: nat)
    requires off <= |src.data| && items < MAX_CBOR_ITEMS && depth <= MAX_CBOR_DEPTH
    requires ReadHead(src.data, off) == Done(h, o, 0) && h.major == 6
    ensures At(src, off, items, depth) == At(src, o, items + 1, depth + 1)
  {
    assert DecodeAt(src, off, items, depth) == DecodeBody(src, h, o, items + 1, depth);
  }

  lemma ManyCons(src: Source, off: nat, items: nat, depth: nat, count: nat)
    requires off <= |src.data| && items <= MAX_CBOR_ITEMS && count > 0
    ensures var first := At(src, off, items, depth);
            first.Done? ==>
            var rest := Many(src, first.offset, first.items, depth, count - 1);
            rest.Done? ==>
            Many(src, off, items, depth, count) == Done([first.value] + rest.value, rest.offset, rest.items)
  {
    var first := DecodeAt(src, off, items, depth);
  }

  lemma OccursSlice(data: seq<byte>, off: nat, part: seq<byte>)
    ensures Occurs(data, off, part) <==> off + |part| <= |data| && data[off..off + |part|] == part
  {
    if off + |part| <= |data| && data[off..off + |part|] == part {
      forall i | 0 <= i < |part| ensures part[i] == data[off + i] {
        assert part[i] == data[off..off + |part|][i];
      }
    }
  }

  lemma {:induction false} DecodeRendered(src: Source, off: nat, items: nat, depth: nat, x: Item)
    requires WellFormed(x) && Occurs(src.data, off, Render(x)) && |src.data| < TWO53
    requires items + Count(x) <= MAX_CBOR_ITEMS && depth + Height(x) <= MAX_CBOR_DEPTH
    ensures At(src, off, items, depth)
         == Done(Meaning(x, src.utf8), off + |Render(x)|, items + Count(x))
    decreases x, 2
  {
    match x {
      case ByteString(arg, content) => DecodeRenderedBytes(src, off, items, depth, arg, content);
      case TextString(arg, content) => DecodeRenderedText(src, off, items, depth, arg, content);
      case List(arg, xs) => DecodeRenderedList(src, off, items, depth, arg, xs);
      case Pairs(arg, xs) => DecodeRenderedPairs(src, off, items, depth, arg, xs);
      case PairsToBreak(xs) => DecodeRenderedOpenMap(src, off, items, depth, xs);
      case Tagged(arg, y) => DecodeRenderedTag(src, off, items, depth, arg, y);
      case _ => DecodeRenderedLeaf(src, off, items, depth, x);
    }
  }

  lemma {:induction false} DecodeRenderedOpenMap(src: Source, off: nat, items: nat, depth: nat, xs: seq<Item>)
    requires AllWellFormed(xs) && |xs| % 2 == 0 && |src.data| < TWO53
    requires Occurs(src.data, off, RenderHead(5, Indefinite) + (RenderAll(xs) + [0xff]))
    requires items + 1 + CountAll(xs) <= MAX_CBOR_ITEMS && depth + HeightAll(xs) <= MAX_CBOR_DEPTH
    ensures At(src, off, items, depth)
         == Done(Map(MapOf(MeaningAll(xs, src.utf8))), off + |RenderAll(xs)| + 2, items + 1 + CountAll(xs))
    decreases xs, 2
  {
    HeadStep(src.data, off, 5, Indefinite, RenderAll(xs) + [0xff]);
    DecodeOpenMap(src, off, items, depth, Head(5, 31, -1), off + 1, xs);
  }

  lemma {:induction false} DecodeOpenMap(src: Source, off: nat, items: nat, depth: nat, h: Head, o: nat, xs: seq<Item>)
    requires off <= |src.data| && ReadHead(src.data, off) == Done(h, o, 0) && h.major == 5 && h.arg == -1
    requires AllWellFormed(xs) && |xs| % 2 == 0 && Occurs(src.data, o, RenderAll(xs) + [0xff]) && |src.data| < TWO53
    requires items + 1 + CountAll(xs) <= MAX_CBOR_ITEMS && depth + HeightAll(xs) <= MAX_CBOR_DEPTH
    ensures At(src, off, items, depth)
         == Done(Map(MapOf(MeaningAll(xs, src.utf8))), o + |RenderAll(xs)| + 1, items + 1 + CountAll(xs))
    decreases xs, 1
  {
    OpenMapBody(src, off, items, depth, h, o);
    OccursSplit(src.data, o, RenderAll(xs), [0xff]);
    OccursByte(src.data, o + |RenderAll(xs)|, 0xff);
    DecodeRenderedAll(src, o, items + 1, depth + 1, xs);
    var n := |xs| / 2;
    assert n + n == |xs|;
    ToBreakFromMany(src, o, items + 1, depth + 1, n);
  }

  lemma {:induction false} DecodeRenderedTag(src: Source, off: nat, items: nat, depth: nat, arg: Arg, y: Item)
    requires arg.Ok() && WellFormed(y) && Occurs(src.data, off, RenderHead(6, arg) + Render(y))
    requires items + 1 + Count(y) <= MAX_CBOR_ITEMS && depth + 1 + Height(y) <= MAX_CBOR_DEPTH
    requires |src.data| < TWO53
    ensures At(src, off, items, depth)
         == Done(Meaning(y, src.utf8), off + |RenderHead(6, arg) + Render(y)|, items + 1 + Count(y))
    decreases y, 4
  {
    var o := off + |RenderHead(6, arg)|;
    HeadStep(src.data, off, 6, arg, Render(y));
    DecodeTag(src, off, items, depth, Head(6, arg.Info(), arg.Number()), o, y);
  }

  lemma {:induction false} DecodeTag(src: Source, off: nat, items: nat, depth: nat, h: Head, o: nat, y: Item)
    requires off <= |src.data| && ReadHead(src.data, off) == Done(h, o, 0) && h.major == 6
    requires WellFormed(y) && Occurs(src.data, o, Render(y)) && |src.data| < TWO53
    requires items + 1 + Count(y) <= MAX_CBOR_ITEMS && depth + 1 + Height(y) <= MAX_CBOR_DEPTH
    ensures At(src, off, items, depth) == Done(Meaning(y, src.utf8), o + |Render(y)|, items + 1 + Count(y))
    decreases y, 3
  {
    TagBody(src, off, items, depth, h, o);
    DecodeRendered(src, o, items + 1, depth + 1, y);
  }

  lemma {:induction false} DecodeRenderedList(src: Source, off: nat, items: nat, depth: nat, arg: Arg, xs: seq<Item>)
    requires arg.Ok() && arg.Number() == |xs| && AllWellFormed(xs) && |src.data| < TWO53
    requires Occurs(src.data, off, RenderHead(4, arg) + RenderAll(xs))
    requires items + 1 + CountAll(xs) <= MAX_CBOR_ITEMS && depth + HeightAll(xs) <= MAX_CBOR_DEPTH
    ensures At(src, off, items, depth)
         == Done(Array(MeaningAll(xs, src.utf8)), off + |RenderHead(4, arg) + RenderAll(xs)|, items + 1 + CountAll(xs))
    decreases xs, 2
  {
    var o := off + |RenderHead(4, arg)|;
    HeadStep(src.data, off, 4, arg, RenderAll(xs));
    DecodeList(src, off, items, depth, Head(4, arg.Info(), arg.Number()), o, xs);
  }

  lemma {:induction false} DecodeList(src: Source, off: nat, items: nat, depth: nat, h: Head, o: nat, xs: seq<Item>)
    requires off <= |src.data| && ReadHead(src.data, off) == Done(h, o, 0) && h.major == 4 && h.arg == |xs|
    requires AllWellFormed(xs) && Occurs(src.data, o, RenderAll(xs)) && |src.data| < TWO53
    requires items + 1 + CountAll(xs) <= MAX_CBOR_ITEMS && depth + HeightAll(xs) <= MAX_CBOR_DEPTH
    ensures At(src, off, items, depth)
         == Done(Array(MeaningAll(xs, src.utf8)), o + |RenderAll(xs)|, items + 1 + CountAll(xs))
    decreases xs, 1
  {
    ListBody(src, off, items, depth, h, o);
    DecodeRenderedAll(src, o, items + 1, depth + 1, xs);
  }

  lemma {:induction false} DecodeRenderedPairs(src: Source, off: nat, items: nat, depth: nat, arg: Arg, xs: seq<Item>)
    requires arg.Ok() && 2 * arg.Number() == |xs| && AllWellFormed(xs) && |src.data| < TWO53
    requires Occurs(src.data, off, RenderHead(5, arg) + RenderAll(xs))
    requires items + 1 + CountAll(xs) <= MAX_CBOR_ITEMS && depth + HeightAll(xs) <= MAX_CBOR_DEPTH
    ensures At(src, off, items, depth)
         == Done(Map(MapOf(MeaningAll(xs, src.utf8))), off + |RenderHead(5, arg) + RenderAll(xs)|,
                 items + 1 + CountAll(xs))
    decreases xs, 2
  {
    var o := off + |RenderHead(5, arg)|;
    HeadStep(src.data, off, 5, arg, RenderAll(xs));
    DecodePairs(src, off, items, depth, Head(5, arg.Info(), arg.Number()), o, xs);
  }

  lemma {:induction false} DecodePairs(src: Source, off: nat, items: nat, depth: nat, h: Head, o: nat, xs: seq<Item>)
    requires off <= |src.data| && ReadHead(src.data, off) == Done(h, o, 0) && h.major == 5 && 2 * h.arg == |xs|
    requires AllWellFormed(xs) && Occurs(src.data, o, RenderAll(xs)) && |src.data| < TWO53
    requires items + 1 + CountAll(xs) <= MAX_CBOR_ITEMS && depth + HeightAll(xs) <= MAX_CBOR_DEPTH
    ensures At(src, off, items, depth)
         == Done(Map(MapOf(MeaningAll(xs, src.utf8))), o + |RenderAll(xs)|, items + 1 + CountAll(xs))
    decreases xs, 1
  {
    MapBody(src, off, items, depth, h, o);
    DecodeRenderedAll(src, o, items + 1, depth + 1, xs);
  }

  lemma DecodeRenderedBytes(src: Source, off: nat, items: nat, depth: nat, arg: Arg, content: seq<byte>)
    requires arg.Ok() && arg.Number() == |content| && Occurs(src.data, off, RenderHead(2, arg) + content)
    requires items < MAX_CBOR_ITEMS && depth <= MAX_CBOR_DEPTH && |src.data| < TWO53
    ensures At(src, off, items, depth)
         == Done(Bytes(content), off + |RenderHead(2, arg) + content|, items + 1)
  {
    HeadStep(src.data, off, 2, arg, content);
    ScalarBody(src, off, items, depth, Head(2, arg.Info(), arg.Number()), off + |RenderHead(2, arg)|);
    OccursSlice(src.data, off + |RenderHead(2, arg)|, content);
  }

  lemma DecodeRenderedText(src: Source, off: nat, items: nat, depth: nat, arg: Arg, content: seq<byte>)
    requires arg.Ok() && arg.Number() == |content| && Occurs(src.data, off, RenderHead(3, arg) + content)
    requires items < MAX_CBOR_ITEMS && depth <= MAX_CBOR_DEPTH && |src.data| < TWO53
    ensures At(src, off, items, depth)
         == Done(Text(src.utf8(content)), off + |RenderHead(3, arg) + content|, items + 1)
  {
    HeadStep(src.data, off, 3, arg, content);
    ScalarBody(src, off, items, depth, Head(3, arg.Info(), arg.Number()), off + |RenderHead(3, arg)|);
    OccursSlice(src.data, off + |RenderHead(3, arg)|, content);
  }

  lemma DecodeRenderedLeaf(src: Source, off: nat, items: nat, depth: nat, x: Item)
    requires x.UInt? || x.NInt? || x.Simple?
    requires WellFormed(x) && Occurs(src.data, off, Render(x))
    requires items < MAX_CBOR_ITEMS && depth <= MAX_CBOR_DEPTH
    ensures At(src, off, items, depth) == Done(Meaning(x, src.utf8), off + |Render(x)|, items + 1)
  {
    var major := if x.UInt? then 0 else if x.NInt? then 1 else 7;
    var arg := if x.Simple? then Short(x.code) else x.arg;
    assert Render(x) == RenderHead(major, arg) + [];
    HeadStep(src.data, off, major, arg, []);
    ScalarBody(src, off, items, depth, Head(major, arg.Info(), arg.Number()), off + |RenderHead(major, arg)|);
  }

  lemma {:induction false} DecodeRenderedAll(src: Source, off: nat, items: nat, depth: nat, xs: seq<Item>)
    requires AllWellFormed(xs) && Occurs(src.data, off, RenderAll(xs)) && |src.data| < TWO53
    requires items + CountAll(xs) <= MAX_CBOR_ITEMS && depth + HeightAll(xs) <= MAX_CBOR_DEPTH + 1
    ensures Many(src, off, items, depth, |xs|)
         == Done(MeaningAll(xs, src.utf8), off + |RenderAll(xs)|, items + CountAll(xs))
    decreases xs, 0
  {
    if xs != [] {
      OccursSplit(src.data, off, Render(xs[0]), RenderAll(xs[1..]));
      DecodeRendered(src, off, items, depth, xs[0]);
      DecodeRenderedAll(src, off + |Render(xs[0])|, items + Count(xs[0]), depth, xs[1..]);
      ManyCons(src, off, items, depth, |xs|);
    }
  }

  /** 0xff never starts an item. */
  lemma NoItemAtBreak(src: Source, off: nat, items: nat, depth: nat)
    requires off < |src.data| && src.data[off] == 0xff && items <= MAX_CBOR_ITEMS
    ensures DecodeAt(src, off, items, depth).Fail?
  {}

  lemma {:induction false} ToBreakFromMany(src: Source, off: nat, items: nat, depth: nat, n: nat)
    requires off <= |src.data| && items <= MAX_CBOR_ITEMS
    requires var m := Many(src, off, items, depth, 2 * n);
             m.Done? && m.offset < |src.data| && src.data[m.offset] == 0xff
    ensures var m := Many(src, off, items, depth, 2 * n);
            ToBreak(src, off, items, depth) == Done(m.value, m.offset + 1, m.items)
    decreases n
  {
    if n > 0 {
      if off < |src.data| && src.data[off] == 0xff { NoItemAtBreak(src, off, items, depth); }
      DecodeManySplit(src, off, items, depth, 2, 2 * n - 2);
      var pair := Many(src, off, items, depth, 2);
      ToBreakFromMany(src, pair.offset, pair.items, depth, n - 1);
    }
  }

  lemma {:induction false} ManyFromToBreak(src: Source, off: nat, items: nat, depth: nat) returns (n: nat)
    requires off <= |src.data| && items <= MAX_CBOR_ITEMS && DecodeToBreak(src, off, items, depth).Done?
    ensures var m := DecodeMany(src, off, items, depth, 2 * n);
            m.Done? && m.offset < |src.data| && src.data[m.offset] == 0xff
    decreases MAX_CBOR_ITEMS - items
  {
    n := 0;
    if !(off < |src.data| && src.data[off] == 0xff) {
      var pair := DecodeMany(src, off, items, depth, 2);
      var k := ManyFromToBreak(src, pair.offset, pair.items, depth);
      n := k + 1;
      DecodeManySplit(src, off, items, depth, 2, 2 * k);
    }
  }

  // ---------------------------------------------------------------- every accepted input is an encoding

  /** At a text head with additional information 31 the decoder yields an empty string and
      steps back onto that head, so it never gets past it. */
  predicate Stuck(data: seq<byte>, off: nat) {
    off < |data| && data[off] == 0x7f
  }

  lemma StuckAt(src: Source, off: nat, items: nat, depth: nat)
    requires Stuck(src.data, off) && items <= MAX_CBOR_ITEMS
    ensures var r := DecodeAt(src, off, items, depth); r.Done? ==> r.offset == off
  {}

  lemma {:induction false} StuckMany(src: Source, off: nat, items: nat, depth: nat, count: nat)
    requires Stuck(src.data, off) && items <= MAX_CBOR_ITEMS
    ensures var r := DecodeMany(src, off, items, depth, count); r.Done? ==> r.offset == off
    decreases count
  {
    if count > 0 {
      StuckAt(src, off, items, depth);
      var first := DecodeAt(src, off, items, depth);
      if first.Done? { StuckMany(src, off, first.items, depth, count - 1); }
    }
  }

  /** A head is at least one byte, and 0x7f is the one text head without a length. */
  lemma HeadMovesOn(data: seq<byte>, off: nat)
    requires off <= |data| && ReadHead(data, off).Done?
    ensures var r := ReadHead(data, off);
            && r.offset > off && (r.value.arg == -1 ==> r.offset == off + 1)
            && (r.value.major == 3 && r.value.arg == -1 <==> Stuck(data, off))
  {}

  lemma ScalarMovesOn(src: Source, off: nat, items: nat, h: Head, o: nat)
    requires HeadAt(src, off, h, o) && h.major !in {4, 5, 6} && DecodeScalar(src, h, o, items).Done?
    ensures var end := DecodeScalar(src, h, o, items).offset;
            end >= off && (end == off <==> Stuck(src.data, off))
  {
    HeadMovesOn(src.data, off);
  }

  /** A value never ends before it starts, and ends where it starts exactly at the byte 0x7f. */
  lemma {:induction false} ValueMovesOn(src: Source, off: nat, items: nat, depth: nat)
    requires off <= |src.data| && items <= MAX_CBOR_ITEMS && At(src, off, items, depth).Done?
    ensures var end := At(src, off, items, depth).offset;
            end >= off && (end == off <==> Stuck(src.data, off))
    decreases MAX_CBOR_ITEMS - items, 0, 0
  {
    var h, o := ReadHead(src.data, off).value, ReadHead(src.data, off).offset;
    PartsOf(src, off, items, depth, h, o);
    HeadMovesOn(src.data, off);
    if h.major == 4 {
      PartsOfList(src, off, items, depth, h, o);
      ManyMoveOn(src, o, items + 1, depth + 1, h.arg);
    } else if h.major == 5 && h.arg != -1 {
      PartsOfMap(src, off, items, depth, h, o);
      ManyMoveOn(src, o, items + 1, depth + 1, 2 * h.arg);
    } else if h.major == 5 {
      ToBreakMovesOn(src, o, items + 1, depth + 1);
    } else if h.major == 6 {
      ValueMovesOn(src, o, items + 1, depth + 1);
    } else {
      ScalarMovesOn(src, off, items + 1, h, o);
    }
  }

  lemma {:induction false} ManyMoveOn(src: Source, off: nat, items: nat, depth: nat, count: nat)
    requires off <= |src.data| && items <= MAX_CBOR_ITEMS && Many(src, off, items, depth, count).Done?
    ensures Many(src, off, items, depth, count).offset >= off
    decreases MAX_CBOR_ITEMS - items, 1, count
  {
    if count > 0 {
      var first := DecodeAt(src, off, items, depth);
      ValueMovesOn(src, off, items, depth);
      ManyMoveOn(src, first.offset, first.items, depth, count - 1);
    }
  }

  lemma {:induction false} ToBreakMovesOn(src: Source, off: nat, items: nat, depth: nat)
    requires off <= |src.data| && items <= MAX_CBOR_ITEMS && ToBreak(src, off, items, depth).Done?
    ensures ToBreak(src, off, items, depth).offset >= off
    decreases MAX_CBOR_ITEMS - items, 2, 0
  {
    if !(off < |src.data| && src.data[off] == 0xff) {
      var pair := Many(src, off, items, depth, 2);
      ManyMoveOn(src, off, items, depth, 2);
      ToBreakMovesOn(src, pair.offset, pair.items, depth);
    }
  }

  /** The head put in front of what follows it. */
  lemma HeadBefore(data: seq<byte>, off: nat, body: seq<byte>)
    requires off <= |data| && ReadHead(data, off).Done? && Occurs(data, ReadHead(data, off).offset, body)
    ensures var h := ReadHead(data, off).value;
            && ArgOf(h).Ok() && ArgOf(h).Info() == h.additional && ArgOf(h).Number() == h.arg
            && Occurs(data, off, RenderHead(h.major, ArgOf(h)) + body)
  {
    InvertHead(data, off);
    var h := ReadHead(data, off).value;
    OccursSplit(data, off, RenderHead(h.major, ArgOf(h)), body);
  }

  ghost predicate Explains(src: Source, off: nat, items: nat, depth: nat, x: Item) {
    && WellFormed(x) && Occurs(src.data, off, Render(x))
    && items + Count(x) <= MAX_CBOR_ITEMS && depth + Height(x) <= MAX_CBOR_DEPTH
  }

  ghost predicate ExplainsAll(src: Source, off: nat, items: nat, depth: nat, xs: seq<Item>) {
    && AllWellFormed(xs) && Occurs(src.data, off, RenderAll(xs))
    && items + CountAll(xs) <= MAX_CBOR_ITEMS && depth + HeightAll(xs) <= MAX_CBOR_DEPTH + 1
  }

  /** The head read at `off`, and where its body starts. */
  ghost predicate HeadAt(src: Source, off: nat, h: Head, o: nat) {
    off <= |src.data| && var r := ReadHead(src.data, off); r.Done? && r.value == h && r.offset == o
  }

  /** What the parts of a decoded value are. */
  lemma PartsOf(src: Source, off: nat, items: nat, depth: nat, h: Head, o: nat)
    requires HeadAt(src, off, h, o) && items <= MAX_CBOR_ITEMS && DecodeAt(src, off, items, depth).Done?
    ensures depth <= MAX_CBOR_DEPTH && items < MAX_CBOR_ITEMS
    ensures DecodeAt(src, off, items, depth) == DecodeBody(src, h, o, items + 1, depth)
  {}

  lemma PartsOfList(src: Source, off: nat, items: nat, depth: nat, h: Head, o: nat)
    requires HeadAt(src, off, h, o) && items <= MAX_CBOR_ITEMS && DecodeAt(src, off, items, depth).Done?
    requires h.major == 4
    ensures depth <= MAX_CBOR_DEPTH && items < MAX_CBOR_ITEMS && h.arg >= 0
    ensures var m := Many(src, o, items + 1, depth + 1, h.arg);
            m.Done? && m.offset == DecodeAt(src, off, items, depth).offset
  {
    PartsOf(src, off, items, depth, h, o);
  }

  lemma PartsOfMap(src: Source, off: nat, items: nat, depth: nat, h: Head, o: nat)
    requires HeadAt(src, off, h, o) && items <= MAX_CBOR_ITEMS && DecodeAt(src, off, items, depth).Done?
    requires h.major == 5 && h.arg != -1
    ensures depth <= MAX_CBOR_DEPTH && items < MAX_CBOR_ITEMS && h.arg >= 0
    ensures var m := Many(src, o, items + 1, depth + 1, 2 * h.arg);
            m.Done? && m.offset == DecodeAt(src, off, items, depth).offset
  {
    PartsOf(src, off, items, depth, h, o);
  }

  /** A value decoded without getting stuck has an encoding, which `DecodeRendered` then measures. */
  lemma {:induction false} Explain(src: Source, off: nat, items: nat, depth: nat) returns (x: Item)
    requires off <= |src.data| < TWO53 && items <= MAX_CBOR_ITEMS
    requires var r := DecodeAt(src, off, items, depth); r.Done? && !Stuck(src.data, r.offset)
    ensures Explains(src, off, items, depth, x)
    decreases MAX_CBOR_ITEMS - items, 0, 0
  {
    var h, o := ReadHead(src.data, off).value, ReadHead(src.data, off).offset;
    PartsOf(src, off, items, depth, h, o);
    if h.major == 2 { x := ExplainBytes(src, off, items, depth); }
    else if h.major == 3 { x := ExplainText(src, off, items, depth); }
    else if h.major == 4 { x := ExplainList(src, off, items, depth, h, o); }
    else if h.major == 5 && h.arg == -1 { x := ExplainOpenMap(src, off, items, depth); }
    else if h.major == 5 { x := ExplainMap(src, off, items, depth, h, o); }
    else if h.major == 6 { x := ExplainTag(src, off, items, depth, h, o); }
    else { x := ExplainLeaf(src, off, items, depth, h, o); }
  }

  lemma ExplainLeaf(src: Source, off: nat, items: nat, depth: nat, h: Head, o: nat) returns (x: Item)
    requires HeadAt(src, off, h, o) && items < MAX_CBOR_ITEMS && depth <= MAX_CBOR_DEPTH
    requires h.major in {0, 1, 7} && DecodeBody(src, h, o, items + 1, depth).Done?
    ensures Explains(src, off, items, depth, x)
  {
    InvertHead(src.data, off);
    x := if h.major == 0 then UInt(ArgOf(h)) else if h.major == 1 then NInt(ArgOf(h)) else Simple(h.additional);
  }

  lemma {:induction false} ExplainTag(src: Source, off: nat, items: nat, depth: nat, h: Head, o: nat) returns (x: Item)
    requires HeadAt(src, off, h, o) && |src.data| < TWO53 && items < MAX_CBOR_ITEMS && depth <= MAX_CBOR_DEPTH
    requires h.major == 6
    requires var r := DecodeAt(src, o, items + 1, depth + 1); r.Done? && !Stuck(src.data, r.offset)
    ensures Explains(src, off, items, depth, x)
    decreases MAX_CBOR_ITEMS - items - 1, 1, 0
  {
    var y := Explain(src, o, items + 1, depth + 1);
    HeadBefore(src.data, off, Render(y));
    x := Tagged(ArgOf(h), y);
  }

  lemma ExplainBytes(src: Source, off: nat, items: nat, depth: nat) returns (x: Item)
    requires off <= |src.data| < TWO53 && items <= MAX_CBOR_ITEMS && DecodeAt(src, off, items, depth).Done?
    requires ReadHead(src.data, off).Done? && ReadHead(src.data, off).value.major == 2
    ensures Explains(src, off, items, depth, x)
  {
    var h, o := ReadHead(src.data, off).value, ReadHead(src.data, off).offset;
    var content := src.data[o..o + h.arg];
    OccursSlice(src.data, o, content);
    HeadBefore(src.data, off, content);
    x := ByteString(ArgOf(h), content);
  }

  lemma ExplainText(src: Source, off: nat, items: nat, depth: nat) returns (x: Item)
    requires off <= |src.data| < TWO53 && items <= MAX_CBOR_ITEMS && DecodeAt(src, off, items, depth).Done?
    requires ReadHead(src.data, off).Done? && ReadHead(src.data, off).value.major == 3
    requires !Stuck(src.data, DecodeAt(src, off, items, depth).offset)
    ensures Explains(src, off, items, depth, x)
  {
    InvertHead(src.data, off);
    var h, o := ReadHead(src.data, off).value, ReadHead(src.data, off).offset;
    var content := src.data[o..o + h.arg];
    OccursSlice(src.data, o, content);
    HeadBefore(src.data, off, content);
    x := TextString(ArgOf(h), content);
  }

  lemma {:induction false} ExplainList(src: Source, off: nat, items: nat, depth: nat, h: Head, o: nat) returns (x: Item)
    requires HeadAt(src, off, h, o) && |src.data| < TWO53 && items <= MAX_CBOR_ITEMS && h.major == 4
    requires var r := DecodeAt(src, off, items, depth); r.Done? && !Stuck(src.data, r.offset)
    ensures Explains(src, off, items, depth, x)
    decreases MAX_CBOR_ITEMS - items - 1, 2, 0
  {
    PartsOfList(src, off, items, depth, h, o);
    var xs := ExplainMany(src, o, items + 1, depth + 1, h.arg);
    HeadBefore(src.data, off, RenderAll(xs));
    x := List(ArgOf(h), xs);
  }

  lemma {:induction false} ExplainMap(src: Source, off: nat, items: nat, depth: nat, h: Head, o: nat) returns (x: Item)
    requires HeadAt(src, off, h, o) && |src.data| < TWO53 && items <= MAX_CBOR_ITEMS && h.major == 5 && h.arg != -1
    requires var r := DecodeAt(src, off, items, depth); r.Done? && !Stuck(src.data, r.offset)
    ensures Explains(src, off, items, depth, x)
    decreases MAX_CBOR_ITEMS - items - 1, 3, 0
  {
    PartsOfMap(src, off, items, depth, h, o);
    var xs := ExplainMany(src, o, items + 1, depth + 1, 2 * h.arg);
    HeadBefore(src.data, off, RenderAll(xs));
    x := Pairs(ArgOf(h), xs);
  }

  lemma {:induction false} ExplainOpenMap(src: Source, off: nat, items: nat, depth: nat) returns (x: Item)
    requires off <= |src.data| < TWO53 && items <= MAX_CBOR_ITEMS && DecodeAt(src, off, items, depth).Done?
    requires var h := ReadHead(src.data, off); h.Done? && h.value.major == 5 && h.value.arg == -1
    ensures Explains(src, off, items, depth, x)
    decreases MAX_CBOR_ITEMS - items - 1, 3, 0
  {
    InvertHead(src.data, off);
    var o := ReadHead(src.data, off).offset;
    var xs := ExplainToBreak(src, o, items + 1, depth + 1);
    OccursSplit(src.data, off, RenderHead(5, Indefinite), RenderAll(xs) + [0xff]);
    x := PairsToBreak(xs);
  }

  lemma {:induction false} ExplainToBreak(src: Source, off: nat, items: nat, depth: nat) returns (xs: seq<Item>)
    requires off <= |src.data| < TWO53 && items <= MAX_CBOR_ITEMS && depth <= MAX_CBOR_DEPTH + 1
    requires DecodeToBreak(src, off, items, depth).Done?
    ensures |xs| % 2 == 0 && ExplainsAll(src, off, items, depth, xs)
    ensures Occurs(src.data, off, RenderAll(xs) + [0xff])
    decreases MAX_CBOR_ITEMS - items, 2, 0
  {
    var n := ManyFromToBreak(src, off, items, depth);
    xs := ExplainMany(src, off, items, depth, 2 * n);
    DecodeRenderedAll(src, off, items, depth, xs);
    OccursByte(src.data, off + |RenderAll(xs)|, 0xff);
    OccursSplit(src.data, off, RenderAll(xs), [0xff]);
  }

  lemma {:induction false} ExplainMany(src: Source, off: nat, items: nat, depth: nat, count: nat)
    returns (xs: seq<Item>)
    requires off <= |src.data| < TWO53 && items <= MAX_CBOR_ITEMS && depth <= MAX_CBOR_DEPTH + 1
    requires var r := DecodeMany(src, off, items, depth, count); r.Done? && !Stuck(src.data, r.offset)
    ensures |xs| == count && ExplainsAll(src, off, items, depth, xs)
    decreases MAX_CBOR_ITEMS - items, 1, count
  {
    xs := [];
    if count > 0 {
      var first := DecodeAt(src, off, items, depth);
      if Stuck(src.data, first.offset) { StuckMany(src, first.offset, first.items, depth, count - 1); }
      var x := Explain(src, off, items, depth);
      DecodeRendered(src, off, items, depth, x);
      var rest := ExplainMany(src, first.offset, first.items, depth, count - 1);
      OccursSplit(src.data, off, Render(x), RenderAll(rest));
      xs := [x] + rest;
    }
  }

  // ---------------------------------------------------------------- the two main results

  ghost predicate Encodes(x: Item, src: Source, v: Value) {
    && WellFormed(x) && Render(x) == src.data && Meaning(x, src.utf8) == v
    && Count(x) <= 1024 && Height(x) <= 16
  }

  /** The decoder accepts exactly the encodings that fit the size, depth and item budgets,
      and returns what they mean. */
  lemma AcceptsExactlyTheGrammar(src: Source, v: Value)
    ensures Accepted(src) == Ok(v) <==>
            |src.data| <= 24 * 1024 && exists x: Item :: Encodes(x, src, v)
  {
    if Accepted(src) == Ok(v) {
      var x := Explain(src, 0, 0, 0);
      DecodeRendered(src, 0, 0, 0, x);
      assert src.data == Render(x);
      assert Encodes(x, src, v);
    }
    if |src.data| <= MAX_CBOR_BYTES && exists x: Item :: Encodes(x, src, v) {
      var x: Item :| Encodes(x, src, v);
      assert Occurs(src.data, 0, Render(x));
      assert |Render(x)| > 0;
      DecodeRendered(src, 0, 0, 0, x);
    }
  }

  // ---------------------------------------------------------------- values and their encoding

  /** The shortest argument for `n` (section 4.2.1 of RFC 8949). */
  function Shortest(n: nat): Arg {
    if n < 24 then Short(n)
    else if n < 0x100 then Wide(1, n)
    else if n < 0x1_0000 then Wide(2, n)
    else if n < 0x1_0000_0000 then Wide(4, n)
    else Wide(8, n)
  }

  function Encode(v: Value, toUtf8: string -> seq<byte>): Item
    decreases v, 0
  {
    match v
    case Int(n) => if n >= 0 then UInt(Shortest(n)) else NInt(Shortest(-1 - n))
    case Bytes(b) => ByteString(Shortest(|b|), b)
    case Text(t) => TextString(Shortest(|toUtf8(t)|), toUtf8(t))
    case Array(vs) => List(Shortest(|vs|), EncodeAll(vs, toUtf8))
    case Map(entries) => Pairs(Shortest(|entries|), EncodeEntries(entries, toUtf8))
    case Bool(b) => Simple(if b then 21 else 20)
    case Null => Simple(22)
  }

  function EncodeAll(vs: seq<Value>, toUtf8: string -> seq<byte>): (r: seq<Item>)
    ensures |r| == |vs|
    decreases vs, 1
  {
    if vs == [] then [] else [Encode(vs[0], toUtf8)] + EncodeAll(vs[1..], toUtf8)
  }

  function EncodeEntries(entries: seq<Entry>, toUtf8: string -> seq<byte>): (r: seq<Item>)
    ensures |r| == 2 * |entries|
    decreases entries, 1
  {
    if entries == [] then []
    else EncodeEntry(entries[0], toUtf8) + EncodeEntries(entries[1..], toUtf8)
  }

  function EncodeEntry(e: Entry, toUtf8: string -> seq<byte>): (r: seq<Item>)
    ensures |r| == 2
    decreases e, 1
  {
    [Encode(e.key, toUtf8), Encode(e.value, toUtf8)]
  }

  /** Primitive keys must differ, as in any JavaScript `Map`. */
  predicate DistinctKeys(entries: seq<Entry>) {
    forall i, j :: 0 <= i < j < |entries| && Primitive(entries[i].key) ==> entries[i].key != entries[j].key
  }

  const TWO64: nat := 0x1_0000_0000_0000_0000

  /** The supported values: integers that a double holds exactly, text that UTF-8 carries. */
  predicate Supported(v: Value, utf8: seq<byte> -> string, toUtf8: string -> seq<byte>)
    decreases v, 0
  {
    match v
    case Int(n) => 0 <= n + TWO53 && n <= TWO53
    case Bytes(b) => |b| < TWO64
    case Text(t) => utf8(toUtf8(t)) == t && |toUtf8(t)| < TWO64
    case Array(vs) => |vs| < TWO64 && AllSupported(vs, utf8, toUtf8)
    case Map(entries) => |entries| < TWO64 && DistinctKeys(entries) && EntriesSupported(entries, utf8, toUtf8)
    case _ => true
  }

  predicate AllSupported(vs: seq<Value>, utf8: seq<byte> -> string, toUtf8: string -> seq<byte>)
    decreases vs, 1
  {
    vs != [] ==> Supported(vs[0], utf8, toUtf8) && AllSupported(vs[1..], utf8, toUtf8)
  }

  predicate EntriesSupported(es: seq<Entry>, utf8: seq<byte> -> string, toUtf8: string -> seq<byte>)
    decreases es, 1
  {
    es != [] ==> EntrySupported(es[0], utf8, toUtf8) && EntriesSupported(es[1..], utf8, toUtf8)
  }

  predicate EntrySupported(e: Entry, utf8: seq<byte> -> string, toUtf8: string -> seq<byte>)
    decreases e, 1
  {
    Supported(e.key, utf8, toUtf8) && Supported(e.value, utf8, toUtf8)
  }

  lemma ShortestOk(n: nat)
    requires n < TWO64
    ensures Shortest(n).Ok() && Shortest(n).Number() == n && !Shortest(n).Indefinite?
  {
    assert Pow256(1) == 0x100 && Pow256(2) == 0x1_0000;
    assert Pow256(4) == 0x1_0000_0000;
    assert Pow256(8) == 256 * 256 * 256 * 256 * Pow256(4) == TWO64;
  }

  lemma {:induction false} EncodeMeans(v: Value, utf8: seq<byte> -> string, toUtf8: string -> seq<byte>)
    requires Supported(v, utf8, toUtf8)
    ensures WellFormed(Encode(v, toUtf8)) && Meaning(Encode(v, toUtf8), utf8) == v
    decreases v, 0
  {
    match v {
      case Int(n) => ShortestOk(if n >= 0 then n else -1 - n);
      case Bytes(b) => ShortestOk(|b|);
      case Text(t) => ShortestOk(|toUtf8(t)|);
      case Array(vs) => ShortestOk(|vs|); EncodeAllMeans(vs, utf8, toUtf8);
      case Map(es) =>
        ShortestOk(|es|);
        EncodeEntriesMeans(es, utf8, toUtf8);
        MapOfFlat(es);
      case _ =>
    }
  }

  lemma {:induction false} EncodeAllMeans(vs: seq<Value>, utf8: seq<byte> -> string, toUtf8: string -> seq<byte>)
    requires AllSupported(vs, utf8, toUtf8)
    ensures AllWellFormed(EncodeAll(vs, toUtf8)) && MeaningAll(EncodeAll(vs, toUtf8), utf8) == vs
    decreases vs, 1
  {
    if vs != [] {
      EncodeMeans(vs[0], utf8, toUtf8);
      EncodeAllMeans(vs[1..], utf8, toUtf8);
    }
  }

  /** Keys and values in turn. */
  function Flat(es: seq<Entry>): (r: seq<Value>)
    ensures |r| == 2 * |es|
  {
    if es == [] then [] else [es[0].key, es[0].value] + Flat(es[1..])
  }

  lemma {:induction false} MeaningJoin(xs: seq<Item>, ys: seq<Item>, utf8: seq<byte> -> string)
    requires AllWellFormed(xs) && AllWellFormed(ys)
    ensures AllWellFormed(xs + ys)
    ensures MeaningAll(xs + ys, utf8) == MeaningAll(xs, utf8) + MeaningAll(ys, utf8)
  {
    if xs == [] {
      assert xs + ys == ys;
    } else {
      MeaningJoin(xs[1..], ys, utf8);
      assert (xs + ys)[1..] == xs[1..] + ys;
    }
  }

  lemma {:induction false} EncodeEntriesMeans(es: seq<Entry>, utf8: seq<byte> -> string, toUtf8: string -> seq<byte>)
    requires EntriesSupported(es, utf8, toUtf8)
    ensures AllWellFormed(EncodeEntries(es, toUtf8)) && MeaningAll(EncodeEntries(es, toUtf8), utf8) == Flat(es)
    decreases es, 1
  {
    if es != [] {
      EncodeEntryMeans(es[0], utf8, toUtf8);
      EncodeEntriesMeans(es[1..], utf8, toUtf8);
      var pair, rest := EncodeEntry(es[0], toUtf8), EncodeEntries(es[1..], toUtf8);
      MeaningJoin(pair, rest, utf8);
    }
  }

  lemma {:induction false} EncodeEntryMeans(e: Entry, utf8: seq<byte> -> string, toUtf8: string -> seq<byte>)
    requires EntrySupported(e, utf8, toUtf8)
    ensures AllWellFormed(EncodeEntry(e, toUtf8))
    ensures MeaningAll(EncodeEntry(e, toUtf8), utf8) == [e.key, e.value]
    decreases e, 1
  {
    EncodeMeans(e.key, utf8, toUtf8);
    EncodeMeans(e.value, utf8, toUtf8);
    var pair := EncodeEntry(e, toUtf8);
    assert pair[1..] == [pair[1]] && pair[1..][1..] == [];
  }

  lemma {:induction false} FlatInit(es: seq<Entry>)
    requires es != []
    ensures Flat(es) == Flat(es[..|es| - 1]) + [es[|es| - 1].key, es[|es| - 1].value]
  {
    if |es| > 1 {
      FlatInit(es[1..]);
      assert es[1..][..|es| - 2] == es[..|es| - 1][1..];
    }
  }

  lemma {:induction false} MapSetFresh(es: seq<Entry>, key: Value, value: Value)
    requires Primitive(key) ==> forall i :: 0 <= i < |es| ==> es[i].key != key
    ensures MapSet(es, key, value) == es + [Entry(key, value)]
  {
    if es != [] { MapSetFresh(es[1..], key, value); }
  }

  /** Setting a key that is there changes its value and nothing else. */
  lemma {:induction false} MapSetAt(es: seq<Entry>, k: nat, key: Value, value: Value)
    requires k < |es| && Primitive(key) && es[k].key == key && forall j :: 0 <= j < k ==> es[j].key != key
    ensures MapSet(es, key, value) == es[k := Entry(key, value)]
  {
    if k > 0 {
      MapSetAt(es[1..], k - 1, key, value);
      assert es == [es[0]] + es[1..];
    }
  }

  lemma MapSetKeepsDistinct(es: seq<Entry>, key: Value, value: Value)
    requires DistinctKeys(es)
    ensures DistinctKeys(MapSet(es, key, value))
  {
    if Primitive(key) && exists k :: 0 <= k < |es| && es[k].key == key {
      var k :| 0 <= k < |es| && es[k].key == key;
      MapSetAt(es, k, key, value);
    } else {
      MapSetFresh(es, key, value);
    }
  }

  /** The map has the key once, with this value. */
  ghost predicate Maps(es: seq<Entry>, key: Value, value: Value) {
    && (exists k :: 0 <= k < |es| && es[k] == Entry(key, value))
    && (forall k :: 0 <= k < |es| && es[k].key == key ==> es[k].value == value)
  }

  lemma MapSetMaps(es: seq<Entry>, key: Value, value: Value)
    requires DistinctKeys(es) && Primitive(key)
    ensures Maps(MapSet(es, key, value), key, value)
  {
    var r := MapSet(es, key, value);
    if k :| 0 <= k < |es| && es[k].key == key {
      MapSetAt(es, k, key, value);
      assert r[k] == Entry(key, value);
    } else {
      MapSetFresh(es, key, value);
      assert r[|es|] == Entry(key, value);
    }
  }

  lemma MapSetSpares(es: seq<Entry>, key: Value, value: Value, other: Value, kept: Value)
    requires DistinctKeys(es) && Maps(es, other, kept) && key != other
    ensures Maps(MapSet(es, key, value), other, kept)
  {
    var r := MapSet(es, key, value);
    var o :| 0 <= o < |es| && es[o] == Entry(other, kept);
    if Primitive(key) && exists k :: 0 <= k < |es| && es[k].key == key {
      var k :| 0 <= k < |es| && es[k].key == key;
      MapSetAt(es, k, key, value);
    } else {
      MapSetFresh(es, key, value);
    }
    assert r[o] == Entry(other, kept);
  }

  lemma {:induction false} MapKeysDiffer(values: seq<Value>)
    requires |values| % 2 == 0
    ensures DistinctKeys(MapOf(values))
    decreases |values|
  {
    if values != [] {
      var n := |values| - 2;
      MapKeysDiffer(values[..n]);
      MapSetKeepsDistinct(MapOf(values[..n]), values[n], values[n + 1]);
    }
  }

  /** Two keys that are byte strings, arrays or maps are never the same object, so each is added. */
  lemma ObjectKeyAdds(es: seq<Entry>, key: Value, value: Value)
    requires key.Bytes? || key.Array? || key.Map?
    ensures MapSet(es, key, value) == es + [Entry(key, value)]
  {
    MapSetFresh(es, key, value);
  }

  /** An integer, text, boolean or null that comes as a key more than once is in the map once, with the last
      of its values. */
  lemma {:induction false} MapKeepsLast(values: seq<Value>, i: nat)
    requires |values| % 2 == 0 && 2 * i < |values|
    requires !values[2 * i].Bytes? && !values[2 * i].Array? && !values[2 * i].Map?
    requires forall j: nat :: i < j && 2 * j < |values| ==> values[2 * j] != values[2 * i]
    ensures Maps(MapOf(values), values[2 * i], values[2 * i + 1])
    decreases |values|
  {
    var n := |values| - 2;
    var es := MapOf(values[..n]);
    MapKeysDiffer(values[..n]);
    if 2 * i == n {
      MapSetMaps(es, values[n], values[n + 1]);
    } else {
      MapKeepsLast(values[..n], i);
      assert values[2 * (n / 2)] != values[2 * i];
      MapSetSpares(es, values[n], values[n + 1], values[2 * i], values[2 * i + 1]);
    }
  }

  /** Setting distinct keys one after the other keeps them all, in order. */
  lemma {:induction false} MapOfFlat(es: seq<Entry>)
    requires DistinctKeys(es)
    ensures MapOf(Flat(es)) == es
  {
    if es != [] {
      var init, last := es[..|es| - 1], es[|es| - 1];
      FlatInit(es);
      MapOfFlat(init);
      MapSetFresh(init, last.key, last.value);
      assert Flat(es)[..|Flat(es)| - 2] == Flat(init);
    }
  }

  /** Round trip: the encoding of a supported value, followed by anything, decodes to the value
      and leaves the offset at the end of the encoding. */
  lemma DecodeEncode(v: Value, before: seq<byte>, after: seq<byte>, items: nat, depth: nat,
                     utf8: seq<byte> -> string, toUtf8: string -> seq<byte>)
    requires Supported(v, utf8, toUtf8)
    requires items + Count(Encode(v, toUtf8)) <= MAX_CBOR_ITEMS
    requires depth + Height(Encode(v, toUtf8)) <= MAX_CBOR_DEPTH
    requires WellFormed(Encode(v, toUtf8))
             ==> |before| + |Render(Encode(v, toUtf8))| + |after| < TWO53
    ensures WellFormed(Encode(v, toUtf8))
    ensures var code := Render(Encode(v, toUtf8));
            DecodeAt(Source(before + code + after, utf8), |before|, items, depth)
            == Done(v, |before| + |code|, items + Count(Encode(v, toUtf8)))
  {
    EncodeMeans(v, utf8, toUtf8);
    var code := Render(Encode(v, toUtf8));
    var src := Source(before + code + after, utf8);
    OccursSlice(src.data, |before|, code);
    DecodeRendered(src, |before|, items, depth, Encode(v, toUtf8));
  }
}
