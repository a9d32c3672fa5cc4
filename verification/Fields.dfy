/** What the wire forms mean to any reader of Protocol Buffers, who sees numbered fields and not this program's
    messages: varints by their digits, messages as lists of fields, and parsing as taking the fields in order. */
module Fields {
  import opened Words
  import opened Messages
  import opened WireFormat
  import opened Codec
  import opened ReplyCodec

  // ---------------------------------------------------------------- varints by their digits

  /** `n` shifted right by `i` groups of seven bits. */
  function Shifted(n: nat, i: nat): nat {
    if i == 0 then n else Shifted(n / 128, i - 1)
  }

  /** Byte `i` of a varint carries the i-th group of seven bits, all but the last byte have the top bit set, and the
      last group is not zero unless it is the only one. */
  lemma {:induction false} VarintDigits(n: nat, i: nat)
    requires i < |Varint(n)|
    ensures Varint(n)[i] % 128 == Shifted(n, i) % 128 && (Varint(n)[i] >= 128 <==> i < |Varint(n)| - 1)
    ensures i == |Varint(n)| - 1 ==> Shifted(n, i) < 128 && (i > 0 ==> Shifted(n, i) > 0)
  {
    if n >= 128 && i > 0 { VarintDigits(n / 128, i - 1); }
  }

  // ---------------------------------------------------------------- fields

  datatype Value = Number(v: nat) | Text(b: seq<byte>) | Fixed(b: seq<byte>)

  datatype Item = Item(number: nat, value: Value)

  /** The fields of a message, by their numbers and wire types; groups are not read. */
  function ReadFields(s: seq<byte>): Option<seq<Item>>
    decreases |s|
  {
    if s == [] then Some([])
    else
      match ReadOne(s)
      case None => None
      case Some((item, k)) =>
        match ReadFields(s[k..])
        case None => None
        case Some(items) => Some([item] + items)
  }

  function ReadOne(s: seq<byte>): (r: Option<(Item, nat)>)
    ensures r.Some? ==> 0 < r.value.1 <= |s|
  {
    match ReadVarint(s, MAX_VARINT_BYTES)
    case None => None
    case Some((tag, k)) =>
      var rest := s[k..];
      if tag % 8 == 0 then
        match ReadVarint(rest, MAX_VARINT_BYTES)
        case None => None
        case Some((v, j)) => Some((Item(tag / 8, Number(v)), k + j))
      else if tag % 8 == 2 then
        match ReadBytes(rest)
        case None => None
        case Some((b, j)) => Some((Item(tag / 8, Text(b)), k + j))
      else if tag % 8 == 1 && |rest| >= 8 then Some((Item(tag / 8, Fixed(rest[..8])), k + 8))
      else if tag % 8 == 5 && |rest| >= 4 then Some((Item(tag / 8, Fixed(rest[..4])), k + 4))
      else None
  }

  /** A field is left out when it has its default value. */
  function Scalar(number: nat, v: nat): seq<Item> {
    if v == 0 then [] else [Item(number, Number(v))]
  }

  function Host(host: seq<byte>): seq<Item> {
    if host == [] then [] else [Item(5, Text(host))]
  }

  function EntryItems(e: Entry): seq<Item> {
    Scalar(1, EnumBits(e.etype)) + (Scalar(2, e.term) + (Scalar(3, e.nodeId) + (Scalar(4, e.port)
    + (Host(e.host) + Scalar(6, e.writeIt)))))
  }

  function NestedItems(es: seq<Entry>): seq<Item> {
    if es == [] then [] else [Item(5, Text(EncodeEntry(es[0])))] + NestedItems(es[1..])
  }

  function AppendQItems(q: AppendQ): seq<Item> {
    Scalar(1, q.term) + (Scalar(2, q.prevIndex) + (Scalar(3, q.prevTerm) + (Scalar(4, q.leaderCommit)
    + NestedItems(q.entries))))
  }

  function AppendRItems(r: AppendR): seq<Item> {
    Scalar(1, r.term) + (Scalar(2, Flag(r.success)) + Scalar(3, Flag(r.isHeartbeat)))
  }

  lemma {:induction false} ReadCons(s: seq<byte>, item: Item, k: nat, items: seq<Item>)
    requires s != [] && ReadOne(s) == Some((item, k)) && ReadFields(s[k..]) == Some(items)
    ensures ReadFields(s) == Some([item] + items)
  {
  }

  lemma ScalarField(tag: byte, v: nat, rest: seq<byte>, items: seq<Item>)
    requires tag < 128 && tag % 8 == 0 && v < 0x1_0000_0000_0000_0000 && ReadFields(rest) == Some(items)
    ensures ReadFields(Field(tag, v) + rest) == Some(Scalar(tag / 8, v) + items)
  {
    if v == 0 {
      assert Field(tag, v) + rest == rest && Scalar(tag / 8, v) + items == items;
    } else {
      var s := [tag] + (Varint(v) + rest);
      Associate([tag], Varint(v), rest);
      TagRead(tag, Varint(v) + rest);
      ScalarRead(v, rest);
      assert s[1 + |Varint(v)|..] == rest;
      ReadCons(s, Item(tag / 8, Number(v)), 1 + |Varint(v)|, items);
    }
  }

  lemma TextOne(b: seq<byte>, rest: seq<byte>)
    requires |b| < TWO_31
    ensures var s := [42] + (Delimited(b) + rest);
            ReadOne(s) == Some((Item(5, Text(b)), 1 + |Delimited(b)|)) && s[1 + |Delimited(b)|..] == rest
  {
    TagRead(42, Delimited(b) + rest);
    DelimitedRoundTrip(b, rest);
    assert ([42] + (Delimited(b) + rest))[1..] == Delimited(b) + rest;
  }

  lemma TextField(b: seq<byte>, rest: seq<byte>, items: seq<Item>)
    requires |b| < TWO_31 && ReadFields(rest) == Some(items)
    ensures ReadFields([42] + Delimited(b) + rest) == Some([Item(5, Text(b))] + items)
  {
    Associate([42], Delimited(b), rest);
    TextOne(b, rest);
    ReadCons([42] + (Delimited(b) + rest), Item(5, Text(b)), 1 + |Delimited(b)|, items);
  }

  lemma HostItem(host: seq<byte>, rest: seq<byte>, items: seq<Item>)
    requires |host| < TWO_31 && ReadFields(rest) == Some(items)
    ensures ReadFields(HostField(host) + rest) == Some(Host(host) + items)
  {
    if host == [] {
      assert HostField(host) + rest == rest && Host(host) + items == items;
    } else {
      TextField(host, rest, items);
    }
  }

  lemma EntryTail(e: Entry)
    requires |e.host| < TWO_31
    ensures ReadFields(HostField(e.host) + Field(48, e.writeIt)) == Some(Host(e.host) + Scalar(6, e.writeIt))
  {
    ScalarField(48, e.writeIt, [], []);
    assert Field(48, e.writeIt) + [] == Field(48, e.writeIt) && Scalar(6, e.writeIt) + [] == Scalar(6, e.writeIt);
    HostItem(e.host, Field(48, e.writeIt), Scalar(6, e.writeIt));
  }

  lemma AssociateSix(a: seq<byte>, b: seq<byte>, c: seq<byte>, d: seq<byte>, e: seq<byte>, f: seq<byte>)
    ensures a + b + c + d + e + f == a + (b + (c + (d + (e + f))))
  {
    Associate(a + b + c + d, e, f);
    Associate(a + b + c, d, e + f);
    Associate(a + b, c, d + (e + f));
    Associate(a, b, c + (d + (e + f)));
  }

  /** A serialized entry is, to any reader, fields 1 to 6: type, term, node id, port, host and payload. */
  lemma EntryFields(e: Entry)
    requires |e.host| < TWO_31
    ensures ReadFields(EncodeEntry(e)) == Some(EntryItems(e))
  {
    var f1, f2, f3, f4 := Field(8, EnumBits(e.etype)), Field(16, e.term), Field(24, e.nodeId), Field(32, e.port);
    var tail, items := HostField(e.host) + Field(48, e.writeIt), Host(e.host) + Scalar(6, e.writeIt);
    AssociateSix(f1, f2, f3, f4, HostField(e.host), Field(48, e.writeIt));
    EntryTail(e);
    ScalarField(32, e.port, tail, items);
    ScalarField(24, e.nodeId, f4 + tail, Scalar(4, e.port) + items);
    ScalarField(16, e.term, f3 + (f4 + tail), Scalar(3, e.nodeId) + (Scalar(4, e.port) + items));
    ScalarField(8, EnumBits(e.etype), f2 + (f3 + (f4 + tail)),
                Scalar(2, e.term) + (Scalar(3, e.nodeId) + (Scalar(4, e.port) + items)));
  }

  lemma {:induction false} NestedFields(es: seq<Entry>)
    requires forall e <- es :: Encodable(e)
    ensures ReadFields(EncodeEntries(es)) == Some(NestedItems(es))
    decreases |es|
  {
    if es != [] {
      NestedFields(es[1..]);
      assert es[0] in es;
      TextField(EncodeEntry(es[0]), EncodeEntries(es[1..]), NestedItems(es[1..]));
    }
  }

  /** A serialized request is fields 1 to 4, then one field 5 for each entry, in order. */
  lemma AppendQFields(q: AppendQ)
    requires forall e <- q.entries :: Encodable(e)
    ensures ReadFields(EncodeAppendQ(q)) == Some(AppendQItems(q))
  {
    var f1, f2, f3 := Field(8, q.term), Field(16, q.prevIndex), Field(24, q.prevTerm);
    var f4, f5 := Field(32, q.leaderCommit), EncodeEntries(q.entries);
    Associate(f1 + f2 + f3, f4, f5);
    Associate(f1 + f2, f3, f4 + f5);
    Associate(f1, f2, f3 + (f4 + f5));
    NestedFields(q.entries);
    var i5 := NestedItems(q.entries);
    ScalarField(32, q.leaderCommit, f5, i5);
    var i4 := Scalar(4, q.leaderCommit) + i5;
    ScalarField(24, q.prevTerm, f4 + f5, i4);
    var i3 := Scalar(3, q.prevTerm) + i4;
    ScalarField(16, q.prevIndex, f3 + (f4 + f5), i3);
    ScalarField(8, q.term, f2 + (f3 + (f4 + f5)), Scalar(2, q.prevIndex) + i3);
  }

  /** A serialized reply is fields 1 to 3: term, success and heartbeat. */
  lemma AppendRFields(r: AppendR)
    ensures ReadFields(EncodeAppendR(r)) == Some(AppendRItems(r))
  {
    var f1, f2, f3 := Field(8, r.term), Field(16, Flag(r.success)), Field(24, Flag(r.isHeartbeat));
    Associate(f1, f2, f3);
    ScalarField(24, Flag(r.isHeartbeat), [], []);
    var i3 := Scalar(3, Flag(r.isHeartbeat));
    assert f3 + [] == f3 && i3 + [] == i3;
    ScalarField(16, Flag(r.success), f3, i3);
    ScalarField(8, r.term, f2 + f3, Scalar(2, Flag(r.success)) + i3);
  }

  // ---------------------------------------------------------------- parsing

  /** Field numbers as a tag can hold them. */
  predicate Numbered(items: seq<Item>) {
    forall i :: 0 <= i < |items| ==> 1 <= items[i].number < 0x2000_0000
  }

  /** What a field means to an entry: its value under the numbers it knows, with the wire type it expects, else
      nothing. */
  function WithItem(e: Entry, item: Item): Entry {
    match item
    case Item(1, Number(v)) => e.(etype := I32(U32(v)))
    case Item(2, Number(v)) => e.(term := U32(v))
    case Item(3, Number(v)) => e.(nodeId := U32(v))
    case Item(4, Number(v)) => e.(port := U32(v))
    case Item(5, Text(b)) => e.(host := b)
    case Item(6, Number(v)) => e.(writeIt := U32(v))
    case _ => e
  }

  function WithItems(e: Entry, items: seq<Item>): Entry
    decreases |items|
  {
    if items == [] then e else WithItems(WithItem(e, items[0]), items[1..])
  }

  predicate HostsValid(items: seq<Item>) {
    forall i :: 0 <= i < |items| && items[i].number == 5 && items[i].value.Text? ==> ValidUtf8(items[i].value.b)
  }

  lemma OneField(e: Entry, s: seq<byte>, item: Item, k: nat)
    requires s != [] && ReadOne(s) == Some((item, k)) && 1 <= item.number < 0x2000_0000
    ensures EntryField(e, s) ==
            if item.number == 5 && item.value.Text? && !ValidUtf8(item.value.b) then Fail(WithItem(e, item))
            else Next(WithItem(e, item), k)
  {
    TagOf(s, item, k);
    var (tag, j) := ReadVarint(s, MAX_VARINT_BYTES).value;
    if item.value.Number? {
      assert tag == 8 * item.number;
    } else if item.value.Text? {
      assert tag == 8 * item.number + 2;
    } else {
      assert !EntryScalar(tag) && tag != 42;
    }
  }

  /** Parsing any list of fields, in any order, repeated, with unknown ones among them: each known field takes its last
      value, and nothing else counts. */
  lemma {:induction false} ParseTakesFields(e: Entry, s: seq<byte>)
    requires ReadFields(s).Some? && Numbered(ReadFields(s).value) && HostsValid(ReadFields(s).value)
    ensures MergeEntry(e, s) == Parsed(true, WithItems(e, ReadFields(s).value))
    decreases |s|
  {
    if s != [] {
      var (item, k) := ReadOne(s).value;
      var items := ReadFields(s[k..]).value;
      assert ReadFields(s).value == [item] + items;
      assert ReadFields(s).value[0] == item && ReadFields(s).value[1..] == items;
      OneField(e, s, item, k);
      ParseTakesFields(WithItem(e, item), s[k..]);
    }
  }

  function RequestWithItem(q: AppendQ, item: Item): AppendQ {
    match item
    case Item(1, Number(v)) => q.(term := U32(v))
    case Item(2, Number(v)) => q.(prevIndex := U32(v))
    case Item(3, Number(v)) => q.(prevTerm := U32(v))
    case Item(4, Number(v)) => q.(leaderCommit := U32(v))
    case Item(5, Text(b)) => q.(entries := q.entries + [MergeEntry(NO_ENTRY, b).value])
    case _ => q
  }

  function RequestWithItems(q: AppendQ, items: seq<Item>): AppendQ
    decreases |items|
  {
    if items == [] then q else RequestWithItems(RequestWithItem(q, items[0]), items[1..])
  }

  predicate NestedValid(items: seq<Item>) {
    forall i :: 0 <= i < |items| && items[i].number == 5 && items[i].value.Text? ==>
      MergeEntry(NO_ENTRY, items[i].value.b).ok
  }

  /** The tag of a field that was read, and what was read behind it. */
  lemma TagOf(s: seq<byte>, item: Item, k: nat)
    requires ReadOne(s) == Some((item, k)) && item.number < 0x2000_0000
    ensures ReadVarint(s, MAX_VARINT_BYTES).Some?
    ensures var (tag, j) := ReadVarint(s, MAX_VARINT_BYTES).value;
            && tag < TWO_32 && U32(tag) == tag && tag / 8 == item.number
            && match item.value
               case Number(v) => tag % 8 == 0 && ReadVarint(s[j..], MAX_VARINT_BYTES) == Some((v, k - j))
               case Text(b) => tag % 8 == 2 && ReadBytes(s[j..]) == Some((b, k - j))
               case Fixed(_) =>
                 (tag % 8 == 1 && |s[j..]| >= 8 && k == j + 8) || (tag % 8 == 5 && |s[j..]| >= 4 && k == j + 4)
  {
  }

  lemma OneRequestField(q: AppendQ, s: seq<byte>, item: Item, k: nat)
    requires s != [] && ReadOne(s) == Some((item, k)) && 1 <= item.number < 0x2000_0000
    requires item.number == 5 && item.value.Text? ==> MergeEntry(NO_ENTRY, item.value.b).ok
    ensures AppendField(q, s) == Next(RequestWithItem(q, item), k)
  {
    TagOf(s, item, k);
    var (tag, j) := ReadVarint(s, MAX_VARINT_BYTES).value;
    if item.value.Number? {
      assert tag == 8 * item.number;
    } else if item.value.Text? {
      assert tag == 8 * item.number + 2;
    } else {
      assert !AppendScalar(tag) && tag != 42;
    }
  }

  /** The same for requests, whose entries accumulate. */
  lemma {:induction false} ParseTakesRequestFields(q: AppendQ, s: seq<byte>)
    requires ReadFields(s).Some? && Numbered(ReadFields(s).value) && NestedValid(ReadFields(s).value)
    ensures MergeAppendQ(q, s) == Parsed(true, RequestWithItems(q, ReadFields(s).value))
    decreases |s|
  {
    if s != [] {
      var (item, k) := ReadOne(s).value;
      var items := ReadFields(s[k..]).value;
      assert ReadFields(s).value == [item] + items;
      assert ReadFields(s).value[0] == item && ReadFields(s).value[1..] == items;
      OneRequestField(q, s, item, k);
      ParseTakesRequestFields(RequestWithItem(q, item), s[k..]);
    }
  }

  function ReplyWithItem(r: AppendR, item: Item): AppendR {
    match item
    case Item(1, Number(v)) => r.(term := U32(v))
    case Item(2, Number(v)) => r.(success := v % TWO_64 != 0)
    case Item(3, Number(v)) => r.(isHeartbeat := v % TWO_64 != 0)
    case _ => r
  }

  function ReplyWithItems(r: AppendR, items: seq<Item>): AppendR
    decreases |items|
  {
    if items == [] then r else ReplyWithItems(ReplyWithItem(r, items[0]), items[1..])
  }

  lemma OneReplyField(r: AppendR, s: seq<byte>, item: Item, k: nat)
    requires s != [] && ReadOne(s) == Some((item, k)) && 1 <= item.number < 0x2000_0000
    ensures ReplyField(r, s) == Next(ReplyWithItem(r, item), k)
  {
    TagOf(s, item, k);
    var (tag, j) := ReadVarint(s, MAX_VARINT_BYTES).value;
    if item.value.Number? {
      assert tag == 8 * item.number;
    } else if item.value.Text? {
      assert tag % 8 == 2 && !ReplyScalar(tag);
    } else {
      assert tag % 8 != 0 && !ReplyScalar(tag);
    }
  }

  /** The same for replies. */
  lemma {:induction false} ParseTakesReplyFields(r: AppendR, s: seq<byte>)
    requires ReadFields(s).Some? && Numbered(ReadFields(s).value)
    ensures MergeAppendR(r, s) == Parsed(true, ReplyWithItems(r, ReadFields(s).value))
    decreases |s|
  {
    if s != [] {
      var (item, k) := ReadOne(s).value;
      var items := ReadFields(s[k..]).value;
      assert ReadFields(s).value == [item] + items;
      assert ReadFields(s).value[0] == item && ReadFields(s).value[1..] == items;
      OneReplyField(r, s, item, k);
      ParseTakesReplyFields(ReplyWithItem(r, item), s[k..]);
    }
  }
}
