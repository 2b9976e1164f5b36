/**
 * `indexBase`: which shared index a git index names as a split index. The walk over arbitrary bytes
 * is proved to answer a recursive reading of them, and that reading to answer, for every index git
 * writes in versions 2, 3 and 4, exactly its `link` extension.
 */
module GitIndex {
  import opened Wrappers

  datatype Error = NotAnIndex | UnreadVersion | Truncated | NotUnderstood(signature: seq<Byte>)

  const DIRC: seq<Byte> := [0x44, 0x49, 0x52, 0x43]
  const LINK: seq<Byte> := [0x6c, 0x69, 0x6e, 0x6b]

  function U16(bytes: seq<Byte>, at: nat): nat
    requires at + 2 <= |bytes|
  {
    var high: nat := bytes[at];
    high * 256 + bytes[at + 1]
  }

  function U32(bytes: seq<Byte>, at: nat): nat
    requires at + 4 <= |bytes|
  {
    U16(bytes, at) * 65536 + U16(bytes, at + 2)
  }

  /** Where the first NUL from `from` on is. */
  function Nul(bytes: seq<Byte>, from: nat): (r: Option<nat>)
    ensures r.Some? ==> from <= r.value < |bytes| && bytes[r.value] == 0 && forall k :: from <= k < r.value ==>
            bytes[k] != 0
    ensures r.None? ==> forall k :: from <= k < |bytes| ==> bytes[k] != 0
    decreases |bytes| - from
  {
    if from >= |bytes| then None else if bytes[from] == 0 then Some(from) else Nul(bytes, from + 1)
  }

  /** Past every byte with its high bit set, from `at` to `end`. */
  function PastHigh(bytes: seq<Byte>, at: nat, end: nat): (r: nat)
    requires end <= |bytes|
    ensures at <= r
    decreases end - at
  {
    if at < end && bytes[at] >= 0x80 then PastHigh(bytes, at + 1, end) else at
  }

  // --- Reading -------------------------------------------------------------------------------

  /** ctime, mtime, dev, ino, mode, uid, gid and size; the object id; the flags. */
  function Fixed(hashLength: nat): nat {
    40 + hashLength + 2
  }

  /** `n` bytes padded with at least one NUL to a multiple of eight. */
  function Padded(n: nat): nat {
    (n + 8) / 8 * 8
  }

  /** Where the entry at `offset` ends. */
  function PastEntry(index: seq<Byte>, version: nat, hashLength: nat, offset: nat): (r: Result<nat, Error>)
    requires hashLength <= |index|
    ensures r.Ok? ==> offset < r.value
  {
    var end := |index| - hashLength;
    var fixed := Fixed(hashLength);
    if offset + fixed > end then Err(Truncated)
    else
      var flags := U16(index, offset + fixed - 2);
      var name := offset + fixed + if flags / 0x4000 % 2 == 1 then 2 else 0;
      if version == 4 then
        var nul := Nul(index, PastHigh(index, name, end) + 1);
        if nul.None? || nul.value >= end then Err(Truncated) else Ok(nul.value + 1)
      else if flags % 0x1000 == 0xfff then
        var nul := Nul(index, name);
        if nul.None? || nul.value >= end then Err(Truncated) else Ok(offset + Padded(nul.value - offset))
      else Ok(offset + Padded(name - offset + flags % 0x1000))
  }

  function PastEntries(index: seq<Byte>, version: nat, hashLength: nat, offset: nat, count: nat): Result<nat, Error>
    requires hashLength <= |index|
    decreases count
  {
    if count == 0 then Ok(offset)
    else
      match PastEntry(index, version, hashLength, offset)
      case Err(e) => Err(e)
      case Ok(next) => PastEntries(index, version, hashLength, next, count - 1)
  }

  predicate AllZero(bytes: seq<Byte>) {
    forall k :: 0 <= k < |bytes| ==> bytes[k] == 0
  }

  predicate IsUpper(b: Byte) {
    0x41 <= b <= 0x5a
  }

  /** What the extensions from `offset` on make of `base`. */
  function Extensions(index: seq<Byte>, hashLength: nat, offset: nat,
      base: Option<seq<Byte>>): Result<Option<seq<Byte>>, Error>
    requires hashLength <= |index|
    decreases |index| - offset
  {
    var end := |index| - hashLength;
    if offset + 8 > end then Ok(base)
    else
      var signature := index[offset..offset + 4];
      var data := offset + 8;
      var next := data + U32(index, offset + 4);
      if next > end then Err(Truncated)
      else if signature == LINK then
        if next - data < hashLength then Err(Truncated)
        else
          var oid := index[data..data + hashLength];
          Extensions(index, hashLength, next, if AllZero(oid) then None else Some(oid))
      else if !IsUpper(signature[0]) then Err(NotUnderstood(signature))
      else Extensions(index, hashLength, next, base)
  }

  function Reading(index: seq<Byte>, hashLength: nat): Result<Option<seq<Byte>>, Error> {
    if |index| - hashLength < 12 || index[..4] != DIRC then Err(NotAnIndex)
    else
      var version := U32(index, 4);
      if version < 2 || version > 4 then Err(UnreadVersion)
      else
        match PastEntries(index, version, hashLength, 12, U32(index, 8))
        case Err(e) => Err(e)
        case Ok(offset) => Extensions(index, hashLength, offset, None)
  }

  /** One step of the walk over the entries. */
  method EntryEnd(index: seq<Byte>, version: nat, hashLength: nat, offset: nat) returns (r: Result<nat, Error>)
    requires hashLength <= |index|
    ensures r == PastEntry(index, version, hashLength, offset)
  {
    var end := |index| - hashLength;
    var fixed := 40 + hashLength + 2;
    if offset + fixed > end {
      return Err(Truncated);
    }
    var flags := U16(index, offset + fixed - 2);
    var name := offset + fixed + if flags / 0x4000 % 2 == 1 then 2 else 0;
    if version == 4 {
      var suffix := name;
      while suffix < end && index[suffix] >= 0x80
        invariant name <= suffix
        invariant PastHigh(index, suffix, end) == PastHigh(index, name, end)
      {
        suffix := suffix + 1;
      }
      var nul := Nul(index, suffix + 1);
      if nul.None? || nul.value >= end {
        return Err(Truncated);
      }
      return Ok(nul.value + 1);
    }
    var length := flags % 0x1000;
    if length == 0xfff {
      var nul := Nul(index, name);
      if nul.None? || nul.value >= end {
        return Err(Truncated);
      }
      length := nul.value - name;
    }
    return Ok(offset + Padded(name - offset + length));
  }

  /** The walk, over any bytes at all: every index it reads is inside them, and it ends. */
  method IndexBase(index: seq<Byte>, hashLength: nat) returns (r: Result<Option<seq<Byte>>, Error>)
    ensures r == Reading(index, hashLength)
  {
    var end := |index| - hashLength;
    if end < 12 || index[..4] != DIRC {
      return Err(NotAnIndex);
    }
    var version := U32(index, 4);
    if version < 2 || version > 4 {
      return Err(UnreadVersion);
    }
    var count := U32(index, 8);
    var offset: nat := 12;
    var i := 0;
    while i < count
      invariant 0 <= i <= count
      invariant PastEntries(index, version, hashLength, offset, count - i) ==
                PastEntries(index, version, hashLength, 12, count)
    {
      var next := EntryEnd(index, version, hashLength, offset);
      if next.Err? {
        return Err(next.error);
      }
      offset := next.value;
      i := i + 1;
    }
    r := ScanExtensions(index, hashLength, offset);
  }

  method ScanExtensions(index: seq<Byte>, hashLength: nat, first: nat) returns (r: Result<Option<seq<Byte>>, Error>)
    requires hashLength <= |index|
    ensures r == Extensions(index, hashLength, first, None)
  {
    hide U16, U32, AllZero;
    var end := |index| - hashLength;
    var base: Option<seq<Byte>> := None;
    var offset := first;
    while offset + 8 <= end
      invariant Extensions(index, hashLength, offset, base) == Extensions(index, hashLength, first, None)
      decreases end - offset
    {
      var signature := index[offset..offset + 4];
      var data := offset + 8;
      var next := data + U32(index, offset + 4);
      if next > end {
        return Err(Truncated);
      }
      if signature == LINK {
        if next - data < hashLength {
          return Err(Truncated);
        }
        var oid := index[data..data + hashLength];
        base := if AllZero(oid) then None else Some(oid);
      } else if !IsUpper(signature[0]) {
        return Err(NotUnderstood(signature));
      }
      offset := next;
    }
    return Ok(base);
  }

  // --- What git writes -----------------------------------------------------------------------------

  /** An entry as an index holds it: `flagBits` the four above the length, the second of which says `extra` follows. */
  datatype IndexEntry = IndexEntry(stat: seq<Byte>, oid: seq<Byte>, flagBits: nat, extra: seq<Byte>, name: seq<Byte>)

  datatype Extension = Extension(signature: seq<Byte>, data: seq<Byte>)

  datatype Index = Index(version: nat, entries: seq<IndexEntry>, extensions: seq<Extension>, checksum: seq<Byte>)

  predicate GoodEntry(e: IndexEntry, hashLength: nat) {
    && |e.stat| == 40 && |e.oid| == hashLength && e.flagBits < 16
    && |e.extra| == (if e.flagBits / 4 % 2 == 1 then 2 else 0)
    && 0 !in e.name
  }

  predicate GoodExtension(x: Extension, hashLength: nat) {
    |x.signature| == 4 && |x.data| < 0x1_0000_0000
        && (x.signature == [0x6c, 0x69, 0x6e, 0x6b] ==> hashLength <= |x.data|)
  }

  predicate GoodEntries(es: seq<IndexEntry>, hashLength: nat) {
    forall k :: 0 <= k < |es| ==> GoodEntry(es[k], hashLength)
  }

  predicate GoodExtensions(xs: seq<Extension>, hashLength: nat) {
    forall k :: 0 <= k < |xs| ==> GoodExtension(xs[k], hashLength)
  }

  predicate GoodIndex(index: Index, hashLength: nat) {
    && 2 <= index.version <= 4 && |index.entries| < 0x1_0000_0000 && |index.checksum| == hashLength
    && GoodEntries(index.entries, hashLength) && GoodExtensions(index.extensions, hashLength)
  }

  function Big16(n: nat): seq<Byte>
    requires n < 0x1_0000
  {
    [n / 256, n % 256]
  }

  function Big32(n: nat): seq<Byte>
    requires n < 0x1_0000_0000
  {
    Big16(n / 65536) + Big16(n % 65536)
  }

  function EncodedFlags(e: IndexEntry): seq<Byte>
    requires e.flagBits < 16
  {
    Big16(e.flagBits * 0x1000 + Min(|e.name|, 0xfff))
  }

  function Nuls(n: nat): seq<Byte> {
    seq(n, _ => 0)
  }

  /** How many NULs pad `n` bytes. */
  function Padding(n: nat): (p: nat)
    ensures 1 <= p && n + p == Padded(n)
  {
    8 - n % 8
  }

  /** All but the last byte of git's variable-width `n * 128 + low`, each one less than its group; `low` ends it. */
  function VarintHigh(n: nat): seq<Byte> {
    if n == 0 then [] else VarintHigh((n - 1) / 128) + [128 + (n - 1) % 128]
  }

  function CommonPrefix(a: seq<Byte>, b: seq<Byte>): (n: nat)
    ensures n <= |a| && n <= |b| && a[..n] == b[..n]
  {
    if a == [] || b == [] || a[0] != b[0] then 0 else 1 + CommonPrefix(a[1..], b[1..])
  }

  function EntryHead(e: IndexEntry): seq<Byte>
    requires e.flagBits < 16
  {
    e.stat + e.oid + EncodedFlags(e) + e.extra
  }

  /** The entry after one named `previous`. */
  function EncodedEntry(e: IndexEntry, version: nat, previous: seq<Byte>): seq<Byte>
    requires e.flagBits < 16
  {
    var head := EntryHead(e);
    if version == 4 then
      var common := CommonPrefix(previous, e.name);
      head + (VarintHigh((|previous| - common) / 128) + ([(|previous| - common) % 128] + (e.name[common..] + [0])))
    else
      head + (e.name + Nuls(Padding(|head| + |e.name|)))
  }

  /** The name before entry `i`, which version 4 shares its first bytes with. */
  function Previous(es: seq<IndexEntry>, i: nat): seq<Byte>
    requires i <= |es|
  {
    if i == 0 then [] else es[i - 1].name
  }

  /** Entry `i` and those after it. */
  function EncodedEntries(es: seq<IndexEntry>, i: nat, hashLength: nat, version: nat): seq<Byte>
    requires GoodEntries(es, hashLength) && i <= |es|
    decreases |es| - i
  {
    if i == |es| then []
    else
      assert GoodEntry(es[i], hashLength);
      EncodedEntry(es[i], version, Previous(es, i)) + EncodedEntries(es, i + 1, hashLength, version)
  }

  function EncodedExtensions(xs: seq<Extension>, hashLength: nat): seq<Byte>
    requires GoodExtensions(xs, hashLength)
  {
    if xs == [] then [] else xs[0].signature + (Big32(|xs[0].data|) + (xs[0].data + EncodedExtensions(xs[1..],
        hashLength)))
  }

  function Encoded(index: Index, hashLength: nat): seq<Byte>
    requires GoodIndex(index, hashLength)
  {
    [0x44, 0x49, 0x52, 0x43] + (Big32(index.version) + (Big32(|index.entries|)
    + (EncodedEntries(index.entries, 0, hashLength, index.version)
        + (EncodedExtensions(index.extensions, hashLength) + index.checksum))))
  }

  // --- Reading it back -----------------------------------------------------------------------------

  /** `piece` stands in `whole` at `at`. */
  predicate At(whole: seq<Byte>, at: nat, piece: seq<Byte>)
    ensures At(whole, at, piece) && piece != [] ==> at + |piece| <= |whole|
    decreases |piece|
  {
    piece == [] || (at < |whole| && whole[at] == piece[0] && At(whole, at + 1, piece[1..]))
  }

  lemma {:induction false} AtIndex(whole: seq<Byte>, at: nat, piece: seq<Byte>, k: nat)
    requires At(whole, at, piece) && k < |piece|
    ensures whole[at + k] == piece[k]
    decreases |piece|
  {
    if k > 0 { AtIndex(whole, at + 1, piece[1..], k - 1); }
  }

  lemma {:induction false} AtParts(whole: seq<Byte>, at: nat, a: seq<Byte>, b: seq<Byte>)
    requires At(whole, at, a + b)
    ensures At(whole, at, a) && At(whole, at + |a|, b)
    decreases |a|
  {
    if a == [] {
      assert a + b == b;
    } else {
      assert (a + b)[1..] == a[1..] + b;
      AtParts(whole, at + 1, a[1..], b);
    }
  }

  lemma {:induction false} AtItself(whole: seq<Byte>, at: nat)
    requires at <= |whole|
    ensures At(whole, at, whole[at..])
    decreases |whole| - at
  {
    if at < |whole| {
      assert whole[at..][1..] == whole[at + 1..];
      AtItself(whole, at + 1);
    }
  }

  lemma AtBig16(whole: seq<Byte>, at: nat, n: nat)
    requires n < 0x1_0000 && At(whole, at, Big16(n))
    ensures U16(whole, at) == n
  {
    AtIndex(whole, at, Big16(n), 0);
    AtIndex(whole, at, Big16(n), 1);
  }

  lemma AtBig32(whole: seq<Byte>, at: nat, n: nat)
    requires n < 0x1_0000_0000 && At(whole, at, Big32(n))
    ensures U32(whole, at) == n
  {
    AtParts(whole, at, Big16(n / 65536), Big16(n % 65536));
    AtBig16(whole, at, n / 65536);
    AtBig16(whole, at + 2, n % 65536);
  }

  lemma NulAt(whole: seq<Byte>, from: nat, n: nat)
    requires from <= n < |whole| && whole[n] == 0 && forall k :: from <= k < n ==> whole[k] != 0
    ensures Nul(whole, from) == Some(n)
  {
    var r := Nul(whole, from);
    assert r.Some? && r.value <= n;
  }

  lemma {:induction false} HighIsHigh(n: nat)
    ensures forall k :: 0 <= k < |VarintHigh(n)| ==> VarintHigh(n)[k] >= 0x80
  {
    if n != 0 { HighIsHigh((n - 1) / 128); }
  }

  lemma {:induction false} PastHighAt(whole: seq<Byte>, at: nat, end: nat, stop: nat)
    requires at <= stop < end <= |whole| && whole[stop] < 0x80 && forall k :: at <= k < stop ==> whole[k] >= 0x80
    ensures PastHigh(whole, at, end) == stop
    decreases stop - at
  {
    if at < stop { PastHighAt(whole, at + 1, end, stop); }
  }

  /** The flags of an encoded entry read back. */
  lemma FlagsRead(whole: seq<Byte>, offset: nat, e: IndexEntry, hashLength: nat)
    requires GoodEntry(e, hashLength) && At(whole, offset, EntryHead(e))
    ensures offset + Fixed(hashLength) <= |whole| && |EntryHead(e)| == Fixed(hashLength) + |e.extra|
    ensures var flags := U16(whole, offset + Fixed(hashLength) - 2);
            flags % 0x1000 == Min(|e.name|, 0xfff) && flags / 0x4000 % 2 == e.flagBits / 4 % 2
  {
    var flags := e.flagBits * 0x1000 + Min(|e.name|, 0xfff);
    AtParts(whole, offset, e.stat + e.oid + EncodedFlags(e), e.extra);
    AtParts(whole, offset, e.stat + e.oid, EncodedFlags(e));
    AtBig16(whole, offset + 40 + hashLength, flags);
  }

  /** Past the stripped-prefix integer and the rest of a version 4 name. */
  lemma SuffixRead(whole: seq<Byte>, name: nat, end: nat, high: seq<Byte>, low: Byte, rest: seq<Byte>)
    requires At(whole, name, high + ([low] + (rest + [0]))) && name + |high| + 1 + |rest| < end <= |whole|
    requires low < 0x80 && 0 !in rest && forall k :: 0 <= k < |high| ==> high[k] >= 0x80
    ensures PastHigh(whole, name, end) == name + |high|
    ensures Nul(whole, name + |high| + 1) == Some(name + |high| + 1 + |rest|)
  {
    hide PastHigh, Nul, At;
    ThreeParts(whole, name, high, [low], rest + [0]);
    LowRead(whole, name, end, high, low);
    NameEnds(whole, name + |high| + 1, rest, [0]);
  }

  lemma ThreeParts(whole: seq<Byte>, at: nat, a: seq<Byte>, b: seq<Byte>, c: seq<Byte>)
    requires At(whole, at, a + (b + c))
    ensures At(whole, at, a) && At(whole, at + |a|, b) && At(whole, at + |a| + |b|, c)
  {
    AtParts(whole, at, a, b + c);
    AtParts(whole, at + |a|, b, c);
  }

  lemma LowRead(whole: seq<Byte>, name: nat, end: nat, high: seq<Byte>, low: Byte)
    requires At(whole, name, high) && At(whole, name + |high|, [low]) && name + |high| < end <= |whole|
    requires low < 0x80 && forall k :: 0 <= k < |high| ==> high[k] >= 0x80
    ensures PastHigh(whole, name, end) == name + |high|
  {
    forall k | name <= k < name + |high| ensures whole[k] >= 0x80 {
      AtIndex(whole, name, high, k - name);
    }
    AtIndex(whole, name + |high|, [low], 0);
    PastHighAt(whole, name, end, name + |high|);
  }

  /** A name with no NUL in it ends at the one that follows. */
  lemma NameEnds(whole: seq<Byte>, at: nat, name: seq<Byte>, after: seq<Byte>)
    requires At(whole, at, name + after) && 0 !in name && |after| > 0 && after[0] == 0
    ensures Nul(whole, at) == Some(at + |name|)
  {
    AtParts(whole, at, name, after);
    forall k | at <= k < at + |name| ensures whole[k] != 0 {
      AtIndex(whole, at, name, k - at);
      assert name[k - at] in name;
    }
    AtIndex(whole, at + |name|, after, 0);
    NulAt(whole, at, at + |name|);
  }

  /** Where an entry read to here ends, its name's NUL found at `nul`. */
  lemma PastV4(index: seq<Byte>, hashLength: nat, offset: nat, headLength: nat, high: nat, nul: nat)
    requires hashLength <= |index| && offset + Fixed(hashLength) <= |index| - hashLength
    requires headLength == Fixed(hashLength) + if U16(index, offset + Fixed(hashLength) - 2) / 0x4000 % 2 == 1 then 2
             else 0
    requires PastHigh(index, offset + headLength, |index| - hashLength) == high
    requires Nul(index, high + 1) == Some(nul) && nul < |index| - hashLength
    ensures PastEntry(index, 4, hashLength, offset) == Ok(nul + 1)
  {
  }

  lemma PastPadded(index: seq<Byte>, version: nat, hashLength: nat, offset: nat, headLength: nat, nameLength: nat)
    requires version != 4 && hashLength <= |index| && offset + headLength + nameLength < |index| - hashLength
    requires Fixed(hashLength) <= headLength
    requires headLength == Fixed(hashLength) + if U16(index, offset + Fixed(hashLength) - 2) / 0x4000 % 2 == 1 then 2
             else 0
    requires U16(index, offset + Fixed(hashLength) - 2) % 0x1000 == Min(nameLength, 0xfff)
    requires nameLength >= 0xfff ==> Nul(index, offset + headLength) == Some(offset + headLength + nameLength)
    ensures PastEntry(index, version, hashLength, offset) == Ok(offset + Padded(headLength + nameLength))
  {
  }

  lemma EntryReadV4(whole: seq<Byte>, offset: nat, e: IndexEntry, previous: seq<Byte>, hashLength: nat)
    requires GoodEntry(e, hashLength) && hashLength <= |whole|
    requires At(whole, offset, EncodedEntry(e, 4, previous))
             && offset + |EncodedEntry(e, 4, previous)| <= |whole| - hashLength
    ensures PastEntry(whole, 4, hashLength, offset) == Ok(offset + |EncodedEntry(e, 4, previous)|)
  {
    hide PastEntry, Nul, At, EntryHead, U16, PastHigh, VarintHigh;
    var head := EntryHead(e);
    var common := CommonPrefix(previous, e.name);
    var strip := |previous| - common;
    var high := VarintHigh(strip / 128);
    var low: Byte := strip % 128;
    var rest := e.name[common..];
    AtParts(whole, offset, head, high + ([low] + (rest + [0])));
    FlagsRead(whole, offset, e, hashLength);
    HighIsHigh(strip / 128);
    assert 0 !in rest;
    SuffixRead(whole, offset + |head|, |whole| - hashLength, high, low, rest);
    PastV4(whole, hashLength, offset, |head|, offset + |head| + |high|, offset + |head| + |high| + 1 + |rest|);
  }

  lemma EntryReadPadded(whole: seq<Byte>, offset: nat, e: IndexEntry, version: nat, previous: seq<Byte>,
      hashLength: nat)
    requires GoodEntry(e, hashLength) && hashLength <= |whole| && version != 4
    requires At(whole, offset, EncodedEntry(e, version, previous))
             && offset + |EncodedEntry(e, version, previous)| <= |whole| - hashLength
    ensures PastEntry(whole, version, hashLength, offset) == Ok(offset + |EncodedEntry(e, version, previous)|)
  {
    hide PastEntry, Nul, At, EntryHead, U16;
    var head := EntryHead(e);
    var pad := Nuls(Padding(|head| + |e.name|));
    AtParts(whole, offset, head, e.name + pad);
    FlagsRead(whole, offset, e, hashLength);
    if |e.name| >= 0xfff {
      NameEnds(whole, offset + |head|, e.name, pad);
    }
    PastPadded(whole, version, hashLength, offset, |head|, |e.name|);
  }

  lemma EntryRead(whole: seq<Byte>, offset: nat, e: IndexEntry, version: nat, previous: seq<Byte>, hashLength: nat)
    requires GoodEntry(e, hashLength) && hashLength <= |whole|
    requires At(whole, offset, EncodedEntry(e, version, previous))
             && offset + |EncodedEntry(e, version, previous)| <= |whole| - hashLength
    ensures PastEntry(whole, version, hashLength, offset) == Ok(offset + |EncodedEntry(e, version, previous)|)
  {
    hide PastEntry, EncodedEntry, At;
    if version == 4 {
      EntryReadV4(whole, offset, e, previous, hashLength);
    } else {
      EntryReadPadded(whole, offset, e, version, previous, hashLength);
    }
  }

  /** One more entry read, the entries after it taking `count` steps. */
  lemma PastOne(index: seq<Byte>, version: nat, hashLength: nat, offset: nat, next: nat, count: nat)
    requires hashLength <= |index| && PastEntry(index, version, hashLength, offset) == Ok(next)
    ensures PastEntries(index, version, hashLength, offset, count + 1) ==
            PastEntries(index, version, hashLength, next, count)
  {
  }

  lemma {:induction false} EntriesRead(whole: seq<Byte>, offset: nat, es: seq<IndexEntry>, version: nat,
      hashLength: nat, i: nat)
    requires GoodEntries(es, hashLength) && i <= |es| && At(whole, offset, EncodedEntries(es, i, hashLength, version))
    requires offset + |EncodedEntries(es, i, hashLength, version)| + hashLength <= |whole|
    ensures PastEntries(whole, version, hashLength, offset, |es| - i) ==
            Ok(offset + |EncodedEntries(es, i, hashLength, version)|)
    decreases |es| - i
  {
    hide EncodedEntry, PastEntry, At;
    if i < |es| {
      assert GoodEntry(es[i], hashLength);
      var piece := EncodedEntry(es[i], version, Previous(es, i));
      AtParts(whole, offset, piece, EncodedEntries(es, i + 1, hashLength, version));
      EntryRead(whole, offset, es[i], version, Previous(es, i), hashLength);
      PastOne(whole, version, hashLength, offset, offset + |piece|, |es| - i - 1);
      EntriesRead(whole, offset + |piece|, es, version, hashLength, i + 1);
    }
  }

  /** What extensions make of `base`: each `link` its object id, or none where that is all zero. */
  function Answer(xs: seq<Extension>, hashLength: nat, base: Option<seq<Byte>>): Result<Option<seq<Byte>>, Error>
    requires GoodExtensions(xs, hashLength)
  {
    if xs == [] then Ok(base)
    else
      assert GoodExtension(xs[0], hashLength);
      if xs[0].signature == LINK then Answer(xs[1..], hashLength, LinkOf(xs[0], hashLength))
      else if !IsUpper(xs[0].signature[0]) then Err(NotUnderstood(xs[0].signature))
      else Answer(xs[1..], hashLength, base)
  }

  function LinkOf(x: Extension, hashLength: nat): Option<seq<Byte>>
    requires hashLength <= |x.data|
  {
    if AllZero(x.data[..hashLength]) then None else Some(x.data[..hashLength])
  }

  lemma ExtensionAt(whole: seq<Byte>, offset: nat, x: Extension, rest: seq<Byte>, hashLength: nat)
    requires GoodExtension(x, hashLength) && At(whole, offset, x.signature + (Big32(|x.data|) + (x.data + rest)))
    ensures offset + 8 + |x.data| + |rest| <= |whole|
    ensures whole[offset..offset + 4] == x.signature && U32(whole, offset + 4) == |x.data|
    ensures At(whole, offset + 8, x.data) && At(whole, offset + 8 + |x.data|, rest)
  {
    AtParts(whole, offset, x.signature, Big32(|x.data|) + (x.data + rest));
    AtParts(whole, offset + 4, Big32(|x.data|), x.data + rest);
    AtParts(whole, offset + 8, x.data, rest);
    AtBig32(whole, offset + 4, |x.data|);
    forall k | 0 <= k < 4 ensures whole[offset + k] == x.signature[k] {
      AtIndex(whole, offset, x.signature, k);
    }
  }

  /** One extension read. */
  lemma ExtensionRead(whole: seq<Byte>, offset: nat, x: Extension, hashLength: nat, base: Option<seq<Byte>>)
    requires hashLength <= |whole| && GoodExtension(x, hashLength) && offset + 8 + |x.data| <= |whole| - hashLength
    requires whole[offset..offset + 4] == x.signature && U32(whole, offset + 4) == |x.data|
             && At(whole, offset + 8, x.data)
    ensures Extensions(whole, hashLength, offset, base) ==
            if x.signature == LINK then Extensions(whole, hashLength, offset + 8 + |x.data|, LinkOf(x, hashLength))
            else if !IsUpper(x.signature[0]) then Err(NotUnderstood(x.signature))
            else Extensions(whole, hashLength, offset + 8 + |x.data|, base)
  {
    var data := offset + 8;
    if x.signature == LINK {
      forall k | 0 <= k < hashLength ensures whole[data + k] == x.data[k] {
        AtIndex(whole, data, x.data, k);
      }
      assert whole[data..data + hashLength] == x.data[..hashLength];
    }
  }

  lemma {:induction false} ExtensionsRead(whole: seq<Byte>, offset: nat, xs: seq<Extension>, hashLength: nat,
      base: Option<seq<Byte>>)
    requires hashLength <= |whole| && GoodExtensions(xs, hashLength)
    requires At(whole, offset, EncodedExtensions(xs, hashLength))
             && offset + |EncodedExtensions(xs, hashLength)| == |whole| - hashLength
    ensures Extensions(whole, hashLength, offset, base) == Answer(xs, hashLength, base)
    decreases |xs|
  {
    hide At, LinkOf;
    if xs != [] {
      hide Extensions, IsUpper;
      var x := xs[0];
      assert GoodExtension(x, hashLength);
      ExtensionAt(whole, offset, x, EncodedExtensions(xs[1..], hashLength), hashLength);
      ExtensionRead(whole, offset, x, hashLength, base);
      var next := if x.signature == LINK then LinkOf(x, hashLength) else base;
      ExtensionsRead(whole, offset + 8 + |x.data|, xs[1..], hashLength, next);
    }
  }

  lemma HeaderRead(whole: seq<Byte>, version: nat, count: nat, body: seq<Byte>)
    requires version < 0x1_0000_0000 && count < 0x1_0000_0000
    requires whole == DIRC + (Big32(version) + (Big32(count) + body))
    ensures whole[..4] == DIRC && U32(whole, 4) == version && U32(whole, 8) == count && At(whole, 12, body)
  {
    AtItself(whole, 0);
    assert whole[0..] == whole;
    AtParts(whole, 0, DIRC, Big32(version) + (Big32(count) + body));
    AtParts(whole, 4, Big32(version), Big32(count) + body);
    AtParts(whole, 8, Big32(count), body);
    AtBig32(whole, 4, version);
    AtBig32(whole, 8, count);
  }

  lemma ReadingOf(index: seq<Byte>, hashLength: nat, version: nat, count: nat, offset: nat)
    requires |index| - hashLength >= 12 && index[..4] == DIRC && U32(index, 4) == version && U32(index, 8) == count
             && 2 <= version <= 4
    requires PastEntries(index, version, hashLength, 12, count) == Ok(offset)
    ensures Reading(index, hashLength) == Extensions(index, hashLength, offset, None)
  {
  }

  /** Every index git writes reads as its extensions answer, whatever its version, entries and hash. */
  lemma EncodedReads(index: Index, hashLength: nat)
    requires GoodIndex(index, hashLength)
    ensures Reading(Encoded(index, hashLength), hashLength) == Answer(index.extensions, hashLength, None)
  {
    hide Reading, PastEntries, Extensions, Answer, EncodedEntries, EncodedExtensions, At;
    var whole := Encoded(index, hashLength);
    var entries := EncodedEntries(index.entries, 0, hashLength, index.version);
    var extensions := EncodedExtensions(index.extensions, hashLength);
    HeaderRead(whole, index.version, |index.entries|, entries + (extensions + index.checksum));
    ThreeParts(whole, 12, entries, extensions, index.checksum);
    EntriesRead(whole, 12, index.entries, index.version, hashLength, 0);
    ReadingOf(whole, hashLength, index.version, |index.entries|, 12 + |entries|);
    ExtensionsRead(whole, 12 + |entries|, index.extensions, hashLength, None);
  }

  /**
   * Extensions are refused exactly when one is neither `link` nor named from a capital letter; a `link` answers its
   * object id, or none where that is all zero, and the last one decides.
   */
  lemma {:induction false} AnswerMeaning(xs: seq<Extension>, hashLength: nat, base: Option<seq<Byte>>)
    requires GoodExtensions(xs, hashLength)
    ensures var r := Answer(xs, hashLength, base);
            && (r.Err? <==> exists k :: 0 <= k < |xs| && xs[k].signature != [0x6c, 0x69, 0x6e, 0x6b]
                                        && (xs[k].signature[0] < 0x41 || xs[k].signature[0] > 0x5a))
            && (r.Ok? && (forall k :: 0 <= k < |xs| ==> xs[k].signature != [0x6c, 0x69, 0x6e, 0x6b]) ==>
                r.value == base)
            && (forall k :: 0 <= k < |xs| && xs[k].signature == [0x6c, 0x69, 0x6e, 0x6b] && r.Ok? ==>
                  (exists j :: k < j < |xs| && xs[j].signature == [0x6c, 0x69, 0x6e, 0x6b])
                  || r.value == if forall i :: 0 <= i < hashLength ==> xs[k].data[i] == 0 then None
                             else Some(xs[k].data[..hashLength]))
    decreases |xs|
  {
    if xs != [] {
      assert GoodExtension(xs[0], hashLength);
      var next := if xs[0].signature == LINK then LinkOf(xs[0], hashLength) else base;
      AnswerMeaning(xs[1..], hashLength, next);
      assert forall k :: 0 < k < |xs| ==> xs[k] == xs[1..][k - 1];
      if Answer(xs, hashLength, base).Err? && (xs[0].signature == LINK || IsUpper(xs[0].signature[0])) {
        var k :| 0 <= k < |xs[1..]| && xs[1..][k].signature != LINK
                 && (xs[1..][k].signature[0] < 0x41 || xs[1..][k].signature[0] > 0x5a);
        assert xs[k + 1] == xs[1..][k];
      }
    }
  }

  /**
   * Of an index git writes: an error exactly when some extension is neither `link` nor named from a capital letter;
   * else the object id its last `link` holds, or none where it has no `link` or an all-zero one.
   */
  lemma BaseOfEncoded(index: Index, hashLength: nat)
    requires GoodIndex(index, hashLength)
    ensures var r := Reading(Encoded(index, hashLength), hashLength);
            var xs := index.extensions;
            && (r.Err? <==> exists k :: 0 <= k < |xs| && xs[k].signature != [0x6c, 0x69, 0x6e, 0x6b]
                                        && (xs[k].signature[0] < 0x41 || xs[k].signature[0] > 0x5a))
            && (r.Ok? && (forall k :: 0 <= k < |xs| ==> xs[k].signature != [0x6c, 0x69, 0x6e, 0x6b]) ==>
                r.value == None)
            && (forall k :: 0 <= k < |xs| && xs[k].signature == [0x6c, 0x69, 0x6e, 0x6b] && r.Ok? ==>
                  (exists j :: k < j < |xs| && xs[j].signature == [0x6c, 0x69, 0x6e, 0x6b])
                  || r.value == if forall i :: 0 <= i < hashLength ==> xs[k].data[i] == 0 then None
                             else Some(xs[k].data[..hashLength]))
  {
    EncodedReads(index, hashLength);
    AnswerMeaning(index.extensions, hashLength, None);
  }

  // --- Nothing else is read ------------------------------------------------------------------------

  lemma Big32Of(index: seq<Byte>, at: nat)
    requires at + 4 <= |index|
    ensures U32(index, at) < 0x1_0000_0000 && Big32(U32(index, at)) == index[at..at + 4]
  {
    var a, b := U16(index, at), U16(index, at + 2);
    assert a < 65536 && b < 65536;
    assert (a * 65536 + b) / 65536 == a && (a * 65536 + b) % 65536 == b;
  }

  lemma {:induction false} AtSlice(whole: seq<Byte>, at: nat, piece: seq<Byte>)
    requires at + |piece| <= |whole| && whole[at..at + |piece|] == piece
    ensures At(whole, at, piece)
    decreases |piece|
  {
    if piece != [] {
      var part := whole[at..at + |piece|];
      assert part[0] == whole[at] && part[1..] == whole[at + 1..at + 1 + |piece[1..]|];
      AtSlice(whole, at + 1, piece[1..]);
    }
  }

  lemma {:induction false} AtJoined(whole: seq<Byte>, at: nat, a: seq<Byte>, b: seq<Byte>)
    requires At(whole, at, a) && At(whole, at + |a|, b)
    ensures At(whole, at, a + b)
    decreases |a|
  {
    if a == [] {
      assert a + b == b;
    } else {
      assert (a + b)[1..] == a[1..] + b;
      AtJoined(whole, at + 1, a[1..], b);
    }
  }

  /**
   * The converse, of any bytes: extensions answered without an error are whole ones, up to less than a header before
   * the checksum, and are answered as those are.
   */
  lemma {:induction false} ExtensionsWere(index: seq<Byte>, hashLength: nat, offset: nat, base: Option<seq<Byte>>)
      returns (xs: seq<Extension>)
    requires hashLength <= |index| && Extensions(index, hashLength, offset, base).Ok?
    ensures GoodExtensions(xs, hashLength) && At(index, offset, EncodedExtensions(xs, hashLength))
    ensures offset + |EncodedExtensions(xs, hashLength)| + 8 + hashLength > |index|
    ensures xs != [] ==> offset + |EncodedExtensions(xs, hashLength)| + hashLength <= |index|
    ensures Extensions(index, hashLength, offset, base) == Answer(xs, hashLength, base)
    decreases |index| - offset
  {
    if offset + 8 + hashLength > |index| {
      return [];
    }
    hide Extensions, GoodExtensions, LinkOf, AllZero;
    var x := ExtensionThere(index, hashLength, offset, base);
    ExtensionRead(index, offset, x, hashLength, base);
    var rest := ExtensionsWere(index, hashLength, offset + 8 + |x.data|,
      if x.signature == LINK then LinkOf(x, hashLength) else base);
    xs := ExtensionFirst(index, hashLength, offset, x, rest);
  }

  /** The extension at `offset`. */
  lemma ExtensionThere(index: seq<Byte>, hashLength: nat, offset: nat, base: Option<seq<Byte>>) returns (x: Extension)
    requires offset + 8 + hashLength <= |index| && Extensions(index, hashLength, offset, base).Ok?
    ensures GoodExtension(x, hashLength) && offset + 8 + |x.data| + hashLength <= |index|
    ensures index[offset..offset + 4] == x.signature && U32(index, offset + 4) == |x.data|
    ensures At(index, offset, x.signature) && At(index, offset + 4, Big32(|x.data|)) && At(index, offset + 8, x.data)
    ensures x.signature != LINK ==> IsUpper(x.signature[0])
  {
    var length := U32(index, offset + 4);
    x := Extension(index[offset..offset + 4], index[offset + 8..offset + 8 + length]);
    Big32Of(index, offset + 4);
    AtSlice(index, offset, x.signature);
    AtSlice(index, offset + 4, Big32(length));
    AtSlice(index, offset + 8, x.data);
  }

  lemma ExtensionFirst(index: seq<Byte>, hashLength: nat, offset: nat, x: Extension, rest: seq<Extension>)
      returns (xs: seq<Extension>)
    requires GoodExtension(x, hashLength) && GoodExtensions(rest, hashLength)
    requires At(index, offset, x.signature) && At(index, offset + 4, Big32(|x.data|)) && At(index, offset + 8, x.data)
    requires At(index, offset + 8 + |x.data|, EncodedExtensions(rest, hashLength))
    ensures GoodExtensions(xs, hashLength) && xs != [] && xs[0] == x && xs[1..] == rest
    ensures At(index, offset, EncodedExtensions(xs, hashLength))
    ensures |EncodedExtensions(xs, hashLength)| == 8 + |x.data| + |EncodedExtensions(rest, hashLength)|
  {
    hide At;
    xs := [x] + rest;
    assert xs[1..] == rest;
    AtJoined(index, offset + 8, x.data, EncodedExtensions(rest, hashLength));
    AtJoined(index, offset + 4, Big32(|x.data|), x.data + EncodedExtensions(rest, hashLength));
    AtJoined(index, offset, x.signature, Big32(|x.data|) + (x.data + EncodedExtensions(rest, hashLength)));
  }

  /**
   * Which bytes are refused before any entry: too short for a header and a checksum, not starting "DIRC", or of a
   * version other than 2, 3 and 4.
   */
  lemma HeaderRefused(index: seq<Byte>, hashLength: nat)
    ensures Reading(index, hashLength) == Err(NotAnIndex) <==>
            |index| < 12 + hashLength || index[..4] != [0x44, 0x49, 0x52, 0x43]
    ensures Reading(index, hashLength) == Err(UnreadVersion) <==>
            && |index| >= 12 + hashLength && index[..4] == [0x44, 0x49, 0x52, 0x43]
            && !(index[4] == 0 && index[5] == 0 && index[6] == 0 && 2 <= index[7] <= 4)
  {
    if |index| >= 12 + hashLength && index[..4] == [0x44, 0x49, 0x52, 0x43] {
      var version := U32(index, 4);
      assert version == index[4] as int * 0x100_0000 + index[5] as int * 0x1_0000 + index[6] as int * 0x100 + index[7];
      if 2 <= version <= 4 {
        EntriesTruncated(index, version, hashLength, 12, U32(index, 8));
        if PastEntries(index, version, hashLength, 12, U32(index, 8)).Ok? {
          ExtensionErrors(index, hashLength, PastEntries(index, version, hashLength, 12, U32(index, 8)).value, None);
        }
      }
    }
  }

  lemma {:induction false} EntriesTruncated(index: seq<Byte>, version: nat, hashLength: nat, offset: nat, count: nat)
    requires hashLength <= |index|
    ensures var r := PastEntries(index, version, hashLength, offset, count); r.Ok? || r == Err(Truncated)
    decreases count
  {
    if count > 0 {
      var next := PastEntry(index, version, hashLength, offset);
      if next.Ok? { EntriesTruncated(index, version, hashLength, next.value, count - 1); }
    }
  }

  lemma {:induction false} ExtensionErrors(index: seq<Byte>, hashLength: nat, offset: nat, base: Option<seq<Byte>>)
    requires hashLength <= |index|
    ensures var r := Extensions(index, hashLength, offset, base);
            r.Ok? || r.error == Truncated || r.error.NotUnderstood?
    decreases |index| - offset
  {
    if offset + 8 + hashLength <= |index| {
      var next := offset + 8 + U32(index, offset + 4);
      var signature := index[offset..offset + 4];
      if next + hashLength <= |index| {
        var oid := index[offset + 8..next];
        ExtensionErrors(index, hashLength, next,
          if signature == LINK && hashLength <= |oid| then
            if AllZero(oid[..hashLength]) then None else Some(oid[..hashLength])
          else base);
        assert hashLength <= |oid| ==> index[offset + 8..offset + 8 + hashLength] == oid[..hashLength];
      }
    }
  }

  /**
   * Which entry is refused: one whose fixed part does not fit before the checksum, or whose name, where only a NUL
   * ends it, has none there. In version 4 it is sought past the varint that leads the name.
   */
  lemma EntryRefused(index: seq<Byte>, version: nat, hashLength: nat, offset: nat)
    requires hashLength <= |index|
    ensures var end := |index| - hashLength;
            var r := PastEntry(index, version, hashLength, offset);
            && (r.Err? ==> r == Err(Truncated))
            && (offset + 42 + hashLength > end ==> r.Err?)
            && (offset + 42 + hashLength <= end ==>
                  var flags := index[offset + 40 + hashLength] as int * 256 + index[offset + 41 + hashLength];
                  var name := offset + 42 + hashLength + if flags / 0x4000 % 2 == 1 then 2 else 0;
                  && (version != 4 && flags % 0x1000 != 0xfff ==> r.Ok?)
                  && (version != 4 && flags % 0x1000 == 0xfff ==>
                        (r.Err? <==> forall k :: name <= k < end ==> index[k] != 0))
                  && (version == 4 ==>
                        (r.Err? <==> forall k :: name < k < end && index[k] == 0 ==>
                           forall v :: name <= v < k ==> index[v] >= 0x80)))
  {
    var end := |index| - hashLength;
    if version == 4 && offset + 42 + hashLength <= end {
      var flags := U16(index, offset + 40 + hashLength);
      var name := offset + 42 + hashLength + if flags / 0x4000 % 2 == 1 then 2 else 0;
      HighRun(index, name, end);
    }
  }

  lemma {:induction false} HighRun(index: seq<Byte>, at: nat, end: nat)
    requires end <= |index|
    ensures var stop := PastHigh(index, at, end);
            && at <= stop && (stop <= end || stop == at)
                && (forall v :: at <= v < stop ==> v < |index| && index[v] >= 0x80)
            && (stop < end ==> index[stop] < 0x80)
    decreases end - at
  {
    if at < end && index[at] >= 0x80 { HighRun(index, at + 1, end); }
  }
}
