/**
 * The per-client key of a rate limit: every spelling of an IPv6 address keys as its address, two
 * addresses share a key exactly when they are one client, and an IPv4-mapped one is its IPv4 client.
 */
module IPv6Key {
  import opened Wrappers
  import opened Digits
  import opened Splitting

  // --- Text ----------------------------------------------------------------------------------------

  function LowerChar(c: char): char {
    if 'A' <= c <= 'Z' then c + ('a' - 'A') else c
  }

  function Lower(s: string): (r: string)
    ensures |r| == |s|
  {
    seq(|s|, i requires 0 <= i < |s| => LowerChar(s[i]))
  }

  // --- The key -------------------------------------------------------------------------------------

  predicate IsHexGroup(s: string) {
    1 <= |s| <= 4 && AllHex(s)
  }

  predicate IsOctet(s: string) {
    1 <= |s| <= 3 && AllDigits(s) && Value(10, s) <= 255
  }

  predicate IsDotted(octets: seq<string>) {
    |octets| == 4 && forall k :: 0 <= k < 4 ==> IsOctet(octets[k])
  }

  /** The groups one part between colons stands for. */
  function GroupsOf(part: string): seq<string> {
    if IsHexGroup(part) then [Print(16, Value(16, part))]
    else
      var octets := Split(part, '.');
      if IsDotted(octets) then
        [Print(16, Value(10, octets[0]) * 256 + Value(10, octets[1])),
            Print(16, Value(10, octets[2]) * 256 + Value(10, octets[3]))]
      else [part]
  }

  function AllGroupsOf(parts: seq<string>): seq<string> {
    if parts == [] then [] else GroupsOf(parts[0]) + AllGroupsOf(parts[1..])
  }

  function Side(part: string): seq<string> {
    if part == "" then [] else AllGroupsOf(Split(part, ':'))
  }

  /** Where the first `::` is. */
  function Gap(s: string): (r: Option<nat>)
    ensures r.Some? ==> r.value + 2 <= |s|
  {
    if |s| < 2 then None
    else if s[0] == ':' && s[1] == ':' then Some(0)
    else
      var r := Gap(s[1..]);
      if r.None? then None else Some(r.value + 1)
  }

  function Zeros(n: nat): seq<string> {
    seq(n, _ => "0")
  }

  function Groups(ip: string): seq<string> {
    var gap := Gap(ip);
    if gap.None? then Side(ip)
    else
      var left := Side(ip[..gap.value]);
      var rest := ip[gap.value + 2..];
      var right := Side(if Gap(rest).None? then rest else rest[..Gap(rest).value]);
      left + Zeros(if |left| + |right| < 8 then 8 - |left| - |right| else 0) + right
  }

  function Key(ip: Option<string>): string {
    if ip.None? || ip.value == "" then "local"
    else if ':' !in ip.value then ip.value
    else
      var groups := Groups(Lower(ip.value));
      if |groups| == 8 && Join(groups[..6],
          ':') == "0:0:0:0:0:ffff" && IsHexGroup(groups[6]) && IsHexGroup(groups[7]) then
        var high, low := Value(16, groups[6]), Value(16, groups[7]);
        DottedText([high / 256, high % 256, low / 256, low % 256])
      else Join(if |groups| < 4 then groups else groups[..4], ':') + "::/64"
  }

  /** Decimal octets and the dots between them. */
  function DottedText(octets: seq<nat>): string {
    Join(Printed(10, octets), '.')
  }

  function Printed(base: nat, values: seq<nat>): (r: seq<string>)
    requires base == 10 || base == 16
    ensures |r| == |values|
  {
    seq(|values|, i requires 0 <= i < |values| => Print(base, values[i]))
  }

  // --- Addresses and their spellings, as section 2.2 of RFC 4291 has them ----------------------------

  predicate IsAddress(groups: seq<nat>) {
    |groups| == 8 && forall k :: 0 <= k < 8 ==> groups[k] < 0x1_0000
  }

  datatype Piece = Hex(digits: string) | Dotted(octets: seq<string>)

  /** Eight groups, or fewer with a `::` for the zeros between. */
  datatype Spelling = Whole(pieces: seq<Piece>) | Gapped(left: seq<Piece>, right: seq<Piece>)

  /** A digit of either case. */
  predicate Spells(c: char) {
    '0' <= c <= '9' || 'a' <= c <= 'f' || 'A' <= c <= 'F'
  }

  function Worth(c: char): (n: nat)
    requires Spells(c)
    ensures n < 16
  {
    if '0' <= c <= '9' then c as int - 48 else if 'a' <= c <= 'f' then c as int - 87 else c as int - 55
  }

  predicate AllSpell(s: string) {
    forall k :: 0 <= k < |s| ==> Spells(s[k])
  }

  function Number(base: nat, s: string): nat
    requires AllSpell(s)
  {
    if s == "" then 0 else Number(base, s[..|s| - 1]) * base + Worth(s[|s| - 1])
  }

  /** A decimal number up to 255, in up to three digits. */
  predicate Octet(s: string) {
    1 <= |s| <= 3 && (forall k :: 0 <= k < |s| ==> '0' <= s[k] <= '9') && Number(10, s) < 256
  }

  predicate GoodPiece(p: Piece) {
    match p
    case Hex(digits) => 1 <= |digits| <= 4 && AllSpell(digits)
    case Dotted(octets) => |octets| == 4 && forall k :: 0 <= k < 4 ==> Octet(octets[k])
  }

  /** Hex groups, the last perhaps a dotted pair of them. */
  predicate GoodPieces(ps: seq<Piece>, dottedLast: bool) {
    forall k :: 0 <= k < |ps| ==> GoodPiece(ps[k]) && (ps[k].Dotted? ==> dottedLast && k == |ps| - 1)
  }

  predicate GoodSpelling(s: Spelling) {
    match s
    case Whole(pieces) => GoodPieces(pieces, true) && |ValuesOf(pieces)| == 8
    case Gapped(left, right) =>
      && GoodPieces(left, false) && GoodPieces(right, true)
      && |ValuesOf(left)| + |ValuesOf(right)| < 8
  }

  function PieceValues(p: Piece): (r: seq<nat>)
    requires GoodPiece(p)
    ensures forall k :: 0 <= k < |r| ==> r[k] < 0x1_0000
  {
    match p
    case Hex(digits) => NumberBound(digits); [Number(16, digits)]
    case Dotted(octets) => [Number(10, octets[0]) * 256 + Number(10, octets[1]),
        Number(10, octets[2]) * 256 + Number(10, octets[3])]
  }

  function ValuesOf(ps: seq<Piece>): (r: seq<nat>)
    requires forall k :: 0 <= k < |ps| ==> GoodPiece(ps[k])
    ensures forall k :: 0 <= k < |r| ==> r[k] < 0x1_0000
  {
    if ps == [] then [] else PieceValues(ps[0]) + ValuesOf(ps[1..])
  }

  function PieceText(p: Piece): string {
    match p
    case Hex(digits) => digits
    case Dotted(octets) => Join(octets, '.')
  }

  function Texts(ps: seq<Piece>): seq<string> {
    if ps == [] then [] else [PieceText(ps[0])] + Texts(ps[1..])
  }

  function Text(s: Spelling): string {
    match s
    case Whole(pieces) => Join(Texts(pieces), ':')
    case Gapped(left, right) => Join(Texts(left), ':') + ("::" + Join(Texts(right), ':'))
  }

  function AddressOf(s: Spelling): (r: seq<nat>)
    requires GoodSpelling(s)
    ensures IsAddress(r)
  {
    match s
    case Whole(pieces) => ValuesOf(pieces)
    case Gapped(left, right) => ValuesOf(left) + seq(8 - |ValuesOf(left)| - |ValuesOf(right)|, _ => 0) + ValuesOf(right)
  }

  /** An IPv4-mapped address. */
  predicate Mapped(address: seq<nat>)
    requires IsAddress(address)
  {
    address[..6] == [0, 0, 0, 0, 0, 0xffff]
  }

  function OctetsOf(address: seq<nat>): seq<nat>
    requires IsAddress(address)
  {
    [address[6] / 256, address[6] % 256, address[7] / 256, address[7] % 256]
  }

  /** The key of an address, however it is spelled. */
  function AddressKey(address: seq<nat>): string
    requires IsAddress(address)
  {
    if Mapped(address) then DottedText(OctetsOf(address)) else Join(Printed(16, address[..4]), ':') + "::/64"
  }

  lemma {:induction false} NumberRead(base: nat, s: string)
    requires AllSpell(s)
    ensures AllHex(Lower(s)) && Value(base, Lower(s)) == Number(base, s)
  {
    if s != "" {
      NumberRead(base, s[..|s| - 1]);
      assert Lower(s)[..|s| - 1] == Lower(s[..|s| - 1]);
    }
  }

  lemma NumberBound(s: string)
    requires |s| <= 4 && AllSpell(s)
    ensures Number(16, s) < 0x1_0000
  {
    NumberRead(16, s);
    ValueBound(Lower(s), Power(|s|));
    assert Power(0) == 1 && Power(1) == 16 && Power(2) == 256 && Power(3) == 4096 && Power(4) == 65536;
  }

  lemma OctetRead(s: string)
    requires Octet(s)
    ensures IsOctet(s) && Value(10, s) == Number(10, s)
  {
    LowerDigits(s);
    NumberRead(10, s);
  }

  /** A dotted piece, as it is read. */
  lemma DottedRead(octets: seq<string>)
    requires GoodPiece(Dotted(octets))
    ensures IsDotted(octets)
    ensures PieceValues(Dotted(octets)) == [Value(10, octets[0]) * 256 + Value(10, octets[1]),
                                            Value(10, octets[2]) * 256 + Value(10, octets[3])]
  {
    forall k | 0 <= k < 4 ensures IsOctet(octets[k]) && Value(10, octets[k]) == Number(10, octets[k]) {
      OctetRead(octets[k]);
    }
  }

  // --- Digits --------------------------------------------------------------------------------------

  lemma {:induction false} ValueBound(s: string, bound: nat)
    requires AllHex(s) && bound == Power(|s|)
    ensures Value(16, s) < bound
  {
    if s != "" { ValueBound(s[..|s| - 1], Power(|s| - 1)); }
  }

  function Power(n: nat): (r: nat)
    ensures r >= 1
  {
    if n == 0 then 1 else 16 * Power(n - 1)
  }

  lemma HexBound(s: string)
    requires IsHexGroup(s)
    ensures Value(16, s) < 0x1_0000
  {
    ValueBound(s, Power(|s|));
    assert Power(1) == 16 && Power(2) == 256 && Power(3) == 4096 && Power(4) == 65536;
  }

  lemma {:induction false} PrintShort(n: nat, digits: nat)
    requires n < Power(digits) && digits > 0
    ensures |Print(16, n)| <= digits
    decreases digits
  {
    if n >= 16 { PrintShort(n / 16, digits - 1); }
  }

  lemma PrintIsGroup(n: nat)
    requires n < 0x1_0000
    ensures IsHexGroup(Print(16, n)) && Value(16, Print(16, n)) == n
  {
    assert Power(1) == 16 && Power(2) == 256 && Power(3) == 4096 && Power(4) == 65536;
    PrintShort(n, 4);
    PrintValue(16, n);
  }

  // --- The key's parts ------------------------------------------------------------------------------

  lemma PrintedWithout(base: nat, values: seq<nat>, separator: char)
    requires (base == 10 || base == 16) && !IsHexDigit(separator)
    ensures AllWithout(Printed(base, values), separator)
  {
  }

  lemma PrintedSame(base: nat, a: seq<nat>, b: seq<nat>)
    requires (base == 10 || base == 16) && Printed(base, a) == Printed(base, b)
    ensures a == b
  {
    forall k | 0 <= k < |a| ensures a[k] == b[k] {
      PrintValue(base, a[k]);
      PrintValue(base, b[k]);
      assert Printed(base, a)[k] == Printed(base, b)[k];
    }
  }

  // --- A spelling read -----------------------------------------------------------------------------

  function LowerPiece(p: Piece): Piece {
    if p.Hex? then Hex(Lower(p.digits)) else p
  }

  function LowerPieces(ps: seq<Piece>): (r: seq<Piece>)
    ensures |r| == |ps|
  {
    if ps == [] then [] else [LowerPiece(ps[0])] + LowerPieces(ps[1..])
  }

  lemma LowerParts(a: string, b: string)
    ensures Lower(a + b) == Lower(a) + Lower(b)
  {
  }

  lemma LowerDigits(s: string)
    requires AllDigits(s)
    ensures Lower(s) == s
  {
  }

  /** Octets and dots have no case. */
  lemma LowerDotted(octets: seq<string>)
    requires IsDotted(octets)
    ensures Lower(Join(octets, '.')) == Join(octets, '.')
  {
    var a, b, c := Join(octets[1..], '.'), Join(octets[1..][1..], '.'), Join(octets[1..][1..][1..], '.');
    LowerDigits(octets[3]);
    assert c == octets[3];
    LowerJoined(octets[2], c, '.');
    LowerJoined(octets[1], b, '.');
    LowerJoined(octets[0], a, '.');
    LowerDigits(octets[2]);
    LowerDigits(octets[1]);
    LowerDigits(octets[0]);
  }

  lemma LowerJoined(part: string, rest: string, separator: char)
    requires LowerChar(separator) == separator
    ensures Lower(part + ([separator] + rest)) == Lower(part) + ([separator] + Lower(rest))
  {
  }

  lemma LowerPieceText(p: Piece)
    requires GoodPiece(p)
    ensures Lower(PieceText(p)) == PieceText(LowerPiece(p))
    ensures GoodPiece(LowerPiece(p)) && PieceValues(LowerPiece(p)) == PieceValues(p)
    ensures p.Hex? ==> IsHexGroup(LowerPiece(p).digits)
  {
    if p.Hex? {
      NumberRead(16, p.digits);
      assert Lower(Lower(p.digits)) == Lower(p.digits);
      HexSpells(Lower(p.digits));
      NumberRead(16, Lower(p.digits));
    } else {
      DottedRead(p.octets);
      LowerDotted(p.octets);
    }
  }

  lemma HexSpells(s: string)
    requires AllHex(s)
    ensures AllSpell(s)
  {
  }

  lemma {:induction false} LowerTexts(ps: seq<Piece>)
    requires forall k :: 0 <= k < |ps| ==> GoodPiece(ps[k])
    ensures Lower(Join(Texts(ps), ':')) == Join(Texts(LowerPieces(ps)), ':')
  {
    if ps != [] {
      LowerPieceText(ps[0]);
      LowerTexts(ps[1..]);
      var first := PieceText(ps[0]);
      if |ps| > 1 {
        LowerJoined(first, Join(Texts(ps[1..]), ':'), ':');
        assert Texts(ps)[1..] == Texts(ps[1..]) && Texts(LowerPieces(ps))[1..] == Texts(LowerPieces(ps[1..]));
        assert |Texts(ps[1..])| > 0 && |Texts(LowerPieces(ps[1..]))| > 0;
      }
    }
  }

  /** One part's groups, printed. */
  lemma PieceGroups(p: Piece)
    requires GoodPiece(p) && (p.Hex? ==> IsHexGroup(p.digits) && Lower(p.digits) == p.digits)
    ensures GroupsOf(PieceText(p)) == Printed(16, PieceValues(p)) && PieceText(p) != "" && Without(PieceText(p), ':')
  {
    if p.Hex? {
      NumberRead(16, p.digits);
    } else {
      var octets := p.octets;
      DottedRead(octets);
      assert AllWithout(octets, '.');
      SplitJoin(octets, '.');
      DottedParts(octets);
      var text := PieceText(p);
      assert text[|octets[0]|] == '.' && !IsHexDigit('.');
    }
  }

  lemma DottedParts(octets: seq<string>)
    requires IsDotted(octets)
    ensures var text := Join(octets, '.');
            |text| > |octets[0]| && text[|octets[0]|] == '.' && Without(text, ':')
  {
    var rest := Join(octets[1..], '.');
    assert octets[1..][1..][1..] == [octets[3]];
    assert octets[1..][1..] == [octets[2], octets[3]];
    assert Join(octets[1..][1..], '.') == octets[2] + (['.'] + octets[3]);
    assert octets[1..] == [octets[1], octets[2], octets[3]];
    assert rest == octets[1] + (['.'] + (octets[2] + (['.'] + octets[3])));
    assert Join(octets, '.') == octets[0] + (['.'] + rest);
  }

  predicate LowerGood(ps: seq<Piece>) {
    forall k :: 0 <= k < |ps| ==>
        GoodPiece(ps[k]) && (ps[k].Hex? ==> IsHexGroup(ps[k].digits) && Lower(ps[k].digits) == ps[k].digits)
  }

  lemma {:induction false} LowerIsGood(ps: seq<Piece>)
    requires forall k :: 0 <= k < |ps| ==> GoodPiece(ps[k])
    ensures LowerGood(LowerPieces(ps)) && ValuesOf(LowerPieces(ps)) == ValuesOf(ps)
  {
    if ps != [] {
      LowerPieceText(ps[0]);
      assert ps[0].Hex? ==> Lower(Lower(ps[0].digits)) == Lower(ps[0].digits);
      LowerIsGood(ps[1..]);
      var lower := LowerPieces(ps);
      assert lower[1..] == LowerPieces(ps[1..]) && lower[0] == LowerPiece(ps[0]);
    }
  }

  lemma PrintedParts(base: nat, a: seq<nat>, b: seq<nat>)
    requires base == 10 || base == 16
    ensures Printed(base, a + b) == Printed(base, a) + Printed(base, b)
  {
    hide Print;
  }

  lemma {:induction false} TextsGroups(ps: seq<Piece>)
    requires LowerGood(ps)
    ensures AllGroupsOf(Texts(ps)) == Printed(16, ValuesOf(ps))
    decreases |ps|
  {
    if ps != [] {
      hide GroupsOf, PieceValues, PieceText, Print, Printed;
      TailGood(ps);
      PieceGroups(ps[0]);
      TextsGroups(ps[1..]);
      assert Texts(ps)[1..] == Texts(ps[1..]) && Texts(ps)[0] == PieceText(ps[0]);
      PrintedParts(16, PieceValues(ps[0]), ValuesOf(ps[1..]));
    }
  }

  lemma {:induction false} TextsWithout(ps: seq<Piece>)
    requires LowerGood(ps)
    ensures |Texts(ps)| == |ps| && AllWithout(Texts(ps), ':')
  {
    if ps != [] {
      hide PieceText, Without;
      TailGood(ps);
      PieceGroups(ps[0]);
      TextsWithout(ps[1..]);
      assert Texts(ps)[1..] == Texts(ps[1..]);
    }
  }

  /** Parts between colons, read. */
  lemma SideOf(ps: seq<Piece>)
    requires LowerGood(ps)
    ensures Side(Join(Texts(ps), ':')) == Printed(16, ValuesOf(ps))
  {
    TextsGroups(ps);
    TextsWithout(ps);
    if ps != [] {
      PieceGroups(ps[0]);
      assert Texts(ps)[0] == PieceText(ps[0]);
      SplitJoin(Texts(ps), ':');
    }
  }

  /** No `::` in it, nor a colon at either end. */
  predicate Solid(s: string) {
    Gap(s).None? && (s != "" ==> s[0] != ':' && s[|s| - 1] != ':')
  }

  lemma {:induction false} PartSolid(part: string, rest: string)
    requires Without(part, ':') && part != "" && Solid(rest) && rest != ""
    ensures Solid(part + ([':'] + rest))
  {
    var s := part + ([':'] + rest);
    if |part| == 1 {
      assert s[1..] == [':'] + rest && s[1..][1..] == rest;
    } else {
      assert s[1..] == part[1..] + ([':'] + rest);
      PartSolid(part[1..], rest);
    }
  }

  lemma {:induction false} WithoutSolid(part: string)
    requires Without(part, ':')
    ensures Solid(part)
  {
    if part != "" { WithoutSolid(part[1..]); }
  }

  lemma {:induction false} TextsSolid(ps: seq<Piece>)
    requires LowerGood(ps)
    ensures Solid(Join(Texts(ps), ':')) && (ps != [] ==> Join(Texts(ps), ':') != "")
  {
    if ps != [] {
      hide Solid, LowerGood, GroupsOf;
      assert LowerGood(ps[1..]) && GoodPiece(ps[0])
          && (ps[0].Hex? ==> IsHexGroup(ps[0].digits) && Lower(ps[0].digits) == ps[0].digits) by {
        TailGood(ps);
      }
      PieceGroups(ps[0]);
      TextsSolid(ps[1..]);
      assert Texts(ps)[1..] == Texts(ps[1..]);
      if |ps| == 1 {
        WithoutSolid(PieceText(ps[0]));
      } else {
        assert |Texts(ps[1..])| > 0;
        PartSolid(PieceText(ps[0]), Join(Texts(ps[1..]), ':'));
      }
    } else {
      assert Gap("").None?;
    }
  }

  lemma TailGood(ps: seq<Piece>)
    requires LowerGood(ps) && ps != []
    ensures LowerGood(ps[1..]) && GoodPiece(ps[0])
            && (ps[0].Hex? ==> IsHexGroup(ps[0].digits) && Lower(ps[0].digits) == ps[0].digits)
  {
  }

  lemma {:induction false} GapAfter(left: string, rest: string)
    requires Solid(left)
    ensures Gap(left + ("::" + rest)) == Some(|left|)
  {
    var s := left + ("::" + rest);
    if left != "" {
      assert s[1..] == left[1..] + ("::" + rest);
      if |left| == 1 {
        assert left[1..] == "" && Solid("");
        GapAfter("", rest);
        assert s[0] != ':';
      } else {
        assert s[0] == left[0] && s[1] == left[1];
        LaterGap(left[1..], rest);
      }
    }
  }

  /** As `GapAfter`, for a rest of a solid text, which may start with its one colon. */
  lemma {:induction false} LaterGap(left: string, rest: string)
    requires Gap(left).None? && left != "" && left[|left| - 1] != ':'
    ensures Gap(left + ("::" + rest)) == Some(|left|)
  {
    var s := left + ("::" + rest);
    assert s[1..] == left[1..] + ("::" + rest);
    if |left| == 1 {
      assert s[1..] == "::" + rest;
    } else {
      assert s[0] == left[0] && s[1] == left[1];
      LaterGap(left[1..], rest);
    }
  }

  lemma PrintedZero()
    ensures Print(16, 0) == "0"
  {
  }

  /** The groups of a spelling are its address's, printed. */
  lemma SpellingGroups(s: Spelling)
    requires GoodSpelling(s)
    ensures Groups(Lower(Text(s))) == Printed(16, AddressOf(s))
  {
    match s
    case Whole(pieces) =>
      var lower := LowerPieces(pieces);
      LowerTexts(pieces);
      LowerIsGood(pieces);
      TextsSolid(lower);
      SideOf(lower);
    case Gapped(left, right) => GappedGroups(left, right);
  }

  lemma GappedGroups(left: seq<Piece>, right: seq<Piece>)
    requires GoodSpelling(Gapped(left, right))
    ensures Groups(Lower(Text(Gapped(left, right)))) == Printed(16, AddressOf(Gapped(left, right)))
  {
    hide LowerGood, Side, Solid, ValuesOf, Texts, Join, Gap;
    var a, b := Join(Texts(LowerPieces(left)), ':'), Join(Texts(LowerPieces(right)), ':');
    LowerTexts(left);
    LowerTexts(right);
    LowerIsGood(left);
    LowerIsGood(right);
    TextsSolid(LowerPieces(left));
    TextsSolid(LowerPieces(right));
    SideOf(LowerPieces(left));
    SideOf(LowerPieces(right));
    LowerParts(Join(Texts(left), ':'), "::" + Join(Texts(right), ':'));
    LowerParts("::", Join(Texts(right), ':'));
    assert Lower("::") == "::";
    var text := a + ("::" + b);
    assert Lower(Text(Gapped(left, right))) == text;
    GapAfter(a, b);
    assert text[..|a|] == a && text[|a| + 2..] == b;
    assert Gap(b).None? by { SolidGap(b); }
    var zeros := 8 - |ValuesOf(left)| - |ValuesOf(right)|;
    ZerosPrinted(ValuesOf(left), zeros, ValuesOf(right));
  }

  lemma SolidGap(s: string)
    requires Solid(s)
    ensures Gap(s).None?
  {
  }

  lemma ZerosPrinted(left: seq<nat>, zeros: nat, right: seq<nat>)
    ensures Printed(16, left) + Zeros(zeros) + Printed(16, right) == Printed(16, left + seq(zeros, _ => 0) + right)
  {
    PrintedZero();
  }

  /** The prefix of a mapped address, as compared. */
  lemma MappedPrefix()
    ensures Join(Printed(16, [0, 0, 0, 0, 0, 0xffff]), ':') == "0:0:0:0:0:ffff"
  {
    PrintedZero();
    assert Print(16, 0xf) == "f";
    assert Print(16, 0xff) == "ff";
    assert Print(16, 0xfff) == "fff";
    assert Print(16, 0xffff) == "ffff";
    var parts := Printed(16, [0, 0, 0, 0, 0, 0xffff]);
    assert parts == ["0", "0", "0", "0", "0", "ffff"];
    assert parts[1..] == ["0", "0", "0", "0", "ffff"];
    assert parts[1..][1..] == ["0", "0", "0", "ffff"];
    assert parts[1..][1..][1..] == ["0", "0", "ffff"];
    assert parts[1..][1..][1..][1..] == ["0", "ffff"];
    assert parts[1..][1..][1..][1..][1..] == ["ffff"];
  }

  /** What the key makes of an address's groups. */
  lemma KeyOfGroups(address: seq<nat>, ip: string)
    requires IsAddress(address) && ip != "" && ':' in ip && Groups(Lower(ip)) == Printed(16, address)
    ensures Key(Some(ip)) == AddressKey(address)
  {
    hide Groups, Lower, Join, Print, Value;
    var groups := Printed(16, address);
    PrintIsGroup(address[6]);
    PrintIsGroup(address[7]);
    MappedPrefix();
    var prefix := [0, 0, 0, 0, 0, 0xffff];
    assert groups[..6] == Printed(16, address[..6]) && groups[..4] == Printed(16, address[..4]);
    PrintedWithout(16, address[..6], ':');
    PrintedWithout(16, prefix, ':');
    if Join(groups[..6], ':') == Join(Printed(16, prefix), ':') {
      JoinSame(groups[..6], Printed(16, prefix), ':');
      PrintedSame(16, address[..6], prefix);
    }
  }

  /** Every spelling of an address has the address's key. */
  lemma SpellingKey(s: Spelling)
    requires GoodSpelling(s)
    ensures Key(Some(Text(s))) == AddressKey(AddressOf(s))
  {
    SpellingGroups(s);
    assert ':' in Text(s) by { HasColon(s); }
    KeyOfGroups(AddressOf(s), Text(s));
  }

  lemma HasColon(s: Spelling)
    requires GoodSpelling(s)
    ensures ':' in Text(s)
  {
    match s
    case Whole(pieces) =>
      assert |pieces| >= 2 by {
        if pieces != [] {
          assert |ValuesOf(pieces)| == |PieceValues(pieces[0])| + |ValuesOf(pieces[1..])|;
        }
      }
      assert Texts(pieces)[1..] == Texts(pieces[1..]) && |Texts(pieces[1..])| > 0;
      var first, rest := PieceText(pieces[0]), Join(Texts(pieces)[1..], ':');
      assert Text(s) == first + ([':'] + rest);
      assert (first + ([':'] + rest))[|first|] == ':';
    case Gapped(left, right) =>
      var a := Join(Texts(left), ':');
      assert Text(s)[|a|] == ':';
  }

  /** One client: the same /64 of addresses that are not mapped, or the same IPv4 address mapped. */
  predicate SameClient(a: seq<nat>, b: seq<nat>)
    requires IsAddress(a) && IsAddress(b)
  {
    Mapped(a) == Mapped(b) && if Mapped(a) then a[6..] == b[6..] else a[..4] == b[..4]
  }

  lemma {:induction false} JoinWithout(parts: seq<string>, separator: char, other: char)
    requires AllWithout(parts, other) && separator != other
    ensures Without(Join(parts, separator), other)
  {
    if |parts| > 1 { JoinWithout(parts[1..], separator, other); }
  }

  lemma SameKey(a: seq<nat>, b: seq<nat>)
    requires IsAddress(a) && IsAddress(b)
    ensures AddressKey(a) == AddressKey(b) <==> SameClient(a, b)
  {
    hide Join, Print;
    PrintedWithout(10, OctetsOf(a), '.');
    PrintedWithout(10, OctetsOf(b), '.');
    PrintedWithout(16, a[..4], ':');
    PrintedWithout(16, b[..4], ':');
    if Mapped(a) && Mapped(b) {
      SameOctets(a, b);
    } else if !Mapped(a) && !Mapped(b) {
      var x, y := Join(Printed(16, a[..4]), ':'), Join(Printed(16, b[..4]), ':');
      if x + "::/64" == y + "::/64" {
        assert x == (x + "::/64")[..|x + "::/64"| - 5] && y == (y + "::/64")[..|y + "::/64"| - 5];
        JoinSame(Printed(16, a[..4]), Printed(16, b[..4]), ':');
        PrintedSame(16, a[..4], b[..4]);
      }
    } else {
      KindsDiffer(if Mapped(a) then a else b, if Mapped(a) then b else a);
    }
  }

  lemma SameOctets(a: seq<nat>, b: seq<nat>)
    requires IsAddress(a) && IsAddress(b) && Mapped(a) && Mapped(b)
    ensures AddressKey(a) == AddressKey(b) <==> a[6..] == b[6..]
  {
    hide Join, Print;
    PrintedWithout(10, OctetsOf(a), '.');
    PrintedWithout(10, OctetsOf(b), '.');
    if AddressKey(a) == AddressKey(b) {
      JoinSame(Printed(10, OctetsOf(a)), Printed(10, OctetsOf(b)), '.');
      PrintedSame(10, OctetsOf(a), OctetsOf(b));
      var x, y := OctetsOf(a), OctetsOf(b);
      assert x[0] == y[0] && x[1] == y[1] && x[2] == y[2] && x[3] == y[3];
    }
    if a[6..] == b[6..] {
      assert a[6..][0] == b[6..][0] && a[6..][1] == b[6..][1];
    }
  }

  lemma KindsDiffer(mapped: seq<nat>, other: seq<nat>)
    requires IsAddress(mapped) && IsAddress(other) && Mapped(mapped) && !Mapped(other)
    ensures AddressKey(mapped) != AddressKey(other)
  {
    hide Join, Print;
    PrintedWithout(10, OctetsOf(mapped), ':');
    JoinWithout(Printed(10, OctetsOf(mapped)), '.', ':');
    var key := AddressKey(other);
    assert key[|key| - 5] == ':';
  }

  /** Two spellings share a key exactly when they are of one client. */
  lemma KeysShared(a: Spelling, b: Spelling)
    requires GoodSpelling(a) && GoodSpelling(b)
    ensures Key(Some(Text(a))) == Key(Some(Text(b))) <==> SameClient(AddressOf(a), AddressOf(b))
  {
    SpellingKey(a);
    SpellingKey(b);
    SameKey(AddressOf(a), AddressOf(b));
  }

  /** A mapped address has the key its IPv4 address has. */
  lemma MappedKey(s: Spelling)
    requires GoodSpelling(s) && Mapped(AddressOf(s))
    ensures Key(Some(Text(s))) == Key(Some(DottedText(OctetsOf(AddressOf(s))))) == DottedText(OctetsOf(AddressOf(s)))
  {
    SpellingKey(s);
    hide Join, Print;
    var octets := OctetsOf(AddressOf(s));
    PrintedWithout(10, octets, ':');
    JoinWithout(Printed(10, octets), '.', ':');
  }

  /** No address: one key for them all. */
  lemma NoAddress()
    ensures Key(None) == "local" && Key(Some("")) == "local"
  {
  }

  lemma PrintMore(base: nat, n: nat, b: nat)
    requires (base == 10 || base == 16) && n > 0 && b < base
    ensures Print(base, n * base + b) == Print(base, n) + [Digit(b)]
  {
    assert (n * base + b) / base == n && (n * base + b) % base == b;
  }

  lemma HexWritten()
    ensures Print(16, 0x2001) == "2001" && Print(16, 0xdb8) == "db8" && Print(16, 1) == "1" && Print(16, 2) == "2"
  {
    assert Print(16, 1) == "1" && Print(16, 2) == "2" && Print(16, 0xd) == "d";
    hide Print;
    PrintMore(16, 2, 0);
    PrintMore(16, 0x20, 0);
    PrintMore(16, 0x200, 1);
    PrintMore(16, 0xd, 0xb);
    PrintMore(16, 0xdb, 8);
    assert [Digit(0xb)] == "b" && [Digit(8)] == "8" && [Digit(0)] == "0" && [Digit(1)] == "1";
  }

  lemma DecimalWritten()
    ensures Print(10, 203) == "203" && Print(10, 0) == "0" && Print(10, 113) == "113" && Print(10, 9) == "9"
  {
    assert Print(10, 0) == "0" && Print(10, 9) == "9" && Print(10, 2) == "2" && Print(10, 1) == "1";
    hide Print;
    PrintMore(10, 2, 0);
    PrintMore(10, 20, 3);
    PrintMore(10, 1, 1);
    PrintMore(10, 11, 3);
    assert [Digit(0)] == "0" && [Digit(1)] == "1" && [Digit(3)] == "3";
  }

  lemma FourJoined(a: string, b: string, c: string, d: string, separator: char)
    ensures Join([a, b, c, d], separator) == a + ([separator] + (b + ([separator] + (c + ([separator] + d)))))
  {
    var parts := [a, b, c, d];
    assert parts[1..] == [b, c, d] && [b, c, d][1..] == [c, d] && [c, d][1..] == [d];
    assert Join([d], separator) == d;
    assert Join([c, d], separator) == c + ([separator] + d);
    assert Join([b, c, d], separator) == b + ([separator] + (c + ([separator] + d)));
  }

  lemma PrefixJoined()
    ensures Join(["2001", "db8", "1", "2"], ':') == "2001:db8:1:2"
  {
    FourJoined("2001", "db8", "1", "2", ':');
  }

  /** 2001:db8:1:2::6, as its key is written. */
  lemma PrefixWritten()
    ensures AddressKey([0x2001, 0xdb8, 1, 2, 0, 0, 0, 6]) == "2001:db8:1:2::/64"
  {
    hide Print, Join, OctetsOf, DottedText;
    HexWritten();
    PrefixJoined();
    var plain := [0x2001, 0xdb8, 1, 2, 0, 0, 0, 6];
    assert !Mapped(plain) by { assert plain[..6][0] == 0x2001; }
    hide Mapped;
    assert plain[..4] == [0x2001, 0xdb8, 1, 2];
    assert Printed(16, [0x2001, 0xdb8, 1, 2]) == ["2001", "db8", "1", "2"];
    assert "2001:db8:1:2" + "::/64" == "2001:db8:1:2::/64";
  }

  /** 203.0.113.9 mapped, as its key is written. */
  lemma DottedWritten()
    ensures AddressKey([0, 0, 0, 0, 0, 0xffff, 0xcb00, 0x7109]) == "203.0.113.9"
  {
    DecimalWritten();
    hide Print, Join;
    var mapped := [0, 0, 0, 0, 0, 0xffff, 0xcb00, 0x7109];
    assert mapped[..6] == [0, 0, 0, 0, 0, 0xffff];
    assert OctetsOf(mapped) == [203, 0, 113, 9];
    assert Printed(10, OctetsOf(mapped)) == ["203", "0", "113", "9"];
    FourJoined("203", "0", "113", "9", '.');
  }
}
