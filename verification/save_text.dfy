/**
 * A text file read into an editor and saved back over itself: UTF-8 with a byte order mark kept apart,
 * and line endings counted on bytes and restored on characters.
 */
module SaveText {
  import opened Wrappers

  const BOM: char := '\U{FEFF}'
  const BOM_BYTES: seq<Byte> := [0xef, 0xbb, 0xbf]

  // --- UTF-8, as section 3 of RFC 3629 defines it ----------------------------------------------------

  function EncodedChar(c: char): (r: seq<Byte>)
    ensures 1 <= |r| <= 4
  {
    var n := c as int;
    if n < 0x80 then [n]
    else if n < 0x800 then [0xc0 + n / 64, 0x80 + n % 64]
    else if n < 0x1_0000 then [0xe0 + n / 64 / 64, 0x80 + n / 64 % 64, 0x80 + n % 64]
    else [0xf0 + n / 64 / 64 / 64, 0x80 + n / 64 / 64 % 64, 0x80 + n / 64 % 64, 0x80 + n % 64]
  }

  function Encoded(text: string): seq<Byte> {
    if text == "" then [] else EncodedChar(text[0]) + Encoded(text[1..])
  }

  predicate Continues(b: Byte) {
    0x80 <= b < 0xc0
  }

  /** How many bytes a character starting with `b` takes, or zero for none. */
  function Length(b: Byte): nat {
    if b < 0x80 then 1 else if 0xc2 <= b < 0xe0 then 2 else if 0xe0 <= b < 0xf0 then 3 else if 0xf0 <= b < 0xf5 then 4
        else 0
  }

  /** `n` and six more bits, from the continuation byte `b`. */
  function Joined(n: int, b: Byte): int {
    var low: int := b;
    n * 64 + (low - 0x80)
  }

  /** A character's number at the head of `bytes`, once its bytes are all there. */
  function HeadNumber(bytes: seq<Byte>): int
    requires bytes != [] && 1 <= Length(bytes[0]) <= |bytes|
  {
    var b: int := bytes[0];
    if b < 0x80 then b
    else if b < 0xe0 then Joined(b - 0xc0, bytes[1])
    else if b < 0xf0 then Joined(Joined(b - 0xe0, bytes[1]), bytes[2])
    else Joined(Joined(Joined(b - 0xf0, bytes[1]), bytes[2]), bytes[3])
  }

  /** The character at the head of `bytes`: the shortest spelling of a scalar value, or none. */
  function HeadChar(bytes: seq<Byte>): (r: Option<char>)
    ensures r.Some? ==> bytes != [] && 1 <= Length(bytes[0]) <= |bytes|
  {
    if bytes == [] || Length(bytes[0]) == 0 || |bytes| < Length(bytes[0]) then None
    else if !forall k :: 1 <= k < Length(bytes[0]) ==> Continues(bytes[k]) then None
    else
      var n := HeadNumber(bytes);
      if 0xd800 <= n < 0xe000 || n >= 0x11_0000 || (Length(bytes[0]) == 3 && n < 0x800) || (Length(bytes[0]) == 4 && n < 0x1_0000) then None
      else Some(n as char)
  }

  function Decoded(bytes: seq<Byte>): Option<string> {
    if bytes == [] then Some("")
    else
      var head := HeadChar(bytes);
      if head.None? then None
      else
        var rest := Decoded(bytes[Length(bytes[0])..]);
        if rest.None? then None else Some([head.value] + rest.value)
  }

  lemma SixBits(n: int, b: Byte)
    requires Continues(b)
    ensures Joined(n, b) / 64 == n && 0x80 + Joined(n, b) % 64 == b
  {
  }

  lemma HeadEncoded(c: char, rest: seq<Byte>)
    ensures HeadChar(EncodedChar(c) + rest) == Some(c) && Length(EncodedChar(c)[0]) == |EncodedChar(c)|
  {
    var n := c as int;
    var code := EncodedChar(c);
    var bytes := code + rest;
    assert forall k :: 0 <= k < |code| ==> bytes[k] == code[k];
    assert Length(code[0]) == |code|;
    assert HeadNumber(bytes) == n by {
      hide HeadChar;
      if n >= 0x1_0000 {
        assert Joined(n / 64 / 64 / 64, code[1]) == n / 64 / 64 && Joined(n / 64 / 64, code[2]) == n / 64
            && Joined(n / 64, code[3]) == n;
      } else if n >= 0x800 {
        assert Joined(n / 64 / 64, code[1]) == n / 64 && Joined(n / 64, code[2]) == n;
      }
    }
    hide HeadNumber;
    assert forall k :: 1 <= k < |code| ==> Continues(bytes[k]);
  }

  lemma {:induction false} DecodedEncoded(text: string)
    ensures Decoded(Encoded(text)) == Some(text)
  {
    if text != "" {
      HeadEncoded(text[0], Encoded(text[1..]));
      DecodedEncoded(text[1..]);
      assert Encoded(text)[0] == EncodedChar(text[0])[0];
      assert Encoded(text)[|EncodedChar(text[0])|..] == Encoded(text[1..]);
      assert [text[0]] + text[1..] == text;
    }
  }

  lemma HeadSpelled(bytes: seq<Byte>)
    requires HeadChar(bytes).Some?
    ensures EncodedChar(HeadChar(bytes).value) == bytes[..Length(bytes[0])]
  {
    var c := HeadChar(bytes).value;
    var b := bytes[0];
    assert HeadNumber(bytes) == c as int && forall k :: 1 <= k < Length(b) ==> Continues(bytes[k]);
    hide HeadChar;
    if Length(b) == 4 {
      SixBits(b - 0xf0, bytes[1]);
      SixBits(Joined(b - 0xf0, bytes[1]), bytes[2]);
      SixBits(Joined(Joined(b - 0xf0, bytes[1]), bytes[2]), bytes[3]);
    } else if Length(b) == 3 {
      SixBits(b - 0xe0, bytes[1]);
      SixBits(Joined(b - 0xe0, bytes[1]), bytes[2]);
    } else if Length(b) == 2 {
      SixBits(b - 0xc0, bytes[1]);
    }
    hide Joined;
  }

  /** UTF-8 spells each text one way. */
  lemma {:induction false} EncodedDecoded(bytes: seq<Byte>)
    requires Decoded(bytes).Some?
    ensures Encoded(Decoded(bytes).value) == bytes
  {
    if bytes != [] {
      HeadSpelled(bytes);
      EncodedDecoded(bytes[Length(bytes[0])..]);
      var text := Decoded(bytes).value;
      assert text[1..] == Decoded(bytes[Length(bytes[0])..]).value;
      assert bytes == bytes[..Length(bytes[0])] + bytes[Length(bytes[0])..];
    }
  }

  // --- Line endings ---------------------------------------------------------------------------------

  /** How many line feeds there are, and how many of them follow a carriage return. */
  datatype Endings = Endings(lines: nat, crlf: nat)

  function Plus(a: Endings, b: Endings): Endings {
    Endings(a.lines + b.lines, a.crlf + b.crlf)
  }

  function Ending(isFeed: bool, afterCr: bool): Endings {
    Endings(if isFeed then 1 else 0, if isFeed && afterCr then 1 else 0)
  }

  function ByteEndings(bytes: seq<Byte>, afterCr: bool): Endings {
    if bytes == [] then Endings(0, 0)
    else Plus(Ending(bytes[0] == 0x0a, afterCr), ByteEndings(bytes[1..], bytes[0] == 0x0d))
  }

  function CharEndings(text: string, afterCr: bool): (r: Endings)
    ensures r.crlf <= r.lines
  {
    if text == "" then Endings(0, 0)
    else Plus(Ending(text[0] == '\n', afterCr), CharEndings(text[1..], text[0] == '\r'))
  }

  lemma ByteStep(b: Byte, rest: seq<Byte>, afterCr: bool)
    ensures ByteEndings([b] + rest, afterCr) == Plus(Ending(b == 0x0a, afterCr), ByteEndings(rest, b == 0x0d))
  {
    assert ([b] + rest)[1..] == rest;
  }

  lemma CharStep(c: char, rest: string, afterCr: bool)
    ensures CharEndings([c] + rest, afterCr) == Plus(Ending(c == '\n', afterCr), CharEndings(rest, c == '\r'))
  {
    assert ([c] + rest)[1..] == rest;
  }

  lemma {:induction false} PlainBytes(bytes: seq<Byte>, rest: seq<Byte>, afterCr: bool)
    requires bytes != [] && forall k :: 0 <= k < |bytes| ==> bytes[k] >= 0x80
    ensures ByteEndings(bytes + rest, afterCr) == ByteEndings(rest, false)
    decreases |bytes|
  {
    hide ByteEndings;
    ByteStep(bytes[0], bytes[1..] + rest, afterCr);
    assert bytes + rest == [bytes[0]] + (bytes[1..] + rest);
    if |bytes| == 1 {
      assert bytes[1..] + rest == rest;
    } else {
      PlainBytes(bytes[1..], rest, false);
    }
  }

  lemma EncodedStep(c: char, rest: string)
    ensures Encoded([c] + rest) == EncodedChar(c) + Encoded(rest)
    ensures c as int < 0x80 ==> EncodedChar(c) == [c as int]
    ensures c as int >= 0x80 ==> forall k :: 0 <= k < |EncodedChar(c)| ==> EncodedChar(c)[k] >= 0x80
  {
    assert ([c] + rest)[1..] == rest;
  }

  /** Counting bytes counts characters. */
  lemma {:induction false} EndingsOfBytes(text: string, afterCr: bool)
    ensures ByteEndings(Encoded(text), afterCr) == CharEndings(text, afterCr)
    decreases |text|
  {
    if text != "" {
      hide ByteEndings, CharEndings, Encoded, EncodedChar;
      var c := text[0];
      assert text == [c] + text[1..];
      EncodedStep(c, text[1..]);
      CharStep(c, text[1..], afterCr);
      if c as int < 0x80 {
        ByteStep(c as int, Encoded(text[1..]), afterCr);
        EndingsOfBytes(text[1..], c == '\r');
      } else {
        PlainBytes(EncodedChar(c), Encoded(text[1..]), afterCr);
        EndingsOfBytes(text[1..], false);
      }
    }
  }

  function ToLf(text: string): string {
    if text == "" then ""
    else if text[0] == '\r' && |text| > 1 && text[1] == '\n' then "\n" + ToLf(text[2..])
    else [text[0]] + ToLf(text[1..])
  }

  function ToCrlf(text: string): string {
    if text == "" then ""
    else if text[0] == '\r' && |text| > 1 && text[1] == '\n' then "\r\n" + ToCrlf(text[2..])
    else if text[0] == '\n' then "\r\n" + ToCrlf(text[1..])
    else [text[0]] + ToCrlf(text[1..])
  }

  lemma ToLfStep(c: char, rest: string)
    ensures ToLf("\r\n" + rest) == "\n" + ToLf(rest)
    ensures !(c == '\r' && rest != "" && rest[0] == '\n') ==> ToLf([c] + rest) == [c] + ToLf(rest)
  {
    assert ("\r\n" + rest)[2..] == rest && ([c] + rest)[1..] == rest;
  }

  lemma ToCrlfStep(c: char, rest: string)
    ensures ToCrlf("\r\n" + rest) == "\r\n" + ToCrlf(rest)
    ensures !(c == '\r' && rest != "" && rest[0] == '\n') ==>
            ToCrlf([c] + rest) == (if c == '\n' then "\r\n" else [c]) + ToCrlf(rest)
  {
    assert ("\r\n" + rest)[2..] == rest && ([c] + rest)[1..] == rest;
  }

  lemma CrlfFirst(rest: string, afterCr: bool)
    ensures CharEndings("\r\n" + rest, afterCr) == Plus(Endings(1, 1), CharEndings(rest, false))
  {
    hide CharEndings;
    assert "\r\n" + rest == ['\r'] + (['\n'] + rest);
    CharStep('\r', ['\n'] + rest, afterCr);
    CharStep('\n', rest, true);
  }

  /** A carriage return matters only to a line feed right after it. */
  lemma AfterCr(c: char, rest: string, afterCr: bool)
    requires !(c == '\r' && rest != "" && rest[0] == '\n')
    ensures CharEndings([c] + rest, afterCr) == Plus(Ending(c == '\n', afterCr), CharEndings(rest, false))
  {
    CharStep(c, rest, afterCr);
  }

  /** Text of a CR LF pair or of one other character first. */
  predicate PairFirst(text: string) {
    |text| > 1 && text[0] == '\r' && text[1] == '\n'
  }

  lemma {:induction false} ToLfChanges(text: string)
    ensures |ToLf(text)| == |text| - CharEndings(text, false).crlf
    ensures CharEndings(text, false).crlf == 0 ==> ToLf(text) == text
    decreases |text|
  {
    if text != "" {
      hide ToLf, CharEndings;
      if PairFirst(text) {
        var rest := text[2..];
        assert text == "\r\n" + rest;
        ToLfChanges(rest);
        ToLfStep(' ', rest);
        CrlfFirst(rest, false);
      } else {
        var c, rest := text[0], text[1..];
        assert text == [c] + rest;
        ToLfChanges(rest);
        ToLfStep(c, rest);
        AfterCr(c, rest, false);
      }
    }
  }

  lemma {:induction false} ToCrlfChanges(text: string)
    ensures |ToCrlf(text)| == |text| + CharEndings(text, false).lines - CharEndings(text, false).crlf
    ensures CharEndings(text, false).crlf == CharEndings(text, false).lines ==> ToCrlf(text) == text
    decreases |text|
  {
    if text != "" {
      hide ToCrlf, CharEndings;
      if PairFirst(text) {
        var rest := text[2..];
        assert text == "\r\n" + rest;
        ToCrlfChanges(rest);
        ToCrlfStep(' ', rest);
        CrlfFirst(rest, false);
      } else {
        var c, rest := text[0], text[1..];
        assert text == [c] + rest;
        ToCrlfChanges(rest);
        ToCrlfStep(c, rest);
        AfterCr(c, rest, false);
      }
    }
  }

  /** Endings that are all CR LF. */
  function AllCrlf(endings: Endings): Endings {
    Endings(endings.lines, endings.lines)
  }

  lemma PairUniform(rest: string, afterCr: bool)
    requires CharEndings(ToCrlf(rest), false) == AllCrlf(CharEndings(rest, false))
    ensures CharEndings(ToCrlf("\r\n" + rest), afterCr) == AllCrlf(CharEndings("\r\n" + rest, afterCr))
  {
    hide ToCrlf, CharEndings;
    ToCrlfStep(' ', rest);
    CrlfFirst(rest, afterCr);
    CrlfFirst(ToCrlf(rest), afterCr);
  }

  lemma OtherUniform(c: char, rest: string, afterCr: bool)
    requires !PairFirst([c] + rest) && CharEndings(ToCrlf(rest), c == '\r') == AllCrlf(CharEndings(rest, c == '\r'))
    ensures CharEndings(ToCrlf([c] + rest), afterCr) == AllCrlf(CharEndings([c] + rest, afterCr))
  {
    hide ToCrlf, CharEndings;
    ToCrlfStep(c, rest);
    CharStep(c, rest, afterCr);
    if c == '\n' {
      CrlfFirst(ToCrlf(rest), afterCr);
    } else {
      CharStep(c, ToCrlf(rest), afterCr);
    }
  }

  /** Text made CR LF has no other line feed, and as many as before. */
  lemma {:induction false} ToCrlfUniform(text: string, afterCr: bool)
    ensures CharEndings(ToCrlf(text), afterCr) == AllCrlf(CharEndings(text, afterCr))
    decreases |text|
  {
    if text != "" {
      hide ToCrlf, CharEndings, AllCrlf;
      if PairFirst(text) {
        assert text == "\r\n" + text[2..];
        ToCrlfUniform(text[2..], false);
        PairUniform(text[2..], afterCr);
      } else {
        assert text == [text[0]] + text[1..];
        ToCrlfUniform(text[1..], text[0] == '\r');
        OtherUniform(text[0], text[1..], afterCr);
      }
    }
  }

  // --- Reading and saving ---------------------------------------------------------------------------

  predicate Marked(bytes: seq<Byte>) {
    |bytes| >= 3 && bytes[..3] == BOM_BYTES
  }

  /** The text of a file, its byte order mark dropped; none of one that is not UTF-8. */
  function ReadText(bytes: seq<Byte>): Option<string> {
    Decoded(if Marked(bytes) then bytes[3..] else bytes)
  }

  /** `text` with the line endings most of a file's lines have. */
  function Body(endings: Endings, text: string): string {
    if endings.lines == 0 then text else if endings.crlf * 2 > endings.lines then ToCrlf(text) else ToLf(text)
  }

  /** What a save of `text` over the file `current` writes. */
  function Saved(current: seq<Byte>, text: string): seq<Byte> {
    Encoded((if Marked(current) then [BOM] else "") + Body(ByteEndings(current, false), text))
  }

  lemma EndingsFrom(bytes: seq<Byte>, i: nat, afterCr: bool)
    requires i < |bytes|
    ensures ByteEndings(bytes[i..], afterCr) ==
            Plus(Ending(bytes[i] == 0x0a, afterCr), ByteEndings(bytes[i + 1..], bytes[i] == 0x0d))
  {
    assert bytes[i..][1..] == bytes[i + 1..];
  }

  lemma NoEndings()
    ensures forall afterCr :: ByteEndings([], afterCr) == Endings(0, 0)
  {
  }

  /** A file's line feeds, counted byte by byte. */
  method CountEndings(current: seq<Byte>) returns (lines: nat, crlf: nat)
    ensures Endings(lines, crlf) == ByteEndings(current, false)
  {
    hide ByteEndings;
    lines, crlf := 0, 0;
    assert current[0..] == current;
    for i := 0 to |current|
      invariant Plus(Endings(lines, crlf),
                ByteEndings(current[i..], i > 0 && current[i - 1] == 0x0d)) == ByteEndings(current, false)
    {
      EndingsFrom(current, i, i > 0 && current[i - 1] == 0x0d);
      if current[i] == 0x0a {
        lines := lines + 1;
        if i > 0 && current[i - 1] == 0x0d {
          crlf := crlf + 1;
        }
      }
    }
    assert current[|current|..] == [];
    NoEndings();
  }

  method SaveTextOver(current: seq<Byte>, text: string) returns (bytes: seq<Byte>)
    ensures bytes == Saved(current, text)
  {
    hide ByteEndings, Encoded;
    var lines, crlf := CountEndings(current);
    var body := if lines == 0 then text else if crlf * 2 > lines then ToCrlf(text) else ToLf(text);
    var bom := |current| >= 3 && current[0] == 0xef && current[1] == 0xbb && current[2] == 0xbf;
    bytes := Encoded((if bom then [BOM] else "") + body);
  }

  lemma {:induction false} EncodedParts(a: string, b: string)
    ensures Encoded(a + b) == Encoded(a) + Encoded(b)
  {
    if a == "" {
      assert a + b == b;
    } else {
      assert (a + b)[1..] == a[1..] + b;
      EncodedParts(a[1..], b);
    }
  }

  lemma EncodedBom(text: string)
    ensures Encoded([BOM] + text) == BOM_BYTES + Encoded(text)
  {
    assert ([BOM] + text)[1..] == text;
    assert EncodedChar(BOM) == BOM_BYTES;
  }

  /** A mark's bytes hold no line ending. */
  lemma MarkedEndings(bytes: seq<Byte>)
    requires Marked(bytes)
    ensures ByteEndings(bytes, false) == ByteEndings(bytes[3..], false)
  {
    assert bytes == bytes[..3] + bytes[3..];
    PlainBytes(bytes[..3], bytes[3..], false);
  }

  /** Saving back the text that was read leaves a file as it was exactly when its line endings are all alike. */
  lemma SavedBack(bytes: seq<Byte>)
    requires ReadText(bytes).Some?
    ensures var endings := ByteEndings(bytes, false);
            Saved(bytes, ReadText(bytes).value) == bytes <==> endings.crlf == 0 || endings.crlf == endings.lines
  {
    hide Decoded, Encoded, ByteEndings, CharEndings, ToLf, ToCrlf;
    var content := if Marked(bytes) then bytes[3..] else bytes;
    var text := ReadText(bytes).value;
    var endings := ByteEndings(bytes, false);
    EncodedDecoded(content);
    EndingsOfBytes(text, false);
    if Marked(bytes) {
      MarkedEndings(bytes);
      assert bytes == BOM_BYTES + content;
    }
    ToLfChanges(text);
    ToCrlfChanges(text);
    var body := Body(endings, text);
    assert body == text <==> endings.crlf == 0 || endings.crlf == endings.lines;
    EncodedBom(body);
    DecodedEncoded(body);
    DecodedEncoded(text);
    assert "" + body == body;
    if Encoded(body) == content {
      assert Decoded(Encoded(body)) == Decoded(Encoded(text));
    }
    if Marked(bytes) && BOM_BYTES + Encoded(body) == BOM_BYTES + content {
      assert (BOM_BYTES + Encoded(body))[3..] == (BOM_BYTES + content)[3..];
    }
  }

  /**
   * A saved file reads as the text it was given in the file's line endings, unless that starts a file with a
   * mark it had not.
   */
  lemma SavedReads(current: seq<Byte>, text: string)
    ensures var body := Body(ByteEndings(current, false), text);
            ReadText(Saved(current, text)) == Some(body) <==> Marked(current) || body == "" || body[0] != BOM
  {
    hide Decoded, Encoded, ByteEndings, ToLf, ToCrlf;
    var body := Body(ByteEndings(current, false), text);
    assert "" + body == body;
    DecodedEncoded(body);
    if Marked(current) {
      EncodedBom(body);
      assert (BOM_BYTES + Encoded(body))[3..] == Encoded(body);
    } else if body != "" && body[0] == BOM {
      assert body == [BOM] + body[1..];
      EncodedBom(body[1..]);
      assert (BOM_BYTES + Encoded(body[1..]))[3..] == Encoded(body[1..]);
      DecodedEncoded(body[1..]);
    } else {
      NotMarked(body);
    }
  }

  /** Only a text that starts with the mark is spelled with its bytes first. */
  lemma NotMarked(text: string)
    requires text == "" || text[0] != BOM
    ensures !Marked(Encoded(text))
  {
    if text != "" {
      var bytes := Encoded(text);
      HeadEncoded(text[0], Encoded(text[1..]));
      if Marked(bytes) {
        assert false;
      }
    }
  }

  // --- What a save writes, counted and spelled out -----------------------------------------------------

  predicate IsFeed(bytes: seq<Byte>, k: nat) {
    k < |bytes| && bytes[k] == 0x0a
  }

  /** A line feed right after a carriage return. */
  predicate IsPair(bytes: seq<Byte>, k: nat) {
    0 < k < |bytes| && bytes[k] == 0x0a && bytes[k - 1] == 0x0d
  }

  function Feeds(bytes: seq<Byte>, i: nat): set<nat> {
    set k: nat | i <= k < |bytes| && IsFeed(bytes, k)
  }

  function Pairs(bytes: seq<Byte>, i: nat): set<nat> {
    set k: nat | i <= k < |bytes| && IsPair(bytes, k)
  }

  lemma OneCounted(bytes: seq<Byte>, i: nat)
    requires i < |bytes|
    ensures |Feeds(bytes, i)| == |Feeds(bytes, i + 1)| + if IsFeed(bytes, i) then 1 else 0
    ensures |Pairs(bytes, i)| == |Pairs(bytes, i + 1)| + if IsPair(bytes, i) then 1 else 0
  {
    hide IsFeed, IsPair;
    assert Feeds(bytes, i) == (if IsFeed(bytes, i) then {i} else {}) + Feeds(bytes, i + 1);
    assert Pairs(bytes, i) == (if IsPair(bytes, i) then {i} else {}) + Pairs(bytes, i + 1);
  }

  lemma {:induction false} EndingsCounted(bytes: seq<Byte>, i: nat)
    requires i <= |bytes|
    ensures ByteEndings(bytes[i..], i > 0 && bytes[i - 1] == 0x0d) == Endings(|Feeds(bytes, i)|, |Pairs(bytes, i)|)
    decreases |bytes| - i
  {
    hide ByteEndings;
    if i == |bytes| {
      assert Feeds(bytes, i) == {} && Pairs(bytes, i) == {} && bytes[i..] == [];
      NoEndings();
    } else {
      hide Feeds, Pairs;
      EndingsFrom(bytes, i, i > 0 && bytes[i - 1] == 0x0d);
      EndingsCounted(bytes, i + 1);
      OneCounted(bytes, i);
    }
  }

  /** Every carriage return right before a line feed left out. */
  function Unpaired(text: string): string {
    if text == "" then ""
    else (if text[0] == '\r' && |text| > 1 && text[1] == '\n' then "" else [text[0]]) + Unpaired(text[1..])
  }

  /** A carriage return put before every line feed that has none. */
  function Paired(text: string, afterCr: bool): string {
    if text == "" then ""
    else (if text[0] == '\n' && !afterCr then "\r\n" else [text[0]]) + Paired(text[1..], text[0] == '\r')
  }

  lemma {:induction false} ToLfUnpairs(text: string)
    ensures ToLf(text) == Unpaired(text)
    decreases |text|
  {
    if text != "" {
      if PairFirst(text) {
        ToLfUnpairs(text[2..]);
        assert text[1..][1..] == text[2..] && text[1..][0] == '\n';
        assert Unpaired(text[1..]) == "\n" + Unpaired(text[2..]);
      } else {
        ToLfUnpairs(text[1..]);
      }
    }
  }

  lemma {:induction false} ToCrlfPairs(text: string)
    ensures ToCrlf(text) == Paired(text, false)
    ensures text == "" || text[0] != '\n' ==> ToCrlf(text) == Paired(text, true)
    decreases |text|
  {
    if text != "" {
      if PairFirst(text) {
        ToCrlfPairs(text[2..]);
        assert text[1..][1..] == text[2..] && text[1..][0] == '\n';
        assert Paired(text[1..], true) == "\n" + Paired(text[2..], false);
        assert "\r" + ("\n" + Paired(text[2..], false)) == "\r\n" + Paired(text[2..], false);
      } else {
        ToCrlfPairs(text[1..]);
      }
    }
  }

  /**
   * A save writes the byte order mark the file had, then the text in UTF-8: as it is over a file of one line, with a
   * carriage return before every line feed where more than half of the file's have one, and else with none.
   */
  lemma SavedBytes(current: seq<Byte>, text: string)
    ensures var feeds, pairs := |Feeds(current, 0)|, |Pairs(current, 0)|;
            Saved(current, text) ==
            (if |current| >= 3 && current[0] == 0xef && current[1] == 0xbb && current[2] == 0xbf then [0xef, 0xbb, 0xbf]
                else [])
            + Encoded(if feeds == 0 then text else if pairs > feeds - pairs then Paired(text, false)
                else Unpaired(text))
  {
    hide Encoded, ByteEndings, ToLf, ToCrlf;
    EndingsCounted(current, 0);
    assert current[0..] == current;
    ToLfUnpairs(text);
    ToCrlfPairs(text);
    var body := Body(ByteEndings(current, false), text);
    EncodedBom(body);
    assert "" + body == body;
  }
}
