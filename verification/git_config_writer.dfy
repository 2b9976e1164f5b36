/**
 * Config text as git writes it and people edit it, read back: the reader answers every entry that was
 * printed, and every value as it was but for those holding white space that git does not quote.
 */
module GitConfigWriter {
  import opened Wrappers
  import opened GitConfig

  /** `quote` puts a value in quotes that needs none. */
  datatype Content = Nothing | Header(name: string, sub: Option<string>)
    | Setting(key: string, value: Option<string>, quote: bool)

  datatype Line = Line(indent: string, content: Content, comment: Option<string>, crlf: bool)

  // --- What git's writer and its users put in a file ---------------------------------------------------

  /** The byte order mark. */
  const MARK: char := '\U{FEFF}'

  predicate Indents(c: char) {
    c == ' ' || c == '\t'
  }

  predicate InAlphabet(c: char) {
    'a' <= c <= 'z' || 'A' <= c <= 'Z'
  }

  /** Keys are of letters, digits and '-'. */
  predicate InKey(c: char) {
    'a' <= c <= 'z' || 'A' <= c <= 'Z' || '0' <= c <= '9' || c == '-'
  }

  /** Sections' names have '.' too. */
  predicate InName(c: char) {
    InKey(c) || c == '.'
  }

  predicate OpensComment(c: char) {
    c == '#' || c == ';'
  }

  /** The white space of ECMAScript that is no space, tab or line feed. */
  predicate OddSpace(c: char) {
    c == MARK || c in "\U{B}\U{C}\r\U{A0}\U{1680}\U{2028}\U{2029}\U{202F}\U{205F}\U{3000}"
        || '\U{2000}' <= c <= '\U{200A}'
  }

  predicate White(c: char) {
    c == ' ' || c == '\t' || c == '\n' || OddSpace(c)
  }

  /** Its capital letters made small. */
  function Lowered(s: string): string {
    if s == "" then "" else [if 'A' <= s[0] <= 'Z' then s[0] - 'A' + 'a' else s[0]] + Lowered(s[1..])
  }

  // --- Printing -------------------------------------------------------------------------------------

  /** What git's writer puts in quotes. */
  predicate MustQuote(value: string) {
    || (value != "" && (value[0] == ' ' || value[|value| - 1] == ' '))
    || exists k :: 0 <= k < |value| && value[k] in "#;\r"
  }

  predicate Quotes(content: Content)
    requires content.Setting? && content.value.Some?
  {
    content.quote || MustQuote(content.value.value)
  }

  function Escape(c: char): string {
    if c == '\n' then "\\n" else if c == '\t' then "\\t" else if c == '\\' || c == '\"' then ['\\', c] else [c]
  }

  function Escaped(value: string): string {
    if value == "" then "" else Escape(value[0]) + Escaped(value[1..])
  }

  function EscapedSub(sub: string): string {
    if sub == "" then ""
    else (if sub[0] == '\\' || sub[0] == '\"' then ['\\', sub[0]] else [sub[0]]) + EscapedSub(sub[1..])
  }

  function ValueText(content: Content): string
    requires content.Setting? && content.value.Some?
  {
    if Quotes(content) then "\"" + (Escaped(content.value.value) + "\"") else Escaped(content.value.value)
  }

  function SubText(sub: Option<string>): string {
    if sub.None? then "" else " \"" + (EscapedSub(sub.value) + "\"")
  }

  function ContentText(content: Content): string {
    match content
    case Nothing => ""
    case Header(name, sub) => "[" + (name + (SubText(sub) + "]"))
    case Setting(key, value, _) => key + if value.None? then "" else " = " + ValueText(content)
  }

  function CommentText(comment: Option<string>): string {
    if comment.None? then "" else " " + comment.value
  }

  function Body(line: Line): string {
    line.indent + (ContentText(line.content) + CommentText(line.comment))
  }

  function Printed(lines: seq<Line>): string {
    if lines == [] then "" else Body(lines[0]) + ((if lines[0].crlf then "\r\n" else "\n") + Printed(lines[1..]))
  }

  predicate AllBlank(s: string) {
    forall k :: 0 <= k < |s| ==> Indents(s[k])
  }

  predicate AllKey(s: string) {
    forall k :: 0 <= k < |s| ==> InKey(s[k])
  }

  predicate AllName(s: string) {
    forall k :: 0 <= k < |s| ==> InName(s[k])
  }

  predicate GoodHeader(name: string, sub: Option<string>) {
    name != "" && AllName(name) && (sub.Some? ==> '\n' !in sub.value)
  }

  /** What git accepts as the parts of a line. */
  predicate GoodLine(line: Line) {
    && AllBlank(line.indent)
    && (line.content.Header? ==> GoodHeader(line.content.name, line.content.sub))
    && (line.content.Setting? ==>
          && line.content.key != "" && InAlphabet(line.content.key[0]) && AllKey(line.content.key)
          && (line.content.value.None? ==> line.comment.None?))
    && (line.comment.Some? ==> GoodComment(line.comment.value, line.crlf))
  }

  /** A CR that ends a comment belongs to the line's end. */
  predicate GoodComment(comment: string, crlf: bool) {
    comment != "" && OpensComment(comment[0]) && '\n' !in comment && (crlf || comment[|comment| - 1] != '\r')
  }

  predicate GoodLines(lines: seq<Line>) {
    forall k :: 0 <= k < |lines| ==> GoodLine(lines[k])
  }

  // --- What it reads as -----------------------------------------------------------------------------

  /** What an unquoted value reads as after `read`, `spaces` of white space since. */
  function Kept(value: string, read: string, spaces: nat): (string, nat)
    decreases |value|
  {
    if value == "" then (read, spaces)
    else if value[0] == ' ' || OddSpace(value[0]) then Kept(value[1..], read, if read == "" then spaces else spaces + 1)
    else Kept(value[1..], read + Spaces(spaces) + [value[0]], 0)
  }

  function ValueRead(content: Content): string
    requires content.Setting?
  {
    if content.value.None? then "" else if Quotes(content) then content.value.value
        else Kept(content.value.value, "", 0).0
  }

  function SectionOf(name: string, sub: Option<string>): string {
    Lowered(name) + if sub.None? then "" else "." + sub.value
  }

  /**
   * The entries `lines` hold, each value as written or, with `asRead`, as it is read; none where one comes
   * before any header.
   */
  function EntriesOf(lines: seq<Line>, section: Option<string>, asRead: bool): Option<seq<Entry>> {
    if lines == [] then Some([])
    else
      match lines[0].content
      case Nothing => EntriesOf(lines[1..], section, asRead)
      case Header(name, sub) => EntriesOf(lines[1..], Some(SectionOf(name, sub)), asRead)
      case Setting(key, value, _) =>
        if section.None? then None
        else
          var v := if asRead then ValueRead(lines[0].content) else if value.None? then "" else value.value;
          var rest := EntriesOf(lines[1..], section, asRead);
          if rest.None? then None else Some([Entry(section.value, Lowered(key), v)] + rest.value)
  }

  // --- The reader's terms -------------------------------------------------------------------------------

  lemma SameChars(c: char)
    ensures Indents(c) == IsBlank(c) && InAlphabet(c) == IsLetter(c) && InKey(c) == IsKeyChar(c)
    ensures InName(c) == IsNameChar(c) && OpensComment(c) == StartsComment(c)
    ensures OddSpace(c) == IsExotic(c) && White(c) == IsSpace(c)
  {
  }

  lemma {:induction false} SameLowered(s: string)
    ensures Lowered(s) == Lower(s)
  {
    if s != "" {
      SameLowered(s[1..]);
      assert Lower(s) == [if 'A' <= s[0] <= 'Z' then s[0] - 'A' + 'a' else s[0]] + Lower(s[1..]);
    }
  }

  // --- Reading a line back --------------------------------------------------------------------------

  /** One printed character read. */
  lemma CharRead(c: char, rest: string, read: string, spaces: nat, quoted: bool)
    requires !quoted ==> c != ' ' && !OddSpace(c) && !OpensComment(c)
    ensures ReadValue(Escape(c) + rest, read, spaces, quoted) == ReadValue(rest, read + Spaces(spaces) + [c], 0, quoted)
  {
    var text := Escape(c) + rest;
    if |Escape(c)| == 2 {
      assert text[0] == '\\' && text[1] == Escape(c)[1] && text[2..] == rest;
    } else {
      assert text[0] == c && text[1..] == rest;
    }
  }

  lemma SpaceRead(c: char, rest: string, read: string, spaces: nat)
    requires c == ' ' || OddSpace(c)
    ensures ReadValue([c] + rest, read, spaces, false) == ReadValue(rest, read, if read == "" then spaces
            else spaces + 1, false)
  {
    assert ([c] + rest)[1..] == rest;
  }

  lemma QuoteRead(rest: string, read: string, spaces: nat, quoted: bool)
    ensures ReadValue("\"" + rest, read, spaces, quoted) == ReadValue(rest, read + Spaces(spaces), 0, !quoted)
  {
    assert ("\"" + rest)[1..] == rest;
  }

  lemma {:induction false} QuotedRead(value: string, read: string, rest: string)
    ensures ReadValue(Escaped(value) + rest, read, 0, true) == ReadValue(rest, read + value, 0, true)
    decreases |value|
  {
    hide ReadValue, Escape;
    if value == "" {
      assert Escaped(value) + rest == rest && read + value == read;
    } else {
      var c := value[0];
      assert Escaped(value) + rest == Escape(c) + (Escaped(value[1..]) + rest);
      CharRead(c, Escaped(value[1..]) + rest, read, 0, true);
      assert read + Spaces(0) + [c] == read + [c];
      QuotedRead(value[1..], read + [c], rest);
      assert read + [c] + value[1..] == read + value;
    }
  }

  lemma {:induction false} UnquotedRead(value: string, read: string, spaces: nat, rest: string)
    requires forall k :: 0 <= k < |value| ==> !OpensComment(value[k])
    ensures ReadValue(Escaped(value) + rest, read, spaces, false) ==
            ReadValue(rest, Kept(value, read, spaces).0, Kept(value, read, spaces).1, false)
    decreases |value|
  {
    hide ReadValue, OddSpace, IsExotic;
    if value == "" {
      assert Escaped(value) + rest == rest;
    } else {
      var c := value[0];
      var after := Escaped(value[1..]) + rest;
      assert Escaped(value) + rest == Escape(c) + after;
      if c == ' ' || OddSpace(c) {
        ExoticPlain(c);
        SpaceRead(c, after, read, spaces);
        UnquotedRead(value[1..], read, if read == "" then spaces else spaces + 1, rest);
      } else {
        CharRead(c, after, read, spaces, false);
        UnquotedRead(value[1..], read + Spaces(spaces) + [c], 0, rest);
      }
    }
  }

  lemma ExoticPlain(c: char)
    requires c == ' ' || OddSpace(c)
    ensures Escape(c) == [c] && !OpensComment(c)
  {
  }

  lemma {:induction false} PastText(text: string, rest: string)
    requires '\n' !in text
    ensures LineEnd(text + ("\n" + rest)) == "\n" + rest
    ensures PastLine(text + ("\n" + rest)) == rest
  {
    if text == "" {
      assert text + ("\n" + rest) == "\n" + rest;
    } else {
      assert (text + ("\n" + rest))[1..] == text[1..] + ("\n" + rest);
      PastText(text[1..], rest);
    }
  }

  ghost predicate EndsLine(comment: Option<string>) {
    comment.Some? ==> comment.value != "" && OpensComment(comment.value[0]) && '\n' !in comment.value
  }

  lemma CommentRead(comment: string, value: string, spaces: nat, rest: string)
    requires comment != "" && OpensComment(comment[0]) && '\n' !in comment
    ensures ReadValue(comment + ("\n" + rest), value, spaces, false) == Some(Read(value, rest))
  {
    PastText(comment, rest);
    assert (comment + ("\n" + rest))[0] == comment[0];
  }

  /** A value ends where its line does, or at the comment before that. */
  lemma TailRead(comment: Option<string>, value: string, spaces: nat, rest: string)
    requires EndsLine(comment)
    ensures ReadValue(CommentText(comment) + ("\n" + rest), value, spaces, false) == Some(Read(value, rest))
  {
    if comment.None? {
      PastText("", rest);
      assert CommentText(comment) + ("\n" + rest) == "\n" + rest;
    } else {
      hide ReadValue, OpensComment, StartsComment;
      var after := comment.value + ("\n" + rest);
      assert CommentText(comment) + ("\n" + rest) == [' '] + after;
      SpaceRead(' ', after, value, spaces);
      CommentRead(comment.value, value, if value == "" then spaces else spaces + 1, rest);
    }
  }

  lemma ValueTextRead(content: Content, comment: Option<string>, rest: string)
    requires content.Setting? && content.value.Some? && EndsLine(comment)
    ensures ReadValue(ValueText(content) + (CommentText(comment) + ("\n" + rest)), "", 0, false) ==
            Some(Read(ValueRead(content), rest))
  {
    hide ReadValue, Kept, EndsLine, Escaped, CommentText;
    var value := content.value.value;
    var tail := CommentText(comment) + ("\n" + rest);
    if Quotes(content) {
      assert ValueText(content) + tail == "\"" + (Escaped(value) + ("\"" + tail));
      QuoteRead(Escaped(value) + ("\"" + tail), "", 0, false);
      assert "" + Spaces(0) == "" && "" + value == value;
      QuotedRead(value, "", "\"" + tail);
      QuoteRead(tail, value, 0, true);
      assert value + Spaces(0) == value;
      TailRead(comment, value, 0, rest);
    } else {
      UnquotedRead(value, "", 0, tail);
      TailRead(comment, Kept(value, "", 0).0, Kept(value, "", 0).1, rest);
    }
  }

  // Values as people write them: spans in quotes and bare, any character that may be raw or escaped, lines
  // continued anywhere.

  datatype Spelt = Spelt(c: char, escaped: bool, continued: bool)

  datatype Span = Span(quoted: bool, spelt: seq<Spelt>)

  /** What stands for `c` after a backslash. */
  function Letter(c: char): Option<char> {
    if c == '\t' then Some('t') else if c == '\U{8}' then Some('b') else if c == '\n' then Some('n')
    else if c == '\\' || c == '\"' then Some(c) else None
  }

  /** A space as it stands between bare words. */
  predicate BareSpace(s: Spelt, quoted: bool) {
    !quoted && !s.escaped && s.c == ' '
  }

  predicate GoodSpelt(s: Spelt, quoted: bool) {
    if s.escaped then Letter(s.c).Some?
    else s.c !in "\n\\\"" && (quoted || s.c == ' ' || (!White(s.c) && !OpensComment(s.c)))
  }

  predicate GoodSpan(span: Span) {
    forall k :: 0 <= k < |span.spelt| ==> GoodSpelt(span.spelt[k], span.quoted)
  }

  function CharText(s: Spelt): string {
    if s.escaped then ['\\', if Letter(s.c).Some? then Letter(s.c).value else s.c] else [s.c]
  }

  function AllSpelt(ss: seq<Spelt>): string {
    if ss == [] then "" else (if ss[0].continued then "\\\n" else "") + (CharText(ss[0]) + AllSpelt(ss[1..]))
  }

  function SpanText(span: Span): string {
    if span.quoted then "\"" + (AllSpelt(span.spelt) + "\"") else AllSpelt(span.spelt)
  }

  function SpansText(spans: seq<Span>): string {
    if spans == [] then "" else SpanText(spans[0]) + SpansText(spans[1..])
  }

  function SpeltValue(ss: seq<Spelt>): string {
    seq(|ss|, k requires 0 <= k < |ss| => ss[k].c)
  }

  function SpansValue(spans: seq<Span>): string {
    if spans == [] then "" else SpeltValue(spans[0].spelt) + SpansValue(spans[1..])
  }

  /** What has been read, and the spaces since. */
  datatype Sofar = Sofar(read: string, spaces: nat)

  function Flushed(r: Sofar): Sofar {
    Sofar(r.read + Spaces(r.spaces), 0)
  }

  function AfterChar(s: Spelt, quoted: bool, r: Sofar): Sofar {
    if BareSpace(s, quoted) then Sofar(r.read, if r.read == "" then r.spaces else r.spaces + 1)
    else Sofar(Flushed(r).read + [s.c], 0)
  }

  function AfterSpelt(ss: seq<Spelt>, quoted: bool, r: Sofar): Sofar
    decreases |ss|
  {
    if ss == [] then r else AfterSpelt(ss[1..], quoted,
        AfterChar(ss[0], quoted, if ss[0].continued then Flushed(r) else r))
  }

  function AfterSpans(spans: seq<Span>, r: Sofar): Sofar
    decreases |spans|
  {
    if spans == [] then r
    else
      var span := spans[0];
      var after := AfterSpelt(span.spelt, span.quoted, if span.quoted then Flushed(r) else r);
      AfterSpans(spans[1..], if span.quoted then Flushed(after) else after)
  }

  lemma CharSpelt(s: Spelt, quoted: bool, r: Sofar, rest: string)
    requires GoodSpelt(s, quoted)
    ensures ReadValue(CharText(s) + rest, r.read, r.spaces, quoted) ==
            ReadValue(rest, AfterChar(s, quoted, r).read, AfterChar(s, quoted, r).spaces, quoted)
  {
    var text := CharText(s) + rest;
    if s.escaped {
      assert text[0] == '\\' && text[1] == Letter(s.c).value && text[2..] == rest;
      assert Decoded(text[1]) == Some(s.c);
    } else {
      assert text[0] == s.c && text[1..] == rest;
    }
  }

  lemma ContinuedRead(rest: string, r: Sofar, quoted: bool)
    ensures ReadValue("\\\n" + rest, r.read, r.spaces, quoted) == ReadValue(rest, Flushed(r).read, 0, quoted)
  {
    assert ("\\\n" + rest)[2..] == rest;
  }

  lemma {:induction false} SpeltRead(ss: seq<Spelt>, quoted: bool, r: Sofar, rest: string)
    requires forall k :: 0 <= k < |ss| ==> GoodSpelt(ss[k], quoted)
    ensures ReadValue(AllSpelt(ss) + rest, r.read, r.spaces, quoted) ==
            ReadValue(rest, AfterSpelt(ss, quoted, r).read, AfterSpelt(ss, quoted, r).spaces, quoted)
    decreases |ss|
  {
    hide ReadValue, GoodSpelt, CharText, AfterChar, Flushed;
    if ss == [] {
      assert AllSpelt(ss) + rest == rest;
    } else {
      var after := AllSpelt(ss[1..]) + rest;
      var from := if ss[0].continued then Flushed(r) else r;
      if ss[0].continued {
        assert AllSpelt(ss) + rest == "\\\n" + (CharText(ss[0]) + after);
        ContinuedRead(CharText(ss[0]) + after, r, quoted);
        FlushedSpaces(r);
      } else {
        assert AllSpelt(ss) + rest == CharText(ss[0]) + after;
      }
      CharSpelt(ss[0], quoted, from, after);
      SpeltRead(ss[1..], quoted, AfterChar(ss[0], quoted, from), rest);
    }
  }

  lemma FlushedSpaces(r: Sofar)
    ensures Flushed(r).spaces == 0
  {
  }

  lemma SpanRead(span: Span, r: Sofar, rest: string)
    requires GoodSpan(span)
    ensures var after := AfterSpelt(span.spelt, span.quoted, if span.quoted then Flushed(r) else r);
            var end := if span.quoted then Flushed(after) else after;
            ReadValue(SpanText(span) + rest, r.read, r.spaces, false) == ReadValue(rest, end.read, end.spaces, false)
  {
    hide ReadValue, AllSpelt, AfterSpelt;
    if span.quoted {
      assert SpanText(span) + rest == "\"" + (AllSpelt(span.spelt) + ("\"" + rest));
      QuoteRead(AllSpelt(span.spelt) + ("\"" + rest), r.read, r.spaces, false);
      SpeltRead(span.spelt, true, Flushed(r), "\"" + rest);
      var after := AfterSpelt(span.spelt, true, Flushed(r));
      QuoteRead(rest, after.read, after.spaces, true);
    } else {
      SpeltRead(span.spelt, false, r, rest);
    }
  }

  lemma {:induction false} SpansRead(spans: seq<Span>, r: Sofar, rest: string)
    requires forall k :: 0 <= k < |spans| ==> GoodSpan(spans[k])
    ensures ReadValue(SpansText(spans) + rest, r.read, r.spaces, false) ==
            ReadValue(rest, AfterSpans(spans, r).read, AfterSpans(spans, r).spaces, false)
    decreases |spans|
  {
    hide ReadValue, GoodSpan, SpanText, AfterSpelt, Flushed;
    if spans == [] {
      assert SpansText(spans) + rest == rest;
    } else {
      assert SpansText(spans) + rest == SpanText(spans[0]) + (SpansText(spans[1..]) + rest);
      SpanRead(spans[0], r, SpansText(spans[1..]) + rest);
      var after := AfterSpelt(spans[0].spelt, spans[0].quoted, if spans[0].quoted then Flushed(r) else r);
      SpansRead(spans[1..], if spans[0].quoted then Flushed(after) else after, rest);
    }
  }

  /** What is read, with the spaces since, is the value so far; none where nothing is read yet. */
  predicate Tells(r: Sofar, value: string) {
    r.read + Spaces(r.spaces) == value && (r.read == "" ==> value == "")
  }

  lemma CharTells(s: Spelt, quoted: bool, r: Sofar, value: string)
    requires Tells(r, value) && (value == "" ==> !BareSpace(s, quoted))
    ensures Tells(AfterChar(s, quoted, r), value + [s.c])
    ensures !BareSpace(s, quoted) ==> AfterChar(s, quoted, r).spaces == 0
  {
    assert BareSpace(s, quoted) ==> Spaces(r.spaces + 1) == Spaces(r.spaces) + [' '];
    assert (value + [s.c]) + Spaces(0) == value + [s.c];
    if BareSpace(s, quoted) {
      assert r.read + (Spaces(r.spaces) + [' ']) == value + [' '];
    }
  }

  lemma {:induction false} SpeltTells(ss: seq<Spelt>, quoted: bool, r: Sofar, value: string)
    requires Tells(r, value) && (value == "" && ss != [] ==> !BareSpace(ss[0], quoted))
    ensures Tells(AfterSpelt(ss, quoted, r), value + SpeltValue(ss))
    ensures ss != [] && !BareSpace(ss[|ss| - 1], quoted) ==> AfterSpelt(ss, quoted, r).spaces == 0
    decreases |ss|
  {
    if ss == [] {
      assert value + SpeltValue(ss) == value;
    } else {
      var from := if ss[0].continued then Flushed(r) else r;
      var next := AfterChar(ss[0], quoted, from);
      assert Tells(from, value) by { assert value + Spaces(0) == value; }
      CharTells(ss[0], quoted, from, value);
      hide AfterChar, Tells, BareSpace;
      SpeltTells(ss[1..], quoted, next, value + [ss[0].c]);
      assert value + [ss[0].c] + SpeltValue(ss[1..]) == value + SpeltValue(ss);
    }
  }

  /** No bare space starts a value, nor ends one. */
  predicate GoodSpans(spans: seq<Span>, started: bool)
    decreases |spans|
  {
    spans == [] ||
    var span := spans[0];
    && GoodSpan(span) && (!started && span.spelt != [] ==> !BareSpace(span.spelt[0], span.quoted))
    && (|spans| == 1 && !span.quoted ==> span.spelt != [] && !BareSpace(span.spelt[|span.spelt| - 1], false))
    && GoodSpans(spans[1..], started || span.spelt != [])
  }

  lemma {:induction false} SpansTell(spans: seq<Span>, r: Sofar, value: string)
    requires Tells(r, value) && GoodSpans(spans, value != "")
    ensures AfterSpans(spans, r) == if spans == [] then r else Sofar(value + SpansValue(spans), 0)
    ensures forall k :: 0 <= k < |spans| ==> GoodSpan(spans[k])
    decreases |spans|
  {
    hide AfterSpelt, SpeltValue;
    if spans != [] {
      var span := spans[0];
      var from := if span.quoted then Flushed(r) else r;
      assert Tells(from, value) by { assert value + Spaces(0) == value; }
      SpeltTells(span.spelt, span.quoted, from, value);
      var after := AfterSpelt(span.spelt, span.quoted, from);
      var next := value + SpeltValue(span.spelt);
      var end := if span.quoted then Flushed(after) else after;
      assert Tells(end, next) by { assert next + Spaces(0) == next; }
      ValueLength(span.spelt, value);
      SpansTell(spans[1..], end, next);
      assert next + SpansValue(spans[1..]) == value + SpansValue(spans);
      if |spans| == 1 {
        assert spans[1..] == [] && end.spaces == 0 && end.read + Spaces(0) == end.read;
        assert SpansValue([]) == "" && next + "" == next;
      }
    }
  }

  lemma ValueLength(ss: seq<Spelt>, value: string)
    ensures value + SpeltValue(ss) != "" <==> value != "" || ss != []
  {
  }

  /**
   * Every spelling of a value, in quotes, bare or partly each, escaped or raw, over as many lines as it
   * likes, reads as the value.
   */
  lemma EverySpelling(spans: seq<Span>, comment: Option<string>, rest: string)
    requires GoodSpans(spans, false) && EndsLine(comment)
    ensures ReadValue(SpansText(spans) + (CommentText(comment) + ("\n" + rest)), "", 0, false) ==
            Some(Read(SpansValue(spans), rest))
  {
    hide ReadValue, EndsLine, SpansText, CommentText, AfterSpans, GoodSpans, GoodSpan;
    var start := Sofar("", 0);
    assert "" + Spaces(0) == "" && "" + SpansValue(spans) == SpansValue(spans);
    SpansTell(spans, start, "");
    SpansRead(spans, start, CommentText(comment) + ("\n" + rest));
    TailRead(comment, SpansValue(spans), 0, rest);
  }

  lemma {:induction false} KeyRead(key: string, read: string, rest: string)
    requires AllKey(key) && (rest == "" || !InKey(rest[0]))
    ensures ReadKey(key + rest, read) == Read(read + key, rest)
    decreases |key|
  {
    if key == "" {
      assert key + rest == rest && read + key == read;
    } else {
      assert (key + rest)[1..] == key[1..] + rest;
      KeyRead(key[1..], read + [key[0]], rest);
      assert read + [key[0]] + key[1..] == read + key;
    }
  }

  lemma {:induction false} NameRead(name: string, read: string, rest: string)
    requires AllName(name) && (rest == "" || !InName(rest[0]))
    ensures ReadName(name + rest, read) == Read(read + name, rest)
    decreases |name|
  {
    if name == "" {
      assert name + rest == rest && read + name == read;
    } else {
      assert (name + rest)[1..] == name[1..] + rest;
      NameRead(name[1..], read + [name[0]], rest);
      assert read + [name[0]] + name[1..] == read + name;
    }
  }

  lemma SubCharRead(c: char, rest: string, read: string)
    requires c != '\n'
    ensures ReadSub((if c == '\\' || c == '\"' then ['\\', c] else [c]) + rest, read) == ReadSub(rest, read + [c])
  {
    assert ([c] + rest)[1..] == rest && (['\\', c] + rest)[2..] == rest;
  }

  lemma {:induction false} SubRead(sub: string, read: string, rest: string)
    requires '\n' !in sub
    ensures ReadSub(EscapedSub(sub) + ("\"" + rest), read) == Some(Read(read + sub, rest))
    decreases |sub|
  {
    var after := "\"" + rest;
    if sub == "" {
      assert EscapedSub(sub) + after == after && after[1..] == rest && read + sub == read;
    } else {
      var escape := if sub[0] == '\\' || sub[0] == '\"' then ['\\', sub[0]] else [sub[0]];
      var text := EscapedSub(sub) + after;
      assert text == escape + (EscapedSub(sub[1..]) + after);
      SubCharRead(sub[0], EscapedSub(sub[1..]) + after, read);
      hide ReadSub;
      SubRead(sub[1..], read + [sub[0]], rest);
      assert read + [sub[0]] + sub[1..] == read + sub;
    }
  }

  /** A header with a subsection, from how its parts read. */
  lemma SubHeader(text: string, name: string, blanks: string, quoted: string, sub: Read)
    requires ReadName(text, "") == Read(name, blanks) && blanks != "" && Indents(blanks[0])
    requires PastBlanks(blanks) == "\"" + quoted && ReadSub(quoted, "") == Some(sub)
    requires sub.rest != "" && sub.rest[0] == ']'
    ensures ReadHeader(text) == Some(Read(Lowered(name) + "." + sub.value, sub.rest[1..]))
  {
    hide ReadName, PastBlanks, ReadSub, Lowered, Lower;
    SameLowered(name);
    assert ("\"" + quoted)[1..] == quoted;
  }

  lemma PlainHeader(text: string, name: string, rest: string)
    requires ReadName(text, "") == Read(name, "]" + rest) && name != ""
    ensures ReadHeader(text) == Some(Read(Lowered(name), rest))
  {
    hide ReadName, PastBlanks, ReadSub, Lowered, Lower;
    SameLowered(name);
    assert ("]" + rest)[1..] == rest;
  }

  lemma EndsName(c: char)
    requires c in " ]"
    ensures !InName(c) && (c == ' ' ==> Indents(c)) && !Indents('\"')
  {
  }

  lemma HeaderRead(name: string, sub: Option<string>, rest: string)
    requires GoodHeader(name, sub)
    ensures ReadHeader(name + (SubText(sub) + ("]" + rest))) == Some(Read(SectionOf(name, sub), rest))
  {
    hide InName, IsNameChar, Indents, IsBlank, ReadHeader, ReadName, ReadSub, EscapedSub, Lowered, Lower, AllName,
        PastBlanks;
    EndsName(' ');
    EndsName(']');
    if sub.None? {
      var after := "]" + rest;
      assert SubText(sub) + ("]" + rest) == after && SectionOf(name, sub) == Lowered(name);
      NameRead(name, "", after);
      assert "" + name == name;
      PlainHeader(name + after, name, rest);
    } else {
      SubHeaderRead(name, sub.value, rest);
      assert SectionOf(name, sub) == Lowered(name) + "." + sub.value by {
        assert Lowered(name) + ("." + sub.value) == Lowered(name) + "." + sub.value;
      }
    }
  }

  lemma SubHeaderRead(name: string, sub: string, rest: string)
    requires name != "" && AllName(name) && '\n' !in sub
    ensures ReadHeader(name + (SubText(Some(sub)) + ("]" + rest))) == Some(Read(Lowered(name) + "." + sub, rest))
  {
    hide InName, IsNameChar, Indents, IsBlank, ReadHeader, ReadName, ReadSub, EscapedSub, Lowered, Lower, AllName,
        PastBlanks;
    EndsName(' ');
    var quoted := EscapedSub(sub) + ("\"" + ("]" + rest));
    var after := [' '] + ("\"" + quoted);
    assert SubText(Some(sub)) + ("]" + rest) == after;
    NameRead(name, "", after);
    assert "" + name == name;
    BlankSkipped(' ', "\"" + quoted);
    SubRead(sub, "", "]" + rest);
    assert "" + sub == sub && ("]" + rest)[1..] == rest;
    SubHeader(name + after, name, after, quoted, Read(sub, "]" + rest));
  }

  lemma BlankSkipped(c: char, rest: string)
    requires Indents(c) && (rest == "" || !Indents(rest[0]))
    ensures PastBlanks([c] + rest) == rest
  {
    assert ([c] + rest)[1..] == rest;
  }

  lemma SpaceSkipped(c: char, rest: string, section: Option<string>)
    requires White(c)
    ensures ReadEntries([c] + rest, section) == ReadEntries(rest, section)
  {
    assert ([c] + rest)[1..] == rest;
  }

  lemma {:induction false} IndentSkipped(indent: string, rest: string, section: Option<string>)
    requires AllBlank(indent)
    ensures ReadEntries(indent + rest, section) == ReadEntries(rest, section)
  {
    hide ReadEntries, OddSpace, IsExotic;
    if indent == "" {
      assert indent + rest == rest;
    } else {
      assert indent + rest == [indent[0]] + (indent[1..] + rest);
      SpaceSkipped(indent[0], indent[1..] + rest, section);
      IndentSkipped(indent[1..], rest, section);
    }
  }

  lemma CommentSkipped(comment: string, rest: string, section: Option<string>)
    requires comment != "" && OpensComment(comment[0]) && '\n' !in comment
    ensures ReadEntries(comment + ("\n" + rest), section) == ReadEntries(rest, section)
  {
    PastText(comment, rest);
    assert (comment + ("\n" + rest))[0] == comment[0];
  }

  /** The rest of a line whose content has been read. */
  lemma EndSkipped(comment: Option<string>, rest: string, section: Option<string>)
    requires EndsLine(comment)
    ensures ReadEntries(CommentText(comment) + ("\n" + rest), section) == ReadEntries(rest, section)
  {
    hide ReadEntries, OddSpace, IsExotic, OpensComment, StartsComment;
    if comment.None? {
      assert CommentText(comment) + ("\n" + rest) == ['\n'] + rest;
      SpaceSkipped('\n', rest, section);
    } else {
      var after := comment.value + ("\n" + rest);
      assert CommentText(comment) + ("\n" + rest) == [' '] + after;
      SpaceSkipped(' ', after, section);
      CommentSkipped(comment.value, rest, section);
    }
  }

  lemma SettingRead(content: Content, comment: Option<string>, rest: string)
    requires content.Setting? && content.value.Some? && EndsLine(comment)
    ensures ReadSetting(" = " + (ValueText(content) + (CommentText(comment) + ("\n" + rest)))) ==
            Some(Read(ValueRead(content), rest))
  {
    hide ReadValue, ValueText, ValueRead, CommentText, EndsLine;
    var value := ValueText(content) + (CommentText(comment) + ("\n" + rest));
    assert " = " + value == [' '] + ("= " + value);
    BlankSkipped(' ', "= " + value);
    assert ("= " + value)[1..] == [' '] + value;
    SpaceRead(' ', value, "", 0);
    ValueTextRead(content, comment, rest);
  }

  lemma BareRead(rest: string)
    ensures ReadSetting("\n" + rest) == Some(Read("", "\n" + rest))
  {
  }

  /** A header, and the text after it. */
  lemma HeaderEntry(name: string, sub: Option<string>, rest: string, section: Option<string>)
    requires GoodHeader(name, sub)
    ensures ReadEntries("[" + (name + (SubText(sub) + ("]" + rest))), section) ==
            ReadEntries(rest, Some(SectionOf(name, sub)))
  {
    hide ReadHeader, SubText, SectionOf, GoodHeader;
    var text := name + (SubText(sub) + ("]" + rest));
    HeaderRead(name, sub, rest);
    assert ("[" + text)[1..] == text;
  }

  lemma OpensKey(c: char)
    requires InAlphabet(c)
    ensures IsLetter(c) && !IsSpace(c) && !StartsComment(c) && c != '['
  {
  }

  /** A key and what follows it. */
  lemma KeyEntry(key: string, after: string, read: Read, section: Option<string>)
    requires key != "" && InAlphabet(key[0]) && AllKey(key) && after != "" && !InKey(after[0])
    requires ReadSetting(after) == Some(read)
    ensures ReadEntries(key + after, section) ==
            if section.None? then None
                else Then([Entry(section.value, Lowered(key), read.value)], ReadEntries(read.rest, section))
  {
    hide ReadKey, ReadSetting, Lowered, Lower, Then, AllKey, InKey, IsKeyChar;
    KeyRead(key, "", after);
    SameLowered(key);
    assert "" + key == key;
    assert (key + after)[0] == key[0];
    OpensKey(key[0]);
  }

  /** The entry a line adds, before those after it. */
  lemma LineRead(line: Line, rest: string, section: Option<string>)
    requires GoodLine(line)
    ensures ReadEntries(Body(line) + ("\n" + rest), section) ==
            var content := line.content;
            if content.Nothing? then ReadEntries(rest, section)
            else if content.Header? then ReadEntries(rest, Some(SectionOf(content.name, content.sub)))
            else if section.None? then None
            else Then([Entry(section.value, Lowered(content.key), ValueRead(content))], ReadEntries(rest, section))
  {
    hide ReadEntries, ReadSetting, ReadValue, SubText, SectionOf, GoodHeader, ValueText, ValueRead, Lowered, Lower,
        Then,
        OddSpace, IsExotic, AllKey, CommentText;
    var tail := CommentText(line.comment) + ("\n" + rest);
    var content := line.content;
    var text := ContentText(content) + tail;
    assert Body(line) + ("\n" + rest) == line.indent + text;
    IndentSkipped(line.indent, text, section);
    if content.Nothing? {
      assert text == tail;
      EndSkipped(line.comment, rest, section);
    } else if content.Header? {
      assert text == "[" + (content.name + (SubText(content.sub) + ("]" + tail)));
      HeaderEntry(content.name, content.sub, tail, section);
      EndSkipped(line.comment, rest, Some(SectionOf(content.name, content.sub)));
    } else if content.value.None? {
      BareLine(line, rest, section);
      assert text == ContentText(content) + (CommentText(line.comment) + ("\n" + rest));
    } else {
      var after := " = " + (ValueText(content) + tail);
      assert text == content.key + after;
      SettingRead(content, line.comment, rest);
      KeyEntry(content.key, after, Read(ValueRead(content), rest), section);
    }
  }

  lemma BareLine(line: Line, rest: string, section: Option<string>)
    requires GoodLine(line) && line.content.Setting? && line.content.value.None?
    ensures ReadEntries(ContentText(line.content) + (CommentText(line.comment) + ("\n" + rest)), section) ==
            if section.None? then None
                else Then([Entry(section.value, Lowered(line.content.key), ValueRead(line.content))],
                    ReadEntries(rest, section))
  {
    hide ReadEntries, ReadSetting, Lowered, Lower, Then;
    assert ContentText(line.content) + (CommentText(line.comment) + ("\n" + rest)) == line.content.key + ("\n" + rest);
    BareRead(rest);
    KeyEntry(line.content.key, "\n" + rest, Read("", "\n" + rest), section);
    SpaceSkipped('\n', rest, section);
  }

  // --- Reading a file back --------------------------------------------------------------------------

  /** A line's end, CR LF or LF, normalised. */
  lemma {:induction false} LineNormalised(body: string, crlf: bool, rest: string)
    requires '\n' !in body && (crlf || body == "" || body[|body| - 1] != '\r')
    ensures Normalised(body + ((if crlf then "\r\n" else "\n") + rest)) == body + ("\n" + Normalised(rest))
    decreases |body|
  {
    var end := (if crlf then "\r\n" else "\n") + rest;
    assert ("\n" + rest)[1..] == rest;
    if body == "" {
      assert body + end == end && end[|end| - |rest| - 1..] == "\n" + rest;
      assert body + ("\n" + Normalised(rest)) == "\n" + Normalised(rest);
    } else {
      var text := body + end;
      assert text[0] == body[0] && text[1..] == body[1..] + end;
      assert body[1..] == "" ==> text[1..] == end;
      LineNormalised(body[1..], crlf, rest);
      assert body + ("\n" + Normalised(rest)) == [body[0]] + (body[1..] + ("\n" + Normalised(rest)));
    }
  }

  lemma {:induction false} EscapedChars(value: string)
    ensures '\n' !in Escaped(value)
    ensures '\r' !in value ==> '\r' !in Escaped(value)
  {
    if value != "" {
      EscapedChars(value[1..]);
    }
  }

  lemma {:induction false} EscapedSubChars(sub: string)
    requires '\n' !in sub
    ensures '\n' !in EscapedSub(sub)
  {
    if sub != "" {
      EscapedSubChars(sub[1..]);
    }
  }

  /** Text that is one line with either end after it, and no byte order mark where it opens a file. */
  predicate OneLine(text: string) {
    '\n' !in text && (text == "" || (text[|text| - 1] != '\r' && text[0] != MARK))
  }

  lemma ValueOneLine(content: Content)
    requires content.Setting? && content.value.Some?
    ensures OneLine(" = " + ValueText(content))
  {
    EscapedChars(content.value.value);
    if !Quotes(content) {
      assert '\r' !in Escaped(content.value.value);
      assert '\r' !in " = " + ValueText(content);
    }
  }

  lemma ContentOneLine(line: Line)
    requires GoodLine(line)
    ensures OneLine(ContentText(line.content))
  {
    match line.content
    case Nothing =>
    case Header(name, sub) =>
      if sub.Some? {
        EscapedSubChars(sub.value);
      }
    case Setting(key, value, _) =>
      if value.Some? {
        ValueOneLine(line.content);
      }
  }

  lemma BodyOneLine(line: Line)
    requires GoodLine(line)
    ensures '\n' !in Body(line)
            && (Body(line) == "" || (Body(line)[0] != MARK && (line.crlf || Body(line)[|Body(line)| - 1] != '\r')))
  {
    ContentOneLine(line);
    hide ContentText, InKey, IsKeyChar, InName, IsNameChar, AllKey, AllName, GoodHeader;
    var text := ContentText(line.content) + CommentText(line.comment);
    assert Body(line) == line.indent + text;
  }

  /** The lines of `lines`, each ended by LF. */
  function Joined(lines: seq<Line>): string {
    if lines == [] then "" else Body(lines[0]) + ("\n" + Joined(lines[1..]))
  }

  lemma {:induction false} PrintedNormalised(lines: seq<Line>)
    requires GoodLines(lines)
    ensures Normalised(Printed(lines)) == Joined(lines)
    ensures Printed(lines) == "" || Printed(lines)[0] != MARK
  {
    if lines != [] {
      hide Body, Normalised, GoodLine;
      assert GoodLine(lines[0]);
      BodyOneLine(lines[0]);
      PrintedNormalised(lines[1..]);
      LineNormalised(Body(lines[0]), lines[0].crlf, Printed(lines[1..]));
    }
  }

  lemma {:induction false} JoinedRead(lines: seq<Line>, section: Option<string>)
    requires GoodLines(lines)
    ensures ReadEntries(Joined(lines), section) == EntriesOf(lines, section, true)
    decreases |lines|
  {
    hide Body, ValueRead, SectionOf, Lowered, Lower, GoodLine;
    if lines != [] {
      assert GoodLine(lines[0]);
      LineRead(lines[0], Joined(lines[1..]), section);
      hide ReadEntries;
      match lines[0].content
      case Nothing => JoinedRead(lines[1..], section);
      case Header(name, sub) => JoinedRead(lines[1..], Some(SectionOf(name, sub)));
      case Setting(_, _, _) => JoinedRead(lines[1..], section);
    }
  }

  function File(bom: bool, lines: seq<Line>): string {
    (if bom then [MARK] else []) + Printed(lines)
  }

  /** Every printed file is read as the entries its lines hold, unquoted values as `Kept` has them. */
  lemma FileRead(bom: bool, lines: seq<Line>)
    requires GoodLines(lines)
    ensures ReadEntries(Source(File(bom, lines)), None) == EntriesOf(lines, None, true)
  {
    hide ReadEntries, EntriesOf, Joined, GoodLines, Normalised;
    PrintedNormalised(lines);
    JoinedRead(lines, None);
    assert ([MARK] + Printed(lines))[1..] == Printed(lines);
    assert [] + Printed(lines) == Printed(lines);
  }

  // --- What is refused --------------------------------------------------------------------------------

  /** A backslash before any character git has no escape for, anywhere in a value outside quotes. */
  lemma UnknownEscape(spans: seq<Span>, c: char, rest: string)
    requires (forall k :: 0 <= k < |spans| ==> GoodSpan(spans[k])) && c !in "tbn\\\"\n"
    ensures ReadValue(SpansText(spans) + ("\\" + ([c] + rest)), "", 0, false).None?
  {
    SpansRead(spans, Sofar("", 0), "\\" + ([c] + rest));
    var text := "\\" + ([c] + rest);
    assert text[0] == '\\' && text[1] == c;
  }

  /** A quote left open at its line's end, or at the file's. */
  lemma OpenQuote(spans: seq<Span>, spelt: seq<Spelt>, rest: string)
    requires forall k :: 0 <= k < |spans| ==> GoodSpan(spans[k])
    requires forall k :: 0 <= k < |spelt| ==> GoodSpelt(spelt[k], true)
    requires rest == "" || rest[0] == '\n'
    ensures ReadValue(SpansText(spans) + ("\"" + (AllSpelt(spelt) + rest)), "", 0, false).None?
  {
    var text := AllSpelt(spelt) + rest;
    SpansRead(spans, Sofar("", 0), "\"" + text);
    var after := AfterSpans(spans, Sofar("", 0));
    QuoteRead(text, after.read, after.spaces, false);
    SpeltRead(spelt, true, Sofar(after.read + Spaces(after.spaces), 0), rest);
  }

  /** A key with neither '=' nor its line's end after it. */
  lemma StrayAfterKey(key: string, blanks: string, c: char, rest: string, section: Option<string>)
    requires key != "" && InAlphabet(key[0]) && AllKey(key) && AllBlank(blanks)
    requires c !in " \t=\n" && (blanks == "" ==> !InKey(c))
    ensures ReadEntries(key + (blanks + ([c] + rest)), section).None?
  {
    hide InKey, IsKeyChar, ReadKey, Lower, PastBlanks;
    var after := blanks + ([c] + rest);
    assert !InKey(after[0]) by { if blanks != "" { KeysNotBlank(after[0]); } }
    KeyRead(key, "", after);
    assert "" + key == key && (key + after)[0] == key[0];
    BlanksPassed(blanks, c, rest);
    OpensKey(key[0]);
  }

  lemma KeysNotBlank(c: char)
    requires Indents(c)
    ensures !InKey(c)
  {
  }

  lemma {:induction false} BlanksPassed(blanks: string, c: char, rest: string)
    requires AllBlank(blanks) && !Indents(c)
    ensures PastBlanks(blanks + ([c] + rest)) == [c] + rest
  {
    if blanks == "" {
      assert blanks + ([c] + rest) == [c] + rest;
    } else {
      assert (blanks + ([c] + rest))[1..] == blanks[1..] + ([c] + rest);
      BlanksPassed(blanks[1..], c, rest);
    }
  }

  /** A line that starts with anything but white space, a comment, a header or a key; and a key before any header. */
  lemma StrayStart(c: char, rest: string, section: Option<string>)
    requires !White(c) && c !in "#;[" && (section.None? || !InAlphabet(c))
    ensures ReadEntries([c] + rest, section).None?
  {
  }

  /** A header with no name, or whose name is not followed by its end or a quoted subsection. */
  lemma StrayInHeader(name: string, blanks: string, c: char, rest: string, section: Option<string>)
    requires AllName(name) && AllBlank(blanks) && !Indents(c) && (blanks == "" ==> !InName(c))
    requires if blanks == "" then name == "" || c != ']' else c != '\"'
    ensures ReadEntries("[" + (name + (blanks + ([c] + rest))), section).None?
  {
    hide InName, IsNameChar, ReadName, Lowered, Lower, PastBlanks;
    var after := blanks + ([c] + rest);
    assert !InName(after[0]) by { if blanks != "" { NamesNotBlank(after[0]); } }
    NameRead(name, "", after);
    assert "" + name == name;
    BlanksPassed(blanks, c, rest);
    assert ("[" + (name + after))[1..] == name + after;
    SameLowered(name);
  }

  lemma NamesNotBlank(c: char)
    requires Indents(c)
    ensures !InName(c)
  {
  }

  // --- Which values come back -----------------------------------------------------------------------

  predicate HoldsExotic(s: string) {
    exists k :: 0 <= k < |s| && OddSpace(s[k])
  }

  lemma {:induction false} KeptPlain(value: string, read: string, spaces: nat)
    requires !HoldsExotic(value) && (value != "" ==> value[|value| - 1] != ' ')
    requires read == "" ==> spaces == 0 && (value == "" || value[0] != ' ')
    ensures Kept(value, read, spaces).0 == if value == "" then read else read + Spaces(spaces) + value
    decreases |value|
  {
    if value != "" {
      var tail := value[1..];
      assert forall k :: 0 <= k < |tail| ==> tail[k] == value[k + 1];
      if value[0] == ' ' {
        KeptPlain(tail, read, spaces + 1);
        assert read + Spaces(spaces + 1) + tail == read + Spaces(spaces) + value;
      } else {
        var next := read + Spaces(spaces) + [value[0]];
        KeptPlain(tail, next, 0);
        assert next + Spaces(0) + tail == read + Spaces(spaces) + value;
        assert tail == "" ==> next == read + Spaces(spaces) + value;
      }
    }
  }

  lemma {:induction false} KeptHoldsNoExotic(value: string, read: string, spaces: nat)
    requires !HoldsExotic(read)
    ensures !HoldsExotic(Kept(value, read, spaces).0)
    decreases |value|
  {
    if value != "" {
      if value[0] == ' ' || OddSpace(value[0]) {
        KeptHoldsNoExotic(value[1..], read, if read == "" then spaces else spaces + 1);
      } else {
        KeptHoldsNoExotic(value[1..], read + Spaces(spaces) + [value[0]], 0);
      }
    }
  }

  /** A value comes back exactly when it is in quotes or holds no white space but spaces, tabs and line feeds. */
  predicate ComesBack(content: Content) {
    content.Setting? && content.value.Some? ==> Quotes(content) || !HoldsExotic(content.value.value)
  }

  predicate AlwaysQuoted(content: Content) {
    content.Setting? && content.value.Some? ==> content.quote
  }

  lemma ValueComesBack(content: Content)
    requires content.Setting?
    ensures ValueRead(content) == (if content.value.None? then "" else content.value.value) <==> ComesBack(content)
  {
    if content.value.Some? && !Quotes(content) {
      if HoldsExotic(content.value.value) {
        KeptHoldsNoExotic(content.value.value, "", 0);
      } else {
        KeptPlain(content.value.value, "", 0);
        assert "" + Spaces(0) + content.value.value == content.value.value;
      }
    }
  }

  lemma ThenSame(a: Entry, b: Entry, rest: Option<seq<Entry>>, other: Option<seq<Entry>>)
    requires rest.Some? && other.Some?
    ensures Then([a], rest) == Then([b], other) <==> a == b && rest == other
  {
    if Then([a], rest) == Then([b], other) {
      assert ([a] + rest.value)[0] == ([b] + other.value)[0];
      assert ([a] + rest.value)[1..] == rest.value && ([b] + other.value)[1..] == other.value;
    }
  }

  lemma {:induction false} AllComeBack(lines: seq<Line>, section: Option<string>)
    requires EntriesOf(lines, section, false).Some?
    ensures EntriesOf(lines, section, true).Some?
    ensures EntriesOf(lines, section, true) == EntriesOf(lines, section, false) <==> forall k :: 0 <= k < |lines| ==>
            ComesBack(lines[k].content)
    decreases |lines|
  {
    hide ComesBack, ValueRead, SectionOf, Lowered, Lower;
    if lines != [] {
      var content := lines[0].content;
      assert forall k :: 0 <= k < |lines[1..]| ==> lines[1..][k] == lines[k + 1];
      assert (forall k :: 0 <= k < |lines| ==> ComesBack(lines[k].content)) <==>
             ComesBack(content) && forall k :: 0 <= k < |lines[1..]| ==> ComesBack(lines[1..][k].content) by {
        if ComesBack(content) && forall k :: 0 <= k < |lines[1..]| ==> ComesBack(lines[1..][k].content) {
          forall k | 0 <= k < |lines| ensures ComesBack(lines[k].content) {
            if k > 0 { assert lines[k] == lines[1..][k - 1]; }
          }
        }
      }
      if content.Setting? {
        AllComeBack(lines[1..], section);
        ValueComesBack(content);
        ThenSame(Entry(section.value, Lowered(content.key), ValueRead(content)),
                 Entry(section.value, Lowered(content.key), if content.value.None? then "" else content.value.value),
                 EntriesOf(lines[1..], section, true), EntriesOf(lines[1..], section, false));
      } else {
        NothingToRead(content);
        AllComeBack(lines[1..], if content.Header? then Some(SectionOf(content.name, content.sub)) else section);
      }
    }
  }

  lemma NothingToRead(content: Content)
    requires !content.Setting?
    ensures ComesBack(content)
  {
  }

  /**
   * The round trip of git's own writer: the entries come back, names lowercased, exactly when every
   * value is quoted or free of the white space git leaves unquoted; quoting them all always does.
   */
  lemma RoundTrip(bom: bool, lines: seq<Line>)
    requires GoodLines(lines) && EntriesOf(lines, None, false).Some?
    ensures ReadEntries(Source(File(bom, lines)), None) == EntriesOf(lines, None, false)
            <==> forall k :: 0 <= k < |lines| ==> ComesBack(lines[k].content)
    ensures (forall k :: 0 <= k < |lines| ==> AlwaysQuoted(lines[k].content)) ==>
              ReadEntries(Source(File(bom, lines)), None) == EntriesOf(lines, None, false)
  {
    FileRead(bom, lines);
    AllComeBack(lines, None);
  }

  /** A file with one section and one setting, and the entry it holds. */
  lemma OneSetting(value: string)
    requires value != "" && !MustQuote(value)
    ensures var lines := [Line("", Header("a", None), None, false),
            Line("\t", Setting("b", Some(value), false), None, false)];
            GoodLines(lines) && EntriesOf(lines, None, false) == Some([Entry("a", "b", value)])
  {
    var lines := [Line("", Header("a", None), None, false), Line("\t", Setting("b", Some(value), false), None, false)];
    assert GoodLine(lines[0]) && GoodLine(lines[1]);
    hide GoodLine;
    assert lines[1..] == [lines[1]] && lines[1..][1..] == [];
    assert Lowered("a") == "a" && Lowered("b") == "b" by { assert "a"[1..] == "" && "b"[1..] == ""; }
    hide Lowered;
    assert Lowered("a") + "" == "a" && [Entry("a", "b", value)] + [] == [Entry("a", "b", value)];
    assert EntriesOf([], Some("a"), false) == Some([]);
    assert EntriesOf(lines[1..], Some("a"), false) == Some([Entry("a", "b", value)]);
    assert EntriesOf(lines, None, false) == EntriesOf(lines[1..], Some(SectionOf("a", None)), false);
  }

  /** A value git prints bare and the reader answers as another. */
  lemma FormFeedLost()
    ensures var lines := [Line("", Header("a", None), None, false),
            Line("\t", Setting("b", Some("x\U{C}y"), false), None, false)];
            && GoodLines(lines) && EntriesOf(lines, None, false) == Some([Entry("a", "b", "x\U{C}y")])
            && ReadEntries(Source(File(false, lines)), None) != EntriesOf(lines, None, false)
  {
    hide Lowered, ReadEntries, Source, EntriesOf, GoodLines;
    var setting := Setting("b", Some("x\U{C}y"), false);
    var lines := [Line("", Header("a", None), None, false), Line("\t", setting, None, false)];
    OneSetting("x\U{C}y");
    RoundTrip(false, lines);
    assert OddSpace(setting.value.value[1]) && lines[1].content == setting;
    assert !ComesBack(setting);
  }
}
