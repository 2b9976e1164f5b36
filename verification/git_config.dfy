/**
 * `gitConfigEntries`: a git config file read with one index over its text. The reader is proved to
 * answer a reading of the text that remains, and that reading to give back what git's own writer
 * prints, with the exact values for which it does not.
 */
module GitConfig {
  import opened Wrappers

  datatype Entry = Entry(section: string, key: string, value: string)

  /** What was read, and the text after it. */
  datatype Read = Read(value: string, rest: string)

  const BOM: char := '\U{FEFF}'

  /** White space that a regular expression's `\s` matches and no git config line is indented with. */
  predicate IsExotic(c: char) {
    || c == '\U{B}' || c == '\U{C}' || c == '\r' || c == '\U{A0}' || c == '\U{1680}' || '\U{2000}' <= c <= '\U{200A}'
    || c == '\U{2028}' || c == '\U{2029}' || c == '\U{202F}' || c == '\U{205F}' || c == '\U{3000}' || c == BOM
  }

  predicate IsBlank(c: char) {
    c == ' ' || c == '\t'
  }

  predicate IsSpace(c: char) {
    IsBlank(c) || c == '\n' || IsExotic(c)
  }

  predicate IsLetter(c: char) {
    'A' <= c <= 'Z' || 'a' <= c <= 'z'
  }

  predicate IsKeyChar(c: char) {
    IsLetter(c) || '0' <= c <= '9' || c == '-'
  }

  predicate IsNameChar(c: char) {
    IsKeyChar(c) || c == '.'
  }

  predicate StartsComment(c: char) {
    c == '#' || c == ';'
  }

  function Lower(s: string): (r: string)
    ensures |r| == |s|
  {
    seq(|s|, i requires 0 <= i < |s| => if 'A' <= s[i] <= 'Z' then s[i] + ('a' - 'A') else s[i])
  }

  function Spaces(n: nat): string {
    seq(n, _ => ' ')
  }

  /** What a backslash before `c` stands for. */
  function Decoded(c: char): Option<char> {
    if c == 't' then Some('\t') else if c == 'b' then Some('\U{8}') else if c == 'n' then Some('\n')
    else if c == '\\' || c == '\"' then Some(c) else None
  }

  // --- Reading --------------------------------------------------------------------------------------

  /** The first line feed of `text` and all after it. */
  function LineEnd(text: string): (rest: string)
    ensures |rest| <= |text| && (rest == [] || rest[0] == '\n')
  {
    if text == [] || text[0] == '\n' then text else LineEnd(text[1..])
  }

  function PastLine(text: string): string {
    var end := LineEnd(text);
    if end == [] then [] else end[1..]
  }

  /** The value of which `value` has been read, `spaces` of white space since. */
  function ReadValue(text: string, value: string, spaces: nat, quoted: bool): (r: Option<Read>)
    ensures r.Some? ==> |r.value.rest| <= |text|
    decreases |text|
  {
    if text == [] || text[0] == '\n' then
      if quoted then None else Some(Read(value, PastLine(text)))
    else if !quoted && IsSpace(text[0]) then
      ReadValue(text[1..], value, if value == "" then spaces else spaces + 1, quoted)
    else if !quoted && StartsComment(text[0]) then
      Some(Read(value, PastLine(text)))
    else
      var spaced := value + Spaces(spaces);
      if text[0] == '\\' then
        if |text| == 1 then None
        else if text[1] == '\n' then ReadValue(text[2..], spaced, 0, quoted)
        else if Decoded(text[1]).None? then None
        else ReadValue(text[2..], spaced + [Decoded(text[1]).value], 0, quoted)
      else if text[0] == '\"' then ReadValue(text[1..], spaced, 0, !quoted)
      else ReadValue(text[1..], spaced + [text[0]], 0, quoted)
  }

  function ReadKey(text: string, key: string): (r: Read)
    ensures |key| <= |r.value| && |r.value| + |r.rest| == |key| + |text|
  {
    if text == [] || !IsKeyChar(text[0]) then Read(key, text) else ReadKey(text[1..], key + [text[0]])
  }

  function ReadName(text: string, name: string): (r: Read)
    ensures |r.rest| <= |text|
  {
    if text == [] || !IsNameChar(text[0]) then Read(name, text) else ReadName(text[1..], name + [text[0]])
  }

  function PastBlanks(text: string): (rest: string)
    ensures |rest| <= |text|
  {
    if text == [] || !IsBlank(text[0]) then text else PastBlanks(text[1..])
  }

  /** A subsection's name, past its opening quote and up to its closing one. */
  function ReadSub(text: string, sub: string): (r: Option<Read>)
    ensures r.Some? ==> |r.value.rest| <= |text|
    decreases |text|
  {
    if text == [] then None
    else if text[0] == '\"' then Some(Read(sub, text[1..]))
    else if text[0] == '\\' then
      if |text| == 1 || text[1] == '\n' then None else ReadSub(text[2..], sub + [text[1]])
    else if text[0] == '\n' then None
    else ReadSub(text[1..], sub + [text[0]])
  }

  /** A section's name, past its opening bracket. */
  function ReadHeader(text: string): (r: Option<Read>)
    ensures r.Some? ==> |r.value.rest| <= |text|
  {
    var read := ReadName(text, "");
    var name := Lower(read.value);
    if read.rest != [] && IsBlank(read.rest[0]) then
      var rest := PastBlanks(read.rest);
      if rest == [] || rest[0] != '\"' then None
      else
        match ReadSub(rest[1..], "")
        case None => None
        case Some(sub) => Closed(name + "." + sub.value, sub.rest)
    else Closed(name, read.rest)
  }

  function Closed(name: string, rest: string): Option<Read> {
    if name == "" || rest == [] || rest[0] != ']' then None else Some(Read(name, rest[1..]))
  }

  /** The value of a key, `text` what follows the key; a key alone on its line has an empty one. */
  function ReadSetting(text: string): (r: Option<Read>)
    ensures r.Some? ==> |r.value.rest| <= |text|
  {
    var rest := PastBlanks(text);
    if rest != [] && rest[0] == '=' then ReadValue(rest[1..], "", 0, false)
    else if rest != [] && rest[0] != '\n' then None
    else Some(Read("", rest))
  }

  /** `first`, then what `rest` holds. */
  function Then(first: seq<Entry>, rest: Option<seq<Entry>>): Option<seq<Entry>> {
    if rest.None? then None else Some(first + rest.value)
  }

  /** The entries of `text`, the last header before it `section`. */
  function ReadEntries(text: string, section: Option<string>): Option<seq<Entry>>
    decreases |text|
  {
    if text == [] then Some([])
    else if IsSpace(text[0]) then ReadEntries(text[1..], section)
    else if StartsComment(text[0]) then ReadEntries(PastLine(text), section)
    else if text[0] == '[' then
      match ReadHeader(text[1..])
      case None => None
      case Some(name) => ReadEntries(name.rest, Some(name.value))
    else if section.None? || !IsLetter(text[0]) then None
    else
      var key := ReadKey(text, "");
      match ReadSetting(key.rest)
      case None => None
      case Some(read) => Then([Entry(section.value, Lower(key.value), read.value)], ReadEntries(read.rest, section))
  }

  /** Every CR LF made LF. */
  function Normalised(text: string): string {
    if text == [] then []
    else if text[0] == '\r' && |text| > 1 && text[1] == '\n' then Normalised(text[1..])
    else [text[0]] + Normalised(text[1..])
  }

  function Source(text: string): string {
    Normalised(if text != [] && text[0] == BOM then text[1..] else text)
  }

  // --- The reader -----------------------------------------------------------------------------------

  /** What of `source` is left at `i`, which may be one past its end. */
  function From(source: string, i: nat): string {
    if i <= |source| then source[i..] else []
  }

  lemma FromStep(source: string, i: nat)
    requires i < |source|
    ensures source[i..][1..] == source[i + 1..] && source[i..][0] == source[i] && source[i..] != []
    ensures i + 1 < |source| ==> source[i..][2..] == source[i + 2..]
  {
  }

  method ConfigValue(source: string, start: nat) returns (value: string, next: nat, ok: bool)
    requires start <= |source|
    ensures ok == ReadValue(source[start..], "", 0, false).Some? && start <= next <= |source| + 1
    ensures ok ==> start < next && ReadValue(source[start..], "", 0, false) == Some(Read(value, From(source, next)))
  {
    value := "";
    var spaces, quoted, comment, i := 0, false, false, start;
    ghost var whole := ReadValue(source[start..], "", 0, false);
    while i < |source| && source[i] != '\n'
      invariant start <= i <= |source|
      invariant comment ==> !quoted && whole == Some(Read(value, PastLine(source[i..])))
      invariant !comment ==> whole == ReadValue(source[i..], value, spaces, quoted)
    {
      FromStep(source, i);
      var c := source[i];
      if comment {
      } else if !quoted && IsSpace(c) {
        if value != "" {
          spaces := spaces + 1;
        }
      } else if !quoted && StartsComment(c) {
        comment := true;
      } else {
        value := value + Spaces(spaces);
        spaces := 0;
        if c == '\\' {
          i := i + 1;
          if i == |source| {
            return value, start, false;
          }
          if source[i] != '\n' {
            var decoded := Decoded(source[i]);
            if decoded.None? {
              return value, start, false;
            }
            value := value + [decoded.value];
          }
        } else if c == '\"' {
          quoted := !quoted;
        } else {
          value := value + [c];
        }
      }
      i := i + 1;
    }
    if i < |source| {
      FromStep(source, i);
    }
    return value, i + 1, !quoted;
  }

  lemma Joins(entries: seq<Entry>, e: Entry, rest: Option<seq<Entry>>)
    ensures Then(entries, Then([e], rest)) == Then(entries + [e], rest)
  {
    if rest.Some? {
      assert entries + ([e] + rest.value) == entries + [e] + rest.value;
    }
  }

  /** Past `c` and those like it: the index where a run of key characters ends, and the run. */
  method KeyRun(source: string, start: nat) returns (key: string, i: nat)
    requires start <= |source|
    ensures start <= i <= |source| && ReadKey(source[start..], "") == Read(key, source[i..])
  {
    key, i := "", start;
    while i < |source| && IsKeyChar(source[i])
      invariant start <= i <= |source| && ReadKey(source[start..], "") == ReadKey(source[i..], key)
    {
      FromStep(source, i);
      key, i := key + [source[i]], i + 1;
    }
  }

  method NameRun(source: string, start: nat) returns (name: string, i: nat)
    requires start <= |source|
    ensures start <= i <= |source| && ReadName(source[start..], "") == Read(name, source[i..])
  {
    name, i := "", start;
    while i < |source| && IsNameChar(source[i])
      invariant start <= i <= |source| && ReadName(source[start..], "") == ReadName(source[i..], name)
    {
      FromStep(source, i);
      name, i := name + [source[i]], i + 1;
    }
  }

  method BlankRun(source: string, start: nat) returns (i: nat)
    requires start <= |source|
    ensures start <= i <= |source| && PastBlanks(source[start..]) == source[i..]
  {
    i := start;
    while i < |source| && IsBlank(source[i])
      invariant start <= i <= |source| && PastBlanks(source[start..]) == PastBlanks(source[i..])
    {
      FromStep(source, i);
      i := i + 1;
    }
  }

  method SubRun(source: string, start: nat) returns (sub: string, i: nat, ok: bool)
    requires start <= |source|
    ensures ok == ReadSub(source[start..], "").Some? && start <= i <= |source|
    ensures ok ==> ReadSub(source[start..], "") == Some(Read(sub, source[i..]))
  {
    sub, i := "", start;
    while i < |source| && source[i] != '\"'
      invariant start <= i <= |source| && ReadSub(source[start..], "") == ReadSub(source[i..], sub)
    {
      FromStep(source, i);
      var escaped := source[i] == '\\';
      if escaped {
        i := i + 1;
      }
      if i == |source| || source[i] == '\n' {
        return sub, i, false;
      }
      sub, i := sub + [source[i]], i + 1;
    }
    if i == |source| {
      return sub, i, false;
    }
    FromStep(source, i);
    return sub, i + 1, true;
  }

  method SectionName(source: string, start: nat) returns (name: string, i: nat, ok: bool)
    requires start <= |source|
    ensures ok == ReadHeader(source[start..]).Some? && start <= i <= |source|
    ensures ok ==> ReadHeader(source[start..]) == Some(Read(name, source[i..]))
  {
    var written: string;
    written, i := NameRun(source, start);
    name := Lower(written);
    if i < |source| && IsBlank(source[i]) {
      i := BlankRun(source, i);
      if i == |source| || source[i] != '\"' {
        return name, i, false;
      }
      FromStep(source, i);
      var sub, next, closed := SubRun(source, i + 1);
      if !closed {
        return name, i, false;
      }
      name, i := name + "." + sub, next;
    }
    if name == "" || i == |source| || source[i] != ']' {
      return name, i, false;
    }
    FromStep(source, i);
    return name, i + 1, true;
  }

  method GitConfigEntries(text: string) returns (r: Option<seq<Entry>>)
    ensures r == ReadEntries(Source(text), None)
  {
    var source := Source(text);
    var entries: seq<Entry> := [];
    var section: Option<string> := None;
    var i := 0;
    assert source[0..] == source;
    assert forall rest: seq<Entry> :: [] + rest == rest;
    while i < |source|
      invariant 0 <= i <= |source| + 1
      invariant Then(entries, ReadEntries(From(source, i), section)) == ReadEntries(source, None)
      decreases |source| + 1 - i
    {
      FromStep(source, i);
      var c := source[i];
      if IsSpace(c) {
        i := i + 1;
      } else if StartsComment(c) {
        i := PastComment(source, i, section);
      } else if c == '[' {
        var name, next, ok := SectionName(source, i + 1);
        if !ok {
          return None;
        }
        section, i := Some(name), next;
      } else {
        if section.None? || !IsLetter(c) {
          return None;
        }
        var key, afterKey := KeyRun(source, i);
        var value, next, ok := Setting(source, afterKey);
        if !ok {
          return None;
        }
        var entry := Entry(section.value, Lower(key), value);
        Joins(entries, entry, ReadEntries(From(source, next), section));
        entries, i := entries + [entry], next;
      }
    }
    assert entries + [] == entries;
    return Some(entries);
  }

  method PastComment(source: string, start: nat, section: Option<string>) returns (i: nat)
    requires start < |source| && StartsComment(source[start]) && !IsSpace(source[start])
    ensures start < i <= |source| && ReadEntries(source[start..], section) == ReadEntries(source[i..], section)
  {
    i := start;
    while i < |source| && source[i] != '\n'
      invariant start <= i <= |source| && LineEnd(source[start..]) == LineEnd(source[i..])
      invariant i == start ==> source[i] != '\n'
    {
      FromStep(source, i);
      i := i + 1;
    }
    if i < |source| {
      FromStep(source, i);
      assert ReadEntries(source[i..], section) == ReadEntries(source[i..][1..], section);
    }
  }

  method Setting(source: string, start: nat) returns (value: string, next: nat, ok: bool)
    requires start <= |source|
    ensures ok == ReadSetting(source[start..]).Some?
    ensures ok ==> start <= next <= |source| + 1 && ReadSetting(source[start..]) == Some(Read(value,
            From(source, next)))
  {
    next := BlankRun(source, start);
    if next < |source| && source[next] == '=' {
      FromStep(source, next);
      value, next, ok := ConfigValue(source, next + 1);
    } else {
      value, ok := "", next == |source| || source[next] == '\n';
    }
  }
}
