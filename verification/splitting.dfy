/** Texts cut at a separator and joined by it. */
module Splitting {
  function Join(parts: seq<string>, separator: char): string {
    if parts == [] then "" else if |parts| == 1 then parts[0]
        else parts[0] + ([separator] + Join(parts[1..], separator))
  }

  function Split(s: string, separator: char): (r: seq<string>)
    ensures r != []
  {
    if s == "" then [""]
    else
      var rest := Split(s[1..], separator);
      if s[0] == separator then [""] + rest else [[s[0]] + rest[0]] + rest[1..]
  }

  predicate Without(s: string, separator: char) {
    forall k :: 0 <= k < |s| ==> s[k] != separator
  }

  predicate AllWithout(parts: seq<string>, separator: char) {
    forall k :: 0 <= k < |parts| ==> Without(parts[k], separator)
  }

  lemma {:induction false} SplitFirst(part: string, rest: string, separator: char)
    requires Without(part, separator)
    ensures Split(part, separator) == [part]
    ensures Split(part + ([separator] + rest), separator) == [part] + Split(rest, separator)
  {
    var s := part + ([separator] + rest);
    if part == "" {
      assert s[1..] == rest;
    } else {
      assert s[1..] == part[1..] + ([separator] + rest);
      SplitFirst(part[1..], rest, separator);
      assert [part[0]] + part[1..] == part;
    }
  }

  lemma {:induction false} SplitJoin(parts: seq<string>, separator: char)
    requires parts != [] && AllWithout(parts, separator)
    ensures Split(Join(parts, separator), separator) == parts
    decreases |parts|
  {
    SplitFirst(parts[0], Join(parts[1..], separator), separator);
    if |parts| > 1 { SplitJoin(parts[1..], separator); }
  }

  lemma JoinSame(a: seq<string>, b: seq<string>, separator: char)
    requires a != [] && b != [] && AllWithout(a, separator) && AllWithout(b, separator)
             && Join(a, separator) == Join(b, separator)
    ensures a == b
  {
    SplitJoin(a, separator);
    SplitJoin(b, separator);
  }
}
