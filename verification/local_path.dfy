/**
 * Resolving a path without reaching another machine: the worklist walk of `walkLocal`, proved to
 * answer what resolving prefix by prefix does, on any filesystem that stands still, and to call it
 * only on paths already known to be link-free up to their last name.
 */
module LocalPath {
  import opened Wrappers
  import Splitting

  const MAX_LINKS: nat := 40

  /** An absolute path: its root, and the names below it. */
  datatype Path = Path(root: string, names: seq<string>)

  datatype Error = NonLocal | TooManyLinks | FsError(code: string)

  /** What `lstat` answers of an existing path: a link, or something else. */
  datatype Stats = Link | Entry(info: string)

  /** A filesystem that stands still; `realpath` is none where it fails. */
  datatype Fs = Fs(lstat: Path -> Result<Stats, Error>, readlink: Path -> Result<string, Error>,
    realpath: Path -> Option<string>)

  /** The path module: whether a text is absolute, the path it names from another, and a path as text. */
  datatype Module = Module(isAbsolute: string -> bool, resolve: (Path, string) -> Path, text: Path -> string)

  datatype Call = Lstat(path: Path) | Readlink(path: Path) | Realpath(path: Path)

  datatype Found = Found(path: string, stats: Stats)

  predicate IsSlash(c: char) {
    c == '/' || c == '\\'
  }

  /** A share or device path. */
  predicate IsUncOrDevicePath(path: string) {
    |path| >= 2 && IsSlash(path[0]) && IsSlash(path[1])
  }

  function Join(path: Path, name: string): Path {
    Path(path.root, path.names + [name])
  }

  // --- Prefix by prefix ---------------------------------------------------------------------

  /** A link-free path, and how many links were followed to it. */
  datatype Reached = Reached(path: Path, links: nat)

  /**
   * `name` in the link-free directory `dir`: itself, or where the link it is leads, resolved in turn
   * from its root.
   */
  function Enter(fs: Fs, mod: Module, dir: Path, name: string, links: nat): (r: Result<Reached, Error>)
    requires links <= MAX_LINKS
    ensures r.Ok? ==> links <= r.value.links <= MAX_LINKS
    decreases MAX_LINKS - links, 0, 0
  {
    var next := Join(dir, name);
    match fs.lstat(next)
    case Err(e) => Err(e)
    case Ok(Entry(_)) => Ok(Reached(next, links))
    case Ok(Link) =>
      if links + 1 > MAX_LINKS then Err(TooManyLinks)
      else match fs.readlink(next)
        case Err(e) => Err(e)
        case Ok(target) =>
          if IsUncOrDevicePath(target) then Err(NonLocal)
          else Canonical(fs, mod, mod.resolve(dir, target), links + 1)
  }

  /** `path` resolved: its parent first, then its last name in it. */
  function Canonical(fs: Fs, mod: Module, path: Path, links: nat): (r: Result<Reached, Error>)
    requires links <= MAX_LINKS
    ensures r.Ok? ==> links <= r.value.links <= MAX_LINKS
    decreases MAX_LINKS - links, 1, |path.names|
  {
    if path.names == [] then Ok(Reached(path, links))
    else
      match Canonical(fs, mod, Path(path.root, path.names[..|path.names| - 1]), links)
      case Err(e) => Err(e)
      case Ok(parent) => Enter(fs, mod, parent.path, path.names[|path.names| - 1], parent.links)
  }

  /** `names` entered one after another from a link-free `dir`. */
  function Along(fs: Fs, mod: Module, dir: Path, names: seq<string>, links: nat): (r: Result<Reached, Error>)
    requires links <= MAX_LINKS
    ensures r.Ok? ==> links <= r.value.links <= MAX_LINKS
    decreases |names|
  {
    if names == [] then Ok(Reached(dir, links))
    else
      match Enter(fs, mod, dir, names[0], links)
      case Err(e) => Err(e)
      case Ok(first) => Along(fs, mod, first.path, names[1..], first.links)
  }

  lemma {:induction false} AlongThen(fs: Fs, mod: Module, dir: Path, a: seq<string>, b: seq<string>, links: nat)
    requires links <= MAX_LINKS
    ensures Along(fs, mod, dir, a + b, links) ==
            match Along(fs, mod, dir, a, links)
            case Err(e) => Err(e)
            case Ok(mid) => Along(fs, mod, mid.path, b, mid.links)
    decreases |a|
  {
    if a == [] {
      assert a + b == b;
    } else {
      assert (a + b)[1..] == a[1..] + b;
      match Enter(fs, mod, dir, a[0], links)
      case Err(_) =>
      case Ok(first) => AlongThen(fs, mod, first.path, a[1..], b, first.links);
    }
  }

  /** Entering a path's names from its root resolves it. */
  lemma {:induction false} AlongIsCanonical(fs: Fs, mod: Module, path: Path, links: nat)
    requires links <= MAX_LINKS
    ensures Along(fs, mod, Path(path.root, []), path.names, links) == Canonical(fs, mod, path, links)
    decreases |path.names|
  {
    if path.names != [] {
      var front := path.names[..|path.names| - 1];
      var last := path.names[|path.names| - 1];
      AlongIsCanonical(fs, mod, Path(path.root, front), links);
      assert path.names == front + [last];
      AlongThen(fs, mod, Path(path.root, []), front, [last], links);
      match Along(fs, mod, Path(path.root, []), front, links)
      case Err(_) =>
      case Ok(mid) =>
        assert [last][1..] == [];
        assert Along(fs, mod, mid.path, [last], mid.links) == Enter(fs, mod, mid.path, last, mid.links);
    }
  }

  /** No name of `path` is a link. */
  ghost predicate LinkFree(fs: Fs, path: Path) {
    forall n :: 0 < n <= |path.names| ==>
        fs.lstat(Path(path.root, path.names[..n])).Ok? && fs.lstat(Path(path.root, path.names[..n])).value.Entry?
  }

  lemma EnterLinkFree(fs: Fs, mod: Module, dir: Path, name: string, links: nat)
    requires links <= MAX_LINKS && LinkFree(fs, dir) && Enter(fs, mod, dir, name, links).Ok?
    ensures LinkFree(fs, Enter(fs, mod, dir, name, links).value.path)
    decreases MAX_LINKS - links, 0, 0
  {
    var next := Join(dir, name);
    if fs.lstat(next).value.Entry? {
      forall n | 0 < n <= |next.names|
        ensures fs.lstat(Path(next.root, next.names[..n])).Ok?
                && fs.lstat(Path(next.root, next.names[..n])).value.Entry?
      {
        if n == |next.names| { assert next.names[..n] == next.names; }
            else { assert next.names[..n] == dir.names[..n]; }
      }
    } else {
      CanonicalLinkFree(fs, mod, mod.resolve(dir, fs.readlink(next).value), links + 1);
    }
  }

  /** A resolved path has no link left on it. */
  lemma {:induction false} CanonicalLinkFree(fs: Fs, mod: Module, path: Path, links: nat)
    requires links <= MAX_LINKS && Canonical(fs, mod, path, links).Ok?
    ensures LinkFree(fs, Canonical(fs, mod, path, links).value.path)
    decreases MAX_LINKS - links, 1, |path.names|
  {
    if path.names != [] {
      var parent := Path(path.root, path.names[..|path.names| - 1]);
      CanonicalLinkFree(fs, mod, parent, links);
      var reached := Canonical(fs, mod, parent, links).value;
      EnterLinkFree(fs, mod, reached.path, path.names[|path.names| - 1], reached.links);
    }
  }

  /** And a path with no link on it is where it resolves to, no link followed. */
  lemma {:induction false} LinkFreeIsCanonical(fs: Fs, mod: Module, path: Path, links: nat)
    requires links <= MAX_LINKS && LinkFree(fs, path)
    ensures Canonical(fs, mod, path, links) == Ok(Reached(path, links))
    decreases |path.names|
  {
    if path.names != [] {
      var parent := Path(path.root, path.names[..|path.names| - 1]);
      assert LinkFree(fs, parent) by {
        forall n | 0 < n <= |parent.names| ensures parent.names[..n] == path.names[..n] {}
      }
      LinkFreeIsCanonical(fs, mod, parent, links);
      assert Join(parent, path.names[|path.names| - 1]) == path;
      assert path.names[..|path.names|] == path.names;
    }
  }

  // --- What the walk is to answer ---------------------------------------------------------------

  /** The whole resolution: the canonical path and its own `lstat`, or the refusal. */
  function Resolved(fs: Fs, mod: Module, root: Path, input: string): Result<Found, Error> {
    if !mod.isAbsolute(input) || IsUncOrDevicePath(input) then Err(NonLocal)
    else
      match Canonical(fs, mod, mod.resolve(root, input), 0)
      case Err(e) => Err(e)
      case Ok(reached) =>
        match fs.lstat(reached.path)
        case Err(e) => Err(e)
        case Ok(stats) => Ok(Found(Spelled(fs, mod, reached.path), stats))
  }

  /** The spelling the volume stores, unless it names a share. */
  function Spelled(fs: Fs, mod: Module, path: Path): string {
    var stored := fs.realpath(path);
    if stored.None? || IsUncOrDevicePath(stored.value) then mod.text(path) else stored.value
  }

  /** `path` has been looked at and is no link. */
  ghost predicate KnownEntry(fs: Fs, calls: seq<Call>, path: Path) {
    Lstat(path) in calls && fs.lstat(path).Ok? && fs.lstat(path).value.Entry?
  }

  /** Every name above `path`'s last has been looked at and is no link. */
  ghost predicate ParentKnown(fs: Fs, calls: seq<Call>, path: Path) {
    forall n :: 0 < n < |path.names| ==> KnownEntry(fs, calls, Path(path.root, path.names[..n]))
  }

  /**
   * Each call is made only once every proper prefix of its path is known to be no link; a link is read
   * only once seen to be one; `realpath` is run only on a path with no link on it; and nothing follows
   * the reading of a link to another machine.
   */
  ghost predicate Careful(fs: Fs, calls: seq<Call>) {
    forall k :: 0 <= k < |calls| ==>
      && ParentKnown(fs, calls[..k], calls[k].path)
      && (calls[k].Readlink? ==> Lstat(calls[k].path) in calls[..k] && fs.lstat(calls[k].path) == Ok(Link))
      && (calls[k].Realpath? ==> LinkFree(fs, calls[k].path))
      && (calls[k].Readlink? && Foreign(fs, calls[k].path) ==> k == |calls| - 1)
  }

  /** A link whose target is another machine's, or a device's. */
  ghost predicate Foreign(fs: Fs, link: Path) {
    fs.readlink(link).Ok? && IsUncOrDevicePath(fs.readlink(link).value)
  }

  /** Where a path the walk visits comes from: the input, or a link's local target. */
  ghost predicate Rooted(fs: Fs, mod: Module, root: Path, input: string, path: Path) {
    || path.root == mod.resolve(root, input).root
    || exists dir, link :: fs.readlink(link).Ok? && !IsUncOrDevicePath(fs.readlink(link).value) && path.root == mod.resolve(dir, fs.readlink(link).value).root
  }

  lemma CarefulMore(fs: Fs, calls: seq<Call>, c: Call)
    requires Careful(fs, calls) && ParentKnown(fs, calls, c.path)
    requires c.Readlink? ==> Lstat(c.path) in calls && fs.lstat(c.path) == Ok(Link)
    requires c.Realpath? ==> LinkFree(fs, c.path)
    requires forall k :: 0 <= k < |calls| && calls[k].Readlink? ==> !Foreign(fs, calls[k].path)
    ensures Careful(fs, calls + [c])
  {
    var more := calls + [c];
    forall k | 0 <= k < |more|
      ensures ParentKnown(fs, more[..k], more[k].path)
      ensures more[k].Readlink? ==> Lstat(more[k].path) in more[..k] && fs.lstat(more[k].path) == Ok(Link)
      ensures more[k].Realpath? ==> LinkFree(fs, more[k].path)
      ensures more[k].Readlink? && Foreign(fs, more[k].path) ==> k == |more| - 1
    {
      if k < |calls| { assert more[..k] == calls[..k]; } else { assert more[..k] == calls; }
    }
  }

  /**
   * Where the walk stands: `current` all known, and every call so far careful, local and followed by nothing
   * foreign.
   */
  ghost predicate Trail(fs: Fs, mod: Module, root: Path, input: string, calls: seq<Call>, current: Path) {
    && (forall n :: 0 < n <= |current.names| ==> KnownEntry(fs, calls, Path(current.root, current.names[..n])))
    && Careful(fs, calls)
    && (forall k :: 0 <= k < |calls| && calls[k].Readlink? ==> !Foreign(fs, calls[k].path))
    && Rooted(fs, mod, root, input, current)
    && AllRooted(fs, mod, root, input, calls)
  }

  ghost predicate AllRooted(fs: Fs, mod: Module, root: Path, input: string, calls: seq<Call>) {
    forall k :: 0 <= k < |calls| ==> Rooted(fs, mod, root, input, calls[k].path)
  }

  lemma LookedAt(fs: Fs, mod: Module, root: Path, input: string, calls: seq<Call>, current: Path, name: string)
    requires Trail(fs, mod, root, input, calls, current)
    ensures Trail(fs, mod, root, input, calls + [Lstat(Join(current, name))], current)
    ensures fs.lstat(Join(current, name)).Ok? && fs.lstat(Join(current, name)).value.Entry? ==>
              Trail(fs, mod, root, input, calls + [Lstat(Join(current, name))], Join(current, name))
  {
    var next := Join(current, name);
    ParentOfJoin(fs, calls, current, name);
    CarefulMore(fs, calls, Lstat(next));
    forall n | 0 < n <= |next.names|
      ensures n <= |current.names| ==> next.names[..n] == current.names[..n]
      ensures n == |next.names| ==> next.names[..n] == next.names
    {
    }
  }

  lemma LinkRead(fs: Fs, mod: Module, root: Path, input: string, calls: seq<Call>, current: Path, name: string)
    requires Trail(fs, mod, root, input, calls, current)
    requires Lstat(Join(current, name)) in calls && fs.lstat(Join(current, name)) == Ok(Link)
    ensures Careful(fs, calls + [Readlink(Join(current, name))])
    ensures AllRooted(fs, mod, root, input, calls + [Readlink(Join(current, name))])
    ensures var target := fs.readlink(Join(current, name));
            target.Ok? && !IsUncOrDevicePath(target.value) ==>
              Trail(fs, mod, root, input, calls + [Readlink(Join(current, name))],
                  Path(mod.resolve(current, target.value).root, []))
  {
    ParentOfJoin(fs, calls, current, name);
    CarefulMore(fs, calls, Readlink(Join(current, name)));
  }

  lemma Ended(fs: Fs, mod: Module, root: Path, input: string, calls: seq<Call>, current: Path, c: Call)
    requires Trail(fs, mod, root, input, calls, current) && (c == Lstat(current) || c == Realpath(current))
    ensures Trail(fs, mod, root, input, calls + [c], current)
  {
    CarefulMore(fs, calls, c);
  }

  lemma ParentOfJoin(fs: Fs, calls: seq<Call>, dir: Path, name: string)
    requires forall n :: 0 < n <= |dir.names| ==> KnownEntry(fs, calls, Path(dir.root, dir.names[..n]))
    ensures ParentKnown(fs, calls, Join(dir, name))
  {
    forall n | 0 < n < |Join(dir, name).names|
        ensures KnownEntry(fs, calls, Path(dir.root, Join(dir, name).names[..n])) {
      assert Join(dir, name).names[..n] == dir.names[..n];
    }
  }

  /**
   * The walk: names still to enter are kept in a list a link's target is put in front of. It answers
   * exactly what resolving prefix by prefix does, and its calls are careful.
   */
  method WalkLocal(fs: Fs, mod: Module, root: Path, input: string) returns (r: Result<Found, Error>, calls: seq<Call>)
    ensures r == Resolved(fs, mod, root, input)
    ensures Careful(fs, calls)
    ensures AllRooted(fs, mod, root, input, calls)
  {
    calls := [];
    if !mod.isAbsolute(input) || IsUncOrDevicePath(input) {
      return Err(NonLocal), calls;
    }
    var start := mod.resolve(root, input);
    var current := Path(start.root, []);
    var pending := start.names;
    var stats: Option<Stats> := None;
    var links := 0;
    AlongIsCanonical(fs, mod, start, 0);
    while pending != []
      invariant links <= MAX_LINKS
      invariant Along(fs, mod, current, pending, links) == Canonical(fs, mod, start, 0)
      invariant stats.Some? ==> fs.lstat(current) == Ok(stats.value)
      invariant Trail(fs, mod, root, input, calls, current)
      decreases MAX_LINKS - links, |pending|
    {
      var next := Join(current, pending[0]);
      var rest := pending[1..];
      LookedAt(fs, mod, root, input, calls, current, pending[0]);
      calls := calls + [Lstat(next)];
      var entry := fs.lstat(next);
      if entry.Err? {
        return Err(entry.error), calls;
      }
      if entry.value.Entry? {
        current := next;
        stats := Some(entry.value);
        pending := rest;
        continue;
      }
      links := links + 1;
      if links > MAX_LINKS {
        return Err(TooManyLinks), calls;
      }
      LinkRead(fs, mod, root, input, calls, current, pending[0]);
      calls := calls + [Readlink(next)];
      var target := fs.readlink(next);
      if target.Err? {
        return Err(target.error), calls;
      }
      if IsUncOrDevicePath(target.value) {
        return Err(NonLocal), calls;
      }
      var resolved := mod.resolve(current, target.value);
      AlongIsCanonical(fs, mod, resolved, links);
      AlongThen(fs, mod, Path(resolved.root, []), resolved.names, rest, links);
      current := Path(resolved.root, []);
      pending := resolved.names + rest;
      stats := None;
    }
    if stats.None? {
      Ended(fs, mod, root, input, calls, current, Lstat(current));
      calls := calls + [Lstat(current)];
      var last := fs.lstat(current);
      if last.Err? {
        return Err(last.error), calls;
      }
      stats := Some(last.value);
    }
    Ended(fs, mod, root, input, calls, current, Realpath(current));
    calls := calls + [Realpath(current)];
    return Ok(Found(Spelled(fs, mod, current), stats.value)), calls;
  }

  // --- Names and their text -----------------------------------------------------------------------

  function NonEmpty(parts: seq<string>): seq<string> {
    if parts == [] then [] else (if parts[0] == [] then [] else [parts[0]]) + NonEmpty(parts[1..])
  }

  /** The names of an absolute path's text below its root. */
  function Components(absolute: string, root: string, sep: char): seq<string>
    requires |root| <= |absolute|
  {
    NonEmpty(Splitting.Split(absolute[|root|..], sep))
  }

  /** A name as a path holds it: not empty, and with no separator in it. */
  predicate IsName(name: string, sep: char) {
    name != [] && sep !in name
  }

  lemma {:induction false} NamesNonEmpty(names: seq<string>)
    requires forall k :: 0 <= k < |names| ==> names[k] != []
    ensures NonEmpty(names) == names
    decreases |names|
  {
    if names != [] { NamesNonEmpty(names[1..]); }
  }

  /** A path's names come back from its text: walking names loses nothing of walking texts. */
  lemma ComponentsOfText(root: string, names: seq<string>, sep: char)
    requires forall k :: 0 <= k < |names| ==> IsName(names[k], sep)
    ensures Components(root + Splitting.Join(names, sep), root, sep) == names
  {
    assert (root + Splitting.Join(names, sep))[|root|..] == Splitting.Join(names, sep);
    if names == [] {
      var none: seq<string> := [""];
      assert none[1..] == [];
      assert NonEmpty(none) == NonEmpty(none[1..]);
    }
    if names != [] {
      Splitting.SplitJoin(names, sep);
      NamesNonEmpty(names);
    }
  }
}
