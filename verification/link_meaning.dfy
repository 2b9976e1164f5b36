/**
 * What following a link is: the path rewritten, the link's name replaced by where its target leads from the
 * link's own directory. The walk answers what rewriting the first link again and again does, and under POSIX
 * path rules a path through a link answers as the path spelled with the target in its place.
 */
module LinkMeaning {
  import opened Wrappers
  import opened LocalPath
  import Splitting

  // --- Rewriting ----------------------------------------------------------------------------------------

  predicate IsEntry(fs: Fs, path: Path) {
    fs.lstat(path).Ok? && fs.lstat(path).value != Link
  }

  /** Two slashes of either kind first: a share or a device. */
  predicate Share(text: string) {
    |text| >= 2 && text[0] in {'/', '\\'} && text[1] in {'/', '\\'}
  }

  /** How many names from the root, `n` at least, are seen before the first that is missing or a link. */
  function Plain(fs: Fs, path: Path, n: nat): (r: nat)
    requires n <= |path.names|
    ensures n <= r <= |path.names|
    ensures forall m :: n < m <= r ==> IsEntry(fs, Path(path.root, path.names[..m]))
    ensures r < |path.names| ==>
              !IsEntry(fs, Path(path.root, path.names[..r + 1]))
    decreases |path.names| - n
  {
    if n == |path.names| then n
    else match fs.lstat(Path(path.root, path.names[..n + 1]))
      case Ok(Entry(_)) => Plain(fs, path, n + 1)
      case _ => n
  }

  /** `path` with its first link replaced by its target, until none is left or `budget` are spent. */
  function Rewritten(fs: Fs, mod: Module, path: Path, budget: nat): Result<Path, Error>
    decreases budget
  {
    var n := Plain(fs, path, 0);
    if n == |path.names| then Ok(path)
    else
      var link := Path(path.root, path.names[..n + 1]);
      match fs.lstat(link)
      case Err(e) => Err(e)
      case Ok(_) =>
        if budget == 0 then Err(TooManyLinks)
        else match fs.readlink(link)
          case Err(e) => Err(e)
          case Ok(t) =>
            if Share(t) then Err(NonLocal)
            else
              var led := mod.resolve(Path(path.root, path.names[..n]), t);
              Rewritten(fs, mod, Path(led.root, led.names + path.names[n + 1..]), budget - 1)
  }

  function PathOf(r: Result<Reached, Error>): Result<Path, Error> {
    match r
    case Err(e) => Err(e)
    case Ok(reached) => Ok(reached.path)
  }

  lemma {:induction false} AlongPlain(fs: Fs, mod: Module, path: Path, n: nat, links: nat)
    requires n <= Plain(fs, path, 0) && links <= MAX_LINKS
    ensures Along(fs, mod, Path(path.root, []), path.names, links)
            == Along(fs, mod, Path(path.root, path.names[..n]), path.names[n..], links)
    decreases n
  {
    if n == 0 {
      assert path.names[..0] == [] && path.names[0..] == path.names;
    } else {
      AlongPlain(fs, mod, path, n - 1, links);
      var dir := Path(path.root, path.names[..n - 1]);
      assert Join(dir, path.names[n - 1]) == Path(path.root, path.names[..n]);
      assert path.names[n - 1..][1..] == path.names[n..];
    }
  }

  lemma EnterStep(fs: Fs, mod: Module, dir: Path, names: seq<string>, links: nat)
    requires names != [] && links <= 40 && !IsEntry(fs, Join(dir, names[0]))
    ensures PathOf(Along(fs, mod, dir, names, links)) ==
            match fs.lstat(Join(dir, names[0]))
            case Err(e) => Err(e)
            case Ok(_) =>
              if links == 40 then Err(TooManyLinks)
              else match fs.readlink(Join(dir, names[0]))
                case Err(e) => Err(e)
                case Ok(t) =>
                  if Share(t) then Err(NonLocal)
                  else
                    var led := mod.resolve(dir, t);
                    PathOf(Along(fs, mod, Path(led.root, []), led.names + names[1..], links + 1))
  {
    var link := Join(dir, names[0]);
    if fs.lstat(link).Ok? && links < 40 && fs.readlink(link).Ok? && !Share(fs.readlink(link).value) {
      var led := mod.resolve(dir, fs.readlink(link).value);
      AlongThen(fs, mod, Path(led.root, []), led.names, names[1..], links + 1);
      AlongIsCanonical(fs, mod, led, links + 1);
    }
  }

  /** Entering a path's names from its root reaches what rewriting it does, with what is left of the links. */
  lemma {:induction false} AlongRewrites(fs: Fs, mod: Module, path: Path, links: nat)
    requires links <= 40
    ensures PathOf(Along(fs, mod, Path(path.root, []), path.names, links)) == Rewritten(fs, mod, path, 40 - links)
    decreases 40 - links
  {
    hide Canonical, Enter, Resolved;
    var n := Plain(fs, path, 0);
    AlongPlain(fs, mod, path, n, links);
    if n == |path.names| {
      assert path.names[n..] == [] && path.names[..n] == path.names;
    } else {
      hide Along;
      var dir := Path(path.root, path.names[..n]);
      var link := Join(dir, path.names[n]);
      assert link == Path(path.root, path.names[..n + 1]);
      assert path.names[n..][0] == path.names[n] && path.names[n..][1..] == path.names[n + 1..];
      EnterStep(fs, mod, dir, path.names[n..], links);
      if links < 40 && fs.readlink(link).Ok? {
        var led := mod.resolve(dir, fs.readlink(link).value);
        AlongRewrites(fs, mod, Path(led.root, led.names + path.names[n + 1..]), links + 1);
      }
      RewriteStep(fs, mod, path, 40 - links);
    }
  }

  /** One link rewritten. */
  lemma RewriteStep(fs: Fs, mod: Module, path: Path, budget: nat)
    requires Plain(fs, path, 0) < |path.names|
    ensures var n := Plain(fs, path, 0);
            var link := Path(path.root, path.names[..n + 1]);
            Rewritten(fs, mod, path, budget) ==
            match fs.lstat(link)
            case Err(e) => Err(e)
            case Ok(_) =>
              if budget == 0 then Err(TooManyLinks)
              else match fs.readlink(link)
                case Err(e) => Err(e)
                case Ok(t) =>
                  if Share(t) then Err(NonLocal)
                  else
                    var led := mod.resolve(Path(path.root, path.names[..n]), t);
                    Rewritten(fs, mod, Path(led.root, led.names + path.names[n + 1..]), budget - 1)
  {
  }

  /** What is answered of a link-free path: its own `lstat`, in the spelling the volume stores but a share's. */
  function Landed(fs: Fs, mod: Module, r: Result<Path, Error>): Result<Found, Error> {
    match r
    case Err(e) => Err(e)
    case Ok(path) =>
      match fs.lstat(path)
      case Err(e) => Err(e)
      case Ok(stats) =>
        var stored := fs.realpath(path);
        Ok(Found(if stored.Some? && !Share(stored.value) then stored.value else mod.text(path), stats))
  }

  /**
   * What the walk answers: a refusal of a relative, share or device path; else the path rewritten, forty links at
   * most.
   */
  lemma WalkRewrites(fs: Fs, mod: Module, root: Path, input: string)
    ensures Resolved(fs, mod, root, input) ==
            if !mod.isAbsolute(input) || Share(input) then Err(NonLocal)
            else Landed(fs, mod, Rewritten(fs, mod, mod.resolve(root, input), 40))
  {
    var start := mod.resolve(root, input);
    AlongIsCanonical(fs, mod, start, 0);
    AlongRewrites(fs, mod, start, 0);
  }

  /** A larger budget changes no answer but that of too many links. */
  lemma {:induction false} BudgetGrows(fs: Fs, mod: Module, path: Path, budget: nat)
    ensures Rewritten(fs, mod, path, budget) == Err(TooManyLinks)
            || Rewritten(fs, mod, path, budget + 1) == Rewritten(fs, mod, path, budget)
    decreases budget
  {
    var n := Plain(fs, path, 0);
    if n < |path.names| && budget > 0 {
      var link := Path(path.root, path.names[..n + 1]);
      if fs.lstat(link).Ok? && fs.readlink(link).Ok? {
        var t := fs.readlink(link).value;
        if !Share(t) {
          var led := mod.resolve(Path(path.root, path.names[..n]), t);
          BudgetGrows(fs, mod, Path(led.root, led.names + path.names[n + 1..]), budget - 1);
        }
      }
    }
  }

  lemma {:induction false} PlainUpTo(fs: Fs, path: Path, from: nat, n: nat)
    requires from <= n <= |path.names|
    requires forall m :: from < m <= n ==> IsEntry(fs, Path(path.root, path.names[..m]))
    requires n < |path.names| ==> fs.lstat(Path(path.root, path.names[..n + 1])) == Ok(Link)
    ensures Plain(fs, path, from) == n
    decreases n - from
  {
    if from < n {
      PlainUpTo(fs, path, from + 1, n);
    }
  }

  /** A path whose first link is at dir/name, rewritten once. */
  lemma RewrittenOnce(fs: Fs, mod: Module, dir: Path, name: string, rest: seq<string>, budget: nat)
    requires forall m :: 0 < m <= |dir.names| ==> IsEntry(fs, Path(dir.root, dir.names[..m]))
    requires fs.lstat(Join(dir, name)) == Ok(Link) && budget > 0
    requires fs.readlink(Join(dir, name)).Ok? && !Share(fs.readlink(Join(dir, name)).value)
    ensures var led := mod.resolve(dir, fs.readlink(Join(dir, name)).value);
            Rewritten(fs, mod, Path(dir.root, dir.names + [name] + rest), budget)
            == Rewritten(fs, mod, Path(led.root, led.names + rest), budget - 1)
  {
    var names := dir.names + [name] + rest;
    forall m | 0 < m <= |dir.names| ensures names[..m] == dir.names[..m] {}
    var n := |dir.names|;
    assert names[..n] == dir.names && names[..n + 1] == dir.names + [name] && names[n + 1..] == rest;
    PlainUpTo(fs, Path(dir.root, names), 0, n);
  }

  // --- POSIX --------------------------------------------------------------------------------------------

  /** `names` walked from `base` by text alone: '' and '.' stay, '..' goes up and at the root stays. */
  function Lexical(base: seq<string>, names: seq<string>): seq<string>
    decreases |names|
  {
    if names == [] then base
    else if names[0] == "" || names[0] == "." then Lexical(base, names[1..])
    else if names[0] == ".." then Lexical(if base == [] then [] else base[..|base| - 1], names[1..])
    else Lexical(base + [names[0]], names[1..])
  }

  predicate Absolute(text: string) {
    text != "" && text[0] == '/'
  }

  const POSIX: Module := Module(
    text => Absolute(text),
    (from: Path, text: string) =>
      Path("/", Lexical(if Absolute(text) then [] else from.names, Splitting.Split(text, '/'))),
    (path: Path) => "/" + Splitting.Join(path.names, '/'))

  /** A name a POSIX directory can hold. */
  predicate Name(name: string) {
    name != "" && name != "." && name != ".." && Splitting.Without(name, '/')
  }

  predicate Names(names: seq<string>) {
    forall k :: 0 <= k < |names| ==> Name(names[k])
  }

  lemma {:induction false} LexicalNames(base: seq<string>, names: seq<string>, rest: seq<string>)
    requires Names(names)
    ensures Lexical(base, names + rest) == Lexical(base + names, rest)
    decreases |names|
  {
    if names == [] {
      assert names + rest == rest && base + names == base;
    } else {
      assert (names + rest)[1..] == names[1..] + rest;
      assert base + [names[0]] + names[1..] == base + names;
      LexicalNames(base + [names[0]], names[1..], rest);
    }
  }

  function Ups(k: nat): (r: seq<string>)
    ensures |r| == k && forall i :: 0 <= i < k ==> r[i] == ".."
  {
    seq(k, i => "..")
  }

  lemma {:induction false} LexicalUps(base: seq<string>, k: nat, rest: seq<string>)
    ensures Lexical(base, Ups(k) + rest) == Lexical(if k <= |base| then base[..|base| - k] else [], rest)
    decreases k
  {
    if k == 0 {
      assert Ups(k) + rest == rest && base[..|base|] == base;
    } else {
      assert (Ups(k) + rest)[1..] == Ups(k - 1) + rest;
      var up := if base == [] then [] else base[..|base| - 1];
      LexicalUps(up, k - 1, rest);
      assert k <= |base| ==> up[..|up| - (k - 1)] == base[..|base| - k];
    }
  }

  lemma {:induction false} LexicalIsNames(base: seq<string>, names: seq<string>)
    requires Names(base) && Splitting.AllWithout(names, '/')
    ensures Names(Lexical(base, names))
    decreases |names|
  {
    if names != [] {
      assert Splitting.AllWithout(names[1..], '/');
      LexicalIsNames(if names[0] == "" || names[0] == "." then base
                     else if names[0] == ".." then if base == [] then [] else base[..|base| - 1]
                     else base + [names[0]], names[1..]);
    }
  }

  lemma {:induction false} SplitWithout(text: string, separator: char)
    ensures Splitting.AllWithout(Splitting.Split(text, separator), separator)
  {
    if text != "" {
      SplitWithout(text[1..], separator);
    }
  }

  /** The path of `names` spelled out resolves to them. */
  lemma SpelledBack(from: Path, names: seq<string>)
    requires Names(names)
    ensures POSIX.resolve(from, "/" + Splitting.Join(names, '/')) == Path("/", names)
  {
    var text := "/" + Splitting.Join(names, '/');
    assert text[1..] == Splitting.Join(names, '/');
    var parts := Splitting.Split(text[1..], '/');
    assert Splitting.Split(text, '/') == [""] + parts;
    assert ([""] + parts)[1..] == parts;
    if names == [] {
      assert parts == [""];
      assert parts[1..] == [];
      assert Lexical([], [""] + parts) == Lexical([], parts) == Lexical([], parts[1..]);
    } else {
      Splitting.SplitJoin(names, '/');
      assert names + [] == names && [] + names == names;
      LexicalNames([], names, []);
      assert Lexical([], names) == names;
      assert Lexical([], [""] + parts) == Lexical([], parts);
    }
  }

  lemma SpelledWalk(fs: Fs, root: Path, names: seq<string>)
    requires Names(names)
    ensures var text := "/" + Splitting.Join(names, '/');
            !Share(text) ==> Resolved(fs, POSIX, root, text) == Landed(fs, POSIX,
                Rewritten(fs, POSIX, Path("/", names), 40))
  {
    hide Landed, Rewritten, Resolved, Splitting.Join;
    SpelledBack(root, names);
    WalkRewrites(fs, POSIX, root, "/" + Splitting.Join(names, '/'));
  }

  /** A relative target up `k` directories and down `names`, from `dir`. */
  lemma RelativeTarget(dir: seq<string>, k: nat, names: seq<string>)
    requires Names(names) && k + |names| > 0
    ensures POSIX.resolve(Path("/", dir), Splitting.Join(Ups(k) + names, '/'))
            == Path("/", (if k <= |dir| then dir[..|dir| - k] else []) + names)
  {
    var parts := Ups(k) + names;
    assert Splitting.AllWithout(parts, '/') by {
      forall i | 0 <= i < |parts| ensures Splitting.Without(parts[i], '/') {
        assert i >= k ==> Name(names[i - k]);
      }
    }
    var target := Splitting.Join(parts, '/');
    assert target != "" && target[0] == parts[0][0] && parts[0][0] != '/' by {
      assert parts[0] != "" && Splitting.Without(parts[0], '/');
    }
    Splitting.SplitJoin(parts, '/');
    LexicalUps(dir, k, names);
    var up := if k <= |dir| then dir[..|dir| - k] else [];
    assert names + [] == names;
    LexicalNames(up, names, []);
  }

  /**
   * A link at dir/name whose target is `target`, no link above it: a path through it answers as the path with
   * dir/target in place of dir/name does, but where the one link more is one too many.
   */
  lemma LinkStandsForTarget(fs: Fs, root: Path, dir: seq<string>, name: string, rest: seq<string>, target: string)
    requires Names(dir) && Name(name) && Names(rest)
    requires forall m :: 0 < m <= |dir| ==> IsEntry(fs, Path("/", dir[..m]))
    requires fs.lstat(Path("/", dir + [name])) == Ok(Link) && fs.readlink(Path("/", dir + [name])) == Ok(target)
    requires !Share(target)
    ensures var through := "/" + Splitting.Join(dir + [name] + rest, '/');
            var led := Lexical(if target != "" && target[0] == '/' then [] else dir, Splitting.Split(target, '/'));
            var instead := "/" + Splitting.Join(led + rest, '/');
            Names(led) &&
            (!Share(through) && !Share(instead) ==>
               || Resolved(fs, POSIX, root, through) == Resolved(fs, POSIX, root, instead)
               || Resolved(fs, POSIX, root, through) == Err(TooManyLinks))
  {
    hide Lexical, Resolved, Rewritten, Splitting.Join, Splitting.Split;
    var names := dir + [name] + rest;
    var led := Lexical(if Absolute(target) then [] else dir, Splitting.Split(target, '/'));
    SplitWithout(target, '/');
    LexicalIsNames(if Absolute(target) then [] else dir, Splitting.Split(target, '/'));
    SpelledWalk(fs, root, names);
    SpelledWalk(fs, root, led + rest);
    assert POSIX.resolve(Path("/", dir), target) == Path("/", led);
    assert Join(Path("/", dir), name) == Path("/", dir + [name]);
    hide POSIX;
    RewrittenOnce(fs, POSIX, Path("/", dir), name, rest, 40);
    BudgetGrows(fs, POSIX, Path("/", led + rest), 39);
  }

  // --- A link to a path with no link on it --------------------------------------------------------------

  predicate LinkFreeNames(fs: Fs, names: seq<string>) {
    forall m :: 0 < m <= |names| ==> IsEntry(fs, Path("/", names[..m]))
  }

  lemma LinkLeads(fs: Fs, root: Path, dir: seq<string>, name: string, target: string, led: seq<string>)
    requires Names(dir) && Name(name) && LinkFreeNames(fs, dir) && LinkFreeNames(fs, led)
    requires fs.lstat(Path("/", dir + [name])) == Ok(Link) && fs.readlink(Path("/", dir + [name])) == Ok(target)
    requires !Share(target) && !Share("/" + Splitting.Join(dir + [name], '/'))
    requires POSIX.resolve(Path("/", dir), target) == Path("/", led)
    ensures Resolved(fs, POSIX, root, "/" + Splitting.Join(dir + [name], '/')) == Landed(fs, POSIX, Ok(Path("/", led)))
  {
    hide Resolved, Landed, Splitting.Join;
    SpelledWalk(fs, root, dir + [name]);
    assert Join(Path("/", dir), name) == Path("/", dir + [name]);
    hide POSIX;
    RewrittenOnce(fs, POSIX, Path("/", dir), name, [], 40);
    assert dir + [name] + [] == dir + [name] && led + [] == led;
    PlainUpTo(fs, Path("/", led), 0, |led|);
  }

  /** A link to "../" `k` times and `names`: it leads up `k` from its own directory, and down `names`. */
  lemma RelativeLink(fs: Fs, root: Path, dir: seq<string>, name: string, k: nat, names: seq<string>)
    requires Names(dir) && Name(name) && Names(names) && k + |names| > 0
    requires !Share("/" + Splitting.Join(dir + [name], '/')) && !Share(Splitting.Join(Ups(k) + names, '/'))
    requires fs.lstat(Path("/", dir + [name])) == Ok(Link)
    requires fs.readlink(Path("/", dir + [name])) == Ok(Splitting.Join(Ups(k) + names, '/'))
    requires LinkFreeNames(fs, dir) && LinkFreeNames(fs, (if k <= |dir| then dir[..|dir| - k] else []) + names)
    ensures Resolved(fs, POSIX, root, "/" + Splitting.Join(dir + [name], '/'))
            == Landed(fs, POSIX, Ok(Path("/", (if k <= |dir| then dir[..|dir| - k] else []) + names)))
  {
    RelativeTarget(dir, k, names);
    LinkLeads(fs, root, dir, name, Splitting.Join(Ups(k) + names, '/'),
      (if k <= |dir| then dir[..|dir| - k] else []) + names);
  }

  /** A link to an absolute path leads there, wherever the link is. */
  lemma AbsoluteLink(fs: Fs, root: Path, dir: seq<string>, name: string, names: seq<string>)
    requires Names(dir) && Name(name) && Names(names)
    requires !Share("/" + Splitting.Join(dir + [name], '/')) && !Share("/" + Splitting.Join(names, '/'))
    requires fs.lstat(Path("/", dir + [name])) == Ok(Link)
    requires fs.readlink(Path("/", dir + [name])) == Ok("/" + Splitting.Join(names, '/'))
    requires LinkFreeNames(fs, dir) && LinkFreeNames(fs, names)
    ensures Resolved(fs, POSIX, root, "/" + Splitting.Join(dir + [name], '/'))
            == Landed(fs, POSIX, Ok(Path("/", names)))
  {
    SpelledBack(Path("/", dir), names);
    LinkLeads(fs, root, dir, name, "/" + Splitting.Join(names, '/'), names);
  }
}
