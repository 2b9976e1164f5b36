/**
 * Replacing an opened file: read and checked, a sibling written, checked again, then moved over it, while
 * others write the same files, point the path elsewhere, and any call may fail. What a read answers, what
 * the move puts aside and what a failure leaves are proved of the files as they were.
 */
module EditableFile {
  import opened Wrappers

  /** A file: the time it last changed, later with every write, and its bytes, which stand for their hash. */
  datatype Node = Node(stamp: nat, bytes: seq<Byte>)

  /** The file the path names, if any, and every file by its identity. */
  datatype Files = Files(path: Option<nat>, nodes: map<nat, Node>, clock: nat)

  /** Another's write to a file, whatever names it, a file it makes, or its change of what the path names. */
  datatype Outside = Write(id: nat, bytes: seq<Byte>) | Make(bytes: seq<Byte>) | Point(path: Option<nat>)

  /** How far the native replacement got before it returned or failed. */
  datatype Moved = Nothing | Aside | All

  /** What others do before a call, whether it fails, how far a read falls short, and how far a replacement gets. */
  datatype Turn = Turn(outside: seq<Outside>, fails: bool, short: nat, moved: Moved)

  datatype Error = CallFailed | Missing | TooLarge | ChangedWhileReading | Stale | ChangedOnDisk | Unconfirmed

  /** A file read: which one, when it had last changed, and its bytes. */
  datatype Found = Found(id: nat, stamp: nat, bytes: seq<Byte>)

  predicate Holds(f: Files, found: Found) {
    found.id in f.nodes && f.nodes[found.id] == Node(found.stamp, found.bytes)
  }

  /** Whether the path names that very file, as it was read. */
  predicate Names(f: Files, found: Found) {
    f.path == Some(found.id) && Holds(f, found)
  }

  /** Whether the path names a file with these bytes. */
  predicate PathHolds(f: Files, bytes: seq<Byte>) {
    f.path.Some? && f.path.value in f.nodes && f.nodes[f.path.value].bytes == bytes
  }

  predicate GoodFiles(f: Files) {
    (f.path.Some? ==> f.path.value in f.nodes) && forall id :: id in f.nodes ==>
        id <= f.clock && f.nodes[id].stamp <= f.clock
  }

  /** What reading the path answers with no one else about. */
  function Reading(f: Files, limit: nat): Result<Found, Error> {
    if f.path.None? || f.path.value !in f.nodes then Err(Missing)
    else
      var node := f.nodes[f.path.value];
      if |node.bytes| > limit then Err(TooLarge) else Ok(Found(f.path.value, node.stamp, node.bytes))
  }

  /** Every file of `a` is in `b` as it was. */
  predicate Apart(a: Files, b: Files) {
    forall id :: id in a.nodes ==> id in b.nodes && b.nodes[id] == a.nodes[id]
  }

  function Written(f: Files, id: nat, bytes: seq<Byte>): Files {
    f.(nodes := f.nodes[id := Node(f.clock + 1, bytes)], clock := f.clock + 1)
  }

  function Done(f: Files, o: Outside): Files {
    match o
    case Write(id, bytes) => if id in f.nodes then Written(f, id, bytes) else f
    case Make(bytes) => Written(f, f.clock + 1, bytes)
    case Point(path) => if path.Some? && path.value !in f.nodes then f else f.(path := path)
  }

  // --- Time ---------------------------------------------------------------------------------------------

  /** No file goes, and one whose time has not moved has not changed. */
  predicate Grown(a: Files, b: Files) {
    forall id :: id in a.nodes ==>
      id in b.nodes && a.nodes[id].stamp <= b.nodes[id].stamp
          && (a.nodes[id].stamp == b.nodes[id].stamp ==> a.nodes[id] == b.nodes[id])
  }

  ghost predicate Running(seen: seq<Files>) {
    && |seen| > 0 && (forall u :: 0 <= u < |seen| ==> GoodFiles(seen[u]))
    && forall u :: 0 <= u < |seen| - 1 ==> Grown(seen[u], seen[u + 1])
  }

  lemma {:induction false} GrownOver(seen: seq<Files>, u: nat, v: nat)
    requires Running(seen) && u <= v < |seen|
    ensures Grown(seen[u], seen[v])
    decreases v - u
  {
    if u < v {
      GrownOver(seen, u, v - 1);
      assert Grown(seen[v - 1], seen[v - 1 + 1]);
    }
  }

  /** A file whose time is the same at two moments was the same at every one between. */
  lemma SameBetween(seen: seq<Files>, u: nat, v: nat, found: Found)
    requires Running(seen) && u <= v < |seen| && Holds(seen[u], found)
    requires found.id in seen[v].nodes && seen[v].nodes[found.id].stamp == found.stamp
    ensures forall w :: u <= w <= v ==> Holds(seen[w], found)
  {
    forall w | u <= w <= v ensures Holds(seen[w], found) {
      GrownOver(seen, u, w);
      GrownOver(seen, w, v);
    }
  }

  lemma StepRuns(seen: seq<Files>, next: Files)
    requires Running(seen) && GoodFiles(next) && Grown(seen[|seen| - 1], next)
    ensures Running(seen + [next])
  {
  }

  lemma OutsideGrows(f: Files, o: Outside)
    requires GoodFiles(f)
    ensures GoodFiles(Done(f, o)) && Grown(f, Done(f, o))
  {
  }

  /** `more` is what `seen` has become. */
  predicate Extends(seen: seq<Files>, more: seq<Files>)
    ensures Extends(seen, more) ==> |seen| <= |more|
  {
    |seen| <= |more| && more[..|seen|] == seen
  }

  lemma ExtendsOn(a: seq<Files>, b: seq<Files>, c: seq<Files>)
    requires Extends(a, b) && Extends(b, c)
    ensures Extends(a, c)
  {
    assert c[..|a|] == c[..|b|][..|a|];
  }

  lemma StillSeen(a: seq<Files>, b: seq<Files>, u: nat)
    requires Extends(a, b) && u < |a|
    ensures b[u] == a[u]
  {
    assert b[u] == b[..|a|][u];
  }

  /** Each byte read, at the moment it was read. */
  ghost predicate TakenFrom(seen: seq<Files>, from: nat, id: nat, bytes: seq<Byte>, taken: seq<nat>) {
    |taken| == |bytes| && forall k :: 0 <= k < |bytes| ==> TakenAt(seen, from, id, bytes[k], k, taken[k])
  }

  ghost predicate TakenAt(seen: seq<Files>, from: nat, id: nat, b: Byte, k: nat, u: nat) {
    from <= u < |seen| && id in seen[u].nodes && k < |seen[u].nodes[id].bytes| && seen[u].nodes[id].bytes[k] == b
  }

  lemma TakenStill(seen: seq<Files>, more: seq<Files>, from: nat, id: nat, bytes: seq<Byte>, taken: seq<nat>)
    requires Extends(seen, more) && TakenFrom(seen, from, id, bytes, taken)
    ensures TakenFrom(more, from, id, bytes, taken)
  {
    forall k | 0 <= k < |bytes| ensures TakenAt(more, from, id, bytes[k], k, taken[k]) {
      assert TakenAt(seen, from, id, bytes[k], k, taken[k]);
      StillSeen(seen, more, taken[k]);
    }
  }

  function Moments(n: nat, u: nat): seq<nat> {
    seq(n, _ => u)
  }

  /** More bytes, all taken now. */
  lemma TakenMore(seen: seq<Files>, from: nat, id: nat, bytes: seq<Byte>, taken: seq<nat>, got: nat)
    requires Running(seen) && from < |seen| && TakenFrom(seen, from, id, bytes, taken) && id in seen[|seen| - 1].nodes
    requires |bytes| + got <= |seen[|seen| - 1].nodes[id].bytes|
    ensures TakenFrom(seen, from, id, bytes + seen[|seen| - 1].nodes[id].bytes[|bytes|..|bytes| + got],
            taken + Moments(got, |seen| - 1))
  {
    var more := seen[|seen| - 1].nodes[id].bytes[|bytes|..|bytes| + got];
    var all, moments := bytes + more, taken + Moments(got, |seen| - 1);
    forall k | 0 <= k < |all| ensures TakenAt(seen, from, id, all[k], k, moments[k]) {
      if k < |bytes| { assert TakenAt(seen, from, id, bytes[k], k, taken[k]); }
    }
  }

  /** Bytes taken one by one from a file that kept its time are the bytes it had. */
  lemma TakenWhole(seen: seq<Files>, from: nat, found: Found, bytes: seq<Byte>, taken: seq<nat>)
    requires Running(seen) && from < |seen| && TakenFrom(seen, from, found.id, bytes, taken)
    requires Holds(seen[from], found) && |bytes| == |found.bytes|
    requires found.id in seen[|seen| - 1].nodes && seen[|seen| - 1].nodes[found.id].stamp == found.stamp
    ensures bytes == found.bytes
  {
    SameBetween(seen, from, |seen| - 1, found);
    forall k | 0 <= k < |bytes| ensures bytes[k] == found.bytes[k] {
      assert TakenAt(seen, from, found.id, bytes[k], k, taken[k]);
      assert Holds(seen[taken[k]], found);
    }
  }

  // --- The file and its editor ------------------------------------------------------------------------------

  class Document {
    var files: Files
    /** The two files a replacement makes beside the path, named at random: no one else's. */
    var temporary: Option<seq<Byte>>
    var backup: Option<seq<Byte>>
    var coming: seq<Turn>
    /** Every state of the files, and how often this side moved the path. */
    ghost var seen: seq<Files>
    ghost var moves: nat

    ghost predicate Valid()
      reads this
    {
      |seen| > 0 && Running(seen) && seen[|seen| - 1] == files
    }

    constructor (files: Files, coming: seq<Turn>)
      requires GoodFiles(files)
      ensures Valid() && this.files == files && this.coming == coming && temporary.None? && backup.None?
    {
      this.files, this.coming, temporary, backup := files, coming, None, None;
      seen, moves := [files], 0;
    }

    /** Nothing more is to come between the calls, and the files are as they were. */
    predicate Still(was: Files)
      reads this
    {
      coming == [] && files == was
    }

    /** Others' writes until a call. */
    method Await() returns (turn: Turn)
      requires Valid()
      modifies this`files, this`coming, this`seen
      ensures Valid() && Extends(old(seen), seen)
      ensures old(coming) == [] ==> Still(old(files)) && turn == Turn([], false, 0, All)
    {
      turn := Turn([], false, 0, All);
      if coming != [] {
        turn := coming[0];
        coming := coming[1..];
        for k := 0 to |turn.outside|
          invariant Valid() && Extends(old(seen), seen)
        {
          hide Grown, GoodFiles;
          OutsideGrows(files, turn.outside[k]);
          StepRuns(seen, Done(files, turn.outside[k]));
          files := Done(files, turn.outside[k]);
          seen := seen + [files];
        }
      }
    }

    /** The first `size + 1` bytes of a file, each as it was when its read came; fewer only at its end. */
    method ReadUpTo(id: nat, size: nat) returns (failed: bool, bytes: seq<Byte>, ghost taken: seq<nat>)
      requires Valid() && id in files.nodes
      modifies this`files, this`coming, this`seen
      ensures Valid() && Extends(old(seen), seen) && id in files.nodes
      ensures !failed ==> |bytes| <= size + 1 && TakenFrom(seen, |old(seen)| - 1, id, bytes, taken)
      ensures !failed && |bytes| <= size ==> |files.nodes[id].bytes| <= |bytes|
      ensures old(coming) == [] ==>
                Still(old(files)) && !failed && bytes == files.nodes[id].bytes[..Min(size + 1, |files.nodes[id].bytes|)]
    {
      hide Extends, TakenFrom, Running, Grown, GoodFiles;
      ghost var from := |old(seen)| - 1;
      NothingTaken(seen, from, id);
      ExtendsItself(seen);
      var buffer := new Byte[size + 1];
      var length := 0;
      taken := [];
      while length < buffer.Length
        invariant 0 <= length <= buffer.Length == size + 1
        invariant Valid() && Extends(old(seen), seen) && id in files.nodes
        invariant TakenFrom(seen, from, id, buffer[..length], taken)
        invariant old(coming) == [] ==> Still(old(files)) && buffer[..length] <= files.nodes[id].bytes
      {
        ghost var before := seen;
        var turn := Await();
        ExtendsOn(old(seen), before, seen);
        TakenStill(before, seen, from, id, buffer[..length], taken);
        StillThere(before, seen, id);
        if turn.fails {
          return true, [], taken;
        }
        var content := files.nodes[id].bytes;
        if |content| <= length {
          return false, buffer[..length], taken;
        }
        var available := Min(buffer.Length - length, |content| - length);
        var got := available - Min(turn.short, available - 1);
        TakenMore(seen, from, id, buffer[..length], taken, got);
        ghost var read := buffer[..length];
        CopyInto(buffer, length, content, got);
        ghost var now: nat := |seen| - 1;
        taken := taken + Moments(got, now);
        PrefixMore(read, content, got);
        length := length + got;
      }
      return false, buffer[..length], taken;
    }

    /** The path's file, read whole as it was at every moment from its opening on. */
    method Read(limit: nat) returns (r: Result<Found, Error>, ghost begun: nat)
      requires Valid()
      modifies this`files, this`coming, this`seen
      ensures Valid() && Extends(old(seen), seen)
      ensures r.Ok? ==>
                && |r.value.bytes| <= limit && |old(seen)| - 1 <= begun < |seen| && Names(seen[begun], r.value)
                && forall w :: begun <= w < |seen| ==> Holds(seen[w], r.value)
      ensures r.Err? ==> r.error != Unconfirmed
      ensures old(coming) == [] ==> Still(old(files)) && r == Reading(files, limit)
    {
      hide Extends, Running, TakenFrom, GoodFiles;
      var turn := Await();
      ghost var one := seen;
      begun := |seen| - 1;
      if turn.fails {
        return Err(CallFailed), begun;
      }
      if files.path.None? {
        return Err(Missing), begun;
      }
      var id := files.path.value;
      PathNamed(seen);
      var stat := files.nodes[id];
      var size := |stat.bytes|;
      if size > limit {
        return Err(TooLarge), begun;
      }
      var failed, bytes, taken := ReadUpTo(id, size);
      ghost var two := seen;
      ExtendsOn(old(seen), one, two);
      if failed {
        return Err(CallFailed), begun;
      }
      turn := Await();
      ExtendsOn(one, two, seen);
      ExtendsOn(old(seen), two, seen);
      StillThere(two, seen, id);
      if turn.fails {
        return Err(CallFailed), begun;
      }
      var after := files.nodes[id];
      if |bytes| != size || |after.bytes| != size || after.stamp != stat.stamp {
        return Err(ChangedWhileReading), begun;
      }
      StillSeen(one, seen, begun);
      TakenStill(two, seen, begun, id, bytes, taken);
      TakenWhole(seen, begun, Found(id, stat.stamp, stat.bytes), bytes, taken);
      SameBetween(seen, begun, |seen| - 1, Found(id, stat.stamp, stat.bytes));
      return Ok(Found(id, stat.stamp, bytes)), begun;
    }

    /** Removes what a replacement left beside the path, each removal failing or not. */
    method CleanUp()
      requires Valid()
      modifies this`files, this`coming, this`seen, this`temporary, this`backup
      ensures Valid() && Extends(old(seen), seen)
      ensures (temporary.None? || temporary == old(temporary)) && (backup.None? || backup == old(backup))
      ensures old(coming) == [] ==> Still(old(files)) && temporary.None? && backup.None?
    {
      hide Extends, Running;
      var turn := Await();
      ghost var one := seen;
      if !turn.fails {
        temporary := None;
      }
      turn := Await();
      ExtendsOn(old(seen), one, seen);
      if !turn.fails {
        backup := None;
      }
    }

    /** The native replacement, however far it gets; `late` is the moment it takes effect. */
    method Move() returns (done: bool, ghost late: nat)
      requires Valid() && temporary.Some? && backup.None?
      modifies this
      ensures Valid() && Extends(old(seen), seen) && |old(seen)| - 1 <= late < |seen|
      ensures done ==> moves == old(moves) + 1 && late + 1 < |seen| && PathHolds(seen[late + 1], old(temporary).value)
      ensures temporary == old(temporary) || PathHolds(files, old(temporary).value)
      ensures moves == old(moves) || (moves == old(moves) + 1 && late + 1 < |seen|)
      ensures moves != old(moves) ==> seen[late].path.Some? && seen[late].path.value in seen[late].nodes
      ensures moves != old(moves) ==> backup == Some(seen[late].nodes[seen[late].path.value].bytes)
      ensures old(coming) == [] && old(files).path.Some? ==>
                done && coming == [] && PathHolds(files, old(temporary).value) && Apart(old(files), files)
    {
      hide Extends, Running;
      var turn := Await();
      late := |seen| - 1;
      if files.path.None? || turn.moved == Nothing {
        return false, late;
      }
      PathNamed(seen);
      moves := moves + 1;
      backup := Some(files.nodes[files.path.value].bytes);
      ghost var one := seen;
      var next: Files;
      if turn.moved == Aside {
        next := files.(path := None);
        AsideGrows(seen);
      } else {
        next := Written(files, files.clock + 1, temporary.value).(path := Some(files.clock + 1));
        AllGrows(seen, temporary.value);
        AllApart(seen, temporary.value);
        temporary := None;
      }
      files := next;
      seen := seen + [next];
      OneMoreExtends(one, next);
      ExtendsOn(old(seen), one, seen);
      done := turn.moved == All && !turn.fails;
    }

    /** A sibling holding `bytes`, made while the path still names the file read. */
    method WriteSibling(current: Found, bytes: seq<Byte>) returns (failed: Option<Error>)
      requires Valid() && temporary.None? && backup.None?
      modifies this`files, this`coming, this`seen, this`temporary, this`backup
      ensures Valid() && Extends(old(seen), seen) && backup.None?
      ensures failed.None? ==> temporary == Some(bytes)
      ensures failed.Some? ==> failed.value != Unconfirmed
      ensures old(coming) == [] ==> Still(old(files)) && (failed.None? <==> files.path == Some(current.id))
    {
      hide Extends, Running;
      var turn := Await();
      ghost var one := seen;
      if turn.fails || files.path != Some(current.id) {
        return Some(ChangedOnDisk);
      }
      turn := Await();
      ghost var two := seen;
      ExtendsOn(old(seen), one, two);
      if turn.fails {
        return Some(CallFailed);
      }
      temporary := Some([]);
      turn := Await();
      ghost var three := seen;
      ExtendsOn(old(seen), two, three);
      if turn.fails {
        CleanUp();
        ExtendsOn(old(seen), three, seen);
        return Some(CallFailed);
      }
      temporary := Some(bytes);
      return None;
    }

    /** The path read again, and refused unless it is the very file read before. */
    method Recheck(current: Found, limit: nat) returns (failed: Option<Error>, ghost checked: nat)
      requires Valid() && backup.None?
      modifies this`files, this`coming, this`seen, this`temporary, this`backup
      ensures Valid() && Extends(old(seen), seen) && backup.None?
      ensures failed.None? ==>
                temporary == old(temporary) && |old(seen)| - 1 <= checked < |seen| && Names(seen[checked], current)
      ensures failed.Some? ==> failed.value != Unconfirmed
      ensures old(coming) == [] ==> Still(old(files)) && (failed.None? <==> Reading(files, limit) == Ok(current))
    {
      hide Extends, Running, Holds;
      var latest;
      latest, checked := Read(limit);
      ghost var one := seen;
      if latest.Err? || latest.value != current {
        CleanUp();
        ExtendsOn(old(seen), one, seen);
        return Some(if latest.Err? then latest.error else ChangedOnDisk), checked;
      }
      return None, checked;
    }

    /** The files are as they were, and nothing is beside the path. */
    predicate Left(was: Files)
      reads this
    {
      files == was && temporary.None? && backup.None?
    }

    /** The file read, its replacement written beside the path, and the path rechecked. */
    method Prepare(version: seq<Byte>, limit: nat, encode: seq<Byte> -> seq<Byte>)
        returns (failed: Option<Error>, bytes: seq<Byte>, ghost current: Found, ghost read: nat, ghost checked: nat)
      requires Valid() && temporary.None? && backup.None?
      modifies this`files, this`coming, this`seen, this`temporary, this`backup
      ensures Valid() && Extends(old(seen), seen)
      ensures failed.None? ==>
                && bytes == encode(version) && temporary == Some(bytes) && backup.None?
                && |old(seen)| - 1 <= read <= checked < |seen| && current.bytes == version
                && Names(seen[read], current) && Names(seen[checked], current)
                && forall w :: read <= w <= checked ==> Holds(seen[w], current)
      ensures failed.Some? ==> failed.value != Unconfirmed
      ensures old(coming) == [] ==>
                && Still(old(files)) && backup.None? && (failed.Some? ==> temporary.None?)
                && match Reading(old(files), limit)
                   case Err(e) => failed == Some(e)
                   case Ok(found) =>
                     failed == if found.bytes != version then Some(Stale)
                               else if |encode(version)| > limit then Some(TooLarge)
                               else None
    {
      hide Extends, Running, Holds, Reading;
      current, checked, bytes := Found(0, 0, []), 0, [];
      var found;
      found, read := Read(limit);
      ghost var one := seen;
      if found.Err? {
        return Some(found.error), bytes, current, read, checked;
      }
      current := found.value;
      ReadNames(files, limit);
      if found.value.bytes != version {
        return Some(Stale), bytes, current, read, checked;
      }
      bytes := encode(found.value.bytes);
      if |bytes| > limit {
        return Some(TooLarge), bytes, current, read, checked;
      }
      failed := WriteSibling(found.value, bytes);
      ghost var two := seen;
      ExtendsOn(old(seen), one, two);
      if failed.Some? {
        return failed, bytes, current, read, checked;
      }
      failed, checked := Recheck(found.value, limit);
      ExtendsOn(one, two, seen);
      ExtendsOn(old(seen), two, seen);
      if failed.None? {
        StillSeen(one, seen, read);
        NamedSame(seen, read, checked, current);
      }
    }

    /**
     * Replaces the file with `encode` of its bytes while they are `version`. The path is moved only once it
     * was read and rechecked to name one file, of bytes `version`, that no one wrote in between; and what
     * others wrote to the path after that moment only, `late`, is put aside unread. Only an unconfirmed
     * failure, or success, follows a move; such a failure leaves the new bytes at the path or in the
     * temporary file, and the bytes moved aside in the backup. With no one else about it succeeds whenever the
     * path holds `version` and both it and what replaces it are within the limit.
     */
    method Replace(version: seq<Byte>, limit: nat, encode: seq<Byte> -> seq<Byte>)
      returns (r: Result<seq<Byte>, Error>, ghost current: Found, ghost read: nat, ghost checked: nat, ghost late: nat)
      requires Valid() && temporary.None? && backup.None?
      modifies this
      ensures Valid() && Extends(old(seen), seen)
      ensures r.Ok? ==>
                r.value == encode(version) && moves == old(moves) + 1 && late + 1 < |seen|
                    && PathHolds(seen[late + 1], r.value)
      ensures r.Err? && r.error != Unconfirmed ==> moves == old(moves)
      ensures moves != old(moves) ==>
                && |old(seen)| - 1 <= read <= checked <= late < |seen| && current.bytes == version
                && Names(seen[read], current) && Names(seen[checked], current)
                && forall w :: read <= w <= checked ==> Holds(seen[w], current)
      ensures r.Err? && r.error == Unconfirmed ==>
                && (temporary == Some(encode(version)) || PathHolds(files, encode(version)))
                && (moves != old(moves) ==>
                      seen[late].path.Some? && seen[late].path.value in seen[late].nodes
                      && backup == Some(seen[late].nodes[seen[late].path.value].bytes))
      ensures r.Err? && r.error == Unconfirmed && moves != old(moves) && seen[late] == seen[checked] ==>
              backup == Some(version)
      ensures old(coming) == [] ==>
                match Reading(old(files), limit)
                case Err(e) => r == Err(e) && Left(old(files))
                case Ok(found) =>
                  if found.bytes != version then r == Err(Stale) && Left(old(files))
                  else if |encode(version)| > limit then r == Err(TooLarge) && Left(old(files))
                  else r == Ok(encode(version)) && PathHolds(files, encode(version)) && Apart(old(files), files)
                       && temporary.None? && backup.None?
    {
      hide Extends, Running, Holds, Reading, Apart;
      late := 0;
      var failed, bytes;
      failed, bytes, current, read, checked := Prepare(version, limit, encode);
      ReadNames(files, limit);
      ghost var three := seen;
      if failed.Some? {
        return Err(failed.value), current, read, checked, late;
      }
      var done;
      done, late := Move();
      ghost var four := seen;
      ExtendsOn(old(seen), three, four);
      KeptSeen(three, four, read, checked, current);
      NamedBytes(four[checked], current);
      if !done {
        return Err(Unconfirmed), current, read, checked, late;
      }
      CleanUp();
      ExtendsOn(old(seen), four, seen);
      KeptSeen(four, seen, read, checked, current);
      StillSeen(four, seen, late + 1);
      return Ok(bytes), current, read, checked, late;
    }
  }

  lemma ReadNames(f: Files, limit: nat)
    ensures Reading(f, limit).Ok? ==> f.path == Some(Reading(f, limit).value.id)
  {
  }

  /** The bytes from `at` on, into the same places of `buffer`. */
  method CopyInto(buffer: array<Byte>, at: nat, content: seq<Byte>, got: nat)
    requires at + got <= buffer.Length && at + got <= |content|
    modifies buffer
    ensures buffer[..at + got] == old(buffer[..at]) + content[at..at + got]
  {
    for k := 0 to got
      invariant buffer[..at] == old(buffer[..at]) && buffer[at..at + k] == content[at..at + k]
    {
      buffer[at + k] := content[at + k];
    }
  }

  lemma PrefixMore(read: seq<Byte>, content: seq<Byte>, got: nat)
    requires |read| + got <= |content|
    ensures read <= content ==> read + content[|read|..|read| + got] <= content
  {
  }

  /** A file just made is apart from those there were. */
  lemma AllApart(seen: seq<Files>, bytes: seq<Byte>)
    requires Running(seen)
    ensures var f := seen[|seen| - 1];
            Apart(f, Written(f, f.clock + 1, bytes).(path := Some(f.clock + 1)))
  {
    assert GoodFiles(seen[|seen| - 1]);
  }

  lemma ExtendsItself(seen: seq<Files>)
    ensures Extends(seen, seen)
  {
  }

  lemma OneMoreExtends(seen: seq<Files>, next: Files)
    ensures Extends(seen, seen + [next])
  {
  }

  lemma NothingTaken(seen: seq<Files>, from: nat, id: nat)
    ensures TakenFrom(seen, from, id, [], [])
  {
  }

  /** A file that is open stays, whatever becomes of its path. */
  lemma StillThere(a: seq<Files>, b: seq<Files>, id: nat)
    requires Running(b) && |a| > 0 && Extends(a, b) && id in a[|a| - 1].nodes
    ensures id in b[|b| - 1].nodes
  {
    StillSeen(a, b, |a| - 1);
    GrownOver(b, |a| - 1, |b| - 1);
  }

  lemma PathNamed(seen: seq<Files>)
    requires Running(seen) && seen[|seen| - 1].path.Some?
    ensures seen[|seen| - 1].path.value in seen[|seen| - 1].nodes
  {
    assert GoodFiles(seen[|seen| - 1]);
  }

  lemma AsideGrows(seen: seq<Files>)
    requires Running(seen)
    ensures Running(seen + [seen[|seen| - 1].(path := None)])
  {
    StepRuns(seen, seen[|seen| - 1].(path := None));
  }

  lemma AllGrows(seen: seq<Files>, bytes: seq<Byte>)
    requires Running(seen)
    ensures var id := seen[|seen| - 1].clock + 1;
            Running(seen + [Written(seen[|seen| - 1], id, bytes).(path := Some(id))])
  {
    var id := seen[|seen| - 1].clock + 1;
    StepRuns(seen, Written(seen[|seen| - 1], id, bytes).(path := Some(id)));
  }

  /** A file read and found again is the file it was at every moment between. */
  lemma NamedSame(seen: seq<Files>, read: nat, checked: nat, current: Found)
    requires Running(seen) && read <= checked < |seen| && Names(seen[read], current) && Names(seen[checked], current)
    ensures forall w :: read <= w <= checked ==> Holds(seen[w], current)
  {
    SameBetween(seen, read, checked, current);
  }

  lemma NamedBytes(f: Files, current: Found)
    requires Names(f, current)
    ensures f.path == Some(current.id) && current.id in f.nodes && f.nodes[current.id].bytes == current.bytes
  {
  }

  lemma KeptSeen(a: seq<Files>, b: seq<Files>, read: nat, checked: nat, current: Found)
    requires Extends(a, b) && read <= checked < |a| && Names(a[read], current) && Names(a[checked], current)
    requires forall w :: read <= w <= checked ==> Holds(a[w], current)
    ensures Names(b[read], current) && Names(b[checked], current) && forall w :: read <= w <= checked ==>
            Holds(b[w], current)
  {
    forall w | read <= w <= checked ensures Holds(b[w], current) {
      StillSeen(a, b, w);
    }
    StillSeen(a, b, read);
    StillSeen(a, b, checked);
  }
}
