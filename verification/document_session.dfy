/**
 * The editor's save protocol: pages that each hold one document, at most one load and one save of it
 * under way, and a server that replaces the file only while it is still the revision a save names.
 */
module DocumentModel {
  import opened Wrappers

  /** A file's bytes, which also stand for the hash that names the revision. */
  type File = seq<Byte>

  /** How a file reads as an editor's contents, and what saving contents over a file writes. */
  datatype Codec = Codec(decode: File -> Option<string>, encode: (File, string) -> File)

  datatype Failure = SaveFailed | ChangedWhileReloading | LoadFailed

  datatype Shown = Shown(loaded: bool, dirty: bool, saving: bool)

  /** A save under way: encoding its contents, sent, answered with the new revision or a failure, then noted. */
  datatype Saving = Encoding(content: string, mark: nat) | Sent(content: string, mark: nat, over: Option<File>)
    | Answered(mark: nat, over: Option<File>, written: Option<File>) | Landed

  datatype Before = Before(mark: nat, version: Option<File>)

  datatype Contents = Contents(content: string, version: File)

  /** A load under way: asking to discard edits, reading, answered, then noted. */
  datatype Loading = Asking | Reading(before: Option<Before>) | Answer(before: Option<Before>, read: Option<Contents>)
    | Ended

  /** Where a page's revision came from: read from the file, or saved over another of the page's. */
  datatype Origin = FromRead | SavedOver(base: File)

  /**
   * One page. Its editor's every state is in `texts`, a mark is an index of it, and `at` the one held
   * now; `own` collects the revisions it has loaded or written.
   */
  datatype Session = Session(version: Option<File>, saved: Option<nat>, saving: Option<Saving>,
    loading: Option<Loading>,
                             shown: Option<Shown>, error: Option<Failure>, texts: seq<string>, at: nat,
                             own: set<File>, origin: Origin)

  const Opened := Session(None, None, None, None, None, None, [""], 0, {}, FromRead)

  predicate Dirty(s: Session) {
    s.saved.Some? && s.at != s.saved.value
  }

  function StateOf(s: Session): Shown {
    Shown(s.saved.Some?, Dirty(s), s.saving.Some?)
  }

  function Reported(s: Session): Session {
    s.(shown := Some(StateOf(s)))
  }

  // --- A page's events ------------------------------------------------------------------------------

  function Edited(s: Session, text: string): Session {
    Reported(s.(texts := s.texts + [text], at := |s.texts|))
  }

  /** Undo and redo: back to a state the editor has held. */
  function Restored(s: Session, mark: nat): Session {
    if mark < |s.texts| then Reported(s.(at := mark)) else s
  }

  function Written(s: Session): Session
    requires s.at < |s.texts|
  {
    if s.saving.Some? || !Dirty(s) then s
    else Reported(s.(error := None, saving := Some(Encoding(s.texts[s.at], s.at))))
  }

  function EncodingEnded(s: Session, ok: bool): Session {
    if s.saving.Some? && s.saving.value.Encoding? then
      if ok then s.(saving := Some(Sent(s.saving.value.content, s.saving.value.mark, s.version)))
      else s.(saving := Some(Landed), error := Some(SaveFailed))
    else s
  }

  function SaveLanded(s: Session): Session {
    if s.saving.Some? && s.saving.value.Answered? then
      var written := s.saving.value.written;
      if written.None? then s.(saving := Some(Landed), error := Some(SaveFailed))
      else s.(saving := Some(Landed), version := written, saved := Some(s.saving.value.mark),
          own := s.own + {written.value},
                  origin := if s.saving.value.over.Some? then SavedOver(s.saving.value.over.value) else FromRead)
    else s
  }

  function SaveEnded(s: Session): Session {
    if s.saving == Some(Landed) then Reported(s.(saving := None)) else s
  }

  /** A load past its question: not while saving. */
  function Begun(s: Session, confirm: bool): Session {
    if s.saving.Some? then s.(loading := Some(Ended))
    else
      s.(error := if confirm then None else s.error,
         loading := Some(Reading(if s.saved.Some? then Some(Before(s.at, s.version)) else None)))
  }

  function Loaded(s: Session, confirm: bool): Session {
    if s.loading.Some? || (confirm && s.saving.Some?) then s
    else if confirm && Dirty(s) then s.(loading := Some(Asking))
    else Begun(s, confirm)
  }

  function Confirmed(s: Session, discard: bool): Session {
    if s.loading == Some(Asking) then
      if discard then Begun(s, true) else s.(loading := Some(Ended))
    else s
  }

  /** Whether a read's answer comes too late for what the editor held when it began. */
  predicate Moved(s: Session, before: Option<Before>) {
    before.Some? && (s.at != before.value.mark || s.version != before.value.version || s.saving.Some?)
  }

  /** `takes` is whether the editor can hold what was read. */
  function LoadLanded(s: Session, takes: bool): Session {
    if s.loading.Some? && s.loading.value.Answer? then
      var read := s.loading.value.read;
      if read.None? then s.(loading := Some(Ended), error := Some(LoadFailed))
      else if Moved(s, s.loading.value.before) then s.(loading := Some(Ended), error := Some(ChangedWhileReloading))
      else if !takes then s.(loading := Some(Ended), error := Some(LoadFailed))
      else Reported(s.(loading := Some(Ended), texts := s.texts + [read.value.content], at := |s.texts|,
                       version := Some(read.value.version), saved := Some(|s.texts|),
                           own := s.own + {read.value.version},
                       origin := FromRead))
    else s
  }

  function LoadEnded(s: Session): Session {
    if s.loading == Some(Ended) then s.(loading := None) else s
  }

  // --- Many pages, one file -------------------------------------------------------------------------

  datatype World = World(file: Option<File>, sessions: seq<Session>)

  /**
   * How a replacement that was due went: done, done with its answer lost, left undone, or stopped with the file
   * gone.
   */
  datatype Outcome = Done | DoneUnanswered | Undone | Gone

  datatype Event = Edit(text: string) | Restore(mark: nat) | Write | EndEncoding(ok: bool) | LandSave | EndSave
    | Load(confirm: bool) | Confirm(discard: bool) | LandLoad(takes: bool) | EndLoad
    | Replace(outcome: Outcome) | Read(ok: bool)

  datatype Step = Open | Outside(file: Option<File>) | At(page: nat, event: Event)

  /** The server at a sent save: the file replaced only while it is the revision the save names. */
  function Replaced(codec: Codec, file: Option<File>, s: Session, outcome: Outcome): (Option<File>, Session) {
    if s.saving.Some? && s.saving.value.Sent? then
      var sent := s.saving.value;
      var answered := (written: Option<File>) => s.(saving := Some(Answered(sent.mark, sent.over, written)));
      if file.None? || sent.over != file || outcome.Undone? then (file, answered(None))
      else
        var bytes := codec.encode(file.value, sent.content);
        if outcome.Gone? then (None, answered(None))
        else (Some(bytes), answered(if outcome.Done? then Some(bytes) else None))
    else (file, s)
  }

  /** The server at a read: the file as its contents and revision, or a failure. */
  function ReadFile(codec: Codec, file: Option<File>, s: Session, ok: bool): Session {
    if s.loading.Some? && s.loading.value.Reading? then
      var content := if ok && file.Some? then codec.decode(file.value) else None;
      s.(loading := Some(Answer(s.loading.value.before, if content.Some? then Some(Contents(content.value, file.value))
          else None)))
    else s
  }

  function Happened(codec: Codec, file: Option<File>, s: Session, event: Event): (Option<File>, Session)
    requires s.at < |s.texts|
  {
    match event
    case Edit(text) => (file, Edited(s, text))
    case Restore(mark) => (file, Restored(s, mark))
    case Write => (file, Written(s))
    case EndEncoding(ok) => (file, EncodingEnded(s, ok))
    case LandSave => (file, SaveLanded(s))
    case EndSave => (file, SaveEnded(s))
    case Load(confirm) => (file, Loaded(s, confirm))
    case Confirm(discard) => (file, Confirmed(s, discard))
    case LandLoad(takes) => (file, LoadLanded(s, takes))
    case EndLoad => (file, LoadEnded(s))
    case Replace(outcome) => Replaced(codec, file, s, outcome)
    case Read(ok) => (file, ReadFile(codec, file, s, ok))
  }

  // --- What every page keeps ------------------------------------------------------------------------

  /** `file` reads as `content`, or was written of it over the revision it was saved over. */
  predicate Matches(codec: Codec, origin: Origin, file: File, content: string) {
    match origin
    case FromRead => codec.decode(file) == Some(content)
    case SavedOver(base) => file == codec.encode(base, content)
  }

  ghost predicate SavingGood(codec: Codec, s: Session, saving: Saving) {
    match saving
    case Encoding(content, mark) => s.saved.Some? && mark < |s.texts| && content == s.texts[mark]
    case Sent(content, mark, over) => s.saved.Some? && mark < |s.texts| && content == s.texts[mark] && over == s.version
    case Answered(mark, over, written) =>
      && s.saved.Some? && mark < |s.texts| && over.Some? && over.value in s.own
      && (written.Some? ==> written.value == codec.encode(over.value, s.texts[mark]))
    case Landed => s.saved.Some?
  }

  predicate BeforeGood(s: Session, before: Option<Before>) {
    (before.None? <==> s.saved.None?) && (before.Some? ==> before.value.mark < |s.texts|)
  }

  predicate LoadingGood(codec: Codec, s: Session, loading: Loading) {
    match loading
    case Reading(before) => BeforeGood(s, before)
    case Answer(before, read) => BeforeGood(s, before) && (read.Some? ==>
        codec.decode(read.value.version) == Some(read.value.content))
    case _ => true
  }

  /** The saved mark's contents are the revision's, whatever the editor holds since; what is shown is so. */
  ghost predicate Good(codec: Codec, s: Session) {
    && s.at < |s.texts|
    && (s.saved.Some? ==> s.saved.value < |s.texts| && s.version.Some? && Matches(codec, s.origin, s.version.value,
        s.texts[s.saved.value]))
    && (s.origin.SavedOver? ==> s.origin.base in s.own)
    && (s.version.Some? ==> s.version.value in s.own && s.saved.Some?)
    && (s.saving.Some? ==> SavingGood(codec, s, s.saving.value))
    && (s.loading.Some? ==> LoadingGood(codec, s, s.loading.value))
    && (s.saved.Some? ==> s.shown.Some?)
    && (s.shown.Some? && s.saving != Some(Landed) ==> s.shown.value == StateOf(s))
  }

  lemma EditedGood(codec: Codec, s: Session, text: string)
    requires Good(codec, s)
    ensures Good(codec, Edited(s, text))
  {
    var t := Edited(s, text);
    assert forall k :: 0 <= k < |s.texts| ==> t.texts[k] == s.texts[k];
  }

  lemma LoadLandedGood(codec: Codec, s: Session, takes: bool)
    requires Good(codec, s)
    ensures Good(codec, LoadLanded(s, takes))
  {
    if s.loading.Some? && s.loading.value.Answer? && s.loading.value.read.Some? && !Moved(s, s.loading.value.before) {
      assert s.saving.None?;
    }
  }

  lemma ReplacedGood(codec: Codec, file: Option<File>, s: Session, outcome: Outcome)
    requires Good(codec, s)
    ensures Good(codec, Replaced(codec, file, s, outcome).1)
  {
    hide Matches;
  }

  lemma LandedGood(codec: Codec, s: Session)
    requires Good(codec, s)
    ensures Good(codec, SaveLanded(s))
  {
  }

  lemma HappenedGood(codec: Codec, file: Option<File>, s: Session, event: Event)
    requires Good(codec, s)
    ensures Good(codec, Happened(codec, file, s, event).1)
  {
    match event
    case Edit(text) => EditedGood(codec, s, text);
    case LandLoad(takes) => LoadLandedGood(codec, s, takes);
    case Replace(outcome) => ReplacedGood(codec, file, s, outcome);
    case LandSave => LandedGood(codec, s);
    case Load(_) => hide Matches;
    case Write => hide Matches, LoadLanded, Replaced, SaveLanded, ReadFile;
    case _ => hide Matches, LoadLanded, Replaced, SaveLanded;
  }

  // --- Runs -----------------------------------------------------------------------------------------

  ghost predicate WorldGood(codec: Codec, w: World) {
    forall i :: 0 <= i < |w.sessions| ==> Good(codec, w.sessions[i])
  }

  function Next(codec: Codec, w: World, step: Step): World
    requires forall i :: 0 <= i < |w.sessions| ==> w.sessions[i].at < |w.sessions[i].texts|
  {
    match step
    case Open => w.(sessions := w.sessions + [Opened])
    case Outside(file) => w.(file := file)
    case At(page, event) =>
      if page < |w.sessions| then
        var (file, session) := Happened(codec, w.file, w.sessions[page], event);
        World(file, w.sessions[page := session])
      else w
  }

  lemma NextGood(codec: Codec, w: World, step: Step)
    requires WorldGood(codec, w)
    ensures WorldGood(codec, Next(codec, w, step))
  {
    hide Good, Happened;
    if step.At? && step.page < |w.sessions| {
      HappenedGood(codec, w.file, w.sessions[step.page], step.event);
    } else if step.Open? {
      OpenedGood(codec);
    }
  }

  lemma OpenedGood(codec: Codec)
    ensures Good(codec, Opened)
  {
  }

  ghost function Run(codec: Codec, w: World, steps: seq<Step>): World
    requires WorldGood(codec, w)
    decreases |steps|
  {
    if steps == [] then w
    else
      NextGood(codec, w, steps[0]);
      Run(codec, Next(codec, w, steps[0]), steps[1..])
  }

  lemma {:induction false} RunGood(codec: Codec, w: World, steps: seq<Step>)
    requires WorldGood(codec, w)
    ensures WorldGood(codec, Run(codec, w, steps))
    decreases |steps|
  {
    if steps != [] {
      NextGood(codec, w, steps[0]);
      RunGood(codec, Next(codec, w, steps[0]), steps[1..]);
    }
  }

  /** In every run of any pages and outside writers, a page that shows nothing unsaved holds its revision's contents. */
  lemma CleanHolds(codec: Codec, file: Option<File>, steps: seq<Step>, i: nat)
    requires i < |Run(codec, World(file, []), steps).sessions|
    ensures var s := Run(codec, World(file, []), steps).sessions[i];
            && s.at < |s.texts|
            && (s.saved.Some? && !Dirty(s) ==>
                s.version.Some? && Matches(codec, s.origin, s.version.value, s.texts[s.at]))
            && (s.shown.Some? && s.saving != Some(Landed) ==> s.shown.value == StateOf(s))
  {
    RunGood(codec, World(file, []), steps);
  }

  /** Only a page's own save, over a revision it loaded or wrote, or an outside writer changes the file. */
  lemma OnlyOwnOverwritten(codec: Codec, file: Option<File>, steps: seq<Step>, step: Step)
    ensures var w := Run(codec, World(file, []), steps);
            (forall i :: 0 <= i < |w.sessions| ==> w.sessions[i].at < |w.sessions[i].texts|) &&
            (Next(codec, w, step).file != w.file && !step.Outside? ==>
               && step.At? && step.page < |w.sessions| && step.event.Replace? && w.file.Some?
               && w.sessions[step.page].version == w.file && w.file.value in w.sessions[step.page].own)
  {
    RunGood(codec, World(file, []), steps);
    var w := Run(codec, World(file, []), steps);
    if step.At? && step.page < |w.sessions| {
      assert Good(codec, w.sessions[step.page]);
    }
  }

  // --- Edits ----------------------------------------------------------------------------------------

  /** What the page's user does that may move or give up an edit: none of these is a save landing or a read. */
  predicate Users(step: Step, i: nat) {
    step.At? && step.page == i &&
      (step.event.Edit? || step.event.Restore? || step.event.Write? || step.event == Load(false)
          || step.event == Confirm(true))
  }

  /** An edit no save has taken and no read began after. */
  predicate Unsaved(s: Session) {
    && s.at < |s.texts| && s.saved.Some? && s.at != s.saved.value
    && (s.saving.Some? && s.saving.value.Encoding? ==> s.saving.value.mark != s.at)
    && (s.saving.Some? && s.saving.value.Sent? ==> s.saving.value.mark != s.at)
    && (s.saving.Some? && s.saving.value.Answered? ==> s.saving.value.mark != s.at)
    && (s.loading.Some? && s.loading.value.Reading? ==>
        s.loading.value.before.Some? && s.loading.value.before.value.mark != s.at)
    && (s.loading.Some? && s.loading.value.Answer? ==>
        s.loading.value.before.Some? && s.loading.value.before.value.mark != s.at)
  }

  /** An edit is new to every mark. */
  lemma EditUnsaved(codec: Codec, s: Session, text: string)
    requires Good(codec, s) && s.saved.Some?
    ensures Unsaved(Edited(s, text)) && Edited(s, text).texts[Edited(s, text).at] == text
  {
    hide Matches;
  }

  lemma UnsavedStays(codec: Codec, file: Option<File>, s: Session, event: Event)
    requires Unsaved(s) && !Users(At(0, event), 0)
    ensures var t := Happened(codec, file, s, event).1;
            Unsaved(t) && t.texts == s.texts && t.at == s.at
  {
  }

  lemma {:induction false} UnsavedRuns(codec: Codec, w: World, steps: seq<Step>, i: nat)
    requires WorldGood(codec, w) && i < |w.sessions| && Unsaved(w.sessions[i])
    requires forall k :: 0 <= k < |steps| ==> !Users(steps[k], i)
    ensures var end := Run(codec, w, steps);
            i < |end.sessions| && Unsaved(end.sessions[i]) && end.sessions[i].texts == w.sessions[i].texts
                && end.sessions[i].at == w.sessions[i].at
    decreases |steps|
  {
    if steps != [] {
      hide Good, Happened, Unsaved;
      var step := steps[0];
      NextGood(codec, w, step);
      if step.At? && step.page == i {
        UnsavedStays(codec, w.file, w.sessions[i], step.event);
      }
      UnsavedRuns(codec, Next(codec, w, step), steps[1..], i);
    }
  }

  /**
   * An edit of a loaded document, made at any moment, a save or a read under way included, is in the
   * editor and unsaved after everything other pages, the server, outside writers and the page's own
   * answers do, until its user edits, undoes, saves or agrees to discard, or the page loads again unasked.
   */
  lemma EditKept(codec: Codec, file: Option<File>, before: seq<Step>, i: nat, text: string, after: seq<Step>)
    requires i < |Run(codec, World(file, []), before).sessions|
             && Run(codec, World(file, []), before).sessions[i].saved.Some?
    requires forall k :: 0 <= k < |after| ==> !Users(after[k], i)
    ensures WorldGood(codec, Run(codec, World(file, []), before))
            && WorldGood(codec, Next(codec, Run(codec, World(file, []), before), At(i, Edit(text))))
    ensures var end := Run(codec, Next(codec, Run(codec, World(file, []), before), At(i, Edit(text))), after);
            && i < |end.sessions| && end.sessions[i].at < |end.sessions[i].texts|
            && end.sessions[i].texts[end.sessions[i].at] == text && Dirty(end.sessions[i])
  {
    RunGood(codec, World(file, []), before);
    var w := Run(codec, World(file, []), before);
    EditUnsaved(codec, w.sessions[i], text);
    NextGood(codec, w, At(i, Edit(text)));
    UnsavedRuns(codec, Next(codec, w, At(i, Edit(text))), after, i);
  }

  /** The page after a read that was under way has been answered and has landed, an edit made meanwhile. */
  function LandedOver(codec: Codec, file: File, s: Session, text: string): Session
    requires s.at < |s.texts|
  {
    LoadLanded(ReadFile(codec, Some(file), Edited(s, text), true), true)
  }

  /** An edit made while a read is under way is kept, unsaved, exactly when the document was loaded before. */
  lemma EditDuringRead(codec: Codec, file: File, s: Session, text: string)
    requires Good(codec, s) && s.loading.Some? && s.loading.value.Reading? && codec.decode(file).Some?
    ensures var t := LandedOver(codec, file, s, text);
            && (s.saved.Some? <==> t.at == |s.texts| && Dirty(t))
            && (s.saved.None? ==> t.texts[t.at] == codec.decode(file).value && !Dirty(t))
  {
  }

  /** A run in which it is not: a session whose editor takes text before its first read lands. */
  lemma FirstLoadTakesAll(codec: Codec, file: File, text: string)
    requires codec.decode(file).Some? && codec.decode(file).value != text
    ensures var steps := [Open, At(0, Load(false)), At(0, Edit(text)), At(0, Read(true)), At(0, LandLoad(true))];
            var w := Run(codec, World(Some(file), []), steps);
            && |w.sessions| == 1 && w.sessions[0].at < |w.sessions[0].texts| && !Dirty(w.sessions[0])
            && w.sessions[0].texts[w.sessions[0].at] != text
  {
    var steps := [Open, At(0, Load(false)), At(0, Edit(text)), At(0, Read(true)), At(0, LandLoad(true))];
    var w0 := World(Some(file), []);
    var w1 := World(Some(file), [Opened]);
    var s2 := Loaded(Opened, false);
    var s3 := Edited(s2, text);
    var s4 := ReadFile(codec, Some(file), s3, true);
    var s5 := LoadLanded(s4, true);
    RunStep(codec, w0, steps, 0, w1);
    RunStep(codec, w1, steps, 1, World(Some(file), [s2]));
    RunStep(codec, World(Some(file), [s2]), steps, 2, World(Some(file), [s3]));
    RunStep(codec, World(Some(file), [s3]), steps, 3, World(Some(file), [s4]));
    RunStep(codec, World(Some(file), [s4]), steps, 4, World(Some(file), [s5]));
    assert steps[0..] == steps && steps[5..] == [];
    assert s5.texts[s5.at] == codec.decode(file).value;
  }

  lemma RunStep(codec: Codec, w: World, steps: seq<Step>, k: nat, next: World)
    requires k < |steps| && WorldGood(codec, w) && Next(codec, w, steps[k]) == next
    ensures WorldGood(codec, next) && Run(codec, w, steps[k..]) == Run(codec, next, steps[k + 1..])
  {
    NextGood(codec, w, steps[k]);
    assert steps[k..][1..] == steps[k + 1..];
  }

  /**
   * Of two pages' saves over one revision, a second finds another file and changes nothing, unless the first
   * wrote the same bytes.
   */
  lemma SecondSaveRefused(codec: Codec, file: File, a: Session, b: Session, outcome: Outcome)
    requires a.saving.Some? && a.saving.value.Sent? && a.saving.value.over == Some(file)
    requires b.saving.Some? && b.saving.value.Sent? && b.saving.value.over == Some(file)
    ensures var first := Replaced(codec, Some(file), a, Done).0;
            var (second, page) := Replaced(codec, first, b, outcome);
            first == Some(codec.encode(file, a.saving.value.content))
            && (first != Some(file) ==>
                second == first && page.saving == Some(Answered(b.saving.value.mark, Some(file), None)))
  {
  }
}

/** Text documents: what the editor of a page with nothing unsaved holds, in the file's own bytes. */
module TextDocuments {
  import opened Wrappers
  import opened DocumentModel
  import SaveText

  const TextCodec := Codec(SaveText.ReadText, SaveText.Saved)

  /**
   * Its text is what the file reads as, or the file is a save of it over a revision the page had, read back
   * in that one's line endings.
   */
  lemma CleanText(file: Option<File>, steps: seq<Step>)
    ensures var w := Run(TextCodec, World(file, []), steps);
            forall i :: 0 <= i < |w.sessions| && w.sessions[i].saved.Some? && !Dirty(w.sessions[i]) ==>
              && w.sessions[i].version.Some? && w.sessions[i].at < |w.sessions[i].texts|
              && HoldsFile(w.sessions[i], w.sessions[i].texts[w.sessions[i].at], w.sessions[i].version.value)
  {
    var w := Run(TextCodec, World(file, []), steps);
    RunGood(TextCodec, World(file, []), steps);
    forall i | 0 <= i < |w.sessions| && w.sessions[i].saved.Some? && !Dirty(w.sessions[i])
      ensures w.sessions[i].version.Some? && w.sessions[i].at < |w.sessions[i].texts|
      ensures HoldsFile(w.sessions[i], w.sessions[i].texts[w.sessions[i].at], w.sessions[i].version.value)
    {
      assert Good(TextCodec, w.sessions[i]);
      if w.sessions[i].origin.SavedOver? {
        SaveText.SavedReads(w.sessions[i].origin.base, w.sessions[i].texts[w.sessions[i].at]);
      }
    }
  }

  predicate HoldsFile(s: Session, text: string, version: File) {
    match s.origin
    case FromRead => SaveText.ReadText(version) == Some(text)
    case SavedOver(base) => base in s.own && version == SaveText.Saved(base, text) && SavedBody(base, text, version)
  }

  /** Saved over `base`, `text` reads as itself in the line endings of `base`. */
  predicate SavedBody(base: File, text: string, version: File) {
    var body := SaveText.Body(SaveText.ByteEndings(base, false), text);
    SaveText.Marked(base) || body == "" || body[0] != SaveText.BOM ==> SaveText.ReadText(version) == Some(body)
  }
}

module DocumentObject {
  import opened Wrappers
  import opened DocumentModel

  /** The page's session over its editor: every event changes its fields as the model's. */
  class DocumentSession {
    var version: Option<File>
    var saved: Option<nat>
    var saving: Option<Saving>
    var loading: Option<Loading>
    var shown: Option<Shown>
    var error: Option<Failure>
    var texts: seq<string>
    var at: nat
    ghost var own: set<File>
    ghost var origin: Origin

    ghost function State(): Session
      reads this
    {
      Session(version, saved, saving, loading, shown, error, texts, at, own, origin)
    }

    constructor ()
      ensures State() == Opened
    {
      version, saved, saving, loading, shown, error := None, None, None, None, None, None;
      texts, at, own, origin := [""], 0, {}, FromRead;
    }

    predicate IsDirty()
      reads this
    {
      saved.Some? && at != saved.value
    }

    method Report()
      modifies this`shown
      ensures State() == Reported(old(State()))
    {
      var state := Shown(saved.Some?, IsDirty(), saving.Some?);
      if shown != Some(state) {
        shown := Some(state);
      }
    }

    method Edit(text: string)
      modifies this
      ensures State() == Edited(old(State()), text)
    {
      at := |texts|;
      texts := texts + [text];
      Report();
    }

    method Undo(mark: nat)
      modifies this
      ensures State() == Restored(old(State()), mark)
    {
      if mark < |texts| {
        at := mark;
        Report();
      }
    }

    method Write()
      requires at < |texts|
      modifies this
      ensures State() == Written(old(State()))
    {
      if saving.Some? || !IsDirty() {
        return;
      }
      error := None;
      saving := Some(Encoding(texts[at], at));
      Report();
    }

    method EndEncoding(ok: bool)
      modifies this
      ensures State() == EncodingEnded(old(State()), ok)
    {
      if saving.Some? && saving.value.Encoding? {
        if ok {
          saving := Some(Sent(saving.value.content, saving.value.mark, version));
        } else {
          error := Some(SaveFailed);
          saving := Some(Landed);
        }
      }
    }

    method LandSave()
      modifies this
      ensures State() == SaveLanded(old(State()))
    {
      if saving.Some? && saving.value.Answered? {
        var answer := saving.value;
        if answer.written.None? {
          error := Some(SaveFailed);
        } else {
          version := answer.written;
          saved := Some(answer.mark);
          own := own + {answer.written.value};
          origin := if answer.over.Some? then SavedOver(answer.over.value) else FromRead;
        }
        saving := Some(Landed);
      }
    }

    method EndSave()
      modifies this
      ensures State() == SaveEnded(old(State()))
    {
      if saving == Some(Landed) {
        saving := None;
        Report();
      }
    }

    method Begin(confirm: bool)
      modifies this
      ensures State() == Begun(old(State()), confirm)
    {
      if saving.Some? {
        loading := Some(Ended);
        return;
      }
      if confirm {
        error := None;
      }
      var before := if saved.Some? then Some(Before(at, version)) else None;
      loading := Some(Reading(before));
    }

    method Load(confirm: bool)
      modifies this
      ensures State() == Loaded(old(State()), confirm)
    {
      if loading.Some? || (confirm && saving.Some?) {
        return;
      }
      if confirm && IsDirty() {
        loading := Some(Asking);
        return;
      }
      Begin(confirm);
    }

    method Confirm(discard: bool)
      modifies this
      ensures State() == Confirmed(old(State()), discard)
    {
      if loading == Some(Asking) {
        if discard {
          Begin(true);
        } else {
          loading := Some(Ended);
        }
      }
    }

    method LandLoad(takes: bool)
      modifies this
      ensures State() == LoadLanded(old(State()), takes)
    {
      if !(loading.Some? && loading.value.Answer?) {
        return;
      }
      var before, read := loading.value.before, loading.value.read;
      loading := Some(Ended);
      if read.None? {
        error := Some(LoadFailed);
        return;
      }
      if before.Some? && (at != before.value.mark || version != before.value.version || saving.Some?) {
        error := Some(ChangedWhileReloading);
        return;
      }
      if !takes {
        error := Some(LoadFailed);
        return;
      }
      at := |texts|;
      texts := texts + [read.value.content];
      version := Some(read.value.version);
      saved := Some(at);
      own := own + {read.value.version};
      origin := FromRead;
      Report();
    }

    method EndLoad()
      modifies this
      ensures State() == LoadEnded(old(State()))
    {
      if loading == Some(Ended) {
        loading := None;
      }
    }
  }
}
