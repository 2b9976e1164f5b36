/** The ordinary turns of a document page: saved, reloaded, refused, asked, each as the page and the file it leaves. */
module DocumentEffects {
  import opened Wrappers
  import opened DocumentModel

  function On(events: seq<Event>): seq<Step> {
    seq(|events|, k requires 0 <= k < |events| => At(0, events[k]))
  }

  lemma RunOn(codec: Codec, file: Option<File>, s: Session, events: seq<Event>)
    requires Good(codec, s) && events != []
    ensures var (after, t) := Happened(codec, file, s, events[0]);
            && Good(codec, t)
            && Run(codec, World(file, [s]), On(events)) == Run(codec, World(after, [t]), On(events[1..]))
  {
    HappenedGood(codec, file, s, events[0]);
    assert On(events)[1..] == On(events[1..]);
    assert World(file, [s]).sessions[0 := Happened(codec, file, s, events[0]).1] ==
        [Happened(codec, file, s, events[0]).1];
  }

  /** A page with unsaved contents, over the file it read or wrote last. */
  ghost predicate HoldsEdits(codec: Codec, file: File, s: Session) {
    && Good(codec, s) && s.saved.Some? && s.at != s.saved.value && s.version == Some(file)
    && s.saving == None && s.loading == None
  }

  /** Event `k` of a list, and what it leaves. */
  lemma Each(codec: Codec, events: seq<Event>, k: nat, file: Option<File>, s: Session, after: Option<File>, t: Session)
    requires k < |events| && Good(codec, s) && Happened(codec, file, s, events[k]) == (after, t)
    ensures Good(codec, t)
    ensures Run(codec, World(file, [s]), On(events[k..])) == Run(codec, World(after, [t]), On(events[k + 1..]))
    ensures k == 0 ==> Run(codec, World(file, [s]), On(events)) == Run(codec, World(after, [t]), On(events[1..]))
    ensures k + 1 == |events| ==> Run(codec, World(after, [t]), On(events[k + 1..])) == World(after, [t])
  {
    RunOn(codec, file, s, events[k..]);
    assert events[k..][1..] == events[k + 1..];
    assert events[0..] == events;
  }

  function SentOff(s: Session): Session
    requires s.at < |s.texts|
  {
    s.(error := None, saving := Some(Sent(s.texts[s.at], s.at, s.version)), shown := Some(Shown(true, true, true)))
  }

  /** Saving, as far as sending it: the contents, over the revision they were loaded at. */
  lemma Sends(codec: Codec, events: seq<Event>, file: Option<File>, s: Session)
    requires Good(codec, s) && s.saved.Some? && s.at != s.saved.value && s.saving == None
    requires |events| > 2 && events[0] == Write && events[1] == EndEncoding(true)
    ensures Good(codec, SentOff(s))
    ensures Run(codec, World(file, [s]), On(events)) == Run(codec, World(file, [SentOff(s)]), On(events[2..]))
  {
    var a := s.(error := None, saving := Some(Encoding(s.texts[s.at], s.at)), shown := Some(Shown(true, true, true)));
    assert Happened(codec, file, s, Write) == (file, a);
    assert Happened(codec, file, a, EndEncoding(true)) == (file, SentOff(s));
    hide Happened, Good, Run;
    Each(codec, events, 0, file, s, file, a);
    Each(codec, events, 1, file, a, file, SentOff(s));
  }

  /** A page once a save of `content`, its mark `mark`, over `file` has landed. */
  function Landing(codec: Codec, file: File, s: Session, content: string, mark: nat): Session {
    var bytes := codec.encode(file, content);
    s.(saving := None, version := Some(bytes), saved := Some(mark), own := s.own + {bytes}, origin := SavedOver(file),
       shown := Some(Shown(true, s.at != mark, false)))
  }

  lemma Lands(codec: Codec, events: seq<Event>, k: nat, file: File, s: Session, content: string, mark: nat)
    requires k + 3 == |events| && events[k] == Replace(Done) && events[k + 1] == LandSave && events[k + 2] == EndSave
    requires Good(codec, s) && s.saving == Some(Sent(content, mark, Some(file)))
    ensures Run(codec, World(Some(file), [s]), On(events[k..])) ==
            World(Some(codec.encode(file, content)), [Landing(codec, file, s, content, mark)])
  {
    var bytes := codec.encode(file, content);
    var c := s.(saving := Some(Answered(mark, Some(file), Some(bytes))));
    var d := c.(saving := Some(Landed), version := Some(bytes), saved := Some(mark), own := s.own + {bytes},
        origin := SavedOver(file));
    var e := Landing(codec, file, s, content, mark);
    assert s.at < |s.texts|;
    hide Good, Run;
    assert Happened(codec, Some(file), s, Replace(Done)) == (Some(bytes), c);
    assert Happened(codec, Some(bytes), c, LandSave) == (Some(bytes), d);
    assert Happened(codec, Some(bytes), d, EndSave) == (Some(bytes), e);
    hide Happened;
    Each(codec, events, k, Some(file), s, Some(bytes), c);
    Each(codec, events, k + 1, Some(bytes), c, Some(bytes), d);
    Each(codec, events, k + 2, Some(bytes), d, Some(bytes), e);
  }

  /** A save: the file is the contents encoded over it, and the page shows nothing unsaved. */
  lemma Saves(codec: Codec, file: File, s: Session)
    requires HoldsEdits(codec, file, s)
    ensures var steps := On([Write, EndEncoding(true), Replace(Done), LandSave, EndSave]);
            var bytes := codec.encode(file, s.texts[s.at]);
            Run(codec, World(Some(file), [s]), steps) ==
            World(Some(bytes), [s.(version := Some(bytes), saved := Some(s.at), error := None,
                                   shown := Some(Shown(true, false, false)), own := s.own + {bytes},
                                   origin := SavedOver(file))])
  {
    var events := [Write, EndEncoding(true), Replace(Done), LandSave, EndSave];
    assert s.at < |s.texts|;
    hide Good, Run, Happened;
    Sends(codec, events, Some(file), s);
    Lands(codec, events, 2, file, SentOff(s), s.texts[s.at], s.at);
  }

  /** A save of a file that is another by now: nothing is written, the page says so, and its contents stay unsaved. */
  lemma SaveRefused(codec: Codec, file: File, now: Option<File>, s: Session, outcome: Outcome)
    requires HoldsEdits(codec, file, s) && now != Some(file)
    ensures var steps := On([Write, EndEncoding(true), Replace(outcome), LandSave, EndSave]);
            Run(codec, World(now, [s]), steps) ==
            World(now, [s.(error := Some(SaveFailed), shown := Some(Shown(true, true, false)))])
  {
    var b := SentOff(s);
    var c := b.(saving := Some(Answered(s.at, Some(file), None)));
    var d := c.(saving := Some(Landed), error := Some(SaveFailed));
    var e := d.(saving := None, shown := Some(Shown(true, true, false)));
    var events := [Write, EndEncoding(true), Replace(outcome), LandSave, EndSave];
    hide Good, Run;
    Sends(codec, events, now, s);
    Each(codec, events, 2, now, b, now, c);
    Each(codec, events, 3, now, c, now, d);
    Each(codec, events, 4, now, d, now, e);
  }

  /** An edit while a save is on its way: the save is of what was there before, and the edit stays unsaved. */
  lemma EditWhileSaving(codec: Codec, file: File, s: Session, text: string)
    requires HoldsEdits(codec, file, s)
    ensures var steps := On([Write, EndEncoding(true), Edit(text), Replace(Done), LandSave, EndSave]);
            var bytes := codec.encode(file, s.texts[s.at]);
            Run(codec, World(Some(file), [s]), steps) ==
            World(Some(bytes), [s.(version := Some(bytes), saved := Some(s.at), error := None,
                texts := s.texts + [text],
                                   at := |s.texts|, shown := Some(Shown(true, true, false)), own := s.own + {bytes},
                                   origin := SavedOver(file))])
  {
    var f := Some(file);
    var b := SentOff(s);
    var c := b.(texts := s.texts + [text], at := |s.texts|);
    var events := [Write, EndEncoding(true), Edit(text), Replace(Done), LandSave, EndSave];
    assert s.at < |s.texts| && s.saved.value < |s.texts|;
    assert Happened(codec, f, b, Edit(text)) == (f, c);
    hide Good, Run, Happened;
    Sends(codec, events, f, s);
    Each(codec, events, 2, f, b, f, c);
    Lands(codec, events, 3, file, c, s.texts[s.at], s.at);
  }

  /** A save with nothing unsaved, or with another under way, does nothing. */
  lemma NothingToSave(s: Session)
    requires s.at < |s.texts| && (s.saving.Some? || s.saved.None? || s.at == s.saved.value)
    ensures Written(s) == s
  {
  }

  /** A page with nothing under way. */
  ghost predicate Idle(codec: Codec, s: Session) {
    Good(codec, s) && s.saving == None && s.loading == None
  }

  function Taken(s: Session, file: File, content: string): Session {
    s.(texts := s.texts + [content], at := |s.texts|, version := Some(file), saved := Some(|s.texts|),
       shown := Some(Shown(true, false, false)), own := s.own + {file}, origin := FromRead)
  }

  /** A load: the page holds what the file reads as, and shows nothing unsaved, whatever it held before. */
  lemma Loads(codec: Codec, file: File, s: Session, content: string)
    requires Idle(codec, s) && codec.decode(file) == Some(content)
    ensures Run(codec, World(Some(file), [s]), On([Load(false), Read(true), LandLoad(true), EndLoad])) ==
            World(Some(file), [Taken(s, file, content)])
  {
    var f := Some(file);
    var before := if s.saved.Some? then Some(Before(s.at, s.version)) else None;
    var a := s.(loading := Some(Reading(before)));
    var b := a.(loading := Some(Answer(before, Some(Contents(content, file)))));
    var c := Taken(s, file, content).(loading := Some(Ended));
    var d := Taken(s, file, content);
    var events := [Load(false), Read(true), LandLoad(true), EndLoad];
    hide Good, Run;
    Each(codec, events, 0, f, s, f, a);
    Each(codec, events, 1, f, a, f, b);
    Each(codec, events, 2, f, b, f, c);
    Each(codec, events, 3, f, c, f, d);
  }

  /** A reload asked of a page with unsaved contents asks first; refused, the page is as it was. */
  lemma ReloadAsks(codec: Codec, file: File, s: Session)
    requires HoldsEdits(codec, file, s)
    ensures var w := World(Some(file), [s]);
            && Loaded(s, true) == s.(loading := Some(Asking))
            && Run(codec, w, On([Load(true), Confirm(false), EndLoad])) == w
  {
    var f := Some(file);
    var a := s.(loading := Some(Asking));
    var b := a.(loading := Some(Ended));
    var events := [Load(true), Confirm(false), EndLoad];
    hide Good, Run;
    Each(codec, events, 0, f, s, f, a);
    Each(codec, events, 1, f, a, f, b);
    Each(codec, events, 2, f, b, f, s);
  }

  /** Agreed to, the page holds what the file reads as. */
  lemma ReloadTakes(codec: Codec, file: File, s: Session, content: string)
    requires HoldsEdits(codec, file, s) && codec.decode(file) == Some(content)
    ensures Run(codec, World(Some(file), [s]), On([Load(true), Confirm(true), Read(true), LandLoad(true), EndLoad])) ==
            World(Some(file), [Taken(s, file, content).(error := None)])
  {
    var f := Some(file);
    var a := s.(loading := Some(Asking));
    var before := Some(Before(s.at, s.version));
    var c := s.(loading := Some(Reading(before)), error := None);
    var d := c.(loading := Some(Answer(before, Some(Contents(content, file)))));
    var e := Taken(s, file, content).(loading := Some(Ended), error := None);
    var events := [Load(true), Confirm(true), Read(true), LandLoad(true), EndLoad];
    hide Good, Run;
    Each(codec, events, 0, f, s, f, a);
    Each(codec, events, 1, f, a, f, c);
    Each(codec, events, 2, f, c, f, d);
    Each(codec, events, 3, f, d, f, e);
    Each(codec, events, 4, f, e, f, Taken(s, file, content).(error := None));
  }

  /** Neither asks nor reads while a save is under way, nor while another load is. */
  lemma LoadWaits(s: Session, confirm: bool)
    requires s.saving.Some? || s.loading.Some?
    ensures confirm || s.loading.Some? ==> Loaded(s, confirm) == s
    ensures !confirm && s.loading.None? ==> Loaded(s, confirm) == s.(loading := Some(Ended))
  {
  }

  /**
   * A read's answer is taken exactly when the page was not loaded before, or holds what it held, over the revision it
   * had, with no save under way; otherwise the page keeps all it has and says so, as it does of what its editor refuses.
   */
  lemma AnswerTaken(s: Session, before: Option<Before>, file: File, content: string, takes: bool)
    requires s.loading == Some(Answer(before, Some(Contents(content, file)))) && s.saving != Some(Landed)
    ensures var still := before == None
              || (s.at == before.value.mark && s.version == before.value.version && s.saving == None);
            LoadLanded(s, takes).(loading := s.loading) ==
            if !still then s.(error := Some(ChangedWhileReloading))
            else if !takes then s.(error := Some(LoadFailed))
            else Taken(s, file, content).(shown := Some(Shown(true, false, s.saving.Some?)))
  {
  }

  /** A reload overtaken by a save: what it read is not taken, though the user has undone back to what it began at. */
  lemma ReloadOvertaken(codec: Codec, file: File, s: Session, mark: nat, content: string, earlier: File)
    requires Idle(codec, s) && mark < |s.texts| && s.version == Some(file) && earlier != file
    ensures var late := s.(at := mark, loading := Some(Answer(Some(Before(mark, Some(earlier))),
                                                              Some(Contents(content, earlier)))));
            LoadLanded(late, true) == late.(loading := Some(Ended), error := Some(ChangedWhileReloading))
  {
  }

  /** A save whose contents cannot be encoded: nothing is sent, the page says so, and they stay unsaved. */
  lemma EncodingFails(codec: Codec, file: File, s: Session)
    requires HoldsEdits(codec, file, s)
    ensures Run(codec, World(Some(file), [s]), On([Write, EndEncoding(false), EndSave])) ==
            World(Some(file), [s.(error := Some(SaveFailed), shown := Some(Shown(true, true, false)))])
  {
    var f := Some(file);
    var a := s.(error := None, saving := Some(Encoding(s.texts[s.at], s.at)), shown := Some(Shown(true, true, true)));
    var b := a.(error := Some(SaveFailed), saving := Some(Landed));
    var c := b.(saving := None, shown := Some(Shown(true, true, false)));
    var events := [Write, EndEncoding(false), EndSave];
    hide Good, Run;
    Each(codec, events, 0, f, s, f, a);
    Each(codec, events, 1, f, a, f, b);
    Each(codec, events, 2, f, b, f, c);
  }

  /** A load that fails, of no file or one that does not read: the page keeps all it has, and says so. */
  lemma LoadFails(codec: Codec, file: Option<File>, s: Session, ok: bool, takes: bool)
    requires Idle(codec, s) && (!ok || file.None? || codec.decode(file.value).None?)
    ensures Run(codec, World(file, [s]), On([Load(false), Read(ok), LandLoad(takes), EndLoad])) ==
            World(file, [s.(error := Some(LoadFailed))])
  {
    var before := if s.saved.Some? then Some(Before(s.at, s.version)) else None;
    var a := s.(loading := Some(Reading(before)));
    var b := a.(loading := Some(Answer(before, None)));
    var c := b.(loading := Some(Ended), error := Some(LoadFailed));
    var events := [Load(false), Read(ok), LandLoad(takes), EndLoad];
    hide Good, Run;
    Each(codec, events, 0, file, s, file, a);
    Each(codec, events, 1, file, a, file, b);
    Each(codec, events, 2, file, b, file, c);
    Each(codec, events, 3, file, c, file, s.(error := Some(LoadFailed)));
  }
}
