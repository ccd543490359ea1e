/**
 A design in the GUI: its editor, its loads and its saves (the `Loaded`, `Changed`,
 `Edit`, `Format`, `Reload`, `Save`, `Saved`, `SavedAs` and parameter arms of
 `bins/gui/src/reduce.rs`, with `load_from` and `analyze`). A load is asked for with
 a generation, runs on its own, and its result is taken in only if its generation is
 still the last one.
 */
module Design {
  import opened Prelude

  datatype Why = Opened | Reloaded | FileChanged | ParamsChanged | SavedElsewhere | Typed

  /** A load as asked for: why, with the editor's text or from the file, after how many edits. */
  datatype Request = Request(why: Why, text: Option<string>, edits: nat)

  /**
   `requests` is the history of loads asked for: the one of generation `g` is
   `requests[g - 1]`. `writes` are the texts of saves under way; `file` is the text
   last read from or written to its file.
   */
  datatype Doc = Doc(
    path: Option<string>,
    editor: string,
    text: string,
    edited: bool,
    changedOnDisk: bool,
    saving: bool,
    loading: bool,
    generation: nat,
    modified: Option<nat>,
    requests: seq<Request>,
    edits: nat,
    writes: seq<string>,
    file: string)

  datatype Event =
    | Edit(now: string)
    | Format(formatted: string)
    | Reload
    | ApplyParams
    | Changed(seen: Option<nat>)
    | Save
    | Saved(which: nat, ok: bool, at: Option<nat>)
    | SavedAs(to: string, wrote: string)
    | KeepMine
    | Loaded(of: nat, fromEditor: bool, found: string, at: Option<nat>)

  function Ask(d: Doc, why: Why, text: Option<string>): Doc {
    d.(loading := true, generation := d.generation + 1, requests := d.requests + [Request(why, text, d.edits)])
  }

  /** `load_from`: the file's text when `disk` or when nothing is edited, else the editor's. */
  function LoadFrom(d: Doc, why: Why, disk: bool): Doc {
    Ask(d, why, if d.edited && !disk then Some(d.editor) else None)
  }

  /** The editor's text changed: analysed once typing pauses. */
  function Edited(d: Doc, now: string): Doc {
    var e := d.(editor := now, edited := true, edits := d.edits + 1);
    Ask(e, Typed, Some(now))
  }

  function Drop(ts: seq<string>, i: nat): seq<string>
    requires i < |ts|
  {
    ts[..i] + ts[i + 1..]
  }

  /** A design just opened: its first load is asked for. */
  function Opening(path: Option<string>): Doc {
    LoadFrom(Doc(path, "", "", false, false, false, true, 0, None, [], 0, [], ""), Opened, false)
  }

  /** What the world can bring: the answer to a load or a save that was asked for. */
  predicate Possible(d: Doc, e: Event) {
    match e
    case Saved(which, _, _) => which < |d.writes|
    case Loaded(of, fromEditor, found, _) =>
      && 1 <= of <= |d.requests|
      && fromEditor == d.requests[of - 1].text.Some?
      && (fromEditor ==> found == d.requests[of - 1].text.value)
    case _ => true
  }

  function Step(d: Doc, e: Event): Doc
    requires Possible(d, e)
  {
    match e
    case Edit(now) => Edited(d, now)
    case Format(formatted) => if formatted == d.editor then d else Edited(d, formatted)
    case Reload => LoadFrom(d, Reloaded, true)
    case ApplyParams => LoadFrom(d, ParamsChanged, false)
    case Changed(seen) =>
      if d.saving then d.(modified := seen)
      else if d.edited then d.(modified := seen, changedOnDisk := true)
      else if !d.loading then LoadFrom(d.(modified := seen), FileChanged, true)
      else d
    case Save => if d.path.Some? then d.(saving := true, writes := d.writes + [d.editor]) else d
    case Saved(which, ok, at) =>
      SaveDone(d, which, ok, at)
    case SavedAs(to, wrote) =>
      LoadFrom(d.(path := Some(to), edited := false, changedOnDisk := false, file := wrote), SavedElsewhere, false)
    case KeepMine => d.(changedOnDisk := false)
    case Loaded(of, fromEditor, found, at) =>
      if of == d.generation then LoadDone(d, fromEditor, found, at) else d
  }

  function SaveDone(d: Doc, which: nat, ok: bool, at: Option<nat>): Doc
    requires which < |d.writes|
  {
    var rest := Drop(d.writes, which);
    if !ok then d.(saving := false, writes := rest)
    else
      d.(saving := false, writes := rest,
         edited := false, changedOnDisk := false, modified := at, file := d.writes[which])
  }

  function LoadDone(d: Doc, fromEditor: bool, found: string, at: Option<nat>): Doc {
    if fromEditor then d.(loading := false, text := found)
    else
      d.(loading := false, text := found, editor := found,
         edited := false, changedOnDisk := false, modified := at, file := found)
  }

  ghost predicate IsRun(path: Option<string>, docs: seq<Doc>, events: seq<Event>) {
    && |docs| == |events| + 1
    && docs[0] == Opening(path)
    && forall k :: 0 <= k < |events| ==> Possible(docs[k], events[k]) && docs[k + 1] == Step(docs[k], events[k])
  }

  function Last(d: Doc): Request
    requires d.requests != []
  {
    d.requests[|d.requests| - 1]
  }

  /**
   The last load asked for saw every edit; unless it was an explicit reload, one that
   reads the file was asked for with nothing edited since; and when no load is on its
   way, what was analysed is what the editor shows.
   */
  ghost predicate Safe(d: Doc) {
    && d.requests != [] && d.generation == |d.requests|
    && Last(d).edits == d.edits
    && (Last(d).text.None? && d.edited ==> Last(d).why == Reloaded)
    && (Last(d).text.Some? ==> Last(d).text.value == d.editor)
    && (!d.loading ==> d.text == d.editor)
  }

  lemma StepIsSafe(d: Doc, e: Event)
    requires Safe(d) && Possible(d, e)
    ensures Safe(Step(d, e))
  {
  }

  lemma {:induction false} RunIsSafe(path: Option<string>, docs: seq<Doc>, events: seq<Event>)
    requires IsRun(path, docs, events)
    ensures forall k :: 0 <= k < |docs| ==> Safe(docs[k])
  {
    var n := |events|;
    if n > 0 {
      RunIsSafe(path, docs[..n], events[..n - 1]);
      assert forall k :: 0 <= k < n ==> docs[..n][k] == docs[k];
      StepIsSafe(docs[n - 1], events[n - 1]);
    }
  }

  lemma LoadIsSafe(d: Doc, fromEditor: bool, found: string, at: Option<nat>)
    requires Safe(d) && Possible(d, Loaded(d.generation, fromEditor, found, at))
    ensures Safe(LoadDone(d, fromEditor, found, at))
  {
    StepIsSafe(d, Loaded(d.generation, fromEditor, found, at));
  }

  predicate Accepted(d: Doc, e: Event) {
    e.Loaded? && e.of == d.generation
  }

  /**
   Edit safety, in every run: a load taken in saw every edit made so far, so what it
   puts in the editor replaces no text typed after it was asked for; when it clears the
   `edited` flag it was asked for by an explicit reload; and any other load, older
   than the last one asked for, changes nothing.
   */
  lemma LoadsSpareEdits(path: Option<string>, docs: seq<Doc>, events: seq<Event>, k: nat)
    requires IsRun(path, docs, events) && k < |events| && events[k].Loaded?
    ensures var e := events[k];
            && (Accepted(docs[k], e) ==> docs[k].requests[e.of - 1].edits == docs[k].edits)
            && (docs[k].edited && !docs[k + 1].edited ==>
                  Accepted(docs[k], e) && !e.fromEditor && docs[k].requests[e.of - 1].why == Reloaded)
            && (docs[k].editor != docs[k + 1].editor ==> Accepted(docs[k], e) && !e.fromEditor)
            && (!Accepted(docs[k], e) ==> docs[k + 1] == docs[k])
  {
    RunIsSafe(path, docs, events);
    assert Safe(docs[k]);
  }

  /** In every run, when no load is on its way, the text analysed (and marked) is the text shown. */
  lemma MarksAreOfTheTextShown(path: Option<string>, docs: seq<Doc>, events: seq<Event>, k: nat)
    requires IsRun(path, docs, events) && k < |docs|
    ensures !docs[k].loading ==> docs[k].text == docs[k].editor
  {
    RunIsSafe(path, docs, events);
    assert Safe(docs[k]);
  }

  // ---- what the messages mean

  /** A change of the file: an idle, unedited tab reads it, and one with edits that is not saving asks. */
  lemma ChangedMeans(d: Doc, seen: Option<nat>)
    ensures var t := Step(d, Changed(seen));
            && t.editor == d.editor && t.edited == d.edited
            && (|t.requests| > |d.requests| <==> !d.saving && !d.edited && !d.loading)
            && (|t.requests| > |d.requests| ==> Last(t) == Request(FileChanged, None, d.edits))
            && (t.changedOnDisk <==> d.changedOnDisk || (!d.saving && d.edited))
            && (t.modified == seen || (d.loading && t == d))
  {
  }

  /** What is loaded: a reload reads the file, new parameters keep edits, and what is typed is what is analysed. */
  lemma AskedMeans(d: Doc, now: string)
    ensures Last(Step(d, Reload)) == Request(Reloaded, None, d.edits)
    ensures Last(Step(d, ApplyParams)) == Request(ParamsChanged, if d.edited then Some(d.editor) else None, d.edits)
    ensures Last(Step(d, Edit(now))) == Request(Typed, Some(now), d.edits + 1)
    ensures var t := Step(d, Edit(now)); t.edited && t.editor == now && t.loading
    ensures Step(d, Format(now)) == if now == d.editor then d else Step(d, Edit(now))
    ensures Step(d, Reload).loading && Step(d, ApplyParams).loading
  {
  }

  /** A save writes what the editor shows, for a tab with a file; its end settles things only if it worked. */
  lemma SaveMeans(d: Doc, which: nat, at: Option<nat>, ok: bool)
    ensures d.path.None? ==> Step(d, Save) == d
    ensures d.path.Some? ==> Step(d, Save).saving && Step(d, Save).writes == d.writes + [d.editor]
    ensures which < |d.writes| ==>
              var t := Step(d, Saved(which, ok, at));
              && !t.saving && t.editor == d.editor && |t.writes| == |d.writes| - 1
              && (forall j :: 0 <= j < |t.writes| ==> t.writes[j] == d.writes[if j < which then j else j + 1])
              && (ok ==> !t.edited && !t.changedOnDisk && t.file == d.writes[which] && t.modified == at)
              && (!ok ==> t.edited == d.edited && t.changedOnDisk == d.changedOnDisk && t.file == d.file)
    ensures Step(d, KeepMine) == d.(changedOnDisk := false)
  {
  }

  /** A design just opened asks for its file, and shows nothing yet; a save-as turns to the new file and asks for it. */
  lemma OpenedMeans(d: Doc, path: Option<string>, to: string, wrote: string)
    ensures var o := Opening(path);
            && o.path == path && !o.edited && o.loading && o.requests == [Request(Opened, None, 0)] && o.generation == 1
    ensures var t := Step(d, SavedAs(to, wrote));
            && t.path == Some(to) && !t.edited && !t.changedOnDisk && t.file == wrote && t.loading
            && t.requests == d.requests + [Request(SavedElsewhere, None, d.edits)]
  {
  }

  /** The last load asked for: what it found is what was analysed, and what a file gave is shown, unedited. */
  lemma LoadedMeans(d: Doc, e: Event)
    requires Possible(d, e) && Accepted(d, e)
    ensures var t := Step(d, e);
            && !t.loading && t.text == e.found
            && (e.fromEditor ==> t.editor == d.editor && t.edited == d.edited && t.changedOnDisk == d.changedOnDisk)
            && (!e.fromEditor ==> t.editor == e.found && !t.edited && !t.changedOnDisk && t.modified == e.at)
  {
  }

  // ---- edits and the file

  /** The editor does not change while a text is on its way to the file, and a save-as wrote what it shows. */
  ghost predicate Undisturbed(d: Doc, e: Event) {
    && (d.writes != [] && Possible(d, e) ==> Step(d, e).editor == d.editor)
    && (e.SavedAs? ==> e.wrote == d.editor)
  }

  /** What is not marked edited is what the file holds. */
  ghost predicate InStep(d: Doc) {
    && (!d.edited ==> d.editor == d.file)
    && (forall i :: 0 <= i < |d.writes| ==> d.writes[i] == d.editor)
  }

  lemma StepKeepsInStep(d: Doc, e: Event)
    requires InStep(d) && Possible(d, e) && Undisturbed(d, e)
    ensures InStep(Step(d, e))
  {
    if e.Saved? {
      var t := Step(d, e);
      forall i | 0 <= i < |t.writes|
        ensures t.writes[i] == t.editor
      {
        assert t.writes[i] == if i < e.which then d.writes[i] else d.writes[i + 1];
      }
    }
  }

  /** A load that puts the file's text in the editor, asked for by anything but a reload. */
  predicate TakesTheFile(d: Doc, e: Event) {
    Possible(d, e) && Accepted(d, e) && !e.fromEditor && d.requests[e.of - 1].why != Reloaded
  }

  /**
   In every run in which nothing disturbs a save under way, the flag tells the truth:
   unedited text is the one last read or written. Then a load that replaces the editor's
   text without an explicit reload replaces no other text than that.
   */
  lemma {:induction false} UneditedIsTheFile(path: Option<string>, docs: seq<Doc>, events: seq<Event>)
    requires IsRun(path, docs, events)
    requires forall k :: 0 <= k < |events| ==> Undisturbed(docs[k], events[k])
    ensures InStep(docs[|events|])
    ensures forall e :: TakesTheFile(docs[|events|], e) ==> docs[|events|].editor == docs[|events|].file
  {
    var n := |events|;
    if n > 0 {
      UneditedIsTheFile(path, docs[..n], events[..n - 1]);
      StepKeepsInStep(docs[n - 1], events[n - 1]);
    }
    RunIsSafe(path, docs, events);
    assert Safe(docs[n]);
  }

  /** The flag tells the truth: text not marked edited is the text last read from or written to the file. */
  ghost predicate Truthful(d: Doc) {
    !d.edited ==> d.editor == d.file
  }

  /** A save or a save-as that worked ends, and what it wrote is not what the editor shows. */
  predicate Misleads(d: Doc, e: Event) {
    || (e.Saved? && e.ok && e.which < |d.writes| && d.writes[e.which] != d.editor)
    || (e.SavedAs? && e.wrote != d.editor)
  }

  /** A true flag stays true if and only if no such save ends. */
  lemma TruthfulIff(d: Doc, e: Event)
    requires Truthful(d) && Possible(d, e)
    ensures Truthful(Step(d, e)) <==> !Misleads(d, e)
  {
  }

  ghost predicate AllTruthful(docs: seq<Doc>) {
    forall k :: 0 <= k < |docs| ==> Truthful(docs[k])
  }

  ghost predicate NoneMisleads(docs: seq<Doc>, events: seq<Event>) {
    forall k :: 0 <= k < |events| && k < |docs| ==> !Misleads(docs[k], events[k])
  }

  lemma TruthfulMore(docs: seq<Doc>)
    requires docs != []
    ensures var n := |docs| - 1; AllTruthful(docs) <==> AllTruthful(docs[..n]) && Truthful(docs[n])
  {
    var n := |docs| - 1;
    assert forall k :: 0 <= k < n ==> docs[..n][k] == docs[k];
  }

  lemma MisleadsMore(docs: seq<Doc>, events: seq<Event>)
    requires |docs| == |events| + 1 && events != []
    ensures var n := |events| - 1;
            NoneMisleads(docs, events) <==> NoneMisleads(docs[..n + 1], events[..n]) && !Misleads(docs[n], events[n])
  {
    var n := |events| - 1;
    assert forall k :: 0 <= k < n ==> docs[..n + 1][k] == docs[k] && events[..n][k] == events[k];
  }

  /**
   In every run the flag tells the truth all along if and only if no save or save-as
   that worked ended while the editor showed another text than it wrote.
   */
  lemma {:induction false} FlagIsTrueIff(path: Option<string>, docs: seq<Doc>, events: seq<Event>)
    requires IsRun(path, docs, events)
    ensures AllTruthful(docs) <==> NoneMisleads(docs, events)
  {
    var n := |events|;
    if n > 0 {
      FlagIsTrueIff(path, docs[..n], events[..n - 1]);
      MisleadsMore(docs, events);
      TruthfulMore(docs);
      if AllTruthful(docs[..n]) {
        assert docs[..n][n - 1] == docs[n - 1];
        TruthfulIff(docs[n - 1], events[n - 1]);
      }
    }
  }

  /** What is typed while a save is under way is neither in the file nor marked edited when the save ends. */
  lemma TypingWhileSaving(d: Doc, now: string, at: Option<nat>)
    requires d.path.Some? && d.writes == [] && now != d.editor
    ensures var typed := Step(Step(d, Save), Edit(now));
            && Possible(typed, Saved(0, true, at))
            && var end := Step(typed, Saved(0, true, at));
               !end.edited && end.editor == now && end.file == d.editor
  {
  }

  /** After a save-as the tab turns to the file written and shows it, whatever the editor held, edited or not. */
  lemma SavedAsShowsTheFile(d: Doc, to: string, wrote: string, at: Option<nat>)
    requires Safe(d)
    ensures var saved := Step(d, SavedAs(to, wrote));
            var read := Loaded(saved.generation, false, wrote, at);
            && !saved.edited && Possible(saved, read)
            && Step(saved, read).editor == wrote && !Step(saved, read).edited
  {
  }

  /** So what is typed while a save-as is under way is lost, and no reload was asked for. */
  lemma TypingWhileSavingAs(d: Doc, now: string, to: string, at: Option<nat>)
    requires Safe(d)
    ensures var saved := Step(Step(d, Edit(now)), SavedAs(to, d.editor));
            var read := Loaded(saved.generation, false, d.editor, at);
            Possible(saved, read) && Step(saved, read).editor == d.editor && !Step(saved, read).edited
  {
    StepIsSafe(d, Edit(now));
    SavedAsShowsTheFile(Step(d, Edit(now)), to, d.editor, at);
  }

  // ---- the arms themselves

  /** A design's tab, changed in place by the messages about it. */
  class Tab {
    var path: Option<string>
    var editor: string
    var text: string
    var edited: bool
    var changedOnDisk: bool
    var saving: bool
    var loading: bool
    var generation: nat
    var modified: Option<nat>
    ghost var requests: seq<Request>
    ghost var edits: nat
    ghost var writes: seq<string>
    ghost var file: string

    ghost function Now(): Doc
      reads this
    {
      Doc(path, editor, text, edited, changedOnDisk, saving, loading, generation, modified,
          requests, edits, writes, file)
    }

    ghost predicate Valid()
      reads this
    {
      Safe(Now())
    }

    constructor (source: Option<string>)
      ensures Valid() && Now() == Opening(source)
    {
      path, editor, text, edited, changedOnDisk, saving := source, "", "", false, false, false;
      loading, generation, modified := true, 0, None;
      requests, edits, writes, file := [], 0, [], "";
      new;
      LoadFromSource(Opened, false);
    }

    /**
     A load asked for saw everything typed, and none asked for before is taken in any
     more. One that reads the file over edits is a reload.
     */
    method LoadFromSource(ghost why: Why, disk: bool)
      requires generation == |requests| && (disk && edited ==> why == Reloaded)
      modifies this`loading, this`generation, this`requests
      ensures Valid() && Now() == LoadFrom(old(Now()), why, disk)
      ensures forall e: Event :: e.Loaded? && e.of <= old(generation) ==> !Accepted(Now(), e)
    {
      loading := true;
      generation := generation + 1;
      requests := requests + [Request(why, if edited && !disk then Some(editor) else None, edits)];
    }

    /** The text just typed is what the next load analyses. */
    method Analyze()
      requires generation == |requests|
      modifies this`loading, this`generation, this`requests
      ensures Valid() && Now() == Ask(old(Now()), Typed, Some(editor))
    {
      loading := true;
      generation := generation + 1;
      requests := requests + [Request(Typed, Some(editor), edits)];
    }

    /** The `Edit` and `Format` arms once they have the new text: what was on its way is dropped. */
    method TakeText(now: string)
      requires Valid()
      modifies this
      ensures Valid() && Now() == Edited(old(Now()), now)
      ensures forall e: Event :: e.Loaded? && e.of <= old(generation) ==> !Accepted(Now(), e)
    {
      editor, edits := now, edits + 1;
      edited := true;
      Analyze();
    }

    /** A change of the file leaves edits alone: it asks for a load only when there are none. */
    method FileChange(seen: Option<nat>)
      requires Valid()
      modifies this
      ensures Valid() && Now() == Step(old(Now()), Changed(seen))
      ensures editor == old(editor) && edited == old(edited) && (edited ==> generation == old(generation))
    {
      if saving {
        modified := seen;
      } else if edited {
        modified := seen;
        changedOnDisk := true;
      } else if !loading {
        modified := seen;
        LoadFromSource(FileChanged, true);
      }
    }

    /** The flag is true after a save if it was and what was written is what the editor shows. */
    method SaveEnded(ghost which: nat, ok: bool, at: Option<nat>)
      requires Valid() && which < |writes|
      modifies this
      ensures Valid() && Now() == SaveDone(old(Now()), which, ok, at)
      ensures old(Truthful(Now())) ==> (Truthful(Now()) <==> !(ok && old(writes[which]) != editor))
    {
      saving := false;
      if ok {
        edited, changedOnDisk, modified, file := false, false, at, writes[which];
      }
      writes := Drop(writes, which);
    }

    method SavedUnder(to: string, ghost wrote: string)
      requires Valid()
      modifies this
      ensures Valid() && Now() == Step(old(Now()), SavedAs(to, wrote))
    {
      path, file := Some(to), wrote;
      edited, changedOnDisk := false, false;
      LoadFromSource(SavedElsewhere, false);
    }

    /** A load that is not the last one asked for changes nothing. */
    method TakeLoad(of: nat, fromEditor: bool, found: string, at: Option<nat>)
      requires Valid() && Possible(Now(), Loaded(of, fromEditor, found, at))
      modifies this`loading, this`text, this`editor, this`file, this`edited, this`changedOnDisk, this`modified
      ensures Valid()
      ensures Now() == if of == old(generation) then LoadDone(old(Now()), fromEditor, found, at) else old(Now())
    {
      if of != generation {
        return;
      }
      LoadIsSafe(Now(), fromEditor, found, at);
      loading := false;
      if !fromEditor {
        ShowFile(found, at);
      }
      text := found;
    }

    method ShowFile(found: string, at: Option<nat>)
      modifies this`editor, this`file, this`edited, this`changedOnDisk, this`modified
      ensures editor == found && file == found && !edited && !changedOnDisk && modified == at
    {
      editor, file := found, found;
      edited := false;
      changedOnDisk := false;
      modified := at;
    }

    /**
     What a message does to the tab is a step of the protocol. A load that clears the
     `edited` flag was asked for by a reload, and saw every edit.
     */
    method Reduce(e: Event)
      requires Valid() && Possible(Now(), e)
      modifies this
      ensures Valid() && Now() == Step(old(Now()), e)
      ensures e.Loaded? && old(edited) && !edited ==>
                old(requests)[e.of - 1].why == Reloaded && old(requests)[e.of - 1].edits == old(edits)
    {
      match e
      case Edit(now) => TakeText(now);
      case Format(formatted) =>
        if formatted != editor {
          TakeText(formatted);
        }
      case Reload => LoadFromSource(Reloaded, true);
      case ApplyParams => LoadFromSource(ParamsChanged, false);
      case Changed(seen) => FileChange(seen);
      case Save =>
        if path.Some? {
          saving, writes := true, writes + [editor];
        }
      case Saved(which, ok, at) => SaveEnded(which, ok, at);
      case SavedAs(to, wrote) => SavedUnder(to, wrote);
      case KeepMine => changedOnDisk := false;
      case Loaded(of, fromEditor, found, at) => TakeLoad(of, fromEditor, found, at);
    }
  }
}
