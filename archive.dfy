/** The `save` command: it moves the working store into a timestamped pair of output
    files, a text report and a JSON array, after removing repeated questions. */
module Archive {
  import opened Questions
  import opened Text
  import opened Files
  import opened Render
  import opened Deduplication
  import Capture

  datatype SaveOutcome =
    | NoData
      /** The store does not hold a JSON array of questions: `json.load` raises on it, or
          it holds another JSON value, which the source either reports as no data (a
          falsy one) or fails on later. */
    | Unreadable
      /** `deduplicate_questions` raises `KeyError` on a question without `answers`. */
    | MissingAnswers
    | Saved(txtPath: string, jsonPath: string)

  const OutputDir := "output"

  /** `os.path.join('output', timestamp + extension)` with a POSIX separator. */
  function OutputPath(timestamp: string, extension: string): string {
    OutputDir + "/" + timestamp + extension
  }

  /** No output file name is the store's name, so writing the outputs never touches the store. */
  lemma OutputPathIsNotStore(timestamp: string, extension: string)
    ensures OutputPath(timestamp, extension) != Capture.StorePath
  {
    assert OutputPath(timestamp, extension)[0] == 'o';
    assert Capture.StorePath[0] == 'i';
  }

  /** A list of questions that `deduplicate_questions` accepts is one the renderer accepts
      after deduplication. */
  lemma DedupRenderable(qs: seq<Question>)
    requires HasAnswers(qs)
    ensures Renderable(Dedup(qs))
  {
  }

  /** The text report of the deduplicated questions. */
  function Report(qs: seq<Question>): string
    requires HasAnswers(qs)
  {
    DedupRenderable(qs);
    JoinWith(RenderLines(Dedup(qs), SourceBases()), "\n")
  }

  /** What one `save` does to the working directory: its outcome, the files afterwards,
      and the writes and removals in the order they happen. */
  datatype SaveEffect = SaveEffect(outcome: SaveOutcome, files: map<string, File>, events: seq<Event>)

  function SaveSpec(files: map<string, File>, timestamp: string): (e: SaveEffect)
    ensures !e.outcome.Saved? ==> e.files == files && e.events == []
  {
    if Capture.StorePath !in files then SaveEffect(NoData, files, [])
    else match files[Capture.StorePath]
      case TextFile(_) => SaveEffect(Unreadable, files, [])
      case JsonFile(qs) =>
        if qs == [] then SaveEffect(NoData, files, [])
        else if !HasAnswers(qs) then SaveEffect(MissingAnswers, files, [])
        else
          var txt, json := OutputPath(timestamp, ".txt"), OutputPath(timestamp, ".json");
          SaveEffect(Saved(txt, json),
                     files[txt := TextFile(Report(qs))][json := JsonFile(Dedup(qs))] - {Capture.StorePath},
                     [Wrote(txt), Wrote(json), Removed(Capture.StorePath)])
  }

  /** The effect of a save that finds a readable, non-empty store whose questions all
      have answers. */
  lemma SavedEffect(files: map<string, File>, timestamp: string, qs: seq<Question>)
    requires Capture.StorePath in files && files[Capture.StorePath] == JsonFile(qs)
    requires qs != [] && HasAnswers(qs)
    ensures var txt, json := OutputPath(timestamp, ".txt"), OutputPath(timestamp, ".json");
            SaveSpec(files, timestamp)
            == SaveEffect(Saved(txt, json),
                          files[txt := TextFile(Report(qs))][json := JsonFile(Dedup(qs))] - {Capture.StorePath},
                          [Wrote(txt), Wrote(json), Removed(Capture.StorePath)])
  {
  }

  /** `save` as the command runs it, on the working directory `fs` at the moment `timestamp`. */
  method Save(fs: FileStore, timestamp: string) returns (outcome: SaveOutcome)
    modifies fs
    ensures outcome == SaveSpec(old(fs.files), timestamp).outcome
    ensures fs.files == SaveSpec(old(fs.files), timestamp).files
    ensures fs.log == old(fs.log) + SaveSpec(old(fs.files), timestamp).events
  {
    if Capture.StorePath !in fs.files {
      return NoData;
    }
    var stored := fs.files[Capture.StorePath];
    if stored.TextFile? {
      return Unreadable;
    }
    var questionsList := stored.questions;
    if questionsList == [] {
      return NoData;
    }
    if !HasAnswers(questionsList) {
      return MissingAnswers;
    }
    SavedEffect(fs.files, timestamp, questionsList);
    outcome := WriteArchive(fs, timestamp, questionsList);
  }

  /** The part of `save` after the store is read: deduplicate, render, write the text
      file, then the JSON file, then remove the store. */
  method WriteArchive(fs: FileStore, timestamp: string, questionsList: seq<Question>) returns (outcome: SaveOutcome)
    requires Capture.StorePath in fs.files && HasAnswers(questionsList)
    modifies fs
    ensures outcome == Saved(OutputPath(timestamp, ".txt"), OutputPath(timestamp, ".json"))
    ensures fs.files == old(fs.files)[outcome.txtPath := TextFile(Report(questionsList))]
                                     [outcome.jsonPath := JsonFile(Dedup(questionsList))] - {Capture.StorePath}
    ensures fs.log == old(fs.log) + [Wrote(outcome.txtPath), Wrote(outcome.jsonPath), Removed(Capture.StorePath)]
  {
    var deduplicated := DeduplicateQuestions(questionsList);
    var txt, json := OutputPath(timestamp, ".txt"), OutputPath(timestamp, ".json");
    DedupRenderable(questionsList);
    var questionsText := RenderQuestionsToText(deduplicated);
    fs.Write(txt, TextFile(questionsText));
    fs.Write(json, JsonFile(deduplicated));
    OutputPathIsNotStore(timestamp, ".txt");
    OutputPathIsNotStore(timestamp, ".json");
    fs.Remove(Capture.StorePath);
    return Saved(txt, json);
  }

  /** The two output files of one save are distinct. */
  lemma OutputPathsDiffer(timestamp: string)
    ensures OutputPath(timestamp, ".txt") != OutputPath(timestamp, ".json")
  {
    var n := |OutputDir + "/" + timestamp|;
    assert OutputPath(timestamp, ".txt")[n + 1] == 't';
    assert OutputPath(timestamp, ".json")[n + 1] == 'j';
  }

  /** A save succeeds only on a readable, non-empty store whose questions all have answers. */
  lemma SavedStore(files: map<string, File>, timestamp: string)
    requires SaveSpec(files, timestamp).outcome.Saved?
    ensures Capture.StorePath in files && files[Capture.StorePath].JsonFile?
    ensures files[Capture.StorePath].questions != [] && HasAnswers(files[Capture.StorePath].questions)
  {
  }

  /** A successful save names its outputs after the timestamp, leaves the store gone, the
      deduplicated questions in the JSON file and their report in the text file. */
  lemma SaveWritesArchive(files: map<string, File>, timestamp: string)
    requires SaveSpec(files, timestamp).outcome.Saved?
    ensures Capture.StorePath in files && files[Capture.StorePath].JsonFile?
    ensures HasAnswers(files[Capture.StorePath].questions)
    ensures SaveSpec(files, timestamp).outcome == Saved(OutputPath(timestamp, ".txt"), OutputPath(timestamp, ".json"))
    ensures Capture.StorePath !in SaveSpec(files, timestamp).files
    ensures OutputPath(timestamp, ".json") in SaveSpec(files, timestamp).files
    ensures SaveSpec(files, timestamp).files[OutputPath(timestamp, ".json")]
              == JsonFile(Dedup(files[Capture.StorePath].questions))
    ensures OutputPath(timestamp, ".txt") in SaveSpec(files, timestamp).files
    ensures SaveSpec(files, timestamp).files[OutputPath(timestamp, ".txt")]
              == TextFile(Report(files[Capture.StorePath].questions))
  {
    SavedStore(files, timestamp);
    SavedEffect(files, timestamp, files[Capture.StorePath].questions);
    OutputPathIsNotStore(timestamp, ".txt");
    OutputPathIsNotStore(timestamp, ".json");
    OutputPathsDiffer(timestamp);
  }

  /** A successful save leaves every file other than the store and its two outputs as it was. */
  lemma SaveKeepsOtherFiles(files: map<string, File>, timestamp: string, p: string)
    requires SaveSpec(files, timestamp).outcome.Saved?
    requires p != OutputPath(timestamp, ".txt") && p != OutputPath(timestamp, ".json") && p != Capture.StorePath
    ensures p in SaveSpec(files, timestamp).files <==> p in files
    ensures p in files ==> SaveSpec(files, timestamp).files[p] == files[p]
  {
    SavedStore(files, timestamp);
    var qs := files[Capture.StorePath].questions;
    SavedEffect(files, timestamp, qs);
    UntouchedPath(files, OutputPath(timestamp, ".txt"), TextFile(Report(qs)),
                  OutputPath(timestamp, ".json"), JsonFile(Dedup(qs)), Capture.StorePath, p);
  }

  /** A path other than the two written and the one removed keeps its contents. */
  lemma UntouchedPath(files: map<string, File>, a: string, x: File, b: string, y: File, gone: string, p: string)
    requires p != a && p != b && p != gone
    ensures p in files[a := x][b := y] - {gone} <==> p in files
    ensures p in files ==> (files[a := x][b := y] - {gone})[p] == files[p]
  {
  }

  /** A successful save leaves a JSON file holding one question per key of the store,
      each taken from the store, and a text file holding their report. */
  lemma SaveArchivesDistinctQuestions(files: map<string, File>, timestamp: string)
    requires SaveSpec(files, timestamp).outcome.Saved?
    ensures var e := SaveSpec(files, timestamp);
            var txt, json := e.outcome.txtPath, e.outcome.jsonPath;
            var qs := files[Capture.StorePath].questions;
            && HasAnswers(qs)
            && json in e.files && e.files[json].JsonFile?
            && DistinctKeys(e.files[json].questions)
            && KeysOf(e.files[json].questions) == KeysOf(qs)
            && (forall q :: q in e.files[json].questions ==> q in qs)
            && txt in e.files
            && e.files[txt] == TextFile(JoinWith(RenderLines(e.files[json].questions, SourceBases()), "\n"))
  {
    SaveWritesArchive(files, timestamp);
    var qs := files[Capture.StorePath].questions;
    DedupDistinct(qs);
    DedupKeys(qs);
    DedupFromInput(qs);
  }

  /** Saving again after a successful save finds no data. */
  lemma SaveTwiceFindsNoData(files: map<string, File>, timestamp: string, later: string)
    requires SaveSpec(files, timestamp).outcome.Saved?
    ensures SaveSpec(SaveSpec(files, timestamp).files, later).outcome == NoData
  {
  }

  /** A save that fails or finds nothing leaves the working directory untouched, so the
      questions captured so far are still in the store. */
  lemma FailedSaveKeepsStore(files: map<string, File>, timestamp: string)
    requires !SaveSpec(files, timestamp).outcome.Saved?
    ensures Capture.StorePath in files ==>
              Capture.StorePath in SaveSpec(files, timestamp).files
              && SaveSpec(files, timestamp).files[Capture.StorePath] == files[Capture.StorePath]
  {
  }

  /** What a save does to a store holding `qs`, other files being `files`. */
  lemma SaveOfStore(files: map<string, File>, qs: seq<Question>, timestamp: string)
    requires qs != [] && HasAnswers(qs)
    ensures var txt, json := OutputPath(timestamp, ".txt"), OutputPath(timestamp, ".json");
            SaveSpec(files[Capture.StorePath := JsonFile(qs)], timestamp)
            == SaveEffect(Saved(txt, json),
                          (files - {Capture.StorePath})[txt := TextFile(Report(qs))][json := JsonFile(Dedup(qs))],
                          [Wrote(txt), Wrote(json), Removed(Capture.StorePath)])
  {
    SavedEffect(files[Capture.StorePath := JsonFile(qs)], timestamp, qs);
    OutputPathIsNotStore(timestamp, ".txt");
    OutputPathIsNotStore(timestamp, ".json");
    ReplacedThenRemoved(files, Capture.StorePath, JsonFile(qs), OutputPath(timestamp, ".txt"), TextFile(Report(qs)),
                        OutputPath(timestamp, ".json"), JsonFile(Dedup(qs)));
  }

  /** Writing two other paths commutes with removing a path, whatever that path held. */
  lemma ReplacedThenRemoved(files: map<string, File>, gone: string, held: File, a: string, x: File, b: string, y: File)
    requires a != gone && b != gone
    ensures files[gone := held][a := x][b := y] - {gone} == (files - {gone})[a := x][b := y]
  {
  }

  /** The session stored twice archives exactly as the session stored once. */
  lemma DoubleStoreArchivesOnce(files: map<string, File>, qs: seq<Question>, timestamp: string)
    requires qs != [] && HasAnswers(qs)
    ensures HasAnswers(qs + qs)
    ensures var once := SaveSpec(files[Capture.StorePath := JsonFile(qs)], timestamp);
            var twice := SaveSpec(files[Capture.StorePath := JsonFile(qs + qs)], timestamp);
            once.outcome.Saved? && twice == once
  {
    DoubleCaptureCollapses(qs);
    assert Report(qs + qs) == Report(qs);
    SaveOfStore(files, qs, timestamp);
    SaveOfStore(files, qs + qs, timestamp);
  }
}
