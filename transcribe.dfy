/** The control flow of the tool's entry point: decide whether the input is an
    existing local file, a URL to download, or neither; stage a download in a
    temporary directory when no video path is given; transcribe; release the
    temporary directory on every way out.

    The outside world (the file system, the downloader, the speech model, the
    transcript file) is not run: its answers for one invocation are a `World`
    value, and what the tool asks of it is recorded, in order, as `Effect`s. */
module Transcribe {
  import opened UrlHeuristic

  datatype Option<T> = None | Some(value: T)

  /** The command-line arguments the entry point reads. */
  datatype Args = Args(input: string, model: string, saveVideo: Option<string>, saveTranscript: Option<string>)

  /** How the speech model behaves: loading it may raise, transcribing may
      raise, or it produces the transcript text. */
  datatype ModelBehaviour = LoadRaises | TranscribeRaises | Produces(text: string)

  /** The answers of the outside world for one invocation. */
  datatype World = World(
    pathExists: bool,          // whether the input names an existing path
    tempDirCreatable: bool,    // whether a temporary directory can be created
    tempDirName: string,       // the name of that directory, should one be created
    downloadSucceeds: bool,    // whether the downloader reports success
    model: ModelBehaviour,
    writeSucceeds: bool,       // whether the transcript file can be opened and written
    printSucceeds: bool,       // whether printing the transcript to standard output succeeds
    cleanupSucceeds: bool)     // whether removing the temporary directory succeeds

  /** What the tool asks of the outside world. A download, a model load, a
      transcription and a cleanup are recorded when they are called, whether
      or not they then fail or raise. A directory creation, a transcript write
      and the transcript print are recorded only when they succeed: a failed
      `TemporaryDirectory()`, a transcript file that cannot be opened or
      written, and a raising print leave no entry. */
  datatype Effect =
    | CreateTempDir(name: string)
    | Download(url: string, dest: string)
    | LoadModel(modelName: string)
    | TranscribeFile(path: string)
    | WriteTranscript(path: string, text: string)
    | PrintTranscript(text: string)
    | CleanupTempDir(name: string)

  /** How an invocation ends: a reported invalid input, a reported failed
      download (both return normally), an exception propagating out of the
      entry point, or a printed transcript. */
  datatype Outcome = NotRun | InvalidInput | DownloadFailed | Raised | Completed(text: string)

  /** Python truthiness of an optional string argument: given and not empty. */
  predicate Given(arg: Option<string>)
  {
    arg.Some? && arg.value != ""
  }

  /** `os.path.join(dir, name)` on POSIX for a relative `name`: the name alone
      after an empty directory, no separator added after a trailing "/". */
  function JoinPath(dir: string, name: string): (r: string)
    requires name == "" || name[0] != '/'
    // the directory comes first, the name last, with at most one "/" added between
    ensures StartsWith(r, dir) && |dir| + |name| <= |r| <= |dir| + |name| + 1
    ensures r[|r| - |name|..] == name
    ensures dir != "" ==> r[|r| - |name| - 1] == '/'
    // no "/" is added after an empty directory or one that already ends in "/"
    ensures |r| == |dir| + |name| <==> dir == "" || dir[|dir| - 1] == '/'
  {
    if dir == "" || dir[|dir| - 1] == '/' then
      var r := dir + name;
      assert r[..|dir|] == dir && r[|r| - |name|..] == name;
      r
    else
      var r := dir + "/" + name;
      assert r[..|dir|] == dir && r[|r| - |name|..] == name;
      r
  }

  /** The path a download goes to when no `--save-video` path is given. */
  function TempVideoPath(tempDirName: string): (r: string)
    // a file named video.mp4 inside the directory
    ensures StartsWith(r, tempDirName) && |r| >= |tempDirName| + 9
    ensures r[|r| - 9..] == "video.mp4"
    ensures tempDirName != "" ==> r[|r| - 10] == '/'
    // at most one "/" between them, and none after an empty directory or a trailing "/"
    ensures |r| <= |tempDirName| + 10
    ensures |r| == |tempDirName| + 9 <==> tempDirName == "" || tempDirName[|tempDirName| - 1] == '/'
  {
    JoinPath(tempDirName, "video.mp4")
  }

  /** Where a URL input is downloaded to: the `--save-video` path when one is
      given, a file in the temporary directory otherwise. */
  function DownloadPath(args: Args, world: World): string
  {
    if Given(args.saveVideo) then args.saveVideo.value else TempVideoPath(world.tempDirName)
  }

  /** The three ways the entry point treats its input. */
  datatype InputKind = LocalFile | Url | Invalid

  /** How the entry point classifies its input; the existence check comes first. */
  function Classify(input: string, pathExists: bool): InputKind
  {
    if pathExists then LocalFile
    else if IsLikelyUrl(input) then Url
    else Invalid
  }

  /** A URL input whose download target could be set up: a `--save-video`
      path was given, or the temporary directory could be created. */
  predicate Staged(args: Args, world: World)
  {
    Classify(args.input, world.pathExists) == Url && (Given(args.saveVideo) || world.tempDirCreatable)
  }

  /** What a URL run asks of the world before the transcription block: create
      the temporary directory when no `--save-video` path is given, then
      download to the chosen path. */
  function StagedEffects(args: Args, world: World): seq<Effect>
  {
    (if !Given(args.saveVideo) then [CreateTempDir(world.tempDirName)] else []) +
    [Download(args.input, DownloadPath(args, world))]
  }

  /** The observable state at the end of a run. */
  datatype Summary = Summary(
    tempCreated: bool,
    cleanupCount: nat,
    transcribed: bool,
    outcome: Outcome,
    trace: seq<Effect>)

  /** The reference behaviour of one run of the entry point, as a function of
      the arguments and the outside world's answers. */
  function ExpectedRun(args: Args, world: World): Summary
  {
    match Classify(args.input, world.pathExists)
    case Invalid => Summary(false, 0, false, InvalidInput, [])
    case LocalFile => TryAndRelease(args, world, false, args.input, [])
    case Url =>
      var temp := !Given(args.saveVideo);
      if temp && !world.tempDirCreatable then
        Summary(false, 0, false, Raised, [])
      else
        var staged := StagedEffects(args, world);
        if world.downloadSucceeds then
          TryAndRelease(args, world, temp, DownloadPath(args, world), staged)
        else
          Summary(temp, if temp then 1 else 0, false,
                  if temp && !world.cleanupSucceeds then Raised else DownloadFailed,
                  staged + if temp then [CleanupTempDir(world.tempDirName)] else [])
  }

  /** How the transcription block ends: loading the model, transcribing,
      opening or writing the transcript file, and printing may each raise. */
  function BlockOutcome(args: Args, world: World): Outcome
  {
    match world.model
    case Produces(text) =>
      if (Given(args.saveTranscript) && !world.writeSucceeds) || !world.printSucceeds then Raised
      else Completed(text)
    case _ => Raised
  }

  /** What the transcription block asks of the outside world, in order: load
      the model, transcribe `file`, save the text when asked, print it. */
  function BlockEffects(args: Args, world: World, file: string): seq<Effect>
  {
    var saved := world.model.Produces? && Given(args.saveTranscript) && world.writeSucceeds;
    var printed := world.model.Produces? && (!Given(args.saveTranscript) || world.writeSucceeds) && world.printSucceeds;
    [LoadModel(args.model)] +
    (if world.model != LoadRaises then [TranscribeFile(file)] else []) +
    (if saved then [WriteTranscript(args.saveTranscript.value, world.model.text)] else []) +
    (if printed then [PrintTranscript(world.model.text)] else [])
  }

  /** The transcription block and the cleanup after it: the temporary
      directory, if `temp`, is released whether or not the block raises, and a
      raising cleanup makes the run end with that exception. `before` is what
      happened earlier in the run. */
  function TryAndRelease(args: Args, world: World, temp: bool, file: string, before: seq<Effect>): Summary
  {
    Summary(temp, if temp then 1 else 0, world.model != LoadRaises,
            if temp && !world.cleanupSucceeds then Raised else BlockOutcome(args, world),
            before + BlockEffects(args, world, file) + if temp then [CleanupTempDir(world.tempDirName)] else [])
  }

  /** An existing path is transcribed as a local file even when it also looks
      like a URL: no temporary directory, no download. */
  lemma ExistingPathIsLocalFile(args: Args, world: World)
    requires world.pathExists
    ensures var s := ExpectedRun(args, world);
      && !s.tempCreated && s.cleanupCount == 0
      && (forall e | e in s.trace :: !e.Download? && !e.CreateTempDir?)
      && (s.transcribed <==> world.model != LoadRaises)
      && (s.transcribed ==> TranscribeFile(args.input) in s.trace)
  {
  }

  /** An input that is neither an existing path nor URL-like ends the run at
      once: nothing is created, nothing is attempted, nothing is asked of the
      outside world. No other input ends as invalid. */
  lemma InvalidInputDoesNothing(args: Args, world: World)
    ensures var s := ExpectedRun(args, world);
      && (s.outcome == InvalidInput <==> !world.pathExists && !IsLikelyUrl(args.input))
      && (s.outcome == InvalidInput ==> !s.tempCreated && !s.transcribed && s.trace == [])
  {
  }

  /** A temporary directory is created exactly for a URL-like input that is not
      an existing path when no `--save-video` path is given (and the system can
      create one); it is then the first thing the run does, and it is created
      at most once. */
  lemma TempDirOnlyForUnsavedUrl(args: Args, world: World)
    ensures var s := ExpectedRun(args, world);
      && (s.tempCreated <==>
            !world.pathExists && IsLikelyUrl(args.input) && !Given(args.saveVideo) && world.tempDirCreatable)
      && (s.tempCreated ==> |s.trace| > 0 && s.trace[0] == CreateTempDir(world.tempDirName))
      && (forall i | 0 <= i < |s.trace| :: s.trace[i].CreateTempDir? ==> s.tempCreated && i == 0)
  {
    match Classify(args.input, world.pathExists)
    case Invalid =>
    case LocalFile =>
      CreatedFirst(args, world, false, args.input, []);
    case Url =>
      var temp := !Given(args.saveVideo);
      if (!temp || world.tempDirCreatable) && world.downloadSucceeds {
        var staged := StagedEffects(args, world);
        CreatedFirst(args, world, temp, DownloadPath(args, world), staged);
      }
  }

  /** The transcription block and the cleanup after it create no directory:
      any creation in the trace comes from the effects before them. */
  lemma CreatedFirst(args: Args, world: World, temp: bool, file: string, before: seq<Effect>)
    requires forall i | 0 <= i < |before| :: before[i].CreateTempDir? ==> i == 0
    ensures var s := TryAndRelease(args, world, temp, file, before);
      forall i | 0 <= i < |s.trace| :: s.trace[i].CreateTempDir? ==> i == 0 && i < |before|
  {
    var s := TryAndRelease(args, world, temp, file, before);
    assert forall e | e in s.trace[|before|..] :: !e.CreateTempDir?;
    forall i | |before| <= i < |s.trace|
      ensures !s.trace[i].CreateTempDir?
    {
      assert s.trace[i] == s.trace[|before|..][i - |before|];
    }
  }

  /** When the temporary directory cannot be created, the run ends with that
      exception before anything else happens. */
  lemma TempDirFailureRaises(args: Args, world: World)
    requires Classify(args.input, world.pathExists) == Url && !Given(args.saveVideo) && !world.tempDirCreatable
    ensures var s := ExpectedRun(args, world);
      s.outcome == Raised && !s.tempCreated && !s.transcribed && s.trace == []
  {
  }

  /** A created temporary directory is released exactly once, and last, on
      every exit: after a failed download, after a raising model, transcript
      file or print, and after a completed transcription. */
  lemma TempDirReleasedOnce(args: Args, world: World)
    ensures var s := ExpectedRun(args, world);
      && s.cleanupCount == (if s.tempCreated then 1 else 0)
      && (s.tempCreated ==> |s.trace| > 0 && s.trace[|s.trace| - 1] == CleanupTempDir(world.tempDirName))
      && (forall i | 0 <= i < |s.trace| :: s.trace[i].CleanupTempDir? ==> s.tempCreated && i == |s.trace| - 1)
  {
    var s := ExpectedRun(args, world);
    match Classify(args.input, world.pathExists)
    case Invalid =>
    case LocalFile =>
      ReleasedLast(args, world, false, args.input, []);
    case Url =>
      var temp := !Given(args.saveVideo);
      if !temp || world.tempDirCreatable {
        var staged := StagedEffects(args, world);
        if world.downloadSucceeds {
          ReleasedLast(args, world, temp, DownloadPath(args, world), staged);
        } else {
          assert s.trace == staged + if temp then [CleanupTempDir(world.tempDirName)] else [];
        }
      }
  }

  /** The transcription block adds no cleanup of its own, and the one after it
      comes last. */
  lemma ReleasedLast(args: Args, world: World, temp: bool, file: string, before: seq<Effect>)
    requires forall e | e in before :: !e.CleanupTempDir?
    ensures var s := TryAndRelease(args, world, temp, file, before);
      && (temp ==> |s.trace| > 0 && s.trace[|s.trace| - 1] == CleanupTempDir(world.tempDirName))
      && (forall i | 0 <= i < |s.trace| :: s.trace[i].CleanupTempDir? ==> temp && i == |s.trace| - 1)
  {
    var s := TryAndRelease(args, world, temp, file, before);
    var n := |s.trace| - (if temp then 1 else 0);
    assert forall e | e in s.trace[..n] :: !e.CleanupTempDir?;
  }

  /** A URL is downloaded exactly when it is not an existing path and its
      target could be set up, to the `--save-video` path when one is given and
      into the temporary directory otherwise. */
  lemma DownloadOnlyForUrl(args: Args, world: World)
    ensures var s := ExpectedRun(args, world);
      && (Staged(args, world) ==> Download(args.input, DownloadPath(args, world)) in s.trace)
      && (forall e | e in s.trace :: e.Download? ==>
            Staged(args, world) && e == Download(args.input, DownloadPath(args, world)))
  {
  }

  /** Transcription is attempted only on an existing local file or after a
      successful download, and on that file. */
  lemma TranscribeOnlyResolvedFile(args: Args, world: World)
    ensures var s := ExpectedRun(args, world);
      && (s.transcribed <==>
            (world.pathExists || (Staged(args, world) && world.downloadSucceeds)) &&
            world.model != LoadRaises)
      && (forall e | e in s.trace :: e.TranscribeFile? ==>
            s.transcribed &&
            e.path == if world.pathExists then args.input else DownloadPath(args, world))
  {
  }

  /** The transcription block in isolation: it loads the model first, runs no
      download and no directory operation, transcribes only `file` and only
      second, saves before it prints, and emits only the model's text. */
  lemma BlockShape(args: Args, world: World, file: string)
    ensures var b := BlockEffects(args, world, file);
      && |b| > 0 && b[0] == LoadModel(args.model)
      && (forall i | 0 <= i < |b| :: !b[i].Download? && !b[i].CreateTempDir? && !b[i].CleanupTempDir?)
      && (forall i | 0 <= i < |b| :: b[i].TranscribeFile? ==> i == 1 && b[i] == TranscribeFile(file))
      && (forall i, j | 0 <= i < |b| && 0 <= j < |b| && b[i].WriteTranscript? && b[j].PrintTranscript? :: i < j)
      && (forall e | e in b :: e.PrintTranscript? ==>
            && world.model == Produces(e.text)
            && (Given(args.saveTranscript) ==> WriteTranscript(args.saveTranscript.value, e.text) in b))
      && (forall e | e in b :: e.WriteTranscript? ==>
            && world.model == Produces(e.text)
            && Given(args.saveTranscript) && e.path == args.saveTranscript.value)
      && (BlockOutcome(args, world).Completed? ==>
            && BlockOutcome(args, world).text == world.model.text
            && PrintTranscript(world.model.text) in b
            && (Given(args.saveTranscript) ==> WriteTranscript(args.saveTranscript.value, world.model.text) in b))
  {
  }

  /** The order of effects, for a run that reaches the transcription block
      after `before`, which only creates the directory and downloads. */
  lemma OrderAfterPrefix(args: Args, world: World, temp: bool, file: string, before: seq<Effect>)
    requires forall e | e in before :: e.CreateTempDir? || e.Download?
    ensures var t := TryAndRelease(args, world, temp, file, before).trace;
      && (forall i, j | 0 <= i < |t| && 0 <= j < |t| && t[i].Download? && t[j].TranscribeFile? :: i < j)
      && (forall i, j | 0 <= i < |t| && 0 <= j < |t| && t[i].WriteTranscript? && t[j].PrintTranscript? :: i < j)
  {
    var t := TryAndRelease(args, world, temp, file, before).trace;
    var b := BlockEffects(args, world, file);
    var c: seq<Effect> := if temp then [CleanupTempDir(world.tempDirName)] else [];
    BlockShape(args, world, file);
    assert t == before + b + c;
    var n := |before|;
    assert forall i | 0 <= i < n :: t[i] == before[i];
    assert forall i | n <= i < n + |b| :: t[i] == b[i - n];
    assert forall i | n + |b| <= i < |t| :: t[i] == c[i - n - |b|];
    assert forall i | 0 <= i < n :: before[i] in before;
  }

  /** The effects come in the source's order: the download before the
      transcription, and the saved transcript before the printed one. */
  lemma EffectsInOrder(args: Args, world: World)
    ensures var s := ExpectedRun(args, world);
      && (forall i, j | 0 <= i < |s.trace| && 0 <= j < |s.trace| && s.trace[i].Download? && s.trace[j].TranscribeFile? :: i < j)
      && (forall i, j | 0 <= i < |s.trace| && 0 <= j < |s.trace| && s.trace[i].WriteTranscript? && s.trace[j].PrintTranscript? :: i < j)
  {
    var s := ExpectedRun(args, world);
    var before, file := RunPrefix(args, world);
    if before.Some? {
      OrderAfterPrefix(args, world, s.tempCreated, file, before.value);
    } else {
      assert forall i | 0 <= i < |s.trace| :: s.trace[i] in s.trace;
    }
  }

  /** How a run reaches the transcription block: the effects before it and the
      file it transcribes, or None when the run ends earlier. */
  lemma RunPrefix(args: Args, world: World) returns (before: Option<seq<Effect>>, file: string)
    ensures before.Some? ==>
      && (forall e | e in before.value :: e.CreateTempDir? || e.Download?)
      && ExpectedRun(args, world) ==
           TryAndRelease(args, world, ExpectedRun(args, world).tempCreated, file, before.value)
    ensures before.None? ==>
      && (forall e | e in ExpectedRun(args, world).trace :: e.CreateTempDir? || e.Download? || e.CleanupTempDir?)
      && !ExpectedRun(args, world).transcribed
  {
    match Classify(args.input, world.pathExists)
    case Invalid =>
      before, file := None, "";
    case LocalFile =>
      before, file := Some([]), args.input;
    case Url =>
      var temp := !Given(args.saveVideo);
      if temp && !world.tempDirCreatable {
        before, file := None, "";
      } else {
        var staged := StagedEffects(args, world);
        if world.downloadSucceeds {
          before, file := Some(staged), DownloadPath(args, world);
        } else {
          before, file := None, "";
        }
      }
  }

  /** How a run ends, and that the text saved to `--save-transcript` is the
      text printed: the model's text verbatim, and neither unless the model
      produced it. */
  lemma TranscriptSavedIsPrinted(args: Args, world: World)
    ensures var s := ExpectedRun(args, world);
      && s.outcome != NotRun
      && (s.outcome == DownloadFailed <==>
            Staged(args, world) && !world.downloadSucceeds && (!s.tempCreated || world.cleanupSucceeds))
      && (s.outcome.Completed? <==>
            && s.transcribed && world.model.Produces?
            && (!Given(args.saveTranscript) || world.writeSucceeds) && world.printSucceeds
            && (!s.tempCreated || world.cleanupSucceeds))
      && (s.outcome.Completed? ==>
            && s.outcome.text == world.model.text
            && PrintTranscript(s.outcome.text) in s.trace
            && (Given(args.saveTranscript) ==>
                  WriteTranscript(args.saveTranscript.value, s.outcome.text) in s.trace))
      && (forall e | e in s.trace :: e.PrintTranscript? ==>
            && s.transcribed && world.model == Produces(e.text)
            && (Given(args.saveTranscript) ==> WriteTranscript(args.saveTranscript.value, e.text) in s.trace))
      && (forall e | e in s.trace :: e.WriteTranscript? ==>
            && s.transcribed && world.model == Produces(e.text)
            && Given(args.saveTranscript) && e.path == args.saveTranscript.value)
  {
    var before, file := RunPrefix(args, world);
    if before.Some? {
      TranscriptAfterPrefix(args, world, ExpectedRun(args, world).tempCreated, file, before.value);
    }
  }

  /** The transcript facts for a run that reaches the transcription block
      after `before`, which only creates the directory and downloads. */
  lemma TranscriptAfterPrefix(args: Args, world: World, temp: bool, file: string, before: seq<Effect>)
    requires forall e | e in before :: e.CreateTempDir? || e.Download?
    ensures var s := TryAndRelease(args, world, temp, file, before);
      && (s.outcome.Completed? ==>
            && s.outcome.text == world.model.text
            && PrintTranscript(s.outcome.text) in s.trace
            && (Given(args.saveTranscript) ==>
                  WriteTranscript(args.saveTranscript.value, s.outcome.text) in s.trace))
      && (forall e | e in s.trace :: e.PrintTranscript? ==>
            && s.transcribed && world.model == Produces(e.text)
            && (Given(args.saveTranscript) ==> WriteTranscript(args.saveTranscript.value, e.text) in s.trace))
      && (forall e | e in s.trace :: e.WriteTranscript? ==>
            && s.transcribed && world.model == Produces(e.text)
            && Given(args.saveTranscript) && e.path == args.saveTranscript.value)
  {
    var s := TryAndRelease(args, world, temp, file, before);
    var b := BlockEffects(args, world, file);
    var c: seq<Effect> := if temp then [CleanupTempDir(world.tempDirName)] else [];
    BlockShape(args, world, file);
    assert s.trace == before + b + c;
    forall e | e in s.trace && (e.PrintTranscript? || e.WriteTranscript?)
      ensures e in b
    {
      assert e in before || e in b || e in c;
    }
    assert forall e | e in b :: e in s.trace;
  }

  /** One run of the entry point. The fields are the tool's observable state:
      whether a temporary directory was created, how often it was cleaned up,
      whether transcription was attempted, how the run ended, and the effects
      asked of the outside world so far. */
  class Invocation {
    var tempCreated: bool
    var cleanupCount: nat
    var transcribed: bool
    var outcome: Outcome
    var trace: seq<Effect>

    /** Nothing has happened yet. */
    predicate Idle()
      reads this
    {
      !tempCreated && cleanupCount == 0 && !transcribed && outcome == NotRun && trace == []
    }

    function Snapshot(): Summary
      reads this
    {
      Summary(tempCreated, cleanupCount, transcribed, outcome, trace)
    }

    constructor ()
      ensures Idle()
    {
      tempCreated, cleanupCount, transcribed, outcome, trace := false, 0, false, NotRun, [];
    }

    /** The entry point, after argument parsing. Each `return` is one of the
        source's exits; each ends in the state ExpectedRun describes. */
    method Run(args: Args, world: World)
      requires Idle()
      modifies this
      ensures Snapshot() == ExpectedRun(args, world)
    {
      var tempDir: Option<string> := None;
      var fileToTranscribe: string;
      if world.pathExists {
        fileToTranscribe := args.input;
      } else if IsLikelyUrl(args.input) {
        var videoPath: string;
        if Given(args.saveVideo) {
          videoPath := args.saveVideo.value;
        } else {
          if !world.tempDirCreatable {
            outcome := Raised;
            return;
          }
          tempDir := Some(world.tempDirName);
          tempCreated := true;
          trace := trace + [CreateTempDir(world.tempDirName)];
          videoPath := TempVideoPath(world.tempDirName);
        }
        trace := trace + [Download(args.input, videoPath)];
        if !world.downloadSucceeds {
          outcome := DownloadFailed;
          if tempDir.Some? {
            trace := trace + [CleanupTempDir(tempDir.value)];
            cleanupCount := cleanupCount + 1;
            if !world.cleanupSucceeds {
              outcome := Raised;
            }
          }
          return;
        }
        fileToTranscribe := videoPath;
        assert trace == StagedEffects(args, world);
      } else {
        outcome := InvalidInput;
        return;
      }
      TranscribeAndRelease(args, world, tempDir, fileToTranscribe);
    }

    /** The transcription block and the cleanup that follows it whether or not
        the block raises. */
    method TranscribeAndRelease(args: Args, world: World, tempDir: Option<string>, file: string)
      requires tempDir == (if tempCreated then Some(world.tempDirName) else None)
      requires cleanupCount == 0 && !transcribed && outcome == NotRun
      modifies this
      ensures Snapshot() == TryAndRelease(args, world, old(tempCreated), file, old(trace))
    {
      // try: loading, transcribing, writing the transcript file and printing may raise
      trace := trace + [LoadModel(args.model)];
      if world.model == LoadRaises {
        outcome := Raised;
      } else {
        transcribed := true;
        trace := trace + [TranscribeFile(file)];
        if world.model == TranscribeRaises {
          outcome := Raised;
        } else {
          var text := world.model.text;
          if Given(args.saveTranscript) && !world.writeSucceeds {
            outcome := Raised;
          } else {
            if Given(args.saveTranscript) {
              trace := trace + [WriteTranscript(args.saveTranscript.value, text)];
            }
            if !world.printSucceeds {
              outcome := Raised;
            } else {
              trace := trace + [PrintTranscript(text)];
              outcome := Completed(text);
            }
          }
        }
      }
      assert trace == old(trace) + BlockEffects(args, world, file);
      // finally: a raising cleanup replaces whatever the block ended with
      if tempDir.Some? {
        trace := trace + [CleanupTempDir(tempDir.value)];
        cleanupCount := cleanupCount + 1;
        if !world.cleanupSucceeds {
          outcome := Raised;
        }
      }
    }
  }
}
