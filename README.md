# Transcription tool entry point, modelled in Dafny

The tool takes one input and either transcribes it as an existing local
file, or downloads it as a video URL and transcribes that, or reports it as
invalid. This project models two parts of `transcribe.py`:

- **The URL heuristic `is_likely_url`** (module `UrlHeuristic`). An input
  looks like a URL exactly when it starts with one of `"http://"`,
  `"https://"`, `"www."`, `"youtube.com"` or `"youtu.be"`. `StartsWith`
  models `str.startswith` for one prefix. `StartsWithAny` models it for a
  tuple of prefixes. `IsLikelyUrl` is the tool's predicate.
- **The control flow of `main` after argument parsing** (module
  `Transcribe`). This covers:
  - which branch runs: existing path, URL, or invalid;
  - whether a temporary directory is created;
  - where a download goes;
  - whether transcription is attempted;
  - how the run ends;
  - that a created temporary directory is released exactly once on every
    exit.

  Class `Invocation` holds the state: `tempCreated`, `cleanupCount`,
  `transcribed`, `outcome`, and `trace`, the effects asked of the outside
  world in order. Method `Invocation.Run` follows the source branch by
  branch, including its early `return`s. The `try`/`finally` block is the
  method `Invocation.TranscribeAndRelease`. `Run` ends in the state that the
  reference function `ExpectedRun` gives for the same arguments and world.
  Lemmas about `ExpectedRun` state what the tool promises.

The outside world is a `World` value. It gives:
- whether the input path exists (`os.path.exists`);
- whether a temporary directory can be created (`tempfile.TemporaryDirectory`
  may raise), and its name;
- whether the downloader reports success (`download_video`);
- how the speech model behaves: loading raises, transcribing raises, or a
  text is produced;
- whether the transcript file can be opened and written;
- whether printing the transcript succeeds;
- whether removing the temporary directory succeeds (`cleanup` may raise).

An exception anywhere ends the run with the outcome `Raised`. An exception in
the `finally` cleanup replaces whatever the block ended with, as in Python. A
download, a model load, a transcription and a cleanup appear in the trace
when they are called, even when they then fail or raise. A directory
creation, a transcript write and the transcript print appear only when they
succeed. So a transcript file that was opened but could not be written leaves
no entry, although the file may already be truncated on disk.

Python truthiness is modelled where the source relies on it.
`if args.save_video:` and `if args.save_transcript:` are false for an empty
string as well as for a missing option (`Given`). The path of a staged
download follows the POSIX rules of `os.path.join` (`JoinPath`).

## Model

| member | source | states |
|---|---|---|
| `UrlHeuristic.StartsWith` | transcribe.py:33 | `str.startswith` for one prefix: the text is at least as long as the prefix and agrees with it character by character |
| `UrlHeuristic.StartsWithAny` | transcribe.py:33 | `str.startswith` for a tuple, trying the prefixes in order; its meaning is stated by `StartsWithAnyIff` |
| `UrlHeuristic.StartsWithAnyIff` | transcribe.py:33 | `str.startswith` with a tuple holds exactly when some prefix of the tuple is a prefix of the text |
| `UrlHeuristic.IsLikelyUrl` | transcribe.py:31-33 | the tool's URL test over its five prefixes; its meaning is stated by `IsLikelyUrlCases` |
| `UrlHeuristic.IsLikelyUrlCases` | transcribe.py:31-33 | an input is URL-like if and only if it starts with "http://", "https://", "www.", "youtube.com" or "youtu.be" |
| `UrlHeuristic.IsLikelyUrlExtends` | transcribe.py:33 | appending any text to a URL-like input leaves it URL-like |
| `UrlHeuristic.StartsWithExtends` | transcribe.py:33 | a prefix of a text is also a prefix of every extension of that text |
| `UrlHeuristic.ShortInputIsNotUrl` | transcribe.py:33 | no input shorter than four characters, the empty one included, is URL-like |
| `UrlHeuristic.FourCharacterUrl` | transcribe.py:33 | the four-character bound is tight: "www." is URL-like |
| `UrlHeuristic.UrlStartsLowerCase` | transcribe.py:33 | a URL-like input is non-empty and begins with 'h', 'w' or 'y' |
| `UrlHeuristic.UpperCaseInputIsNotUrl` | transcribe.py:33 | the test is case-sensitive: an input beginning with an ASCII upper-case letter is never URL-like |
| `Transcribe.Given` | transcribe.py:73 | Python truthiness of `args.save_video` (line 73) and `args.save_transcript` (line 108): given and not the empty string |
| `Transcribe.JoinPath` | transcribe.py:79 | the joined path starts with the directory and ends with the file name; a "/" is added exactly when the directory is non-empty and does not already end in "/"; for a non-empty directory, a "/" stands just before the name |
| `Transcribe.TempVideoPath` | transcribe.py:79 | the staged download is a file named `video.mp4` inside the temporary directory: the directory, at most one "/" (added exactly when the directory is non-empty and has no trailing "/"), then `video.mp4` |
| `Transcribe.DownloadPath` | transcribe.py:73-79 | the download target: the `--save-video` path when given, else `TempVideoPath` of the temporary directory |
| `Transcribe.Classify` | transcribe.py:63-96 | the branch the entry point takes: an existing path first, then a URL-like input, else invalid |
| `Transcribe.Staged` | transcribe.py:68-83 | a run reaches the download: the input is URL-like and not an existing path, and either a `--save-video` path is given or the temporary directory could be created |
| `Transcribe.StagedEffects` | transcribe.py:72-83 | the effects before the `try` block of a URL run: the temporary directory is created when no `--save-video` path is given, then the input is downloaded to `DownloadPath` |
| `Transcribe.ExpectedRun` | transcribe.py:62-120 | the reference behaviour of one run: temporary directory created, cleanup count, transcription attempted, outcome and effects in order, for every branch and every failing call; its properties are the lemmas below |
| `Transcribe.BlockOutcome` | transcribe.py:98-115 | how the `try` block ends: raised when loading, transcribing, writing the transcript or printing raises, else completed with the model's text |
| `Transcribe.BlockEffects` | transcribe.py:98-115 | the `try` block's effects in order: load the model, transcribe the file, save the text when asked, print it; each stops at the first raising call; its shape is stated by `BlockShape` |
| `Transcribe.TryAndRelease` | transcribe.py:98-120 | the `try`/`finally` block after the earlier effects: the block's effects, then the cleanup if a temporary directory exists; a raising cleanup replaces the block's outcome |
| `Transcribe.ExistingPathIsLocalFile` | transcribe.py:63-68 | an existing path is handled as a local file even when it looks like a URL: no temporary directory, no download, and transcription (unless model loading raises) of the input itself |
| `Transcribe.InvalidInputDoesNothing` | transcribe.py:93-96 | the run ends as invalid if and only if the input is neither an existing path nor URL-like; it then creates no temporary directory, transcribes nothing and has no effect at all |
| `Transcribe.TempDirOnlyForUnsavedUrl` | transcribe.py:72-79 | a temporary directory is created if and only if the input is URL-like, does not exist as a path, no `--save-video` path is given and creation does not raise; creating it is then the first effect, and it is created at most once |
| `Transcribe.CreatedFirst` | transcribe.py:98-120 | the `try`/`finally` block creates no directory: every creation in the trace comes from the effects before the block |
| `Transcribe.TempDirFailureRaises` | transcribe.py:77-78 | when the temporary directory cannot be created, the run raises before any other effect, without transcribing |
| `Transcribe.DownloadOnlyForUrl` | transcribe.py:72-83 | a download happens exactly for a URL-like input that is not an existing path and whose target could be set up; it goes to the `--save-video` path if one is given, else to `video.mp4` in the temporary directory |
| `Transcribe.ReleasedLast` | transcribe.py:98-120 | after the transcription block, the `finally` cleanup is the only cleanup and the last effect, whether the block completes or raises |
| `Transcribe.TempDirReleasedOnce` | transcribe.py:78-120 | on every exit (failed download, raising model, transcript file or print, completed run) a created temporary directory is cleaned up exactly once, as the last effect; without one, nothing is cleaned up |
| `Transcribe.TranscribeOnlyResolvedFile` | transcribe.py:83-105 | transcription is attempted if and only if the input exists as a path or was downloaded successfully, and model loading did not raise; it runs on the input path or on the download path |
| `Transcribe.BlockShape` | transcribe.py:98-115 | the `try` block loads the model first, transcribes only its file and only second, creates, downloads and cleans up nothing, saves before it prints, and emits only the model's text |
| `Transcribe.OrderAfterPrefix` | transcribe.py:83-115 | after downloads and a directory creation, the block keeps the order: every download before the transcription, the saved transcript before the printed one |
| `Transcribe.EffectsInOrder` | transcribe.py:63-120 | in every run the download comes before the transcription and the saved transcript before the printed one |
| `Transcribe.RunPrefix` | transcribe.py:63-96 | a run either reaches the `try` block after only creating the directory and downloading, or ends earlier without transcribing and with only those effects and a cleanup |
| `Transcribe.TranscriptSavedIsPrinted` | transcribe.py:83-120 | how the run ends: the download fails (if and only if a staged download fails and no cleanup raises), or it completes (if and only if every call succeeds), else it raises; a completed run prints the model's text and saves that same text to `--save-transcript` when given; whatever is printed or saved is the model's text, and a printed one was saved first when asked |
| `Transcribe.TranscriptAfterPrefix` | transcribe.py:98-120 | the same facts about printing and saving, for the `try`/`finally` block after any earlier directory creation and download |
| `Transcribe.Invocation.Run` | transcribe.py:62-120 | the state after the entry point (temp directory created, cleanup count, transcription attempted, outcome, effects in order) equals the reference behaviour `ExpectedRun` on every return path |
| `Transcribe.Invocation.TranscribeAndRelease` | transcribe.py:98-120 | the `try`/`finally` block leaves the state that `TryAndRelease` describes: the block's effects follow the earlier ones, then the cleanup if a temporary directory exists |

## Left out

- `download_video` (transcribe.py:10-28): running `yt-dlp` is external-process I/O. Only its boolean result is modelled, as `World.downloadSucceeds`. An exception other than a failed exit status (for example, `yt-dlp` missing) would escape `main` before any cleanup call. The model does not cover that path.
- `whisper.load_model` and `model.transcribe` (transcribe.py:101-105) are a foreign library. Their result text is an opaque string, and a failure is `LoadRaises` or `TranscribeRaises`.
- `os.path.exists`, `tempfile.TemporaryDirectory`, `TemporaryDirectory.cleanup` and opening/writing the transcript file (transcribe.py:63, 78, 86, 109-110, 120) are file-system I/O. Each is an abstract answer in `World`: whether the path exists, whether creation, cleanup and the write succeed. Creation, cleanup, download, transcription, writing and the transcript print are `Effect`s in `trace`. What raises is not modelled, only that something does (`Raised`).
- The status messages printed along the way (transcribe.py:65, 70, 82, 84, 89, 95, 100, 104, 111, 114) are console I/O. Only the transcript print (line 115) is modelled, with its failure as `World.printSucceeds`. A status message that raises is not modelled.
- Argument parsing (transcribe.py:37-60) is CLI plumbing. The parsed values are the `Args` datatype. `--model`'s restriction to five names is argparse's and is not modelled.
- The `TemporaryDirectory` finalizer, which would also remove a directory that was never cleaned up explicitly, is runtime behaviour outside the source and is not modelled.
