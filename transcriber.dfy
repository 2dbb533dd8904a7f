/** `main` of simple_transcriber.py: check the command line, fetch the video
    title, sanitise it, create the work directory, download the audio, pick
    the first `.mp3` in the directory, transcribe it and save the transcript
    beside it. Every external step (yt-dlp, Whisper, the filesystem) is an
    opaque outcome supplied in `Env`; the model computes the exit status and
    the sequence of external calls the run makes, with their arguments. */
module Transcriber {
  import opened TitleSanitizer
  import opened Paths

  datatype Option<T> = None | Some(value: T)

  /** Arguments that `main` passes to the external tools. */
  const AudioFormat: string := "mp3"
  const OutputTemplate: string := "/%(title)s.%(ext)s"
  const AudioPattern: string := "*.mp3"
  const WhisperModel: string := "medium"
  const WhisperLanguage: string := "es"

  /** What the outside world answers to each step of one run. */
  datatype Env = Env(
    argv: seq<string>,          // sys.argv, the script name first
    isAlnum: AlnumTest,         // str.isalnum
    title: Option<string>,      // get_video_title: the title, or None when it raises
    mkdirOk: bool,              // folder.mkdir(parents=True, exist_ok=True) returns
    downloadOk: bool,           // download_audio returns
    listing: seq<string>,       // names in the folder after the download, in directory order
    transcript: Option<string>, // transcribe_audio: the text, or None when it raises
    saveOk: bool                // save_transcript returns
  )

  /** An external call made by the run, with its arguments. */
  datatype Call =
    | FetchTitle(url: string)
    | MakeDir(dir: Path)
    | Download(url: string, audioFormat: string, outputTemplate: string)
    | FindAudio(dir: Path, pattern: string)
    | Transcribe(audio: Path, model: string, language: string)
    | Save(text: string, file: Path)

  /** The process exit status and the external calls made, in order. */
  datatype Run = Run(exitCode: int, calls: seq<Call>)

  /** Matches the glob `*.mp3`: some stem, possibly empty, followed by ".mp3". */
  predicate IsMp3(name: string)
    ensures IsMp3(name) <==> exists stem :: name == stem + ".mp3"
  {
    if |name| >= 4 && name[|name| - 4..] == ".mp3" then
      assert name == name[..|name| - 4] + ".mp3";
      true
    else
      false
  }

  /** No entry before position k matches `*.mp3`. */
  predicate NoMp3Before(listing: seq<string>, k: nat)
    requires k <= |listing|
  {
    forall j :: 0 <= j < k ==> !IsMp3(listing[j])
  }

  /** `next(folder.glob("*.mp3"))`: the position of the first `.mp3` entry in
      directory order, or None where `next` raises StopIteration. */
  function FirstMp3(listing: seq<string>): (r: Option<nat>)
    ensures r.Some? ==> r.value < |listing| && IsMp3(listing[r.value])
    ensures r.Some? ==> NoMp3Before(listing, r.value)
    ensures r.None? <==> NoMp3Before(listing, |listing|)
  {
    if listing == [] then None
    else if IsMp3(listing[0]) then Some(0)
    else match FirstMp3(listing[1..])
      case None => None
      case Some(k) => Some(k + 1)
  }

  /** `Path(safe_title)`: a name without separators is one directory, or the
      current directory when it is "" or ".". */
  function WorkDir(safeTitle: string): (r: Path)
    ensures forall k :: 0 <= k < |r.parts| ==> Component(r.parts[k])
    ensures '/' !in safeTitle && Component(safeTitle) ==> r == Path([safeTitle])
    ensures '/' !in safeTitle && !Component(safeTitle) ==> r == Path([])
  {
    if '/' in safeTitle then FromString(safeTitle)
    else
      FromSingleComponent(safeTitle);
      FromString(safeTitle)
  }

  /** `folder / f"{safe_title}.txt"`: for a name without separators, the
      transcript lies directly inside the work directory. */
  function TranscriptPath(safeTitle: string): (r: Path)
    ensures '/' !in safeTitle ==> r == Path(WorkDir(safeTitle).parts + [safeTitle + ".txt"])
  {
    assert |safeTitle + ".txt"| >= 4;
    Join(WorkDir(safeTitle), safeTitle + ".txt")
  }

  /** Every external step of a run reports success. */
  predicate AllStagesSucceed(env: Env) {
    && |env.argv| >= 2
    && env.title.Some?
    && env.mkdirOk
    && env.downloadOk
    && FirstMp3(env.listing).Some?
    && env.transcript.Some?
    && env.saveOk
  }

  /** Whether the outside world reports success for a call. */
  predicate Succeeded(env: Env, c: Call) {
    match c
    case FetchTitle(_) => env.title.Some?
    case MakeDir(_) => env.mkdirOk
    case Download(_, _, _) => env.downloadOk
    case FindAudio(_, _) => FirstMp3(env.listing).Some?
    case Transcribe(_, _, _) => env.transcript.Some?
    case Save(_, _) => env.saveOk
  }

  /** `main()`: the first failure ends the run with exit status 1. */
  function Main(env: Env): (r: Run)
    ensures r.exitCode == 0 || r.exitCode == 1
    ensures r.exitCode == 0 <==> AllStagesSucceed(env)
    ensures |env.argv| < 2 <==> r.calls == []
    ensures |r.calls| <= 6
  {
    if |env.argv| < 2 then Run(1, [])
    else
      var url := env.argv[1];
      var fetched := [FetchTitle(url)];
      if env.title.None? then Run(1, fetched)
      else
        var safeTitle := SafeTitle(env.isAlnum, env.title.value);
        var folder := WorkDir(safeTitle);
        var created := fetched + [MakeDir(folder)];
        if !env.mkdirOk then Run(1, created)
        else
          var downloaded := created + [Download(url, AudioFormat, Render(folder) + OutputTemplate)];
          if !env.downloadOk then Run(1, downloaded)
          else
            var searched := downloaded + [FindAudio(folder, AudioPattern)];
            match FirstMp3(env.listing)
            case None => Run(1, searched)
            case Some(k) =>
              var transcribed := searched + [Transcribe(Join(folder, env.listing[k]), WhisperModel, WhisperLanguage)];
              if env.transcript.None? then Run(1, transcribed)
              else
                var saved := transcribed + [Save(env.transcript.value, TranscriptPath(safeTitle))];
                Run(if env.saveOk then 0 else 1, saved)
  }

  /** `sys.argv[1]` */
  function Url(env: Env): string
    requires |env.argv| >= 2
  {
    env.argv[1]
  }

  /** The sanitised title of a run whose title fetch succeeded. */
  function SafeName(env: Env): string
    requires env.title.Some?
  {
    SafeTitle(env.isAlnum, env.title.value)
  }

  /** The calls every run with a title makes in order, up to the audio search. */
  function FirstCalls(env: Env): seq<Call>
    requires |env.argv| >= 2 && env.title.Some?
  {
    var folder := WorkDir(SafeName(env));
    [ FetchTitle(Url(env)),
      MakeDir(folder),
      Download(Url(env), "mp3", Render(folder) + "/%(title)s.%(ext)s"),
      FindAudio(folder, "*.mp3") ]
  }

  /** Every call of the run except the last succeeded, and the exit status
      is 1 exactly when the run made no call or its last call failed. */
  ghost predicate StopsAtFirstFailure(env: Env, r: Run) {
    && (forall i :: 0 <= i < |r.calls| - 1 ==> Succeeded(env, r.calls[i]))
    && (r.exitCode == 1 <==> r.calls == [] || !Succeeded(env, r.calls[|r.calls| - 1]))
    && (r.exitCode == 0 <==> |r.calls| == 6 && Succeeded(env, r.calls[5]))
  }

  /** Fewer than two argv entries: exit status 1 before any external call. */
  lemma UsageError(env: Env)
    requires |env.argv| < 2
    ensures Main(env) == Run(1, [])
    ensures StopsAtFirstFailure(env, Main(env))
  {
  }

  /** A failing title fetch creates no directory: the only call is the fetch. */
  lemma TitleFailure(env: Env)
    requires |env.argv| >= 2 && env.title.None?
    ensures Main(env) == Run(1, [FetchTitle(Url(env))])
    ensures StopsAtFirstFailure(env, Main(env))
  {
  }

  /** A failing `mkdir` ends the run before the download. */
  lemma MakeDirFailure(env: Env)
    requires |env.argv| >= 2 && env.title.Some? && !env.mkdirOk
    ensures Main(env) == Run(1, FirstCalls(env)[..2])
    ensures StopsAtFirstFailure(env, Main(env))
  {
  }

  /** A failing download ends the run before the audio search. */
  lemma DownloadFailure(env: Env)
    requires |env.argv| >= 2 && env.title.Some? && env.mkdirOk && !env.downloadOk
    ensures Main(env) == Run(1, FirstCalls(env)[..3])
    ensures StopsAtFirstFailure(env, Main(env))
  {
  }

  /** No `.mp3` entry in the work directory: the run ends after the search,
      before transcription and save. */
  lemma NoAudioFound(env: Env)
    requires |env.argv| >= 2 && env.title.Some? && env.mkdirOk && env.downloadOk
    requires NoMp3Before(env.listing, |env.listing|)
    ensures Main(env) == Run(1, FirstCalls(env))
    ensures StopsAtFirstFailure(env, Main(env))
  {
  }

  /** The first `.mp3` entry is transcribed, with model "medium" and language
      "es"; a failing transcription ends the run before the save. */
  lemma TranscriptionFailure(env: Env, k: nat)
    requires |env.argv| >= 2 && env.title.Some? && env.mkdirOk && env.downloadOk
    requires k < |env.listing| && IsMp3(env.listing[k]) && NoMp3Before(env.listing, k)
    requires env.transcript.None?
    ensures Main(env) == Run(1, FirstCalls(env) +
      [Transcribe(Join(WorkDir(SafeName(env)), env.listing[k]), "medium", "es")])
    ensures StopsAtFirstFailure(env, Main(env))
  {
    assert FirstMp3(env.listing) == Some(k);
  }

  /** When every earlier step succeeds, the transcript text is saved to
      `folder / (safe_title + ".txt")`, and the exit status is that of the save. */
  lemma SaveReached(env: Env, k: nat)
    requires |env.argv| >= 2 && env.title.Some? && env.mkdirOk && env.downloadOk
    requires k < |env.listing| && IsMp3(env.listing[k]) && NoMp3Before(env.listing, k)
    requires env.transcript.Some?
    ensures Main(env) == Run(if env.saveOk then 0 else 1, FirstCalls(env) +
      [Transcribe(Join(WorkDir(SafeName(env)), env.listing[k]), "medium", "es"),
       Save(env.transcript.value, TranscriptPath(SafeName(env)))])
    ensures StopsAtFirstFailure(env, Main(env))
  {
    assert FirstMp3(env.listing) == Some(k);
  }

  /** The calls of a run come in this order: title, directory, download,
      search, transcription, save. */
  ghost predicate InStageOrder(r: Run) {
    forall i :: 0 <= i < |r.calls| ==>
      match i
      case 0 => r.calls[i].FetchTitle?
      case 1 => r.calls[i].MakeDir?
      case 2 => r.calls[i].Download?
      case 3 => r.calls[i].FindAudio?
      case 4 => r.calls[i].Transcribe?
      case _ => r.calls[i].Save?
  }

  /** A save is only ever the sixth call, made when every earlier step
      succeeded, with the transcription's text and the path named after the
      sanitised title. */
  ghost predicate SavesOnlyLast(env: Env, r: Run) {
    forall i :: 0 <= i < |r.calls| && r.calls[i].Save? ==>
      && i == 5
      && |env.argv| >= 2 && env.title.Some? && env.mkdirOk && env.downloadOk
      && FirstMp3(env.listing).Some? && env.transcript.Some?
      && r.calls[i] == Save(env.transcript.value, TranscriptPath(SafeTitle(env.isAlnum, env.title.value)))
  }

  /** The exits of `main` once the audio is downloaded. */
  lemma LaterCases(env: Env)
    requires |env.argv| >= 2 && env.title.Some? && env.mkdirOk && env.downloadOk
    ensures StopsAtFirstFailure(env, Main(env))
    ensures InStageOrder(Main(env))
    ensures SavesOnlyLast(env, Main(env))
  {
    match FirstMp3(env.listing)
    case None =>
      NoAudioFound(env);
    case Some(k) =>
      if env.transcript.None? {
        TranscriptionFailure(env, k);
      } else {
        SaveReached(env, k);
      }
  }

  /** Every exit of `main`, one by one. */
  lemma MainCases(env: Env)
    ensures StopsAtFirstFailure(env, Main(env))
    ensures InStageOrder(Main(env))
    ensures SavesOnlyLast(env, Main(env))
  {
    if |env.argv| < 2 {
      UsageError(env);
    } else if env.title.None? {
      TitleFailure(env);
    } else if !env.mkdirOk {
      MakeDirFailure(env);
    } else if !env.downloadOk {
      DownloadFailure(env);
    } else {
      LaterCases(env);
    }
  }

  /** Abort on first failure: every call before the last one succeeded; the
      run fails exactly when it made no call or its last call failed, and
      succeeds exactly when all six calls were made and the last succeeded.
      No call follows a failing one, so nothing already created is undone. */
  lemma AbortOnFirstFailure(env: Env)
    ensures StopsAtFirstFailure(env, Main(env))
  {
    MainCases(env);
  }

  /** The calls of a run are always in this order: title, directory,
      download, search, transcription, save. */
  lemma CallOrder(env: Env)
    ensures InStageOrder(Main(env))
  {
    MainCases(env);
  }

  /** The transcript is saved only as the sixth call, when every earlier
      step succeeded; it holds the transcription's text and goes to the work
      directory, in a file named after the same sanitised title. */
  lemma SaveOnlyAfterEverythingElse(env: Env)
    ensures SavesOnlyLast(env, Main(env))
  {
    MainCases(env);
  }

  /** With Python's `isalnum`, the sanitised title is a single path
      component, so the work directory is one directory named by it (the
      current directory when the title sanitises to ""), and the transcript
      lies directly inside it with the same name plus ".txt". */
  lemma TranscriptBesideWorkDir(isAlnum: AlnumTest, title: string)
    requires AgreesOnAscii(isAlnum)
    ensures var safeTitle := SafeTitle(isAlnum, title);
      safeTitle != "" ==>
        WorkDir(safeTitle) == Path([safeTitle]) &&
        TranscriptPath(safeTitle) == Path([safeTitle, safeTitle + ".txt"]) &&
        Render(WorkDir(safeTitle)) == safeTitle
    ensures var safeTitle := SafeTitle(isAlnum, title);
      safeTitle == "" ==>
        WorkDir(safeTitle) == Path([]) &&
        TranscriptPath(safeTitle) == Path([".txt"]) &&
        Render(WorkDir(safeTitle)) == "."
  {
    var safeTitle := SafeTitle(isAlnum, title);
    NoReservedCharacters(isAlnum, title);
    FromSingleComponent(safeTitle);
    FromSingleComponent(safeTitle + ".txt");
    assert safeTitle == "" ==> safeTitle + ".txt" == ".txt";
  }
}
