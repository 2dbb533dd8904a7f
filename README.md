# Yt-to-text: title sanitiser and pipeline control flow

`simple_transcriber.py` takes a video URL on the command line, asks `yt-dlp` for
the video's title, turns the title into a filesystem-safe name, creates a work
directory of that name, has `yt-dlp` download the audio into it as MP3, takes
the first `.mp3` file in the directory, transcribes it with Whisper (model
`medium`, language `es`) and writes the text to `<name>/<name>.txt`. Any failure
ends the process with exit status 1.

This project models the two pieces of that script that are logic rather than
calls into other programs:

- **The title sanitiser** (module `TitleSanitizer`, `sanitizer.dfy`): the
  per-character map of line 85. A character is kept when `str.isalnum` holds of
  it or it is a space, `-` or `_`; every other character becomes `_`. Python's
  `isalnum` is Unicode-aware, so it is a parameter `isAlnum: char -> bool` of
  every member that applies the map. The properties that need particular ASCII characters to be
  rejected (no `/`, `\`, `:`, `#`, `.`) assume only `AgreesOnAscii(isAlnum)`:
  on ASCII, `isalnum` holds exactly of letters and digits, as Python's does.
  Nothing is truncated and no whitespace is collapsed.
- **`main`'s control flow** (module `Transcriber`, `transcriber.dfy`): a pure
  function `Main(env)` over the outcomes of the external steps (the command
  line, the title fetch, `mkdir`, the download, the directory listing, the
  transcription and the save). It returns the exit status and the list of
  external calls the run makes, with their arguments: the URL, the work
  directory, the download's output template, the audio file chosen, the
  Whisper model and language, and the transcript text and path.
- **Path construction** (module `Paths`, `paths.dfy`): the part of Python's
  `pathlib` the script uses: `Path(s)` for a relative POSIX path, `folder /
  name` and `str(folder)`. With it the model shows that the sanitised title is
  always one path component, so the work directory is a single directory named
  by it and the transcript lies directly in that directory under the same name
  plus `.txt`. A title that sanitises to the empty string makes the work
  directory the current directory (`Path("")` has no components) and the
  transcript `.txt`.

Three behaviours of the code that a reader might expect otherwise:

- The code neither truncates the title to a maximum length nor collapses
  whitespace.
- The command line is rejected only when it has fewer than two entries; extra
  arguments are ignored.
- `yt-dlp` names the downloaded file after its own `%(title)s`, not after the
  sanitised title; the script finds the file by taking the first `*.mp3` entry
  of the work directory in directory order. That entry may be a file left by an
  earlier run, and the model transcribes whichever comes first.

## Model

| member | source | states |
|---|---|---|
| TitleSanitizer.Allowed | simple_transcriber.py:85 | the replacement `_` is always allowed; with Python's `isalnum`, an ASCII character is allowed exactly when it is a letter, a digit, a space, `-` or `_` |
| TitleSanitizer.SafeChar | simple_transcriber.py:85 | the output character is always in the allow-set; it equals the input exactly when the input is alphanumeric, a space, `-` or `_`; otherwise it is `_` |
| TitleSanitizer.SafeTitle | simple_transcriber.py:85 | the sanitised title has exactly as many characters as the title (no truncation, no collapsing) |
| TitleSanitizer.SafeTitleAt | simple_transcriber.py:85 | character i of the sanitised title is the per-character map applied to character i of the title |
| TitleSanitizer.SafeTitlePositionwise | simple_transcriber.py:85 | same length; an allowed character is copied unchanged, any other character becomes `_` |
| TitleSanitizer.SafeTitleAlphabet | simple_transcriber.py:85 | every character of the output is alphanumeric, a space, `-` or `_` |
| TitleSanitizer.NoReservedCharacters | simple_transcriber.py:85 | with Python's `isalnum`, no ASCII character other than letters, digits, space, `-`, `_` occurs in the output; in particular no `/`, `\`, `:`, `#`, `.` or NUL |
| TitleSanitizer.SafeTitleFixedPoint | simple_transcriber.py:85 | the sanitiser leaves a title unchanged if and only if all its characters are already allowed |
| TitleSanitizer.SafeTitleIdempotent | simple_transcriber.py:85 | sanitising twice equals sanitising once |
| TitleSanitizer.SafeTitleAppend | simple_transcriber.py:85 | the sanitised concatenation is the concatenation of the sanitised parts (the map works character by character) |
| TitleSanitizer.SafeTitleSplit | simple_transcriber.py:85 | cutting the title anywhere and sanitising the pieces gives the pieces of the sanitised title |
| TitleSanitizer.SafeTitleExample | simple_transcriber.py:85 | `My Video #1: Test/Clip` becomes `My Video _1_ Test_Clip` |
| TitleSanitizer.SafeTitleKeepsSpaces | simple_transcriber.py:85 | every space of the title is a space at the same position of the output, so runs of spaces are not collapsed; the empty title sanitises to the empty string |
| Paths.Keep | simple_transcriber.py:88 | a segment between separators is kept as a component exactly when it is neither empty nor `.` |
| Paths.Split | simple_transcriber.py:88 | every component `Path` produces from a string is non-empty, not `.` and free of `/` |
| Paths.FromString | simple_transcriber.py:88 | `Path(s)` has only proper components |
| Paths.SplitWithoutSeparator | simple_transcriber.py:88 | a string without `/` is read as a single segment |
| Paths.FromSingleComponent | simple_transcriber.py:88 | `Path(s)` of a single component is the one-component path; `Path("")` and `Path(".")` are the current directory |
| Paths.SplitAtSeparator | simple_transcriber.py:92 | reading `a/rest` gives the component `a` followed by the components of `rest` |
| Paths.SplitJoinWith | simple_transcriber.py:92 | joining proper components with `/` and reading the string back gives the same components |
| Paths.Render | simple_transcriber.py:92 | `Path(str(p)) == p` for every path of proper components: the directory string handed to the download names the work directory |
| Paths.Join | simple_transcriber.py:93-99 | `p / name` lies inside `p` (its components start with those of `p`); a name that is one component adds exactly that component; `""` and `.` add nothing |
| Transcriber.IsMp3 | simple_transcriber.py:93 | a name matches `*.mp3` exactly when it is some stem, possibly empty, followed by `.mp3` |
| Transcriber.WorkDir | simple_transcriber.py:88 | `Path(safe_title)` of a name without `/` is the one directory of that name, or the current directory when the name is `""` or `.` |
| Transcriber.TranscriptPath | simple_transcriber.py:99 | for a name without `/`, the transcript path is the work directory followed by the one component `safe_title + ".txt"` |
| Transcriber.FirstMp3 | simple_transcriber.py:93 | the index returned is that of an entry matching `*.mp3` with no match before it; there is no index exactly when no entry matches (`next` raising StopIteration) |
| Transcriber.Main | simple_transcriber.py:75-106 | the exit status is 0 or 1, and 0 exactly when every step succeeds; no external call is made exactly when argv has fewer than two entries; at most six calls |
| Transcriber.UsageError | simple_transcriber.py:76-78 | with fewer than two argv entries the exit status is 1 and no step is reached |
| Transcriber.TitleFailure | simple_transcriber.py:84 | a failing title fetch ends the run with status 1 after that one call: no directory is created |
| Transcriber.MakeDirFailure | simple_transcriber.py:88-89 | a failing `mkdir` ends the run with status 1 after the title fetch and the `mkdir` of the directory named by the sanitised title |
| Transcriber.DownloadFailure | simple_transcriber.py:92 | a failing download ends the run with status 1 after the download call, which gets the URL, format `mp3` and the template `str(folder) + "/%(title)s.%(ext)s"` |
| Transcriber.NoAudioFound | simple_transcriber.py:93 | with no `*.mp3` entry in the work directory the run ends with status 1 after the search; transcription and save are never reached |
| Transcriber.TranscriptionFailure | simple_transcriber.py:93-96 | the audio transcribed is the first `*.mp3` entry, joined to the work directory, with model `medium` and language `es`; a failing transcription ends the run with status 1 before the save |
| Transcriber.SaveReached | simple_transcriber.py:98-100 | when every earlier step succeeds the transcript text is saved to `folder / (safe_title + ".txt")` and the exit status is 0 exactly when the save succeeds |
| Transcriber.AbortOnFirstFailure | simple_transcriber.py:82-106 | every call before the last one succeeded; the status is 1 exactly when the run made no call or its last call failed; 0 exactly when all six calls were made and the save succeeded; nothing follows a failure and nothing is undone |
| Transcriber.CallOrder | simple_transcriber.py:82-100 | calls come in the order title, directory, download, audio search, transcription, save |
| Transcriber.SaveOnlyAfterEverythingElse | simple_transcriber.py:98-100 | the save is only ever the sixth call, made only when every earlier step succeeded, with the transcription's text and the path `folder / (safe_title + ".txt")` |
| Transcriber.TranscriptBesideWorkDir | simple_transcriber.py:88-99 | with Python's `isalnum`, the work directory is the one component named by the sanitised title and the transcript path is that directory joined with the same name plus `.txt` (for the empty name: the current directory and `.txt`) |

## Left out

- The `yt-dlp` subprocesses in `get_video_title` and `download_audio` (lines 20-48), including the UTF-8 decoding and `strip()` of the title: they are external programs; the model takes the title or the failure as given.
- Whisper model loading and inference in `transcribe_audio` (lines 50-64): an external library with floating-point internals; the model takes the text or the failure as given, and records only the model name and language passed to it.
- The `tqdm` loop (lines 58-59): it counts to 100 and does nothing else.
- Logging (lines 13-18 and the messages throughout): process-wide output that does not affect the result.
- The filesystem effects of `mkdir`, `glob` and the UTF-8 write in `save_transcript` (lines 66-73, 89, 93): each is an outcome given to the model (for `glob`, the directory's entry names in directory order); the write-then-read round trip that test_transcriber.py checks is a property of the operating system, not of this code.
- The exact Unicode definition of `str.isalnum`: it is a parameter; only its agreement with ASCII letters and digits is assumed where a property needs it.
- Paths.FromString: absolute paths, `\` separators and other Windows path rules are not modelled; the script only builds relative paths from the sanitised title, which contains neither `/` nor `\`.
- Transcriber.FirstMp3: pathlib's glob is taken as a case-sensitive suffix match on entry names, as on POSIX systems; directories whose names end in `.mp3` are not told apart from files.
