# Excel speech add-in core, modelled in Dafny

This project models the sequential logic of four Python components of an Excel
speech add-in. The add-in turns speech into text for a workbook and reads texts
back aloud. In the original, each component hides its logic behind a thread or a
call into Windows, PortAudio, Google Cloud or Excel. Here each thread is an
explicit worker-state field (`NoWorker`, `Running`, `Finished`). The background
body of a thread is a separate method that the caller runs as one atomic step.
Every call into the host (`callExcelMacro`, `exceptionHook`) is appended to an
`events` trace.

- `audio_engine.dfy` (module `Audio`) covers `AudioEngine`. The PortAudio
  callback appends captured buffers to a FIFO chunk queue. One `next()` of the
  chunk generator takes the head, drains whatever else is queued without
  blocking, and yields the joined bytes. A `None` sentinel, enqueued by
  teardown, ends the stream.
- `pipe_client.dfy` (module `Pipe`) covers `PipeClient`. `openPipe` is a retry
  loop over `CreateFile` outcomes. The read thread sets `incomingText`.
  `readFromExcel` polls that thread. Once the read has finished, it splits the
  text on `"\r\n"`, dispatches every piece in order and starts exactly one new
  read.
- `text_to_speech.dfy` (module `Speech`) covers `TextToSpeech`. `speak` is a
  bounded enqueue. `runTextToSpeech` starts a synthesis thread only when none is
  alive. The thread wraps the text in SSML, reports the billed character count
  and then plays the audio.
- `get_settings.dfy` (module `Settings`) covers `GetSettings`. It reads the
  "Settings" sheet by scanning rows:
  - the replacement dictionary, from columns D and E;
  - the common phrases, from column F;
  - the two language codes, looked up in the "Languages" sheet;
  - the voice and gender split of B5;
  - the "say-as" hint and the credentials path.
  A worksheet is a finite map from a column letter to its cells, so every scan
  ends.
- `strings.dfy` (module `Strings`) holds the Python string operations these
  components use:
  - `replace` of one character, and `replace(c, '')`;
  - `strip()`;
  - substring `in`;
  - `split('(')[0]`, as the index of the first `'('`;
  - `str()` of a natural number.
- `host.dfy` (module `Host`) holds the shared types: `Option`, the worker
  state, and the host events.

The payload `"hello\r\nworld\r\n"` is dispatched as three messages:
`"hello"`, `"world"` and a trailing `""`, because Python's `split('\r\n')` at
`Source/pipeclient.py:102` keeps the empty piece after a trailing separator.

## Model

| member | source | states |
|---|---|---|
| Audio.SentinelIndex | Source/audioengine.py:62-71 | The position of the first sentinel, or the queue length; every entry before it is a captured buffer |
| Audio.Buffers | Source/audioengine.py:65-72 | For a queue of buffers only, the buffers gathered are exactly the queued ones, in FIFO order |
| Audio.Join | Source/audioengine.py:75 | `b"".join`: a single buffer is yielded as it is; JoinAppend and JoinLength state the rest |
| Audio.JoinAppend | Source/audioengine.py:75 | `b"".join` of two runs of buffers is the concatenation of their joins |
| Audio.JoinLength | Source/audioengine.py:65-75 | The yielded buffer's length is the sum of the drained chunks' lengths |
| Audio.SentinelBehindBuffers | Source/audioengine.py:116 | The sentinel put behind any number of queued buffers is the first sentinel of the queue |
| Audio.AudioEngine.constructor | Source/audioengine.py:29-50 | An empty queue, a fresh generator, an active stream and a live interface |
| Audio.AudioEngine.Pull | Source/audioengine.py:61-75 | One `next()`. An exhausted generator ends and changes nothing. An empty queue would block and changes nothing. A sentinel at the head or met while draining ends the generator: the buffers taken in that pull are dropped and the entries behind the sentinel stay queued. Otherwise the pull yields the join of all queued buffers in FIFO order and leaves the queue empty |
| Audio.AudioEngine.Fill | Source/audioengine.py:89-90 | The callback appends exactly the captured buffer at the tail, changes nothing else and returns `paContinue` |
| Audio.AudioEngine.Teardown | Source/audioengine.py:107-122 | The sentinel is always enqueued. Each of stop, close and terminate takes effect unless that step raises, and a raising step does not prevent the others |
| Audio.CaptureThenPull | Source/audioengine.py:61-90 | Buffers captured between two pulls come out of the next pull as their join in capture order. The queue is left empty, and the stream and the audio interface are untouched |
| Audio.TeardownThenPull | Source/audioengine.py:62-116 | After teardown, the next pull ends the stream and yields none of the buffers still queued. The stream and interface states are those teardown leaves, depending on which of its calls fail |
| Pipe.Split | Source/pipeclient.py:102 | `split('\r\n')` gives at least one piece, and the first piece is a prefix of the text |
| Pipe.JoinSplit | Source/pipeclient.py:102 | Joining the pieces with `"\r\n"` gives back the payload, so the split loses nothing |
| Pipe.SplitJoin | Source/pipeclient.py:102 | Splitting text joined from separator-free pieces gives back exactly those pieces, so the split invents nothing |
| Pipe.SplitPartsHaveNoSeparator | Source/pipeclient.py:102-104 | No dispatched piece contains `"\r\n"` |
| Pipe.RemoveSeparators | Source/pipeclient.py:104 | `replace('\r\n', '')` never lengthens a message; RemoveSeparatorsAbsent states that it is the identity on a piece of a split |
| Pipe.RemoveSeparatorsAbsent | Source/pipeclient.py:104 | `replace('\r\n', '')` leaves a separator-free piece unchanged, so it is a no-op after the split |
| Pipe.SplitTrailingSeparator | Source/pipeclient.py:102-105 | `"hello\r\nworld\r\n"` splits into `"hello"`, `"world"` and `""`, in that order |
| Pipe.FirstDecisive | Source/pipeclient.py:52-70 | The index of the first `CreateFile` outcome that ends the retry loop; every earlier one raised a `pywintypes.error` |
| Pipe.IsFileNotFound | Source/pipeclient.py:66 | The retry sleeps only for the exact argument tuple (2, 'CreateFile', 'The system cannot find the file specified.') |
| Pipe.NotFoundCount | Source/pipeclient.py:65-67 | The number of outcomes that are the exact not-found error, at most the number of attempts |
| Pipe.PipeClient.constructor | Source/pipeclient.py:32-38 | No handle, no text and no read thread yet |
| Pipe.PipeClient.OpenPipe | Source/pipeclient.py:49-74 | The loop sleeps once per not-found error before the first decisive outcome. A handle connects and reports nothing. Any other exception goes to the hook. A missing handle resets the handle to `None` and raises the timeout error |
| Pipe.PipeClient.CompleteRead | Source/pipeclient.py:81-88 | With no handle, or with a non-zero `ReadFile` code, the text becomes `None`. Code 0 stores the decoded text. A raising read leaves the previous text. The thread then counts as finished |
| Pipe.PipeClient.ReadFromExcel | Source/pipeclient.py:94-107 | With no thread, the poll starts one read and dispatches nothing. While the read is alive, it does nothing. After the read has finished, it dispatches every piece of the text in payload order, or nothing for `None`, and starts exactly one new read. At most one read is in flight |
| Pipe.PipeClient.ReadCycle | Source/pipeclient.py:81-107 | A read followed by a poll stores the reply text (`None` for a missing handle or a non-zero code, the old text after a raise). It dispatches the pieces of a good reply. A missing handle or a non-zero code dispatches nothing. A raising read dispatches the previous payload again, or nothing when no text was ever stored |
| Speech.Ssml | Source/texttospeech.py:94-97 | The SSML starts with the say-as opening tag carrying the hint and ends with the closing tags, and its length, the billed count, is the length of the hint plus the length of the text plus the 50 template characters |
| Speech.Report | Source/texttospeech.py:111-117 | An exception whose arguments mention "Failed to play sound" is reported as `FailedToPlaySound`, and every other exception goes to the hook |
| Speech.Billing | Source/texttospeech.py:108 | The `charactersBilled` macro gets the count as decimal digits that read back as the count itself |
| Speech.SsmlCarriesText | Source/texttospeech.py:94-96 | The SSML carries the text between the say-as tags with no ASCII `-` left in it, and, when the text holds no U+2212, the text is recoverable from it |
| Speech.MinusSignLikeHyphen | Source/texttospeech.py:94 | Replacing any one U+2212 in a text by a hyphen leaves the SSML unchanged. So the text can be recovered from the SSML only when it holds no U+2212 |
| Speech.TextToSpeech.constructor | Source/texttospeech.py:55-74 | Empty queue and text, no thread, the gender mapped from "neutral". A client that cannot be created reports `GoogleCredentialsError.` and stays missing |
| Speech.TextToSpeech.Speak | Source/texttospeech.py:128-133 | The text goes to the tail exactly when the queue holds at most 10 texts, so the queue can reach 11. Otherwise the queue is unchanged and the overflow is reported. No thread is started, and the FIFO invariant is kept |
| Speech.TextToSpeech.RunTextToSpeech | Source/texttospeech.py:142-152 | With texts waiting and no live thread, the head text is taken and exactly one thread started. Otherwise nothing changes. Texts are taken in the order `speak` accepted them, and at most one thread runs |
| Speech.TextToSpeech.CompleteSpeech | Source/texttospeech.py:91-117 | Empty text does nothing. Without a client, the unbound `__client` raises, the hook is called and nothing is billed. A synthesis failure is reported and nothing is billed. Otherwise the billing is reported before playback, followed by the playback failure if there is one |
| Speech.SpeakBurst | Source/texttospeech.py:129-133 | Eleven texts spoken in a row are all queued. Each later text is dropped, and the trace gains exactly one `textToSpeechQueueOverflow` report per dropped text. The worker and the current text are untouched |
| Settings.Cell | Source/getsettings.py:89-90 | `Range(column + str(row)).Value`; CellsOutsideAreEmpty states that only the stored rows hold values |
| Settings.CellsOutsideAreEmpty | Source/getsettings.py:93-97 | A cell above row 1 or below a column's stored rows is empty, so every row scan meets an empty cell |
| Settings.Str | Source/getsettings.py:91 | `str()` of a cell value; StrPrintsNone states how an empty cell prints |
| Settings.StrPrintsNone | Source/getsettings.py:91 | An empty cell prints as "None", exactly like a cell holding the text "None", so the lookup's `str()` comparison cannot tell them apart |
| Settings.Unquote | Source/getsettings.py:120 | `replace('"', '')` leaves no double quote; RemoveCharCounts and RemoveCharAppend state that every other character is kept, in order and as often as it occurred |
| Settings.LanguageStop | Source/getsettings.py:93-97 | The first row at which the language scan stops: a match, an empty A cell or an empty B cell |
| Settings.LanguageCode | Source/getsettings.py:87-101 | The lookup returns the B value of the row where the scan from row 1 stops. A missing "Languages" sheet goes to the hook and gives `None` |
| Settings.LanguageFirstMatch | Source/getsettings.py:89-98 | The first matching row, with only complete rows above it, is the row whose code the lookup returns |
| Settings.ReplacementStop | Source/getsettings.py:127-137 | The first row from row 2 whose D or E cell is empty |
| Settings.Replacements | Source/getsettings.py:127-137 | The dictionary after inserting the rows in row order; ReplacementsSize, ReplacementKeys and ReplacementsLastWins state its size, keys and values |
| Settings.ReplacementsSize | Source/getsettings.py:127-137 | The dictionary has at most one entry per row scanned |
| Settings.ReplacementKeys | Source/getsettings.py:127-137 | The dictionary holds exactly the unquoted keys of the rows scanned |
| Settings.ReplacementsLastWins | Source/getsettings.py:128 | Each key maps to the value of the last row with that key, so a later duplicate overwrites an earlier one |
| Settings.ReadReplacements | Source/getsettings.py:117-137 | The dictionary holds the rows from 2 up to the first row with an empty D or E cell, unquoted. An empty D2 raises before anything is inserted |
| Settings.PhraseStop | Source/getsettings.py:139-149 | The first empty F cell from row 2 |
| Settings.Phrases | Source/getsettings.py:143-145 | One phrase per row, in row order, each the cell text unquoted |
| Settings.ReadCommonPhrases | Source/getsettings.py:139-149 | The phrases are F2, F3, … up to the first empty cell, in order and without double quotes |
| Settings.SplitVoice | Source/getsettings.py:157-166 | With a `(`, the voice and gender hold no parenthesis and the gender holds no `)`. Without one, the voice is the whole text and the gender is "neutral" |
| Settings.StripKeepsOut | Source/getsettings.py:160-162 | `strip()` adds no character, so the voice and gender stay free of parentheses |
| Settings.SplitVoiceRoundTrip | Source/getsettings.py:157-163 | "voice (gender)" gives back that voice and gender, provided neither part holds a parenthesis or has surrounding white space |
| Settings.GetSettings.constructor | Source/getsettings.py:108-176 | A missing "Settings" sheet reports `settingsSheetNotFound` twice and keeps every default. An empty D2 goes to the hook and keeps every default. Otherwise every field is read from its cells, and each lookup without a "Languages" sheet calls the hook |
| Settings.GetSettings.ReadRest | Source/getsettings.py:139-170 | The phrases, both language codes, the voice and gender, the say-as hint and the credentials path hold what their cells say |
| Strings.ReplaceChar | Source/texttospeech.py:94 | Every `from` becomes `to` and every other character keeps its place |
| Strings.ReplaceCharRoundTrip | Source/texttospeech.py:94 | When `to` does not occur, replacing back gives the original |
| Strings.RemoveChar | Source/getsettings.py:120 | `replace(c, '')` leaves no `c` and never lengthens the text |
| Strings.RemoveCharAppend | Source/getsettings.py:120 | Deleting from a concatenation deletes from each part and keeps the parts in order, so the kept characters keep their order |
| Strings.RemoveCharCounts | Source/getsettings.py:144 | Every copy of the character is deleted and every other character is kept as many times as it occurred; the length drops by the number of copies |
| Strings.RemoveAbsentChar | Source/getsettings.py:144 | Removing an absent character changes nothing, so unquoting twice is unquoting once |
| Strings.Strip | Source/getsettings.py:160 | `strip()` never lengthens the text and leaves no white space at either end; StripCutsOnlySpaces states that it cuts only white space |
| Strings.IsSpace | Source/getsettings.py:160 | The characters Python's `str.isspace()` accepts, which `strip()` with no argument removes |
| Strings.StripCutsOnlySpaces | Source/getsettings.py:160 | `strip()` keeps a slice and cuts only white space on either side |
| Strings.StripTrimmed | Source/getsettings.py:162 | A string with no surrounding white space is its own `strip()` |
| Strings.Contains | Source/texttospeech.py:113 | Substring `in`: the pattern occurs at some index of the text |
| Strings.IndexOf | Source/getsettings.py:159 | The first `(` and nothing before it, or the length when there is none |
| Strings.Decimal | Source/texttospeech.py:97 | `str()` of a count is a non-empty run of decimal digits with no leading zero |
| Strings.DecimalRoundTrip | Source/texttospeech.py:108 | The reported count reads back as the count itself |

## Left out

- Real threads (`threading.Thread`, `is_alive`, daemon flags): each worker is a state field, and its body runs as one atomic step when the caller says so.
- PyAudio stream opening and format parameters, and `pause`/`resume`: these are foreign calls with no logic of their own. The stream state only records stop and close.
- `CreateFile` parameters, the 10240-byte `ReadFile` size and UTF-16 decoding: a read reply carries its result code and the decoded text.
- The wall clock and the `sleep(0.1)` in `openPipe`: the deadline is replaced by the finite list of attempt outcomes made before it, and only the number of sleeps is kept.
- The Google Cloud client, `VoiceSelectionParams`, `AudioConfig`, `synthesize_speech` with its 60 s timeout, and `winsound.PlaySound`: the synthesis and playback outcomes are parameters, and only the SSML, the billed count and the reports are modelled.
- The construction of the voice parameters in `TextToSpeech.__init__` (lines 69-85): only the gender choice is kept, and the exception path of those foreign calls is not modelled.
- Excel COM access and `str()` of numeric cell values: cells are text already, or `None`.
- The arguments passed to `exceptionHook`: the trace records only that the hook was called.
- Exceptions raised by the message handler `processIncomingMessages` during a dispatch, and by `callExcelMacro`: the model assumes these calls return.
- `__del__` finalizer timing: `Teardown` runs when the caller calls it.
- Audio.AudioEngine.Pull: the non-blocking drain is one atomic step, so a buffer the callback puts while a drain is running is not interleaved.
- Settings.GetSettings: the replacement dictionary is a map, so the insertion order a Python dict keeps, where a later duplicate key keeps its first position, is not modelled. No code here iterates the dictionary.
- Speech.Report: `str(ExceptionValue.args)` is taken as a parameter text, and is not built from an exception.
