# Phone interview assistant: transcript logic

This project models the transcript-keeping logic of a phone interview
assistant. It covers two halves.

- **The transcription server** (`backend/app.py`) keeps a table of chunk
  sessions. Each session record holds the accumulated transcript and the index
  of the last applied chunk. An upload to `/transcribe_chunk` runs through
  these steps:
  - it settles on a session, creating one when the id is empty or unknown;
  - it drops a chunk whose index is not past the record's `last_chunk`;
  - it turns the transcriber's segment texts into one partial text: stripped,
    blanks dropped, joined with spaces;
  - it appends that text to the session and advances `last_chunk`.

  The server also normalises transcription model names and caches the loaded
  models. It maps an answer tone to a rule. It guards against an empty question
  and builds the chat prompt.
- **The page script** (`frontend/script.js`) keeps the committed transcript
  `fullText` and a recogniser handle. It folds each batch of speech results
  into `fullText` and the displayed transcript. Start, stop, Clear and Generate
  reset or drop that state, and the script also normalises the backend
  address.

Modules:

- `Text`: strip, ASCII lower-casing, suffix test and space-join.
- `ChunkSessions`: the value-level chunk rules, and a replay of a run of
  uploads.
- `SttServer`: class `Server`, holding the session table and the model cache
  as fields that its methods update in place.
- `Answer`: the tone rule and the prompt built before the chat call.
- `SpeechMerge`: the result-batch fold and the address normalisation.
- `LivePage`: class `Page`, holding the script's module variables and page
  text.
- `Wrappers`: `Option`.

Where the behaviour one would expect of such an assistant and the code
differ, the model follows the code.

- One might expect the display to put a space between committed and pending
  text and to normalise inner whitespace. The code shows
  `(fullText + interim).trim()`: it adds no separator and keeps inner
  whitespace.
- One might expect a second start while listening to do nothing. `startSTT`
  always resets `fullText` and installs a new recogniser without stopping the
  old one.
- One might expect results from a stopped recogniser to be discarded. The code
  has no liveness flag, so `OnResult` writes to `fullText` whatever recogniser
  delivered the batch.
- One might expect chunk numbers without gaps. The server accepts any index
  past `last_chunk`, so gaps are allowed and only repeats and reordering are
  dropped (`AcceptedIncreasing`).

## Model

| member | source | states |
|---|---|---|
| `Text.Strip` | backend/app.py:56 | `str.strip` and `trim`: no whitespace at either end and never longer than the argument; `StripInfix` states what is cut |
| `Text.StripInfix` | backend/app.py:56 | the stripped string is an infix of the argument and everything cut on either side is whitespace |
| `Text.StripEmptyIffAllSpace` | backend/app.py:124-125 | stripping leaves nothing iff the string is all whitespace, the blank-segment test |
| `Text.Lower` | backend/app.py:96 | `str.lower` on ASCII: same length, no upper-case letter left, each upper-case letter replaced by its lower-case one, every other character kept |
| `Text.LowerIdempotent` | backend/app.py:157 | lower-casing twice is lower-casing once |
| `Text.EndsWith` | backend/app.py:98-105 | `str.endswith`: the suffix is the tail of the string |
| `Text.JoinSpaces` | backend/app.py:128 | `" ".join`: the parts with one space between neighbours; stated by `JoinTidy` and `JoinSnoc` |
| `Text.JoinTidy` | backend/app.py:128 | joining non-empty stripped parts gives a stripped string that is empty iff there are no parts |
| `ChunkSessions.Parts` | backend/app.py:122-126 | every kept part is non-empty and has no whitespace at its ends; there are no more parts than segments |
| `ChunkSessions.CollectParts` | backend/app.py:122-126 | the segment loop yields exactly the stripped non-blank segment texts, in order |
| `ChunkSessions.PartsAppend` | backend/app.py:122-126 | filtering respects concatenation, so parts keep the segments' order |
| `ChunkSessions.PartsEmptyIffAllBlank` | backend/app.py:122-126 | no part is kept exactly when every segment is blank |
| `ChunkSessions.PartialText` | backend/app.py:122-128 | `partial_text`: the stripped space-join of the parts; its shape is stated by `PartialTextShape` |
| `ChunkSessions.PartialTextShape` | backend/app.py:122-128 | `partial_text` is the plain space-join of the parts (the final strip is a no-op); it has no whitespace at its ends; it is empty iff every segment is blank |
| `ChunkSessions.PartialTextAppend` | backend/app.py:122-131 | the partial text of two runs of segments is the first's partial text with the second's appended as the session update does |
| `ChunkSessions.AppendText` | backend/app.py:130-131 | the session-text update, guarded by a non-empty partial text; its shape is stated by `AppendTextShape` |
| `ChunkSessions.AppendTextShape` | backend/app.py:130-131 | an empty partial leaves the text unchanged; a first partial becomes the text; a later one follows after one space; the old text is a prefix; no whitespace at the ends |
| `ChunkSessions.AppendTextAssoc` | backend/app.py:130-131 | appending partial texts is associative |
| `ChunkSessions.ApplyChunk` | backend/app.py:93-133 | one upload against one record as a single step: dropped when its index is not past `last_chunk`, otherwise text appended and `last_chunk` set; stated by `ApplyChunkStep` |
| `ChunkSessions.ApplyChunkStep` | backend/app.py:93-133 | a chunk with index at most `last_chunk` changes nothing; an accepted one sets `last_chunk` to its index; `last_chunk` never decreases; text only grows; records stay well formed |
| `ChunkSessions.ApplyChunkOnce` | backend/app.py:93-133 | when uploads do not overlap, delivering the same index again, with any text, has no further effect |
| `ChunkSessions.Commit` | backend/app.py:130-133 | the update an upload makes after its audio is read, applied to the record as it is at that moment without a second look at `last_chunk` |
| `ChunkSessions.OverlappingDuplicate` | backend/app.py:93-133 | two uploads of one index that both pass the duplicate check before either commits append both texts, unlike the one-step update |
| `ChunkSessions.OverlappingReorder` | backend/app.py:93-133 | overlapping uploads committing a larger then a smaller index leave `last_chunk` at the smaller one, so a re-sent larger index is applied again |
| `ChunkSessions.Replay` | backend/app.py:93-133 | the record after a run of non-overlapping uploads to one session, in arrival order |
| `ChunkSessions.Accepted` | backend/app.py:93-133 | the uploads of such a run that pass the duplicate check, in arrival order |
| `ChunkSessions.AcceptedAbove` | backend/app.py:93-133 | over any run of uploads every applied index is past the starting `last_chunk` |
| `ChunkSessions.AcceptedIncreasing` | backend/app.py:93-133 | over any run of uploads the applied indices strictly increase |
| `ChunkSessions.ReplayLastChunk` | backend/app.py:93-133 | after any run of uploads `last_chunk` is the last applied index, or the starting one when none was applied |
| `ChunkSessions.ReplayText` | backend/app.py:93-133 | over any run of uploads the session text is the old text with the partial text of all applied uploads' segments appended once |
| `ChunkSessions.ReplayFromNew` | backend/app.py:67-133 | from a new session the text is exactly the space-join of every non-blank stripped segment of the applied uploads, in order |
| `ChunkSessions.UploadSuffix` | backend/app.py:96-105 | the suffix is one of `.wav`, `.mp3`, `.m4a`, `.ogg` iff the lower-cased name ends with it, and `.webm` iff it ends with none of them (an empty name included) |
| `SttServer.NormalizeModelName` | backend/app.py:47-58 | the looked-up name is always supported: the stripped argument when supported, `"base"` otherwise |
| `SttServer.NormalizeModelNameIdempotent` | backend/app.py:55-58 | normalising a normalised name changes nothing |
| `SttServer.LoadModel` | backend/app.py:61 | a loaded model is the record of its name, device `cpu` and compute type `int8` |
| `SttServer.CacheLookup` | backend/app.py:59-63 | after a lookup the cache holds the normalised name mapped to the returned model; a cached name leaves the cache as it was; an uncached one adds exactly that entry |
| `SttServer.CacheLookupValid` | backend/app.py:55-63 | a lookup keeps every entry stored under its own supported name, returns the model built for the normalised name, and never drops an entry |
| `SttServer.CacheLookupTwice` | backend/app.py:59-63 | a second lookup of a name normalising to the same model adds nothing and returns the same model |
| `SttServer.UnusedIdExists` | backend/app.py:68 | for any table there is a non-empty id that is not yet a key |
| `SttServer.Server.constructor` | backend/app.py:42-65 | the server starts with no sessions and no loaded models |
| `SttServer.Server.NewSession` | backend/app.py:67-70 | the new id is non-empty and was not a key; it maps to text `""` and `last_chunk` -1; every other record and the cache are unchanged |
| `SttServer.Server.GetWhisper` | backend/app.py:55-63 | returns the model and leaves the cache as `CacheLookup` says; the session table is unchanged |
| `SttServer.Server.ResolveSession` | backend/app.py:88-91 | a known non-empty id is kept without changing the table; an empty or unknown one is replaced by a new session's id; the result is a key |
| `SttServer.Server.ApplyUpload` | backend/app.py:91-135 | taken as one step: a duplicate or out-of-order chunk returns the stored text with an empty partial and changes neither table nor cache; otherwise the reply's partial is the segments' partial text, the record is updated by `ApplyChunk`, the reply text is the new record text and the cache is as `CacheLookup` says |
| `SttServer.Server.StoreChunk` | backend/app.py:130-133 | an accepted chunk's partial text is appended and `last_chunk` set, touching only that record |
| `SttServer.Server.TranscribeChunk` | backend/app.py:80-135 | the whole handler as one step: the returned session id is always a key; it is the caller's id when known, else a fresh one; the table and reply are as the two steps above say |
| `Answer.ToneRule` | backend/app.py:156-162 | the short rule iff the stripped lower-cased tone is `short`, the detailed rule iff it is `detailed`, the concise rule otherwise (empty tone included) |
| `Answer.ToneRuleInsensitive` | backend/app.py:156-157 | tones equal up to case and surrounding whitespace get the same rule |
| `Answer.UserPrompt` | backend/app.py:187-189 | the user message: the question header and question, then the resume section when there is a resume |
| `Answer.PrepareAnswer` | backend/app.py:175-198 | the step `/answer` takes before the network: the fixed reply, or the request; stated by `PrepareAnswerShape` |
| `Answer.PrepareAnswerShape` | backend/app.py:175-198 | a blank question yields `No question received.` and no request; otherwise the system prompt ends with the tone rule; the user prompt opens with the stripped question on its own line; it has the resume section, holding the stripped resume, iff the stripped resume is non-empty; the model defaults to `llama3:latest` |
| `SpeechMerge.FinalTextIsSpacedFinals` | frontend/script.js:83-86 | what a batch adds to `fullText` is each final transcript followed by a space, in index order; interim entries add nothing |
| `SpeechMerge.Window` | frontend/script.js:83 | the entries the handler reads are the suffix of the batch after `resultIndex`, and none when the index is past the end |
| `SpeechMerge.FinalText` | frontend/script.js:83-86 | what the handler adds to `fullText` for a run of entries; stated by `FinalTextIsSpacedFinals` |
| `SpeechMerge.InterimText` | frontend/script.js:82-86 | the handler's local `interim` for a run of entries; stated by `WindowStep` |
| `SpeechMerge.WindowStep` | frontend/script.js:82-86 | reading one more result entry extends the final text or the interim text by exactly that entry |
| `SpeechMerge.FinalTextAppend` | frontend/script.js:83-86 | folding two consecutive runs of results is folding their concatenation |
| `SpeechMerge.InterimIgnored` | frontend/script.js:82-86 | an interim result anywhere in a batch leaves the final text unchanged |
| `SpeechMerge.RunTextIsSpacedFinals` | frontend/script.js:72-89 | after any run of result events from a reset, `fullText` is the final transcripts, each followed by a space, in order, however many interim results came between |
| `SpeechMerge.Display` | frontend/script.js:88 | the displayed transcript has no whitespace at its ends |
| `SpeechMerge.BaseUrl` | frontend/script.js:22-25 | the result is the trimmed address with its whole trailing run of `/` removed; it never ends in `/`; a blank address gives `""` |
| `SpeechMerge.Api` | frontend/script.js:27-29 | a request URL: the normalised address followed by the path; stated by `ApiSeam` |
| `SpeechMerge.ApiSeam` | frontend/script.js:27-29 | a request URL is the normalised address followed by the path, with no doubled slash where they meet; a blank address gives the bare path |
| `LivePage.Page.constructor` | frontend/script.js:62-63 | the script starts with empty `fullText` and no recogniser |
| `LivePage.Page.StartSTT` | frontend/script.js:65-95 | without a recogniser only the status changes; otherwise `fullText` and the transcript are reset to `""` and a continuous `en-US` recogniser with interim results is installed |
| `LivePage.Page.OnResult` | frontend/script.js:81-89 | `fullText` grows by exactly the final text of the entries from `resultIndex` on, so the old value is a prefix; the transcript is the trimmed `fullText` plus interim text; nothing else changes |
| `LivePage.Page.StopSTT` | frontend/script.js:97-100 | the handle is always dropped and nothing else changes, so a second stop has no further effect |
| `LivePage.Page.Clear` | frontend/script.js:138-143 | transcript, answer and `fullText` become `""`; the recogniser is untouched |
| `LivePage.Page.Generate` | frontend/script.js:108-125 | no request is built iff the trimmed transcript is blank, in which case the "Speak first" message is shown; otherwise the body holds the trimmed transcript, resume and tone and progress is shown |

## Left out

- Web framework setup, CORS, static file serving, `/health` and the `/stt/models` and `/stt/session` route wrappers: plumbing. `/stt/session` only calls `new_session`.
- Loading and running the transcription model: a foreign library. A loaded model is a record of the name, device and compute type it was built with. The transcriber's output for an upload is the `segments` argument of `TranscribeChunk`. The `language` field and the decoding options only select the transcriber's arguments.
- Exceptions raised while loading a model or transcribing: such an error reaches the client as a server error and leaves the record unchanged. It is not modelled.
- Writing and removing the temporary audio file and reading the upload: filesystem I/O. The suffix is computed but no file exists.
- UUID generation: the new id is any non-empty string not yet in the table.
- The chat service calls, their error mapping, `ollama_models` and the chat service address setting: network.
- `None` arguments (`x or ""` in the server, `x || ""` in the script): strings are always present, and a missing one counts as `""`.
- Whitespace is the six characters both runtimes strip: space, tab, line feed, carriage return, vertical tab and form feed. Python's `str.strip` also strips the ASCII separators U+001C to U+001F, which JavaScript's `trim` keeps; so, for example, a model name `"\x1csmall"` loads `small` in the server but normalises to `base` here. Those four characters and the Unicode whitespace and case rules of both runtimes are not modelled, and lower-casing covers ASCII letters only.
- DOM access, view switching, `fetch`, the "Test Ollama" button, the reply handling after Generate's request, and the `onerror`/`onend` status messages: UI and network.
- SttServer.Server.TranscribeChunk: the handler is `async` and suspends while it reads the upload (backend/app.py:109), after the duplicate check and before the update. The method runs the whole request as one atomic step, so it does not capture overlapping uploads to one session, which can both pass the check and then apply one index twice or lower `last_chunk`. `Commit`, `OverlappingDuplicate` and `OverlappingReorder` state that interleaving on the record; see "## Findings".
- SttServer.Server.ApplyUpload: modelled as atomic for the same reason. Overlapping uploads that both pass the line-93 check are not captured here. `AcceptedIncreasing`, `ApplyChunkOnce` and `ReplayLastChunk` hold for uploads that do not overlap.
- LivePage.Page.StopSTT: the recogniser's own `stop()` call is foreign. Only its effect on the page state is modelled, which is the same whether or not the call throws.
- The asynchronous scheduling of recognition events: each batch is an explicit `OnResult` call with its results and `resultIndex`.
- The frontend's request paths and body fields do not match the server's: this is an integration mismatch, not logic.
- An engine coordinator, segmented chunk uploads from the client, and stale-callback tagging: no shown file implements them.

## Findings

| source | as written | input that shows it | evidently intended | confidence | as-written member | corrected member |
|---|---|---|---|---|---|---|
| backend/app.py:93-133 | the duplicate check and the update are split by the `await` that reads the upload, so two overlapping uploads to one session can both pass the check before either commits | record `("t", 4)`: uploads of index 5 with texts `a` and `b` both pass the check and leave `"t a b"`; uploads of 6 then 5 leave `last_chunk` 5, so a re-sent 6 is applied again | each index applied at most once and `last_chunk` never lowered, as the check-then-update step promises for one request at a time | medium, not executed | `ChunkSessions.OverlappingDuplicate`, `ChunkSessions.OverlappingReorder` (on `ChunkSessions.Commit`) | `ChunkSessions.ApplyChunk` with `ChunkSessions.ApplyChunkOnce` and `ChunkSessions.AcceptedIncreasing` |
