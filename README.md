# Kiosk chatbot core: speech-key rotation, sessions, guest greeting, WAV encoding

This project models the deterministic core of a kiosk chatbot ("LIA") that answers
event visitors by text and synthesized speech. It covers a Flask backend (`app.py`)
and a browser script (`main.js`), and proves properties of the model.

On the backend side it covers five things:

- **Credential parsing.** The speech-provider credential list is read from `GEMINI_API_KEYS` (`ApiKeys`).
- **Speech synthesis.** A rotating pool of credentials with a persistent cursor. Each credential gets up to three calls with exponential backoff. An HTTP 429 skips to the next credential. A second provider is called once when every credential fails (`SpeechKeys`).
- **Session registry.** The per-session conversation registry behind `/chat`, `/summarize` and `/restart` (`Sessions.Registry`).
- **Preset answers.** The preset-question table `EVENT_INFO`, with canned answers and recorded audio (`Sessions`).
- **Summary prompt.** The history formatting sent to the model when a summary is requested (`Sessions`).

On the browser side it covers four things:

- **Special-guest recognition** on the start form: name normalisation, word-overlap matching, and the choice of welcome message (`GuestMatch`).
- **Audio path.** Base64 decoding into bytes, the 44-byte RIFF/WAVE header in front of 16-bit mono PCM at 24 kHz, and the guarded playback (`WavEncoding`).
- **Tooltip placement** relative to the pointer (`Tooltip`).
- **Control toggling** while a request is in flight (`UiControls`).

The string operations of both languages live in `Text`:

- Python `strip()` and `split(",")`;
- JavaScript `trim()` and `split(/\s+/)`, over each language's own whitespace set.

## How outside inputs are modelled

Outside inputs become parameters:

- **Primary speech provider.** An oracle `reply: nat -> Reply`. It gives the classified answer to the c-th call of one synthesis: payload, 429, other error, or a reply without payload.
- **Fallback provider.** Its answer is an `Option<string>`. `None` stands for gTTS failing, which `get_gtts_audio_data` turns into `None`.
- **Sleeps.** They are recorded, not performed. Each step of the ghost trace carries the base delay `2^attempt`.
- **Unicode NFD and `atob`.** Both are function parameters (`nfd`, `atob`).
- **DOM reads and writes.** They become method parameters and results.

## Behaviour worth noting

Four details of the synthesis code that the model keeps as they are:

- **Sleep after the last attempt.** Every failed attempt that is not a 429 is followed by a backoff sleep, the third attempt on a key included, although no retry on that key follows (app.py:490-493).
- **When the cursor moves.** The cursor is written only when a payload is delivered (app.py:475-476). A synthesis that exhausts every key leaves it unchanged, so the next one starts from the same key.
- **Fallback failure.** `get_gtts_audio_data` catches its own exceptions and returns `None` (app.py:508-510), so a failed fallback is an absent result, not an error.
- **Rate limits.** A 429 leaves the key at once with no sleep (app.py:480-482).

## Model

| member | source | states |
|---|---|---|
| Text.Trim | main.js:110 | the result has no whitespace at either end, is empty exactly when the input is all whitespace, and uses only characters of the input (Python `strip` / JS `trim` by the whitespace class) |
| Text.TrimIdempotent | main.js:110 | trimming a trimmed string changes nothing |
| Text.SplitOn | app.py:38 | `split(sep)` yields at least one piece and no piece contains the separator |
| Text.SplitOnJoin | app.py:38 | joining the pieces of a split with the separator gives back the original string |
| Text.JoinSplitOn | app.py:686-689 | joining at least one separator-free piece and splitting again gives back the same pieces (`Join([])` splits to `[""]`) |
| Text.SplitOnRuns | main.js:121-122 | `split(/\s+/)` yields at least one piece and no piece contains whitespace; its content is stated by `SplitOnRunsWord` and `SplitOnRunsCons` |
| Text.SplitOnRunsWord | main.js:121-122 | a string without whitespace splits to itself alone |
| Text.SplitOnRunsCons | main.js:121-122 | a word, a non-empty whitespace run and text not starting with whitespace split into the word followed by the pieces of the text; with `SplitOnRunsWord` this fixes the result for every input, including the empty first (last) piece of a string that starts (ends) with whitespace |
| Text.SplitOnRunsOfTrimmed | main.js:121-122 | `split(/\s+/)` of a non-empty string without edge whitespace yields only non-empty words |
| ApiKeys.StrippedPieces | app.py:38 | the kept keys are non-empty, stripped and comma-free, at most one per piece, and none are kept exactly when every piece is blank |
| ApiKeys.StrippedPiecesMembers | app.py:38 | a string is kept exactly when it is the stripped form of some non-blank piece |
| ApiKeys.StrippedPiecesAppend | app.py:38 | the keys of two runs of pieces are the keys of the first followed by the keys of the second, so keys keep the order of their pieces |
| ApiKeys.StrippedPiecesOne | app.py:38 | a single piece yields its stripped form, or nothing when it is blank |
| ApiKeys.ParseApiKeys | app.py:38-41 | a successful parse yields a non-empty list of non-empty, stripped, comma-free keys; an empty list is the configuration error |
| ApiKeys.ParseApiKeysMembers | app.py:38-41 | on success, the keys are exactly the stripped forms of the non-blank comma-separated pieces of the variable |
| ApiKeys.ParseApiKeysOrder | app.py:38-41 | on success, the first comma-separated piece gives the first key unless it is blank, and the remainder of the variable gives the following keys in order |
| ApiKeys.PiecesBlankIff | app.py:38 | every comma-separated piece is blank exactly when the text consists only of commas and whitespace |
| ApiKeys.ParseFailsIff | app.py:38-41 | start-up fails exactly when the variable is unset or holds only commas and whitespace |
| SpeechKeys.Attempts | app.py:459-493 | the remainder of the primary phase from a given round and attempt; its properties are stated by `PrimaryTrace`, `CallsPerKeyBound` and the lemmas below |
| SpeechKeys.PrimaryRun | app.py:456-493 | the whole primary phase from the cursor snapshot; its properties are stated by `PrimaryTrace` and the lemmas below |
| SpeechKeys.NextCursor | app.py:475-476 | the cursor after a synthesis; its properties are stated by `CursorInRange`, `RoundRobin` and `GeminiTts` |
| SpeechKeys.Outcome | app.py:477-497 | the primary payload, else the fallback's answer; what `GeminiTts` returns |
| SpeechKeys.PrimaryTrace | app.py:456-493 | call j is answered by the j-th reply; every call goes to key (start + round) mod n with round < n and attempt in 1..3 and records its backoff; the first call is attempt 1 on the cursor snapshot; each call is followed by the one the loops make next; only the last call can deliver, the phase found a payload exactly when it did, and that payload and key are returned |
| SpeechKeys.RateLimitSkipsKey | app.py:479-482 | a 429 is followed by no sleep, and the next call is attempt 1 of the next round |
| SpeechKeys.FailureBacksOff | app.py:483-493 | any other failure or an empty reply is followed by a base sleep of 2^attempt, also after the last attempt, then the same key again or, after the third attempt, the next round |
| SpeechKeys.ExhaustedAfterLastRound | app.py:459-497 | when no payload is found, the last call belonged to round n - 1 and ended that key, so the fallback runs only after every round |
| SpeechKeys.CallBound | app.py:459-463 | at most 3·n primary calls are made before the fallback |
| SpeechKeys.CallsPerKeyBound | app.py:463-493 | no key receives more than 3 calls in one synthesis |
| SpeechKeys.KeyVisitedOnce | app.py:459-461 | each key is used in one block of consecutive calls: two calls on the same key enclose only calls on that key |
| SpeechKeys.RotationInjective | app.py:459-460 | distinct rounds below n use distinct key indices |
| SpeechKeys.RotationOnto | app.py:459-460 | every key index is the key of some round below n |
| SpeechKeys.ExhaustedTriesEveryKey | app.py:459-497 | when no key delivers, every one of the n keys was called before the fallback |
| SpeechKeys.CursorInRange | app.py:475-476 | a direct consequence of the `% len(API_KEYS)` in the cursor write: the cursor after a synthesis is still a valid key index |
| SpeechKeys.QuotaOnTwoKeys | app.py:459-482 | keys A, B, C with 429 on A and B and a payload on C: three calls, no sleep, the cursor wraps to 0 |
| SpeechKeys.BackoffThenSuccess | app.py:463-493 | two failures then a payload on the first key: sleeps of 2 and 4 base seconds, the cursor moves one past the snapshot |
| SpeechKeys.RoundRobin | app.py:456-477 | across a series of syntheses that each succeed at once, the t-th is served by key (cursor + t) mod n |
| SpeechKeys.TryKey | app.py:463-493 | the inner loop on one key returns the payload that ends the primary phase, or hands over to the next round with the calls it made prepended |
| SpeechKeys.RunPrimary | app.py:459-493 | the two loops compute exactly the primary phase: the trace of calls and the payload with the key that delivered it |
| SpeechKeys.KeyRotation.constructor | app.py:433 | the pool holds the non-empty key list and the cursor starts at 0 |
| SpeechKeys.KeyRotation.GeminiTts | app.py:440-497 | the cursor stays valid; it moves to one past the delivering key, or stays put when all keys fail; the result is the primary payload, else the fallback's answer; the fallback's answer is the result exactly when no key delivers |
| SpeechKeys.KeyRotation.TtsAudio | app.py:513-519 | the same cursor update and result as the primary-with-fallback synthesis |
| Sessions.Registry.constructor | app.py:30 | the registry starts empty |
| Sessions.Registry.Chat | app.py:583-586 | a missing or empty session id is refused without change; an unseen id gets the new conversation, a known id keeps its own and nothing else changes |
| Sessions.Registry.Summarize | app.py:677-679 | a missing id is refused; otherwise the stored conversation is returned if present; the registry is not modified |
| Sessions.Registry.Restart | app.py:709-711 | a missing id is refused without change; otherwise exactly that id is removed, an unknown id is a no-op, and every other session keeps its conversation |
| Sessions.Questions | app.py:646 | the preset questions are the table's questions in order |
| Sessions.Lookup | app.py:616 | `EVENT_INFO.get(question)`; its properties are stated by `LookupFinds` and `LookupEntry` |
| Sessions.LookupFinds | app.py:616 | a lookup finds an entry exactly for the listed questions, and the entry has that question |
| Sessions.LookupEntry | app.py:616 | with distinct questions, looking up entry k's question yields entry k |
| Sessions.EventInfoDistinct | app.py:367-392 | a fact about the table constant, not an operation: its six questions are distinct, which `PresetButtonsAnswered` needs |
| Sessions.AnswerFrom | app.py:613-625 | the preset branch of `/chat`; its property is stated by `AnswerFromSpec` |
| Sessions.AnswerFromSpec | app.py:613-625 | exactly the listed questions get a canned answer with the entry's text; audio is planned only with TTS on, from the recording when it exists and by synthesis of the same text otherwise; any other question goes to the conversation unchanged |
| Sessions.PresetButtonsAnswered | app.py:613-625 | every preset button gets the answer and audio of its own entry |
| Sessions.SummaryLines | app.py:686-689 | at most one summary line per message |
| Sessions.SummaryLinesOneLine | app.py:686-689 | messages without line breaks give summary lines without line breaks |
| Sessions.FormatHistory | app.py:686-689 | the `"\n".join` of the summary lines; its property is stated by `FormatHistoryLines` |
| Sessions.FormatHistoryLines | app.py:686-689 | when no message text contains a line break, the formatted history splits back into one labelled line per summarizable message, in order |
| Sessions.SummaryFor | app.py:682-690 | what the route asks the model; its property is stated by `SummaryPromptLines` |
| Sessions.SummaryPromptLines | app.py:682-690 | when no message text contains a line break, read line by line, the prompt of a non-empty history is the instruction, a blank line, then one labelled line per summarizable message in order |
| GuestMatch.RemoveMarks | main.js:108 | the result has no combining mark and is no longer than the input; its content is stated by `RemoveMarksConcat`, `RemoveMarksDropsMark` and `RemoveMarksPlain` |
| GuestMatch.RemoveMarksConcat | main.js:108 | removing marks from a concatenation concatenates the results, so the replacement works character by character in order |
| GuestMatch.RemoveMarksDropsMark | main.js:108 | a single combining mark (U+0300 to U+036F) is removed |
| GuestMatch.RemoveMarksPlain | main.js:108 | a string without combining marks is unchanged; with the two lemmas above this fixes the result for every input |
| GuestMatch.Normalize | main.js:105-111 | the normalised name has no whitespace at either end |
| GuestMatch.NormalizeFolded | main.js:105-111 | a normalised name has no combining mark and no Basic Latin or Latin-1 capital |
| GuestMatch.ToLower | main.js:109 | `toLowerCase`; its property is stated by `NormalizeFolded` |
| GuestMatch.Words | main.js:121-122 | `split(/\s+/)` on the JavaScript whitespace class; its properties are stated by `Text.SplitOnRunsWord`, `Text.SplitOnRunsCons`, `WordsOfJoin` and `Text.SplitOnRunsOfTrimmed` |
| GuestMatch.MatchedWords | main.js:125 | the count of matching input words, with repeats, is at most the number of input words |
| GuestMatch.NamesMatch | main.js:125-128 | the test of one iteration; its meaning is stated by `NamesMatchIff` |
| GuestMatch.TwoHits | main.js:125-128 | two distinct input positions whose words occur in the guest's words give a count of at least two |
| GuestMatch.HitsOfCount | main.js:125-128 | a count of at least two has two distinct input positions behind it |
| GuestMatch.OneWordNeedsEquality | main.js:125-128 | a one-word name matches a guest exactly when the two normalised names are equal |
| GuestMatch.NamesMatchIff | main.js:125-128 | the test holds exactly when the two normalised names are equal or two distinct input positions hold words of the guest's name |
| GuestMatch.TestGuest | main.js:118-128 | one iteration selects the guest exactly when the normalised names are equal or two distinct input positions hold words of the guest's name |
| GuestMatch.FirstFromSpec | main.js:117-131 | the first passing index is returned and no earlier index passes; with no result, no index passes |
| GuestMatch.FirstMatch | main.js:117-131 | the guest the search settles on; its property is stated by `FirstMatchSpec` |
| GuestMatch.FirstMatchSpec | main.js:117-131 | the search picks a matching guest, no earlier guest matches, and with no pick no guest matches |
| GuestMatch.FindGuest | main.js:117-131 | the loop with `break` returns the first matching guest in table order |
| GuestMatch.FindExact | main.js:117-131 | the loop returns the first guest whose normalised name equals the input's |
| GuestMatch.PreferExactSpec | main.js:117-131 | a typed listed name picks a guest of that very name; with no exact name the pick is the search's; a pick exists exactly when the search finds one, and it always matches |
| GuestMatch.FindGuestPreferExact | main.js:117-131 | the corrected search returns the exact-name-first pick, a valid guest index |
| GuestMatch.WordsOfJoin | main.js:121-122 | plain words joined by single spaces split back into the same words |
| GuestMatch.NormalizeJoined | main.js:105-111 | a name that decomposes to plain words joined by spaces normalises to exactly that |
| GuestMatch.SharedWordsMatch | main.js:120-128 | two different names sharing two words select each other's guest |
| GuestMatch.SeventhGuestShadowed | main.js:95-96 | guest 6's listed name matches guest 5 although the names differ |
| GuestMatch.SeventhGuestMisgreeted | main.js:117-131 | the search as written answers guest 6's own name with guest 5 or earlier; the corrected search picks a guest of that name |
| GuestMatch.EarlierMatchShadows | main.js:117-131 | when an earlier guest matches guest k's name, the search as written never greets guest k by name; the corrected search does |
| GuestMatch.StartForm | main.js:78-157 | an empty trimmed name gives no welcome; otherwise the first matching guest in table order gets the personalised greeting with the trimmed name and that guest's description, and everyone else the default greeting |
| GuestMatch.StartFormPreferExact | main.js:78-157 | the same handler with the corrected search: the guest chosen with an exact name preferred gets the personalised greeting, and everyone else the default greeting |
| WavEncoding.CharBytes | main.js:473 | one byte per character |
| WavEncoding.Base64ToArrayBuffer | main.js:473 | fails exactly when `atob` throws; otherwise returns as many bytes as decoded characters, byte i being the char code of character i modulo 256 |
| WavEncoding.CharBytesExact | main.js:473 | for `atob` output (codes below 256) byte i is exactly the char code |
| WavEncoding.Uint32Bytes | main.js:474 | a 32-bit field is four bytes |
| WavEncoding.Uint16Bytes | main.js:474 | a 16-bit field is two bytes |
| WavEncoding.Uint32RoundTrip | main.js:474 | a 32-bit field reads back as the value modulo 2^32, in either byte order |
| WavEncoding.Uint16RoundTrip | main.js:474 | a 16-bit field reads back as the value modulo 2^16 |
| WavEncoding.TagsSpellAscii | main.js:474 | a fact about the source's constants, not an operation: the four tag numbers are the ASCII codes of "RIFF", "WAVE", "fmt " and "data" |
| WavEncoding.Header | main.js:474 | the header is 44 bytes |
| WavEncoding.RiffHeaderFields | main.js:474 | the RIFF chunk reads back as tag, 36 + n and "WAVE" |
| WavEncoding.FmtChunkFields | main.js:474 | the fmt chunk reads back as tag, 16, PCM format 1, one channel, 24000 Hz, 48000 bytes a second, block align 2, 16 bits |
| WavEncoding.DataHeaderFields | main.js:474 | the data chunk reads back as tag and n |
| WavEncoding.ParseWav | main.js:474 | a file parses exactly when it holds at least a header |
| WavEncoding.HeaderRoundTrip | main.js:474 | header plus PCM reads back as every header field and then exactly the PCM bytes |
| WavEncoding.WavBlob | main.js:474 | what `pcmToWavBlob` yields; its properties are stated by `WavBlobLength` and `HeaderRoundTrip` |
| WavEncoding.WavBlobLength | main.js:474 | the file is 44 bytes longer than the PCM, its chunk size is its length less 8, and its samples are the decoded bytes |
| WavEncoding.SetUint32 | main.js:474 | `setUint32` writes the field's four bytes at the offset and nothing else |
| WavEncoding.SetUint16 | main.js:474 | `setUint16` writes the field's two bytes at the offset and nothing else |
| WavEncoding.WriteRiffHeader | main.js:474 | bytes 0-11 become the RIFF chunk header, the rest is unchanged |
| WavEncoding.WriteFmtChunk | main.js:474 | bytes 12-35 become the fmt chunk, the rest is unchanged |
| WavEncoding.WriteDataHeader | main.js:474 | bytes 36-43 become the data chunk header, the rest is unchanged |
| WavEncoding.NewHeader | main.js:474 | a fresh buffer holding exactly the 44-byte header |
| WavEncoding.PcmToWavBlob | main.js:474 | the blob is the header followed by the PCM bytes; invalid base64 and an odd byte count are the two errors |
| WavEncoding.PlayAudioFromData | main.js:476 | audio is played exactly when TTS is on, data is present and non-empty, and the WAV builds; what is played is that WAV |
| Tooltip.PositionTooltip | main.js:485-520 | above the pointer exactly when it is in the lower half, below otherwise, never covering it; left is centred when that fits; it is raised to the margin when the centred tooltip starts left of it and the window is wide enough; it is set to the right edge less the margin whenever the raised position would pass it; so it never passes the right edge less the margin |
| UiControls.Controls.SetUiDisabled | main.js:424 | the four chat controls take the disabled flag; the microphone is disabled exactly when disabling outside a recording |

## Findings

| source | as written | input that shows it | evidently intended | confidence | as-written member | corrected member |
|---|---|---|---|---|---|---|
| main.js:117-131 | the first guest in table order that shares two or more words with the typed name wins | typing "marcos antonio maia lavio de oliveira", guest 6's own listed name, matches guest 5 "andré velasques de oliveira" on "de" and "oliveira", and guest 5 is listed first | a visitor typing a listed name is greeted as that guest | not executed | GuestMatch.SeventhGuestMisgreeted | GuestMatch.PreferExactSpec |

- `GuestMatch.FindGuest` and `GuestMatch.FirstMatch` model the search as written.
- `GuestMatch.FindGuestPreferExact` and `GuestMatch.PreferExact` try an exact normalised name first, then fall back to the search as written.
- `GuestMatch.StartForm` models the handler as written, with `FindGuest`. `GuestMatch.StartFormPreferExact` is the corrected handler, with `FindGuestPreferExact`.

## Left out

- HTTP and Flask plumbing are not modelled: routing, JSON request and response handling, static files, and the 500 replies. Only the registry and the pure helpers behind the routes are.
- Database logging (`log_message`, `log_interaction`) is not modelled. It is SQL against an external store.
- The LLM conversation, `configure_genai_with_available_key`, speech-to-text and the HTTP request of the speech provider are external services. The provider becomes the `reply` oracle, and a conversation becomes an opaque number.
- The payload construction and JSON navigation of app.py:446-471 are not modelled. The oracle's `Reply` is already the classification the handler makes.
- `get_gtts_audio_data` is an external library call; its result is the `fallback` parameter.
- `key_lock` and `convo_lock` are not modelled. One caller at a time is assumed, so the race between the cursor snapshot and the cursor write is not covered.
- `SpeechKeys.KeyRotation.GeminiTts`: sleeps are recorded as the integer base delay `2^attempt`. The random jitter in [0, 1] and real time are left out.
- `SpeechKeys.KeyRotation.GeminiTts` writes the cursor once, after the loops. The source writes it just before returning the payload, and with one caller at a time the two are the same.
- `SpeechKeys.KeyRotation.TtsAudio`: the `except` branch of `get_tts_audio_data` never runs, because no exception leaves the modelled primary phase.
- The random choice of the chat model name, and the logging of key prefixes, are not modelled.
- The second speech synthesis of `/chat` (app.py:640-641) is not modelled. It synthesizes the reply text when no audio was produced before it. That includes a preset answer whose recording is missing and whose first synthesis (app.py:624) returned `None`, so such a reply goes through the key rotation twice. `Sessions.AnswerFrom` and `Sessions.AudioFor` plan only the first synthesis and do not cover the repeat.
- `Sessions.AnswerFrom`: `recordingExists` means that opening the recording raises no `FileNotFoundError`. Any other open error ends in the 500 reply of app.py:649-652, which is not modelled.
- Conversation histories in `Sessions.SummaryFor` are given values.
- `Sessions.FormatHistoryLines`, `Sessions.SummaryPromptLines`: the line structure is stated only for histories whose message texts contain no line break. Model replies usually do contain line breaks, and then a message spans several lines of the prompt. The real history lives inside the external conversation object.
- `GuestMatch.Normalize`, `GuestMatch.ToLower`: Unicode NFD is the parameter `nfd`. `toLowerCase` is modelled for Basic Latin and Latin-1 letters only, so `NormalizeFolded` speaks of those capitals only.
- `WavEncoding.Base64ToArrayBuffer`: `atob` is the parameter `atob`. `charCodeAt` on characters beyond the Basic Multilingual Plane (surrogate pairs) is not modelled, since `atob` only yields codes below 256.
- `WavEncoding.PcmToWavBlob` returns the bytes of the blob. The `Blob` object, its MIME type, object URLs, the `Audio` element and the talking animation are browser I/O.
- The welcome-audio fetch, the typing indicator and the inactivity timer of the start form are browser I/O.
- `Tooltip.PositionTooltip` uses exact reals in place of IEEE doubles. Rounding is not modelled.
- The canvas particle animation, the media recorder, VLibras and MathJax are browser I/O.
- `create_audio.py` is a network batch script and `convert_images.py` an image-file wrapper. Neither is part of this model.
