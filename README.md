# Patient-call bot: turn state machine and patient prompt

This project is a Dafny model of the core of a small telephony bot. The bot
places a phone call to a medical office and plays a synthetic patient. Two
parts are modelled:

- **The `/voice` webhook** (`server.py`). The telephony provider calls this
  webhook at each step of a call. A process-wide table `CALL_STATE` maps each
  call id to a record `{turn, lines}`. A call id not yet in the table counts
  as turn 0. While the turn is below `MAX_TURNS` (3), the callback advances
  the turn and stores the record. It then answers with three verbs: say a
  fixed line, record the agent silently (20 s, no beep, trimmed silence,
  status callback `/recording`), and redirect back to `/voice`. From
  `MAX_TURNS` on, it says goodbye and hangs up, and the table stays as it is.
  The `/recording` webhook derives two names: the download URL and the
  local file path. The audio is downloaded from the recording URL with
  `.wav` appended, and it is written to `recordings/<call id>.wav`.
- **The patient's next line** (`llm_patient.py`, `generate_patient_utterance`).
  The last 20 history lines are joined with newlines. The result goes into a
  fixed prompt template after the scenario. The prompt is sent to a
  chat-completion service with a fixed system prompt. The reply is stripped
  of surrounding whitespace.

Files:

- `server.dfy`, module `Server`. `VoiceStep` is the `/voice` decision as a
  function of the table. `Replay` folds it over a sequence of callbacks, and
  lemmas state the properties of both. The class `CallStateStore` holds the
  table as a `map` field. Its method `Voice` updates that field in place the
  way the handler does, and is proved equal to `VoiceStep`. The `/recording`
  file names are modelled as pure functions.
- `llm_patient.dfy`, module `LlmPatient`. It models the history window, the
  history text, the user prompt and the utterance. The chat service is a
  function parameter.
- `py_text.dfy`, module `PyText`. It models the Python operations the prompt
  code relies on: `str.isspace`, `str.strip`, `"\n".join` and the slice
  `s[-20:]`. It also models `str.split`, which the code does not call. It
  is used to show that the history join can be undone.
- `wrappers.dfy`, module `Wrappers`: `Option` and `Result`.

A missing `CallSid` form field is `None` in Python and is still used as a
key, so a call id is modelled as `Option<string>`. Inside the f-string
`f"recordings/{call_sid}.wav"`, `None` prints as `None`. A missing
`RecordingUrl` makes `recording_url + ".wav"` raise, which is modelled as
the `MissingRecordingUrl` error.

`server.py` keeps no transcript, `saved` flag or greeting state. It has no
duplicate-recording or call-status handling and never removes an entry. It
speaks a fixed line on every turn, never calls `generate_patient_utterance`
and never changes `lines`. The model follows the code.

## Model

| member | source | states |
|---|---|---|
| `Server.Lookup` | server.py:24 | The record used is the stored one when the call id is in the table, and turn 0 with no lines otherwise. |
| `Server.GoodbyeResponse` | server.py:30-31 | The goodbye answer speaks "Thanks for your help. Goodbye." first and ends the call. It neither records nor redirects. |
| `Server.ContinueResponse` | server.py:39-47 | The continue answer speaks the bot line first and does not end the call. It records with status reported to `/recording`, and its last instruction redirects to `/voice` by POST. |
| `Server.VoiceStep` | server.py:24-47 | One callback ends the call exactly when the call's turn has reached `MAX_TURNS`. It never changes the call's lines. |
| `Server.CallStateStore.constructor` | server.py:14 | The call table starts empty, so the turn bound holds from the start. |
| `Server.CallStateStore.Voice` | server.py:19-49 | The new table and the response equal those of `VoiceStep`, and the turn bound is kept. At or past `MAX_TURNS` the table is unchanged and the response is say-goodbye then hang up. Below it, exactly the call's entry is replaced by its record with turn + 1, and the response is say, record, redirect. |
| `Server.UnseenCallIsFresh` | server.py:24 | A call id missing from the table is handled exactly as if it were stored with turn 0 and no lines: it gets the continue response and is stored as turn 1 with empty lines. |
| `Server.GoodbyeLeavesTableAlone` | server.py:29-32 | When the looked-up turn is at least `MAX_TURNS`, the response is `Say("Thanks for your help. Goodbye.")` then `Hangup`, and the table is unchanged. The entry is not removed. |
| `Server.ContinueAdvancesTurn` | server.py:35-47 | When the looked-up turn is below `MAX_TURNS`, the call's stored turn becomes exactly the old turn + 1 with the same lines. The response is the fixed bot line, a 20-second beep-less trimmed recording reporting to `/recording`, and a POST redirect to `/voice`. |
| `Server.VoiceStepFrame` | server.py:24-37 | A callback changes only its own call's entry. Every other entry stays equal, no key is removed, the only key that can appear is the caller's, and no entry's lines change. |
| `Server.VoiceStepPreservesBound` | server.py:15-37 | If every stored turn lies in 0..`MAX_TURNS` (3) before a callback, it still does after. |
| `Server.TurnAfterReplay` | server.py:24-37 | After any sequence of callbacks, a call's turn is its starting turn plus the number of callbacks for that call, capped at `MAX_TURNS`. Callbacks for other calls have no effect on it, and the bound is kept throughout. |
| `Server.ResponseAt` | server.py:29-47 | In any interleaving of callbacks, the i-th response is continue exactly when the call's starting turn plus its number of earlier callbacks is below `MAX_TURNS`. Otherwise it is goodbye. |
| `Server.CallSchedule` | server.py:24-47 | Starting from an empty table, each call's first `MAX_TURNS` callbacks continue and every later one says goodbye, whatever other calls are interleaved. |
| `Server.SingleCallSchedule` | server.py:24-47 | Starting from an empty table with callbacks for one call id only, callback n continues exactly when n < `MAX_TURNS` and says goodbye afterwards. |
| `Server.AudioUrl` | server.py:57 | The download URL is the recording URL followed by `.wav`. Both parts can be cut back out by position. |
| `Server.RecordingFilePath` | server.py:64-65 | The file path is `recordings/`, then the call id as the f-string prints it (`None` when missing), then `.wav`. |
| `Server.RecordingTargets` | server.py:55-65 | Deriving the download URL and the file path fails exactly when the recording URL is missing. Otherwise it gives the download URL and the file path above. |
| `Server.FormText` | server.py:65 | A present field prints as its text. The output is `None` exactly when the field is missing or is the text "None". |
| `Server.RecordingFilePathInjective` | server.py:65 | Distinct present call ids give distinct path strings. |
| `Server.MissingCallSidSharesPath` | server.py:54-65 | A missing call id and the call id "None" both give `recordings/None.wav`. |
| `Server.RecordingsOfOneCallShareAPath` | server.py:65 | The file path ignores the recording URL, so every recording of one call goes to the same file. |
| `LlmPatient.HistoryWindow` | llm_patient.py:10 | The window is the list's suffix of length min(len, 20), in original order. With 20 lines or fewer it is the whole list. |
| `LlmPatient.History` | llm_patient.py:10 | No history gives the empty text. Otherwise the text ends with the most recent line. |
| `LlmPatient.HistoryRoundTrip` | llm_patient.py:10 | For a non-empty list whose window lines hold no newline, splitting the history text at newlines gives back the window. Older lines do not matter. |
| `LlmPatient.EmptyHistoryLikeOneEmptyLine` | llm_patient.py:10-16 | No history and a history of one empty line give the same history text `""`, and so the same prompt. |
| `LlmPatient.UserPrompt` | llm_patient.py:11-16 | The prompt starts with `Scenario: ` and the scenario. Next comes a blank line, `Conversation so far:` and a newline, then the history text. It ends with a blank line and the fixed instruction. The length is the sum of the parts. |
| `LlmPatient.PromptDeterminesHistory` | llm_patient.py:11-16 | For one scenario, equal prompts imply equal histories: the template loses nothing of the history. |
| `LlmPatient.GeneratePatientUtterance` | llm_patient.py:6-26 | It fails exactly when the service's reply to (system prompt, user prompt) has no first choice or no content. Otherwise the utterance is the stripped reply. |
| `LlmPatient.UtteranceIsTrimmed` | llm_patient.py:26 | A produced utterance has no whitespace at either end, and stripping it again changes nothing. It is the reply with only whitespace cut from its two ends. |
| `PyText.IsSpace` | llm_patient.py:26 | Within ASCII, a character is whitespace exactly when it is space, tab, line feed, vertical tab, form feed, carriage return or U+001C..U+001F. |
| `PyText.SliceFrom` | llm_patient.py:10 | The slice is always a suffix. For a negative start it holds the last -start elements, or all of them if there are fewer. Otherwise it holds everything from the start position on. |
| `PyText.Join` | llm_patient.py:10 | No parts join to `""`. Otherwise the result begins with the first part and ends with the last. With two or more parts, a separator follows the first part. |
| `PyText.TrimStart` | llm_patient.py:26 | Removes exactly the longest whitespace prefix. The result is a suffix, everything removed is whitespace, and the result does not start with whitespace. |
| `PyText.TrimEnd` | llm_patient.py:26 | Removes exactly the longest whitespace suffix. The result is a prefix, everything removed is whitespace, and the result does not end with whitespace. |
| `PyText.Strip` | llm_patient.py:26 | The result is a contiguous slice of the input with only whitespace before and after it, and it has no whitespace at either end. |
| `PyText.StripTrimmed` | llm_patient.py:26 | A string with no whitespace at its ends is left unchanged by stripping. |
| `PyText.StripIdempotent` | llm_patient.py:26 | Stripping twice is the same as stripping once. |
| `PyText.StripAllSpace` | llm_patient.py:26 | A string made only of whitespace strips to the empty string. |
| `PyText.SplitJoin` | llm_patient.py:10 | Splitting a newline join at newlines gives back the parts when there is at least one part and no part holds a newline. |

## Left out

- The HTTP download of the recording and the file write (server.py:59-70): network and disk I/O. Only the URL and path strings are modelled.
- Request-form parsing, the async handlers and the TwiML rendering (`str(vr)`): framework plumbing. The call id is a parameter, and a response is a sequence of `Verb` values.
- Loading `.env` and reading environment variables (server.py:10, server.py:16-17, llm_patient.py:8, llm_patient.py:19): configuration, not logic.
- The chat-completion request itself (llm_patient.py:18-25): a foreign, nondeterministic service. The model name and `temperature=0.7` are not modelled. The service is the parameter `chat`, a function from (system prompt, user prompt) to the first choice's content. `None` stands for both ways the source can fail to produce text: no first choice (`IndexError` at `resp.choices[0]`) and a first choice with no content (`AttributeError` on `.strip()`). Other exceptions raised by the client are not modelled.
- Unicode data: `PyText.IsSpace` covers the characters for which Python's `str.isspace()` is true, as a fixed list. No Unicode database is consulted.
- test_call.py: a one-shot script that places the outbound call through the provider's client. It has no logic of its own.
- Concurrent callbacks: the source uses a plain dictionary without locking. Callbacks are modelled as sequential calls of `Voice`.
- Aliasing: the Python handler mutates the stored dict object through an alias (`state["turn"] = ...`) before storing it back. The model updates a record value and stores it. The result is the same because callbacks are sequential.
