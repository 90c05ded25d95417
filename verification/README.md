# Voice AI assistant: session and dialogue core

This project models the session/dialogue core of a Streamlit voice-chat app in Dafny. The app keeps three things in its session store:
- the message log (`messages`);
- the personality that log belongs to (`current_personality`);
- a text-to-speech audio cache keyed by message position (`tts_audio`).

Input arrives as typed text or as a transcribed recording. A transcript first goes through a voice-command classifier. The classifier recognises clear-history, switch-personality and help phrases by case-insensitive substring matching, and the first match wins. Text that is not a command becomes a chat turn:
1. The prompt is logged.
2. The language model is sent the personality's priming pair followed by the earlier log.
3. Exactly one assistant entry is logged: the reply, or `"Error: "` plus the exception text.

Assistant entries are voiced through a memo cache that never stores a failure.

The model is pure functions over immutable values:

- `Text`: ASCII `lower()`, `strip()` and Python's substring test, with a positional reference definition of "occurs in" and proofs that stripping never hides a trimmed phrase.
- `Catalog`: the four personalities. Their keys are in dictionary order (AI Buddy, Chat Buddy, Gaming Pro, Study Buddy). Each column of the dictionary literal is a lookup by key, and `PERSONALITIES[name]` looks up an entry.
- `Languages`: the speech-recognition language table and its `get(..., "en-US")` lookup.
- `Commands`: the classifier, `Executed(effect) | Info(text) | NoCommand`.
- `Session`: the `State` record, the voice command as a state transition, the personality reconciliation done at the top of every run, and the clear effect.
- `Dialogue`: history assembly and the chat turn. The language model is an abstract function `Llm` that returns text or an error string.
- `TtsCache`: the `generate_tts_audio` memo and the per-message display pass, which runs only while the auto-play toggle is on. The synthesizer is an abstract function of the message position and text that may return `None`.
- `Controller`: one script run as one transition (`Run`), and the invariants that hold across runs.
- `Scenarios`: concrete transcripts and what the classifier makes of them.

Some behaviour of the code differs from what the app's own text suggests, and the model follows the code:

- **The audio cache is never invalidated.** Neither the clear button, nor a voice clear or switch, nor a selector change touches `tts_audio`. An index that was voiced before a clear keeps serving its old audio to whatever message later sits at that index (`Controller.CachedAudioOutlivesRun`).
- **A voice switch does not last.** The sidebar (lines 151-154) and the help reply (lines 255-258) advertise 'Change personality to [name]' as switching the AI personality. The switch sets `current_personality` and calls `st.rerun()`. The rerun compares the stored personality with the selector widget, which the command never changed, so it resets the personality and empties the log again. The only lasting effect of a voice switch is the emptied log, exactly as for a voice clear (`Controller.VoiceSwitchActsAsClear`).
- **An unknown personality name yields a reply, not a switch.** It yields an informational reply listing the valid names. That reply, and the help text, are appended to the log as assistant entries.
- **A model error still answers the prompt.** A chat turn that completes always ends with one assistant entry: the reply, or `"Error: "` plus the exception text (lines 408-417). A run that Streamlit stops part-way through can leave the prompt unanswered; see "Left out".
- **Roles are not preserved in the history.** Log entries are sent with `assistant` mapped to the model role `model`.
- **Messages carry no stored index.** Their position in the log is the cache key.

## Model

| member | source | states |
|---|---|---|
| Text.Lower | app.py:230 | `lower()` keeps the length and lower-cases each ASCII letter in place; the result has no upper-case letter |
| Text.ContainsIffOccurs | app.py:233 | the left-to-right scan used for `phrase in text` holds exactly when the phrase occurs at some position (both directions) |
| Text.Strip | app.py:230 | `strip()` returns a slice of its input with only whitespace before and after it, and the slice has no whitespace at either end |
| Text.StripKeepsOccurrences | app.py:230 | a needle with non-space ends occurs in `s.strip()` exactly when it occurs in `s` |
| Text.ContainsAny | app.py:233 | the chained `or` of substring tests is true exactly when some listed phrase occurs |
| Catalog.Config | app.py:19-44 | looking up a key the selector offers gives the entry whose `"name"` field is that same key |
| Catalog.NameIsKey | app.py:20-39 | the separate `"name"` literal of every entry repeats the entry's dictionary key |
| Catalog.NamesDistinct | app.py:19-44 | no two catalog keys are equal |
| Catalog.NamesTrimmed | app.py:19-44 | every key is non-empty with no whitespace at either end |
| Languages.CodeFor | app.py:311 | a known language gets its table code, an unknown one gets English's code, and the result is always a code from the table |
| Commands.Normalize | app.py:230 | `text.lower().strip()` is the lower-cased text with exactly its edge whitespace removed: a slice of it with only whitespace around it, no whitespace at either end and no upper-case letter |
| Commands.NormalizeIdempotent | app.py:230 | normalizing normalized text changes nothing |
| Commands.FirstMentioned | app.py:241-242 | the catalog scan returns the first position, in catalog order, whose lower-cased name occurs; it returns nothing exactly when no name occurs |
| Commands.ClassifyNormalized | app.py:233-261 | a switch always targets one of the catalog names; an informational reply is either the help text or the not-found list |
| Commands.ClassificationRules | app.py:233-261 | clear if and only if a clear phrase occurs; a switch if and only if there is no clear phrase, a switch phrase occurs and some name occurs, and the target is the first such name in catalog order; the not-found list if a switch phrase names nothing; help if only a help phrase occurs; otherwise no command |
| Commands.Classify | app.py:228-261 | the verdict on a transcript equals the verdict on its merely lower-cased form: surrounding whitespace never changes it |
| Commands.StripNeverChangesDecision | app.py:230 | with trimmed names, stripping lower-cased text never changes the classification |
| Commands.StripIgnoredByCatalog | app.py:230 | over the built-in catalog, stripping lower-cased text never changes the classification |
| Commands.ClassifyDependsOnNormalForm | app.py:230 | a transcript and its `lower().strip()` form are classified the same |
| Commands.NotFoundTextOfCatalog | app.py:249-251 | the not-found reply is the fixed prefix followed by `AI Buddy, Chat Buddy, Gaming Pro, Study Buddy` |
| Session.Init | app.py:162-175 | a new session has an empty log, an empty cache and the selector's personality |
| Session.ApplyEffect | app.py:233-247 | clear and switch both empty the log and keep the audio cache; clear keeps the personality, and switch adopts the target |
| Session.Reconcile | app.py:185-188 | afterwards the personality equals the selector value; the log is emptied when they differed, and the state is untouched when they agreed; the cache is always kept |
| Session.ReconcileIdempotent | app.py:185-188 | reconciling twice with the same selector value equals reconciling once |
| Session.ProcessVoiceCommand | app.py:228-261 | the outcome carries the classifier's verdict; an executed clear or switch changes exactly the log (and the personality for a switch); every other verdict leaves the state unchanged; the cache is never touched |
| Session.VoiceClearWins | app.py:233-237 | a clear phrase in the normalized text empties the log whatever other phrases occur |
| Session.VoiceSwitchPicksFirstName | app.py:240-247 | without a clear phrase, a switch phrase selects the first catalog name occurring in the text, sets it as personality and empties the log |
| Session.VoiceSwitchUnknownName | app.py:249-251 | a switch phrase naming no catalog entry yields exactly the listed-options reply with the state unchanged |
| Session.VoiceHelpOrChat | app.py:253-261 | with no clear or switch phrase the state is unchanged, and the reply is the help text exactly when a help phrase occurs |
| Dialogue.AsTurn | app.py:399 | a log entry becomes a turn with the same text, and it is a user turn exactly when the entry's role is user |
| Dialogue.Replay | app.py:398-400 | the history turns match the log entries one for one, in log order |
| Dialogue.Unreplay | app.py:398-400 | reading turns back gives one log entry per turn, in order |
| Dialogue.UnreplayInvertsReplay | app.py:398-400 | replaying loses nothing: reading the turns back restores the log |
| Dialogue.ChatHistory | app.py:392-400 | the history has `2 + len(messages[:-1])` turns: the system prompt as user, the fixed acknowledgement as model, then entry k at position k+2 with its content and the user role exactly for user entries |
| Dialogue.HistoryRecoversEarlierLog | app.py:392-400 | after the priming pair the history holds exactly `messages[:-1]` |
| Dialogue.HistoryExcludesPendingPrompt | app.py:376-406 | once the prompt is appended, the history is the priming pair plus the entire earlier log; the prompt is sent separately as the live message |
| Dialogue.PromptTurn | app.py:376-417 | the log grows by exactly two; earlier entries are unchanged; the user prompt comes first, then one assistant entry holding the model's reply or `"Error: "` plus the error; personality and cache are unchanged |
| Dialogue.ExampleRequest | app.py:392-406 | the log `hi`/`hello` plus the new prompt `bye` gives the history: priming pair, `user: hi`, `model: hello` |
| TtsCache.GetOrSynthesize | app.py:197-225 | existing entries are never replaced; only the requested index can be added; audio is returned exactly when the index ends up cached, and the returned audio is the cached one; a miss returns the result of the request for that index and text |
| TtsCache.HitIgnoresSynthesizer | app.py:200-201 | on a cached index the result is the stored audio, the cache is unchanged, and the synthesizer does not influence the result |
| TtsCache.SecondCallIsHit | app.py:200-221 | after a call that produced audio, any later call at that index returns the same audio and cache, whatever the text and synthesizer |
| TtsCache.FailureIsRetried | app.py:219-225 | a failed synthesis leaves the cache unchanged, so a later successful synthesis at that index is cached |
| TtsCache.CacheAfter | app.py:346-351 | visiting the log from a position on keeps every cached entry; it adds only positions of assistant entries from there on whose request succeeded, storing that audio; each such assistant position ends up cached exactly when it was cached or its request succeeds |
| TtsCache.Render | app.py:346-360 | the display pass with auto-play on keeps the log and personality, keeps every cached entry, adds only assistant positions whose request succeeded, and leaves each assistant position cached exactly when it was cached before or its request succeeds |
| TtsCache.Display | app.py:346-351 | the display pass voices assistant entries as above when the auto-play toggle is on, and changes nothing when it is off |
| TtsCache.RenderAudio | app.py:346-360 | the loop over the log computes the same state as the display pass with auto-play on, and shows under each assistant entry the audio cached at its position, and nothing under other entries |
| Controller.Respond | app.py:369-417 | an empty prompt changes nothing; a non-empty one appends the user entry and then the assistant entry holding the reply to the priming pair of the selected personality plus the log so far, or the error text; personality and cache are kept |
| Controller.Quiet | app.py:185-360 | a run without input, or the rerun after a clear, ends with the selector's personality and the reconciled log; the cache keeps its entries and only gains voiced assistant entries; with auto-play on, each assistant entry of the log ends up cached exactly when it was cached before or its speech request succeeds; with it off the cache is unchanged |
| Controller.HandleTranscript | app.py:284-417 | an executed command leaves an empty log and the cache unchanged; an informational reply is appended to the log as an assistant entry, and the cache is exactly the one the display pass of the earlier log produces; anything else is the chat turn run after the display pass; the cache only gains voiced entries of the log shown |
| Controller.Run | app.py:157-417 | after any run the personality equals the selector value; the cache keeps every entry it had, and each entry it gains is the successful speech of an assistant entry at that position; with auto-play off the cache is unchanged |
| Controller.AppendReplyKeepsAnswered | app.py:363-366 | logging a command reply as an assistant entry keeps every user entry answered |
| Controller.PromptTurnKeepsAnswered | app.py:376-417 | a chat turn keeps every user entry immediately followed by an assistant entry |
| Controller.RunKeepsAnswered | app.py:319-417 | no run leaves a user entry without the assistant entry right after it |
| Controller.RunAppendsOrClears | app.py:157-417 | with an unchanged selector a run either empties the log or extends it by at most two entries; after a selector change the log has at most two entries |
| Controller.TypedTextIsAlwaysChat | app.py:369-378 | typed text skips the classifier: non-empty typed text always appends the user entry and one assistant entry, even when it holds a command phrase |
| Controller.VoiceInfoIsLogged | app.py:325-366 | an informational command reply is appended to the log as an assistant entry |
| Controller.RerunUndoesSwitch | app.py:185-188 | the rerun after an executed command, with the selector unchanged, leaves only the emptied log |
| Controller.ExecutedCommandReruns | app.py:319-324 | an executed voice command's run is its effect followed by the rerun's reconciliation |
| Controller.VoiceSwitchActsAsClear | app.py:240-247 | with the selector unchanged, any executed voice command, switch included, ends with the personality unchanged and the log empty |
| Controller.CachedAudioOutlivesRun | app.py:197-201 | an index cached before any run still serves its old audio after it, whatever message now sits there |
| Controller.QuietRunVoicesLog | app.py:346-360 | with auto-play on and the selector unchanged, a run without input keeps the log and leaves each assistant entry cached exactly when it was cached before or its speech request succeeds |
| Controller.InputRunVoicesShownLog | app.py:319-417 | with auto-play on, a run handling typed text or a transcript that is not an executed command keeps the reconciled log as a prefix and leaves each of its assistant entries cached exactly when it was cached before or its speech request succeeds |
| Controller.QuietRunCachesReply | app.py:346-360 | a one-entry log `hello` with an empty cache and a working speech service ends the run with exactly that entry's audio cached |
| Controller.ReplyVoicedOnlyLater | app.py:346-417 | a chat turn's reply is not voiced in the run that produced it, because the display pass runs before the turn |
| Scenarios.ClearChatPlease | app.py:233 | "Clear chat please" is the clear command |
| Scenarios.ChatMessageTakenAsClear | app.py:233 | "Please help me clear history of WW2" is taken as clear, ahead of its help phrase |
| Scenarios.SwitchToGamingPro | app.py:240-247 | "switch to Gaming Pro" selects Gaming Pro |
| Scenarios.SwitchToUnknownBot | app.py:249-251 | "switch to Unknown Bot" yields the list of valid names |
| Scenarios.CatalogOrderWins | app.py:241-242 | "switch to study buddy or ai buddy" selects AI Buddy: catalog order decides, not the order of speech |

## Left out

- Streamlit widgets, page layout, titles, markdown, spinners and status placeholders: presentation only. `st.rerun()` is modelled as the reconciliation step that starts the next run.
- Audio capture and the speech-recognition call, including its `UnknownValueError` and `RequestError` handling. A recording enters the model as its transcript, in a `Voice` event. A failed transcription reaches the model as `NoInput`: the run still goes on to the display pass, which may cache audio.
- The Gemini model object, `start_chat` and `send_message`, API key and `.env` loading. They are the abstract `Llm` function. The text of an exception is its error string.
- gTTS, the temporary file, and its read and unlink. They are the abstract `Synthesizer`, which takes the message position as well as its text. So within one display pass each request may succeed or fail on its own, even for two entries with the same text.
- Autoplay of the newest clip, the audio-failed warning and the unused `tts_processing` and `last_played_idx` flags: display only. The `auto_play_tts` toggle is the `autoPlay` argument of a run.
- The `last_audio` check (lines 286-287) decides whether a recording is processed at all. The model has no audio bytes: a recording that was already processed reaches it as `NoInput`, and a new recording as one `Voice` event.
- The mirroring of the language selector into `selected_language` (lines 120-124) is UI state. `Languages.CodeFor` models the lookup it feeds.
- Unicode case folding and non-ASCII whitespace. `lower()` and `strip()` are modelled on ASCII only. All phrases and catalog names are ASCII.
- A typed message and a voice command in the same run. `Run` handles one input per run, as the widgets deliver them.
- Python's `str(e)` formatting and the `True` that `process_voice_command` returns after a rerun: the rerun raises before it returns, so `True` is never observed.
- Concurrency: every run is modelled as one complete, uninterrupted step.
- Controller.RunKeepsAnswered: holds for runs that complete. Streamlit stops a run at its next `st.*` call when the user touches a widget, and it does so with an exception that `except Exception` at line 414 does not catch. A run stopped between the user entry at line 378 and the reply at line 412 leaves an unanswered user entry, which the model does not represent.
