/** One script run as a transition of the session store. Every run starts by
    reconciling the stored personality with the selector; then at most one
    input is handled: the clear button, a transcribed recording, or typed text.
    The display pass, which voices assistant entries while auto-play is on,
    comes after the voice command and before a command reply or chat turn is
    logged. An executed voice command or the clear button triggers a rerun,
    which reconciles again and shows the emptied log. */
module Controller {
  import opened Wrappers
  import opened Commands
  import opened Session
  import opened Dialogue
  import TtsCache
  import Catalog

  /** The input a run handles. */
  datatype Event =
    | NoInput
    | ClearButton
    | Voice(transcript: string)
    | Typed(text: string)

  /** `if prompt:` — a non-empty prompt is logged as a user entry and
      answered under the selected personality's system prompt, the model being
      sent the priming pair and the log so far; an empty prompt does nothing. */
  function Respond(s: State, selected: string, prompt: string, llm: Llm): (r: State)
    requires selected in Catalog.Names()
    ensures prompt == [] ==> r == s
    ensures prompt != [] ==>
      && |r.messages| == |s.messages| + 2
      && r.messages[..|s.messages|] == s.messages
      && r.messages[|s.messages|] == Message(User, prompt)
      && r.messages[|s.messages| + 1]
         == Message(Assistant, ReplyText(llm(Priming(Catalog.SystemPrompt(selected)) + Replay(s.messages), prompt)))
    ensures r.currentPersonality == s.currentPersonality && r.ttsAudio == s.ttsAudio
  {
    if prompt == [] then s else PromptTurn(s, Catalog.Config(selected).systemPrompt, prompt, llm)
  }

  /** A run without input, and the rerun that follows the clear button or an
      executed command: reconciliation, then the display pass. */
  function Quiet(s: State, selected: string, autoPlay: bool, synth: TtsCache.Synthesizer): (r: State)
    ensures r.currentPersonality == selected
    ensures r.messages == Reconcile(s, selected).messages
    ensures TtsCache.GrowsByVoicing(s.ttsAudio, r.ttsAudio, r.messages, synth)
    ensures autoPlay ==> forall i :: 0 <= i < |r.messages| && r.messages[i].role == Assistant ==>
      (i in r.ttsAudio <==> i in s.ttsAudio || synth(i, r.messages[i].content).Some?)
    ensures !autoPlay ==> r.ttsAudio == s.ttsAudio
  {
    TtsCache.Display(Reconcile(s, selected), autoPlay, synth)
  }

  /** A transcript's handling in a run whose store already agrees with the
      selector. An executed command applies its effect and reruns, leaving an
      empty log; an informational reply is appended as an assistant entry
      after the display pass; anything else, after the display pass, is the
      prompt of a chat turn. */
  function HandleTranscript(s: State, selected: string, transcript: string, llm: Llm,
                            autoPlay: bool, synth: TtsCache.Synthesizer): (r: State)
    requires selected in Catalog.Names() && s.currentPersonality == selected
    ensures r.currentPersonality == selected
    ensures Classify(transcript).Executed? ==> r.messages == [] && r.ttsAudio == s.ttsAudio
    ensures Classify(transcript).Info? ==>
      r.messages == s.messages + [Message(Assistant, Classify(transcript).text)]
    ensures Classify(transcript).Info? ==> r.ttsAudio == TtsCache.Display(s, autoPlay, synth).ttsAudio
    ensures Classify(transcript).NoCommand? ==> r == Respond(TtsCache.Display(s, autoPlay, synth), selected, transcript, llm)
    ensures TtsCache.GrowsByVoicing(s.ttsAudio, r.ttsAudio, s.messages, synth)
    ensures !autoPlay ==> r.ttsAudio == s.ttsAudio
  {
    var o := ProcessVoiceCommand(s, transcript);
    match o.result
    case Executed(_) => Quiet(o.state, selected, autoPlay, synth)
    case Info(reply) =>
      var d := TtsCache.Display(o.state, autoPlay, synth);
      d.(messages := d.messages + [Message(Assistant, reply)])
    case NoCommand => Respond(TtsCache.Display(o.state, autoPlay, synth), selected, transcript, llm)
  }

  /** One run with selector value `selected` and auto-play toggle `autoPlay`
      handling `ev`. The stored personality ends equal to the selector; the
      cache keeps every entry it had and gains only the audio of assistant
      entries whose speech request succeeded, and only with auto-play on. */
  function Run(s: State, selected: string, ev: Event, llm: Llm,
               autoPlay: bool, synth: TtsCache.Synthesizer): (r: State)
    requires selected in Catalog.Names()
    ensures r.currentPersonality == selected
    ensures TtsCache.GrowsByVoicing(s.ttsAudio, r.ttsAudio, r.messages, synth)
    ensures !autoPlay ==> r.ttsAudio == s.ttsAudio
  {
    match ev
    case ClearButton => Quiet(ApplyEffect(s, ClearChat), selected, autoPlay, synth)
    case NoInput => Quiet(s, selected, autoPlay, synth)
    case Voice(t) => HandleTranscript(Reconcile(s, selected), selected, t, llm, autoPlay, synth)
    case Typed(t) => Respond(TtsCache.Display(Reconcile(s, selected), autoPlay, synth), selected, t, llm)
  }

  /** Every user entry in the log is immediately followed by an assistant entry. */
  predicate Answered(log: seq<Message>) {
    forall i :: 0 <= i < |log| && log[i].role == User ==> i + 1 < |log| && log[i + 1].role == Assistant
  }

  /** Appending an assistant entry keeps a log answered. */
  lemma AppendReplyKeepsAnswered(log: seq<Message>, reply: string)
    requires Answered(log)
    ensures Answered(log + [Message(Assistant, reply)])
  {
  }

  /** A chat turn keeps a log answered. */
  lemma PromptTurnKeepsAnswered(s: State, systemPrompt: string, prompt: string, llm: Llm)
    requires Answered(s.messages)
    ensures Answered(PromptTurn(s, systemPrompt, prompt, llm).messages)
  {
    var r := PromptTurn(s, systemPrompt, prompt, llm).messages;
    var n := |s.messages|;
    forall i | 0 <= i < |r| && r[i].role == User
      ensures i + 1 < |r| && r[i + 1].role == Assistant
    {
      if i < n {
        assert r[i] == s.messages[i];
        assert r[i + 1] == s.messages[i + 1];
      }
    }
  }

  /** No run leaves a user entry without its answer: a chat turn always ends
      with the reply or the error entry, and a command reply is an assistant
      entry. */
  lemma RunKeepsAnswered(s: State, selected: string, ev: Event, llm: Llm,
                         autoPlay: bool, synth: TtsCache.Synthesizer)
    requires selected in Catalog.Names()
    requires Answered(s.messages)
    ensures Answered(Run(s, selected, ev, llm, autoPlay, synth).messages)
  {
    var s1 := Reconcile(s, selected);
    match ev
    case ClearButton =>
    case NoInput =>
    case Typed(t) =>
      if t != [] {
        PromptTurnKeepsAnswered(TtsCache.Display(s1, autoPlay, synth), Catalog.Config(selected).systemPrompt, t, llm);
      }
    case Voice(t) =>
      var o := ProcessVoiceCommand(s1, t);
      match o.result
      case Executed(_) =>
      case Info(reply) =>
        AppendReplyKeepsAnswered(o.state.messages, reply);
      case NoCommand =>
        if t != [] {
          PromptTurnKeepsAnswered(TtsCache.Display(o.state, autoPlay, synth), Catalog.Config(selected).systemPrompt, t, llm);
        }
  }

  /** While the selector is unchanged the log is append-only until cleared: a
      run either empties it or extends it by at most two entries. After a
      selector change the new log has at most two entries. */
  lemma RunAppendsOrClears(s: State, selected: string, ev: Event, llm: Llm,
                           autoPlay: bool, synth: TtsCache.Synthesizer)
    requires selected in Catalog.Names()
    ensures var r := Run(s, selected, ev, llm, autoPlay, synth).messages;
      s.currentPersonality == selected ==>
        r == [] || (s.messages <= r && |r| <= |s.messages| + 2)
    ensures s.currentPersonality != selected ==> |Run(s, selected, ev, llm, autoPlay, synth).messages| <= 2
  {
  }

  /** Typed text never goes through the command classifier: even text that
      holds a command phrase becomes a chat turn of exactly two entries. */
  lemma TypedTextIsAlwaysChat(s: State, selected: string, text: string, llm: Llm,
                              autoPlay: bool, synth: TtsCache.Synthesizer)
    requires selected in Catalog.Names() && s.currentPersonality == selected
    requires text != []
    ensures var r := Run(s, selected, Typed(text), llm, autoPlay, synth).messages;
      && |r| == |s.messages| + 2
      && r[..|s.messages|] == s.messages
      && r[|s.messages|] == Message(User, text)
      && r[|s.messages| + 1].role == Assistant
  {
  }

  /** A recorded command reply is appended after the log, as an assistant entry. */
  lemma VoiceInfoIsLogged(s: State, selected: string, t: string, llm: Llm,
                          autoPlay: bool, synth: TtsCache.Synthesizer)
    requires selected in Catalog.Names() && s.currentPersonality == selected
    requires Classify(t).Info?
    ensures Run(s, selected, Voice(t), llm, autoPlay, synth).messages
      == s.messages + [Message(Assistant, Classify(t).text)]
  {
    assert Reconcile(s, selected) == s;
  }

  /** The rerun after an executed command reconciles with an unchanged
      selector: whatever the effect, only the emptied log remains. */
  lemma RerunUndoesSwitch(s: State, selected: string, e: Effect)
    requires s.currentPersonality == selected
    ensures Reconcile(ApplyEffect(s, e), selected) == s.(messages := [])
  {
  }

  /** A voice switch does not last: the rerun it triggers reconciles with the
      selector, whose value it never changed, so the personality reverts and
      the only lasting effect is the emptied log, the same as a voice clear. */
  lemma VoiceSwitchActsAsClear(s: State, selected: string, t: string, llm: Llm,
                               autoPlay: bool, synth: TtsCache.Synthesizer)
    requires selected in Catalog.Names() && s.currentPersonality == selected
    requires Classify(t).Executed?
    ensures Run(s, selected, Voice(t), llm, autoPlay, synth) == s.(messages := [])
  {
    var o := ProcessVoiceCommand(s, t);
    ExecutedCommandReruns(s, selected, t, llm, autoPlay, synth);
    RerunUndoesSwitch(s, selected, o.result.effect);
  }

  /** An executed command's effect is followed by the rerun's reconciliation;
      the rerun's display pass has an empty log to show and adds nothing. */
  lemma ExecutedCommandReruns(s: State, selected: string, t: string, llm: Llm,
                              autoPlay: bool, synth: TtsCache.Synthesizer)
    requires selected in Catalog.Names() && s.currentPersonality == selected
    requires ProcessVoiceCommand(s, t).result.Executed?
    ensures Run(s, selected, Voice(t), llm, autoPlay, synth)
      == Reconcile(ApplyEffect(s, ProcessVoiceCommand(s, t).result.effect), selected)
  {
    assert Reconcile(s, selected) == s;
  }

  /** Clears, switches and selector changes keep the audio cache: an index
      cached before a run is served its old audio afterwards, whatever message
      now sits at that index. */
  lemma CachedAudioOutlivesRun(s: State, selected: string, ev: Event, llm: Llm,
                               autoPlay: bool, synth: TtsCache.Synthesizer,
                               index: int, text: string, later: TtsCache.Synthesizer)
    requires selected in Catalog.Names()
    requires index in s.ttsAudio
    ensures TtsCache.GetOrSynthesize(Run(s, selected, ev, llm, autoPlay, synth).ttsAudio, index, text, later).audio
      == Some(s.ttsAudio[index])
  {
  }

  /** With auto-play on, a run without input voices the log it shows: each
      assistant entry ends up cached exactly when it was cached before or its
      speech request succeeds. */
  lemma QuietRunVoicesLog(s: State, selected: string, llm: Llm, synth: TtsCache.Synthesizer)
    requires selected in Catalog.Names() && s.currentPersonality == selected
    ensures var r := Run(s, selected, NoInput, llm, true, synth);
      && r.messages == s.messages
      && forall i :: 0 <= i < |s.messages| && s.messages[i].role == Assistant ==>
           (i in r.ttsAudio <==> i in s.ttsAudio || synth(i, s.messages[i].content).Some?)
  {
    assert Reconcile(s, selected) == s;
  }

  /** With auto-play on, a run that handles typed text or a voice transcript
      that is not an executed command voices the log it shows before the new
      entries: the reconciled log is kept as a prefix, and each of its
      assistant entries ends up cached exactly when it was cached before or
      its speech request succeeds. */
  lemma InputRunVoicesShownLog(s: State, selected: string, ev: Event, llm: Llm, synth: TtsCache.Synthesizer)
    requires selected in Catalog.Names()
    requires ev.Typed? || (ev.Voice? && !Classify(ev.transcript).Executed?)
    ensures var r := Run(s, selected, ev, llm, true, synth);
      var shown := Reconcile(s, selected).messages;
      && shown <= r.messages
      && forall i :: 0 <= i < |shown| && shown[i].role == Assistant ==>
           (i in r.ttsAudio <==> i in s.ttsAudio || synth(i, shown[i].content).Some?)
  {
    var s1 := Reconcile(s, selected);
    var d := TtsCache.Display(s1, true, synth);
    var r := Run(s, selected, ev, llm, true, synth);
    match ev
    case Typed(t) =>
      assert r == Respond(d, selected, t, llm);
    case Voice(t) =>
      assert r == HandleTranscript(s1, selected, t, llm, true, synth);
      if Classify(t).Info? {
        assert r.ttsAudio == d.ttsAudio;
      } else {
        assert r == Respond(d, selected, t, llm);
      }
  }

  /** One uncached assistant entry and a speech service that answers: after a
      quiet run with auto-play on, the cache holds exactly that entry's audio. */
  lemma QuietRunCachesReply(s: State, selected: string, llm: Llm, synth: TtsCache.Synthesizer, audio: Audio)
    requires selected in Catalog.Names() && s.currentPersonality == selected
    requires s.messages == [Message(Assistant, "hello")] && s.ttsAudio == map[]
    requires synth(0, "hello") == Some(audio)
    ensures Run(s, selected, NoInput, llm, true, synth).ttsAudio == map[0 := audio]
  {
    QuietRunVoicesLog(s, selected, llm, synth);
    var r := Run(s, selected, NoInput, llm, true, synth);
    forall i | i in r.ttsAudio
      ensures i == 0 && r.ttsAudio[i] == audio
    {
      assert i !in s.ttsAudio;
    }
  }

  /** The reply of a chat turn is not voiced in the run that produced it: the
      display pass came before the turn, so the reply's position is cached
      afterwards only if it already was. */
  lemma ReplyVoicedOnlyLater(s: State, selected: string, text: string, llm: Llm,
                             autoPlay: bool, synth: TtsCache.Synthesizer)
    requires selected in Catalog.Names() && s.currentPersonality == selected
    requires text != []
    ensures var r := Run(s, selected, Typed(text), llm, autoPlay, synth);
      |s.messages| + 1 in r.ttsAudio <==> |s.messages| + 1 in s.ttsAudio
  {
    assert Reconcile(s, selected) == s;
  }
}
