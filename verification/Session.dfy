/** The session store the dialogue core keeps between script runs: the message
    log, the personality the log belongs to, and the speech-audio cache. */
module Session {
  import opened Commands
  import Text
  import Catalog

  /** The two roles a log entry is ever written with. */
  datatype Role = User | Assistant

  datatype Message = Message(role: Role, content: string)

  newtype byte = b: int | 0 <= b < 256

  /** Synthesized speech, as the bytes of an MP3 file. */
  type Audio = seq<byte>

  /** `st.session_state` restricted to the core: `messages`,
      `current_personality` and `tts_audio` (message index to audio). */
  datatype State = State(
    messages: seq<Message>,
    currentPersonality: string,
    ttsAudio: map<int, Audio>)

  /** The first run's initialisation: empty log and cache, personality taken
      from the selector. */
  function Init(selected: string): (s: State)
    ensures s.messages == [] && s.ttsAudio == map[]
    ensures s.currentPersonality == selected
  {
    State([], selected, map[])
  }

  /** Applies a command's effect. Both effects empty the log; neither touches
      the audio cache. Also the "Clear Chat History" button's handler. */
  function ApplyEffect(s: State, e: Effect): (r: State)
    ensures r.messages == []
    ensures r.ttsAudio == s.ttsAudio
    ensures e.ClearChat? ==> r.currentPersonality == s.currentPersonality
    ensures e.SwitchTo? ==> r.currentPersonality == e.name
  {
    match e
    case ClearChat => s.(messages := [])
    case SwitchTo(name) => s.(messages := [], currentPersonality := name)
  }

  /** The reset at the top of every run: when the selector's value differs
      from the stored personality, the log is emptied and the selector's value
      adopted. */
  function Reconcile(s: State, selected: string): (r: State)
    ensures r.currentPersonality == selected
    ensures r.ttsAudio == s.ttsAudio
    ensures s.currentPersonality != selected ==> r.messages == []
    ensures s.currentPersonality == selected ==> r == s
  {
    if s.currentPersonality != selected then
      s.(messages := [], currentPersonality := selected)
    else s
  }

  /** Reconciling twice with the same selector value is reconciling once. */
  lemma ReconcileIdempotent(s: State, selected: string)
    ensures Reconcile(Reconcile(s, selected), selected) == Reconcile(s, selected)
  {
  }

  /** The result of handling a transcript: what the classifier decided, and the
      state right after (before the rerun an executed command triggers). */
  datatype Outcome = Outcome(result: CommandResult, state: State)

  /** `process_voice_command(text)` as a transition on the session store. */
  function ProcessVoiceCommand(s: State, text: string): (o: Outcome)
    ensures o.result == Classify(text)
    ensures o.state.ttsAudio == s.ttsAudio
    ensures o.result == Executed(ClearChat) ==>
      o.state == s.(messages := [])
    ensures o.result.Executed? && o.result.effect.SwitchTo? ==>
      o.state == s.(messages := [], currentPersonality := o.result.effect.name)
    ensures !o.result.Executed? ==> o.state == s
  {
    var r := Classify(text);
    match r
    case Executed(e) => Outcome(r, ApplyEffect(s, e))
    case _ => Outcome(r, s)
  }

  /** A clear phrase anywhere in the normalized text wins over every other
      phrase: the log is emptied and nothing else changes. */
  lemma VoiceClearWins(s: State, text: string)
    requires Text.MentionsAny(Normalize(text), ClearPhrases)
    ensures ProcessVoiceCommand(s, text) == Outcome(Executed(ClearChat), s.(messages := []))
  {
  }

  /** Without a clear phrase, a switch phrase selects the first catalog name,
      in catalog order, whose lower-case form occurs in the text; the
      personality becomes that name and the log is emptied. */
  lemma VoiceSwitchPicksFirstName(s: State, text: string, k: nat)
    requires !Text.MentionsAny(Normalize(text), ClearPhrases)
    requires Text.MentionsAny(Normalize(text), SwitchPhrases)
    requires k < |Catalog.Names()| && Text.Contains(Normalize(text), Text.Lower(Catalog.Names()[k]))
    requires forall j :: 0 <= j < k ==> !Text.Contains(Normalize(text), Text.Lower(Catalog.Names()[j]))
    ensures ProcessVoiceCommand(s, text) ==
      Outcome(Executed(SwitchTo(Catalog.Names()[k])),
              s.(messages := [], currentPersonality := Catalog.Names()[k]))
  {
    var t := Normalize(text);
    var r := FirstMentioned(Catalog.Names(), t);
    assert r.Some?;
    assert r.value == k;
  }

  /** Without a clear phrase, a switch phrase that names no catalog entry
      yields the list of valid names and leaves the state unchanged. */
  lemma VoiceSwitchUnknownName(s: State, text: string)
    requires !Text.MentionsAny(Normalize(text), ClearPhrases)
    requires Text.MentionsAny(Normalize(text), SwitchPhrases)
    requires forall j :: 0 <= j < |Catalog.Names()| ==> !Text.Contains(Normalize(text), Text.Lower(Catalog.Names()[j]))
    ensures ProcessVoiceCommand(s, text) == Outcome(
      Info(NotFoundPrefix + "AI Buddy, Chat Buddy, Gaming Pro, Study Buddy"), s)
  {
    NotFoundTextOfCatalog();
  }

  /** Without a clear or switch phrase the state is unchanged; the reply is the
      help text exactly when a help phrase occurs, and otherwise the text is
      not a command. */
  lemma VoiceHelpOrChat(s: State, text: string)
    requires !Text.MentionsAny(Normalize(text), ClearPhrases)
    requires !Text.MentionsAny(Normalize(text), SwitchPhrases)
    ensures ProcessVoiceCommand(s, text).state == s
    ensures ProcessVoiceCommand(s, text).result ==
      if Text.MentionsAny(Normalize(text), HelpPhrases) then Info(HelpText) else NoCommand
  {
  }
}
