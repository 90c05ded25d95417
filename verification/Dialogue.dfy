/** A chat turn: the user's prompt is logged, the language model is sent the
    personality's priming pair plus every earlier log entry, and exactly one
    assistant entry (the reply, or the error text) is logged after it. */
module Dialogue {
  import opened Wrappers
  import opened Session

  /** The roles of the language model's history: `"user"` and `"model"`. */
  datatype ModelRole = UserTurn | ModelTurn

  datatype Turn = Turn(role: ModelRole, text: string)

  /** The canned reply that follows the system prompt in the priming pair. */
  const Acknowledgement: string := "I understand. I'll respond according to this personality."

  /** The priming pair: the system prompt as a user turn, then the canned
      acknowledgement as a model turn. */
  function Priming(systemPrompt: string): seq<Turn> {
    [Turn(UserTurn, systemPrompt), Turn(ModelTurn, Acknowledgement)]
  }

  /** A log entry as a history turn: `"user"` stays a user turn, every other
      role becomes a model turn. */
  function AsTurn(m: Message): (t: Turn)
    ensures t.text == m.content
    ensures t.role == UserTurn <==> m.role == User
  {
    Turn(if m.role == User then UserTurn else ModelTurn, m.content)
  }

  /** A history turn read back as a log entry. */
  function AsMessage(t: Turn): Message {
    Message(if t.role == UserTurn then User else Assistant, t.text)
  }

  /** The history turns for a run of log entries, in log order. */
  function Replay(log: seq<Message>): (h: seq<Turn>)
    ensures |h| == |log|
    ensures forall k :: 0 <= k < |log| ==> h[k] == AsTurn(log[k])
  {
    if log == [] then [] else [AsTurn(log[0])] + Replay(log[1..])
  }

  /** The log entries a run of history turns stands for. */
  function Unreplay(h: seq<Turn>): (log: seq<Message>)
    ensures |log| == |h|
    ensures forall k :: 0 <= k < |h| ==> log[k] == AsMessage(h[k])
  {
    if h == [] then [] else [AsMessage(h[0])] + Unreplay(h[1..])
  }

  /** Replaying loses nothing: the log entries can be read back from the turns. */
  lemma UnreplayInvertsReplay(log: seq<Message>)
    ensures Unreplay(Replay(log)) == log
  {
    var back := Unreplay(Replay(log));
    forall k | 0 <= k < |log|
      ensures back[k] == log[k]
    {
      match log[k].role
      case User =>
      case Assistant =>
    }
  }

  /** `messages[:-1]`: every entry but the last (nothing for an empty log). */
  function AllButLast(log: seq<Message>): seq<Message> {
    if log == [] then [] else log[..|log| - 1]
  }

  /** The history handed to the model: the priming pair, then every log entry
      except the last, roles mapped to the model's. */
  function ChatHistory(systemPrompt: string, log: seq<Message>): (h: seq<Turn>)
    ensures |h| == if log == [] then 2 else |log| + 1
    ensures h[0] == Turn(UserTurn, systemPrompt)
    ensures h[1] == Turn(ModelTurn, Acknowledgement)
    ensures forall k :: 0 <= k < |log| - 1 ==>
      h[k + 2].text == log[k].content && (h[k + 2].role == UserTurn <==> log[k].role == User)
  {
    Priming(systemPrompt) + Replay(AllButLast(log))
  }

  /** The history holds the earlier log exactly: reading it back after the
      priming pair gives every entry but the last, in order. */
  lemma HistoryRecoversEarlierLog(systemPrompt: string, log: seq<Message>)
    ensures Unreplay(ChatHistory(systemPrompt, log)[2..]) == AllButLast(log)
  {
    assert ChatHistory(systemPrompt, log)[2..] == Replay(AllButLast(log));
    UnreplayInvertsReplay(AllButLast(log));
  }

  /** Once the prompt has been appended, the history is the priming pair
      followed by the whole log as it stood before the prompt: the pending
      prompt is the one entry left out, and it is sent as the live message. */
  lemma HistoryExcludesPendingPrompt(systemPrompt: string, log: seq<Message>, prompt: string)
    ensures ChatHistory(systemPrompt, log + [Message(User, prompt)]) == Priming(systemPrompt) + Replay(log)
  {
    assert AllButLast(log + [Message(User, prompt)]) == log;
  }

  /** The language model behind `start_chat(history).send_message(prompt)`:
      the reply text, or the text of the exception it raised. */
  type Llm = (seq<Turn>, string) -> Result<string, string>

  /** The assistant entry's content for a model outcome. */
  function ReplyText(reply: Result<string, string>): string {
    match reply
    case Ok(text) => text
    case Err(e) => "Error: " + e
  }

  /** Appends the user's prompt, asks the model, and appends exactly one
      assistant entry: the reply, or `"Error: "` and the error text. */
  function PromptTurn(s: State, systemPrompt: string, prompt: string, llm: Llm): (r: State)
    ensures |r.messages| == |s.messages| + 2
    ensures r.messages[..|s.messages|] == s.messages
    ensures r.messages[|s.messages|] == Message(User, prompt)
    ensures r.messages[|s.messages| + 1].role == Assistant
    ensures var reply := llm(Priming(systemPrompt) + Replay(s.messages), prompt);
      r.messages[|s.messages| + 1].content == if reply.Ok? then reply.value else "Error: " + reply.error
    ensures r.currentPersonality == s.currentPersonality && r.ttsAudio == s.ttsAudio
  {
    var logged := s.messages + [Message(User, prompt)];
    var reply := llm(ChatHistory(systemPrompt, logged), prompt);
    HistoryExcludesPendingPrompt(systemPrompt, s.messages, prompt);
    s.(messages := logged + [Message(Assistant, ReplyText(reply))])
  }

  /** A two-entry log and a new prompt: the model is sent the priming pair,
      then the two entries in order, with the new prompt as the live message. */
  lemma ExampleRequest(systemPrompt: string)
    ensures ChatHistory(systemPrompt, [Message(User, "hi"), Message(Assistant, "hello"), Message(User, "bye")])
      == [Turn(UserTurn, systemPrompt), Turn(ModelTurn, Acknowledgement),
          Turn(UserTurn, "hi"), Turn(ModelTurn, "hello")]
  {
    HistoryExcludesPendingPrompt(systemPrompt, [Message(User, "hi"), Message(Assistant, "hello")], "bye");
  }
}
