/** The fixed personality catalog: an insertion-ordered dictionary keyed by
    display name, whose values carry the same name, an icon, the system prompt
    and a description. The keys are listed once, in order; each column of the
    dictionary literal, the `"name"` field included, is a lookup by key. */
module Catalog {
  import opened Text

  datatype Personality = Personality(
    name: string,
    icon: string,
    systemPrompt: string,
    description: string)

  /** `list(PERSONALITIES.keys())`: the selector's options and the order the
      voice-command scan visits. */
  function Names(): seq<string> {
    ["AI Buddy", "Chat Buddy", "Gaming Pro", "Study Buddy"]
  }

  /** The `"name"` field of the entry keyed `key`, written separately from the
      key in the dictionary literal. */
  function Name(key: string): string
    requires key in Names()
  {
    if key == "AI Buddy" then "AI Buddy"
    else if key == "Chat Buddy" then "Chat Buddy"
    else if key == "Gaming Pro" then "Gaming Pro"
    else "Study Buddy"
  }

  /** The `"icon"` of the entry keyed `name`. */
  function Icon(name: string): string
    requires name in Names()
  {
    if name == "AI Buddy" then "\U{1F916}"
    else if name == "Chat Buddy" then "\U{1F4AC}"
    else if name == "Gaming Pro" then "\U{1F3AE}"
    else "\U{1F4DA}"
  }

  /** The `"system_prompt"` of the entry keyed `name`. */
  function SystemPrompt(name: string): string
    requires name in Names()
  {
    if name == "AI Buddy" then "You are a helpful, friendly, and enthusiastic AI assistant who can help with anything. You're capable, confident, and always ready to tackle any challenge. You approach every task with a positive attitude and provide clear, practical solutions."
    else if name == "Chat Buddy" then "You are a friendly conversationalist who loves to chat about absolutely anything! You're engaging, curious, and enjoy deep conversations on any topic - from everyday life to philosophy, hobbies, current events, random thoughts, and everything in between. You're a great listener and always keep the conversation flowing naturally."
    else if name == "Gaming Pro" then "You are an expert gaming professional with deep knowledge of video games across all platforms and genres. You provide strategic advice, tips, tricks, game recommendations, build guides, walkthroughs, and gaming industry insights. You're passionate about gaming culture and help players improve their skills and enjoy their gaming experience to the fullest."
    else "You are a patient and supportive study companion who helps students learn effectively. You break down complex topics into understandable pieces, provide clear explanations, create study strategies, help with homework, offer practice questions, and motivate students to achieve their academic goals. You adapt your teaching style to each student's needs and make learning engaging and fun."
  }

  /** The `"description"` of the entry keyed `name`. */
  function Description(name: string): string
    requires name in Names()
  {
    if name == "AI Buddy" then "A versatile AI assistant ready to help with any task"
    else if name == "Chat Buddy" then "A friendly companion for casual conversations about anything"
    else if name == "Gaming Pro" then "Expert gaming advisor for strategies, tips, and game recommendations"
    else "Your personal tutor for studying and learning any subject"
  }

  /** `PERSONALITIES[name]` for a key the selector offers: every entry's
      `"name"` field equals its own key. */
  function Config(name: string): (p: Personality)
    requires name in Names()
    ensures p.name == name
  {
    NameIsKey(name);
    Personality(Name(name), Icon(name), SystemPrompt(name), Description(name))
  }

  /** The `"name"` literal of every entry repeats its key. */
  lemma NameIsKey(key: string)
    requires key in Names()
    ensures Name(key) == key
  {
    assert key == Names()[0] || key == Names()[1] || key == Names()[2] || key == Names()[3];
  }

  /** A non-empty name with no whitespace at either end. */
  predicate IsTrimmedName(name: string) {
    name != [] && !IsSpace(name[0]) && !IsSpace(name[|name| - 1])
  }

  // The lower-cased keys the voice command scans for.

  lemma LowerAiBuddy()
    ensures Lower("AI Buddy") == "ai buddy"
  {
    var s, t := "AI Buddy", "ai buddy";
    assert LowerChar('A') == 'a' && LowerChar('B') == 'b' && LowerChar('I') == 'i';
    forall i | 0 <= i < |s|
      ensures LowerChar(s[i]) == t[i]
    {
    }
    LowerIs(s, t);
  }

  lemma LowerChatBuddy()
    ensures Lower("Chat Buddy") == "chat buddy"
  {
    var s, t := "Chat Buddy", "chat buddy";
    assert LowerChar('B') == 'b' && LowerChar('C') == 'c';
    forall i | 0 <= i < |s|
      ensures LowerChar(s[i]) == t[i]
    {
    }
    LowerIs(s, t);
  }

  lemma LowerGamingPro()
    ensures Lower("Gaming Pro") == "gaming pro"
  {
    var s, t := "Gaming Pro", "gaming pro";
    assert LowerChar('G') == 'g' && LowerChar('P') == 'p';
    forall i | 0 <= i < |s|
      ensures LowerChar(s[i]) == t[i]
    {
    }
    LowerIs(s, t);
  }

  lemma LowerStudyBuddy()
    ensures Lower("Study Buddy") == "study buddy"
  {
    var s, t := "Study Buddy", "study buddy";
    assert LowerChar('B') == 'b' && LowerChar('S') == 's';
    forall i | 0 <= i < |s|
      ensures LowerChar(s[i]) == t[i]
    {
    }
    LowerIs(s, t);
  }

  /** The catalog's keys are distinct, so a lookup by name is unambiguous. */
  lemma NamesDistinct()
    ensures forall i, j :: 0 <= i < j < |Names()| ==> Names()[i] != Names()[j]
  {
    var n := Names();
    assert n[1][0] != n[2][0] && n[1][0] != n[3][0] && n[2][0] != n[3][0];
  }

  /** Every key is trimmed, so stripping the command text never hides a name. */
  lemma NamesTrimmed()
    ensures forall i :: 0 <= i < |Names()| ==> IsTrimmedName(Names()[i])
  {
  }
}
