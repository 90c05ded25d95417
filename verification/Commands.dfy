/** The voice-command classifier: ordered, case-insensitive substring matching
    on the transcribed text, first match wins (clear, then switch, then help). */
module Commands {
  import opened Wrappers
  import opened Text
  import Catalog

  /** A state change a command asks for. */
  datatype Effect = ClearChat | SwitchTo(name: string)

  /** What `process_voice_command` yields: an executed command (the rerun it
      triggers means its `True` is never observed), an informational reply, or
      `False` for ordinary chat text. */
  datatype CommandResult = Executed(effect: Effect) | Info(text: string) | NoCommand

  const ClearPhrases: seq<string> := ["clear chat", "clear history", "delete chat"]
  const SwitchPhrases: seq<string> := ["change personality", "switch personality", "switch to"]
  const HelpPhrases: seq<string> := ["what can you do", "help", "commands"]

  /** The fixed capability summary, with the indentation of its continuation lines. */
  const HelpText: string :=
    "I can respond to these voice commands:\n"
    + "        - 'Clear chat' - Clears conversation history\n"
    + "        - 'Change personality to [name]' - Switches AI personality\n"
    + "        - I can also chat with you in multiple languages!"

  const NotFoundPrefix: string := "I couldn't find that personality. Available options: "

  /** The reply when a switch phrase names no known personality. */
  function NotFoundText(names: seq<string>): string {
    NotFoundPrefix + Join(names, ", ")
  }

  /** The reply's list of names, in catalog order. */
  lemma NotFoundTextOfCatalog()
    ensures NotFoundText(Catalog.Names()) == NotFoundPrefix + "AI Buddy, Chat Buddy, Gaming Pro, Study Buddy"
  {
    var n := ["AI Buddy", "Chat Buddy", "Gaming Pro", "Study Buddy"];
    assert n[1..] == ["Chat Buddy", "Gaming Pro", "Study Buddy"];
    assert n[1..][1..] == ["Gaming Pro", "Study Buddy"];
    assert n[1..][1..][1..] == ["Study Buddy"];
    assert Join(n[1..][1..], ", ") == "Gaming Pro, Study Buddy";
  }

  /** `text.lower().strip()`: the lower-cased text with exactly its edge
      whitespace removed (lower-casing keeps every whitespace character where
      it is). */
  function Normalize(text: string): (t: string)
    ensures IsLowerCase(t)
    ensures t == [] || (!IsSpace(t[0]) && !IsSpace(t[|t| - 1]))
    ensures StripsTo(Lower(text), t)
  {
    StripKeepsLowerCase(Lower(text));
    Strip(Lower(text))
  }

  /** Normalizing twice is normalizing once. */
  lemma NormalizeIdempotent(text: string)
    ensures Normalize(Normalize(text)) == Normalize(text)
  {
    var t := Normalize(text);
    LowerOfLowerCase(t);
    StripOfTrimmed(t);
  }

  /** The position of the first name, in catalog order, whose lower-case form
      occurs in `t`. */
  function FirstMentioned(names: seq<string>, t: string): (r: Option<nat>)
    ensures r.Some? ==> r.value < |names| && Contains(t, Lower(names[r.value]))
    ensures r.Some? ==> forall j :: 0 <= j < r.value ==> !Contains(t, Lower(names[j]))
    ensures r.None? <==> forall j :: 0 <= j < |names| ==> !Contains(t, Lower(names[j]))
  {
    if names == [] then None
    else if Contains(t, Lower(names[0])) then Some(0)
    else match FirstMentioned(names[1..], t)
      case None => None
      case Some(k) => Some(k + 1)
  }

  /** The decision of `process_voice_command` on already normalized text `t`,
      scanning `names` for the switch target. */
  function ClassifyNormalized(names: seq<string>, t: string): (r: CommandResult)
    ensures r.Executed? && r.effect.SwitchTo? ==> r.effect.name in names
    ensures r.Info? ==> r.text == HelpText || r.text == NotFoundText(names)
  {
    if ContainsAny(t, ClearPhrases) then Executed(ClearChat)
    else if ContainsAny(t, SwitchPhrases) then
      match FirstMentioned(names, t)
      case Some(k) => Executed(SwitchTo(names[k]))
      case None => Info(NotFoundText(names))
    else if ContainsAny(t, HelpPhrases) then Info(HelpText)
    else NoCommand
  }

  /** The classifier's rules, stated on which phrases occur: a clear phrase
      wins; otherwise a switch phrase selects the first name, in catalog order,
      that occurs, or lists the names when none does; otherwise a help phrase
      gives the help text; anything else is no command. */
  lemma ClassificationRules(names: seq<string>, t: string)
    ensures var r := ClassifyNormalized(names, t);
      && (r == Executed(ClearChat) <==> MentionsAny(t, ClearPhrases))
      && (r.Executed? && r.effect.SwitchTo? <==>
            && !MentionsAny(t, ClearPhrases)
            && MentionsAny(t, SwitchPhrases)
            && exists k :: 0 <= k < |names| && Contains(t, Lower(names[k])))
      && (r.Executed? && r.effect.SwitchTo? ==>
            exists k :: 0 <= k < |names| && r.effect.name == names[k]
              && Contains(t, Lower(names[k]))
              && forall j :: 0 <= j < k ==> !Contains(t, Lower(names[j])))
      && (r.Info? <==>
            && !MentionsAny(t, ClearPhrases)
            && (|| (MentionsAny(t, SwitchPhrases)
                    && forall k :: 0 <= k < |names| ==> !Contains(t, Lower(names[k])))
                || (!MentionsAny(t, SwitchPhrases) && MentionsAny(t, HelpPhrases))))
      && (r.Info? ==>
            r.text == if MentionsAny(t, SwitchPhrases) then NotFoundText(names) else HelpText)
      && (r.NoCommand? <==>
            !MentionsAny(t, ClearPhrases) && !MentionsAny(t, SwitchPhrases) && !MentionsAny(t, HelpPhrases))
  {
  }

  /** `process_voice_command(text)`'s decision over the built-in catalog.
      Leading and trailing whitespace never changes it: only the lower-cased
      text matters. */
  function Classify(text: string): (r: CommandResult)
    ensures r == ClassifyNormalized(Catalog.Names(), Lower(text))
  {
    StripIgnoredByCatalog(Lower(text));
    ClassifyNormalized(Catalog.Names(), Normalize(text))
  }

  /** Over the built-in catalog, stripping lower-cased text never changes the
      classification. */
  lemma StripIgnoredByCatalog(x: string)
    ensures ClassifyNormalized(Catalog.Names(), Strip(x)) == ClassifyNormalized(Catalog.Names(), x)
  {
    Catalog.NamesTrimmed();
    StripNeverChangesDecision(Catalog.Names(), x);
  }

  /** Every phrase the classifier looks for is trimmed. */
  lemma PhrasesTrimmed()
    ensures forall j :: 0 <= j < |ClearPhrases| ==> Catalog.IsTrimmedName(ClearPhrases[j])
    ensures forall j :: 0 <= j < |SwitchPhrases| ==> Catalog.IsTrimmedName(SwitchPhrases[j])
    ensures forall j :: 0 <= j < |HelpPhrases| ==> Catalog.IsTrimmedName(HelpPhrases[j])
  {
  }

  /** Stripping keeps every occurrence of a list of trimmed phrases. */
  lemma StripKeepsMentions(x: string, phrases: seq<string>)
    requires forall j :: 0 <= j < |phrases| ==> Catalog.IsTrimmedName(phrases[j])
    ensures MentionsAny(Strip(x), phrases) <==> MentionsAny(x, phrases)
  {
    forall j | 0 <= j < |phrases|
      ensures Contains(Strip(x), phrases[j]) <==> Contains(x, phrases[j])
    {
      StripKeepsOccurrences(x, phrases[j]);
    }
  }

  /** With trimmed names, stripping the lower-cased text never changes the
      classification. */
  lemma StripNeverChangesDecision(names: seq<string>, x: string)
    requires forall k :: 0 <= k < |names| ==> Catalog.IsTrimmedName(names[k])
    ensures ClassifyNormalized(names, Strip(x)) == ClassifyNormalized(names, x)
  {
    PhrasesTrimmed();
    StripKeepsMentions(x, ClearPhrases);
    StripKeepsMentions(x, SwitchPhrases);
    StripKeepsMentions(x, HelpPhrases);
    forall k | 0 <= k < |names|
      ensures Contains(Strip(x), Lower(names[k])) <==> Contains(x, Lower(names[k]))
    {
      StripKeepsOccurrences(x, Lower(names[k]));
    }
    FirstMentionedDeterminedByMentions(names, Strip(x), x);
  }

  /** The first-mentioned position depends only on which names occur. */
  lemma FirstMentionedDeterminedByMentions(names: seq<string>, a: string, b: string)
    requires forall k :: 0 <= k < |names| ==> (Contains(a, Lower(names[k])) <==> Contains(b, Lower(names[k])))
    ensures FirstMentioned(names, a) == FirstMentioned(names, b)
  {
  }

  /** Classification depends only on `text.lower().strip()`. */
  lemma ClassifyDependsOnNormalForm(text: string)
    ensures Classify(Normalize(text)) == Classify(text)
  {
    NormalizeIdempotent(text);
  }
}
