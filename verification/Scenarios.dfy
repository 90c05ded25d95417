/** Concrete transcripts and what the classifier makes of them, including the
    known false positive of substring matching and the catalog-order rule for
    the switch target. */
module Scenarios {
  import opened Wrappers
  import opened Text
  import opened Commands
  import Catalog

  /** A phrase found at a known position. */
  lemma FoundAt(hay: string, needle: string, i: nat)
    requires OccursAt(hay, needle, i)
    ensures Contains(hay, needle)
  {
    ContainsIffOccurs(hay, needle);
  }

  /** Every clear phrase holds an `l`. */
  lemma NoClearPhraseWithoutL(t: string)
    requires 'l' !in t
    ensures !MentionsAny(t, ClearPhrases)
  {
    MissingCharRulesOut(t, ClearPhrases[0], 'l');
    MissingCharRulesOut(t, ClearPhrases[1], 'l');
    MissingCharRulesOut(t, ClearPhrases[2], 'l');
  }

  /** Text that opens with "switch to" and has no `l` holds a switch phrase
      and no clear phrase. */
  lemma SwitchWithoutClear(t: string)
    requires |t| >= 9 && t[..9] == "switch to"
    requires 'l' !in t
    ensures !MentionsAny(t, ClearPhrases)
    ensures MentionsAny(t, SwitchPhrases)
  {
    NoClearPhraseWithoutL(t);
    assert t[0..9] == SwitchPhrases[2];
    FoundAt(t, SwitchPhrases[2], 0);
  }

  lemma ClearChatPleaseLowered()
    ensures Lower("Clear chat please") == "clear chat please"
  {
    var s, t := "Clear chat please", "clear chat please";
    assert LowerChar('C') == 'c';
    forall i | 0 <= i < |s|
      ensures LowerChar(s[i]) == t[i]
    {
    }
    LowerIs(s, t);
  }

  lemma ClearChatPleaseFacts()
    ensures MentionsAny("clear chat please", ClearPhrases)
  {
    var t := "clear chat please";
    assert t[0..10] == ClearPhrases[0];
    FoundAt(t, ClearPhrases[0], 0);
  }

  /** "Clear chat please" clears the log. */
  lemma ClearChatPlease()
    ensures Classify("Clear chat please") == Executed(ClearChat)
  {
    ClearChatPleaseLowered();
    ClearChatPleaseFacts();
  }

  lemma FalsePositiveLowered()
    ensures Lower("Please help me clear history of WW2") == "please help me clear history of ww2"
  {
    var s, t := "Please help me clear history of WW2", "please help me clear history of ww2";
    assert LowerChar('P') == 'p' && LowerChar('W') == 'w';
    forall i | 0 <= i < |s|
      ensures LowerChar(s[i]) == t[i]
    {
    }
    LowerIs(s, t);
  }

  lemma FalsePositiveFacts()
    ensures MentionsAny("please help me clear history of ww2", ClearPhrases)
  {
    var t := "please help me clear history of ww2";
    assert t[15..28] == ClearPhrases[1];
    FoundAt(t, ClearPhrases[1], 15);
  }

  /** Matching is by substring, so a chat message that happens to hold a
      clear phrase is taken as the clear command, ahead of the help phrase it
      also holds. */
  lemma ChatMessageTakenAsClear()
    ensures Classify("Please help me clear history of WW2") == Executed(ClearChat)
  {
    FalsePositiveLowered();
    FalsePositiveFacts();
  }

  lemma GamingProLowered()
    ensures Lower("switch to Gaming Pro") == "switch to gaming pro"
  {
    var s, t := "switch to Gaming Pro", "switch to gaming pro";
    assert LowerChar('G') == 'g' && LowerChar('P') == 'p';
    forall i | 0 <= i < |s|
      ensures LowerChar(s[i]) == t[i]
    {
    }
    LowerIs(s, t);
  }

  lemma GamingProPhrases()
    ensures !MentionsAny("switch to gaming pro", ClearPhrases)
    ensures MentionsAny("switch to gaming pro", SwitchPhrases)
  {
    SwitchWithoutClear("switch to gaming pro");
  }

  lemma GamingProNames()
    ensures !Contains("switch to gaming pro", "ai buddy")
    ensures !Contains("switch to gaming pro", "chat buddy")
  {
    var t := "switch to gaming pro";
    assert 'b' !in t;
    MissingCharRulesOut(t, "ai buddy", 'b');
    MissingCharRulesOut(t, "chat buddy", 'b');
  }

  lemma GamingProNamed()
    ensures Contains("switch to gaming pro", "gaming pro")
  {
    var t := "switch to gaming pro";
    assert t[10..20] == "gaming pro";
    FoundAt(t, "gaming pro", 10);
  }

  lemma GamingProTarget()
    ensures FirstMentioned(Catalog.Names(), "switch to gaming pro") == Some(2)
  {
    GamingProNames();
    GamingProNamed();
    Catalog.LowerAiBuddy();
    Catalog.LowerChatBuddy();
    Catalog.LowerGamingPro();
  }

  /** "switch to Gaming Pro" selects Gaming Pro. */
  lemma SwitchToGamingPro()
    ensures Classify("switch to Gaming Pro") == Executed(SwitchTo("Gaming Pro"))
  {
    GamingProLowered();
    GamingProPhrases();
    GamingProTarget();
  }

  lemma UnknownBotLowered()
    ensures Lower("switch to Unknown Bot") == "switch to unknown bot"
  {
    var s, t := "switch to Unknown Bot", "switch to unknown bot";
    assert LowerChar('U') == 'u' && LowerChar('B') == 'b';
    forall i | 0 <= i < |s|
      ensures LowerChar(s[i]) == t[i]
    {
    }
    LowerIs(s, t);
  }

  lemma UnknownBotPhrases()
    ensures !MentionsAny("switch to unknown bot", ClearPhrases)
    ensures MentionsAny("switch to unknown bot", SwitchPhrases)
  {
    SwitchWithoutClear("switch to unknown bot");
  }

  lemma UnknownBotNames()
    ensures !Contains("switch to unknown bot", "ai buddy")
    ensures !Contains("switch to unknown bot", "chat buddy")
    ensures !Contains("switch to unknown bot", "gaming pro")
    ensures !Contains("switch to unknown bot", "study buddy")
  {
    var t := "switch to unknown bot";
    assert 'd' !in t && 'g' !in t;
    MissingCharRulesOut(t, "ai buddy", 'd');
    MissingCharRulesOut(t, "chat buddy", 'd');
    MissingCharRulesOut(t, "gaming pro", 'g');
    MissingCharRulesOut(t, "study buddy", 'd');
  }

  lemma UnknownBotTarget()
    ensures FirstMentioned(Catalog.Names(), "switch to unknown bot") == None
  {
    UnknownBotNames();
    Catalog.LowerAiBuddy();
    Catalog.LowerChatBuddy();
    Catalog.LowerGamingPro();
    Catalog.LowerStudyBuddy();
  }

  /** "switch to Unknown Bot" names no personality: the reply lists the valid
      names, and nothing is executed. */
  lemma SwitchToUnknownBot()
    ensures Classify("switch to Unknown Bot") == Info(NotFoundPrefix + "AI Buddy, Chat Buddy, Gaming Pro, Study Buddy")
  {
    UnknownBotLowered();
    UnknownBotPhrases();
    UnknownBotTarget();
    NotFoundTextOfCatalog();
  }

  lemma CatalogOrderLowered()
    ensures Lower("switch to study buddy or ai buddy") == "switch to study buddy or ai buddy"
  {
    var t := "switch to study buddy or ai buddy";
    forall i | 0 <= i < |t|
      ensures LowerChar(t[i]) == t[i]
    {
    }
    LowerIs(t, t);
  }

  lemma CatalogOrderPhrases()
    ensures !MentionsAny("switch to study buddy or ai buddy", ClearPhrases)
    ensures MentionsAny("switch to study buddy or ai buddy", SwitchPhrases)
  {
    SwitchWithoutClear("switch to study buddy or ai buddy");
  }

  lemma CatalogOrderMentions()
    ensures Contains("switch to study buddy or ai buddy", "ai buddy")
  {
    var t := "switch to study buddy or ai buddy";
    assert t[25..33] == "ai buddy";
    FoundAt(t, "ai buddy", 25);
  }

  lemma CatalogOrderTarget()
    ensures FirstMentioned(Catalog.Names(), "switch to study buddy or ai buddy") == Some(0)
  {
    CatalogOrderMentions();
    Catalog.LowerAiBuddy();
  }

  /** When two names occur, the one earlier in the catalog wins, not the one
      spoken first. */
  lemma CatalogOrderWins()
    ensures Classify("switch to study buddy or ai buddy") == Executed(SwitchTo("AI Buddy"))
  {
    CatalogOrderLowered();
    CatalogOrderPhrases();
    CatalogOrderTarget();
  }
}
