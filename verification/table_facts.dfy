/** Facts about the two scripts' concrete tables. */
module TableFacts {
  import opened Text
  import opened Encoding
  import opened Rules
  import opened Sessions
  import opened Dispatcher
  import opened Matcher
  import opened ScanProperties
  import opened RunProperties
  import opened Tables

  /** The prompts built with f-strings read `[ROBIN] : ` and ` [1.13] : `. */
  lemma TemplatedPrompts()
    ensures SynonymPrompt() == "[ROBIN] : "
    ensures Phase4Prompt() == " [1.13] : "
  {
    assert AsciiUpper(TargetName) == "ROBIN";
  }

  /** Both DOLLAR prompts of the first script carry `$`, so their split never
      splits and a DOLLAR match clears the whole buffer. */
  lemma CommunityDollarClears(s: string, k: nat)
    requires k in {3, 4}
    requires Contains(s, CommunityBootPrompts()[k].0)
    ensures CommunityBootPrompts()[k].1 == "DOLLAR"
    ensures Consume(CommunityBootPrompts()[k].0, s) == ""
  {
    assert IsRegexMeta(CommunityBootPrompts()[k].0[|CommunityBootPrompts()[k].0| - 2]);
  }

  /** The first script's seventh rule is `job terminated at `, the INTSET
      rule, with three empty answers. */
  lemma CommunityIntsetRule(password: string)
    ensures CommunityTable(password)[6].name == "INTSET"
    ensures |CommunityTable(password)[6].actions| == 3
  {
    var p := CommunityPrompts();
    assert p[6] == CommunityBootPrompts()[6];
  }

  /** In the first script the login prompt is answered at most three times
      in a whole run, once per answer to `job terminated at `. */
  lemma CommunityLoginsAtMostThree(password: string, chunks: seq<string>)
    ensures GateSends(Run(Community, CommunityTable(password), Initial(CommunityTable(password)), chunks).log) <= 3
  {
    var table := CommunityTable(password);
    CommunityIntsetRule(password);
    LoginBound(table, chunks, 6);
  }

  /** Both DOLLAR prompts of the 9.2-2 script carry `$` too, the second one
      being `\n\r\0$ ` there. */
  lemma V922DollarClears(s: string, k: nat)
    requires k in {3, 4}
    requires Contains(s, V922BootPrompts()[k].0)
    ensures V922BootPrompts()[k].1 == "DOLLAR"
    ensures Consume(V922BootPrompts()[k].0, s) == ""
  {
    assert IsRegexMeta(V922BootPrompts()[k].0[|V922BootPrompts()[k].0| - 2]);
  }

  /** The 9.2-2 script's eighth rule is the first login prompt, with five
      `SYSTEM` answers. */
  lemma V922UsernameRule(password: string)
    ensures V922Table(password)[7].name == "USERNAME"
    ensures |V922Table(password)[7].actions| == 5
  {
    var p := V922Prompts();
    assert p[7] == V922BootPrompts()[7];
  }

  /** In the 9.2-2 script, with no gate, the login prompt is answered with
      the scripted `SYSTEM` at most five times in a whole run. */
  lemma V922LoginsAtMostFive(password: string, chunks: seq<string>)
    ensures var table := V922Table(password);
            var r := Run(V922, table, Initial(table), chunks);
            |UsedIndices(r.log, "USERNAME")| <= 5
  {
    var table := V922Table(password);
    V922UsernameRule(password);
    ScriptReplay(V922, table, chunks, 7);
  }
}
