/** The two deterministic tools of the adaptive sales agent: the mood detector,
    a first-match keyword chain, and the delivery-time formatter. */
module CreativeAgent {
  import opened Wrappers
  import opened Strings

  /** The four labels the mood detector can return. */
  datatype Mood = Confused | Urgent | Serious | Friendly
  {
    /** The string the tool hands back to the model. */
    function Label(): string
    {
      match this
      case Confused => "confused"
      case Urgent => "urgent"
      case Serious => "serious"
      case Friendly => "friendly"
    }
  }

  // ---------------------------------------------------------------------------
  // detect_mood
  // ---------------------------------------------------------------------------

  /** Rule 1: `"?"` and `"not sure"` are looked for in the message as typed,
      `"confused"` in its lower-cased form. */
  predicate SaysConfused(message: string)
  {
    Contains(message, "?") || Contains(message, "not sure") || Contains(Lower(message), "confused")
  }

  /** Rule 2, on the lower-cased message. */
  predicate SaysUrgent(message: string)
  {
    var lower := Lower(message);
    Contains(lower, "urgent") || Contains(lower, "asap") || Contains(lower, "quick")
  }

  /** Rule 3, on the lower-cased message. */
  predicate SaysSerious(message: string)
  {
    var lower := Lower(message);
    Contains(lower, "cost") || Contains(lower, "price") || Contains(lower, "serious")
  }

  /** `detect_mood`: the first rule that fires decides; no rule gives friendly. */
  function DetectMood(message: string): Mood
  {
    if SaysConfused(message) then Confused
    else if SaysUrgent(message) then Urgent
    else if SaysSerious(message) then Serious
    else Friendly
  }

  /** A message with a question mark anywhere is confused, whatever else it says. */
  lemma QuestionMarkWins(before: string, after: string)
    ensures DetectMood(before + "?" + after) == Confused
  {
    ContainsInfix(before, "?", after);
  }

  /** "not sure" typed in lower case makes any message confused. */
  lemma NotSureWins(before: string, after: string)
    ensures DetectMood(before + "not sure" + after) == Confused
  {
    ContainsInfix(before, "not sure", after);
  }

  /** "confused" is recognised in any letter case. */
  lemma ConfusedInAnyCase(before: string, word: string, after: string)
    requires Lower(word) == "confused"
    ensures DetectMood(before + word + after) == Confused
  {
    ContainsInfix(before, word, after);
    ContainsLower(before + word + after, word);
  }

  /** "not sure" is recognised only as typed in lower case: capitalised it
      counts for nothing, although lower-casing the same message makes it confused. */
  lemma NotSureIsCaseSensitive()
    ensures DetectMood("Not sure") == Friendly
    ensures DetectMood(Lower("Not sure")) == Confused
  {
    NotSureLowered();
    NotSureTypedHasNoKeyword();
    NotSureLoweredHasNoOtherKeyword();
    ContainsInfix("", "not sure", "");
    assert "" + "not sure" + "" == "not sure";
  }

  lemma NotSureLowered()
    ensures Lower("Not sure") == "not sure"
    ensures Lower("not sure") == "not sure"
  {
    assert Lower("Not sure") == [LowerChar('N')] + Lower("ot sure");
  }

  lemma NotSureTypedHasNoKeyword()
    ensures !Contains("Not sure", "?") && !Contains("Not sure", "not sure")
  {
    MissingChar("Not sure", "?", 0);
    MissingChar("Not sure", "not sure", 0);
  }

  lemma NotSureLoweredHasNoOtherKeyword()
    ensures !Contains("not sure", "confused")
    ensures !Contains("not sure", "urgent") && !Contains("not sure", "asap") && !Contains("not sure", "quick")
    ensures !Contains("not sure", "cost") && !Contains("not sure", "price") && !Contains("not sure", "serious")
  {
    NotSureLacksRuleOneAndTwo();
    NotSureLacksRuleThree();
  }

  lemma NotSureLacksRuleOneAndTwo()
    ensures !Contains("not sure", "confused")
    ensures !Contains("not sure", "urgent") && !Contains("not sure", "asap") && !Contains("not sure", "quick")
  {
    MissingChar("not sure", "confused", 0);
    MissingChar("not sure", "urgent", 2);
    MissingChar("not sure", "asap", 0);
    MissingChar("not sure", "quick", 0);
  }

  lemma NotSureLacksRuleThree()
    ensures !Contains("not sure", "cost") && !Contains("not sure", "price") && !Contains("not sure", "serious")
  {
    MissingChar("not sure", "cost", 0);
    MissingChar("not sure", "price", 0);
    MissingChar("not sure", "serious", 3);
  }

  /** Unless rule 1 fires, "urgent", "asap" or "quick" in any letter case make
      the message urgent, whatever rule 3 would say. */
  lemma UrgentInAnyCase(before: string, word: string, after: string)
    requires Lower(word) == "urgent" || Lower(word) == "asap" || Lower(word) == "quick"
    requires !SaysConfused(before + word + after)
    ensures DetectMood(before + word + after) == Urgent
  {
    ContainsInfix(before, word, after);
    ContainsLower(before + word + after, word);
  }

  /** A capitalised "ASAP" with no rule-1 keyword is urgent. */
  lemma CapitalAsapIsUrgent(before: string, after: string)
    requires !SaysConfused(before + "ASAP" + after)
    ensures DetectMood(before + "ASAP" + after) == Urgent
  {
    assert Lower("ASAP") == "asap";
    UrgentInAnyCase(before, "ASAP", after);
  }

  /** Serious exactly when neither earlier rule fires and a rule-3 keyword occurs. */
  lemma SeriousOnlyAfterEarlierRules(message: string)
    ensures DetectMood(message) == Serious <==>
      !SaysConfused(message) && !SaysUrgent(message) && SaysSerious(message)
  {
  }

  /** Totality: every message gets one of the four labels, and friendly exactly
      when none of the nine keywords occurs. */
  lemma FriendlyWhenNoKeyword(message: string)
    ensures DetectMood(message).Label() in ["confused", "urgent", "serious", "friendly"]
    ensures DetectMood(message) == Friendly <==>
      !SaysConfused(message) && !SaysUrgent(message) && !SaysSerious(message)
  {
  }

  // ---------------------------------------------------------------------------
  // estimate_delivery
  // ---------------------------------------------------------------------------

  const DeliveryPrefix: string := "Expected delivery time: "
  const DeliverySuffix: string := " working days."

  /** `estimate_delivery`: the day count, as Python's `str` writes it, inside a fixed sentence. */
  function EstimateDelivery(days: int): string
  {
    DeliveryPrefix + IntToString(days) + DeliverySuffix
  }

  /** Reads the day count back out of a delivery sentence; `None` for any other text. */
  function ReadDelivery(text: string): Option<int>
  {
    if |text| >= |DeliveryPrefix| + |DeliverySuffix|
       && text[..|DeliveryPrefix|] == DeliveryPrefix
       && text[|text| - |DeliverySuffix|..] == DeliverySuffix
    then ParseInt(text[|DeliveryPrefix|..|text| - |DeliverySuffix|])
    else None
  }

  /** The sentence carries the day count exactly: reading it back gives `days`. */
  lemma ReadEstimateDelivery(days: int)
    ensures ReadDelivery(EstimateDelivery(days)) == Some(days)
  {
    var text := EstimateDelivery(days);
    var digits := IntToString(days);
    assert text[..|DeliveryPrefix|] == DeliveryPrefix;
    assert text[|text| - |DeliverySuffix|..] == DeliverySuffix;
    assert text[|DeliveryPrefix|..|text| - |DeliverySuffix|] == digits;
    ParseIntToString(days);
  }

  /** Different day counts never give the same sentence. */
  lemma EstimateDeliveryInjective(a: int, b: int)
    ensures EstimateDelivery(a) == EstimateDelivery(b) ==> a == b
  {
    ReadEstimateDelivery(a);
    ReadEstimateDelivery(b);
  }

  // ---------------------------------------------------------------------------
  // The same chain, read as a priority-ordered rule table
  // ---------------------------------------------------------------------------

  /** One row of the table: the mood it yields, the keywords looked for in the
      message as typed and those looked for in the lower-cased message. */
  datatype Rule = Rule(mood: Mood, asTyped: seq<string>, anyCase: seq<string>)

  const MoodRules: seq<Rule> := [
    Rule(Confused, ["?", "not sure"], ["confused"]),
    Rule(Urgent, [], ["urgent", "asap", "quick"]),
    Rule(Serious, [], ["cost", "price", "serious"])
  ]

  /** Some keyword of the list occurs in `s`. */
  predicate ContainsAny(s: string, keywords: seq<string>)
  {
    |keywords| > 0 && (Contains(s, keywords[0]) || ContainsAny(s, keywords[1..]))
  }

  lemma ContainsAnyOne(s: string, a: string)
    ensures ContainsAny(s, [a]) <==> Contains(s, a)
  {
    assert [a][1..] == [];
  }

  lemma ContainsAnyPair(s: string, a: string, b: string)
    ensures ContainsAny(s, [a, b]) <==> Contains(s, a) || Contains(s, b)
  {
    assert [a, b][1..] == [b];
    ContainsAnyOne(s, b);
  }

  lemma ContainsAnyTriple(s: string, a: string, b: string, c: string)
    ensures ContainsAny(s, [a, b, c]) <==> Contains(s, a) || Contains(s, b) || Contains(s, c)
  {
    assert [a, b, c][1..] == [b, c];
    ContainsAnyPair(s, b, c);
  }

  predicate Fires(rule: Rule, message: string)
  {
    ContainsAny(message, rule.asTyped) || ContainsAny(Lower(message), rule.anyCase)
  }

  /** The mood of the first rule that fires, friendly when none does. */
  function FirstMatch(rules: seq<Rule>, message: string): Mood
  {
    if rules == [] then Friendly
    else if Fires(rules[0], message) then rules[0].mood
    else FirstMatch(rules[1..], message)
  }

  /** `detect_mood` is the first-match evaluation of the rule table. */
  lemma DetectMoodIsFirstMatch(message: string)
    ensures DetectMood(message) == FirstMatch(MoodRules, message)
  {
    var lower := Lower(message);
    var rest := MoodRules[1..];
    assert MoodRules[0] == Rule(Confused, ["?", "not sure"], ["confused"]);
    assert rest[0] == Rule(Urgent, [], ["urgent", "asap", "quick"]);
    assert rest[1..][0] == Rule(Serious, [], ["cost", "price", "serious"]);
    ContainsAnyPair(message, "?", "not sure");
    ContainsAnyOne(lower, "confused");
    ContainsAnyTriple(lower, "urgent", "asap", "quick");
    ContainsAnyTriple(lower, "cost", "price", "serious");
    assert Fires(MoodRules[0], message) <==> SaysConfused(message);
    assert Fires(rest[0], message) <==> SaysUrgent(message);
    assert Fires(rest[1..][0], message) <==> SaysSerious(message);
    assert rest[1..][1..] == [];
    assert FirstMatch(rest[1..], message) == if SaysSerious(message) then Serious else Friendly;
    assert FirstMatch(rest, message) == if SaysUrgent(message) then Urgent else FirstMatch(rest[1..], message);
  }

  // ---------------------------------------------------------------------------
  // The classifier with every keyword matched in any letter case
  // ---------------------------------------------------------------------------

  /** Rule 1 with "?" and "not sure" also looked for in the lower-cased message,
      as "confused" already is. */
  function DetectMoodAnyCase(message: string): Mood
  {
    var lower := Lower(message);
    if Contains(lower, "?") || Contains(lower, "not sure") || Contains(lower, "confused") then Confused
    else if SaysUrgent(message) then Urgent
    else if SaysSerious(message) then Serious
    else Friendly
  }

  /** Lower-casing never creates or removes a question mark. */
  lemma QuestionMarkSurvivesLower(message: string)
    ensures Contains(Lower(message), "?") <==> Contains(message, "?")
  {
    ContainsChar(message, '?');
    ContainsChar(Lower(message), '?');
    if '?' in Lower(message) {
      var k :| 0 <= k < |message| && Lower(message)[k] == '?';
      assert message[k] == '?';
    }
    if '?' in message {
      var k :| 0 <= k < |message| && message[k] == '?';
      assert Lower(message)[k] == '?';
    }
  }

  /** The corrected classifier ignores letter case entirely ... */
  lemma {:induction false} DetectMoodAnyCaseIgnoresCase(message: string)
    ensures DetectMoodAnyCase(message) == DetectMoodAnyCase(Lower(message))
  {
    LowerIdempotent(message);
  }

  /** ... and is the as-written classifier applied to the lower-cased message. */
  lemma {:induction false} DetectMoodAnyCaseIsLoweredDetectMood(message: string)
    ensures DetectMoodAnyCase(message) == DetectMood(Lower(message))
  {
    LowerIdempotent(message);
  }

  /** The two classifiers differ only on messages where "not sure" appears once
      lower-cased but not as typed. */
  lemma {:induction false} DetectMoodAnyCaseAgrees(message: string)
    requires Contains(Lower(message), "not sure") ==> Contains(message, "not sure")
    ensures DetectMoodAnyCase(message) == DetectMood(message)
  {
    QuestionMarkSurvivesLower(message);
    if Contains(message, "not sure") {
      ContainsLower(message, "not sure");
      NotSureLowered();
    }
  }

  /** The message on which the as-written classifier goes wrong is confused here. */
  lemma NotSureAnyCase()
    ensures DetectMoodAnyCase("Not sure") == Confused
  {
    NotSureLowered();
    DetectMoodAnyCaseIsLoweredDetectMood("Not sure");
    NotSureIsCaseSensitive();
  }

  // ---------------------------------------------------------------------------
  // The example client queries
  // ---------------------------------------------------------------------------

  // Each query is kept as the list of short pieces that spell it; reasoning
  // about which characters occur is then done one short piece at a time.

  /** "I’m confused, can you explain what exactly you provide?" */
  const ConfusedChunks: seq<string> :=
    ["I’m confus", "ed, can yo", "u explain ", "what exact", "ly you pro", "vide", "?"]
  /** "I need a website for my store, urgent ASAP delivery please!" */
  const UrgentChunks: seq<string> :=
    ["I need a w", "ebsite f", "or my s", "t", "ore, ", "urgent", " ASAP d", "elivery p", "lease!"]
  /** "Tell me the exact cost of an ecommerce website." */
  const SeriousChunks: seq<string> :=
    ["Tell me th", "e exact ", "cost", " of an e", "commerce w", "ebsite."]
  /** "Hey buddy! I want a nice simple website for my cafe 🙂" */
  const FriendlyChunks: seq<string> :=
    ["Hey buddy!", " I want a ", "nice ", "simpl", "e web", "si", "te ", "for my ", "cafe \U{1F642}"]

  const QueryConfused: string := Concat(ConfusedChunks)
  const QueryUrgent: string := Concat(UrgentChunks)
  const QuerySerious: string := Concat(SeriousChunks)
  const QueryFriendly: string := Concat(FriendlyChunks)

  /** The first query is confused. */
  lemma QueryConfusedIsConfused()
    ensures DetectMood(QueryConfused) == Confused
  {
    ConfusedVerdict(QueryConfused);
  }

  lemma ConfusedVerdict(q: string)
    requires q == Concat(ConfusedChunks)
    ensures DetectMood(q) == Confused
  {
    ContainsChunk(ConfusedChunks, 6);
    assert ConfusedChunks[6] == "?";
  }

  /** The second query is urgent. */
  lemma QueryUrgentIsUrgent()
    ensures DetectMood(QueryUrgent) == Urgent
  {
    UrgentVerdict(QueryUrgent);
  }

  lemma UrgentVerdict(q: string)
    requires q == Concat(UrgentChunks)
    ensures DetectMood(q) == Urgent
  {
    UrgentNotConfused(q);
    ContainsChunk(UrgentChunks, 5);
    assert UrgentChunks[5] == "urgent";
    ContainsLower(q, "urgent");
    assert Lower("urgent") == "urgent";
  }

  lemma UrgentNotConfused(q: string)
    requires q == Concat(UrgentChunks)
    ensures !SaysConfused(q)
  {
    UrgentNoQuestionMark(q);
    UrgentNoC(q);
    UrgentNoOTPair(q);
    MissingChar(Lower(q), ['c', 'o'], 0);
    NoConfusedKeyword(q);
  }

  lemma UrgentNoQuestionMark(q: string)
    requires q == Concat(UrgentChunks)
    ensures '?' !in q
  {
    UrgentLacks();
    MissingCharConcat(UrgentChunks, '?');
  }

  lemma UrgentNoC(q: string)
    requires q == Concat(UrgentChunks)
    ensures 'c' !in Lower(q)
  {
    UrgentLacks();
    MissingCharConcat(UrgentChunks, 'c');
    MissingCharConcat(UrgentChunks, 'C');
    LetterNotInLower(q, 'c');
  }

  lemma UrgentNoOTPair(q: string)
    requires q == Concat(UrgentChunks)
    ensures !Contains(q, ['o', 't'])
  {
    UrgentNoOT();
    MissingPairConcat(UrgentChunks, 'o', 't');
  }

  lemma UrgentLacks()
    ensures forall k | 0 <= k < |UrgentChunks| :: '?' !in UrgentChunks[k]
    ensures forall k | 0 <= k < |UrgentChunks| :: 'c' !in UrgentChunks[k] && 'C' !in UrgentChunks[k]
  {
  }

  /** The pieces are cut so that none holds both 'o' and 't' and no 'o' ends a
      piece that a 't' starts the next. */
  lemma UrgentNoOT()
    ensures forall k | 0 <= k < |UrgentChunks| ::
      UrgentChunks[k] != [] && ('o' !in UrgentChunks[k] || 't' !in UrgentChunks[k])
    ensures forall k | 0 <= k < |UrgentChunks| - 1 ::
      UrgentChunks[k][|UrgentChunks[k]| - 1] != 'o' || UrgentChunks[k + 1][0] != 't'
  {
  }

  /** The third query is serious: "cost" occurs, and no piece holds '?', 'u',
      'p' or 'q' in either case, which rules out every earlier keyword. */
  lemma QuerySeriousIsSerious()
    ensures DetectMood(QuerySerious) == Serious
  {
    SeriousVerdict(QuerySerious);
  }

  lemma SeriousVerdict(q: string)
    requires q == Concat(SeriousChunks)
    ensures DetectMood(q) == Serious
  {
    SeriousLacksQuestionMarkAndU(q);
    SeriousLacksPAndQ(q);
    SeriousNoEarlierRule(q);
    ContainsChunk(SeriousChunks, 2);
    assert SeriousChunks[2] == "cost";
    ContainsLower(q, "cost");
    assert Lower("cost") == "cost";
  }

  lemma SeriousLacksQuestionMarkAndU(q: string)
    requires q == Concat(SeriousChunks)
    ensures '?' !in q && 'u' !in q && 'U' !in q
  {
    SeriousLacks();
    MissingCharConcat(SeriousChunks, '?');
    MissingCharConcat(SeriousChunks, 'u');
    MissingCharConcat(SeriousChunks, 'U');
  }

  lemma SeriousLacksPAndQ(q: string)
    requires q == Concat(SeriousChunks)
    ensures 'p' !in q && 'P' !in q && 'q' !in q && 'Q' !in q
  {
    SeriousLacks();
    MissingCharConcat(SeriousChunks, 'p');
    MissingCharConcat(SeriousChunks, 'P');
    MissingCharConcat(SeriousChunks, 'q');
    MissingCharConcat(SeriousChunks, 'Q');
  }

  lemma SeriousLacks()
    ensures forall k | 0 <= k < |SeriousChunks| :: '?' !in SeriousChunks[k]
    ensures forall k | 0 <= k < |SeriousChunks| :: 'u' !in SeriousChunks[k] && 'U' !in SeriousChunks[k]
    ensures forall k | 0 <= k < |SeriousChunks| :: 'p' !in SeriousChunks[k] && 'P' !in SeriousChunks[k]
    ensures forall k | 0 <= k < |SeriousChunks| :: 'q' !in SeriousChunks[k] && 'Q' !in SeriousChunks[k]
  {
    SeriousLacksFirstHalf();
    SeriousLacksSecondHalf();
  }

  lemma SeriousLacksFirstHalf()
    ensures forall k | 0 <= k < |SeriousChunks| :: '?' !in SeriousChunks[k]
    ensures forall k | 0 <= k < |SeriousChunks| :: 'u' !in SeriousChunks[k] && 'U' !in SeriousChunks[k]
  {
  }

  lemma SeriousLacksSecondHalf()
    ensures forall k | 0 <= k < |SeriousChunks| :: 'p' !in SeriousChunks[k] && 'P' !in SeriousChunks[k]
    ensures forall k | 0 <= k < |SeriousChunks| :: 'q' !in SeriousChunks[k] && 'Q' !in SeriousChunks[k]
  {
  }

  lemma SeriousNoEarlierRule(q: string)
    requires '?' !in q && 'u' !in q && 'U' !in q
    requires 'p' !in q && 'P' !in q && 'q' !in q && 'Q' !in q
    ensures !SaysConfused(q) && !SaysUrgent(q)
  {
    MissingChar(q, "?", 0);
    MissingChar(q, "not sure", 5);
    LetterNotInLower(q, 'u');
    LetterNotInLower(q, 'p');
    LetterNotInLower(q, 'q');
    MissingChar(Lower(q), "confused", 4);
    MissingChar(Lower(q), "urgent", 0);
    MissingChar(Lower(q), "asap", 3);
    MissingChar(Lower(q), "quick", 0);
  }

  /** The last query is friendly: none of the nine keywords occurs. */
  lemma QueryFriendlyIsFriendly()
    ensures DetectMood(QueryFriendly) == Friendly
  {
    FriendlyVerdict(QueryFriendly);
  }

  // The friendly query is cut so that, for each pair below, no piece holds both
  // letters (in either case, for the pairs looked for after lower-casing) and
  // no seam between pieces joins them.

  lemma FriendlyPairOT()
    ensures forall k | 0 <= k < |FriendlyChunks| ::
      FriendlyChunks[k] != [] && ('o' !in FriendlyChunks[k] || 't' !in FriendlyChunks[k])
    ensures forall k | 0 <= k < |FriendlyChunks| - 1 ::
      FriendlyChunks[k][|FriendlyChunks[k]| - 1] != 'o' || FriendlyChunks[k + 1][0] != 't'
  {
  }

  lemma FriendlyPairCO()
    ensures forall k | 0 <= k < |FriendlyChunks| ::
      FriendlyChunks[k] != [] &&
      (AbsentInAnyCase(FriendlyChunks[k], 'c') || AbsentInAnyCase(FriendlyChunks[k], 'o'))
    ensures forall k | 0 <= k < |FriendlyChunks| - 1 ::
      LowerChar(FriendlyChunks[k][|FriendlyChunks[k]| - 1]) != 'c' || LowerChar(FriendlyChunks[k + 1][0]) != 'o'
  {
  }

  lemma FriendlyPairAS()
    ensures forall k | 0 <= k < |FriendlyChunks| ::
      FriendlyChunks[k] != [] &&
      (AbsentInAnyCase(FriendlyChunks[k], 'a') || AbsentInAnyCase(FriendlyChunks[k], 's'))
    ensures forall k | 0 <= k < |FriendlyChunks| - 1 ::
      LowerChar(FriendlyChunks[k][|FriendlyChunks[k]| - 1]) != 'a' || LowerChar(FriendlyChunks[k + 1][0]) != 's'
  {
  }

  lemma FriendlyPairPR()
    ensures forall k | 0 <= k < |FriendlyChunks| ::
      FriendlyChunks[k] != [] &&
      (AbsentInAnyCase(FriendlyChunks[k], 'p') || AbsentInAnyCase(FriendlyChunks[k], 'r'))
    ensures forall k | 0 <= k < |FriendlyChunks| - 1 ::
      LowerChar(FriendlyChunks[k][|FriendlyChunks[k]| - 1]) != 'p' || LowerChar(FriendlyChunks[k + 1][0]) != 'r'
  {
  }

  lemma FriendlyPairSE()
    ensures forall k | 0 <= k < |FriendlyChunks| ::
      FriendlyChunks[k] != [] &&
      (AbsentInAnyCase(FriendlyChunks[k], 's') || AbsentInAnyCase(FriendlyChunks[k], 'e'))
    ensures forall k | 0 <= k < |FriendlyChunks| - 1 ::
      LowerChar(FriendlyChunks[k][|FriendlyChunks[k]| - 1]) != 's' || LowerChar(FriendlyChunks[k + 1][0]) != 'e'
  {
  }

  lemma FriendlyLacksQuestionMark()
    ensures forall k | 0 <= k < |FriendlyChunks| :: '?' !in FriendlyChunks[k]
  {
  }

  lemma FriendlyLacksGQ()
    ensures forall k | 0 <= k < |FriendlyChunks| :: 'g' !in FriendlyChunks[k] && 'G' !in FriendlyChunks[k]
    ensures forall k | 0 <= k < |FriendlyChunks| :: 'q' !in FriendlyChunks[k] && 'Q' !in FriendlyChunks[k]
  {
  }

  lemma FriendlyVerdict(q: string)
    requires q == Concat(FriendlyChunks)
    ensures DetectMood(q) == Friendly
  {
    FriendlyRawFacts(q);
    FriendlyNoG(q);
    FriendlyNoQ(q);
    FriendlyNoCO(q);
    FriendlyNoAS(q);
    FriendlyNoPR(q);
    FriendlyNoSE(q);
    NoConfusedKeyword(q);
    NoUrgentKeyword(q);
    NoSeriousKeyword(q);
  }

  lemma FriendlyRawFacts(q: string)
    requires q == Concat(FriendlyChunks)
    ensures '?' !in q && !Contains(q, ['o', 't'])
  {
    FriendlyNoQuestionMark(q);
    FriendlyNoOT(q);
  }

  lemma FriendlyNoQuestionMark(q: string)
    requires q == Concat(FriendlyChunks)
    ensures '?' !in q
  {
    FriendlyLacksQuestionMark();
    MissingCharConcat(FriendlyChunks, '?');
  }

  lemma FriendlyNoOT(q: string)
    requires q == Concat(FriendlyChunks)
    ensures !Contains(q, ['o', 't'])
  {
    FriendlyPairOT();
    MissingPairConcat(FriendlyChunks, 'o', 't');
  }

  lemma FriendlyNoG(q: string)
    requires q == Concat(FriendlyChunks)
    ensures 'g' !in Lower(q)
  {
    FriendlyLacksGQ();
    MissingCharConcat(FriendlyChunks, 'g');
    MissingCharConcat(FriendlyChunks, 'G');
    LetterNotInLower(q, 'g');
  }

  lemma FriendlyNoQ(q: string)
    requires q == Concat(FriendlyChunks)
    ensures 'q' !in Lower(q)
  {
    FriendlyLacksGQ();
    MissingCharConcat(FriendlyChunks, 'q');
    MissingCharConcat(FriendlyChunks, 'Q');
    LetterNotInLower(q, 'q');
  }

  lemma FriendlyNoCO(q: string)
    requires q == Concat(FriendlyChunks)
    ensures !Contains(Lower(q), ['c', 'o'])
  {
    FriendlyPairCO();
    MissingPairConcatLower(FriendlyChunks, 'c', 'o');
  }

  lemma FriendlyNoAS(q: string)
    requires q == Concat(FriendlyChunks)
    ensures !Contains(Lower(q), ['a', 's'])
  {
    FriendlyPairAS();
    MissingPairConcatLower(FriendlyChunks, 'a', 's');
  }

  lemma FriendlyNoPR(q: string)
    requires q == Concat(FriendlyChunks)
    ensures !Contains(Lower(q), ['p', 'r'])
  {
    FriendlyPairPR();
    MissingPairConcatLower(FriendlyChunks, 'p', 'r');
  }

  lemma FriendlyNoSE(q: string)
    requires q == Concat(FriendlyChunks)
    ensures !Contains(Lower(q), ['s', 'e'])
  {
    FriendlyPairSE();
    MissingPairConcatLower(FriendlyChunks, 's', 'e');
  }

  /** Rule 1 cannot fire on a message without '?', without "ot" as typed and
      without "co" once lower-cased. */
  lemma NoConfusedKeyword(q: string)
    requires '?' !in q && !Contains(q, ['o', 't']) && !Contains(Lower(q), ['c', 'o'])
    ensures !SaysConfused(q)
  {
    MissingChar(q, "?", 0);
    assert "not sure"[1..3] == ['o', 't'];
    MissingPair(q, "not sure", 1);
    assert "confused"[0..2] == ['c', 'o'];
    MissingPair(Lower(q), "confused", 0);
  }

  /** Rule 2 cannot fire when the lower-cased message lacks 'g', 'q' and "as". */
  lemma NoUrgentKeyword(q: string)
    requires 'g' !in Lower(q) && 'q' !in Lower(q) && !Contains(Lower(q), ['a', 's'])
    ensures !SaysUrgent(q)
  {
    MissingChar(Lower(q), "urgent", 2);
    MissingChar(Lower(q), "quick", 0);
    assert "asap"[0..2] == ['a', 's'];
    MissingPair(Lower(q), "asap", 0);
  }

  /** Rule 3 cannot fire when the lower-cased message lacks "co", "pr" and "se". */
  lemma NoSeriousKeyword(q: string)
    requires !Contains(Lower(q), ['c', 'o']) && !Contains(Lower(q), ['p', 'r']) && !Contains(Lower(q), ['s', 'e'])
    ensures !SaysSerious(q)
  {
    assert "cost"[0..2] == ['c', 'o'];
    MissingPair(Lower(q), "cost", 0);
    assert "price"[0..2] == ['p', 'r'];
    MissingPair(Lower(q), "price", 0);
    assert "serious"[0..2] == ['s', 'e'];
    MissingPair(Lower(q), "serious", 0);
  }

  // ---------------------------------------------------------------------------
  // The example queries under the any-case classifier
  // ---------------------------------------------------------------------------

  /** Without "ot" in the lower-cased message the two classifiers agree. */
  lemma AgreesWithoutLoweredOT(q: string)
    requires !Contains(Lower(q), ['o', 't'])
    ensures DetectMoodAnyCase(q) == DetectMood(q)
  {
    assert "not sure"[1..3] == ['o', 't'];
    MissingPair(Lower(q), "not sure", 1);
    DetectMoodAnyCaseAgrees(q);
  }

  /** All four example queries keep their labels under the any-case classifier. */
  lemma QueriesAnyCase()
    ensures DetectMoodAnyCase(QueryConfused) == Confused
    ensures DetectMoodAnyCase(QueryUrgent) == Urgent
    ensures DetectMoodAnyCase(QuerySerious) == Serious
    ensures DetectMoodAnyCase(QueryFriendly) == Friendly
  {
    ConfusedAnyCaseVerdict(QueryConfused);
    UrgentAnyCaseVerdict(QueryUrgent);
    SeriousAnyCaseVerdict(QuerySerious);
    FriendlyAnyCaseVerdict(QueryFriendly);
  }

  lemma ConfusedAnyCaseVerdict(q: string)
    requires q == Concat(ConfusedChunks)
    ensures DetectMoodAnyCase(q) == Confused
  {
    ContainsChunk(ConfusedChunks, 6);
    assert ConfusedChunks[6] == "?";
    QuestionMarkSurvivesLower(q);
  }

  lemma UrgentAnyCaseVerdict(q: string)
    requires q == Concat(UrgentChunks)
    ensures DetectMoodAnyCase(q) == Urgent
  {
    UrgentPairOTAnyCase();
    MissingPairConcatLower(UrgentChunks, 'o', 't');
    AgreesWithoutLoweredOT(q);
    UrgentVerdict(q);
  }

  lemma UrgentPairOTAnyCase()
    ensures forall k | 0 <= k < |UrgentChunks| ::
      UrgentChunks[k] != [] &&
      (AbsentInAnyCase(UrgentChunks[k], 'o') || AbsentInAnyCase(UrgentChunks[k], 't'))
    ensures forall k | 0 <= k < |UrgentChunks| - 1 ::
      LowerChar(UrgentChunks[k][|UrgentChunks[k]| - 1]) != 'o' || LowerChar(UrgentChunks[k + 1][0]) != 't'
  {
  }

  lemma SeriousAnyCaseVerdict(q: string)
    requires q == Concat(SeriousChunks)
    ensures DetectMoodAnyCase(q) == Serious
  {
    SeriousLacksQuestionMarkAndU(q);
    LetterNotInLower(q, 'u');
    MissingChar(Lower(q), "not sure", 5);
    DetectMoodAnyCaseAgrees(q);
    SeriousVerdict(q);
  }

  lemma FriendlyAnyCaseVerdict(q: string)
    requires q == Concat(FriendlyChunks)
    ensures DetectMoodAnyCase(q) == Friendly
  {
    FriendlyPairOTAnyCase();
    MissingPairConcatLower(FriendlyChunks, 'o', 't');
    AgreesWithoutLoweredOT(q);
    FriendlyVerdict(q);
  }

  lemma FriendlyPairOTAnyCase()
    ensures forall k | 0 <= k < |FriendlyChunks| ::
      FriendlyChunks[k] != [] &&
      (AbsentInAnyCase(FriendlyChunks[k], 'o') || AbsentInAnyCase(FriendlyChunks[k], 't'))
    ensures forall k | 0 <= k < |FriendlyChunks| - 1 ::
      LowerChar(FriendlyChunks[k][|FriendlyChunks[k]| - 1]) != 'o' || LowerChar(FriendlyChunks[k + 1][0]) != 't'
  {
  }
}
