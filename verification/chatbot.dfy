/** The chat assistant screen: an ordered message log, the text-input buffer
    and the "bot is typing" flag, a keyword classifier that picks the
    assistant's reply, and like/dislike feedback on messages. */
module Chatbot {
  import opened TextOps
  import opened Wrappers

  // ---------------------------------------------------------------------
  // Messages
  // ---------------------------------------------------------------------

  datatype Sender = User | Bot

  /** A message of the log. The source's seed and user messages carry no
      `liked`/`disliked` keys; an absent key reads as false everywhere the
      source looks at it, so it is `false` here. */
  datatype Message = Message(id: string, text: string, sender: Sender, liked: bool, disliked: bool)

  /** At most one of the two feedback flags is set. */
  predicate Exclusive(m: Message) {
    !(m.liked && m.disliked)
  }

  predicate AllExclusive(msgs: seq<Message>) {
    forall i :: 0 <= i < |msgs| ==> Exclusive(msgs[i])
  }

  const SeedText := "Hello! How can I assist you with food donations today?"

  /** The greeting the log starts with. */
  const SeedMessage := Message("1", SeedText, Bot, false, false)

  // ---------------------------------------------------------------------
  // Reply selection
  // ---------------------------------------------------------------------

  /** The eight replies the assistant can give. */
  datatype Topic = Donate | History | Greeting | Nearby | Volunteer | Hours | Accepted | Fallback

  /** A keyword rule: the rule fires when any keyword occurs in the
      lower-cased input. */
  datatype Rule = Rule(keywords: seq<string>, topic: Topic)

  /** The rules in the order the reply chain tries them. */
  const Rules: seq<Rule> := [
    Rule(["donate"], Donate),
    Rule(["history"], History),
    Rule(["hello", "hi"], Greeting),
    Rule(["nearby"], Nearby),
    Rule(["volunteer"], Volunteer),
    Rule(["hours", "time"], Hours),
    Rule(["accepted", "accept"], Accepted)
  ]

  predicate Fires(lower: string, rule: Rule) {
    exists j :: 0 <= j < |rule.keywords| && Includes(lower, rule.keywords[j])
  }

  /** Reference reading of a prioritised rule table: the topic of the first
      rule that fires, or the fallback when none does. */
  function FirstMatch(lower: string, rules: seq<Rule>): Topic {
    if rules == [] then Fallback
    else if Fires(lower, rules[0]) then rules[0].topic
    else FirstMatch(lower, rules[1..])
  }

  /** The reply chain of the timer callback, on the lower-cased input. */
  function Classify(lower: string): Topic {
    if Includes(lower, "donate") then Donate
    else if Includes(lower, "history") then History
    else if Includes(lower, "hello") || Includes(lower, "hi") then Greeting
    else if Includes(lower, "nearby") then Nearby
    else if Includes(lower, "volunteer") then Volunteer
    else if Includes(lower, "hours") || Includes(lower, "time") then Hours
    else if Includes(lower, "accepted") || Includes(lower, "accept") then Accepted
    else Fallback
  }

  // The reply table.
  const DonateReply := "To donate food, please tap on the \"Donate Food\" button on the home page. It will guide you through the process."
  const HistoryReply := "You can check your past donations and track your impact in the \"My History\" section."
  const GreetingReply := "Hello there! How can I assist you?"
  const NearbyReply := "To find nearby food donation opportunities, please use the \"Explore Nearby\" feature on the home page."
  const VolunteerReply := "We appreciate your interest in volunteering! Please visit the \"Volunteer\" section to see available opportunities."
  const HoursReply := "Our donation centers are typically open from 9 AM to 6 PM, Monday through Saturday. Please check specific locations for exact hours."
  const AcceptedReply := "We accept non-perishable food items like canned goods, rice, pasta, and sealed packaged foods. We cannot accept expired items or homemade food."
  const FallbackReply := "I am an assistant to help you with the app. You can ask me about donating food, exploring nearby options, or your donation history."

  function ResponseText(t: Topic): string {
    match t
    case Donate => DonateReply
    case History => HistoryReply
    case Greeting => GreetingReply
    case Nearby => NearbyReply
    case Volunteer => VolunteerReply
    case Hours => HoursReply
    case Accepted => AcceptedReply
    case Fallback => FallbackReply
  }

  /** The assistant's answer to the (trimmed) user text. */
  function Reply(input: string): string {
    ResponseText(Classify(ToLower(input)))
  }

  /** The hand-written chain is the first-match reading of the rule table. */
  lemma ClassifyIsFirstMatch(lower: string)
    ensures Classify(lower) == FirstMatch(lower, Rules)
  {
    var r := Rules;
    FiresOne(lower, r[0], "donate");
    FiresOne(lower, r[1], "history");
    FiresTwo(lower, r[2], "hello", "hi");
    FiresOne(lower, r[3], "nearby");
    FiresOne(lower, r[4], "volunteer");
    FiresTwo(lower, r[5], "hours", "time");
    FiresTwo(lower, r[6], "accepted", "accept");
    assert FirstMatch(lower, r[6..]) == if Fires(lower, r[6]) then Accepted else FirstMatch(lower, r[7..]);
    assert FirstMatch(lower, r[5..]) == if Fires(lower, r[5]) then Hours else FirstMatch(lower, r[6..]);
    assert FirstMatch(lower, r[4..]) == if Fires(lower, r[4]) then Volunteer else FirstMatch(lower, r[5..]);
    assert FirstMatch(lower, r[3..]) == if Fires(lower, r[3]) then Nearby else FirstMatch(lower, r[4..]);
    assert FirstMatch(lower, r[2..]) == if Fires(lower, r[2]) then Greeting else FirstMatch(lower, r[3..]);
    assert FirstMatch(lower, r[1..]) == if Fires(lower, r[1]) then History else FirstMatch(lower, r[2..]);
    assert FirstMatch(lower, r) == if Fires(lower, r[0]) then Donate else FirstMatch(lower, r[1..]);
  }

  lemma FiresOne(lower: string, rule: Rule, a: string)
    requires rule.keywords == [a]
    ensures Fires(lower, rule) <==> Includes(lower, a)
  {
    if Includes(lower, a) {
      assert Includes(lower, rule.keywords[0]);
    }
  }

  lemma FiresTwo(lower: string, rule: Rule, a: string, b: string)
    requires rule.keywords == [a, b]
    ensures Fires(lower, rule) <==> Includes(lower, a) || Includes(lower, b)
  {
    if Includes(lower, a) {
      assert Includes(lower, rule.keywords[0]);
    }
    if Includes(lower, b) {
      assert Includes(lower, rule.keywords[1]);
    }
  }

  /** Topics of a table: distinct, and none of them the fallback. */
  predicate DistinctTopics(rules: seq<Rule>) {
    (forall k :: 0 <= k < |rules| ==> rules[k].topic != Fallback)
    && (forall k, l :: 0 <= k < l < |rules| ==> rules[k].topic != rules[l].topic)
  }

  /** The first-match reading gives the fallback or the topic of a rule that
      fires. */
  lemma {:induction false} FirstMatchIsFiredTopic(lower: string, rules: seq<Rule>)
    ensures FirstMatch(lower, rules) == Fallback
            || exists k :: 0 <= k < |rules| && Fires(lower, rules[k]) && FirstMatch(lower, rules) == rules[k].topic
  {
    if rules != [] && !Fires(lower, rules[0]) {
      FirstMatchIsFiredTopic(lower, rules[1..]);
      if FirstMatch(lower, rules) != Fallback {
        var k :| 0 <= k < |rules[1..]| && Fires(lower, rules[1..][k]) && FirstMatch(lower, rules[1..]) == rules[1..][k].topic;
        assert rules[1..][k] == rules[k + 1];
      }
    } else if rules != [] {
      assert Fires(lower, rules[0]);
    }
  }

  /** First match wins: rule `k` decides exactly when it fires and no
      earlier rule does. */
  lemma {:induction false} FirstMatchPicksRule(lower: string, rules: seq<Rule>, k: nat)
    requires DistinctTopics(rules) && k < |rules|
    ensures FirstMatch(lower, rules) == rules[k].topic
            <==> Fires(lower, rules[k]) && forall j :: 0 <= j < k ==> !Fires(lower, rules[j])
  {
    if !Fires(lower, rules[0]) {
      var rest := rules[1..];
      assert forall j :: 0 <= j < |rest| ==> rest[j] == rules[j + 1];
      assert DistinctTopics(rest);
      if k > 0 {
        FirstMatchPicksRule(lower, rest, k - 1);
        assert forall j :: 0 < j < k ==> rest[j - 1] == rules[j];
      } else {
        FirstMatchIsFiredTopic(lower, rest);
      }
    }
  }

  /** The chain is total: the fallback is given exactly when no rule fires. */
  lemma {:induction false} FirstMatchFallback(lower: string, rules: seq<Rule>)
    requires DistinctTopics(rules)
    ensures FirstMatch(lower, rules) == Fallback <==> forall k :: 0 <= k < |rules| ==> !Fires(lower, rules[k])
  {
    if rules != [] && !Fires(lower, rules[0]) {
      FirstMatchFallback(lower, rules[1..]);
      assert forall k :: 0 < k < |rules| ==> rules[1..][k - 1] == rules[k];
    }
  }

  /** The assistant's table has seven distinct topics, none the fallback. */
  lemma RulesHaveDistinctTopics()
    ensures DistinctTopics(Rules)
  {
    var r := Rules;
    assert r[0].topic == Donate && r[1].topic == History && r[2].topic == Greeting && r[3].topic == Nearby;
    assert r[4].topic == Volunteer && r[5].topic == Hours && r[6].topic == Accepted;
  }

  /** The assistant's reply follows the rule table top to bottom: rule `k`
      chooses the reply exactly when it fires and no earlier rule does. */
  lemma ReplyFollowsRules(input: string, k: nat)
    requires k < |Rules|
    ensures Classify(ToLower(input)) == Rules[k].topic
            <==> Fires(ToLower(input), Rules[k]) && forall j :: 0 <= j < k ==> !Fires(ToLower(input), Rules[j])
  {
    var lower := ToLower(input);
    ClassifyIsFirstMatch(lower);
    RulesHaveDistinctTopics();
    FirstMatchPicksRule(lower, Rules, k);
  }

  /** The chain is total: every input gets a reply, and the fallback exactly
      when no rule fires. */
  lemma ReplyFallback(input: string)
    ensures Classify(ToLower(input)) == Fallback
            <==> forall j :: 0 <= j < |Rules| ==> !Fires(ToLower(input), Rules[j])
  {
    var lower := ToLower(input);
    ClassifyIsFirstMatch(lower);
    RulesHaveDistinctTopics();
    FirstMatchFallback(lower, Rules);
  }

  /** The eight replies are pairwise different, so a reply tells which rule
      chose it. */
  lemma ResponseTextInjective(a: Topic, b: Topic)
    ensures ResponseText(a) == ResponseText(b) ==> a == b
  {
    assert |DonateReply| == 111;
    assert |HistoryReply| == 84;
    assert |GreetingReply| == 34;
    assert |NearbyReply| == 101;
    assert |VolunteerReply| == 113;
    assert |HoursReply| == 132;
    assert |AcceptedReply| == 143;
    assert |FallbackReply| == 131;
    if ResponseText(a) == ResponseText(b) {
      assert |ResponseText(a)| == |ResponseText(b)|;
    }
  }

  /** Matching ignores case: upper-casing letters of the input does not
      change the reply. */
  lemma ReplyIgnoresCase(input: string)
    ensures Reply(ToLower(input)) == Reply(input)
  {
    ToLowerIdempotent(input);
  }

  /** The "accept" keyword subsumes "accepted": the rule fires exactly when
      "accept" occurs. */
  lemma AcceptedRuleIsAccept(lower: string)
    ensures Fires(lower, Rules[6]) <==> Includes(lower, "accept")
  {
    FiresTwo(lower, Rules[6], "accepted", "accept");
    IncludesPart(lower, "", "accept", "ed");
    assert "" + "accept" + "ed" == "accepted";
  }

  // ---------------------------------------------------------------------
  // Replies to the suggestion chips and to sample inputs
  // ---------------------------------------------------------------------

  /** The greeting is chosen exactly when neither of the two earlier
      keywords occurs and "hello" or "hi" does. */
  lemma GreetingWhen(lower: string)
    ensures Classify(lower) == Greeting
            <==> !Includes(lower, "donate") && !Includes(lower, "history")
                 && (Includes(lower, "hello") || Includes(lower, "hi"))
  {
  }

  /** The fallback is chosen exactly when none of the eleven keywords
      occurs. */
  lemma FallbackWhen(lower: string)
    ensures Classify(lower) == Fallback
            <==> !Includes(lower, "donate") && !Includes(lower, "history") && !Includes(lower, "hello")
                 && !Includes(lower, "hi") && !Includes(lower, "nearby") && !Includes(lower, "volunteer")
                 && !Includes(lower, "hours") && !Includes(lower, "time") && !Includes(lower, "accepted")
                 && !Includes(lower, "accept")
  {
  }

  lemma DonateChipHoldsDonate(s: string)
    requires s == "how to donate food?"
    ensures Includes(s, "donate")
  {
    assert s == "how to " + "donate" + " food?";
    IncludesWithin("how to ", "donate", " food?");
  }

  lemma LowerDonateChip(q: string)
    requires q == "How to donate food?"
    ensures ToLower(q) == "how to donate food?"
  {
    assert q[0] == 'H';
    assert ToLower(q)[0] == 'h';
  }

  /** The chip "How to donate food?", typed and sent, gets the donation
      instructions. */
  lemma ReplyToDonateChip(q: string)
    requires q == "How to donate food?"
    ensures Reply(q) == DonateReply
  {
    LowerDonateChip(q);
    DonateChipHoldsDonate(ToLower(q));
  }

  lemma GreetingFacts(s: string)
    requires s == "hi there"
    ensures !Includes(s, "donate") && !Includes(s, "history") && Includes(s, "hi")
  {
    ExcludesChar(s, "donate", 'd');
    ExcludesChar(s, "history", 'y');
    assert s == "" + "hi" + " there";
    IncludesWithin("", "hi", " there");
  }

  lemma ReplyToGreeting(q: string)
    requires q == "hi there"
    ensures Reply(q) == GreetingReply
  {
    assert ToLower(q) == q;
    GreetingFacts(q);
    GreetingWhen(q);
  }

  lemma WordHoldingHiLacksEarlierKeywords(s: string)
    requires s == "is this accepted?"
    ensures !Includes(s, "donate") && !Includes(s, "history")
  {
    assert Lacks(s, 'n') && Lacks(s, 'y');
    ExcludesChar(s, "donate", 'n');
    ExcludesChar(s, "history", 'y');
  }

  lemma WordHoldingHiHoldsHi(s: string)
    requires s == "is this accepted?"
    ensures Includes(s, "hi")
  {
    assert s == "is t" + "hi" + "s accepted?";
    IncludesWithin("is t", "hi", "s accepted?");
  }

  lemma LowerWordHoldingHi(q: string)
    requires q == "Is this accepted?"
    ensures ToLower(q) == "is this accepted?"
  {
    assert q[0] == 'I';
    assert ToLower(q)[0] == 'i';
  }

  /** "hi" is tested as a substring, so any word holding it, such as
      "this", selects the greeting, even ahead of the accepted-food rule. */
  lemma ReplyToWordHoldingHi(q: string)
    requires q == "Is this accepted?"
    ensures Reply(q) == GreetingReply
  {
    LowerWordHoldingHi(q);
    WordHoldingHiLacksEarlierKeywords(ToLower(q));
    WordHoldingHiHoldsHi(ToLower(q));
    GreetingWhen(ToLower(q));
  }

  /** The volunteering reply is chosen exactly when no earlier keyword
      occurs and "volunteer" does. */
  lemma VolunteerWhen(lower: string)
    ensures Classify(lower) == Volunteer
            <==> !Includes(lower, "donate") && !Includes(lower, "history") && !Includes(lower, "hello")
                 && !Includes(lower, "hi") && !Includes(lower, "nearby") && Includes(lower, "volunteer")
  {
  }

  /** The nearby reply is chosen exactly when no earlier keyword occurs and
      "nearby" does. */
  lemma NearbyWhen(lower: string)
    ensures Classify(lower) == Nearby
            <==> !Includes(lower, "donate") && !Includes(lower, "history") && !Includes(lower, "hello")
                 && !Includes(lower, "hi") && Includes(lower, "nearby")
  {
  }

  /** The opening-hours reply is chosen exactly when no earlier keyword
      occurs and "hours" or "time" does. */
  lemma HoursWhen(lower: string)
    ensures Classify(lower) == Hours
            <==> !Includes(lower, "donate") && !Includes(lower, "history") && !Includes(lower, "hello")
                 && !Includes(lower, "hi") && !Includes(lower, "nearby") && !Includes(lower, "volunteer")
                 && (Includes(lower, "hours") || Includes(lower, "time"))
  {
  }

  /** The accepted-food reply is chosen exactly when no earlier keyword
      occurs and "accepted" or "accept" does. */
  lemma AcceptedWhen(lower: string)
    ensures Classify(lower) == Accepted
            <==> !Includes(lower, "donate") && !Includes(lower, "history") && !Includes(lower, "hello")
                 && !Includes(lower, "hi") && !Includes(lower, "nearby") && !Includes(lower, "volunteer")
                 && !Includes(lower, "hours") && !Includes(lower, "time")
                 && (Includes(lower, "accepted") || Includes(lower, "accept"))
  {
  }

  /** Text with no "h" followed by "i" does not hold "hi". */
  lemma NoHi(s: string)
    requires forall i :: 0 <= i < |s| - 1 ==> !(s[i] == 'h' && s[i + 1] == 'i')
    ensures !Includes(s, "hi")
  {
    ExcludesPair(s, 'h', 'i');
  }

  // "What food is accepted?"

  lemma LowerAcceptedChip(q: string)
    requires q == "What food is accepted?"
    ensures ToLower(q) == "what food is accepted?"
  {
    assert q[0] == 'W';
    assert ToLower(q)[0] == 'w';
  }

  lemma AcceptedChipLetters(s: string)
    requires s == "what food is accepted?"
    ensures Lacks(s, 'n') && Lacks(s, 'y') && Lacks(s, 'l') && Lacks(s, 'v') && Lacks(s, 'u') && Lacks(s, 'm')
    ensures forall i :: 0 <= i < |s| - 1 ==> !(s[i] == 'h' && s[i + 1] == 'i')
  {
  }

  lemma AcceptedChipHoldsAccepted(s: string)
    requires s == "what food is accepted?"
    ensures Includes(s, "accepted")
  {
    assert s == "what food is " + "accepted" + "?";
    IncludesWithin("what food is ", "accepted", "?");
  }

  lemma AcceptedChipMisses(s: string)
    requires Lacks(s, 'n') && Lacks(s, 'y') && Lacks(s, 'l') && Lacks(s, 'v') && Lacks(s, 'u') && Lacks(s, 'm')
    requires forall i :: 0 <= i < |s| - 1 ==> !(s[i] == 'h' && s[i + 1] == 'i')
    ensures !Includes(s, "donate") && !Includes(s, "history") && !Includes(s, "hello") && !Includes(s, "hi")
    ensures !Includes(s, "nearby") && !Includes(s, "volunteer") && !Includes(s, "hours") && !Includes(s, "time")
  {
    ExcludesChar(s, "donate", 'n');
    ExcludesChar(s, "history", 'y');
    ExcludesChar(s, "hello", 'l');
    NoHi(s);
    ExcludesChar(s, "nearby", 'n');
    ExcludesChar(s, "volunteer", 'v');
    ExcludesChar(s, "hours", 'u');
    ExcludesChar(s, "time", 'm');
  }

  /** The chip "What food is accepted?", typed and sent, gets the
      accepted-food reply. */
  lemma ReplyToAcceptedChip(q: string)
    requires q == "What food is accepted?"
    ensures Reply(q) == AcceptedReply
  {
    var s := ToLower(q);
    LowerAcceptedChip(q);
    AcceptedChipLetters(s);
    AcceptedChipHoldsAccepted(s);
    AcceptedChipMisses(s);
    AcceptedWhen(s);
  }

  // "Find a nearby donation center?"

  lemma LowerNearbyChip(q: string)
    requires q == "Find a nearby donation center?"
    ensures ToLower(q) == "find a nearby donation center?"
  {
    assert q[0] == 'F';
    assert ToLower(q)[0] == 'f';
  }

  lemma NearbyChipLetters(s: string)
    requires s == "find a nearby donation center?"
    ensures Lacks(s, 'h')
    ensures forall i :: 0 <= i < |s| - 2 ==> !(s[i] == 'a' && s[i + 1] == 't' && s[i + 2] == 'e')
  {
  }

  lemma NearbyChipHoldsNearby(s: string)
    requires s == "find a nearby donation center?"
    ensures Includes(s, "nearby")
  {
    assert s == "find a " + "nearby" + " donation center?";
    IncludesWithin("find a ", "nearby", " donation center?");
  }

  /** "donation" does not hold "donate": text without "ate" cannot. */
  lemma NoAteNoDonate(s: string)
    requires forall i :: 0 <= i < |s| - 2 ==> !(s[i] == 'a' && s[i + 1] == 't' && s[i + 2] == 'e')
    ensures !Includes(s, "donate")
  {
    ExcludesTriple(s, 'a', 't', 'e');
    IncludesPart(s, "don", "ate", "");
    assert "don" + "ate" + "" == "donate";
  }

  lemma NearbyChipMisses(s: string)
    requires Lacks(s, 'h')
    requires forall i :: 0 <= i < |s| - 2 ==> !(s[i] == 'a' && s[i + 1] == 't' && s[i + 2] == 'e')
    ensures !Includes(s, "donate") && !Includes(s, "history") && !Includes(s, "hello") && !Includes(s, "hi")
  {
    NoAteNoDonate(s);
    ExcludesChar(s, "history", 'h');
    ExcludesChar(s, "hello", 'h');
    ExcludesChar(s, "hi", 'h');
  }

  /** The chip "Find a nearby donation center?", typed and sent, gets the
      nearby reply: "donation" does not hold "donate". */
  lemma ReplyToNearbyChip(q: string)
    requires q == "Find a nearby donation center?"
    ensures Reply(q) == NearbyReply
  {
    var s := ToLower(q);
    LowerNearbyChip(q);
    NearbyChipLetters(s);
    NearbyChipHoldsNearby(s);
    NearbyChipMisses(s);
    NearbyWhen(s);
  }

  // "How to volunteer?"

  lemma LowerVolunteerChip(q: string)
    requires q == "How to volunteer?"
    ensures ToLower(q) == "how to volunteer?"
  {
    assert q[0] == 'H';
    assert ToLower(q)[0] == 'h';
  }

  lemma VolunteerChipLetters(s: string)
    requires s == "how to volunteer?"
    ensures Lacks(s, 'd') && Lacks(s, 'y')
    ensures forall i :: 0 <= i < |s| - 1 ==> !(s[i] == 'h' && s[i + 1] == 'e')
    ensures forall i :: 0 <= i < |s| - 1 ==> !(s[i] == 'h' && s[i + 1] == 'i')
  {
  }

  lemma VolunteerChipHoldsVolunteer(s: string)
    requires s == "how to volunteer?"
    ensures Includes(s, "volunteer")
  {
    assert s == "how to " + "volunteer" + "?";
    IncludesWithin("how to ", "volunteer", "?");
  }

  /** Text holding "hello" holds both "he" and "ll". */
  lemma HelloHoldsHeAndLl(s: string)
    ensures Includes(s, "hello") ==> Includes(s, "he") && Includes(s, "ll")
  {
    IncludesPart(s, "", "he", "llo");
    assert "" + "he" + "llo" == "hello";
    IncludesPart(s, "he", "ll", "o");
    assert "he" + "ll" + "o" == "hello";
  }

  lemma VolunteerChipMisses(s: string)
    requires Lacks(s, 'd') && Lacks(s, 'y')
    requires forall i :: 0 <= i < |s| - 1 ==> !(s[i] == 'h' && s[i + 1] == 'e')
    requires forall i :: 0 <= i < |s| - 1 ==> !(s[i] == 'h' && s[i + 1] == 'i')
    ensures !Includes(s, "donate") && !Includes(s, "history") && !Includes(s, "hello") && !Includes(s, "hi")
    ensures !Includes(s, "nearby")
  {
    ExcludesChar(s, "donate", 'd');
    ExcludesChar(s, "history", 'y');
    ExcludesPair(s, 'h', 'e');
    HelloHoldsHeAndLl(s);
    NoHi(s);
    ExcludesChar(s, "nearby", 'y');
  }

  /** The chip "How to volunteer?", typed and sent, gets the volunteering
      reply. */
  lemma ReplyToVolunteerChip(q: string)
    requires q == "How to volunteer?"
    ensures Reply(q) == VolunteerReply
  {
    var s := ToLower(q);
    LowerVolunteerChip(q);
    VolunteerChipLetters(s);
    VolunteerChipHoldsVolunteer(s);
    VolunteerChipMisses(s);
    VolunteerWhen(s);
  }

  // "What are the operational hours?"

  lemma LowerHoursChip(q: string)
    requires q == "What are the operational hours?"
    ensures ToLower(q) == "what are the operational hours?"
  {
    assert q[0] == 'W';
    assert ToLower(q)[0] == 'w';
  }

  lemma HoursChipLetters(s: string)
    requires s == "what are the operational hours?"
    ensures Lacks(s, 'd') && Lacks(s, 'y') && Lacks(s, 'v')
    ensures forall i :: 0 <= i < |s| - 1 ==> !(s[i] == 'l' && s[i + 1] == 'l')
    ensures forall i :: 0 <= i < |s| - 1 ==> !(s[i] == 'h' && s[i + 1] == 'i')
  {
  }

  lemma HoursChipHoldsHours(s: string)
    requires s == "what are the operational hours?"
    ensures Includes(s, "hours")
  {
    assert s == "what are the operational " + "hours" + "?";
    IncludesWithin("what are the operational ", "hours", "?");
  }

  lemma HoursChipMisses(s: string)
    requires Lacks(s, 'd') && Lacks(s, 'y') && Lacks(s, 'v')
    requires forall i :: 0 <= i < |s| - 1 ==> !(s[i] == 'l' && s[i + 1] == 'l')
    requires forall i :: 0 <= i < |s| - 1 ==> !(s[i] == 'h' && s[i + 1] == 'i')
    ensures !Includes(s, "donate") && !Includes(s, "history") && !Includes(s, "hello") && !Includes(s, "hi")
    ensures !Includes(s, "nearby") && !Includes(s, "volunteer")
  {
    ExcludesChar(s, "donate", 'd');
    ExcludesChar(s, "history", 'y');
    ExcludesPair(s, 'l', 'l');
    HelloHoldsHeAndLl(s);
    NoHi(s);
    ExcludesChar(s, "nearby", 'y');
    ExcludesChar(s, "volunteer", 'v');
  }

  /** The chip "What are the operational hours?", typed and sent, gets the
      opening-hours reply. */
  lemma ReplyToHoursChip(q: string)
    requires q == "What are the operational hours?"
    ensures Reply(q) == HoursReply
  {
    var s := ToLower(q);
    LowerHoursChip(q);
    HoursChipLetters(s);
    HoursChipHoldsHours(s);
    HoursChipMisses(s);
    HoursWhen(s);
  }

  /** Text without the letters t, l, y, v and u, and without "h" followed
      by "i", holds none of the eleven keywords. */
  lemma MissesEveryKeyword(s: string)
    requires Lacks(s, 't') && Lacks(s, 'l') && Lacks(s, 'y') && Lacks(s, 'v') && Lacks(s, 'u')
    requires forall i :: 0 <= i < |s| - 1 ==> !(s[i] == 'h' && s[i + 1] == 'i')
    ensures !Includes(s, "donate") && !Includes(s, "history") && !Includes(s, "hello") && !Includes(s, "hi")
    ensures !Includes(s, "nearby") && !Includes(s, "volunteer") && !Includes(s, "hours")
    ensures !Includes(s, "time") && !Includes(s, "accepted") && !Includes(s, "accept")
  {
    ExcludesChar(s, "donate", 't');
    ExcludesChar(s, "history", 't');
    ExcludesChar(s, "hello", 'l');
    ExcludesPair(s, 'h', 'i');
    ExcludesChar(s, "nearby", 'y');
    ExcludesChar(s, "volunteer", 'v');
    ExcludesChar(s, "hours", 'u');
    ExcludesChar(s, "time", 't');
    ExcludesChar(s, "accepted", 't');
    ExcludesChar(s, "accept", 't');
  }

  lemma GibberishLetters(s: string)
    requires s == "random gibberish"
    ensures Lacks(s, 't') && Lacks(s, 'l') && Lacks(s, 'y') && Lacks(s, 'v') && Lacks(s, 'u')
    ensures forall i :: 0 <= i < |s| - 1 ==> !(s[i] == 'h' && s[i + 1] == 'i')
  {
  }

  /** Text matching no keyword gets the fallback reply. */
  lemma ReplyToUnknownText(q: string)
    requires q == "random gibberish"
    ensures Reply(q) == FallbackReply
  {
    assert ToLower(q) == q;
    GibberishLetters(q);
    MissesEveryKeyword(q);
    FallbackWhen(q);
  }

  // ---------------------------------------------------------------------
  // Feedback
  // ---------------------------------------------------------------------

  /** The callback of `map` in the feedback handler. */
  function ApplyFeedback(m: Message, id: string, kind: string): Message {
    if m.id == id then
      if kind == "like" then m.(liked := !m.liked, disliked := false)
      else if kind == "dislike" then m.(disliked := !m.disliked, liked := false)
      else m
    else m
  }

  /** The feedback handler's copy of the log: same length and order, every
      message keeps its id, text and sender, messages with another id are
      untouched, and the target's flag is flipped while the other is cleared.
      An unknown kind leaves the log as it was. */
  function Feedback(msgs: seq<Message>, id: string, kind: string): (r: seq<Message>)
    ensures |r| == |msgs|
    ensures forall i :: 0 <= i < |msgs| ==>
              r[i].id == msgs[i].id && r[i].text == msgs[i].text && r[i].sender == msgs[i].sender
    ensures forall i :: 0 <= i < |msgs| && msgs[i].id != id ==> r[i] == msgs[i]
    ensures forall i :: 0 <= i < |msgs| && msgs[i].id == id && kind == "like" ==>
              r[i].liked == !msgs[i].liked && !r[i].disliked
    ensures forall i :: 0 <= i < |msgs| && msgs[i].id == id && kind == "dislike" ==>
              r[i].disliked == !msgs[i].disliked && !r[i].liked
    ensures kind != "like" && kind != "dislike" ==> r == msgs
  {
    if msgs == [] then []
    else [ApplyFeedback(msgs[0], id, kind)] + Feedback(msgs[1..], id, kind)
  }

  /** Feedback never leaves both flags set on any message. */
  lemma FeedbackKeepsExclusive(msgs: seq<Message>, id: string, kind: string)
    requires AllExclusive(msgs)
    ensures AllExclusive(Feedback(msgs, id, kind))
  {
  }

  /** Feedback on an id no message carries leaves the log identical. */
  lemma FeedbackUnknownId(msgs: seq<Message>, id: string, kind: string)
    requires forall i :: 0 <= i < |msgs| ==> msgs[i].id != id
    ensures Feedback(msgs, id, kind) == msgs
  {
  }

  /** Liking twice restores `liked` and leaves `disliked` cleared on the
      target; when the target was not disliked the log is back as it was. */
  lemma LikeTwice(msgs: seq<Message>, id: string)
    ensures var r := Feedback(Feedback(msgs, id, "like"), id, "like");
            |r| == |msgs|
            && (forall i :: 0 <= i < |msgs| ==> r[i].liked == msgs[i].liked)
            && (forall i :: 0 <= i < |msgs| && msgs[i].id == id ==> !r[i].disliked)
            && (forall i :: 0 <= i < |msgs| && msgs[i].id != id ==> r[i] == msgs[i])
    ensures (forall i :: 0 <= i < |msgs| && msgs[i].id == id ==> !msgs[i].disliked)
            ==> Feedback(Feedback(msgs, id, "like"), id, "like") == msgs
  {
  }

  // ---------------------------------------------------------------------
  // The screen's state
  // ---------------------------------------------------------------------

  class ChatbotAssistant {
    var messages: seq<Message>
    var inputText: string
    var isBotTyping: bool

    /** The log starts with the seed greeting, which is never removed, and
        no message has both feedback flags set. */
    ghost predicate Valid()
      reads this
    {
      |messages| >= 1 && messages[0].id == SeedMessage.id && messages[0].text == SeedMessage.text
      && messages[0].sender == Bot && AllExclusive(messages)
    }

    constructor ()
      ensures Valid()
      ensures messages == [SeedMessage] && inputText == "" && !isBotTyping
    {
      messages := [SeedMessage];
      inputText := "";
      isBotTyping := false;
    }

    /** The text field's change handler. */
    method SetInputText(text: string)
      modifies this
      ensures inputText == text && messages == old(messages) && isBotTyping == old(isBotTyping)
    {
      inputText := text;
    }

    /** The synchronous half of sending: a blank input changes nothing;
        otherwise the trimmed text is appended as a user message stamped
        with the clock reading `now`, the input is cleared and the typing
        flag is raised. The returned text is what the scheduled reply
        callback captured. */
    method SendMessage(now: nat) returns (scheduled: Option<string>)
      requires Valid()
      modifies this
      ensures Valid()
      ensures AllSpace(old(inputText)) ==>
                scheduled == None && messages == old(messages)
                && inputText == old(inputText) && isBotTyping == old(isBotTyping)
      ensures !AllSpace(old(inputText)) ==>
                scheduled == Some(Trim(old(inputText)))
                && messages == old(messages) + [Message(NatToString(now), Trim(old(inputText)), User, false, false)]
                && inputText == "" && isBotTyping
    {
      var trimmed := Trim(inputText);
      TrimEmptyIff(inputText);
      if trimmed == "" {
        return None;
      }
      messages := messages + [Message(NatToString(now), trimmed, User, false, false)];
      inputText := "";
      isBotTyping := true;
      scheduled := Some(trimmed);
    }

    /** The deferred half: the reply callback fires at clock reading `now`,
        lowers the typing flag and appends exactly one bot message, with
        both feedback flags clear, after every existing message. */
    method DeliverReply(captured: string, now: nat)
      requires Valid()
      modifies this
      ensures Valid()
      ensures messages == old(messages) + [Message(NatToString(now + 1), Reply(captured), Bot, false, false)]
      ensures !isBotTyping && inputText == old(inputText)
    {
      isBotTyping := false;
      messages := messages + [Message(NatToString(now + 1), Reply(captured), Bot, false, false)];
    }

    /** Like/dislike on the message(s) carrying `id`. */
    method HandleFeedback(id: string, kind: string)
      requires Valid()
      modifies this
      ensures Valid()
      ensures messages == Feedback(old(messages), id, kind)
      ensures inputText == old(inputText) && isBotTyping == old(isBotTyping)
    {
      FeedbackKeepsExclusive(messages, id, kind);
      messages := Feedback(messages, id, kind);
    }

    /** A suggestion chip as written: the chip's text is queued into the
        input, but the send reads the input as it was before the press.
        The queued writes land in order, the chip's text and then the
        send's clearing, so the input ends up empty when something was
        sent and holding the chip's text otherwise. */
    method HandleQueryPress(query: string, now: nat) returns (scheduled: Option<string>)
      requires Valid()
      modifies this
      ensures Valid()
      ensures AllSpace(old(inputText)) ==>
                scheduled == None && messages == old(messages)
                && inputText == query && isBotTyping == old(isBotTyping)
      ensures !AllSpace(old(inputText)) ==>
                scheduled == Some(Trim(old(inputText)))
                && messages == old(messages) + [Message(NatToString(now), Trim(old(inputText)), User, false, false)]
                && inputText == "" && isBotTyping
    {
      scheduled := SendMessage(now);
      if scheduled.None? {
        inputText := query;
      }
    }

    /** A suggestion chip as evidently intended: it sends the chip's own
        text, exactly as typing it and pressing send would. */
    method SendQuery(query: string, now: nat) returns (scheduled: Option<string>)
      requires Valid()
      modifies this
      ensures Valid()
      ensures AllSpace(query) ==>
                scheduled == None && messages == old(messages)
                && inputText == query && isBotTyping == old(isBotTyping)
      ensures !AllSpace(query) ==>
                scheduled == Some(Trim(query))
                && messages == old(messages) + [Message(NatToString(now), Trim(query), User, false, false)]
                && inputText == "" && isBotTyping
    {
      SetInputText(query);
      scheduled := SendMessage(now);
    }
  }
  // ---------------------------------------------------------------------
  // Whole interactions
  // ---------------------------------------------------------------------

  /** A fresh screen, a typed non-blank text sent at clock reading `sent`
      and its reply delivered at `replied`: the log is the greeting, the
      trimmed user text and the assistant's reply, in that order. */
  method Conversation(text: string, sent: nat, replied: nat) returns (log: seq<Message>)
    requires !AllSpace(text)
    ensures log == [SeedMessage,
                    Message(NatToString(sent), Trim(text), User, false, false),
                    Message(NatToString(replied + 1), Reply(Trim(text)), Bot, false, false)]
  {
    var chat := new ChatbotAssistant();
    chat.SetInputText(text);
    var scheduled := chat.SendMessage(sent);
    chat.DeliverReply(scheduled.value, replied);
    log := chat.messages;
  }

  /** Pressing a suggestion chip on a fresh screen, as written, sends
      nothing: the log keeps only the greeting and the chip's text waits in
      the input. */
  method ChipOnFreshScreen(query: string, now: nat) returns (log: seq<Message>, input: string, scheduled: Option<string>)
    ensures log == [SeedMessage] && input == query && scheduled == None
  {
    var chat := new ChatbotAssistant();
    scheduled := chat.HandleQueryPress(query, now);
    log, input := chat.messages, chat.inputText;
  }

  /** The intended chip on a fresh screen sends its own trimmed text. */
  method IntendedChipOnFreshScreen(query: string, now: nat) returns (log: seq<Message>, scheduled: Option<string>)
    requires !AllSpace(query)
    ensures log == [SeedMessage, Message(NatToString(now), Trim(query), User, false, false)]
    ensures scheduled == Some(Trim(query))
  {
    var chat := new ChatbotAssistant();
    scheduled := chat.SendQuery(query, now);
    log := chat.messages;
  }
}
