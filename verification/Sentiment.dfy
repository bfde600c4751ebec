/**
 The keyword-scoring sentiment classifier (`analyzeSentiment` in
 lib/utils.ts). Every user message is lower-cased and scored by substring
 containment against three fixed keyword lists; the most recent user
 message may add a boost of 2 to the frustrated score; a fixed decision
 order turns the three scores into one label.
 */
module Sentiment {
  import opened JsBuiltins

  datatype Label = Positive | Neutral | Negative | Frustrated

  /** A chat message as the classifier sees it; `role` is free text. */
  datatype Message = Message(role: string, content: string)

  const UserRole: string := "user"

  const PositiveKeywords: seq<string> :=
    ["thank", "thanks", "great", "awesome", "perfect", "excellent", "appreciate", "helpful", "love"]

  const NegativeKeywords: seq<string> :=
    ["bad", "poor", "terrible", "horrible", "worst", "disappointed", "frustrating", "issue", "problem"]

  const FrustratedKeywords: seq<string> :=
    ["angry", "frustrated", "ridiculous", "unacceptable", "cancel", "refund", "never", "always", "manager", "complaint"]

  /** A message that takes part in scoring: written by the user, with non-empty content. */
  predicate Counts(m: Message)
  {
    m.role == UserRole && m.content != ""
  }

  /** The lower-cased contents of the counted messages, in order. */
  function UserTexts(messages: seq<Message>): (texts: seq<string>)
    ensures |texts| <= |messages|
    ensures |texts| == 0 <==> forall i :: 0 <= i < |messages| ==> !Counts(messages[i])
  {
    if |messages| == 0 then []
    else
      var rest := UserTexts(messages[1..]);
      assert forall i :: 1 <= i < |messages| ==> messages[i] == messages[1..][i - 1];
      if Counts(messages[0]) then [ToLower(messages[0].content)] + rest else rest
  }

  /** How many of `keywords` occur in `text`: each keyword adds at most one. */
  function Hits(text: string, keywords: seq<string>): (n: nat)
    ensures n <= |keywords|
  {
    if |keywords| == 0 then 0
    else (if Contains(text, keywords[0]) then 1 else 0) + Hits(text, keywords[1..])
  }

  /** The sum of `Hits` over every text. */
  function Score(texts: seq<string>, keywords: seq<string>): (n: nat)
    ensures n <= |texts| * |keywords|
  {
    if |texts| == 0 then 0 else Hits(texts[0], keywords) + Score(texts[1..], keywords)
  }

  /**
   A space-separated word whose `length` (in UTF-16 code units) exceeds three
   and that is unchanged by upper-casing.
   */
  predicate Shouted(word: string)
  {
    JsLength(word) > 3 && word == ToUpper(word)
  }

  predicate HasShoutedWord(text: string)
  {
    var words := Split(text, ' ');
    exists i :: 0 <= i < |words| && Shouted(words[i])
  }

  /** The punctuation/caps test applied to the most recent user text. */
  predicate Boosted(text: string)
  {
    CountChar(text, '!') >= 2 || HasShoutedWord(text)
  }

  /** The fixed decision order on the three scores. */
  function Decide(positive: nat, negative: nat, frustrated: nat): (sentiment: Label)
    ensures sentiment == Frustrated <==> frustrated >= 2
    ensures sentiment == Negative <==> frustrated < 2 && negative > positive
    ensures sentiment == Positive <==> frustrated < 2 && positive > negative
    ensures sentiment == Neutral <==> frustrated < 2 && positive == negative
  {
    if frustrated >= 2 then Frustrated
    else if negative > positive then Negative
    else if positive > negative then Positive
    else Neutral
  }

  function FrustratedScore(texts: seq<string>): nat
    requires |texts| > 0
  {
    Score(texts, FrustratedKeywords) + (if Boosted(texts[|texts| - 1]) then 2 else 0)
  }

  /** `analyzeSentiment`: a total function from a message list to a label. */
  function AnalyzeSentiment(messages: seq<Message>): (sentiment: Label)
    ensures (forall i :: 0 <= i < |messages| ==> !Counts(messages[i])) ==> sentiment == Neutral
    ensures sentiment == Frustrated <==>
      |UserTexts(messages)| > 0 && FrustratedScore(UserTexts(messages)) >= 2
    ensures sentiment == Negative <==>
      var texts := UserTexts(messages);
      |texts| > 0 && FrustratedScore(texts) < 2
      && Score(texts, NegativeKeywords) > Score(texts, PositiveKeywords)
    ensures sentiment == Positive <==>
      var texts := UserTexts(messages);
      |texts| > 0 && FrustratedScore(texts) < 2
      && Score(texts, PositiveKeywords) > Score(texts, NegativeKeywords)
  {
    if |messages| == 0 then Neutral
    else
      var texts := UserTexts(messages);
      if |texts| == 0 then Neutral
      else Decide(Score(texts, PositiveKeywords), Score(texts, NegativeKeywords), FrustratedScore(texts))
  }

  // ---------------------------------------------------------------------------
  // Properties
  // ---------------------------------------------------------------------------

  /** A text scores no hit exactly when it contains none of the keywords. */
  lemma {:induction false} HitsZeroIffNoKeyword(text: string, keywords: seq<string>)
    ensures Hits(text, keywords) == 0 <==> forall i :: 0 <= i < |keywords| ==> !Contains(text, keywords[i])
  {
    if |keywords| > 0 {
      HitsZeroIffNoKeyword(text, keywords[1..]);
      assert forall i :: 1 <= i < |keywords| ==> keywords[1..][i - 1] == keywords[i];
    }
  }

  /** A keyword that occurs contributes one hit. */
  lemma {:induction false} HitsAtLeastOne(text: string, keywords: seq<string>, i: nat)
    requires i < |keywords| && Contains(text, keywords[i])
    ensures Hits(text, keywords) >= 1
  {
    if i > 0 {
      HitsAtLeastOne(text, keywords[1..], i - 1);
    }
  }

  /** Two distinct keyword positions that occur contribute two hits. */
  lemma {:induction false} HitsAtLeastTwo(text: string, keywords: seq<string>, i: nat, j: nat)
    requires i < j < |keywords|
    requires Contains(text, keywords[i]) && Contains(text, keywords[j])
    ensures Hits(text, keywords) >= 2
  {
    if i == 0 {
      HitsAtLeastOne(text, keywords[1..], j - 1);
    } else {
      HitsAtLeastTwo(text, keywords[1..], i - 1, j - 1);
    }
  }

  /** The score over several texts is at least the hits of any one of them. */
  lemma {:induction false} ScoreAtLeastHits(texts: seq<string>, keywords: seq<string>, k: nat)
    requires k < |texts|
    ensures Score(texts, keywords) >= Hits(texts[k], keywords)
  {
    if k > 0 {
      ScoreAtLeastHits(texts[1..], keywords, k - 1);
    }
  }

  /** Every counted message contributes its lower-cased content to the scored texts. */
  lemma {:induction false} CountedMessageIsScored(messages: seq<Message>, m: nat)
    requires m < |messages| && Counts(messages[m])
    ensures exists k :: 0 <= k < |UserTexts(messages)| && UserTexts(messages)[k] == ToLower(messages[m].content)
  {
    if m == 0 {
      assert UserTexts(messages)[0] == ToLower(messages[0].content);
    } else {
      assert messages[1..][m - 1] == messages[m];
      CountedMessageIsScored(messages[1..], m - 1);
      var rest := UserTexts(messages[1..]);
      var k :| 0 <= k < |rest| && rest[k] == ToLower(messages[m].content);
      if Counts(messages[0]) {
        assert UserTexts(messages) == [ToLower(messages[0].content)] + rest;
        assert UserTexts(messages)[k + 1] == ToLower(messages[m].content);
      } else {
        assert UserTexts(messages) == rest;
      }
    }
  }

  /** The last scored text is the lower-cased content of the last counted message. */
  lemma {:induction false} LastCountedMessageIsRecent(messages: seq<Message>, m: nat)
    requires m < |messages| && Counts(messages[m])
    requires forall k :: m < k < |messages| ==> !Counts(messages[k])
    ensures |UserTexts(messages)| > 0
    ensures UserTexts(messages)[|UserTexts(messages)| - 1] == ToLower(messages[m].content)
  {
    if m == 0 {
      assert forall k :: 0 <= k < |messages[1..]| ==> !Counts(messages[1..][k]) by {
        forall k | 0 <= k < |messages[1..]|
          ensures !Counts(messages[1..][k])
        {
          assert messages[1..][k] == messages[k + 1];
        }
      }
      assert UserTexts(messages[1..]) == [];
    } else {
      forall k | m - 1 < k < |messages[1..]|
        ensures !Counts(messages[1..][k])
      {
        assert messages[1..][k] == messages[k + 1];
      }
      LastCountedMessageIsRecent(messages[1..], m - 1);
    }
  }

  /**
   Two frustrated keywords in one user message decide `frustrated`, whatever
   the positive and negative scores are.
   */
  lemma TwoFrustratedKeywordsWin(messages: seq<Message>, m: nat, i: nat, j: nat)
    requires m < |messages| && Counts(messages[m])
    requires i < j < |FrustratedKeywords|
    requires Contains(ToLower(messages[m].content), FrustratedKeywords[i])
    requires Contains(ToLower(messages[m].content), FrustratedKeywords[j])
    ensures AnalyzeSentiment(messages) == Frustrated
  {
    CountedMessageIsScored(messages, m);
    var texts := UserTexts(messages);
    var k :| 0 <= k < |texts| && texts[k] == ToLower(messages[m].content);
    HitsAtLeastTwo(texts[k], FrustratedKeywords, i, j);
    ScoreAtLeastHits(texts, FrustratedKeywords, k);
  }

  /** Lower-casing leaves the exclamation marks where they are. */
  lemma {:induction false} LowerKeepsExclamations(s: string)
    ensures CountChar(ToLower(s), '!') == CountChar(s, '!')
  {
    if |s| > 0 {
      LowerKeepsExclamations(s[1..]);
      assert ToLower(s)[1..] == ToLower(s[1..]);
    }
  }

  /**
   Two or more `!` in the most recent user message decide `frustrated`;
   earlier messages cannot prevent it.
   */
  lemma ExclamationsInLastUserMessageWin(messages: seq<Message>, m: nat)
    requires m < |messages| && Counts(messages[m])
    requires forall k :: m < k < |messages| ==> !Counts(messages[k])
    requires CountChar(messages[m].content, '!') >= 2
    ensures AnalyzeSentiment(messages) == Frustrated
  {
    LastCountedMessageIsRecent(messages, m);
    LowerKeepsExclamations(messages[m].content);
  }

  /**
   Because the caps test runs on the lower-cased text, it can only fire on a
   word longer than three code units that contains no cased letter: digits,
   punctuation, emoji, or letters of a caseless script such as Chinese
   ("!!!!", "12345", two emoji, "你好你好"). A shouted word like "HELP" is
   never detected. Case mapping here covers ASCII only, so "cased" means an
   ASCII letter.
   */
  lemma CapsTestSeesOnlyCaselessWords(text: string)
    ensures HasShoutedWord(ToLower(text)) <==>
      var words := Split(ToLower(text), ' ');
      exists i :: 0 <= i < |words| && JsLength(words[i]) > 3
        && forall c :: c in words[i] ==> !IsAsciiLetter(c)
  {
    var lower := ToLower(text);
    var words := Split(lower, ' ');
    assert forall c :: c in lower ==> !IsUpperAscii(c);
    forall i | 0 <= i < |words|
      ensures Shouted(words[i]) <==> JsLength(words[i]) > 3 && forall c :: c in words[i] ==> !IsAsciiLetter(c)
    {
      var w := words[i];
      if w == ToUpper(w) {
        forall c | c in w
          ensures !IsAsciiLetter(c)
        {
          var n :| 0 <= n < |w| && w[n] == c;
          assert ToUpper(w)[n] == UpperChar(c);
        }
      }
      if forall c :: c in w ==> !IsAsciiLetter(c) {
        assert forall n :: 0 <= n < |w| ==> ToUpper(w)[n] == w[n];
      }
    }
  }

  /** Substring scoring: "thanks" alone scores two positive hits ("thank" and "thanks"). */
  lemma ThanksScoresTwice()
    ensures Hits("thanks", PositiveKeywords) >= 2
  {
    ContainsAt("thanks", "thank", 0);
    ContainsAt("thanks", "thanks", 0);
    HitsAtLeastTwo("thanks", PositiveKeywords, 0, 1);
  }

  /** A lower-case keyword found in a text is found in its lower-cased form too. */
  lemma KeywordSurvivesLowering(text: string, keyword: string, i: nat)
    requires i + |keyword| <= |text| && text[i..i + |keyword|] == keyword
    requires forall n :: 0 <= n < |keyword| ==> !IsUpperAscii(keyword[n])
    ensures Contains(ToLower(text), keyword)
  {
    assert ToLower(text)[i..i + |keyword|] == keyword;
    ContainsAt(ToLower(text), keyword, i);
  }

  /** "This is unacceptable, I want a refund, cancel my order!", assembled around its keywords. */
  const RefundComplaint: string := "This is " + "unacceptable" + ", I want a " + "refund" + ", cancel my order!"

  lemma RefundComplaintKeywords()
    ensures Contains(ToLower(RefundComplaint), "unacceptable")
    ensures Contains(ToLower(RefundComplaint), "refund")
  {
    var head := "This is ";
    var middle := head + "unacceptable" + ", I want a ";
    assert RefundComplaint[|head|..|head| + 12] == "unacceptable";
    KeywordSurvivesLowering(RefundComplaint, "unacceptable", |head|);
    assert RefundComplaint[|middle|..|middle| + 6] == "refund";
    KeywordSurvivesLowering(RefundComplaint, "refund", |middle|);
  }

  /** A typical complaint: "unacceptable" and "refund" alone make it frustrated. */
  lemma RefundComplaintIsFrustrated()
    ensures AnalyzeSentiment([Message(UserRole, RefundComplaint)]) == Frustrated
  {
    RefundComplaintKeywords();
    TwoFrustratedKeywordsWin([Message(UserRole, RefundComplaint)], 0, 3, 5);
  }

  /**
   A shouted word in the most recent user message decides `frustrated`;
   earlier messages cannot prevent it.
   */
  lemma ShoutInLastUserMessageWins(messages: seq<Message>, m: nat)
    requires m < |messages| && Counts(messages[m])
    requires forall k :: m < k < |messages| ==> !Counts(messages[k])
    requires HasShoutedWord(ToLower(messages[m].content))
    ensures AnalyzeSentiment(messages) == Frustrated
  {
    LastCountedMessageIsRecent(messages, m);
  }

  /** "ok" followed by two emoji: the second word is four code units long and has no case. */
  lemma EmojiPairIsShouted()
    ensures HasShoutedWord("ok \U{1F600}\U{1F600}")
  {
    var emoji := "\U{1F600}\U{1F600}";
    assert Join(["ok", emoji], ' ') == "ok \U{1F600}\U{1F600}";
    SplitJoin(["ok", emoji], ' ');
    assert JsLength(emoji) == 4;
    assert ToUpper(emoji) == emoji;
    assert Shouted(Split("ok \U{1F600}\U{1F600}", ' ')[1]);
  }

  /** Four Chinese characters form a word that upper-casing leaves unchanged. */
  lemma CaselessWordIsShouted()
    ensures HasShoutedWord(ToLower("\U{4F60}\U{597D}\U{4F60}\U{597D}"))
  {
    var word := "\U{4F60}\U{597D}\U{4F60}\U{597D}";
    assert ToLower(word) == word;
    assert Join([word], ' ') == word;
    SplitJoin([word], ' ');
    assert JsLength(word) == 4;
    assert ToUpper(word) == word;
    assert Shouted(Split(word, ' ')[0]);
  }

  /**
   `length` counts UTF-16 code units, so two emoji pass the caps test: the
   message "ok" followed by two emoji is classified as frustrated.
   */
  lemma TwoEmojiAreShouted()
    ensures AnalyzeSentiment([Message(UserRole, "ok \U{1F600}\U{1F600}")]) == Frustrated
  {
    assert ToLower("ok \U{1F600}\U{1F600}") == "ok \U{1F600}\U{1F600}";
    EmojiPairIsShouted();
    ShoutInLastUserMessageWins([Message(UserRole, "ok \U{1F600}\U{1F600}")], 0);
  }
}
