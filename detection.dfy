/**
 * The keyword heuristic and the detection rule of the honeypot endpoint
 * (`BANKING_KEYWORDS`, `banking_keyword_score` and the decision that combines the
 * keyword count with the classifier's probability).
 */
module Detection {
  import opened Text

  /** The fixed banking/urgency vocabulary, in the source's order. */
  const BankingKeywords: seq<string> := [
    "bank", "account", "blocked", "block",
    "verify", "verification",
    "upi", "otp", "kyc",
    "suspend", "suspension",
    "urgent", "immediately",
    "alert", "warning"
  ]

  /** The probability above which the classifier alone flags a scam. */
  const MlThreshold: real := 0.3

  /** The number of distinct keywords that flags a scam on its own. */
  const KeywordThreshold: nat := 2

  predicate NoDuplicates(words: seq<string>)
  {
    forall a, b :: 0 <= a < b < |words| ==> words[a] != words[b]
  }

  /** One point for each word of `words` (in order) that occurs in `text`. */
  function Hits(text: string, words: seq<string>): (n: nat)
    ensures n <= |words|
  {
    if words == [] then 0
    else (if IsSubstring(words[0], text) then 1 else 0) + Hits(text, words[1..])
  }

  /** `banking_keyword_score`: the keyword count of the lower-cased text. */
  function KeywordScore(text: string): (n: nat)
    ensures n <= |BankingKeywords| == 15
  {
    Hits(Lower(text), BankingKeywords)
  }

  /** The set of words of `words` that occur in `text`. */
  ghost function Matched(text: string, words: seq<string>): (found: set<string>)
  {
    set w | w in words && IsSubstring(w, text)
  }

  /** Over a duplicate-free vocabulary, the hit count is the number of distinct
      matched words: a word counts once however often it occurs in the text. */
  lemma {:induction false} HitsCountsDistinctWords(text: string, words: seq<string>)
    requires NoDuplicates(words)
    ensures Hits(text, words) == |Matched(text, words)|
  {
    if words != [] {
      var rest := words[1..];
      assert NoDuplicates(rest) by {
        forall a, b | 0 <= a < b < |rest| ensures rest[a] != rest[b] {
          assert rest[a] == words[a + 1] && rest[b] == words[b + 1];
        }
      }
      HitsCountsDistinctWords(text, rest);
      assert words[0] !in rest by {
        forall k | 0 <= k < |rest| ensures rest[k] != words[0] {
          assert rest[k] == words[k + 1];
        }
      }
      if IsSubstring(words[0], text) {
        assert Matched(text, words) == {words[0]} + Matched(text, rest);
      } else {
        assert Matched(text, words) == Matched(text, rest);
      }
    }
  }

  lemma BankingKeywordsAreDistinct()
    ensures NoDuplicates(BankingKeywords)
  {
  }

  /** The score is the number of distinct banking keywords present in the lower-cased text. */
  lemma KeywordScoreCountsDistinctKeywords(text: string)
    ensures KeywordScore(text) == |Matched(Lower(text), BankingKeywords)|
  {
    BankingKeywordsAreDistinct();
    HitsCountsDistinctWords(Lower(text), BankingKeywords);
  }

  /** The heuristic is case-insensitive: lower-casing first changes nothing. */
  lemma KeywordScoreCaseInsensitive(text: string)
    ensures KeywordScore(Lower(text)) == KeywordScore(text)
  {
    LowerIdempotent(text);
  }

  lemma {:induction false} HitsMonotone(t: string, t': string, words: seq<string>)
    requires forall w :: w in words && IsSubstring(w, t) ==> IsSubstring(w, t')
    ensures Hits(t, words) <= Hits(t', words)
  {
    if words != [] {
      HitsMonotone(t, t', words[1..]);
    }
  }

  /** Surrounding a message with more text never lowers its keyword count. */
  lemma KeywordScoreMonotone(t: string, u: string, v: string)
    ensures KeywordScore(t) <= KeywordScore(u + t + v)
  {
    LowerConcat(u, t);
    LowerConcat(u + t, v);
    forall w | w in BankingKeywords && IsSubstring(w, Lower(t))
      ensures IsSubstring(w, Lower(u + t + v))
    {
      SubstringExtends(w, Lower(t), Lower(u), Lower(v));
    }
    HitsMonotone(Lower(t), Lower(u + t + v), BankingKeywords);
  }

  lemma BlockedLacksAccountWords(t: string)
    requires t == "blocked"
    ensures !IsSubstring("bank", t)
    ensures !IsSubstring("account", t)
    ensures !IsSubstring("verify", t)
    ensures !IsSubstring("verification", t)
  {
    MissingCharNotSubstring("bank", t, 1);
    MissingCharNotSubstring("account", t, 0);
    MissingCharNotSubstring("verify", t, 0);
    MissingCharNotSubstring("verification", t, 0);
  }

  lemma BlockedLacksCodeWords(t: string)
    requires t == "blocked"
    ensures !IsSubstring("upi", t)
    ensures !IsSubstring("otp", t)
    ensures !IsSubstring("kyc", t)
  {
    MissingCharNotSubstring("upi", t, 0);
    MissingCharNotSubstring("otp", t, 1);
    MissingCharNotSubstring("kyc", t, 1);
  }

  lemma BlockedLacksSuspendWords(t: string)
    requires t == "blocked"
    ensures !IsSubstring("suspend", t)
    ensures !IsSubstring("suspension", t)
  {
    MissingCharNotSubstring("suspend", t, 0);
    MissingCharNotSubstring("suspension", t, 0);
  }

  lemma BlockedLacksUrgencyWords(t: string)
    requires t == "blocked"
    ensures !IsSubstring("urgent", t)
    ensures !IsSubstring("immediately", t)
    ensures !IsSubstring("alert", t)
    ensures !IsSubstring("warning", t)
  {
    MissingCharNotSubstring("urgent", t, 0);
    MissingCharNotSubstring("immediately", t, 0);
    MissingCharNotSubstring("alert", t, 0);
    MissingCharNotSubstring("warning", t, 0);
  }

  /** Exactly "blocked" and "block" occur in the word "blocked". */
  lemma BlockedMatchedKeywords(t: string)
    requires t == "blocked"
    ensures Matched(t, BankingKeywords) == {"blocked", "block"}
    ensures |Matched(t, BankingKeywords)| == 2
  {
    assert OccursAt("blocked", t, 0);
    assert OccursAt("block", t, 0);
    BlockedLacksAccountWords(t);
    BlockedLacksCodeWords(t);
    BlockedLacksSuspendWords(t);
    BlockedLacksUrgencyWords(t);
  }

  /** The single word "blocked" scores 2, because both "blocked" and "block" occur in it. */
  lemma BlockedScoresTwo()
    ensures KeywordScore("blocked") == 2
  {
    var t := "blocked";
    assert Lower(t) == t;
    KeywordScoreCountsDistinctKeywords(t);
    BlockedMatchedKeywords(t);
  }

  /** The detection rule: the classifier's probability exceeds 0.3, or at least two keywords hit. */
  predicate ScamDetected(mlScore: real, keywordHits: int)
  {
    mlScore > MlThreshold || keywordHits >= KeywordThreshold
  }

  /** Two distinct keywords flag a scam whatever the classifier says. */
  lemma KeywordsAloneDetect(mlScore: real, text: string)
    requires |Matched(Lower(text), BankingKeywords)| >= 2
    ensures ScamDetected(mlScore, KeywordScore(text))
  {
    KeywordScoreCountsDistinctKeywords(text);
  }

  /** "blocked" on its own is detected as a scam for every classifier score. */
  lemma BlockedAlwaysDetected(mlScore: real)
    ensures ScamDetected(mlScore, KeywordScore("blocked"))
  {
    BlockedScoresTwo();
  }

  /** A low score and fewer than two hits is the only way not to be flagged. */
  lemma NotDetectedExactly(mlScore: real, keywordHits: int)
    ensures !ScamDetected(mlScore, keywordHits) <==> mlScore <= 0.3 && keywordHits < 2
  {
  }

  /** Raising the hit count or the score never turns a detection off. */
  lemma DetectionMonotone(mlScore: real, keywordHits: int, mlScore': real, keywordHits': int)
    requires ScamDetected(mlScore, keywordHits)
    requires mlScore <= mlScore' && keywordHits <= keywordHits'
    ensures ScamDetected(mlScore', keywordHits')
  {
  }

  /** Extra text around a message that keywords alone flag keeps it flagged. */
  lemma KeywordDetectionSurvivesExtension(mlScore: real, t: string, u: string, v: string)
    requires KeywordScore(t) >= KeywordThreshold
    ensures ScamDetected(mlScore, KeywordScore(u + t + v))
  {
    KeywordScoreMonotone(t, u, v);
  }
}
