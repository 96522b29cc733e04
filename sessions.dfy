/**
 * The request handler and the two in-memory session stores of the honeypot
 * service (app.py): `honeypot` appends a turn to the conversation store and,
 * when a scam is detected, one entry to the intelligence store; the summary
 * and finalize queries read the intelligence store and merge every entry's
 * extraction into one set per kind.
 */
module Sessions {
  import opened Wrappers
  import opened Detection
  import opened IntelligenceExtractor

  datatype Message = Message(sender: string, text: string)

  /** The request body; the handler never reads `conversationHistory`. */
  datatype HoneypotRequest = HoneypotRequest(sessionId: string, message: Message, conversationHistory: seq<Message>)

  /** One entry of the intelligence store: the scam message and what was extracted from it. */
  datatype IntelligenceEntry = IntelligenceEntry(message: string, extracted: Intelligence)

  /** The success body; `extractedIntelligence` is `None` where the source returns `{}`. */
  datatype HoneypotResponse = HoneypotResponse(
    scamDetected: bool,
    mlScore: real,
    bankingKeywordHits: nat,
    reply: string,
    extractedIntelligence: Option<Intelligence>)

  /** An HTTP error raised by the handler, or its success body. */
  datatype HoneypotOutcome =
    | Rejected(statusCode: int, detail: string)
    | Accepted(response: HoneypotResponse)

  datatype SummaryResult =
    | SummaryNotFound(message: string)
    | Summary(
        sessionId: string,
        totalMessages: nat,
        conversationHistory: seq<Message>,
        aggregatedIntelligence: Intelligence,
        messageLog: seq<IntelligenceEntry>)

  /** The body posted to the evaluation endpoint. */
  datatype Payload = Payload(
    sessionId: string,
    scamDetected: bool,
    extractedIntelligence: Intelligence,
    conversationHistory: seq<Message>)

  /** What the callback reports: the endpoint's status code, or the error text. */
  datatype CallbackResult = Sent(guviStatusCode: int) | Failed(error: string)

  datatype FinalizeResult =
    | FinalizeNotFound(message: string)
    | Finalized(submittedPayload: Payload, callbackResult: CallbackResult)

  const HoneypotSender := "honeypot"
  const DefaultReply := "Okay, thanks."
  const UnauthorizedStatus := 401
  const UnauthorizedDetail := "Invalid or missing API key"
  const SummaryNotFoundMessage := "No intelligence found for this session ID."
  const FinalizeNotFoundMessage := "No intelligence available for this session."

  type Conversations = map<string, seq<Message>>
  type IntelligenceLog = map<string, seq<IntelligenceEntry>>

  /** `dict.get(key, [])`. */
  function Lookup<V>(m: map<string, seq<V>>, key: string): (r: seq<V>)
    ensures key !in m ==> r == []
    ensures key in m ==> r == m[key]
  {
    if key in m then m[key] else []
  }

  // ---------------------------------------------------------------------------
  // Aggregation (the loop over `session_data` in both queries)

  function Union(a: Intelligence, b: Intelligence): (r: Intelligence)
    ensures forall p :: Field(p, r) == Field(p, a) + Field(p, b)
  {
    Intelligence(a.phoneNumbers + b.phoneNumbers, a.upiIds + b.upiIds, a.urls + b.urls)
  }

  /** The three sets after the loop has seen every entry of `log`, in order. */
  function Aggregate(log: seq<IntelligenceEntry>): (agg: Intelligence)
  {
    if log == [] then NoIntelligence
    else Union(Aggregate(log[..|log| - 1]), log[|log| - 1].extracted)
  }

  /** Each merged set is the union of that set over every entry. */
  lemma {:induction false} AggregateMembership(log: seq<IntelligenceEntry>, p: Pattern, x: string)
    ensures x in Field(p, Aggregate(log)) <==>
            exists k :: 0 <= k < |log| && x in Field(p, log[k].extracted)
  {
    if log != [] {
      var init := log[..|log| - 1];
      AggregateMembership(init, p, x);
      assert forall k :: 0 <= k < |init| ==> init[k] == log[k];
    }
  }

  /** Two logs holding the same entries, in any order and with any repetition,
      merge to the same sets. */
  lemma AggregateIgnoresOrderAndDuplicates(a: seq<IntelligenceEntry>, b: seq<IntelligenceEntry>)
    requires forall e :: e in a <==> e in b
    ensures Aggregate(a) == Aggregate(b)
  {
    forall p: Pattern ensures Field(p, Aggregate(a)) == Field(p, Aggregate(b)) {
      forall x ensures x in Field(p, Aggregate(a)) <==> x in Field(p, Aggregate(b)) {
        AggregateMembership(a, p, x);
        AggregateMembership(b, p, x);
        if exists k :: 0 <= k < |a| && x in Field(p, a[k].extracted) {
          var k :| 0 <= k < |a| && x in Field(p, a[k].extracted);
          assert a[k] in b;
        }
        if exists k :: 0 <= k < |b| && x in Field(p, b[k].extracted) {
          var k :| 0 <= k < |b| && x in Field(p, b[k].extracted);
          assert b[k] in a;
        }
      }
    }
    assert Aggregate(a).phoneNumbers == Field(PhonePattern, Aggregate(a));
    assert Aggregate(a).upiIds == Field(UpiPattern, Aggregate(a));
    assert Aggregate(a).urls == Field(UrlPattern, Aggregate(a));
  }

  /** The loop itself: three sets grown with `update`, one entry at a time. */
  method AggregateLog(log: seq<IntelligenceEntry>) returns (agg: Intelligence)
    ensures agg == Aggregate(log)
  {
    var phones, upiIds, urls := {}, {}, {};
    for k := 0 to |log|
      invariant Intelligence(phones, upiIds, urls) == Aggregate(log[..k])
    {
      var extracted := log[k].extracted;
      phones := phones + extracted.phoneNumbers;
      upiIds := upiIds + extracted.upiIds;
      urls := urls + extracted.urls;
      assert log[..k + 1][..k] == log[..k];
    }
    assert log[..|log|] == log;
    agg := Intelligence(phones, upiIds, urls);
  }

  // ---------------------------------------------------------------------------
  // The store invariant

  /** Each conversation is a list of (incoming, reply) pairs with the honeypot's
      reply at every odd index. */
  ghost predicate PairedConversations(conversations: Conversations)
  {
    && (forall id :: id in conversations ==> |conversations[id]| % 2 == 0)
    && (forall id, k :: id in conversations && 0 <= k < |conversations[id]| && k % 2 == 1 ==>
          conversations[id][k].sender == HoneypotSender)
  }

  /** A session with intelligence has a non-empty log and a conversation with at
      least two entries per logged message. */
  ghost predicate IntelligenceBacked(conversations: Conversations, intelligence: IntelligenceLog)
  {
    forall id :: id in intelligence ==>
      id in conversations && 1 <= |intelligence[id]| && 2 * |intelligence[id]| <= |conversations[id]|
  }

  /** Every logged extraction is the extraction of its message. */
  ghost predicate EntriesFaithful(intelligence: IntelligenceLog)
  {
    forall id, k :: id in intelligence && 0 <= k < |intelligence[id]| ==>
      intelligence[id][k].extracted == Extract(intelligence[id][k].message)
  }

  /** What every sequence of `honeypot` calls keeps true of the two stores. */
  ghost predicate StoreInvariant(conversations: Conversations, intelligence: IntelligenceLog)
  {
    PairedConversations(conversations) && IntelligenceBacked(conversations, intelligence) && EntriesFaithful(intelligence)
  }

  lemma AppendTurnKeepsPaired(conversations: Conversations, id: string, incoming: Message, reply: string)
    requires PairedConversations(conversations)
    ensures PairedConversations(conversations[id := Lookup(conversations, id) + [incoming, Message(HoneypotSender, reply)]])
  {
    var before := Lookup(conversations, id);
    var after := before + [incoming, Message(HoneypotSender, reply)];
    forall k | 0 <= k < |after| && k % 2 == 1 ensures after[k].sender == HoneypotSender {
      if k < |before| {
        assert after[k] == before[k];
      }
    }
  }

  lemma AppendTurnKeepsBacked(conversations: Conversations, intelligence: IntelligenceLog, id: string, turn: seq<Message>)
    requires IntelligenceBacked(conversations, intelligence)
    ensures IntelligenceBacked(conversations[id := Lookup(conversations, id) + turn], intelligence)
  {
  }

  lemma AppendEntryKeepsBacked(conversations: Conversations, intelligence: IntelligenceLog, id: string, e: IntelligenceEntry)
    requires IntelligenceBacked(conversations, intelligence)
    requires id in conversations && 2 * |Lookup(intelligence, id)| + 2 <= |conversations[id]|
    ensures IntelligenceBacked(conversations, intelligence[id := Lookup(intelligence, id) + [e]])
  {
  }

  lemma AppendEntryKeepsFaithful(intelligence: IntelligenceLog, id: string, text: string)
    requires EntriesFaithful(intelligence)
    ensures EntriesFaithful(intelligence[id := Lookup(intelligence, id) + [IntelligenceEntry(text, Extract(text))]])
  {
    var before := Lookup(intelligence, id);
    var after := before + [IntelligenceEntry(text, Extract(text))];
    forall k | 0 <= k < |after| ensures after[k].extracted == Extract(after[k].message) {
      if k < |before| {
        assert after[k] == before[k];
      }
    }
  }

  // ---------------------------------------------------------------------------
  // The honeypot request, as a transition of the two stores

  datatype Step = Step(outcome: HoneypotOutcome, conversations: Conversations, intelligence: IntelligenceLog)

  /** The body of an accepted request: the ML score, the keyword score, the
      decision of line 81, the reply and the extraction, which only a detected
      scam gets. */
  function Respond(text: string, detectScamMl: string -> real, generateReply: string -> string): (r: HoneypotResponse)
  {
    var mlScore := detectScamMl(text);
    var hits := KeywordScore(text);
    var detected := ScamDetected(mlScore, hits);
    HoneypotResponse(
      detected, mlScore, hits,
      if detected then generateReply(text) else DefaultReply,
      if detected then Some(Extract(text)) else None)
  }

  /** The outcome of one `honeypot` call and the stores after it; the ML score and
      the generated reply come from the functions passed in. */
  function HoneypotStep(
    conversations: Conversations,
    intelligence: IntelligenceLog,
    data: HoneypotRequest,
    xApiKey: Option<string>,
    configuredKey: Option<string>,
    detectScamMl: string -> real,
    generateReply: string -> string): (r: Step)
  {
    if xApiKey != configuredKey then
      Step(Rejected(UnauthorizedStatus, UnauthorizedDetail), conversations, intelligence)
    else
      var id := data.sessionId;
      var text := data.message.text;
      var response := Respond(text, detectScamMl, generateReply);
      var turn := [data.message, Message(HoneypotSender, response.reply)];
      Step(
        Accepted(response),
        conversations[id := Lookup(conversations, id) + turn],
        if response.scamDetected then intelligence[id := Lookup(intelligence, id) + [IntelligenceEntry(text, Extract(text))]]
        else intelligence)
  }

  /** The key check comes first: a request is rejected with 401 exactly when the
      header differs from the configured key (an unset key and a missing header are
      equal), and a rejected request changes neither store. */
  lemma WrongKeyChangesNothing(
    conversations: Conversations, intelligence: IntelligenceLog, data: HoneypotRequest,
    xApiKey: Option<string>, configuredKey: Option<string>,
    detectScamMl: string -> real, generateReply: string -> string)
    ensures var r := HoneypotStep(conversations, intelligence, data, xApiKey, configuredKey, detectScamMl, generateReply);
      && (r.outcome.Rejected? <==> xApiKey != configuredKey)
      && (r.outcome.Rejected? ==>
            && r.outcome == Rejected(401, "Invalid or missing API key")
            && r.conversations == conversations
            && r.intelligence == intelligence)
  {
  }

  /** An accepted request appends exactly two entries to its session's
      conversation, the incoming message and then the honeypot's reply, creating the
      list when absent; earlier entries and every other session are left alone. */
  lemma AcceptedAppendsTurn(
    conversations: Conversations, intelligence: IntelligenceLog, data: HoneypotRequest,
    detectScamMl: string -> real, generateReply: string -> string, key: Option<string>)
    ensures var r := HoneypotStep(conversations, intelligence, data, key, key, detectScamMl, generateReply);
      var before := Lookup(conversations, data.sessionId);
      var after := Lookup(r.conversations, data.sessionId);
      && r.outcome.Accepted?
      && r.conversations.Keys == conversations.Keys + {data.sessionId}
      && |after| == |before| + 2
      && after[..|before|] == before
      && after[|before|] == data.message
      && after[|before| + 1] == Message("honeypot", r.outcome.response.reply)
      && (forall id :: id != data.sessionId ==> Lookup(r.conversations, id) == Lookup(conversations, id))
  {
  }

  /** The decision and the response: the score and hit count are the ML score and
      the keyword score of the text, and detection is the rule of line 81. Without
      detection the reply is the fixed acknowledgement, nothing is extracted and the
      intelligence store is unchanged; with it the reply is generated, and exactly
      one entry holding the text and its extraction is appended to the session's
      log, the same extraction the response carries. */
  lemma AcceptedRecordsIntelligence(
    conversations: Conversations, intelligence: IntelligenceLog, data: HoneypotRequest,
    detectScamMl: string -> real, generateReply: string -> string, key: Option<string>)
    ensures var r := HoneypotStep(conversations, intelligence, data, key, key, detectScamMl, generateReply);
      var text := data.message.text;
      var response := r.outcome.response;
      && r.outcome.Accepted?
      && response.mlScore == detectScamMl(text)
      && response.bankingKeywordHits == KeywordScore(text)
      && (response.scamDetected <==> detectScamMl(text) > 0.3 || KeywordScore(text) >= 2)
      && (!response.scamDetected ==>
            && response.reply == "Okay, thanks."
            && response.extractedIntelligence == None
            && r.intelligence == intelligence)
      && (response.scamDetected ==>
            && response.reply == generateReply(text)
            && response.extractedIntelligence == Some(Extract(text))
            && r.intelligence.Keys == intelligence.Keys + {data.sessionId}
            && Lookup(r.intelligence, data.sessionId) ==
                 Lookup(intelligence, data.sessionId) + [IntelligenceEntry(text, Extract(text))]
            && (forall id :: id != data.sessionId ==> Lookup(r.intelligence, id) == Lookup(intelligence, id)))
  {
  }

  /** Every `honeypot` call keeps the store invariant. */
  lemma HoneypotStepPreservesInvariant(
    conversations: Conversations, intelligence: IntelligenceLog, data: HoneypotRequest,
    xApiKey: Option<string>, configuredKey: Option<string>,
    detectScamMl: string -> real, generateReply: string -> string)
    requires StoreInvariant(conversations, intelligence)
    ensures var r := HoneypotStep(conversations, intelligence, data, xApiKey, configuredKey, detectScamMl, generateReply);
      StoreInvariant(r.conversations, r.intelligence)
  {
    if xApiKey == configuredKey {
      var id := data.sessionId;
      var text := data.message.text;
      var mlScore := detectScamMl(text);
      var detected := ScamDetected(mlScore, KeywordScore(text));
      var reply := if detected then generateReply(text) else DefaultReply;
      var turn := [data.message, Message(HoneypotSender, reply)];
      var conversations' := conversations[id := Lookup(conversations, id) + turn];
      AppendTurnKeepsPaired(conversations, id, data.message, reply);
      AppendTurnKeepsBacked(conversations, intelligence, id, turn);
      if detected {
        assert 2 * |Lookup(intelligence, id)| + 2 <= |conversations'[id]|;
        AppendEntryKeepsBacked(conversations', intelligence, id, IntelligenceEntry(text, Extract(text)));
        AppendEntryKeepsFaithful(intelligence, id, text);
      }
    }
  }

  // ---------------------------------------------------------------------------
  // The two read-only queries

  /** `get_session_summary` as a value of the two stores. */
  function SessionSummary(conversations: Conversations, intelligence: IntelligenceLog, sessionId: string): (r: SummaryResult)
  {
    var log := Lookup(intelligence, sessionId);
    if log == [] then SummaryNotFound(SummaryNotFoundMessage)
    else Summary(sessionId, |log|, Lookup(conversations, sessionId), Aggregate(log), log)
  }

  /** The payload `finalize_session` posts for a session with intelligence. */
  function FinalPayload(conversations: Conversations, intelligence: IntelligenceLog, sessionId: string): (p: Payload)
  {
    Payload(sessionId, true, Aggregate(Lookup(intelligence, sessionId)), Lookup(conversations, sessionId))
  }

  /** `finalize_session` as a value of the two stores and the callback. */
  function FinalizeOutcome(
    conversations: Conversations, intelligence: IntelligenceLog, sessionId: string,
    sendCallback: Payload -> CallbackResult): (r: FinalizeResult)
  {
    if Lookup(intelligence, sessionId) == [] then FinalizeNotFound(FinalizeNotFoundMessage)
    else
      var payload := FinalPayload(conversations, intelligence, sessionId);
      Finalized(payload, sendCallback(payload))
  }

  /** The summary is `not_found` exactly when the session has no intelligence
      entry (absent or empty); otherwise it counts intelligence entries, returns
      the session's conversation and log, and each merged set holds exactly the
      values some entry extracted. */
  lemma SummaryContents(conversations: Conversations, intelligence: IntelligenceLog, sessionId: string, p: Pattern, x: string)
    ensures var r := SessionSummary(conversations, intelligence, sessionId);
      && (r.SummaryNotFound? <==> sessionId !in intelligence || intelligence[sessionId] == [])
      && (r.SummaryNotFound? ==> r.message == "No intelligence found for this session ID.")
      && (r.Summary? ==>
            && r.sessionId == sessionId
            && r.totalMessages == |intelligence[sessionId]|
            && r.messageLog == intelligence[sessionId]
            && r.conversationHistory == Lookup(conversations, sessionId)
            && (x in Field(p, r.aggregatedIntelligence) <==>
                  exists k :: 0 <= k < |intelligence[sessionId]| && x in Field(p, intelligence[sessionId][k].extracted)))
  {
    AggregateMembership(Lookup(intelligence, sessionId), p, x);
  }

  /** Under the store invariant the session a summary describes has a conversation
      of at least two entries per counted message, and every logged extraction is
      the extraction of its message. */
  lemma SummaryUnderInvariant(conversations: Conversations, intelligence: IntelligenceLog, sessionId: string)
    requires StoreInvariant(conversations, intelligence)
    ensures var r := SessionSummary(conversations, intelligence, sessionId);
      r.Summary? ==>
        && 2 * r.totalMessages <= |r.conversationHistory|
        && forall k :: 0 <= k < |r.messageLog| ==> r.messageLog[k].extracted == Extract(r.messageLog[k].message)
  {
  }

  /** Finalize is `not_found` exactly when the summary is; otherwise the payload
      always reports a scam, carries the summary's merged sets and conversation,
      and does not depend on what the callback reports. */
  lemma FinalizeContents(
    conversations: Conversations, intelligence: IntelligenceLog, sessionId: string,
    sendCallback: Payload -> CallbackResult, otherCallback: Payload -> CallbackResult)
    ensures var r := FinalizeOutcome(conversations, intelligence, sessionId, sendCallback);
      var s := SessionSummary(conversations, intelligence, sessionId);
      var o := FinalizeOutcome(conversations, intelligence, sessionId, otherCallback);
      && (r.FinalizeNotFound? <==> s.SummaryNotFound?)
      && (r.FinalizeNotFound? ==> r.message == "No intelligence available for this session.")
      && (r.Finalized? ==>
            && r.submittedPayload.sessionId == sessionId
            && r.submittedPayload.scamDetected
            && r.submittedPayload.extractedIntelligence == s.aggregatedIntelligence
            && r.submittedPayload.conversationHistory == s.conversationHistory
            && r.callbackResult == sendCallback(r.submittedPayload)
            && o.Finalized?
            && o.submittedPayload == r.submittedPayload)
  {
  }

  /** From empty stores, one accepted "blocked" message is detected whatever the ML
      score, and the summary then counts one message over a two-entry conversation. */
  lemma BlockedMessageIsRecorded(
    sessionId: string, sender: string, detectScamMl: string -> real, generateReply: string -> string, key: Option<string>)
    ensures var data := HoneypotRequest(sessionId, Message(sender, "blocked"), []);
      var r := HoneypotStep(map[], map[], data, key, key, detectScamMl, generateReply);
      var s := SessionSummary(r.conversations, r.intelligence, sessionId);
      && r.outcome.Accepted? && r.outcome.response.scamDetected
      && s.Summary? && s.totalMessages == 1 && |s.conversationHistory| == 2
  {
    BlockedAlwaysDetected(detectScamMl("blocked"));
  }

  // ---------------------------------------------------------------------------
  // The process-wide stores

  /** `SESSION_CONVERSATIONS` and `SESSION_INTELLIGENCE`, with the three handlers. */
  class SessionStore {
    var conversations: Conversations
    var intelligence: IntelligenceLog

    ghost predicate Valid()
      reads this
    {
      StoreInvariant(conversations, intelligence)
    }

    /** Both stores start empty. */
    constructor ()
      ensures conversations == map[] && intelligence == map[]
      ensures Valid()
    {
      conversations := map[];
      intelligence := map[];
    }

    /** The `honeypot` endpoint: the key check before any update, then the
        decision, the two conversation appends and the optional intelligence append. */
    method Honeypot(
      data: HoneypotRequest,
      xApiKey: Option<string>,
      configuredKey: Option<string>,
      detectScamMl: string -> real,
      generateReply: string -> string) returns (outcome: HoneypotOutcome)
      requires Valid()
      modifies this
      ensures Valid()
      ensures var r := HoneypotStep(old(conversations), old(intelligence), data, xApiKey, configuredKey, detectScamMl, generateReply);
        outcome == r.outcome && conversations == r.conversations && intelligence == r.intelligence
    {
      ghost var step := HoneypotStep(conversations, intelligence, data, xApiKey, configuredKey, detectScamMl, generateReply);
      HoneypotStepPreservesInvariant(conversations, intelligence, data, xApiKey, configuredKey, detectScamMl, generateReply);
      if xApiKey != configuredKey {
        return Rejected(UnauthorizedStatus, UnauthorizedDetail);
      }
      var id := data.sessionId;
      var response := Respond(data.message.text, detectScamMl, generateReply);
      ghost var before := Lookup(conversations, id);
      AppendMessage(id, data.message);
      AppendMessage(id, Message(HoneypotSender, response.reply));
      assert conversations[id] == before + [data.message, Message(HoneypotSender, response.reply)];
      if response.scamDetected {
        AppendEntry(id, IntelligenceEntry(data.message.text, response.extractedIntelligence.value));
      }
      outcome := Accepted(response);
      assert conversations == step.conversations && intelligence == step.intelligence;
    }

    /** `SESSION_CONVERSATIONS.setdefault(id, []).append(m)`. An internal step of
        `Honeypot`, which calls it twice: one call alone leaves an odd-length
        conversation, so it neither needs nor keeps `Valid()`. */
    method AppendMessage(id: string, m: Message)
      modifies this
      ensures conversations == old(conversations)[id := Lookup(old(conversations), id) + [m]]
      ensures intelligence == old(intelligence)
    {
      conversations := conversations[id := Lookup(conversations, id) + [m]];
    }

    /** `SESSION_INTELLIGENCE.setdefault(id, []).append(e)`. An internal step of
        `Honeypot`, called after the turn is recorded; it neither needs nor keeps
        `Valid()` on its own. */
    method AppendEntry(id: string, e: IntelligenceEntry)
      modifies this
      ensures intelligence == old(intelligence)[id := Lookup(old(intelligence), id) + [e]]
      ensures conversations == old(conversations)
    {
      intelligence := intelligence[id := Lookup(intelligence, id) + [e]];
    }

    /** `get_session_summary`: reads the stores and changes neither. */
    method GetSessionSummary(sessionId: string) returns (r: SummaryResult)
      ensures r == SessionSummary(conversations, intelligence, sessionId)
    {
      var sessionData := Lookup(intelligence, sessionId);
      if |sessionData| == 0 {
        return SummaryNotFound(SummaryNotFoundMessage);
      }
      var merged := AggregateLog(sessionData);
      r := Summary(sessionId, |sessionData|, Lookup(conversations, sessionId), merged, sessionData);
    }

    /** `finalize_session`: builds the payload, hands it to the callback and
        reports both; the stores are not changed. */
    method FinalizeSession(sessionId: string, sendCallback: Payload -> CallbackResult) returns (r: FinalizeResult)
      ensures r == FinalizeOutcome(conversations, intelligence, sessionId, sendCallback)
    {
      var sessionData := Lookup(intelligence, sessionId);
      if |sessionData| == 0 {
        return FinalizeNotFound(FinalizeNotFoundMessage);
      }
      var merged := AggregateLog(sessionData);
      var payload := Payload(sessionId, true, merged, Lookup(conversations, sessionId));
      var callbackResult := sendCallback(payload);
      r := Finalized(payload, callbackResult);
    }
  }
}
