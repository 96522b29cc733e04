# Agentic honeypot: detection, session stores and intelligence extraction

This project is a Dafny model of the core of a scam-honeypot web service. The model covers four parts.

- **Keyword heuristic.** `banking_keyword_score` lower-cases a message and counts how many of fifteen fixed banking keywords occur in it as substrings (module `Detection`).
- **Decision rule.** A message is a scam when the ML score exceeds 0.3 or at least two keywords hit (`Detection.ScamDetected`).
- **Session stores.** The handler keeps two process-wide dictionaries (module `Sessions`):
  - `Sessions.SessionStore.conversations` is `SESSION_CONVERSATIONS`.
  - `Sessions.SessionStore.intelligence` is `SESSION_INTELLIGENCE`.

  The class models the three handlers:
  - `honeypot` checks the API key before any update. It then appends an (incoming message, reply) pair to the session's conversation. It also appends one intelligence entry, but only when a scam is detected.
  - `get_session_summary` and `finalize_session` only read the stores. Each either reports `not_found` or merges every entry's extraction into one set per kind. `finalize_session` hands its payload to a callback.
- **Intelligence extractor.** `extract_intelligence` runs three regular expressions with `re.findall` and turns each result list into a duplicate-free collection (module `IntelligenceExtractor`). Each pattern is modelled in two ways:
  - as a matcher (`PhoneAt`, `UpiAt`, `UrlAt`) that does what Python's backtracking engine does at one position;
  - as a declarative occurrence predicate (`PhoneOccurrence`, `UpiOccurrence`, `UrlOccurrence`).

  `Scan` is the leftmost, non-overlapping walk of `findall`. Extraction results are sets, because the source returns `list(set(...))` and promises no order.

Modules follow the source:
- `Text` holds ASCII character classes, `str.lower` and substring search.
- `Detection` holds `BANKING_KEYWORDS`, `banking_keyword_score` and line 81.
- `IntelligenceExtractor` holds `utils/intelligence_extractor.py`.
- `Sessions` holds the stores and the handlers of `app.py`.
- `Wrappers` holds `Option`.

Two behaviours of the code are worth knowing:
- **A "+91" number after a space or punctuation is never matched.** `\b` before the literal `+` needs a word character in front of it, and the ten-digit tail sits inside a twelve-digit word. So no phone match starts anywhere inside such a number, wherever it stands in the text (`IntelligenceExtractor.SpacedCountryCodeNeverMatched`). For example, " +919876543210" yields no phone number at all (`IntelligenceExtractor.SpacedCountryCodeNotExtracted`).
- **`not_found` bodies carry a `message` text** (`SummaryNotFound(message)`, `FinalizeNotFound(message)`).

Other choices:
- **API key.** The `X-API-KEY` header and the configured key are both `Option<string>`. Python compares `None != None` as false, so an unset key and a missing header count as equal, and the request is accepted.
- **Request field `conversationHistory`.** The model keeps this field, but no handler reads it, as in the source.

## Model

| member | source | states |
|---|---|---|
| Text.LowerChar | app.py:62 | `str.lower` on one ASCII character: an upper-case letter becomes the letter 32 code points above it, and every other character is unchanged |
| Text.Lower | app.py:62 | `str.lower` on ASCII: same length, and each character is mapped by `LowerChar` (only `A`-`Z` change) |
| Text.LowerIdempotent | app.py:62 | lower-casing twice is lower-casing once |
| Text.LowerConcat | app.py:62 | lower-casing distributes over concatenation |
| Text.SubstringExtends | app.py:63 | a substring of `t` stays a substring of any text that contains `t` |
| Detection.Hits | app.py:63 | the generator `sum(1 for w in words if w in text)`: at most one per word, so at most the number of words |
| Detection.ScamDetected | app.py:81 | `ml_score > 0.3 or keyword_hits >= 2` |
| Detection.KeywordScore | app.py:61-63 | the score lies between 0 and 15, the number of keywords |
| Detection.HitsCountsDistinctWords | app.py:63 | for a list without repeats, the count equals the number of distinct listed words that occur in the text, each counted once however often it repeats |
| Detection.BankingKeywordsAreDistinct | app.py:52-59 | the fifteen keywords are pairwise different |
| Detection.KeywordScoreCountsDistinctKeywords | app.py:52-63 | the score is the size of the set of keywords that occur in the lower-cased text |
| Detection.KeywordScoreCaseInsensitive | app.py:61-63 | the score of the lower-cased text equals the score of the text |
| Detection.HitsMonotone | app.py:63 | if every word found in one text is found in another, the second text's count is at least as large |
| Detection.KeywordScoreMonotone | app.py:61-63 | embedding a text in a longer one never lowers its score |
| Detection.BlockedMatchedKeywords | app.py:52-63 | the keywords occurring in "blocked" are exactly "blocked" and "block" |
| Detection.BlockedScoresTwo | app.py:52-63 | the single word "blocked" scores 2 |
| Detection.KeywordsAloneDetect | app.py:79-81 | two or more distinct keywords in the lower-cased text mean detection, whatever the ML score |
| Detection.BlockedAlwaysDetected | app.py:53-81 | "blocked" is detected for every ML score |
| Detection.NotDetectedExactly | app.py:81 | not detected exactly when the score is at most 0.3 and fewer than 2 keywords hit |
| Detection.DetectionMonotone | app.py:81 | raising the score or the hit count never turns detection off |
| Detection.KeywordDetectionSurvivesExtension | app.py:61-81 | a text detected by keywords stays detected inside any longer text |
| IntelligenceExtractor.RunLength | utils/intelligence_extractor.py:7-9 | a greedy character-class run: every character is in the class, and the run stops at the end of the text or at a character outside it |
| IntelligenceExtractor.PhoneAt | utils/intelligence_extractor.py:3 | the phone pattern tried at one position: the `+91` branch first, then the bare number, with `\b` on both sides. A match ends after the start and within the text |
| IntelligenceExtractor.PhoneAtIsOccurrence | utils/intelligence_extractor.py:3 | the matcher (the `+91` branch before the bare branch, with `\b` on both sides) ends at `j` exactly when `[i, j)` is a phone occurrence |
| IntelligenceExtractor.PhoneMatchesDisjoint | utils/intelligence_extractor.py:3 | no phone match starts strictly inside another phone match |
| IntelligenceExtractor.UpiAt | utils/intelligence_extractor.py:7 | the UPI pattern tried at one position: the whole run of local characters (2 to 256) followed by `@`, then the letter run cut at 64 letters, at least 2. A match ends after the start and within the text |
| IntelligenceExtractor.UpiAtSound | utils/intelligence_extractor.py:7 | a match of the UPI matcher is an occurrence: 2-256 local characters, `@`, 2-64 letters, and the domain stops only at 64 letters or at a non-letter |
| IntelligenceExtractor.UpiAtComplete | utils/intelligence_extractor.py:7 | every UPI occurrence at `i` is the match the engine returns at `i` |
| IntelligenceExtractor.UpiAtIsOccurrence | utils/intelligence_extractor.py:7 | the UPI matcher and the occurrence predicate agree in both directions |
| IntelligenceExtractor.UrlAt | utils/intelligence_extractor.py:9 | the URL pattern tried at one position: `https://`, `http://` or `www.`, then the run to the next whitespace, at least one character. A match ends after the start and within the text |
| IntelligenceExtractor.UrlAtIsOccurrence | utils/intelligence_extractor.py:9 | the URL matcher (`https://` tried before `http://`, then `www.`, then greedy `\S+`) ends at `j` exactly when `[i, j)` is a URL occurrence |
| IntelligenceExtractor.MatchAt | utils/intelligence_extractor.py:12-14 | the matcher of the pattern each `findall` call uses. A match ends after the start and within the text |
| IntelligenceExtractor.Scan | utils/intelligence_extractor.py:12-14 | the spans `findall` visits lie within the text, are matches at their starts, and follow one another without overlap |
| IntelligenceExtractor.MatchAtIsOccurrence | utils/intelligence_extractor.py:3-9 | for each pattern, the matcher agrees with the occurrence predicate |
| IntelligenceExtractor.ScanComplete | utils/intelligence_extractor.py:12-14 | every position where a match starts is either a reported start or lies strictly inside a reported match |
| IntelligenceExtractor.FindAll | utils/intelligence_extractor.py:12-14 | the strings `re.findall` returns: the texts of the visited spans, in order |
| IntelligenceExtractor.Extract | utils/intelligence_extractor.py:11-20 | `extract_intelligence`: the three `findall` results, each turned into a set |
| IntelligenceExtractor.FoundIsSpanned | utils/intelligence_extractor.py:12-14 | each `findall` string is the text of some visited span |
| IntelligenceExtractor.SpannedIsFound | utils/intelligence_extractor.py:12-14 | the text of each visited span is in the `findall` list |
| IntelligenceExtractor.InFindAll | utils/intelligence_extractor.py:12-14 | a string is in the `findall` list exactly when it is the text of a visited span |
| IntelligenceExtractor.InField | utils/intelligence_extractor.py:12-20 | a string is in an extracted collection exactly when it is the text of a visited span of that pattern (`list(set(...))` keeps membership) |
| IntelligenceExtractor.ReportedAreOccurrences | utils/intelligence_extractor.py:12-20 | every reported string is a contiguous substring of the text and an occurrence of its pattern |
| IntelligenceExtractor.OccurrencesAreReported | utils/intelligence_extractor.py:12-20 | every occurrence is reported, unless it starts strictly inside an earlier reported match |
| IntelligenceExtractor.PhoneNumbersExact | utils/intelligence_extractor.py:3-17 | the phone numbers are exactly the texts of the phone occurrences, in both directions |
| IntelligenceExtractor.PhoneOccurrenceDelimited | utils/intelligence_extractor.py:3 | a phone match has no word character after it. A bare number has none before it. A `+91` number needs one before the `+` |
| IntelligenceExtractor.UpiOccurrenceShape | utils/intelligence_extractor.py:7 | the text of a UPI occurrence has the handle shape |
| IntelligenceExtractor.UpiShapeSingleAt | utils/intelligence_extractor.py:7 | a handle contains exactly one `@` |
| IntelligenceExtractor.UrlPrefixShape | utils/intelligence_extractor.py:9 | a URL match starts with its prefix, has more after it, and contains no whitespace |
| IntelligenceExtractor.UrlOccurrenceShape | utils/intelligence_extractor.py:9 | the text of a URL occurrence has the URL shape |
| IntelligenceExtractor.ExtractedShapes | utils/intelligence_extractor.py:3-20 | each phone is ten digits starting 6-9, with or without "+91". Each UPI ID is a 2-256 local part, `@`, and a 2-64 letter domain. Each URL has a prefix, at least one more character, and no whitespace |
| IntelligenceExtractor.NoAtSignNoUpiIds | utils/intelligence_extractor.py:13 | text without `@` has no UPI IDs |
| IntelligenceExtractor.EmptyTextExtractsNothing | utils/intelligence_extractor.py:11-20 | the empty text gives three empty collections |
| IntelligenceExtractor.SpacedCountryCodeHasNoPhone | utils/intelligence_extractor.py:3 | a space, `+`, then twelve digits at the end of the text give no phone number |
| IntelligenceExtractor.NoPhoneInsideSpacedCountryCode | utils/intelligence_extractor.py:3 | at any position of any text, where a non-word character comes before a `+` followed by twelve digits, no phone match starts at the `+` or at any of the twelve digits |
| IntelligenceExtractor.SpacedCountryCodeNeverMatched | utils/intelligence_extractor.py:3 | hence no phone occurrence starts inside such a number |
| IntelligenceExtractor.SpacedCountryCodeNotExtracted | utils/intelligence_extractor.py:3 | " +919876543210" gives no phone number |
| Sessions.Lookup | app.py:144 | `dict.get(key, [])`: the stored list, or empty when the key is absent. Line 124 uses `.get(session_id)`, which gives `None`, but the `not session_data` test of line 126 treats `None` and `[]` alike, so `Lookup` serves there too |
| Sessions.Union | app.py:136-138 | each merged collection is the union of the two |
| Sessions.Aggregate | app.py:132-138 | the three sets the loop builds from a session log, entry by entry, in order |
| Sessions.AggregateMembership | app.py:132-138 | a value is in a merged set exactly when some entry of the log extracted it |
| Sessions.AggregateIgnoresOrderAndDuplicates | app.py:132-148 | logs with the same entries, in any order and with any repetition, merge to the same sets |
| Sessions.AggregateLog | app.py:132-138 | the loop that grows three sets with `update` computes the merge of the whole log |
| Sessions.AppendTurnKeepsPaired | app.py:91-99 | appending (message, honeypot reply) keeps every conversation even in length, with the reply at each odd index |
| Sessions.AppendTurnKeepsBacked | app.py:91-99 | appending to a conversation keeps each logged session backed by its conversation |
| Sessions.AppendEntryKeepsBacked | app.py:104-110 | appending an entry after the turn keeps at least two conversation entries per intelligence entry |
| Sessions.AppendEntryKeepsFaithful | app.py:104-110 | appending `{message, extract(message)}` keeps every logged extraction equal to the extraction of its message |
| Sessions.WrongKeyChangesNothing | app.py:72-76 | the request is rejected exactly when the key differs. A rejection is 401 "Invalid or missing API key" and leaves both stores as they were |
| Sessions.AcceptedAppendsTurn | app.py:91-99 | an accepted request adds its session to the conversation keys. It appends exactly two entries, the incoming message and then `{sender: "honeypot", text: reply}`. Earlier entries are kept and other sessions are unchanged |
| Sessions.Respond | app.py:78-88 | the body of an accepted request: the ML score, the keyword score, the decision of line 81, the reply (generated or "Okay, thanks."), and the extraction when detected |
| Sessions.HoneypotStep | app.py:66-119 | one `honeypot` call as a transition of the two stores, with its outcome |
| Sessions.AcceptedRecordsIntelligence | app.py:78-118 | the response carries the ML and keyword scores and the decision of line 81. When not detected: the reply is "Okay, thanks.", nothing is extracted, and the intelligence store is unchanged. When detected: the reply is generated, and exactly one `{message, extract(message)}` entry is appended to that session only, the same extraction the response returns |
| Sessions.HoneypotStepPreservesInvariant | app.py:66-119 | every request, accepted or rejected, keeps the store invariant |
| Sessions.SessionSummary | app.py:124-151 | `get_session_summary` as a value of the two stores |
| Sessions.FinalPayload | app.py:164-181 | the finalize payload: the session id, `scamDetected` true, the merged sets and the conversation |
| Sessions.FinalizeOutcome | app.py:156-189 | `finalize_session` as a value of the two stores and the callback |
| Sessions.SummaryContents | app.py:124-151 | `not_found` exactly when the session has no or an empty log. Otherwise: `totalMessages` is the number of intelligence entries, the conversation and log are the session's own, and each merged set is the union over all entries |
| Sessions.SummaryUnderInvariant | app.py:140-150 | under the invariant, a summary's conversation has at least two entries per counted message, and every logged extraction is the extraction of its message |
| Sessions.FinalizeContents | app.py:156-189 | `not_found` exactly when the summary is. Otherwise the payload has `scamDetected = true` and the summary's merged sets and conversation. The callback's result is passed on, and the payload is the same whatever the callback does |
| Sessions.BlockedMessageIsRecorded | app.py:78-143 | from empty stores, an accepted "blocked" message is detected, and the summary then counts one message over a two-entry conversation |
| Sessions.SessionStore.constructor | app.py:17-18 | both stores start empty and satisfy the invariant |
| Sessions.SessionStore.Honeypot | app.py:66-119 | the response and both new stores are those of `HoneypotStep` applied to the old stores, and the invariant is kept |
| Sessions.SessionStore.AppendMessage | app.py:91-99 | `setdefault(id, []).append(m)` on the conversation store, which alone changes |
| Sessions.SessionStore.AppendEntry | app.py:107-110 | `setdefault(id, []).append(e)` on the intelligence store, which alone changes |
| Sessions.SessionStore.GetSessionSummary | app.py:122-151 | the summary is `SessionSummary` of the current stores, computed by the aggregation loop; nothing is modified |
| Sessions.SessionStore.FinalizeSession | app.py:154-189 | the result is `FinalizeOutcome` of the current stores and the callback; nothing is modified |

## Left out

- ML scoring (`detect_scam_ml` and unpickling the model and vectorizer): these call into scikit-learn. The score is the result of a function passed in, and only the real-valued comparison `> 0.3` is modelled.
- `round(ml_score, 3)` in the response: this is floating-point rounding. `mlScore` is the unrounded score.
- Floating point in general: the score is a Dafny `real`.
- `ml/train_model.py` is not part of this model. It only trains and writes model files.
- `agent/llm_agent.py` is not part of this model. Reply generation is a function `string -> string` passed in.
- `utils/guvi_callback.py` is not part of this model. The callback is a function passed in, and its result is kept as it comes back. Only the two result shapes are modelled: sent with a status code, or failed with an error text.
- HTTP and environment:
  - FastAPI routing, pydantic validation, `load_dotenv` and `os.getenv` are left out.
  - The request arrives already parsed.
  - The configured key is a parameter.
  - The 401 error is returned as a value instead of raised.
  - The `"status"` strings of the bodies are implied by the result's constructor.
- Concurrency: requests are sequential. The thread pool's unsynchronised access to the dictionaries is left out.
- Unicode: characters are treated as ASCII.
  - `\s` and `\S` use the characters Python counts as whitespace below 128 (9-13 and 28-32).
  - `\b` uses ASCII letters, digits and `_`.
  - `\d` is 0-9.
  - `str.lower` maps only A-Z.
  - Non-ASCII letters, digits and spaces behave differently in Python.
- `entry.get("extracted", {})` and `extracted.get(field, [])`: the defaults in the aggregation loops are not modelled. Every entry the handler stores holds a full extraction, so they are never used.
- List order: the lists in responses are sets in the model. `list(set(...))` has no defined order.
- `conversationHistory` of the request is kept but not used, as in the source.

