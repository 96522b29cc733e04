/**
 * `extract_intelligence`: three `re.findall` scans of a message (phone numbers,
 * UPI payment handles, URLs), each reduced to a duplicate-free set.
 *
 * Dafny has no regular expressions, so each pattern is a matcher `...At(s, i)` that
 * returns where the match starting at `i` ends, following the backtracking engine's
 * choice, and `Scan` is `findall`'s leftmost, non-overlapping walk over the text. Each
 * matcher is proved equal to a declarative reading of its pattern (`...Occurrence`),
 * and each reported string is proved to have the pattern's shape.
 */
module IntelligenceExtractor {
  import opened Wrappers
  import opened Text

  /** What `extract_intelligence` returns: the keys `phoneNumbers`, `upiIds`, `urls`,
      each a list built with `list(set(...))`, so only membership is meaningful. */
  datatype Intelligence = Intelligence(phoneNumbers: set<string>, upiIds: set<string>, urls: set<string>)

  const NoIntelligence := Intelligence({}, {}, {})

  /** The three patterns `PHONE_REGEX`, `UPI_REGEX` and `URL_REGEX`. */
  datatype Pattern = PhonePattern | UpiPattern | UrlPattern

  /** A match: the text from `start` up to (not including) `end`. */
  datatype Span = Span(start: nat, end: nat)

  const CountryCode := "+91"
  const MobileLength := 10
  const UpiLocalMin := 2
  const UpiLocalMax := 256
  const UpiDomainMin := 2
  const UpiDomainMax := 64

  // ---------------------------------------------------------------------------
  // Character runs

  /** The classes the patterns repeat: `[a-zA-Z0-9.\-_]`, `[a-zA-Z]` and `\S`. */
  datatype CharClass = UpiLocal | Letter | NonSpace

  predicate IsUpiLocalChar(c: char) { IsAsciiLetter(c) || IsDigit(c) || c == '.' || c == '-' || c == '_' }

  predicate InClass(c: char, cls: CharClass)
  {
    match cls
    case UpiLocal => IsUpiLocalChar(c)
    case Letter => IsAsciiLetter(c)
    case NonSpace => !IsSpace(c)
  }

  /** The length of the longest run of `cls` characters starting at `i`. */
  function RunLength(s: string, i: nat, cls: CharClass): (n: nat)
    requires i <= |s|
    ensures i + n <= |s|
    ensures forall k :: i <= k < i + n ==> InClass(s[k], cls)
    ensures i + n == |s| || !InClass(s[i + n], cls)
    decreases |s| - i
  {
    if i < |s| && InClass(s[i], cls) then 1 + RunLength(s, i + 1, cls) else 0
  }

  /** The run is determined by where the class ends. */
  lemma RunLengthIs(s: string, i: nat, cls: CharClass, n: nat)
    requires i + n <= |s|
    requires forall k :: i <= k < i + n ==> InClass(s[k], cls)
    requires i + n == |s| || !InClass(s[i + n], cls)
    ensures RunLength(s, i, cls) == n
  {
    var r := RunLength(s, i, cls);
  }

  // ---------------------------------------------------------------------------
  // PHONE_REGEX  \b(?:\+91)?[6-9]\d{9}\b

  /** `[6-9]\d{9}`: a ten-digit mobile number. */
  predicate IsMobileNumber(d: string)
  {
    |d| == MobileLength && '6' <= d[0] <= '9' && forall k :: 1 <= k < |d| ==> IsDigit(d[k])
  }

  predicate MobileAt(s: string, i: nat)
  {
    i + MobileLength <= |s| && IsMobileNumber(s[i..i + MobileLength])
  }

  /** `\b` between positions `i - 1` and `i`: exactly one side is a word character
      (the ends of the text count as non-word). */
  predicate WordBoundary(s: string, i: nat)
    requires i <= |s|
  {
    (0 < i && IsWordChar(s[i - 1])) != (i < |s| && IsWordChar(s[i]))
  }

  /** The engine first tries the optional `+91`, then the bare number. */
  function PhoneAt(s: string, i: nat): (r: Option<nat>)
    requires i <= |s|
    ensures r.Some? ==> i < r.value <= |s|
  {
    if WordBoundary(s, i) && OccursAt(CountryCode, s, i) && MobileAt(s, i + 3) && WordBoundary(s, i + 13) then
      Some(i + 13)
    else if WordBoundary(s, i) && MobileAt(s, i) && WordBoundary(s, i + MobileLength) then
      Some(i + MobileLength)
    else
      None
  }

  /** A string the phone pattern can produce: a mobile number, bare or after "+91". */
  predicate PhoneShape(p: string)
  {
    IsMobileNumber(p) || (|p| == 13 && p[..3] == CountryCode && IsMobileNumber(p[3..]))
  }

  /** The phone pattern read declaratively: a phone-shaped piece with `\b` on both sides. */
  predicate PhoneOccurrence(s: string, i: nat, j: nat)
  {
    i <= j <= |s| && PhoneShape(s[i..j]) && WordBoundary(s, i) && WordBoundary(s, j)
  }

  lemma PhoneAtIsOccurrence(s: string, i: nat, j: nat)
    requires i <= |s|
    ensures PhoneAt(s, i) == Some(j) <==> PhoneOccurrence(s, i, j)
  {
    if PhoneAt(s, i) == Some(j) {
      if OccursAt(CountryCode, s, i) && MobileAt(s, i + 3) && WordBoundary(s, i + 13) {
        assert s[i..j][..3] == s[i..i + 3];
        assert s[i..j][3..] == s[i + 3..i + 13];
      }
    }
    if PhoneOccurrence(s, i, j) {
      var p := s[i..j];
      if IsMobileNumber(p) {
        assert s[i] == p[0];
        assert !OccursAt(CountryCode, s, i);
        assert s[i..i + MobileLength] == p;
      } else {
        assert s[i..i + 3] == p[..3];
        assert s[i + 3..i + 13] == p[3..];
      }
    }
  }

  /** Two phone matches never overlap: inside a match every position but the first
      lies between two word characters (or right after the leading `+`, where the
      ten digits that follow run on into the last digits of the match). */
  lemma PhoneMatchesDisjoint(s: string, i: nat, k: nat)
    requires i < k <= |s|
    requires PhoneAt(s, i).Some? && k < PhoneAt(s, i).value
    ensures PhoneAt(s, k) == None
  {
    var e := PhoneAt(s, i).value;
    if OccursAt(CountryCode, s, i) && WordBoundary(s, i) && MobileAt(s, i + 3) && WordBoundary(s, i + 13) {
      assert s[i + 1] == s[i..i + 3][1] == '9' && s[i + 2] == s[i..i + 3][2] == '1';
      assert forall t :: i + 3 <= t < i + 13 ==> IsDigit(s[t]) by {
        forall t | i + 3 <= t < i + 13 ensures IsDigit(s[t]) {
          assert s[t] == s[i + 3..i + 13][t - (i + 3)];
        }
      }
      if k == i + 1 {
        assert !OccursAt(CountryCode, s, k);
        assert !WordBoundary(s, k + MobileLength);
      } else {
        assert !WordBoundary(s, k);
      }
    } else {
      assert e == i + MobileLength && MobileAt(s, i);
      assert IsDigit(s[k - 1]) by {
        assert s[k - 1] == s[i..i + MobileLength][k - 1 - i];
      }
      assert IsDigit(s[k]) by {
        assert s[k] == s[i..i + MobileLength][k - i];
      }
      assert !WordBoundary(s, k);
    }
  }

  // ---------------------------------------------------------------------------
  // UPI_REGEX  [a-zA-Z0-9.\-_]{2,256}@[a-zA-Z]{2,64}

  /** The greedy local part with backtracking can only end right before an `@`, and
      `@` is not a local-part character, so a match needs the whole local run from
      `i` (2 to 256 characters) followed by `@`; the greedy domain then takes up to
      64 letters, and needs at least 2. */
  function UpiAt(s: string, i: nat): (r: Option<nat>)
    requires i <= |s|
    ensures r.Some? ==> i < r.value <= |s|
  {
    var a := i + RunLength(s, i, UpiLocal);
    if UpiLocalMin <= a - i <= UpiLocalMax && a < |s| && s[a] == '@' then
      var run := RunLength(s, a + 1, Letter);
      var m := if run < UpiDomainMax then run else UpiDomainMax;
      if m >= UpiDomainMin then Some(a + 1 + m) else None
    else
      None
  }

  /** The UPI pattern read declaratively, with the `@` at index `a`: a local part of
      2 to 256 local characters, `@`, and a domain of 2 to 64 letters that stops only
      at 64 letters, at the end of the text or before a non-letter (greediness). */
  predicate UpiSplit(s: string, i: nat, a: nat, j: nat)
  {
    && i + UpiLocalMin <= a <= i + UpiLocalMax
    && a + 1 + UpiDomainMin <= j <= a + 1 + UpiDomainMax
    && j <= |s|
    && s[a] == '@'
    && (forall t :: i <= t < a ==> IsUpiLocalChar(s[t]))
    && (forall t :: a < t < j ==> IsAsciiLetter(s[t]))
    && (j == a + 1 + UpiDomainMax || j == |s| || !IsAsciiLetter(s[j]))
  }

  predicate UpiOccurrence(s: string, i: nat, j: nat)
  {
    i <= j <= |s| && exists a :: i <= a < j && UpiSplit(s, i, a, j)
  }

  /** A handle: exactly one `@`, after 2 to 256 local characters and before 2 to 64 letters. */
  predicate UpiShape(u: string)
  {
    exists a :: 0 <= a < |u| && UpiSplitShape(u, a)
  }

  predicate UpiSplitShape(u: string, a: nat)
  {
    && a < |u|
    && UpiLocalMin <= a <= UpiLocalMax
    && UpiDomainMin <= |u| - a - 1 <= UpiDomainMax
    && u[a] == '@'
    && (forall t :: 0 <= t < a ==> IsUpiLocalChar(u[t]))
    && (forall t :: a < t < |u| ==> IsAsciiLetter(u[t]))
  }

  lemma UpiAtSound(s: string, i: nat, j: nat)
    requires i <= |s| && UpiAt(s, i) == Some(j)
    ensures UpiOccurrence(s, i, j)
  {
    var a := i + RunLength(s, i, UpiLocal);
    assert UpiSplit(s, i, a, j);
  }

  lemma UpiAtComplete(s: string, i: nat, j: nat)
    requires i <= |s| && UpiOccurrence(s, i, j)
    ensures UpiAt(s, i) == Some(j)
  {
    var a :| i <= a < j && UpiSplit(s, i, a, j);
    RunLengthIs(s, i, UpiLocal, a - i);
    if j < a + 1 + UpiDomainMax {
      RunLengthIs(s, a + 1, Letter, j - a - 1);
    } else {
      assert RunLength(s, a + 1, Letter) >= UpiDomainMax;
    }
  }

  lemma UpiAtIsOccurrence(s: string, i: nat, j: nat)
    requires i <= |s|
    ensures UpiAt(s, i) == Some(j) <==> UpiOccurrence(s, i, j)
  {
    if UpiAt(s, i) == Some(j) {
      UpiAtSound(s, i, j);
    }
    if UpiOccurrence(s, i, j) {
      UpiAtComplete(s, i, j);
    }
  }

  // ---------------------------------------------------------------------------
  // URL_REGEX  (https?://\S+|www\.\S+)

  /** The length of the prefix the engine accepts at `i`: `https://` is tried before
      `http://` (the `s?` is greedy), then `www.`; 0 when none applies. */
  function UrlPrefixLength(s: string, i: nat): (n: nat)
  {
    if OccursAt("https://", s, i) then 8
    else if OccursAt("http://", s, i) then 7
    else if OccursAt("www.", s, i) then 4
    else 0
  }

  /** `\S+` is greedy and ends the pattern, so it runs to the next whitespace. */
  function UrlAt(s: string, i: nat): (r: Option<nat>)
    requires i <= |s|
    ensures r.Some? ==> i < r.value <= |s|
  {
    var pre := UrlPrefixLength(s, i);
    if pre == 0 then None
    else
      var n := RunLength(s, i + pre, NonSpace);
      if n >= 1 then Some(i + pre + n) else None
  }

  /** At least one non-space character from `b` up to `j`, which is whitespace or the end. */
  predicate UrlTail(s: string, b: nat, j: nat)
  {
    b < j <= |s| && (forall t :: b <= t < j ==> !IsSpace(s[t])) && (j == |s| || IsSpace(s[j]))
  }

  /** The URL pattern read declaratively. */
  predicate UrlOccurrence(s: string, i: nat, j: nat)
  {
    i <= j <= |s| &&
    ((OccursAt("http://", s, i) && UrlTail(s, i + 7, j)) ||
     (OccursAt("https://", s, i) && UrlTail(s, i + 8, j)) ||
     (OccursAt("www.", s, i) && UrlTail(s, i + 4, j)))
  }

  /** A URL: one of the three prefixes, at least one more character, no whitespace. */
  predicate UrlShape(u: string)
  {
    && ((OccursAt("http://", u, 0) && |u| > 7) || (OccursAt("https://", u, 0) && |u| > 8) || (OccursAt("www.", u, 0) && |u| > 4))
    && forall k :: 0 <= k < |u| ==> !IsSpace(u[k])
  }

  lemma UrlAtIsOccurrence(s: string, i: nat, j: nat)
    requires i <= |s|
    ensures UrlAt(s, i) == Some(j) <==> UrlOccurrence(s, i, j)
  {
    if OccursAt("https://", s, i) {
      assert s[i + 4] == s[i..i + 8][4] == 's';
      assert !OccursAt("http://", s, i);
      assert s[i] == s[i..i + 8][0] == 'h';
      assert !OccursAt("www.", s, i);
    } else if OccursAt("http://", s, i) {
      assert s[i] == s[i..i + 7][0] == 'h';
      assert !OccursAt("www.", s, i);
    }
    var pre := UrlPrefixLength(s, i);
    if pre != 0 && UrlTail(s, i + pre, j) {
      RunLengthIs(s, i + pre, NonSpace, j - (i + pre));
    }
  }

  // ---------------------------------------------------------------------------
  // findall

  function MatchAt(p: Pattern, s: string, i: nat): (r: Option<nat>)
    requires i <= |s|
    ensures r.Some? ==> i < r.value <= |s|
  {
    match p
    case PhonePattern => PhoneAt(s, i)
    case UpiPattern => UpiAt(s, i)
    case UrlPattern => UrlAt(s, i)
  }

  /** `re.findall`'s walk from position `i`: try a match at each position; after a
      match continue at its end, otherwise one position further. (No pattern here
      matches the empty string, so no match can start at the end of the text.) */
  function Scan(p: Pattern, s: string, i: nat): (spans: seq<Span>)
    requires i <= |s|
    ensures forall sp :: sp in spans ==> i <= sp.start < sp.end <= |s| && MatchAt(p, s, sp.start) == Some(sp.end)
    ensures forall a, b :: 0 <= a < b < |spans| ==> spans[a].end <= spans[b].start
    decreases |s| - i
  {
    if i == |s| then []
    else
      match MatchAt(p, s, i)
      case Some(j) => [Span(i, j)] + Scan(p, s, j)
      case None => Scan(p, s, i + 1)
  }

  /** `re.findall(pattern, s)`: the matched pieces in order. */
  function FindAll(p: Pattern, s: string): (r: seq<string>)
  {
    var spans := Scan(p, s, 0);
    seq(|spans|, k requires 0 <= k < |spans| => s[spans[k].start..spans[k].end])
  }

  /** `extract_intelligence(text)`. */
  function Extract(text: string): (r: Intelligence)
  {
    Intelligence(
      set x | x in FindAll(PhonePattern, text),
      set x | x in FindAll(UpiPattern, text),
      set x | x in FindAll(UrlPattern, text))
  }

  /** The field of an extraction that holds the matches of `p`. */
  function Field(p: Pattern, r: Intelligence): (values: set<string>)
  {
    match p
    case PhonePattern => r.phoneNumbers
    case UpiPattern => r.upiIds
    case UrlPattern => r.urls
  }

  // ---------------------------------------------------------------------------
  // What findall reports

  predicate Occurrence(p: Pattern, s: string, i: nat, j: nat)
  {
    match p
    case PhonePattern => PhoneOccurrence(s, i, j)
    case UpiPattern => UpiOccurrence(s, i, j)
    case UrlPattern => UrlOccurrence(s, i, j)
  }

  lemma MatchAtIsOccurrence(p: Pattern, s: string, i: nat, j: nat)
    requires i <= |s|
    ensures MatchAt(p, s, i) == Some(j) <==> Occurrence(p, s, i, j)
  {
    match p
    case PhonePattern => PhoneAtIsOccurrence(s, i, j);
    case UpiPattern => UpiAtIsOccurrence(s, i, j);
    case UrlPattern => UrlAtIsOccurrence(s, i, j);
  }

  /** Leftmost, non-overlapping: every match at or after `i` is either reported or
      starts strictly inside a reported match. */
  lemma {:induction false} ScanComplete(p: Pattern, s: string, i: nat, k: nat)
    requires i <= k < |s| && MatchAt(p, s, k).Some?
    ensures exists sp :: sp in Scan(p, s, i) && (sp.start == k || sp.start < k < sp.end)
    decreases |s| - i
  {
    var spans := Scan(p, s, i);
    match MatchAt(p, s, i)
    case Some(j) =>
      assert spans == [Span(i, j)] + Scan(p, s, j);
      if k < j {
        assert spans[0] in spans;
      } else {
        ScanComplete(p, s, j, k);
        var sp :| sp in Scan(p, s, j) && (sp.start == k || sp.start < k < sp.end);
        assert sp in spans;
      }
    case None =>
      if i == k {
        assert false;
      } else {
        ScanComplete(p, s, i + 1, k);
      }
  }

  lemma FoundIsSpanned(p: Pattern, s: string, x: string)
    requires x in FindAll(p, s)
    ensures exists sp :: sp in Scan(p, s, 0) && s[sp.start..sp.end] == x
  {
    var spans := Scan(p, s, 0);
    var found := FindAll(p, s);
    var k :| 0 <= k < |found| && found[k] == x;
    assert spans[k] in spans;
  }

  lemma SpannedIsFound(p: Pattern, s: string, sp: Span)
    requires sp in Scan(p, s, 0)
    ensures sp.start <= sp.end <= |s| && s[sp.start..sp.end] in FindAll(p, s)
  {
    var spans := Scan(p, s, 0);
    var k :| 0 <= k < |spans| && spans[k] == sp;
    assert FindAll(p, s)[k] == s[sp.start..sp.end];
  }

  /** A string is found exactly when some reported span covers it. */
  lemma InFindAll(p: Pattern, s: string, x: string)
    ensures x in FindAll(p, s) <==> exists sp :: sp in Scan(p, s, 0) && s[sp.start..sp.end] == x
  {
    if x in FindAll(p, s) {
      FoundIsSpanned(p, s, x);
    }
    if exists sp :: sp in Scan(p, s, 0) && s[sp.start..sp.end] == x {
      var sp :| sp in Scan(p, s, 0) && s[sp.start..sp.end] == x;
      SpannedIsFound(p, s, sp);
    }
  }

  lemma InField(p: Pattern, s: string, x: string)
    ensures x in Field(p, Extract(s)) <==> exists sp :: sp in Scan(p, s, 0) && s[sp.start..sp.end] == x
  {
    assert x in Field(p, Extract(s)) <==> x in FindAll(p, s);
    InFindAll(p, s, x);
  }

  /** Every reported string is a piece `s[i..j]` where the pattern matches. */
  lemma ReportedAreOccurrences(p: Pattern, s: string, x: string)
    requires x in Field(p, Extract(s))
    ensures exists i: nat, j: nat :: Occurrence(p, s, i, j) && i <= j <= |s| && s[i..j] == x
  {
    InField(p, s, x);
    var sp :| sp in Scan(p, s, 0) && s[sp.start..sp.end] == x;
    MatchAtIsOccurrence(p, s, sp.start, sp.end);
  }

  /** Every occurrence of a pattern is reported unless it starts inside a reported match. */
  lemma OccurrencesAreReported(p: Pattern, s: string, i: nat, j: nat)
    requires Occurrence(p, s, i, j) && i <= j <= |s|
    ensures s[i..j] in Field(p, Extract(s)) || exists sp :: sp in Scan(p, s, 0) && sp.start < i < sp.end
  {
    MatchAtIsOccurrence(p, s, i, j);
    ScanComplete(p, s, 0, i);
    var sp :| sp in Scan(p, s, 0) && (sp.start == i || sp.start < i < sp.end);
    if sp.start == i {
      InField(p, s, s[i..j]);
    }
  }

  // ---------------------------------------------------------------------------
  // Properties of extract_intelligence

  /** The phone numbers are exactly the phone occurrences of the text: since two
      phone matches never overlap, the leftmost walk misses none of them. */
  lemma PhoneNumbersExact(text: string, x: string)
    ensures x in Extract(text).phoneNumbers <==>
            exists i: nat, j: nat :: PhoneOccurrence(text, i, j) && text[i..j] == x
  {
    if x in Extract(text).phoneNumbers {
      ReportedAreOccurrences(PhonePattern, text, x);
    }
    if exists i: nat, j: nat :: PhoneOccurrence(text, i, j) && text[i..j] == x {
      var i: nat, j: nat :| PhoneOccurrence(text, i, j) && text[i..j] == x;
      assert Occurrence(PhonePattern, text, i, j);
      OccurrencesAreReported(PhonePattern, text, i, j);
      if x !in Extract(text).phoneNumbers {
        var sp :| sp in Scan(PhonePattern, text, 0) && sp.start < i < sp.end;
        PhoneMatchesDisjoint(text, sp.start, i);
        PhoneAtIsOccurrence(text, i, j);
        assert false;
      }
    }
  }

  /** A phone match is delimited in `\b` terms: no word character follows it, a bare
      number has no word character before it, and a `+91` form needs one before the
      `+` (so " +919876543210" yields nothing, and neither does the digit tail). */
  lemma PhoneOccurrenceDelimited(s: string, i: nat, j: nat)
    requires PhoneOccurrence(s, i, j)
    ensures j == |s| || !IsWordChar(s[j])
    ensures s[i] == '+' ==> 0 < i && IsWordChar(s[i - 1])
    ensures s[i] != '+' ==> IsDigit(s[i]) && (i == 0 || !IsWordChar(s[i - 1]))
  {
    var p := s[i..j];
    assert s[j - 1] == p[|p| - 1];
    assert s[i] == p[0];
    if !IsMobileNumber(p) {
      assert p[0] == p[..3][0] == '+';
      assert p[|p| - 1] == p[3..][9];
    }
  }

  lemma UpiOccurrenceShape(s: string, i: nat, j: nat)
    requires UpiOccurrence(s, i, j)
    ensures UpiShape(s[i..j])
  {
    var a :| i <= a < j && UpiSplit(s, i, a, j);
    var u := s[i..j];
    assert UpiSplitShape(u, a - i) by {
      assert forall t :: 0 <= t < |u| ==> u[t] == s[i + t];
    }
  }

  /** A handle holds exactly one `@`. */
  lemma UpiShapeSingleAt(u: string)
    requires UpiShape(u)
    ensures exists a :: 0 <= a < |u| && u[a] == '@' && forall t :: 0 <= t < |u| && u[t] == '@' ==> t == a
  {
    var a :| 0 <= a < |u| && UpiSplitShape(u, a);
    assert forall t :: 0 <= t < |u| && u[t] == '@' ==> t == a;
  }

  /** The match text from a prefix `pre` without whitespace and its tail. */
  lemma UrlPrefixShape(s: string, i: nat, j: nat, pre: string)
    requires OccursAt(pre, s, i) && UrlTail(s, i + |pre|, j)
    requires forall k :: 0 <= k < |pre| ==> !IsSpace(pre[k])
    ensures OccursAt(pre, s[i..j], 0) && |s[i..j]| > |pre|
    ensures forall k :: 0 <= k < j - i ==> !IsSpace(s[i..j][k])
  {
    var u := s[i..j];
    assert u[..|pre|] == s[i..i + |pre|];
    forall k | 0 <= k < |u| ensures !IsSpace(u[k]) {
      if k < |pre| {
        assert u[k] == s[i..i + |pre|][k] == pre[k];
      } else {
        assert u[k] == s[i + k];
      }
    }
  }

  lemma UrlOccurrenceShape(s: string, i: nat, j: nat)
    requires UrlOccurrence(s, i, j)
    ensures UrlShape(s[i..j])
  {
    if OccursAt("http://", s, i) && UrlTail(s, i + 7, j) {
      UrlPrefixShape(s, i, j, "http://");
    } else if OccursAt("https://", s, i) && UrlTail(s, i + 8, j) {
      UrlPrefixShape(s, i, j, "https://");
    } else {
      UrlPrefixShape(s, i, j, "www.");
    }
  }

  /** Every reported string has its pattern's shape: a mobile number with or without
      "+91"; a handle with one `@` between the bounded local part and domain; a URL
      with one of the three prefixes, something after it and no whitespace. */
  lemma ExtractedShapes(text: string)
    ensures forall x :: x in Extract(text).phoneNumbers ==> PhoneShape(x)
    ensures forall x :: x in Extract(text).upiIds ==> UpiShape(x)
    ensures forall x :: x in Extract(text).urls ==> UrlShape(x)
  {
    forall x | x in Extract(text).phoneNumbers ensures PhoneShape(x) {
      ReportedAreOccurrences(PhonePattern, text, x);
    }
    forall x | x in Extract(text).upiIds ensures UpiShape(x) {
      ReportedAreOccurrences(UpiPattern, text, x);
      var i: nat, j: nat :| Occurrence(UpiPattern, text, i, j) && i <= j <= |text| && text[i..j] == x;
      UpiOccurrenceShape(text, i, j);
    }
    forall x | x in Extract(text).urls ensures UrlShape(x) {
      ReportedAreOccurrences(UrlPattern, text, x);
      var i: nat, j: nat :| Occurrence(UrlPattern, text, i, j) && i <= j <= |text| && text[i..j] == x;
      UrlOccurrenceShape(text, i, j);
    }
  }

  /** Without an `@` in the text there is no payment handle. */
  lemma NoAtSignNoUpiIds(text: string)
    requires '@' !in text
    ensures Extract(text).upiIds == {}
  {
    if x :| x in Extract(text).upiIds {
      ReportedAreOccurrences(UpiPattern, text, x);
    }
  }

  /** The empty message yields three empty collections. */
  lemma EmptyTextExtractsNothing()
    ensures Extract("") == NoIntelligence
  {
  }

  /** Anywhere in a text, no phone match starts inside a "+" that follows a non-word
      character and is followed by twelve digits: `\b` before the `+` fails, the
      bare number right after the `+` runs into a digit, and every later start
      has a digit just before it. */
  lemma NoPhoneInsideSpacedCountryCode(s: string, i: nat, k: nat)
    requires 0 < i && i + 13 <= |s| && !IsWordChar(s[i - 1]) && s[i] == '+'
    requires forall t :: i + 1 <= t < i + 13 ==> IsDigit(s[t])
    requires i <= k < i + 13
    ensures PhoneAt(s, k) == None
  {
    if k == i + 1 {
      assert !WordBoundary(s, k + MobileLength);
    } else if k > i + 1 {
      assert !WordBoundary(s, k);
    }
  }

  /** Hence no phone occurrence starts within such a number, wherever it stands. */
  lemma SpacedCountryCodeNeverMatched(s: string, i: nat)
    requires 0 < i && i + 13 <= |s| && !IsWordChar(s[i - 1]) && s[i] == '+'
    requires forall t :: i + 1 <= t < i + 13 ==> IsDigit(s[t])
    ensures forall k: nat, j: nat :: i <= k < i + 13 ==> !PhoneOccurrence(s, k, j)
  {
    forall k: nat, j: nat | i <= k < i + 13 ensures !PhoneOccurrence(s, k, j) {
      NoPhoneInsideSpacedCountryCode(s, i, k);
      PhoneAtIsOccurrence(s, k, j);
    }
  }

  /** A "+" after a non-word character followed by twelve digits and the end of the
      text holds no phone match: `\b` before the `+` fails, and every ten-digit
      window inside the digit run touches a word character on one side. */
  lemma SpacedCountryCodeHasNoPhone(s: string)
    requires |s| == 14 && !IsWordChar(s[0]) && s[1] == '+'
    requires forall k :: 2 <= k < 14 ==> IsDigit(s[k])
    ensures Extract(s).phoneNumbers == {}
  {
    forall x | x in Extract(s).phoneNumbers ensures false {
      PhoneNumbersExact(s, x);
    }
  }

  /** The message " +919876543210" yields no phone number. */
  lemma SpacedCountryCodeNotExtracted()
    ensures Extract(" +919876543210").phoneNumbers == {}
  {
    SpacedCountryCodeHasNoPhone(" +919876543210");
  }
}
