/**
 * The memory processor of the companion: the keyword rules that turn one
 * utterance into tagged memory candidates, and the rendering of retrieved
 * memories into the context message sent to the response generator.
 */
module MemoryProcessor {
  import opened Text

  /** The four kinds of memory the rules can emit, in rule order. */
  datatype MemoryType = PersonalInfo | Preference | Event | Emotion

  /** One entry of the list `extract_important_info` returns. */
  datatype MemoryCandidate = MemoryCandidate(memoryType: MemoryType, content: string, importance: int)

  /** The rules in the order they are tried. */
  const MemoryTypes: seq<MemoryType> := [PersonalInfo, Preference, Event, Emotion]

  const PersonalInfoCues: seq<string> := ["my name is", "i'm", "i am"]
  const PreferenceCues: seq<string> := ["favorite", "love", "like", "prefer"]
  const EventCues: seq<string> := ["birthday", "anniversary", "tomorrow", "yesterday", "meeting"]
  const EmotionCues: seq<string> := ["happy", "sad", "excited", "worried", "stressed"]

  /** The trigger phrases of each rule. */
  function Cues(t: MemoryType): seq<string> {
    match t
    case PersonalInfo => PersonalInfoCues
    case Preference => PreferenceCues
    case Event => EventCues
    case Emotion => EmotionCues
  }

  /** The fixed importance each rule stamps on its record. */
  function Importance(t: MemoryType): int {
    match t
    case PersonalInfo => 8
    case Preference => 6
    case Event => 7
    case Emotion => 5
  }

  /** The `type` string stored with a memory row. */
  function TypeName(t: MemoryType): string {
    match t
    case PersonalInfo => "personal_info"
    case Preference => "preference"
    case Event => "event"
    case Emotion => "emotion"
  }

  /** Position of a rule in rule order. */
  function Rank(t: MemoryType): nat {
    match t
    case PersonalInfo => 0
    case Preference => 1
    case Event => 2
    case Emotion => 3
  }

  /** A rule fires when one of its cues occurs in the lower-cased text. */
  predicate Fires(t: MemoryType, lowerText: string) {
    ContainsAny(lowerText, Cues(t))
  }

  /** The records the rules `types` emit for `text`, tried in that order. */
  function Candidates(types: seq<MemoryType>, text: string): seq<MemoryCandidate> {
    if |types| == 0 then []
    else
      (if Fires(types[0], Lower(text)) then [MemoryCandidate(types[0], text, Importance(types[0]))] else [])
      + Candidates(types[1..], text)
  }

  /** Some record in `records` has type `t`. */
  predicate HasRecord(records: seq<MemoryCandidate>, t: MemoryType) {
    exists k :: 0 <= k < |records| && records[k].memoryType == t
  }

  /** What `extract_important_info(text)` returns: every rule that fires, in rule order. */
  function Extract(text: string): seq<MemoryCandidate> {
    Candidates(MemoryTypes, text)
  }

  /**
   * The source builds the list by appending under four independent tests
   * on the lower-cased text.
   */
  method ExtractImportantInfo(text: string) returns (memories: seq<MemoryCandidate>)
    ensures memories == Extract(text)
  {
    memories := [];
    var lowerText := Lower(text);
    if Contains(lowerText, "my name is") || Contains(lowerText, "i'm") || Contains(lowerText, "i am") {
      memories := memories + [MemoryCandidate(PersonalInfo, text, 8)];
    }
    if ContainsAny(lowerText, PreferenceCues) {
      memories := memories + [MemoryCandidate(Preference, text, 6)];
    }
    if ContainsAny(lowerText, EventCues) {
      memories := memories + [MemoryCandidate(Event, text, 7)];
    }
    if ContainsAny(lowerText, EmotionCues) {
      memories := memories + [MemoryCandidate(Emotion, text, 5)];
    }
    ExtractUnfolded(text);
  }

  /** The personal-information rule fires on exactly its three phrases. */
  lemma PersonalInfoFires(lowerText: string)
    ensures Fires(PersonalInfo, lowerText) <==>
              Contains(lowerText, "my name is") || Contains(lowerText, "i'm") || Contains(lowerText, "i am")
  {
    var cues := PersonalInfoCues;
    assert cues[0] == "my name is" && cues[1] == "i'm" && cues[2] == "i am";
    if Fires(PersonalInfo, lowerText) {
      var k :| 0 <= k < |cues| && Contains(lowerText, cues[k]);
      assert k == 0 || k == 1 || k == 2;
    }
  }

  /** Regrouping four concatenated pieces. */
  lemma Regroup<T>(a: seq<T>, b: seq<T>, c: seq<T>, d: seq<T>)
    ensures a + (b + (c + d)) == a + b + c + d
  {
  }

  /** `Extract` with its four rules written out one after the other. */
  lemma ExtractUnfolded(text: string)
    ensures Extract(text) ==
              (if Contains(Lower(text), "my name is") || Contains(Lower(text), "i'm") || Contains(Lower(text), "i am")
               then [MemoryCandidate(PersonalInfo, text, 8)] else [])
            + (if ContainsAny(Lower(text), PreferenceCues) then [MemoryCandidate(Preference, text, 6)] else [])
            + (if ContainsAny(Lower(text), EventCues) then [MemoryCandidate(Event, text, 7)] else [])
            + (if ContainsAny(Lower(text), EmotionCues) then [MemoryCandidate(Emotion, text, 5)] else [])
  {
    var lowerText := Lower(text);
    PersonalInfoFires(lowerText);
    var a := if Fires(PersonalInfo, lowerText) then [MemoryCandidate(PersonalInfo, text, 8)] else [];
    var b := if Fires(Preference, lowerText) then [MemoryCandidate(Preference, text, 6)] else [];
    var c := if Fires(Event, lowerText) then [MemoryCandidate(Event, text, 7)] else [];
    var d := if Fires(Emotion, lowerText) then [MemoryCandidate(Emotion, text, 5)] else [];
    var ts := MemoryTypes;
    assert ts[1..] == [Preference, Event, Emotion];
    assert ts[1..][1..] == [Event, Emotion];
    assert ts[1..][1..][1..] == [Emotion];
    assert ts[1..][1..][1..][1..] == [];
    assert Candidates(ts[1..][1..][1..], text) == d + [];
    assert d + [] == d;
    assert Candidates(ts[1..][1..], text) == c + d;
    assert Candidates(ts[1..], text) == b + (c + d);
    assert Candidates(ts, text) == a + (b + (c + d));
    Regroup(a, b, c, d);
  }

  // ---------------------------------------------------------------------------
  // Properties of the rules
  // ---------------------------------------------------------------------------

  /** Every record carries the input verbatim and the importance of its type. */
  lemma {:induction false} CandidatesShape(types: seq<MemoryType>, text: string)
    ensures |Candidates(types, text)| <= |types|
    ensures forall k :: 0 <= k < |Candidates(types, text)| ==>
              && Candidates(types, text)[k].content == text
              && Candidates(types, text)[k].importance == Importance(Candidates(types, text)[k].memoryType)
              && Candidates(types, text)[k].memoryType in types
  {
    if |types| > 0 {
      CandidatesShape(types[1..], text);
    }
  }

  /** Records keep the order of the rules that emitted them. */
  lemma {:induction false} CandidatesOrdered(types: seq<MemoryType>, text: string)
    requires forall i, j :: 0 <= i < j < |types| ==> Rank(types[i]) < Rank(types[j])
    ensures forall i, j :: 0 <= i < j < |Candidates(types, text)| ==>
              Rank(Candidates(types, text)[i].memoryType) < Rank(Candidates(types, text)[j].memoryType)
  {
    if |types| > 0 {
      CandidatesOrdered(types[1..], text);
      CandidatesShape(types[1..], text);
      var rest := Candidates(types[1..], text);
      forall k | 0 <= k < |rest|
        ensures Rank(types[0]) < Rank(rest[k].memoryType)
      {
        var j :| 0 <= j < |types[1..]| && types[1..][j] == rest[k].memoryType;
        assert types[1..][j] == types[j + 1];
      }
    }
  }

  lemma HasRecordAppend(a: seq<MemoryCandidate>, b: seq<MemoryCandidate>, t: MemoryType)
    ensures HasRecord(a + b, t) <==> HasRecord(a, t) || HasRecord(b, t)
  {
    if HasRecord(a + b, t) {
      var k :| 0 <= k < |a + b| && (a + b)[k].memoryType == t;
      if k >= |a| {
        assert b[k - |a|] == (a + b)[k];
      }
    }
    if HasRecord(a, t) {
      var k :| 0 <= k < |a| && a[k].memoryType == t;
      assert (a + b)[k] == a[k];
    }
    if HasRecord(b, t) {
      var k :| 0 <= k < |b| && b[k].memoryType == t;
      assert (a + b)[|a| + k] == b[k];
    }
  }

  /** A type has a record exactly when it is among the rules and its rule fires. */
  lemma {:induction false} CandidatesFire(types: seq<MemoryType>, text: string, t: MemoryType)
    ensures HasRecord(Candidates(types, text), t) <==> t in types && Fires(t, Lower(text))
  {
    if |types| > 0 {
      CandidatesFire(types[1..], text, t);
      var head := if Fires(types[0], Lower(text)) then [MemoryCandidate(types[0], text, Importance(types[0]))] else [];
      HasRecordAppend(head, Candidates(types[1..], text), t);
      assert HasRecord(head, t) <==> t == types[0] && Fires(t, Lower(text)) by {
        if HasRecord(head, t) {
          var k :| 0 <= k < |head| && head[k].memoryType == t;
        }
        if t == types[0] && Fires(t, Lower(text)) {
          assert head[0].memoryType == t;
        }
      }
      assert types == [types[0]] + types[1..];
    }
  }

  /** Which records are emitted depends only on the lower-cased text. */
  lemma {:induction false} CandidatesCaseInsensitive(types: seq<MemoryType>, a: string, b: string)
    requires Lower(a) == Lower(b)
    ensures |Candidates(types, a)| == |Candidates(types, b)|
    ensures forall k :: 0 <= k < |Candidates(types, a)| ==>
              && Candidates(types, a)[k].memoryType == Candidates(types, b)[k].memoryType
              && Candidates(types, a)[k].importance == Candidates(types, b)[k].importance
  {
    if |types| > 0 {
      CandidatesCaseInsensitive(types[1..], a, b);
    }
  }

  /**
   * At most four records; each holds the original (not lower-cased) text and
   * the fixed importance of its type (personal_info 8, preference 6, event 7,
   * emotion 5); types appear in rule order, each at most once.
   */
  lemma ExtractShape(text: string)
    ensures |Extract(text)| <= 4
    ensures forall k :: 0 <= k < |Extract(text)| ==>
              Extract(text)[k].content == text && Extract(text)[k].importance == Importance(Extract(text)[k].memoryType)
    ensures forall i, j :: 0 <= i < j < |Extract(text)| ==>
              Rank(Extract(text)[i].memoryType) < Rank(Extract(text)[j].memoryType)
  {
    CandidatesShape(MemoryTypes, text);
    CandidatesOrdered(MemoryTypes, text);
  }

  /**
   * A rule emits its record exactly when one of its cues is a substring of
   * the lower-cased text.
   */
  lemma ExtractFiresIff(text: string, t: MemoryType)
    ensures HasRecord(Extract(text), t) <==> exists w, i :: w in Cues(t) && OccursAt(Lower(text), w, i)
  {
    CandidatesFire(MemoryTypes, text, t);
    assert t in MemoryTypes;
    var cues := Cues(t);
    forall k | 0 <= k < |cues| {
      ContainsIff(Lower(text), cues[k]);
    }
    if exists w, i :: w in cues && OccursAt(Lower(text), w, i) {
      var w, i :| w in cues && OccursAt(Lower(text), w, i);
      var k :| 0 <= k < |cues| && cues[k] == w;
      assert Contains(Lower(text), cues[k]);
    }
    if Fires(t, Lower(text)) {
      var k :| 0 <= k < |cues| && Contains(Lower(text), cues[k]);
      var i :| OccursAt(Lower(text), cues[k], i);
      assert cues[k] in Cues(t);
      assert OccursAt(Lower(text), cues[k], i);
    }
  }

  /** A text with no cue of any rule yields no record. */
  lemma ExtractNothing(text: string)
    requires forall t: MemoryType :: !Fires(t, Lower(text))
    ensures Extract(text) == []
  {
    if Extract(text) != [] {
      CandidatesShape(MemoryTypes, text);
      CandidatesFire(MemoryTypes, text, Extract(text)[0].memoryType);
    }
  }

  /** Texts equal up to case yield records of the same types and importances. */
  lemma ExtractCaseInsensitive(a: string, b: string)
    requires Lower(a) == Lower(b)
    ensures |Extract(a)| == |Extract(b)|
    ensures forall k :: 0 <= k < |Extract(a)| ==>
              Extract(a)[k].memoryType == Extract(b)[k].memoryType && Extract(a)[k].importance == Extract(b)[k].importance
  {
    CandidatesCaseInsensitive(MemoryTypes, a, b);
  }

  // ---------------------------------------------------------------------------
  // Context message
  // ---------------------------------------------------------------------------

  const ContextHeader: string := "Here's what I remember:"

  /** One `- doc` line per document. */
  function Bullets(docs: seq<string>): (r: seq<string>)
    ensures |r| == |docs|
  {
    seq(|docs|, k requires 0 <= k < |docs| => "- " + docs[k])
  }

  /**
   * `get_relevant_context` given the `documents` field of the search result
   * (one list per query text; only the first is used).
   */
  function RelevantContext(documents: seq<seq<string>>): (context: string)
    ensures context == "" <==> |documents| == 0
    ensures |documents| > 0 ==> ContextHeader + "\n" <= context
  {
    if |documents| == 0 then ""
    else ContextHeader + "\n" + Join(Bullets(documents[0]), "\n")
  }

  /**
   * Read back line by line, the context is the header followed by one
   * `- doc` line per document of the first query (a lone empty line when
   * that query found nothing).
   */
  lemma ContextLines(documents: seq<seq<string>>)
    requires |documents| > 0
    requires forall k :: 0 <= k < |documents[0]| ==> '\n' !in documents[0][k]
    ensures SplitLines(RelevantContext(documents)) ==
            [ContextHeader] + (if |documents[0]| == 0 then [""] else Bullets(documents[0]))
  {
    var bullets := Bullets(documents[0]);
    forall k | 0 <= k < |bullets|
      ensures '\n' !in bullets[k]
    {
      assert bullets[k] == "- " + documents[0][k];
    }
    SplitAfterLine(ContextHeader, Join(bullets, "\n"));
    if |bullets| > 0 {
      SplitJoin(bullets);
    }
  }

  /** Each document contributes a line break, a dash, a blank and the document itself. */
  function Bulleted(docs: seq<string>): string {
    if |docs| == 0 then "" else Bulleted(docs[..|docs| - 1]) + "\n- " + docs[|docs| - 1]
  }

  /** Joining the bullets after one line break is writing each document as its own bullet. */
  lemma {:induction false} JoinBullets(docs: seq<string>)
    requires |docs| > 0
    ensures "\n" + Join(Bullets(docs), "\n") == Bulleted(docs)
  {
    var n := |docs|;
    if n == 1 {
      assert Bullets(docs) == ["- " + docs[0]];
      assert Bulleted(docs[..0]) == "";
    } else {
      var init := docs[..n - 1];
      JoinBullets(init);
      assert Bullets(docs) == Bullets(init) + ["- " + docs[n - 1]];
      JoinSnoc(Bullets(init), "- " + docs[n - 1]);
    }
  }

  /** Joining one more part appends a separator and the part. */
  lemma {:induction false} JoinSnoc(parts: seq<string>, x: string)
    requires |parts| > 0
    ensures Join(parts + [x], "\n") == Join(parts, "\n") + "\n" + x
  {
    if |parts| == 1 {
      assert (parts + [x])[1..] == [x];
    } else {
      assert (parts + [x])[1..] == parts[1..] + [x];
      JoinSnoc(parts[1..], x);
    }
  }

  /**
   * For any documents, line breaks inside them included, the context is the
   * header followed by one newline-dash bullet per document of the first
   * query, or by a lone line break when that query found nothing.
   */
  lemma ContextText(documents: seq<seq<string>>)
    requires |documents| > 0
    ensures RelevantContext(documents) ==
            ContextHeader + (if |documents[0]| == 0 then "\n" else Bulleted(documents[0]))
  {
    var joined := Join(Bullets(documents[0]), "\n");
    assert RelevantContext(documents) == ContextHeader + "\n" + joined;
    Regroup3(ContextHeader, "\n", joined);
    if |documents[0]| > 0 {
      JoinBullets(documents[0]);
    } else {
      assert joined == "";
      assert "\n" + joined == "\n";
    }
  }

  /** Regrouping three concatenated pieces. */
  lemma Regroup3<T>(a: seq<T>, b: seq<T>, c: seq<T>)
    ensures a + b + c == a + (b + c)
  {
  }
}
