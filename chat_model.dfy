/**
 * The part of the chat model that the companion owns: turning the response
 * generator's raw reply into the text shown to the user and the sentiment
 * label it carries, with a fixed apology when the call fails. The HTTP
 * request itself is outside the model: its outcome arrives as an
 * `Option<string>` (None when the request, its status check or the JSON
 * decoding raised).
 */
module ChatModel {
  import opened Wrappers
  import opened Text

  /** The three values the sentiment tag can carry, in the regex's order. */
  const Sentiments: seq<string> := ["positive", "neutral", "negative"]

  /** The fallback reply used when the response generator cannot be reached. */
  const Apology: string :=
    "I'm having a little trouble " + "connecting right now. " + "Let's try again in a moment. \U{1F4AD}"

  /** What `generate_response` returns: the visible content and the sentiment. */
  datatype Reply = Reply(content: string, sentiment: string)

  /** What every tag starts with. */
  const TagOpen: string := "[sentiment: "

  /** The literal tag `[sentiment: value]`. */
  function Tag(value: string): string {
    TagOpen + value + "]"
  }

  /** The value of the tag that `s` starts with, if it starts with one. */
  function TagAt(s: string): (v: Option<string>)
    ensures v.Some? ==> v.value in Sentiments && Tag(v.value) <= s
    ensures v.None? ==> forall k :: 0 <= k < |Sentiments| ==> !(Tag(Sentiments[k]) <= s)
  {
    if Tag("positive") <= s then Some("positive")
    else if Tag("neutral") <= s then Some("neutral")
    else if Tag("negative") <= s then Some("negative")
    else None
  }

  /** Some tag occurs somewhere in `s`. */
  ghost predicate HasTag(s: string) {
    exists i :: 0 <= i <= |s| && TagAt(s[i..]).Some?
  }

  /** `re.search(...)` followed by `group(1)`: the value of the leftmost tag. */
  function FirstTag(s: string): Option<string>
    decreases |s|
  {
    if TagAt(s).Some? then TagAt(s)
    else if |s| == 0 then None
    else FirstTag(s[1..])
  }

  /**
   * `re.sub(tag, "", s)`: one left-to-right pass that drops every tag it
   * meets and keeps every other character. The pass does not look again at
   * what the removal glued together.
   */
  function RemoveTagsOnce(s: string): (r: string)
    ensures |r| <= |s|
    ensures FirstTag(s).Some? ==> |r| < |s|
    decreases |s|
  {
    if |s| == 0 then ""
    else match TagAt(s)
      case Some(v) => RemoveTagsOnce(s[|Tag(v)|..])
      case None => [s[0]] + RemoveTagsOnce(s[1..])
  }

  /** Tag removal repeated until no tag is left. */
  function RemoveAllTags(s: string): (r: string)
    ensures FirstTag(r).None?
    decreases |s|
  {
    if FirstTag(s).Some? then RemoveAllTags(RemoveTagsOnce(s)) else s
  }

  /**
   * The tag handling of `generate_response` as written: the sentiment of the
   * first tag, and the reply with one `re.sub` pass and a `strip()`; without
   * a tag, "neutral" and the reply untouched.
   */
  function ParseReplyAsWritten(raw: string): Reply {
    match FirstTag(raw)
    case None => Reply(raw, "neutral")
    case Some(v) => Reply(Strip(RemoveTagsOnce(raw)), v)
  }

  /** The tag handling with the removal repeated until no tag is left. */
  function ParseReply(raw: string): Reply {
    match FirstTag(raw)
    case None => Reply(raw, "neutral")
    case Some(v) => Reply(Strip(RemoveAllTags(raw)), v)
  }

  /**
   * `generate_response` as written, given the raw reply or None when the
   * call failed: the single-pass parse, or the apology.
   */
  function GenerateResponseAsWritten(reply: Option<string>): Reply {
    match reply
    case None => Reply(Apology, "neutral")
    case Some(raw) => ParseReplyAsWritten(raw)
  }

  /**
   * `generate_response` with the corrected tag removal, given the raw reply
   * or None when the call failed. The turn uses this one.
   */
  function GenerateResponse(reply: Option<string>): Reply {
    match reply
    case None => Reply(Apology, "neutral")
    case Some(raw) => ParseReply(raw)
  }

  // ---------------------------------------------------------------------------
  // Properties
  // ---------------------------------------------------------------------------

  /** `FirstTag` finds the leftmost tag, and finds none only when there is none. */
  lemma {:induction false} FirstTagSpec(s: string)
    ensures FirstTag(s).None? ==> !HasTag(s)
    ensures FirstTag(s).Some? ==>
              exists i :: 0 <= i <= |s| && TagAt(s[i..]) == FirstTag(s)
                && forall j :: 0 <= j < i ==> TagAt(s[j..]).None?
    decreases |s|
  {
    if TagAt(s).Some? {
      assert s[0..] == s;
    } else if |s| == 0 {
      forall i | 0 <= i <= |s| ensures TagAt(s[i..]).None? {
        assert s[i..] == s;
      }
    } else {
      FirstTagSpec(s[1..]);
      forall i | 1 <= i <= |s| ensures s[1..][i - 1..] == s[i..] { }
      if FirstTag(s).Some? {
        var i :| 0 <= i <= |s[1..]| && TagAt(s[1..][i..]) == FirstTag(s[1..])
                 && forall j :: 0 <= j < i ==> TagAt(s[1..][j..]).None?;
        assert TagAt(s[i + 1..]) == FirstTag(s);
        forall j | 0 <= j < i + 1 ensures TagAt(s[j..]).None? {
          if j == 0 {
            assert s[0..] == s;
          } else {
            assert TagAt(s[1..][j - 1..]).None?;
          }
        }
      } else {
        forall i | 0 <= i <= |s| ensures TagAt(s[i..]).None? {
          if i == 0 {
            assert s[0..] == s;
          } else {
            assert TagAt(s[1..][i - 1..]).None?;
          }
        }
      }
    }
  }

  /** A slice of a string without tags has no tags. */
  lemma NoTagInSlice(s: string, a: int, b: int)
    requires 0 <= a <= b <= |s|
    requires !HasTag(s)
    ensures !HasTag(s[a..b])
  {
    forall i | 0 <= i <= b - a
      ensures TagAt(s[a..b][i..]).None?
    {
      assert TagAt(s[a + i..]).None?;
    }
  }

  /** No tag starts at a character other than `[`. */
  lemma NotTagStart(s: string)
    requires |s| > 0 && s[0] != '['
    ensures TagAt(s).None?
  {
    forall k | 0 <= k < |Sentiments| ensures !(Tag(Sentiments[k]) <= s) {
      assert Tag(Sentiments[k])[0] == '[';
    }
  }

  /** Both tag scans step over a first character that is not `[`. */
  lemma NoBracketStep(p: string, rest: string)
    requires |p| > 0 && '[' !in p
    ensures '[' !in p[1..]
    ensures (p + rest)[1..] == p[1..] + rest
    ensures FirstTag(p + rest) == FirstTag(p[1..] + rest)
    ensures RemoveTagsOnce(p + rest) == [p[0]] + RemoveTagsOnce(p[1..] + rest)
  {
    var s := p + rest;
    DropFirst(p, rest);
    assert p[0] in p;
    NotTagStart(s);
    SkipChar(s);
    assert forall k :: 0 <= k < |p| - 1 ==> p[1..][k] == p[k + 1];
  }

  /** A prefix without `[` can hold no tag: both tag scans pass over it unchanged. */
  lemma {:induction false} NoBracketPrefix(p: string, rest: string)
    requires '[' !in p
    ensures FirstTag(p + rest) == FirstTag(rest)
    ensures RemoveTagsOnce(p + rest) == p + RemoveTagsOnce(rest)
  {
    if |p| > 0 {
      NoBracketStep(p, rest);
      NoBracketPrefix(p[1..], rest);
      DropFirst(p, RemoveTagsOnce(rest));
    } else {
      assert p + rest == rest;
    }
  }

  /** A string is not a prefix of another that differs from it at some position. */
  lemma DiffersAt(t: string, s: string, i: nat)
    requires i < |t| && i < |s| && t[i] != s[i]
    ensures !(t <= s)
  {
  }

  /** A string without `[` holds no tag. */
  lemma NoBracketNoTag(s: string)
    requires '[' !in s
    ensures FirstTag(s).None? && !HasTag(s)
  {
    NoBracketPrefix(s, "");
    assert s + "" == s;
    assert FirstTag("").None?;
    FirstTagSpec(s);
  }

  /**
   * The visible reply never contains a tag, and when a tag was found it has
   * no surrounding whitespace; the sentiment is that of the leftmost tag, or
   * "neutral" with the reply unchanged when there is none.
   */
  lemma ParseReplySpec(raw: string)
    ensures !HasTag(ParseReply(raw).content)
    ensures ParseReply(raw).sentiment in Sentiments
    ensures FirstTag(raw).Some? ==>
              && ParseReply(raw).sentiment == FirstTag(raw).value
              && (|ParseReply(raw).content| > 0 ==>
                    !IsSpace(ParseReply(raw).content[0])
                    && !IsSpace(ParseReply(raw).content[|ParseReply(raw).content| - 1]))
    ensures FirstTag(raw).None? ==> ParseReply(raw) == Reply(raw, "neutral")
  {
    FirstTagSpec(raw);
    if FirstTag(raw).Some? {
      var cleaned := RemoveAllTags(raw);
      var shown := Strip(cleaned);
      assert ParseReply(raw) == Reply(shown, FirstTag(raw).value);
      StripSpec(cleaned);
      assert |shown| > 0 ==> !IsSpace(shown[0]) && !IsSpace(shown[|shown| - 1]);
      FirstTagSpec(cleaned);
      var a, b :| 0 <= a <= b <= |cleaned| && shown == cleaned[a..b];
      NoTagInSlice(cleaned, a, b);
      assert !HasTag(shown);
      var i :| 0 <= i <= |raw| && TagAt(raw[i..]) == FirstTag(raw);
    } else {
      assert Sentiments[1] == "neutral";
    }
  }

  /**
   * Whatever the response generator does, the turn gets a sentiment among
   * the three values and a visible reply without a tag; a failed call gives
   * the apology with "neutral".
   */
  lemma GenerateResponseSpec(reply: Option<string>)
    ensures GenerateResponse(reply).sentiment in Sentiments
    ensures !HasTag(GenerateResponse(reply).content)
    ensures reply.None? ==> GenerateResponse(reply) == Reply(Apology, "neutral")
  {
    if reply.Some? {
      ParseReplySpec(reply.value);
    } else {
      ApologyHasNoTag();
      assert Sentiments[1] == "neutral";
    }
  }

  /** The apology holds no `[`, so no tag. */
  lemma ApologyHasNoTag()
    ensures !HasTag(Apology)
  {
    assert '[' !in "I'm having a little trouble ";
    assert '[' !in "connecting right now. ";
    assert '[' !in "Let's try again in a moment. \U{1F4AD}";
    NoBracketNoTag(Apology);
  }

  /** A lone tag is found and removed whole. */
  lemma LoneTag(value: string)
    requires value in Sentiments
    ensures FirstTag(Tag(value)) == Some(value)
    ensures RemoveTagsOnce(Tag(value)) == ""
  {
    var tag := Tag(value);
    assert TagAt(tag) == Some(value) by {
      assert Sentiments == ["positive", "neutral", "negative"];
      if value != "positive" {
        DiffersAt(Tag("positive"), tag, 12);
      }
      if value == "negative" {
        DiffersAt(Tag("neutral"), tag, 14);
      }
    }
    assert tag[|tag|..] == "";
  }

  /** `strip()` of the greeting drops its trailing blank. */
  lemma StripGreeting()
    ensures Strip("Hello! ") == "Hello!"
  {
    assert LeadingSpaces("Hello! ") == 0;
    assert "Hello! "[0..] == "Hello! ";
    assert EndOfText("Hello! ") == 6;
    assert "Hello! "[..6] == "Hello!";
  }

  /** A reply ending in a positive tag shows its text without the tag. */
  lemma ParseReplyExample()
    ensures ParseReply("Hello! " + Tag("positive")) == Reply("Hello!", "positive")
  {
    var raw := "Hello! " + Tag("positive");
    assert '[' !in "Hello! ";
    NoBracketPrefix("Hello! ", Tag("positive"));
    LoneTag("positive");
    assert "Hello! " + "" == "Hello! ";
    NoBracketNoTag("Hello! ");
    assert RemoveAllTags(raw) == "Hello! ";
    StripGreeting();
  }

  /** A tag cannot start where the thirteenth character is another `[`. */
  lemma NotTagWithInnerBracket(s: string)
    requires |s| > 12 && s[12] == '['
    ensures TagAt(s).None?
  {
    forall k | 0 <= k < |Sentiments| ensures !(Tag(Sentiments[k]) <= s) {
      assert Tag(Sentiments[k])[12] == Sentiments[k][0] != '[';
    }
  }

  /** A neutral tag followed by plain text: the pass drops the tag and keeps the text. */
  lemma TagThenText()
    ensures FirstTag(Tag("neutral") + "neutral]") == Some("neutral")
    ensures RemoveTagsOnce(Tag("neutral") + "neutral]") == "neutral]"
  {
    var inner := Tag("neutral");
    var tail := inner + "neutral]";
    assert tail[12] == inner[12] == 'n';
    DiffersAt(Tag("positive"), tail, 12);
    assert inner <= tail;
    assert TagAt(tail) == Some("neutral");
    assert tail[|inner|..] == "neutral]";
    NoBracketPrefix("neutral]", "");
    assert "neutral]" + "" == "neutral]";
  }

  /** Where no tag starts, both scans step over the first character. */
  lemma SkipChar(s: string)
    requires |s| > 0 && TagAt(s).None?
    ensures FirstTag(s) == FirstTag(s[1..])
    ensures RemoveTagsOnce(s) == [s[0]] + RemoveTagsOnce(s[1..])
  {
  }

  /** Dropping the first item of a concatenation whose left part is non-empty. */
  lemma DropFirst<T>(a: seq<T>, b: seq<T>)
    requires |a| > 0
    ensures (a + b)[0] == a[0] && (a + b)[1..] == a[1..] + b
    ensures [a[0]] + (a[1..] + b) == a + b
  {
  }

  /** `[` occurs in the tag opening only as its first character. */
  lemma OpenBracketOnlyFirst()
    ensures TagOpen[0] == '[' && '[' !in TagOpen[1..]
  {
    assert TagOpen[1..] == "sentiment: ";
  }

  /** A tag is the opening followed by the value and the closing bracket. */
  lemma TagSplit(value: string)
    ensures TagOpen + (value + "]") == Tag(value)
  {
  }

  /** One pass over the nested tags finds the inner one and leaves the outer one whole. */
  lemma NestedTagsOnePass()
    ensures FirstTag(TagOpen + Tag("neutral") + "neutral]") == Some("neutral")
    ensures RemoveTagsOnce(TagOpen + Tag("neutral") + "neutral]") == Tag("neutral")
  {
    var tail := Tag("neutral") + "neutral]";
    var raw := TagOpen + tail;
    assert raw == TagOpen + Tag("neutral") + "neutral]";
    assert raw[12] == tail[0] == '[';
    NotTagWithInnerBracket(raw);
    SkipChar(raw);
    var rest := TagOpen[1..];
    DropFirst(TagOpen, tail);
    OpenBracketOnlyFirst();
    NoBracketPrefix(rest, tail);
    TagThenText();
    DropFirst(TagOpen, "neutral]");
    TagSplit("neutral");
  }

  /**
   * As written, a tag nested inside another survives: removing the inner one
   * glues the outer one back together, and a single pass does not look again.
   */
  lemma AsWrittenLeavesTag()
    ensures ParseReplyAsWritten(TagOpen + Tag("neutral") + "neutral]") == Reply(Tag("neutral"), "neutral")
    ensures HasTag(ParseReplyAsWritten(TagOpen + Tag("neutral") + "neutral]").content)
  {
    NestedTagsOnePass();
    var inner := Tag("neutral");
    assert LeadingSpaces(inner) == 0;
    assert EndOfText(inner) == |inner|;
    assert inner[0..] == inner && inner[..|inner|] == inner;
    assert TagAt(inner[0..]).Some?;
  }

  /** A tag starts with `[` and ends with `]`, neither of them whitespace. */
  lemma TagEnds(value: string)
    ensures |Tag(value)| > 0
    ensures Tag(value)[0] == '[' && !IsSpace(Tag(value)[0])
    ensures Tag(value)[|Tag(value)| - 1] == ']' && !IsSpace(Tag(value)[|Tag(value)| - 1])
  {
  }

  /** A string that starts with one of the three tags starts with a tag. */
  lemma TagPrefix(t: string, value: string)
    requires value in Sentiments
    requires |Tag(value)| <= |t| && t[..|Tag(value)|] == Tag(value)
    ensures TagAt(t).Some?
  {
    var k :| 0 <= k < |Sentiments| && Sentiments[k] == value;
    assert Tag(value) <= t;
  }

  /** A tag at offset `i` is still a tag once `strip()` has cut the leading whitespace. */
  lemma StripKeepsTagAt(s: string, i: int, value: string)
    requires value in Sentiments
    requires 0 <= i && i + |Tag(value)| <= |s| && s[i..i + |Tag(value)|] == Tag(value)
    ensures LeadingSpaces(s) <= i <= |Strip(s)| + LeadingSpaces(s)
    ensures TagAt(Strip(s)[i - LeadingSpaces(s)..]).Some?
  {
    TagEnds(value);
    StripKeepsPiece(s, i, Tag(value));
    TagPrefix(Strip(s)[i - LeadingSpaces(s)..], value);
  }

  /** The tag a string starts with is its first characters. */
  lemma TagAtSlice(s: string, i: int)
    requires 0 <= i <= |s| && TagAt(s[i..]).Some?
    ensures TagAt(s[i..]).value in Sentiments
    ensures i + |Tag(TagAt(s[i..]).value)| <= |s|
    ensures s[i..i + |Tag(TagAt(s[i..]).value)|] == Tag(TagAt(s[i..]).value)
  {
    var tag := Tag(TagAt(s[i..]).value);
    assert s[i..][..|tag|] == tag;
  }

  /** A tag survives `strip()`: its first and last characters are not whitespace. */
  lemma StripKeepsTag(s: string)
    requires HasTag(s)
    ensures HasTag(Strip(s))
  {
    var i :| 0 <= i <= |s| && TagAt(s[i..]).Some?;
    TagAtSlice(s, i);
    StripKeepsTagAt(s, i, TagAt(s[i..]).value);
  }

  /**
   * The parse as written: the sentiment is one of the three values and the
   * shown text is never longer than the reply. With a tag, the sentiment is
   * that of the leftmost tag and the text has no whitespace at either end;
   * without one, the reply comes back unchanged with "neutral".
   */
  lemma ParseReplyAsWrittenSpec(raw: string)
    ensures ParseReplyAsWritten(raw).sentiment in Sentiments
    ensures |ParseReplyAsWritten(raw).content| <= |raw|
    ensures FirstTag(raw).Some? ==>
              && ParseReplyAsWritten(raw).sentiment == FirstTag(raw).value
              && (|ParseReplyAsWritten(raw).content| > 0 ==>
                    !IsSpace(ParseReplyAsWritten(raw).content[0])
                    && !IsSpace(ParseReplyAsWritten(raw).content[|ParseReplyAsWritten(raw).content| - 1]))
    ensures FirstTag(raw).None? ==> ParseReplyAsWritten(raw) == Reply(raw, "neutral")
  {
    FirstTagSpec(raw);
    if FirstTag(raw).Some? {
      var once := RemoveTagsOnce(raw);
      StripSpec(once);
      var i :| 0 <= i <= |raw| && TagAt(raw[i..]) == FirstTag(raw);
    } else {
      assert Sentiments[1] == "neutral";
    }
  }

  /**
   * The parse as written gives the corrected result exactly when the text it
   * shows holds no tag, and it does whenever one pass leaves no tag behind.
   */
  lemma AsWrittenAgreesIff(raw: string)
    ensures ParseReplyAsWritten(raw) == ParseReply(raw) <==> !HasTag(ParseReplyAsWritten(raw).content)
    ensures FirstTag(RemoveTagsOnce(raw)).None? ==> ParseReplyAsWritten(raw) == ParseReply(raw)
  {
    ParseReplySpec(raw);
    if FirstTag(raw).Some? {
      var once := RemoveTagsOnce(raw);
      if FirstTag(once).None? {
        assert RemoveAllTags(raw) == once;
      } else {
        FirstTagSpec(once);
        StripKeepsTag(once);
      }
    }
  }

  /**
   * `generate_response` as written: a sentiment among the three values; the
   * apology with "neutral" on a failed call; the leftmost tag's sentiment
   * and a stripped text when the reply has a tag, the reply unchanged with
   * "neutral" when it has none. It agrees with the corrected one exactly
   * when the text it shows holds no tag.
   */
  lemma GenerateResponseAsWrittenSpec(reply: Option<string>)
    ensures GenerateResponseAsWritten(reply).sentiment in Sentiments
    ensures reply.None? ==> GenerateResponseAsWritten(reply) == Reply(Apology, "neutral")
    ensures reply.Some? && FirstTag(reply.value).Some? ==>
              && GenerateResponseAsWritten(reply).sentiment == FirstTag(reply.value).value
              && (|GenerateResponseAsWritten(reply).content| > 0 ==>
                    !IsSpace(GenerateResponseAsWritten(reply).content[0])
                    && !IsSpace(GenerateResponseAsWritten(reply).content[|GenerateResponseAsWritten(reply).content| - 1]))
    ensures reply.Some? && FirstTag(reply.value).None? ==> GenerateResponseAsWritten(reply) == Reply(reply.value, "neutral")
    ensures GenerateResponseAsWritten(reply) == GenerateResponse(reply) <==> !HasTag(GenerateResponseAsWritten(reply).content)
  {
    if reply.Some? {
      ParseReplyAsWrittenSpec(reply.value);
      AsWrittenAgreesIff(reply.value);
    } else {
      ApologyHasNoTag();
      assert Sentiments[1] == "neutral";
    }
  }

  /**
   * A reply laid out as text pieces with a tag between each two:
   * `pieces[0] + Tag(values[0]) + pieces[1] + ... + pieces[|values|]`.
   */
  function Tagged(pieces: seq<string>, values: seq<string>): string
    requires |pieces| == |values| + 1
    decreases |values|
  {
    if |values| == 0 then pieces[0]
    else pieces[0] + Tag(values[0]) + Tagged(pieces[1..], values[1..])
  }

  /** The text pieces run together, each tag cut out. */
  function Concat(pieces: seq<string>): string
    decreases |pieces|
  {
    if |pieces| == 0 then "" else pieces[0] + Concat(pieces[1..])
  }

  /** None of the pieces holds a `[`. */
  predicate NoBrackets(pieces: seq<string>) {
    forall k :: 0 <= k < |pieces| ==> '[' !in pieces[k]
  }

  /** Every value is one of the three sentiments. */
  predicate AllSentiments(values: seq<string>) {
    forall k :: 0 <= k < |values| ==> values[k] in Sentiments
  }

  /** A reply that starts with a tag: the tag is found and one pass drops it whole. */
  lemma TagFront(value: string, rest: string)
    requires value in Sentiments
    ensures FirstTag(Tag(value) + rest) == Some(value)
    ensures RemoveTagsOnce(Tag(value) + rest) == RemoveTagsOnce(rest)
  {
    var s := Tag(value) + rest;
    assert TagAt(s) == Some(value) by {
      assert Sentiments == ["positive", "neutral", "negative"];
      if value != "positive" {
        DiffersAt(Tag("positive"), s, 12);
      }
      if value == "negative" {
        DiffersAt(Tag("neutral"), s, 14);
      }
    }
    assert s[|Tag(value)|..] == rest;
  }

  /** Tag-free pieces stay tag-free when run together. */
  lemma {:induction false} ConcatNoBracket(pieces: seq<string>)
    requires NoBrackets(pieces)
    ensures '[' !in Concat(pieces)
  {
    if |pieces| > 0 {
      assert '[' !in pieces[0];
      assert NoBrackets(pieces[1..]) by {
        forall k | 0 <= k < |pieces| - 1 ensures '[' !in pieces[1..][k] {
          assert pieces[1..][k] == pieces[k + 1];
        }
      }
      ConcatNoBracket(pieces[1..]);
    }
  }

  /**
   * One pass of `re.sub` over tag-free pieces with tags between them cuts
   * out exactly the tags, and the leftmost tag is the first one laid out.
   */
  lemma {:induction false} TaggedOnce(pieces: seq<string>, values: seq<string>)
    requires |pieces| == |values| + 1
    requires NoBrackets(pieces) && AllSentiments(values)
    ensures RemoveTagsOnce(Tagged(pieces, values)) == Concat(pieces)
    ensures FirstTag(Tagged(pieces, values)) == if |values| == 0 then None else Some(values[0])
  {
    var p := pieces[0];
    assert '[' !in p;
    if |values| == 0 {
      NoBracketPrefix(p, "");
      assert p + "" == p;
      assert Concat(pieces) == p + Concat(pieces[1..]);
      NoBracketNoTag(p);
    } else {
      var rest := Tagged(pieces[1..], values[1..]);
      assert Tagged(pieces, values) == p + (Tag(values[0]) + rest);
      NoBracketPrefix(p, Tag(values[0]) + rest);
      TagFront(values[0], rest);
      assert NoBrackets(pieces[1..]) by {
        forall k | 0 <= k < |pieces| - 1 ensures '[' !in pieces[1..][k] {
          assert pieces[1..][k] == pieces[k + 1];
        }
      }
      assert AllSentiments(values[1..]) by {
        forall k | 0 <= k < |values| - 1 ensures values[1..][k] in Sentiments {
          assert values[1..][k] == values[k + 1];
        }
      }
      TaggedOnce(pieces[1..], values[1..]);
    }
  }

  /**
   * A reply of tag-free text with tags in it: both parses show the text with
   * every tag cut out and the ends stripped, and take the first tag's
   * sentiment. With no `[` outside the tags, the single pass already removes
   * them all.
   */
  lemma TaggedParse(pieces: seq<string>, values: seq<string>)
    requires |pieces| == |values| + 1 && |values| > 0
    requires NoBrackets(pieces) && AllSentiments(values)
    ensures ParseReplyAsWritten(Tagged(pieces, values)) == Reply(Strip(Concat(pieces)), values[0])
    ensures ParseReply(Tagged(pieces, values)) == Reply(Strip(Concat(pieces)), values[0])
  {
    var raw := Tagged(pieces, values);
    TaggedOnce(pieces, values);
    ConcatNoBracket(pieces);
    NoBracketNoTag(Concat(pieces));
    assert RemoveAllTags(Concat(pieces)) == Concat(pieces);
    assert RemoveAllTags(raw) == Concat(pieces);
  }

  /**
   * `generate_response` on such a reply, as written and corrected: the text
   * with the tags cut out and stripped, and the first tag's sentiment.
   */
  lemma TaggedResponse(pieces: seq<string>, values: seq<string>)
    requires |pieces| == |values| + 1 && |values| > 0
    requires NoBrackets(pieces) && AllSentiments(values)
    ensures GenerateResponseAsWritten(Some(Tagged(pieces, values))) == Reply(Strip(Concat(pieces)), values[0])
    ensures GenerateResponse(Some(Tagged(pieces, values))) == Reply(Strip(Concat(pieces)), values[0])
  {
    TaggedParse(pieces, values);
  }

  /**
   * The layout the persona prompt asks for, the text followed by its tag:
   * both parses show the text stripped, with the tag's sentiment.
   */
  lemma TrailingTag(p: string, value: string)
    requires '[' !in p && value in Sentiments
    ensures ParseReplyAsWritten(p + Tag(value)) == Reply(Strip(p), value)
    ensures ParseReply(p + Tag(value)) == Reply(Strip(p), value)
    ensures GenerateResponseAsWritten(Some(p + Tag(value))) == Reply(Strip(p), value)
    ensures GenerateResponse(Some(p + Tag(value))) == Reply(Strip(p), value)
  {
    var pieces, values := [p, ""], [value];
    assert Tagged(pieces, values) == p + Tag(value) + "";
    assert p + Tag(value) + "" == p + Tag(value);
    assert Concat(pieces[1..]) == "" + Concat([]);
    assert Concat(pieces) == p + "";
    assert p + "" == p;
    TaggedParse(pieces, values);
  }
}
