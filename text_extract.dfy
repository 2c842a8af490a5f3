/**
 * The document text extractor of temp_extract.py: the main document part of a
 * WordprocessingML package, already read and decoded, goes through
 *   1. `re.sub('<[^>]+>', ' ', xml)`   every tag becomes one space,
 *   2. `re.sub(r'\s+', ' ', text)`     every white-space run becomes one space,
 *   3. `text[:4000]`                   the first 4000 characters are kept.
 * Opening the archive, reading `word/document.xml`, UTF-8 decoding and
 * printing are outside the model.
 */
module TextExtract {
  import opened WhitespaceRuns
  import JsString

  /** How many characters are printed. */
  const PrefixLength: nat := 4000

  /** Python's `\s` on `str` patterns: the characters for which `str.isspace()` holds. */
  predicate IsPySpace(c: char) {
    || c == ' ' || c == '\t' || c == '\n' || c == '\r' || c == '\U{000B}' || c == '\U{000C}'
    || ('\U{001C}' <= c <= '\U{001F}')
    || c == '\U{0085}' || c == '\U{00A0}' || c == '\U{1680}'
    || ('\U{2000}' <= c <= '\U{200A}')
    || c == '\U{2028}' || c == '\U{2029}' || c == '\U{202F}' || c == '\U{205F}' || c == '\U{3000}'
  }

  /** A match of `<[^>]+>`: `<`, at least one character other than `>`, then `>`. */
  predicate IsTag(t: string) {
    && |t| >= 3 && t[0] == '<' && t[|t| - 1] == '>'
    && forall i :: 0 < i < |t| - 1 ==> t[i] != '>'
  }

  /** The length of the match of `<[^>]+>` at the start of `s`, or 0 when there is none. */
  function TagLength(s: string): nat {
    if s != [] && s[0] == '<' then
      var k := JsString.IndexOf(s, '>');
      if 2 <= k < |s| then k + 1 else 0
    else 0
  }

  /** `TagLength` finds the one match the pattern can make at the start of `s`, and reports 0 exactly when no prefix matches. */
  lemma TagLengthSpec(s: string)
    ensures TagLength(s) <= |s|
    ensures TagLength(s) > 0 ==> IsTag(s[..TagLength(s)])
    ensures forall n :: 0 <= n <= |s| && IsTag(s[..n]) ==> n == TagLength(s)
  {
    var k := JsString.IndexOf(s, '>');
    if TagLength(s) > 0 {
      var t := s[..k + 1];
      forall i | 0 < i < |t| - 1 ensures t[i] != '>' {
        assert t[i] == s[..k][i];
      }
    }
    forall n | 0 <= n <= |s| && IsTag(s[..n]) ensures n == TagLength(s) {
      var t := s[..n];
      assert t[n - 1] == '>';
    }
  }

  /** Step 1: `re.sub('<[^>]+>', ' ', s)`, scanning left to right for non-overlapping matches. */
  function StripTags(s: string): string
    decreases |s|
  {
    if s == [] then []
    else if TagLength(s) > 0 then [' '] + StripTags(s[TagLength(s)..])
    else [s[0]] + StripTags(s[1..])
  }

  /** Step 2: `re.sub(r'\s+', ' ', s)`. */
  function CollapseSpace(s: string): string {
    ReplaceRuns(s, IsPySpace, ' ')
  }

  /** The whole pipeline: tags to spaces, runs of white space to one space, the first 4000 characters. */
  function Extract(xml: string): string {
    var text := CollapseSpace(StripTags(xml));
    text[..if |text| < PrefixLength then |text| else PrefixLength]
  }

  // ---------------------------------------------------------------------------
  // Step 1 as a decomposition: the input splits into tags and single characters.

  datatype Piece = Text(c: char) | Tag(markup: string)

  /** The pieces the substitution of step 1 sees, from left to right. */
  function Tokenize(s: string): seq<Piece>
    decreases |s|
  {
    if s == [] then []
    else if TagLength(s) > 0 then [Tag(s[..TagLength(s)])] + Tokenize(s[TagLength(s)..])
    else [Text(s[0])] + Tokenize(s[1..])
  }

  /** The pieces written back to back. */
  function Flatten(ps: seq<Piece>): string {
    if ps == [] then []
    else (match ps[0] case Text(c) => [c] case Tag(m) => m) + Flatten(ps[1..])
  }

  /** The pieces with every tag replaced by one space. */
  function Render(ps: seq<Piece>): string {
    if ps == [] then []
    else (match ps[0] case Text(c) => [c] case Tag(_) => " ") + Render(ps[1..])
  }

  /** The pieces cover the input exactly, in order. */
  lemma {:induction false} FlattenTokenize(s: string)
    ensures Flatten(Tokenize(s)) == s
    decreases |s|
  {
    if s != [] {
      var n := TagLength(s);
      if n > 0 {
        FlattenTokenize(s[n..]);
        assert Tokenize(s)[1..] == Tokenize(s[n..]);
        assert s == s[..n] + s[n..];
      } else {
        FlattenTokenize(s[1..]);
        assert Tokenize(s)[1..] == Tokenize(s[1..]);
        assert s == [s[0]] + s[1..];
      }
    }
  }

  /** Step 1 is the rendering of the pieces: each tag becomes one space and every
      character outside the tags is kept, in order. */
  lemma {:induction false} StripTagsRendersPieces(s: string)
    ensures Render(Tokenize(s)) == StripTags(s)
    decreases |s|
  {
    if s != [] {
      var n := TagLength(s);
      if n > 0 {
        StripTagsRendersPieces(s[n..]);
        assert Tokenize(s)[1..] == Tokenize(s[n..]);
      } else {
        StripTagsRendersPieces(s[1..]);
        assert Tokenize(s)[1..] == Tokenize(s[1..]);
      }
    }
  }

  /** Every tag piece is a match of `<[^>]+>`. */
  lemma {:induction false} TokenizeTags(s: string)
    ensures forall k :: 0 <= k < |Tokenize(s)| && Tokenize(s)[k].Tag? ==> IsTag(Tokenize(s)[k].markup)
    decreases |s|
  {
    if s != [] {
      var n := TagLength(s);
      TagLengthSpec(s);
      var rest := if n > 0 then s[n..] else s[1..];
      TokenizeTags(rest);
      assert Tokenize(s)[1..] == Tokenize(rest);
    }
  }

  // ---------------------------------------------------------------------------
  // No tag survives.

  /** `s` holds no match of `<[^>]+>` anywhere. */
  predicate TagFree(s: string) {
    forall i, j :: 0 <= i < j <= |s| ==> !IsTag(s[i..j])
  }

  /** The working form of `TagFree`: every `<` is followed by `>` or by no `>` at all. */
  predicate NoTagStart(s: string) {
    forall i :: 0 <= i < |s| - 1 && s[i] == '<' && s[i + 1] != '>' ==> '>' !in s[i + 1..]
  }

  lemma TagFreeIff(s: string)
    ensures TagFree(s) <==> NoTagStart(s)
  {
    if !NoTagStart(s) {
      var i :| 0 <= i < |s| - 1 && s[i] == '<' && s[i + 1] != '>' && '>' in s[i + 1..];
      var rest := s[i..];
      var k := JsString.IndexOf(rest, '>');
      assert rest[1..] == s[i + 1..];
      assert k < |rest|;
      assert k >= 2;
      TagLengthSpec(rest);
      assert rest[..k + 1] == s[i..i + k + 1];
      assert !TagFree(s);
    }
    if !TagFree(s) {
      var i, j :| 0 <= i < j <= |s| && IsTag(s[i..j]);
      assert s[j - 1] == s[i..j][j - i - 1];
      assert s[i + 1] == s[i..j][1];
      assert s[j - 1] in s[i + 1..];
    }
  }

  lemma NoTagStartCons(c: char, x: string)
    requires NoTagStart(x)
    requires c == '<' && x != [] && x[0] != '>' ==> '>' !in x
    ensures NoTagStart([c] + x)
  {
    var s := [c] + x;
    forall i | 0 <= i < |s| - 1 && s[i] == '<' && s[i + 1] != '>' ensures '>' !in s[i + 1..] {
      assert s[i + 1..] == x[i..];
      if i > 0 {
        assert x[i - 1] == '<' && x[i] != '>';
        assert x[i..] == x[i - 1 + 1..];
      }
    }
  }

  lemma NoTagStartSuffix(s: string, k: nat)
    requires NoTagStart(s) && k <= |s|
    ensures NoTagStart(s[k..])
  {
    var t := s[k..];
    forall i | 0 <= i < |t| - 1 && t[i] == '<' && t[i + 1] != '>' ensures '>' !in t[i + 1..] {
      assert s[k + i] == '<' && s[k + i + 1] != '>';
      assert t[i + 1..] == s[k + i + 1..];
    }
  }

  lemma NoTagStartPrefix(s: string, n: nat)
    requires NoTagStart(s) && n <= |s|
    ensures NoTagStart(s[..n])
  {
    var t := s[..n];
    forall i | 0 <= i < |t| - 1 && t[i] == '<' && t[i + 1] != '>' ensures '>' !in t[i + 1..] {
      assert s[i] == '<' && s[i + 1] != '>';
    }
  }

  /** Step 1 never adds a character other than a space. */
  lemma {:induction false} StripTagsChars(s: string, c: char)
    requires c != ' ' && c in StripTags(s)
    ensures c in s
    decreases |s|
  {
    var n := TagLength(s);
    if n > 0 {
      StripTagsChars(s[n..], c);
      assert c in s[n..];
    } else if c != s[0] {
      StripTagsChars(s[1..], c);
    }
  }

  /** After step 1 no tag is left. */
  lemma {:induction false} StripTagsNoTagStart(s: string)
    ensures NoTagStart(StripTags(s))
    decreases |s|
  {
    if s != [] {
      var n := TagLength(s);
      if n > 0 {
        StripTagsNoTagStart(s[n..]);
        NoTagStartCons(' ', StripTags(s[n..]));
      } else {
        var x := StripTags(s[1..]);
        StripTagsNoTagStart(s[1..]);
        if s[0] == '<' && x != [] && x[0] != '>' {
          var k := JsString.IndexOf(s, '>');
          if k != 1 && '>' in x {
            StripTagsChars(s[1..], '>');
          }
        }
        NoTagStartCons(s[0], x);
      }
    }
  }

  /** Step 2 creates no tag: it only turns white space into spaces. */
  lemma {:induction false} CollapseKeepsNoTagStart(s: string)
    requires NoTagStart(s)
    ensures NoTagStart(CollapseSpace(s))
    decreases |s|
  {
    if s != [] {
      if IsPySpace(s[0]) {
        var d := DropRun(s, IsPySpace);
        NoTagStartSuffix(s, |s| - |d|);
        CollapseKeepsNoTagStart(d);
        NoTagStartCons(' ', CollapseSpace(d));
      } else {
        var x := CollapseSpace(s[1..]);
        NoTagStartSuffix(s, 1);
        CollapseKeepsNoTagStart(s[1..]);
        if s[0] == '<' && x != [] && x[0] != '>' {
          if s[1] == '>' {
            FirstVisibleKept(s[1..], IsPySpace, ' ');
          } else if '>' in x {
            CharsFromInput(s[1..], IsPySpace, ' ', '>');
          }
        }
        NoTagStartCons(s[0], x);
      }
    }
  }

  /** A text without tags passes step 1 unchanged: a stray `>`, an empty `<>` and a `<` never closed all survive. */
  lemma {:induction false} StripTagsFixed(s: string)
    requires NoTagStart(s)
    ensures StripTags(s) == s
    decreases |s|
  {
    if s != [] {
      if s[0] == '<' {
        var k := JsString.IndexOf(s, '>');
      }
      NoTagStartSuffix(s, 1);
      StripTagsFixed(s[1..]);
    }
  }

  // ---------------------------------------------------------------------------
  // The laws of the whole pipeline.

  /** The output is the prefix of the collapsed text of length min(4000, its length). */
  lemma ExtractIsPrefix(xml: string)
    ensures var text := CollapseSpace(StripTags(xml));
      && |Extract(xml)| == (if |text| < PrefixLength then |text| else PrefixLength)
      && JsString.StartsWith(text, Extract(xml))
  {
  }

  /** No tag survives in the printed text. */
  lemma ExtractTagFree(xml: string)
    ensures TagFree(Extract(xml))
  {
    var text := CollapseSpace(StripTags(xml));
    StripTagsNoTagStart(xml);
    CollapseKeepsNoTagStart(StripTags(xml));
    NoTagStartPrefix(text, |Extract(xml)|);
    TagFreeIff(Extract(xml));
  }

  lemma OnlySepPrefix(s: string, n: nat)
    requires n <= |s| && OnlySep(s, IsPySpace, ' ') && NoAdjacentSpace(s, IsPySpace)
    ensures OnlySep(s[..n], IsPySpace, ' ') && NoAdjacentSpace(s[..n], IsPySpace)
  {
    forall i | 0 <= i < n ensures s[..n][i] == s[i] { }
  }

  /** The only white space in the output is `' '`, and never two in a row. */
  lemma ExtractCollapsed(xml: string)
    ensures OnlySep(Extract(xml), IsPySpace, ' ')
    ensures NoAdjacentSpace(Extract(xml), IsPySpace)
  {
    var text := CollapseSpace(StripTags(xml));
    ReplaceRunsShape(StripTags(xml), IsPySpace, ' ');
    OnlySepPrefix(text, |Extract(xml)|);
  }

  /** Running the pipeline on its own output changes nothing. */
  lemma ExtractIdempotent(xml: string)
    ensures Extract(Extract(xml)) == Extract(xml)
  {
    var e := Extract(xml);
    ExtractTagFree(xml);
    TagFreeIff(e);
    StripTagsFixed(e);
    ExtractCollapsed(xml);
    ReplaceRunsFixed(e, IsPySpace, ' ');
  }

  /** Leading white space is not trimmed: an input that opens with a tag prints a leading space. */
  lemma LeadingTagGivesLeadingSpace(xml: string)
    requires TagLength(xml) > 0
    ensures Extract(xml) != [] && Extract(xml)[0] == ' '
  {
    var s := StripTags(xml);
    assert s[0] == ' ';
  }

  lemma ClosingTagExample()
    ensures StripTags("</b>") == " "
  {
    assert JsString.IndexOf(">", '>') == 0;
    assert JsString.IndexOf("b>", '>') == 1;
    assert JsString.IndexOf("/b>", '>') == 2;
    assert JsString.IndexOf("</b>", '>') == 3;
    assert TagLength("</b>") == 4;
  }

  lemma WrappedTextStripExample()
    ensures StripTags("<b>x</b>") == " x "
  {
    ClosingTagExample();
    assert StripTags("x</b>") == "x ";
    assert TagLength("<b>x</b>") == 3;
  }

  /** Text inside markup: each tag leaves a space, and neither space is trimmed. */
  lemma WrappedTextExample()
    ensures Extract("<b>x</b>") == " x "
  {
    WrappedTextStripExample();
    assert CollapseSpace(" ") == " ";
    assert CollapseSpace("x ") == "x ";
    assert DropRun(" x ", IsPySpace) == "x ";
  }
}
