/** `HTMLContentOverviewProvider`: the page-text overview its embedded
    script builds, and the mapping of the script's completion value to a
    `Result`.

    The document is the sequence of its elements in document order; each
    element carries its lower-case tag name and its `textContent` (which
    already includes the text of its descendants). */
module HtmlContentOverview {
  import opened Wrappers
  import opened JsValues

  datatype Element = Element(tag: string, textContent: string)

  // ------------------------------------------------------------ trim

  /** The characters `String.prototype.trim` removes: WhiteSpace (tab,
      vertical tab, form feed, space, no-break space, byte-order mark and
      every other space separator) and LineTerminator (line feed, carriage
      return, line and paragraph separators). */
  predicate IsJsWhitespace(c: char) {
    var u := c as int;
    u == 0x09 || u == 0x0B || u == 0x0C || u == 0x20 || u == 0xA0 || u == 0xFEFF
    || u == 0x1680 || (0x2000 <= u <= 0x200A) || u == 0x202F || u == 0x205F || u == 0x3000
    || u == 0x0A || u == 0x0D || u == 0x2028 || u == 0x2029
  }

  predicate AllWhitespace(s: string) {
    forall i :: 0 <= i < |s| ==> IsJsWhitespace(s[i])
  }

  function TrimStart(s: string): (r: string)
    ensures r == [] || !IsJsWhitespace(r[0])
    ensures |r| <= |s| && r == s[|s| - |r|..]
    ensures AllWhitespace(s[..|s| - |r|])
  {
    if s != [] && IsJsWhitespace(s[0]) then
      var r := TrimStart(s[1..]);
      assert s[1..][..|s[1..]| - |r|] == s[1..|s| - |r|];
      r
    else s
  }

  function TrimEnd(s: string): (r: string)
    ensures r == [] || !IsJsWhitespace(r[|r| - 1])
    ensures |r| <= |s| && r == s[..|r|]
    ensures AllWhitespace(s[|r|..])
  {
    if s != [] && IsJsWhitespace(s[|s| - 1]) then
      var r := TrimEnd(s[..|s| - 1]);
      assert s[..|s| - 1][|r|..] == s[|r|..|s| - 1];
      r
    else s
  }

  /** `trim()`: the text between the leading and the trailing whitespace. */
  function Trim(s: string): (r: string)
    ensures r == [] || (!IsJsWhitespace(r[0]) && !IsJsWhitespace(r[|r| - 1]))
    ensures |r| <= |s|
  {
    TrimEnd(TrimStart(s))
  }

  lemma {:induction false} TrimStartSkips(ws: string, t: string)
    requires AllWhitespace(ws)
    ensures TrimStart(ws + t) == TrimStart(t)
    decreases |ws|
  {
    if ws == [] {
      assert ws + t == t;
    } else {
      assert (ws + t)[0] == ws[0];
      assert (ws + t)[1..] == ws[1..] + t;
      assert AllWhitespace(ws[1..]) by {
        forall i | 0 <= i < |ws[1..]| ensures IsJsWhitespace(ws[1..][i]) {
          assert ws[1..][i] == ws[i + 1];
        }
      }
      TrimStartSkips(ws[1..], t);
    }
  }

  lemma {:induction false} TrimEndSkips(t: string, ws: string)
    requires AllWhitespace(ws)
    ensures TrimEnd(t + ws) == TrimEnd(t)
    decreases |ws|
  {
    if ws == [] {
      assert t + ws == t;
    } else {
      var last := |ws| - 1;
      assert (t + ws)[|t + ws| - 1] == ws[last];
      assert (t + ws)[..|t + ws| - 1] == t + ws[..last];
      assert AllWhitespace(ws[..last]) by {
        forall i | 0 <= i < last ensures IsJsWhitespace(ws[..last][i]) {
          assert ws[..last][i] == ws[i];
        }
      }
      TrimEndSkips(t, ws[..last]);
    }
  }

  /** Trim is determined by its characterisation: whatever whitespace
      surrounds a text that starts and ends with a non-whitespace character
      is removed, and nothing else. */
  lemma TrimCharacterised(lead: string, body: string, trail: string)
    requires AllWhitespace(lead) && AllWhitespace(trail)
    requires body == [] || (!IsJsWhitespace(body[0]) && !IsJsWhitespace(body[|body| - 1]))
    ensures Trim(lead + body + trail) == body
  {
    assert lead + body + trail == lead + (body + trail);
    TrimStartSkips(lead, body + trail);
    if body == [] {
      assert body + trail == trail;
    } else {
      assert (body + trail)[0] == body[0];
      assert TrimStart(body + trail) == body + trail;
      TrimEndSkips(body, trail);
    }
  }

  /** Trimming twice is trimming once. */
  lemma TrimIdempotent(s: string)
    ensures Trim(Trim(s)) == Trim(s)
  {
  }

  // ------------------------------------------------------- extraction

  /** `extractTextFromElements`: each element's trimmed text followed by one
      space, in the order given. */
  function ExtractText(elements: seq<Element>): (text: string)
    ensures |text| >= |elements|
    ensures text == [] <==> elements == []
    ensures elements != [] ==> text[|text| - 1] == ' '
  {
    if elements == [] then ""
    else Trim(elements[0].textContent) + " " + ExtractText(elements[1..])
  }

  lemma {:induction false} ExtractTextAppend(a: seq<Element>, b: seq<Element>)
    ensures ExtractText(a + b) == ExtractText(a) + ExtractText(b)
    decreases |a|
  {
    if a == [] {
      assert a + b == b;
    } else {
      assert (a + b)[0] == a[0];
      assert (a + b)[1..] == a[1..] + b;
      ExtractTextAppend(a[1..], b);
      var head := Trim(a[0].textContent) + " ";
      assert head + (ExtractText(a[1..]) + ExtractText(b)) == (head + ExtractText(a[1..])) + ExtractText(b);
    }
  }

  /** One element contributes its trimmed text and a single space. */
  lemma ExtractOne(e: Element)
    ensures ExtractText([e]) == Trim(e.textContent) + " "
  {
  }

  /** `querySelectorAll` with a list of type selectors: the elements whose
      tag is one of `tags`, in document order. */
  function QuerySelectorAll(doc: seq<Element>, tags: set<string>): (found: seq<Element>)
    ensures |found| <= |doc|
    ensures forall i :: 0 <= i < |found| ==> found[i].tag in tags && found[i] in doc
  {
    if doc == [] then []
    else
      var rest := QuerySelectorAll(doc[1..], tags);
      if doc[0].tag in tags then [doc[0]] + rest else rest
  }

  lemma {:induction false} QuerySelectorAllAppend(a: seq<Element>, b: seq<Element>, tags: set<string>)
    ensures QuerySelectorAll(a + b, tags) == QuerySelectorAll(a, tags) + QuerySelectorAll(b, tags)
    decreases |a|
  {
    if a == [] {
      assert a + b == b;
    } else {
      assert (a + b)[0] == a[0];
      assert (a + b)[1..] == a[1..] + b;
      QuerySelectorAllAppend(a[1..], b, tags);
      if a[0].tag in tags {
        assert [a[0]] + (QuerySelectorAll(a[1..], tags) + QuerySelectorAll(b, tags))
               == ([a[0]] + QuerySelectorAll(a[1..], tags)) + QuerySelectorAll(b, tags);
      }
    }
  }

  /** Every element with a matching tag is found. */
  lemma {:induction false} QuerySelectorAllComplete(doc: seq<Element>, tags: set<string>, e: Element)
    requires e in doc && e.tag in tags
    ensures e in QuerySelectorAll(doc, tags)
    decreases |doc|
  {
    if doc[0] != e {
      assert e in doc[1..];
      QuerySelectorAllComplete(doc[1..], tags, e);
    }
  }

  /** `querySelectorAll` finds nothing exactly when no element has one of
      the tags. */
  lemma QuerySelectorAllEmpty(doc: seq<Element>, tags: set<string>)
    ensures QuerySelectorAll(doc, tags) == [] <==> forall i :: 0 <= i < |doc| ==> doc[i].tag !in tags
  {
    if exists i :: 0 <= i < |doc| && doc[i].tag in tags {
      var i :| 0 <= i < |doc| && doc[i].tag in tags;
      QuerySelectorAllComplete(doc, tags, doc[i]);
    }
  }

  /** When every element matches, `querySelectorAll` returns the document. */
  lemma {:induction false} QuerySelectorAllEvery(doc: seq<Element>, tags: set<string>)
    requires forall i :: 0 <= i < |doc| ==> doc[i].tag in tags
    ensures QuerySelectorAll(doc, tags) == doc
    decreases |doc|
  {
    if doc != [] {
      QuerySelectorAllEvery(doc[1..], tags);
      assert [doc[0]] + doc[1..] == doc;
    }
  }

  const HeadingTags: set<string> := {"h1", "h2", "h3", "h4", "h5", "h6"}

  /** Every tag whose elements contribute to the overview. */
  const OverviewTags: set<string> := {"p", "span", "div"} + HeadingTags

  /** `allText`: paragraphs, then spans, then divs, then headings. */
  function AllText(doc: seq<Element>): string {
    ExtractText(QuerySelectorAll(doc, {"p"}))
    + ExtractText(QuerySelectorAll(doc, {"span"}))
    + ExtractText(QuerySelectorAll(doc, {"div"}))
    + ExtractText(QuerySelectorAll(doc, HeadingTags))
  }

  /** The page text is empty exactly when the page has no paragraph, span,
      div or heading. */
  lemma AllTextEmpty(doc: seq<Element>)
    ensures AllText(doc) == [] <==> forall i :: 0 <= i < |doc| ==> doc[i].tag !in OverviewTags
  {
    QuerySelectorAllEmpty(doc, {"p"});
    QuerySelectorAllEmpty(doc, {"span"});
    QuerySelectorAllEmpty(doc, {"div"});
    QuerySelectorAllEmpty(doc, HeadingTags);
  }

  /** The matches in a document made of a part that all matches and a
      part that does not. */
  lemma QuerySelectorAllSplit(a: seq<Element>, b: seq<Element>, tags: set<string>, aMatches: bool, bMatches: bool)
    requires forall i :: 0 <= i < |a| ==> (a[i].tag in tags <==> aMatches)
    requires forall i :: 0 <= i < |b| ==> (b[i].tag in tags <==> bMatches)
    ensures QuerySelectorAll(a + b, tags) == (if aMatches then a else []) + (if bMatches then b else [])
  {
    QuerySelectorAllAppend(a, b, tags);
    if aMatches { QuerySelectorAllEvery(a, tags); } else { QuerySelectorAllEmpty(a, tags); }
    if bMatches { QuerySelectorAllEvery(b, tags); } else { QuerySelectorAllEmpty(b, tags); }
  }

  /** None of the other groups' tags is a heading tag. */
  lemma GroupTagsDistinct()
    ensures "p" !in HeadingTags && "span" !in HeadingTags && "div" !in HeadingTags
  {
  }

  /** The page text once each group's selection is known. */
  lemma AllTextOfGroups(doc: seq<Element>, paragraphs: seq<Element>, headings: seq<Element>)
    requires QuerySelectorAll(doc, {"p"}) == paragraphs
    requires QuerySelectorAll(doc, {"span"}) == []
    requires QuerySelectorAll(doc, {"div"}) == []
    requires QuerySelectorAll(doc, HeadingTags) == headings
    ensures AllText(doc) == ExtractText(paragraphs) + ExtractText(headings)
  {
    assert ExtractText([]) == [];
  }

  /** Group order wins over document order: headings that come before the
      paragraphs in the page still come after them in the text. */
  lemma ParagraphsBeforeHeadings(headings: seq<Element>, paragraphs: seq<Element>)
    requires forall i :: 0 <= i < |headings| ==> headings[i].tag in HeadingTags
    requires forall i :: 0 <= i < |paragraphs| ==> paragraphs[i].tag == "p"
    ensures AllText(headings + paragraphs) == ExtractText(paragraphs) + ExtractText(headings)
  {
    GroupTagsDistinct();
    QuerySelectorAllSplit(headings, paragraphs, {"p"}, false, true);
    QuerySelectorAllSplit(headings, paragraphs, {"span"}, false, false);
    QuerySelectorAllSplit(headings, paragraphs, {"div"}, false, false);
    QuerySelectorAllSplit(headings, paragraphs, HeadingTags, true, false);
    assert [] + paragraphs == paragraphs;
    assert headings + [] == headings;
    AllTextOfGroups(headings + paragraphs, paragraphs, headings);
  }

  const TextLimit := 500

  /** `allText.slice(0, 500)`. */
  function Limit(s: string): (r: string)
    ensures |r| == if |s| < TextLimit then |s| else TextLimit
    ensures r == s[..|r|]
  {
    if |s| <= TextLimit then s else s[..TextLimit]
  }

  const AddressLabel := "Website address: "
  const ContentLabel := "\n\nContent:\n"

  /** Where each piece of a four-piece text lies. */
  lemma PiecesAt(p1: string, p2: string, p3: string, p4: string)
    ensures var r := p1 + p2 + p3 + p4;
            && r[..|p1|] == p1
            && r[|p1|..|p1| + |p2|] == p2
            && r[|p1| + |p2|..|p1| + |p2| + |p3|] == p3
            && r[|p1| + |p2| + |p3|..] == p4
  {
  }

  /** `extractAndCombineText()` for a page at `url`. */
  function Overview(url: string, doc: seq<Element>): (r: string)
    ensures |AddressLabel| + |url| + |ContentLabel| <= |r| <= |AddressLabel| + |url| + |ContentLabel| + TextLimit
    ensures r[..|AddressLabel|] == AddressLabel
    ensures r[|AddressLabel|..|AddressLabel| + |url|] == url
    ensures r[|AddressLabel| + |url|..|AddressLabel| + |url| + |ContentLabel|] == ContentLabel
    ensures r[|AddressLabel| + |url| + |ContentLabel|..] == Limit(AllText(doc))
  {
    PiecesAt(AddressLabel, url, ContentLabel, Limit(AllText(doc)));
    AddressLabel + url + ContentLabel + Limit(AllText(doc))
  }

  /** The content part of the overview is the combined page text, cut to
      at most 500 characters and otherwise unchanged. */
  lemma OverviewContent(url: string, doc: seq<Element>)
    ensures var content := Overview(url, doc)[|AddressLabel| + |url| + |ContentLabel|..];
            |content| <= 500 && content == AllText(doc)[..|content|]
            && (|AllText(doc)| <= 500 ==> content == AllText(doc))
  {
  }

  // ----------------------------------------------------------- invoke

  /** The two ways `invoke` fails: the evaluation's own error, or the
      `NSError` it builds when the result is not a string. */
  datatype OverviewError =
    | EvaluationFailed(description: string)
    | NotExtracted(domain: string, code: int, description: string)

  const ExtractionError := NotExtracted("HTMLContentSummaryError", -1, "Failed to extract content.")

  /** The completion of `invoke(on:completion:)` for the evaluation's
      result and error. */
  function Invoke(result: Option<JsValue>, error: Option<string>): (r: Result<string, OverviewError>)
    ensures error.Some? ==> r == Failure(EvaluationFailed(error.value))
    ensures r.Success? <==> error.None? && result.Some? && result.value.JsString?
    ensures r.Success? ==> result == Some(JsString(r.value))
    ensures error.None? && !r.Success? ==>
              r.error.NotExtracted? && r.error.domain == "HTMLContentSummaryError"
              && r.error.code == -1 && r.error.description == "Failed to extract content."
  {
    if error.Some? then Failure(EvaluationFailed(error.value))
    else if result.Some? && result.value.JsString? then Success(result.value.text)
    else Failure(ExtractionError)
  }

  /** The script's own completion value reaches the caller unchanged. */
  lemma InvokeDeliversOverview(url: string, doc: seq<Element>)
    ensures Invoke(Some(JsString(Overview(url, doc))), None) == Success(Overview(url, doc))
  {
  }
}
