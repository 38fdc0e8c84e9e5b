/**
  The content analysis of the universal PDF formatter: which analyzer a
  piece of agent output goes to, the plain-text sectioning, the flattening
  of structured data into at most twenty dotted fields, the category
  guess and the field name and value formatting of the data grid.
  Confidences are percentages.
 */
module UniversalFormatter {
  import opened StringUtil
  import opened Options
  import opened JsonValue

  // ---------------------------------------------------------------------------
  // Dispatch
  // ---------------------------------------------------------------------------

  const DoctypeMarker := "<!DOCTYPE html>"

  /** The analyzer `analyzeContent` hands the content to. */
  datatype Route =
    | HtmlRoute(html: string)
    | AiJsonRoute(data: Json)
    | StructuredRoute(data: Json)
    | MarkdownRoute(text: string)
    | TextRoute(text: string)
    | FallbackRoute

  /** `isMarkdownContent`. */
  predicate IsMarkdownContent(text: string) {
    Contains(text, "#") || Contains(text, "**") || Contains(text, "- ") || Contains(text, "* ")
  }

  /** The trimmed text is wrapped in braces. */
  predicate LooksLikeJsonObject(text: string) {
    StartsWith(Trim(text), "{") && EndsWith(Trim(text), "}")
  }

  /** The structured JSON the AI is asked for: a truthy `metadata.tipo_documento`. */
  predicate IsAiJson(j: Json) {
    HasTruthy(j, "metadata") && HasTruthy(Get(j, "metadata").value, "tipo_documento")
  }

  /**
    `analyzeContent`'s dispatch. `parsed` is what `JSON.parse` gives for a
    string content that looks like a JSON object, None when it throws.
    HTML wins over everything; then a parsable JSON string, then markdown;
    objects and arrays are structured data; other strings are plain text
    and other values get the fallback.
   */
  function Classify(content: Json, parsed: Option<Json>): (r: Route)
    ensures content.JString? && Contains(content.s, DoctypeMarker) ==> r == HtmlRoute(content.s)
    ensures r.HtmlRoute? ==> content.JString? && Contains(content.s, DoctypeMarker)
    ensures (content.JString? && !Contains(content.s, DoctypeMarker)
             && LooksLikeJsonObject(content.s) && parsed.Some?)
            ==> r == (if IsAiJson(parsed.value) then AiJsonRoute(parsed.value) else StructuredRoute(parsed.value))
    ensures r.MarkdownRoute? <==>
              content.JString? && !Contains(content.s, DoctypeMarker)
              && !(LooksLikeJsonObject(content.s) && parsed.Some?) && IsMarkdownContent(content.s)
    ensures r.TextRoute? <==>
              content.JString? && !Contains(content.s, DoctypeMarker)
              && !(LooksLikeJsonObject(content.s) && parsed.Some?) && !IsMarkdownContent(content.s)
    ensures IsContainer(content) ==>
              r == (if IsAiJson(content) then AiJsonRoute(content) else StructuredRoute(content))
    ensures r == FallbackRoute <==> !content.JString? && !IsContainer(content)
  {
    match content
    case JString(s) =>
      if Contains(s, DoctypeMarker) then HtmlRoute(s)
      else if LooksLikeJsonObject(s) && parsed.Some? then
        (if IsAiJson(parsed.value) then AiJsonRoute(parsed.value) else StructuredRoute(parsed.value))
      else if IsMarkdownContent(s) then MarkdownRoute(s)
      else TextRoute(s)
    case JArray(_) => if IsAiJson(content) then AiJsonRoute(content) else StructuredRoute(content)
    case JObject(_) => if IsAiJson(content) then AiJsonRoute(content) else StructuredRoute(content)
    case _ => FallbackRoute
  }

  /** A complete HTML document is analyzed as HTML even when it also looks like markdown or JSON. */
  lemma HtmlFirst(html: string, parsed: Option<Json>)
    requires Contains(html, DoctypeMarker)
    ensures Classify(JString(html), parsed) == HtmlRoute(html)
  {
  }

  /** A markdown heading line is markdown, unless it is an HTML document. */
  lemma HeadingIsMarkdown(a: string, b: string, parsed: Option<Json>)
    requires !Contains(a + "# " + b, DoctypeMarker) && !LooksLikeJsonObject(a + "# " + b)
    ensures Classify(JString(a + "# " + b), parsed) == MarkdownRoute(a + "# " + b)
  {
    HashIsMarkdown(a, b);
  }

  lemma HashIsMarkdown(a: string, b: string)
    ensures IsMarkdownContent(a + "# " + b)
  {
    var s := a + "# " + b;
    assert s[|a|..|a| + 1] == "#";
    ContainsAt(s, "#", |a|);
  }

  // ---------------------------------------------------------------------------
  // Analyses
  // ---------------------------------------------------------------------------

  datatype ContentType = StructuredType | HtmlType | MarkdownType | JsonType | TextType

  datatype SectionKind = HeaderSection | ParagraphSection | ListSection | TableSection | DataSection | SummarySection

  datatype Importance = High | Medium | Low

  datatype DataField = DataField(key: string, value: Json, typeName: string)

  datatype NamedList = NamedList(title: string, items: seq<Json>)

  datatype Section = Section(
    kind: SectionKind,
    title: string,
    content: string,
    importance: Importance,
    fields: seq<DataField>,
    lists: seq<NamedList>)

  datatype Metadata = Metadata(title: Option<Json>, category: string)

  datatype Analysis = Analysis(kind: ContentType, confidence: nat, sections: seq<Section>, metadata: Metadata)

  // --- plain text -----------------------------------------------------------

  const ParagraphBreak := "\n\n"

  /** `p.trim()` is truthy. */
  predicate Filled(p: string) {
    Trim(p) != ""
  }

  /** The paragraphs that are not blank, in order. */
  function NonBlank(paragraphs: seq<string>): (r: seq<string>)
    ensures |r| <= |paragraphs|
    ensures forall k :: 0 <= k < |r| ==> Trim(r[k]) != "" && r[k] in paragraphs
    ensures forall k :: 0 <= k < |paragraphs| && Trim(paragraphs[k]) != "" ==> paragraphs[k] in r
  {
    Filter(paragraphs, Filled)
  }

  /**
    The paragraphs keep their order: the non-blank paragraphs of two runs
    of text are those of the first run followed by those of the second,
    and a single paragraph is kept exactly when it is not blank.
   */
  lemma NonBlankOrder(a: seq<string>, b: seq<string>, p: string)
    ensures NonBlank(a + b) == NonBlank(a) + NonBlank(b)
    ensures NonBlank([p]) == (if Trim(p) != "" then [p] else [])
  {
    FilterAppend(a, b, Filled);
  }

  /** One paragraph section per paragraph, numbered from `from + 1`; only the very first is important. */
  function ParagraphSections(paragraphs: seq<string>, from: nat): (sections: seq<Section>)
    ensures |sections| == |paragraphs|
    ensures forall k :: 0 <= k < |paragraphs| ==> sections[k] == NumberedParagraph(paragraphs[k], from + k)
  {
    if |paragraphs| == 0 then []
    else
      var rest := ParagraphSections(paragraphs[1..], from + 1);
      NumberedCons(paragraphs, from, rest);
      [NumberedParagraph(paragraphs[0], from)] + rest
  }

  /** Numbering the first paragraph at `from` in front of the rest numbered from `from + 1` numbers them all from `from`. */
  lemma NumberedCons(paragraphs: seq<string>, from: nat, rest: seq<Section>)
    requires |paragraphs| > 0 && |rest| == |paragraphs| - 1
    requires forall k :: 0 <= k < |rest| ==> rest[k] == NumberedParagraph(paragraphs[1..][k], from + 1 + k)
    ensures forall k :: 0 <= k < |paragraphs| ==>
              ([NumberedParagraph(paragraphs[0], from)] + rest)[k] == NumberedParagraph(paragraphs[k], from + k)
  {
    var first := NumberedParagraph(paragraphs[0], from);
    forall k | 1 <= k < |paragraphs| ensures ([first] + rest)[k] == NumberedParagraph(paragraphs[k], from + k) {
      var j := k - 1;
      ConsIndex(first, rest, j);
      assert paragraphs[1..][j] == paragraphs[k];
    }
  }

  /** Past the head of `[x] + rest`, index `j + 1` is `rest[j]`. */
  lemma ConsIndex<T>(x: T, rest: seq<T>, j: nat)
    requires j < |rest|
    ensures ([x] + rest)[j + 1] == rest[j]
  {
  }

  /** The paragraph section numbered `index + 1`: titled `Seção n`, holding the trimmed text, important only when first. */
  function NumberedParagraph(p: string, index: nat): (s: Section)
    ensures s.kind == ParagraphSection && s.content == Trim(p)
    ensures s.title == "Seção " + NatToString(index + 1)
    ensures s.importance == (if index == 0 then High else Medium)
  {
    Section(ParagraphSection, "Seção " + NatToString(index + 1), Trim(p), if index == 0 then High else Medium, [], [])
  }

  /**
    The title of a text: its first line, trimmed, without a leading run of
    `#` and the white space after it, when that line has 1 to 99 characters.
   */
  function ExtractTitle(text: string): (r: Option<string>)
    ensures r.Some? ==> |r.value| < 100 && '\n' !in r.value
    ensures r.Some? <==> 0 < |Trim(Split(text, '\n')[0])| < 100
    ensures var first := Trim(Split(text, '\n')[0]);
      r.Some? ==> |r.value| <= |first| && r.value == first[|first| - |r.value|..]
    ensures var first := Trim(Split(text, '\n')[0]);
      r.Some? && first[0] != '#' ==> r.value == first
  {
    var firstLine := Trim(Split(text, '\n')[0]);
    if 0 < |firstLine| < 100 then
      var t := StripHeading(firstLine);
      SuffixChars(firstLine, t);
      FirstLineNoBreak(text);
      Some(t)
    else None
  }

  /**
    A text opening with a markdown heading line `# t` is titled `t`, when
    `t` has no surrounding white space, does not itself start with `#` and
    keeps the line under 100 characters.
   */
  lemma HeadingTitle(t: string, rest: string)
    requires 0 < |t| < 98 && '\n' !in t && t[0] != '#'
    requires !IsJsSpace(t[0]) && !IsJsSpace(t[|t| - 1])
    ensures ExtractTitle("# " + t + "\n" + rest) == Some(t)
  {
    var line := "# " + t;
    HeadingLine(t, rest);
    TrimUnpadded(line);
    StripHashSpace(t);
  }

  /** The heading line is the first line of the text. */
  lemma HeadingLine(t: string, rest: string)
    requires '\n' !in t
    ensures Split("# " + t + "\n" + rest, '\n')[0] == "# " + t
  {
    var line := "# " + t;
    assert "# " + t + "\n" + rest == line + ['\n'] + rest;
    assert '\n' !in line by {
      forall i | 0 <= i < |line| ensures line[i] != '\n' {
        if i >= 2 { assert line[i] == t[i - 2]; }
      }
    }
    SplitFirst(line, '\n', rest);
  }

  /** A string with no white space at either end is its own trim. */
  lemma TrimUnpadded(s: string)
    requires |s| > 0 && !IsJsSpace(s[0]) && !IsJsSpace(s[|s| - 1])
    ensures Trim(s) == s
  {
    assert TrimStart(s) == s;
    assert TrimEnd(s) == s;
  }

  /** `# t` loses the hash and the space. */
  lemma StripHashSpace(t: string)
    requires |t| > 0 && !IsJsSpace(t[0]) && t[0] != '#'
    ensures StripHeading("# " + t) == t
  {
    assert ("# " + t)[1..] == " " + t;
    assert (" " + t)[1..] == t;
    assert DropHashes(" " + t) == " " + t;
    assert DropHashes("# " + t) == " " + t;
    assert TrimStart(t) == t;
    assert TrimStart(" " + t) == t;
  }

  /** The characters of a suffix come from the whole string. */
  lemma SuffixChars(s: string, t: string)
    requires |t| <= |s| && t == s[|s| - |t|..]
    ensures forall i :: 0 <= i < |t| ==> t[i] in s
  {
    forall i | 0 <= i < |t| ensures t[i] in s {
      assert t[i] == s[|s| - |t| + i];
    }
  }

  /** The trimmed first line holds no line break. */
  lemma FirstLineNoBreak(text: string)
    ensures '\n' !in Trim(Split(text, '\n')[0])
  {
    assert '\n' !in Split(text, '\n')[0];
    TrimSubstring(Split(text, '\n')[0]);
  }

  /** The characters of a trimmed string come from the string. */
  lemma TrimSubstring(s: string)
    ensures forall i :: 0 <= i < |Trim(s)| ==> Trim(s)[i] in s
  {
    var a := TrimStart(s);
    var b := TrimEnd(a);
    forall i | 0 <= i < |b| ensures b[i] in s {
      assert b[i] == a[i];
      assert a[i] == s[|s| - |a| + i];
    }
  }

  /** `replace(/^#+\s*\/, '')`; `StripHeadingPrefix` says which prefix goes. */
  function StripHeading(s: string): (r: string)
    ensures |r| <= |s| && r == s[|s| - |r|..]
    ensures |s| == 0 || s[0] != '#' ==> r == s
    ensures |s| > 0 && s[0] == '#' ==> |r| < |s|
  {
    if |s| > 0 && s[0] == '#' then TrimStart(DropHashes(s)) else s
  }

  lemma HashIsNotSpace()
    ensures !IsJsSpace('#')
  {
  }

  /**
    The prefix `StripHeading` removes from a heading is a run of `#`
    followed by white space: every character is one or the other, and no
    `#` comes after white space.
   */
  lemma {:induction false} StripHeadingPrefix(s: string)
    requires |s| > 0 && s[0] == '#'
    ensures forall i :: 0 <= i < |s| - |StripHeading(s)| ==> s[i] == '#' || IsJsSpace(s[i])
    ensures forall i, j :: 0 <= i < j < |s| - |StripHeading(s)| && s[j] == '#' ==> s[i] == '#'
  {
    var d := DropHashes(s);
    var r := TrimStart(d);
    assert StripHeading(s) == r;
    var h := |s| - |d|;
    HashIsNotSpace();
    forall i | h <= i < |s| - |r| ensures IsJsSpace(s[i]) && s[i] != '#' {
      assert s[i] == d[i - h];
    }
  }

  /**
    The prefix `StripHeading` removes from a heading is the longest run of
    `#` and then white space: what is left does not start with white space,
    nor with `#` unless white space came before it.
   */
  lemma {:induction false} StripHeadingLongest(s: string)
    requires |s| > 0 && s[0] == '#'
    ensures var r := StripHeading(s);
      |r| > 0 ==> !IsJsSpace(r[0]) && (r[0] == '#' ==> IsJsSpace(s[|s| - |r| - 1]))
  {
    var d := DropHashes(s);
    var r := TrimStart(d);
    assert StripHeading(s) == r;
    if |r| > 0 && r[0] == '#' {
      assert |r| < |d|;
      assert s[|s| - |r| - 1] == d[|d| - |r| - 1];
    }
  }

  /** The leading run of `#` removed: everything dropped is `#`, and what is left does not start with it. */
  function DropHashes(s: string): (r: string)
    ensures |r| <= |s| && r == s[|s| - |r|..]
    ensures |r| > 0 ==> r[0] != '#'
    ensures forall i :: 0 <= i < |s| - |r| ==> s[i] == '#'
    ensures |s| > 0 && s[0] == '#' ==> |r| < |s|
  {
    if |s| > 0 && s[0] == '#' then
      var t := s[1..];
      var r := DropHashes(t);
      assert s[|s| - |r|..] == t[|t| - |r|..];
      assert forall i :: 1 <= i < |s| - |r| ==> s[i] == t[i - 1];
      r
    else s
  }

  /** `analyzeTextContent`: one paragraph section per non-blank paragraph. */
  function AnalyzeTextContent(text: string): (a: Analysis)
    ensures a.kind == TextType && a.confidence == 70
    ensures |a.sections| == |NonBlank(SplitOn(text, ParagraphBreak))|
    ensures forall k :: 0 <= k < |a.sections| ==>
              (a.sections[k].importance == High <==> k == 0) && a.sections[k].content != ""
    ensures a.metadata.category == "Documento de Texto"
  {
    var paragraphs := NonBlank(SplitOn(text, ParagraphBreak));
    var title := ExtractTitle(text);
    Analysis(TextType, 70, ParagraphSections(paragraphs, 0),
             Metadata(if title.Some? then Some(JString(title.value)) else None, "Documento de Texto"))
  }

  /** A non-blank text without a paragraph break is one important section holding the trimmed text. */
  lemma SingleParagraph(text: string)
    requires Trim(text) != "" && !Contains(text, ParagraphBreak)
    ensures var a := AnalyzeTextContent(text);
      |a.sections| == 1 && a.sections[0].content == Trim(text) && a.sections[0].importance == High
  {
    SplitOnNoSeparator(text, ParagraphBreak);
    assert NonBlank([text]) == [text];
  }

  // --- structured data --------------------------------------------------------

  /** `prefix ? prefix + '.' + key : key`. */
  function FullKey(prefix: string, key: string): string {
    if prefix != "" then prefix + "." + key else key
  }

  /** The number of non-container values reached through nested objects, arrays skipped. */
  function LeafCount(ms: seq<Member>): nat
    decreases ms
  {
    if |ms| == 0 then 0
    else
      (match ms[0].value
       case JObject(inner) => LeafCount(inner)
       case JArray(_) => 0
       case _ => 1)
      + LeafCount(ms[1..])
  }

  /**
    `extractDataFields`'s traversal: a nested object is entered with its
    dotted key as prefix, an array is skipped, any other value is a field.
   */
  function Flatten(ms: seq<Member>, prefix: string): (fields: seq<DataField>)
    ensures |fields| == LeafCount(ms)
    ensures forall k :: 0 <= k < |fields| ==>
              !IsContainer(fields[k].value) && fields[k].typeName == TypeOf(fields[k].value)
    ensures prefix != "" ==> forall k :: 0 <= k < |fields| ==> StartsWith(fields[k].key, prefix + ".")
    decreases ms
  {
    if |ms| == 0 then []
    else
      var m := ms[0];
      var full := FullKey(prefix, m.key);
      var here := match m.value
        case JObject(inner) => Flatten(inner, full)
        case JArray(_) => []
        case _ => [DataField(full, m.value, TypeOf(m.value))];
      assert prefix != "" ==> forall k :: 0 <= k < |here| ==> StartsWith(here[k].key, prefix + ".") by {
        if prefix != "" {
          forall k | 0 <= k < |here| ensures StartsWith(here[k].key, prefix + ".") {
            StartsWithSelf(prefix + ".");
            StartsWithAppend(prefix + ".", prefix + ".", m.key);
            assert full == (prefix + ".") + m.key;
            if m.value.JObject? {
              StartsWithAppend(full, full, ".");
              StartsWithTrans(full + ".", full, prefix + ".");
              StartsWithTrans(here[k].key, full + ".", prefix + ".");
            }
          }
        }
      }
      here + Flatten(ms[1..], prefix)
  }

  /** Without nested objects or arrays, the fields are the members themselves, in order. */
  lemma {:induction false} FlattenFlat(ms: seq<Member>)
    requires forall i :: 0 <= i < |ms| ==> !IsContainer(ms[i].value)
    ensures |Flatten(ms, "")| == |ms|
    ensures forall i :: 0 <= i < |ms| ==> Flatten(ms, "")[i] == DataField(ms[i].key, ms[i].value, TypeOf(ms[i].value))
  {
    if |ms| > 0 {
      assert forall i :: 1 <= i < |ms| ==> ms[i] == ms[1..][i - 1];
      FlattenFlat(ms[1..]);
    }
  }

  /**
    Following the member indices `ix` from `ms`, each step but the last
    entering a nested object, ends at a member whose value is `v`; `key` is
    that member's dotted path under `prefix`.
   */
  predicate PathTo(ms: seq<Member>, prefix: string, ix: seq<nat>, key: string, v: Json)
    decreases |ix|
  {
    |ix| > 0 && ix[0] < |ms| &&
    if |ix| == 1 then key == FullKey(prefix, ms[ix[0]].key) && v == ms[ix[0]].value
    else ms[ix[0]].value.JObject?
         && PathTo(ms[ix[0]].value.members, FullKey(prefix, ms[ix[0]].key), ix[1..], key, v)
  }

  /** A path that does not start at the first member is a path from the rest, one index lower. */
  lemma PathToTail(ms: seq<Member>, prefix: string, ix: seq<nat>, key: string, v: Json)
    requires |ms| > 0 && |ix| > 0 && ix[0] > 0
    ensures PathTo(ms, prefix, ix, key, v) <==> PathTo(ms[1..], prefix, [ix[0] - 1] + ix[1..], key, v)
  {
    var jx := [ix[0] - 1] + ix[1..];
    assert jx[1..] == ix[1..];
    if ix[0] < |ms| {
      assert ms[ix[0]] == ms[1..][ix[0] - 1];
    }
  }

  /** A path from the later members is a path from all of them. */
  lemma PathPastFirst(ms: seq<Member>, prefix: string, key: string, v: Json)
    requires |ms| > 0 && exists jx :: PathTo(ms[1..], prefix, jx, key, v)
    ensures exists ix :: PathTo(ms, prefix, ix, key, v)
  {
    var jx :| PathTo(ms[1..], prefix, jx, key, v);
    var ix := [jx[0] + 1] + jx[1..];
    assert [ix[0] - 1] + ix[1..] == jx;
    PathToTail(ms, prefix, ix, key, v);
  }

  /** A path inside the first member's object is a path from the members. */
  lemma PathIntoFirst(ms: seq<Member>, prefix: string, key: string, v: Json)
    requires |ms| > 0 && ms[0].value.JObject?
    requires exists jx :: PathTo(ms[0].value.members, FullKey(prefix, ms[0].key), jx, key, v)
    ensures exists ix :: PathTo(ms, prefix, ix, key, v)
  {
    var jx :| PathTo(ms[0].value.members, FullKey(prefix, ms[0].key), jx, key, v);
    assert ([0] + jx)[1..] == jx;
    assert PathTo(ms, prefix, [0] + jx, key, v);
  }

  /** Every non-container value reached through nested objects is a field, under its dotted path. */
  lemma {:induction false} FlattenComplete(ms: seq<Member>, prefix: string, ix: seq<nat>, key: string, v: Json)
    requires PathTo(ms, prefix, ix, key, v) && !IsContainer(v)
    ensures DataField(key, v, TypeOf(v)) in Flatten(ms, prefix)
    decreases ms
  {
    var full := FullKey(prefix, ms[0].key);
    var rest := Flatten(ms[1..], prefix);
    if ix[0] == 0 {
      if |ix| == 1 {
        assert Flatten(ms, prefix) == [DataField(full, v, TypeOf(v))] + rest;
      } else {
        var inner := ms[0].value.members;
        FlattenComplete(inner, full, ix[1..], key, v);
        assert Flatten(ms, prefix) == Flatten(inner, full) + rest;
      }
    } else {
      PathToTail(ms, prefix, ix, key, v);
      FlattenComplete(ms[1..], prefix, [ix[0] - 1] + ix[1..], key, v);
      var here := Flatten(ms, prefix)[..|Flatten(ms, prefix)| - |rest|];
      assert Flatten(ms, prefix) == here + rest;
    }
  }

  /** Every field is a value reached through nested objects, under its dotted path. */
  lemma {:induction false} FlattenSound(ms: seq<Member>, prefix: string, k: nat)
    requires k < |Flatten(ms, prefix)|
    ensures exists ix :: PathTo(ms, prefix, ix, Flatten(ms, prefix)[k].key, Flatten(ms, prefix)[k].value)
    decreases ms, 1
  {
    if k < |Flatten(ms, prefix)| - |Flatten(ms[1..], prefix)| {
      FlattenSoundHere(ms, prefix, k);
    } else {
      FlattenSoundRest(ms, prefix, k);
    }
  }

  /** `FlattenSound` for a field coming from the first member. */
  lemma {:induction false} FlattenSoundHere(ms: seq<Member>, prefix: string, k: nat)
    requires |ms| > 0 && k < |Flatten(ms, prefix)| - |Flatten(ms[1..], prefix)|
    ensures exists ix :: PathTo(ms, prefix, ix, Flatten(ms, prefix)[k].key, Flatten(ms, prefix)[k].value)
    decreases ms, 0
  {
    var full := FullKey(prefix, ms[0].key);
    var all := Flatten(ms, prefix);
    var f := all[k];
    match ms[0].value {
      case JObject(inner) =>
        assert all == Flatten(inner, full) + Flatten(ms[1..], prefix);
        FlattenSound(inner, full, k);
        PathIntoFirst(ms, prefix, f.key, f.value);
      case JArray(_) =>
        assert false;
      case _ =>
        assert f == DataField(full, ms[0].value, TypeOf(ms[0].value));
        assert PathTo(ms, prefix, [0], f.key, f.value);
    }
  }

  /** The fields of the later members come last. */
  lemma FlattenRestSuffix(ms: seq<Member>, prefix: string)
    requires |ms| > 0
    ensures |Flatten(ms[1..], prefix)| <= |Flatten(ms, prefix)|
    ensures Flatten(ms, prefix)[|Flatten(ms, prefix)| - |Flatten(ms[1..], prefix)|..] == Flatten(ms[1..], prefix)
  {
  }

  /** `FlattenSound` for a field coming from a later member. */
  lemma {:induction false} FlattenSoundRest(ms: seq<Member>, prefix: string, k: nat)
    requires |ms| > 0 && |Flatten(ms, prefix)| - |Flatten(ms[1..], prefix)| <= k < |Flatten(ms, prefix)|
    ensures exists ix :: PathTo(ms, prefix, ix, Flatten(ms, prefix)[k].key, Flatten(ms, prefix)[k].value)
    decreases ms, 0
  {
    var rest := Flatten(ms[1..], prefix);
    var all := Flatten(ms, prefix);
    var n := |all| - |rest|;
    FlattenRestSuffix(ms, prefix);
    assert all[k] == all[n..][k - n] == rest[k - n];
    FlattenSound(ms[1..], prefix, k - n);
    PathPastFirst(ms, prefix, all[k].key, all[k].value);
  }

  const MaxDataFields := 20

  /** `extractDataFields`: the first twenty fields of the traversal. */
  function ExtractDataFields(obj: Json): (fields: seq<DataField>)
    ensures |fields| <= MaxDataFields
    ensures |fields| == if LeafCount(Entries(obj)) < MaxDataFields then LeafCount(Entries(obj)) else MaxDataFields
    ensures fields == Flatten(Entries(obj), "")[..|fields|]
  {
    var all := Flatten(Entries(obj), "");
    if |all| <= MaxDataFields then
      assert all[..|all|] == all;
      all
    else all[..MaxDataFields]
  }

  /** The number of arrays reached through nested objects. */
  function ArrayCount(ms: seq<Member>): nat
    decreases ms
  {
    if |ms| == 0 then 0
    else
      (match ms[0].value
       case JObject(inner) => ArrayCount(inner)
       case JArray(_) => 1
       case _ => 0)
      + ArrayCount(ms[1..])
  }

  /** `extractLists`' traversal: each array reached through nested objects, with its dotted path. */
  function ListsOf(ms: seq<Member>, path: string): (lists: seq<NamedList>)
    ensures |lists| == ArrayCount(ms)
    ensures path != "" ==> forall k :: 0 <= k < |lists| ==> StartsWith(lists[k].title, path + ".")
    decreases ms
  {
    if |ms| == 0 then []
    else
      var m := ms[0];
      var full := FullKey(path, m.key);
      var here := match m.value
        case JArray(items) => [NamedList(full, items)]
        case JObject(inner) => ListsOf(inner, full)
        case _ => [];
      assert path != "" ==> forall k :: 0 <= k < |here| ==> StartsWith(here[k].title, path + ".") by {
        if path != "" {
          forall k | 0 <= k < |here| ensures StartsWith(here[k].title, path + ".") {
            StartsWithSelf(path + ".");
            StartsWithAppend(path + ".", path + ".", m.key);
            assert full == (path + ".") + m.key;
            if m.value.JObject? {
              StartsWithAppend(full, full, ".");
              StartsWithTrans(full + ".", full, path + ".");
              StartsWithTrans(here[k].title, full + ".", path + ".");
            }
          }
        }
      }
      here + ListsOf(ms[1..], path)
  }

  /** Every array reached through nested objects is listed, under its dotted path and with all its items. */
  lemma {:induction false} ListsOfComplete(ms: seq<Member>, path: string, ix: seq<nat>, key: string, items: seq<Json>)
    requires PathTo(ms, path, ix, key, JArray(items))
    ensures NamedList(key, items) in ListsOf(ms, path)
    decreases ms
  {
    var full := FullKey(path, ms[0].key);
    var rest := ListsOf(ms[1..], path);
    if ix[0] == 0 {
      if |ix| == 1 {
        assert ListsOf(ms, path) == [NamedList(full, items)] + rest;
      } else {
        var inner := ms[0].value.members;
        ListsOfComplete(inner, full, ix[1..], key, items);
        assert ListsOf(ms, path) == ListsOf(inner, full) + rest;
      }
    } else {
      PathToTail(ms, path, ix, key, JArray(items));
      ListsOfComplete(ms[1..], path, [ix[0] - 1] + ix[1..], key, items);
      ListsOfRestSuffix(ms, path);
      var all := ListsOf(ms, path);
      assert all == all[..|all| - |rest|] + rest;
    }
  }

  /** The lists of the later members come last. */
  lemma ListsOfRestSuffix(ms: seq<Member>, path: string)
    requires |ms| > 0
    ensures |ListsOf(ms[1..], path)| <= |ListsOf(ms, path)|
    ensures ListsOf(ms, path)[|ListsOf(ms, path)| - |ListsOf(ms[1..], path)|..] == ListsOf(ms[1..], path)
  {
  }

  /** Every list is an array reached through nested objects, under its dotted path. */
  lemma {:induction false} ListsOfSound(ms: seq<Member>, path: string, k: nat)
    requires k < |ListsOf(ms, path)|
    ensures exists ix :: PathTo(ms, path, ix, ListsOf(ms, path)[k].title, JArray(ListsOf(ms, path)[k].items))
    decreases ms, 1
  {
    if k < |ListsOf(ms, path)| - |ListsOf(ms[1..], path)| {
      ListsOfSoundHere(ms, path, k);
    } else {
      ListsOfSoundRest(ms, path, k);
    }
  }

  /** `ListsOfSound` for a list coming from the first member. */
  lemma {:induction false} ListsOfSoundHere(ms: seq<Member>, path: string, k: nat)
    requires |ms| > 0 && k < |ListsOf(ms, path)| - |ListsOf(ms[1..], path)|
    ensures exists ix :: PathTo(ms, path, ix, ListsOf(ms, path)[k].title, JArray(ListsOf(ms, path)[k].items))
    decreases ms, 0
  {
    var full := FullKey(path, ms[0].key);
    var all := ListsOf(ms, path);
    var l := all[k];
    match ms[0].value {
      case JObject(inner) =>
        assert all == ListsOf(inner, full) + ListsOf(ms[1..], path);
        ListsOfSound(inner, full, k);
        PathIntoFirst(ms, path, l.title, JArray(l.items));
      case JArray(items) =>
        assert l == NamedList(full, items);
        assert PathTo(ms, path, [0], l.title, JArray(l.items));
      case _ =>
        assert false;
    }
  }

  /** `ListsOfSound` for a list coming from a later member. */
  lemma {:induction false} ListsOfSoundRest(ms: seq<Member>, path: string, k: nat)
    requires |ms| > 0 && |ListsOf(ms, path)| - |ListsOf(ms[1..], path)| <= k < |ListsOf(ms, path)|
    ensures exists ix :: PathTo(ms, path, ix, ListsOf(ms, path)[k].title, JArray(ListsOf(ms, path)[k].items))
    decreases ms, 0
  {
    var rest := ListsOf(ms[1..], path);
    var all := ListsOf(ms, path);
    var n := |all| - |rest|;
    ListsOfRestSuffix(ms, path);
    assert all[k] == all[n..][k - n] == rest[k - n];
    ListsOfSound(ms[1..], path, k - n);
    PathPastFirst(ms, path, all[k].title, JArray(all[k].items));
  }

  /** Every array member of the object itself is listed, under its dotted key and with all its items. */
  lemma {:induction false} ListsOfArrays(ms: seq<Member>, path: string)
    ensures forall i :: 0 <= i < |ms| && ms[i].value.JArray? ==>
              NamedList(FullKey(path, ms[i].key), ms[i].value.items) in ListsOf(ms, path)
  {
    if |ms| > 0 {
      ListsOfArrays(ms[1..], path);
      forall i | 0 <= i < |ms| && ms[i].value.JArray?
        ensures NamedList(FullKey(path, ms[i].key), ms[i].value.items) in ListsOf(ms, path)
      {
        if i > 0 {
          assert ms[i] == ms[1..][i - 1];
        }
      }
    }
  }

  /** The first truthy value among `title`, `nome` and `name`. */
  function StructuredTitle(obj: Json): (t: Json)
    ensures Truthy(t)
    ensures HasTruthy(obj, "title") ==> t == Get(obj, "title").value
    ensures !HasTruthy(obj, "title") && HasTruthy(obj, "nome") ==> t == Get(obj, "nome").value
    ensures !HasTruthy(obj, "title") && !HasTruthy(obj, "nome") && HasTruthy(obj, "name") ==>
              t == Get(obj, "name").value
    ensures !HasTruthy(obj, "title") && !HasTruthy(obj, "nome") && !HasTruthy(obj, "name") ==>
              t == JString("Dados Estruturados")
  {
    if HasTruthy(obj, "title") then Get(obj, "title").value
    else if HasTruthy(obj, "nome") then Get(obj, "nome").value
    else if HasTruthy(obj, "name") then Get(obj, "name").value
    else JString("Dados Estruturados")
  }

  /** `analyzeStructuredContent`: a data section when there are fields, a list section when there are arrays. */
  function AnalyzeStructuredContent(obj: Json): (a: Analysis)
    ensures a.kind == StructuredType && a.confidence == 90
    ensures |a.sections| == (if LeafCount(Entries(obj)) > 0 then 1 else 0) + (if |ListsOf(Entries(obj), "")| > 0 then 1 else 0)
    ensures LeafCount(Entries(obj)) > 0 ==>
              a.sections[0].kind == DataSection && a.sections[0].importance == High
              && a.sections[0].fields == ExtractDataFields(obj)
    ensures |ListsOf(Entries(obj), "")| > 0 ==>
              a.sections[|a.sections| - 1].kind == ListSection
              && a.sections[|a.sections| - 1].lists == ListsOf(Entries(obj), "")
    ensures a.metadata.title.Some? && Truthy(a.metadata.title.value)
  {
    var fields := ExtractDataFields(obj);
    Analysis(StructuredType, 90, StructuredSections(fields, ListsOf(Entries(obj), "")),
             Metadata(Some(StructuredTitle(obj)), "Análise de Dados"))
  }

  /** The data section when there are fields, then the list section when there are lists. */
  function StructuredSections(fields: seq<DataField>, lists: seq<NamedList>): (ss: seq<Section>)
    ensures |ss| == (if |fields| > 0 then 1 else 0) + (if |lists| > 0 then 1 else 0)
    ensures |fields| > 0 ==> ss[0].kind == DataSection && ss[0].importance == High && ss[0].fields == fields
    ensures |lists| > 0 ==> ss[|ss| - 1].kind == ListSection && ss[|ss| - 1].lists == lists
  {
    var data := if |fields| > 0
      then [Section(DataSection, "Dados Extraídos", "Informações estruturadas identificadas automaticamente.", High, fields, [])]
      else [];
    var listed := if |lists| > 0
      then [Section(ListSection, "Informações Listadas", "Listas e arrays identificados no conteúdo.", Medium, [], lists)]
      else [];
    data + listed
  }

  /** `createFallbackAnalysis`: one summary section. */
  function FallbackAnalysis(): (a: Analysis)
    ensures a.kind == TextType && a.confidence == 50 && |a.sections| == 1
  {
    Analysis(TextType, 50,
             [Section(SummarySection, "Conteúdo Processado",
                      "Conteúdo detectado e processado automaticamente pelo sistema.", Medium, [], [])],
             Metadata(Some(JString("Relatório Automático")), "Processamento Geral"))
  }

  /** The table, list and heading flags `analyzeHTMLContent` reports. */
  datatype HtmlFlags = HtmlFlags(hasTable: bool, hasLists: bool, hasHeaders: bool)

  function AnalyzeHtmlFlags(html: string): (f: HtmlFlags)
    ensures f.hasTable <==> Contains(html, "<table")
    ensures f.hasLists <==> Contains(html, "<ul") || Contains(html, "<ol")
    ensures f.hasHeaders <==> Contains(html, "<h1") || Contains(html, "<h2") || Contains(html, "<h3")
  {
    HtmlFlags(Contains(html, "<table"), Contains(html, "<ul") || Contains(html, "<ol"),
              Contains(html, "<h1") || Contains(html, "<h2") || Contains(html, "<h3"))
  }

  /** What `analyzeHTMLContent` returns: the analysis and the flags reported beside it. */
  datatype HtmlReport = HtmlReport(analysis: Analysis, flags: HtmlFlags)

  /**
    `analyzeHTMLContent`. `titleMatch` is the text the case-insensitive
    `<title>(.*?)</title>` match captures, None when there is no match.
    The analysis is one important summary section, whatever the document holds.
   */
  function AnalyzeHtmlContent(html: string, titleMatch: Option<string>): (r: HtmlReport)
    ensures r.analysis.kind == HtmlType && r.analysis.confidence == 95
    ensures |r.analysis.sections| == 1
    ensures r.analysis.sections[0].kind == SummarySection && r.analysis.sections[0].importance == High
    ensures r.analysis.sections[0].fields == [] && r.analysis.sections[0].lists == []
    ensures r.analysis.metadata.category == "Documento HTML"
    ensures r.analysis.metadata.title.Some? <==> titleMatch.Some?
    ensures titleMatch.Some? ==> r.analysis.metadata.title.value == JString(titleMatch.value)
    ensures r.flags.hasTable <==> Contains(html, "<table")
    ensures r.flags.hasLists <==> Contains(html, "<ul") || Contains(html, "<ol")
  {
    var summary := Section(SummarySection, "Conteúdo HTML Processado",
                           "Documento HTML completo detectado e processado automaticamente.", High, [], []);
    HtmlReport(Analysis(HtmlType, 95, [summary],
                        Metadata(if titleMatch.Some? then Some(JString(titleMatch.value)) else None, "Documento HTML")),
               AnalyzeHtmlFlags(html))
  }

  // ---------------------------------------------------------------------------
  // Category
  // ---------------------------------------------------------------------------

  datatype Category = Legal | HumanResources | Financial | Analytics | General

  /** The category's display name. */
  function CategoryName(c: Category): string {
    match c
    case Legal => "Jurídico"
    case HumanResources => "RH"
    case Financial => "Financeiro"
    case Analytics => "Análise"
    case General => "Geral"
  }

  /**
    `detectCategory` on the serialized content (`JSON.stringify` of it):
    the first of four keyword groups found in the lower-cased text.
   */
  function DetectCategory(serialized: string): (c: Category)
    ensures var t := ToLower(serialized);
      c == Legal <==> Contains(t, "contrato") || Contains(t, "clt")
    ensures var t := ToLower(serialized);
      c == HumanResources <==>
        !(Contains(t, "contrato") || Contains(t, "clt")) && (Contains(t, "currículo") || Contains(t, "candidato"))
    ensures var t := ToLower(serialized);
      c == Financial <==>
        !(Contains(t, "contrato") || Contains(t, "clt")) && !(Contains(t, "currículo") || Contains(t, "candidato"))
        && (Contains(t, "despesa") || Contains(t, "financeiro"))
    ensures var t := ToLower(serialized);
      c == Analytics <==>
        !(Contains(t, "contrato") || Contains(t, "clt")) && !(Contains(t, "currículo") || Contains(t, "candidato"))
        && !(Contains(t, "despesa") || Contains(t, "financeiro")) && (Contains(t, "relatório") || Contains(t, "análise"))
    ensures var t := ToLower(serialized);
      c == General <==>
        !Contains(t, "contrato") && !Contains(t, "clt") && !Contains(t, "currículo") && !Contains(t, "candidato")
        && !Contains(t, "despesa") && !Contains(t, "financeiro") && !Contains(t, "relatório") && !Contains(t, "análise")
  {
    var t := ToLower(serialized);
    if Contains(t, "contrato") || Contains(t, "clt") then Legal
    else if Contains(t, "currículo") || Contains(t, "candidato") then HumanResources
    else if Contains(t, "despesa") || Contains(t, "financeiro") then Financial
    else if Contains(t, "relatório") || Contains(t, "análise") then Analytics
    else General
  }

  /** A contract mentioned anywhere wins over every other keyword that follows it. */
  lemma ContractWins(a: string, b: string)
    requires Contains(ToLower(a), "contrato")
    ensures DetectCategory(a + b) == Legal
  {
    var i :| 0 <= i <= |ToLower(a)| - |"contrato"| && OccursAt(ToLower(a), "contrato", i);
    assert ToLower(a + b)[..|a|] == ToLower(a);
    assert ToLower(a + b)[i..i + 8] == ToLower(a)[i..i + 8];
    assert OccursAt(ToLower(a + b), "contrato", i);
  }

  // ---------------------------------------------------------------------------
  // Field names and values
  // ---------------------------------------------------------------------------

  predicate IsAsciiUpper(c: char) {
    'A' <= c <= 'Z'
  }

  function CountUpper(s: string): nat {
    if |s| == 0 then 0 else (if IsAsciiUpper(s[0]) then 1 else 0) + CountUpper(s[1..])
  }

  /** The string with its spaces removed. */
  function WithoutSpaces(s: string): string {
    if |s| == 0 then "" else (if s[0] == ' ' then "" else [s[0]]) + WithoutSpaces(s[1..])
  }

  lemma {:induction false} WithoutSpacesAppend(a: string, b: string)
    ensures WithoutSpaces(a + b) == WithoutSpaces(a) + WithoutSpaces(b)
  {
    if |a| > 0 {
      assert (a + b)[1..] == a[1..] + b;
      WithoutSpacesAppend(a[1..], b);
    } else {
      assert a + b == b;
    }
  }

  /** Every ASCII capital after the first character follows a space. */
  predicate CapitalsAfterSpace(s: string) {
    forall i :: 0 < i < |s| && IsAsciiUpper(s[i]) ==> s[i - 1] == ' '
  }

  /** `replace(/([A-Z])/g, ' $1')`: a space before every ASCII capital. */
  function SpaceBeforeCapitals(s: string): (r: string)
    ensures |r| == |s| + CountUpper(s)
    ensures forall c :: c in r ==> c in s || c == ' '
    ensures CapitalsAfterSpace(r) && (|r| > 0 ==> !IsAsciiUpper(r[0]))
    ensures |s| > 0 && !IsAsciiUpper(s[0]) ==> r[0] == s[0]
  {
    if |s| == 0 then ""
    else
      var head := if IsAsciiUpper(s[0]) then [' ', s[0]] else [s[0]];
      var rest := SpaceBeforeCapitals(s[1..]);
      assert forall i :: |head| <= i < |head + rest| ==> (head + rest)[i] == rest[i - |head|];
      head + rest
  }

  /** Taking the inserted spaces out again gives back the key, every other character in place. */
  lemma {:induction false} SpaceBeforeCapitalsKeepsText(s: string)
    ensures WithoutSpaces(SpaceBeforeCapitals(s)) == WithoutSpaces(s)
  {
    if |s| > 0 {
      var head := if IsAsciiUpper(s[0]) then [' ', s[0]] else [s[0]];
      SpaceBeforeCapitalsKeepsText(s[1..]);
      WithoutSpacesAppend(head, SpaceBeforeCapitals(s[1..]));
      assert s == [s[0]] + s[1..];
      WithoutSpacesAppend([s[0]], s[1..]);
    }
  }

  /** `replace(/_/g, ' ')`. */
  function UnderscoresToSpaces(s: string): (r: string)
    ensures |r| == |s|
    ensures forall i :: 0 <= i < |s| ==> r[i] == (if s[i] == '_' then ' ' else s[i])
  {
    if |s| == 0 then "" else [if s[0] == '_' then ' ' else s[0]] + UnderscoresToSpaces(s[1..])
  }

  /** The characters `.` in a JavaScript regex does not match. */
  predicate IsLineTerminator(c: char) {
    c == '\n' || c == '\r' || c == '\U{2028}' || c == '\U{2029}'
  }

  /** `replace(/^./, str => str.toUpperCase())`. */
  function CapitalizeFirst(s: string): (r: string)
    ensures |r| == |s| && (|s| > 0 ==> r[1..] == s[1..])
    ensures |s| > 0 && 'a' <= s[0] <= 'z' ==> IsAsciiUpper(r[0]) && LowerChar(r[0]) == s[0]
    ensures |s| > 0 && (s[0] == ' ' || IsAsciiUpper(s[0]) || IsLineTerminator(s[0])) ==> r == s
  {
    if |s| > 0 && !IsLineTerminator(s[0]) then [UpperChar(s[0])] + s[1..] else s
  }

  /** The last dot-separated segment of a key. */
  function LastSegment(key: string): (seg: string)
    ensures '.' !in seg
  {
    var parts := Split(key, '.');
    parts[|parts| - 1]
  }

  /** Only the text after the last dot names the field. */
  lemma LastSegmentAfterDot(prefix: string, seg: string)
    requires '.' !in seg
    ensures LastSegment(prefix + "." + seg) == seg
    ensures LastSegment(seg) == seg
  {
    SplitLast(prefix, '.', seg);
    assert prefix + "." + seg == prefix + ['.'] + seg;
    SplitNoSeparator(seg, '.');
  }

  /** A dotted key is shown under the name of its last segment alone. */
  lemma FormatNestedKey(prefix: string, seg: string)
    requires '.' !in seg
    ensures FormatFieldName(prefix + "." + seg) == FormatFieldName(seg)
  {
    LastSegmentAfterDot(prefix, seg);
  }

  /**
    `formatFieldName`: the last segment of a dotted key, a space before
    each capital, the first letter upper-cased and underscores as spaces.
   */
  function FormatFieldName(key: string): (r: string)
    ensures |r| == |LastSegment(key)| + CountUpper(LastSegment(key))
    ensures '_' !in r
    ensures '.' !in r
    ensures CapitalsAfterSpace(r)
    ensures var seg := LastSegment(key);
      |seg| > 0 && 'a' <= seg[0] <= 'z' ==> IsAsciiUpper(r[0]) && LowerChar(r[0]) == seg[0]
  {
    var spaced := SpaceBeforeCapitals(LastSegment(key));
    var r := UnderscoresToSpaces(CapitalizeFirst(spaced));
    CapitalizedSpacing(spaced);
    r
  }

  /** Capitalizing the first letter and turning underscores into spaces keeps capitals after spaces. */
  lemma CapitalizedSpacing(spaced: string)
    requires CapitalsAfterSpace(spaced) && (|spaced| > 0 ==> !IsAsciiUpper(spaced[0]))
    ensures var r := UnderscoresToSpaces(CapitalizeFirst(spaced));
      '_' !in r && CapitalsAfterSpace(r)
      && (|spaced| > 0 && 'a' <= spaced[0] <= 'z' ==> IsAsciiUpper(r[0]) && LowerChar(r[0]) == spaced[0])
  {
    var capped := CapitalizeFirst(spaced);
    var r := UnderscoresToSpaces(capped);
    forall i | 0 <= i < |r| ensures r[i] != '_' { }
    forall i | 0 < i < |r| && IsAsciiUpper(r[i]) ensures r[i - 1] == ' ' {
      assert capped[i] == spaced[i];
      if i - 1 == 0 {
        assert capped[0] == ' ';
      } else {
        assert capped[i - 1] == spaced[i - 1];
      }
    }
  }

  const MaxShownLength := 100
  const Ellipsis := "..."
  const Yes := "✅ Sim"
  const No := "❌ Não"

  /** `String(value)` on an array item; `null` joins as the empty string. */
  function ItemString(j: Json): string
    decreases j, 2, 0
  {
    if j.JNull? then "" else JsString(j)
  }

  /** `String(value)`: arrays join their items with commas; objects are `[object Object]`. */
  function JsString(j: Json): string
    decreases j, 1, 0
  {
    match j
    case JNull => "null"
    case JBool(b) => if b then "true" else "false"
    case JNumber(n) => IntToString(n)
    case JString(s) => s
    case JArray(items) => Join(ItemStrings(items, j), ",")
    case JObject(_) => "[object Object]"
  }

  function ItemStrings(items: seq<Json>, ghost parent: Json): (r: seq<string>)
    requires forall i :: 0 <= i < |items| ==> items[i] < parent
    ensures |r| == |items|
    decreases parent, 0, |items|
  {
    if |items| == 0 then [] else [ItemString(items[0])] + ItemStrings(items[1..], parent)
  }

  /** A dot at every fourth position counted from the end, digits everywhere else. */
  predicate Grouped(r: string) {
    forall i :: 0 <= i < |r| ==> if (|r| - i) % 4 == 0 then r[i] == '.' else IsDigit(r[i])
  }

  /** Digits of a natural number grouped by threes with `.`, as `toLocaleString('pt-BR')` writes integers. */
  function GroupThousands(n: nat): (r: string)
    ensures |r| > 0 && IsDigit(r[0])
    ensures Grouped(r)
    decreases n
  {
    if n < 1000 then
      ShortNumber(n);
      NatToString(n)
    else
      var low := n % 1000;
      var g := GroupThousands(n / 1000);
      var d := [DigitChar(low / 100), DigitChar(low / 10 % 10), DigitChar(low % 10)];
      GroupedAppend(g, d);
      g + "." + d
  }

  /** A grouped number followed by a dot and three digits is grouped. */
  lemma GroupedAppend(g: string, d: string)
    requires Grouped(g) && |d| == 3 && AllDigits(d)
    ensures Grouped(g + "." + d)
  {
    var r := g + "." + d;
    forall i | 0 <= i < |r| ensures if (|r| - i) % 4 == 0 then r[i] == '.' else IsDigit(r[i]) {
      if i < |g| {
        assert r[i] == g[i] && (|r| - i) % 4 == (|g| - i) % 4;
      } else if i > |g| {
        assert r[i] == d[i - |g| - 1];
      }
    }
  }

  /** A number below a thousand has at most three digits, so it is grouped as it is. */
  lemma {:induction false} ShortNumber(n: nat)
    requires n < 1000
    ensures |NatToString(n)| <= 3 && Grouped(NatToString(n))
  {
    if n >= 10 {
      ShortNumber(n / 10);
    }
  }

  /** Dropping the group separators gives back the plain decimal digits. */
  lemma {:induction false} GroupThousandsDigits(n: nat)
    ensures DigitsOnly(GroupThousands(n)) == NatToString(n)
    decreases n
  {
    if n < 1000 {
      DigitsOnlyOfDigits(NatToString(n));
    } else {
      var low := n % 1000;
      var tail := [DigitChar(low / 100), DigitChar(low / 10 % 10), DigitChar(low % 10)];
      GroupThousandsDigits(n / 1000);
      GroupedTail(n);
      assert GroupThousands(n) == GroupThousands(n / 1000) + ("." + tail);
      DigitsOnlyAppend(GroupThousands(n / 1000), "." + tail);
      DigitsOnlyAppend(".", tail);
      DigitsOnlySeparator('.');
      DigitsOnlyOfDigits(tail);
    }
  }

  /** The decimal digits of `n` are those of `n / 1000` followed by three more. */
  lemma GroupedTail(n: nat)
    requires n >= 1000
    ensures NatToString(n) == NatToString(n / 1000)
      + [DigitChar(n % 1000 / 100), DigitChar(n % 1000 / 10 % 10), DigitChar(n % 1000 % 10)]
  {
    ThousandDigits(n);
    LastDigit(n);
    LastDigit(n / 10);
    LastDigit(n / 10 / 10);
  }

  /** A number of two or more digits is its leading digits followed by its last one. */
  lemma LastDigit(n: nat)
    requires n >= 10
    ensures NatToString(n) == NatToString(n / 10) + [DigitChar(n % 10)]
  {
  }

  /** Dividing by ten three times divides by a thousand, and the dropped digits are those of `n % 1000`. */
  lemma ThousandDigits(n: nat)
    ensures n / 10 / 10 / 10 == n / 1000
    ensures n / 10 % 10 == n % 1000 / 10 % 10
    ensures n / 10 / 10 % 10 == n % 1000 / 100
    ensures n % 10 == n % 1000 % 10
  {
    var q, r := n / 1000, n % 1000;
    assert n == 1000 * q + r;
    assert n / 10 == 100 * q + r / 10;
    assert n / 10 / 10 == 10 * q + r / 100;
  }

  /** An integer in the pt-BR locale: a minus sign, then the grouped digits. */
  function LocaleInt(i: int): (r: string)
    ensures |r| > 0 && (r[0] == '-' <==> i < 0)
    ensures DigitsOnly(r) == NatToString(if i < 0 then -i else i)
  {
    if i < 0 then
      GroupThousandsDigits(-i);
      DigitsOnlyAppend("-", GroupThousands(-i));
      DigitsOnlySeparator('-');
      "-" + GroupThousands(-i)
    else
      GroupThousandsDigits(i);
      GroupThousands(i)
  }

  /** `formatFieldValue`: yes/no marks for booleans, pt-BR integers, long strings cut to 100 characters. */
  function FormatFieldValue(value: Json): (r: string)
    ensures value.JBool? ==> r == (if value.b then Yes else No)
    ensures value.JString? && |value.s| > MaxShownLength ==>
              |r| == MaxShownLength + 3 && r[..MaxShownLength] == value.s[..MaxShownLength] && EndsWith(r, Ellipsis)
    ensures value.JString? && |value.s| <= MaxShownLength ==> r == value.s
    ensures value.JNumber? && value.n >= 0 ==> DigitsOnly(r) == NatToString(value.n)
  {
    match value
    case JBool(b) => if b then Yes else No
    case JNumber(n) => LocaleInt(n)
    case JString(s) =>
      if |s| > MaxShownLength then
        EndsWithConcat(s[..MaxShownLength], Ellipsis);
        s[..MaxShownLength] + Ellipsis
      else s
    case _ => JsString(value)
  }
}
