/**
  The requirement analysis of an agent's graph: which input fields the
  agent needs (from input schemas, from node labels and from placeholders
  in AI prompts), whether it needs a file and of which types, and the
  breadth-first execution flow shown to the user.
 */
module NodeAnalyzer {
  import opened StringUtil
  import opened Options
  import opened Workflow

  datatype FieldType = StringType | FileType | NumberType | BooleanType | ObjectType

  /** One property of an input schema. Absent strings are empty; `accept` lists file types. */
  datatype SchemaProp = SchemaProp(
    name: string,
    propType: string,
    format: Option<string>,
    description: string,
    accept: string,
    examples: seq<string>)

  /** An input schema with properties, in key order, and its optional `required` list. */
  datatype Schema = Schema(properties: seq<SchemaProp>, required: Option<seq<string>>)

  /** What the analyzer reads of a node; a schema is present when it has `properties`. */
  datatype AnalyzerNode = AnalyzerNode(
    id: string,
    nodeType: string,      // node.type
    dataType: string,      // node.data.type
    caption: string,       // node.data.label
    dataSchema: Option<Schema>,
    configSchema: Option<Schema>,
    dataPrompt: string,
    configPrompt: string)

  datatype RequiredField = RequiredField(
    name: string,
    fieldType: FieldType,
    description: string,
    required: bool,
    format: Option<string>,
    examples: seq<string>)

  function FieldNames(fields: seq<RequiredField>): (names: seq<string>)
    ensures |names| == |fields|
    ensures forall i :: 0 <= i < |fields| ==> names[i] == fields[i].name
  {
    if |fields| == 0 then [] else [fields[0].name] + FieldNames(fields[1..])
  }

  lemma {:induction false} FieldNamesAppend(a: seq<RequiredField>, b: seq<RequiredField>)
    ensures FieldNames(a + b) == FieldNames(a) + FieldNames(b)
  {
    var l, r := FieldNames(a + b), FieldNames(a) + FieldNames(b);
    assert |l| == |r|;
    forall i | 0 <= i < |l| ensures l[i] == r[i] {
      if i < |a| { assert (a + b)[i] == a[i]; } else { assert (a + b)[i] == b[i - |a|]; }
    }
  }

  predicate IsFileFormat(format: Option<string>) {
    format == Some("binary") || format == Some("file")
  }

  /** `mapSchemaType`: a binary or file format wins over the type; unknown types are strings. */
  function MapSchemaType(t: string, format: Option<string>): (r: FieldType)
    ensures IsFileFormat(format) ==> r == FileType
    ensures r == FileType <==> IsFileFormat(format)
    ensures !IsFileFormat(format) ==> (r == NumberType <==> t == "number" || t == "integer")
    ensures !IsFileFormat(format) ==> (r == BooleanType <==> t == "boolean")
    ensures !IsFileFormat(format) ==> (r == ObjectType <==> t == "object")
    ensures !IsFileFormat(format) ==> (r == StringType <==> t !in ["number", "integer", "boolean", "object"])
  {
    if IsFileFormat(format) then FileType
    else if t == "string" then StringType
    else if t == "number" || t == "integer" then NumberType
    else if t == "boolean" then BooleanType
    else if t == "object" then ObjectType
    else StringType
  }

  /** The field a schema property describes; it is required when listed, or when there is no list. */
  function FieldFromProp(p: SchemaProp, required: Option<seq<string>>): (f: RequiredField)
    ensures f.name == p.name && f.fieldType == MapSchemaType(p.propType, p.format)
    ensures f.required <==> required.None? || p.name in required.value
    ensures p.description != "" ==> f.description == p.description
  {
    RequiredField(p.name, MapSchemaType(p.propType, p.format),
                  if p.description != "" then p.description else "Campo " + p.name,
                  if required.Some? then p.name in required.value else true,
                  p.format, p.examples)
  }

  /** The fields of every property of a schema, in order. */
  function SchemaFields(props: seq<SchemaProp>, required: Option<seq<string>>): (fields: seq<RequiredField>)
    ensures |fields| == |props|
    ensures forall i :: 0 <= i < |props| ==> fields[i] == FieldFromProp(props[i], required)
  {
    if |props| == 0 then [] else [FieldFromProp(props[0], required)] + SchemaFields(props[1..], required)
  }

  /** Properties with distinct names give fields with distinct names. */
  lemma SchemaFieldsDistinct(props: seq<SchemaProp>, required: Option<seq<string>>)
    requires forall i, j :: 0 <= i < j < |props| ==> props[i].name != props[j].name
    ensures NoDuplicates(FieldNames(SchemaFields(props, required)))
  {
    var names := FieldNames(SchemaFields(props, required));
    assert forall i :: 0 <= i < |props| ==> names[i] == props[i].name;
  }

  /** The fields of the properties whose name is not taken yet, each added as it comes. */
  function AddAbsentFields(fields: seq<RequiredField>, props: seq<SchemaProp>, required: Option<seq<string>>): (r: seq<RequiredField>)
    requires NoDuplicates(FieldNames(fields))
    ensures |r| >= |fields| && r[..|fields|] == fields
    ensures NoDuplicates(FieldNames(r))
    ensures forall i :: 0 <= i < |props| ==> props[i].name in FieldNames(r)
    decreases |props|, 1
  {
    if |props| == 0 then fields
    else if props[0].name in FieldNames(fields) then
      var r := AddAbsentFields(fields, props[1..], required);
      PrefixNames(r, fields, props[0].name);
      PropsCovered(props, FieldNames(r));
      r
    else AddFirstProp(fields, props, required)
  }

  /** The step of `AddAbsentFields` that appends the first property as a new field. */
  function AddFirstProp(fields: seq<RequiredField>, props: seq<SchemaProp>, required: Option<seq<string>>): (r: seq<RequiredField>)
    requires NoDuplicates(FieldNames(fields)) && |props| > 0 && props[0].name !in FieldNames(fields)
    ensures |r| >= |fields| && r[..|fields|] == fields
    ensures NoDuplicates(FieldNames(r))
    ensures forall i :: 0 <= i < |props| ==> props[i].name in FieldNames(r)
    decreases |props|, 0
  {
    var f := FieldFromProp(props[0], required);
    AppendNewField(fields, f);
    var r := AddAbsentFields(fields + [f], props[1..], required);
    ShorterPrefix(r, fields, f);
    PrefixNames(r, fields + [f], f.name);
    PropsCovered(props, FieldNames(r));
    r
  }

  lemma ShorterPrefix<T>(r: seq<T>, p: seq<T>, x: T)
    requires |r| >= |p| + 1 && r[..|p| + 1] == p + [x]
    ensures r[..|p|] == p
  {
    assert r[..|p|] == r[..|p| + 1][..|p|];
  }

  /** Appending a field with a new name keeps the names distinct and adds the name. */
  lemma AppendNewField(fields: seq<RequiredField>, f: RequiredField)
    requires NoDuplicates(FieldNames(fields)) && f.name !in FieldNames(fields)
    ensures NoDuplicates(FieldNames(fields + [f])) && f.name in FieldNames(fields + [f])
  {
    FieldNamesAppend(fields, [f]);
    NoDuplicatesAppend(FieldNames(fields), [f.name]);
    assert FieldNames(fields + [f])[|fields|] == f.name;
  }

  /** The first property's name and those of the rest cover all the names. */
  lemma PropsCovered(props: seq<SchemaProp>, names: seq<string>)
    requires |props| > 0 && props[0].name in names
    requires forall i :: 0 <= i < |props[1..]| ==> props[1..][i].name in names
    ensures forall i :: 0 <= i < |props| ==> props[i].name in names
  {
    forall i | 0 < i < |props| ensures props[i].name in names {
      assert props[i] == props[1..][i - 1];
    }
  }

  const CurriculoDescription := "Currículo do candidato em PDF"
  const VagaExamples := ["Desenvolvedor Python", "Analista de RH"]

  /** The inferred fields, given which of the four words the label mentions. */
  function InferredFields(curriculo: bool, contrato: bool, vaga: bool, candidato: bool): (fields: seq<RequiredField>)
    ensures NoDuplicates(FieldNames(fields))
    ensures "curriculo" in FieldNames(fields) <==> curriculo
    ensures "contrato" in FieldNames(fields) <==> contrato
    ensures "vaga" in FieldNames(fields) <==> vaga
    ensures "nome_candidato" in FieldNames(fields) <==> candidato
  {
    var a := if curriculo then [RequiredField("curriculo", FileType, CurriculoDescription, true, Some("pdf"), [])] else [];
    var b := if contrato then [RequiredField("contrato", FileType, "Contrato em PDF", true, Some("pdf"), [])] else [];
    var c := if vaga then [RequiredField("vaga", StringType, "Nome ou descrição da vaga", true, None, VagaExamples)] else [];
    var d := if candidato then [RequiredField("nome_candidato", StringType, "Nome do candidato", false, None, [])] else [];
    FieldNamesAppend(a, b);
    FieldNamesAppend(a + b, c);
    FieldNamesAppend(a + b + c, d);
    assert FieldNames(a) == Flagged(curriculo, "curriculo");
    assert FieldNames(b) == Flagged(contrato, "contrato");
    assert FieldNames(c) == Flagged(vaga, "vaga");
    assert FieldNames(d) == Flagged(candidato, "nome_candidato");
    FlaggedNames(curriculo, contrato, vaga, candidato);
    a + b + c + d
  }

  /** The name, when its flag is set. */
  function Flagged(flag: bool, name: string): (names: seq<string>)
    ensures forall x :: x in names <==> flag && x == name
    ensures NoDuplicates(names)
  {
    if flag then [name] else []
  }

  /** The four inferred names are distinct, so each is listed exactly when its flag is set. */
  lemma FlaggedNames(curriculo: bool, contrato: bool, vaga: bool, candidato: bool)
    ensures var names := Flagged(curriculo, "curriculo") + Flagged(contrato, "contrato")
                         + Flagged(vaga, "vaga") + Flagged(candidato, "nome_candidato");
      NoDuplicates(names)
      && ("curriculo" in names <==> curriculo) && ("contrato" in names <==> contrato)
      && ("vaga" in names <==> vaga) && ("nome_candidato" in names <==> candidato)
  {
    var a, b := Flagged(curriculo, "curriculo"), Flagged(contrato, "contrato");
    var c, d := Flagged(vaga, "vaga"), Flagged(candidato, "nome_candidato");
    NoDuplicatesAppend(a, b);
    NoDuplicatesAppend(a + b, c);
    NoDuplicatesAppend(a + b + c, d);
  }

  /** `inferFieldsFromLabel`: fields guessed from words of the lower-cased label. */
  function InferFieldsFromLabel(caption: string): (fields: seq<RequiredField>)
    ensures NoDuplicates(FieldNames(fields))
    ensures "contrato" in FieldNames(fields) <==> Contains(ToLower(caption), "contrato")
    ensures "vaga" in FieldNames(fields) <==> Contains(ToLower(caption), "vaga")
    ensures "curriculo" in FieldNames(fields) <==>
      Contains(ToLower(caption), "currículo") || Contains(ToLower(caption), "curriculo")
    ensures "nome_candidato" in FieldNames(fields) <==> Contains(ToLower(caption), "candidato")
  {
    var lower := ToLower(caption);
    InferredFields(Contains(lower, "currículo") || Contains(lower, "curriculo"), Contains(lower, "contrato"),
                   Contains(lower, "vaga"), Contains(lower, "candidato"))
  }

  /** The data input schema is a JSON object: its property names are distinct. */
  predicate DistinctKeys(n: AnalyzerNode) {
    n.dataSchema.Some? ==>
      var props := n.dataSchema.value.properties;
      forall i, j :: 0 <= i < j < |props| ==> props[i].name != props[j].name
  }

  /**
    `extractFieldsFromNode`: every property of `data.inputSchema`, then the
    properties of `config.inputSchema` whose name is not taken; when both
    give nothing, the fields inferred from the label.
   */
  function ExtractFieldsFromNode(n: AnalyzerNode): (fields: seq<RequiredField>)
    requires DistinctKeys(n)
    ensures NoDuplicates(FieldNames(fields))
    ensures n.dataSchema.Some? && |n.dataSchema.value.properties| > 0 ==>
      var s := n.dataSchema.value;
      |fields| >= |s.properties| && forall i :: 0 <= i < |s.properties| ==> fields[i] == FieldFromProp(s.properties[i], s.required)
    ensures n.dataSchema.Some? && n.dataSchema.value.required.None? && |n.dataSchema.value.properties| > 0 ==>
      forall i :: 0 <= i < |n.dataSchema.value.properties| ==> fields[i].required
    ensures n.configSchema.Some? && |n.configSchema.value.properties| > 0 ==>
      forall i :: 0 <= i < |n.configSchema.value.properties| ==> n.configSchema.value.properties[i].name in FieldNames(fields)
    ensures ((n.dataSchema.None? || |n.dataSchema.value.properties| == 0)
             && (n.configSchema.None? || |n.configSchema.value.properties| == 0))
            ==> fields == InferFieldsFromLabel(n.caption)
  {
    var fromData := if n.dataSchema.Some? then SchemaFields(n.dataSchema.value.properties, n.dataSchema.value.required) else [];
    assert NoDuplicates(FieldNames(fromData)) by {
      if n.dataSchema.Some? {
        SchemaFieldsDistinct(n.dataSchema.value.properties, n.dataSchema.value.required);
      }
    }
    var both := if n.configSchema.Some?
      then AddAbsentFields(fromData, n.configSchema.value.properties, n.configSchema.value.required)
      else fromData;
    if |both| == 0 then InferFieldsFromLabel(n.caption)
    else
      assert forall i :: 0 <= i < |fromData| ==> both[i] == fromData[i] by {
        assert both[..|fromData|] == fromData;
      }
      both
  }

  // ---------------------------------------------------------------------------
  // Prompt placeholders
  // ---------------------------------------------------------------------------

  predicate IsIdentStart(c: char) {
    'a' <= c <= 'z' || 'A' <= c <= 'Z' || c == '_'
  }

  predicate IsIdentChar(c: char) {
    IsIdentStart(c) || '0' <= c <= '9'
  }

  /** `[a-zA-Z_][a-zA-Z0-9_]*`. */
  predicate IsIdent(s: string) {
    |s| > 0 && IsIdentStart(s[0]) && forall i :: 0 <= i < |s| ==> IsIdentChar(s[i])
  }

  /** The length of the longest run of identifier characters starting at `i`. */
  function IdentRun(s: string, i: nat): (n: nat)
    requires i <= |s|
    ensures i + n <= |s|
    ensures forall j :: i <= j < i + n ==> IsIdentChar(s[j])
    ensures i + n == |s| || !IsIdentChar(s[i + n])
    decreases |s| - i
  {
    if i == |s| || !IsIdentChar(s[i]) then 0 else 1 + IdentRun(s, i + 1)
  }

  /** A run of identifier characters ended by a non-identifier character is the longest run. */
  lemma {:induction false} IdentRunExact(s: string, i: nat, n: nat)
    requires i + n < |s| && !IsIdentChar(s[i + n])
    requires forall j :: i <= j < i + n ==> IsIdentChar(s[j])
    ensures IdentRun(s, i) == n
    decreases n
  {
    if n > 0 {
      IdentRunExact(s, i + 1, n - 1);
    }
  }

  /** The placeholder `open name close` at index `i`, if there is one: the length of its name. */
  function MatchAt(s: string, i: nat, open: string, close: string): (r: Option<nat>)
    requires i <= |s|
    ensures r.Some? ==>
              r.value > 0 && i + |open| + r.value + |close| <= |s|
              && OccursAt(s, open, i) && OccursAt(s, close, i + |open| + r.value)
              && IsIdent(s[i + |open|..i + |open| + r.value])
  {
    if OccursAt(s, open, i) then
      var j := i + |open|;
      var n := IdentRun(s, j);
      if n > 0 && IsIdentStart(s[j]) && OccursAt(s, close, j + n) then Some(n) else None
    else None
  }

  /** A placeholder occurs as `open name close` at index `i`. */
  lemma OccursPlaceholder(s: string, i: nat, open: string, close: string, n: nat)
    requires i + |open| + n + |close| <= |s|
    requires OccursAt(s, open, i) && OccursAt(s, close, i + |open| + n)
    ensures OccursAt(s, open + s[i + |open|..i + |open| + n] + close, i)
  {
    var name := s[i + |open|..i + |open| + n];
    var p := open + name + close;
    assert s[i..i + |p|] == s[i..i + |open|] + s[i + |open|..i + |open| + n] + s[i + |open| + n..i + |p|];
  }

  /**
    The names a global regular expression `open([a-zA-Z_][a-zA-Z0-9_]*)close`
    matches from index `i` on: after a match the search resumes at its end,
    after a failed attempt at the next index.
   */
  function Scan(s: string, open: string, close: string, i: nat): (names: seq<string>)
    requires i <= |s| && |close| > 0
    ensures forall k :: 0 <= k < |names| ==> IsIdent(names[k]) && Contains(s, open + names[k] + close)
    decreases |s| - i
  {
    if i == |s| then []
    else
      var m := MatchAt(s, i, open, close);
      if m.Some? then
        var name := s[i + |open|..i + |open| + m.value];
        OccursPlaceholder(s, i, open, close, m.value);
        ContainsAt(s, open + name + close, i);
        [name] + Scan(s, open, close, i + |open| + m.value + |close|)
      else Scan(s, open, close, i + 1)
  }

  /**
    With one-character delimiters that are not identifier characters, the
    scan finds every placeholder that starts at or after where it starts:
    no earlier match can cover the opening delimiter.
   */
  lemma {:induction false} ScanFinds(s: string, o: char, c: char, i: nat, k: nat, name: string)
    requires !IsIdentChar(o) && !IsIdentChar(c) && o != c
    requires IsIdent(name) && i <= k && OccursAt(s, [o] + name + [c], k)
    ensures name in Scan(s, [o], [c], i)
    decreases k - i
  {
    var m := MatchAt(s, i, [o], [c]);
    if i == k {
      MatchHere(s, o, c, k, name);
    } else if m.Some? {
      MatchEndsBefore(s, o, c, i, k, name, m.value);
      ScanFinds(s, o, c, i + 1 + m.value + 1, k, name);
    } else {
      ScanFinds(s, o, c, i + 1, k, name);
    }
  }

  /** A placeholder with a one-character opening delimiter is matched where it starts. */
  lemma MatchHere(s: string, o: char, c: char, k: nat, name: string)
    requires !IsIdentChar(c)
    requires IsIdent(name) && OccursAt(s, [o] + name + [c], k)
    ensures MatchAt(s, k, [o], [c]) == Some(|name|) && s[k + 1..k + 1 + |name|] == name
  {
    var p := [o] + name + [c];
    var w := s[k..k + |p|];
    assert w == p;
    assert s[k] == w[0] == o;
    assert s[k..k + 1] == [o];
    assert s[k + 1 + |name|] == w[1 + |name|] == c;
    assert s[k + 1 + |name|..k + 1 + |name| + 1] == [c];
    assert p[1..1 + |name|] == name;
    assert s[k + 1..k + 1 + |name|] == w[1..1 + |name|];
    forall j | k + 1 <= j < k + 1 + |name| ensures IsIdentChar(s[j]) {
      assert s[j] == name[j - k - 1];
    }
    IdentRunExact(s, k + 1, |name|);
  }

  /**
    A match that starts before a placeholder's opening delimiter ends before
    it: the delimiter is neither an identifier character nor the closing one.
   */
  lemma MatchEndsBefore(s: string, o: char, c: char, i: nat, k: nat, name: string, n: nat)
    requires !IsIdentChar(o) && o != c
    requires IsIdent(name) && i < k && OccursAt(s, [o] + name + [c], k)
    requires i <= |s| && MatchAt(s, i, [o], [c]) == Some(n)
    ensures i + 1 + n + 1 <= k
  {
    var p := [o] + name + [c];
    assert s[k] == p[0] == o;
    assert s[i + 1 + n] == c by { assert s[i + 1 + n..i + 1 + n + 1] == [c]; }
    var nm := s[i + 1..i + 1 + n];
    forall j | i + 1 <= j < i + 1 + n ensures IsIdentChar(s[j]) {
      assert s[j] == nm[j - i - 1];
    }
  }

  /** `node.data?.prompt || node.config?.prompt || ''`. */
  function PromptOf(n: AnalyzerNode): string {
    if n.dataPrompt != "" then n.dataPrompt else n.configPrompt
  }

  /** The placeholder names of a prompt, in the order the three patterns find them, each once. */
  function PromptPlaceholders(prompt: string): (names: seq<string>)
    ensures NoDuplicates(names)
    ensures forall k :: 0 <= k < |names| ==> IsIdent(names[k])
  {
    var all := Scan(prompt, "{", "}", 0) + Scan(prompt, "{{", "}}", 0) + Scan(prompt, "[", "]", 0);
    var names := Dedup(all);
    assert forall k :: 0 <= k < |names| ==> names[k] in all by {
      forall k | 0 <= k < |names| ensures names[k] in all {
        assert names[k] in ToSet(names);
      }
    }
    names
  }

  /** `extractFieldsFromPrompt`: one required string field per placeholder name. */
  function ExtractFieldsFromPrompt(n: AnalyzerNode): (fields: seq<RequiredField>)
    ensures FieldNames(fields) == PromptPlaceholders(PromptOf(n))
    ensures forall i :: 0 <= i < |fields| ==> fields[i].fieldType == StringType && fields[i].required
  {
    PromptFields(PromptPlaceholders(PromptOf(n)))
  }

  function PromptFields(names: seq<string>): (fields: seq<RequiredField>)
    ensures FieldNames(fields) == names
    ensures forall i :: 0 <= i < |fields| ==> fields[i].fieldType == StringType && fields[i].required
  {
    if |names| == 0 then []
    else
      var rest := PromptFields(names[1..]);
      var fields := [RequiredField(names[0], StringType, "Campo " + names[0] + " usado no prompt", true, None, [])] + rest;
      assert FieldNames(fields) == [names[0]] + FieldNames(rest);
      fields
  }

  /**
    A name is a placeholder of the prompt exactly when it is an identifier
    written as `{name}` or `[name]` somewhere in it; the `{{name}}` pattern
    finds nothing the `{name}` pattern does not.
   */
  lemma PromptPlaceholdersExact(prompt: string, name: string)
    ensures name in PromptPlaceholders(prompt) <==>
      IsIdent(name) && (Contains(prompt, "{" + name + "}") || Contains(prompt, "[" + name + "]"))
  {
    var a := Scan(prompt, "{", "}", 0);
    var b := Scan(prompt, "{{", "}}", 0);
    var c := Scan(prompt, "[", "]", 0);
    var all := a + b + c;
    assert name in PromptPlaceholders(prompt) <==> name in all by {
      assert name in ToSet(Dedup(all)) <==> name in ToSet(all);
    }
    if name in b {
      DoubleBraceIsBrace(prompt, name);
    }
    if IsIdent(name) && Contains(prompt, "{" + name + "}") {
      var k :| 0 <= k <= |prompt| - |"{" + name + "}"| && OccursAt(prompt, "{" + name + "}", k);
      ScanFinds(prompt, '{', '}', 0, k, name);
    }
    if IsIdent(name) && Contains(prompt, "[" + name + "]") {
      var k :| 0 <= k <= |prompt| - |"[" + name + "]"| && OccursAt(prompt, "[" + name + "]", k);
      ScanFinds(prompt, '[', ']', 0, k, name);
    }
  }

  /** Every `{{name}}` contains `{name}`. */
  lemma DoubleBraceIsBrace(prompt: string, name: string)
    requires name in Scan(prompt, "{{", "}}", 0)
    ensures Contains(prompt, "{" + name + "}")
  {
    var p := "{{" + name + "}}";
    var k :| 0 <= k <= |prompt| - |p| && OccursAt(prompt, p, k);
    var q := "{" + name + "}";
    assert p[1..1 + |q|] == q;
    forall j | 0 <= j < |q| ensures prompt[k + 1 + j] == q[j] {
      assert prompt[k + 1 + j] == prompt[k..k + |p|][1 + j] == p[1 + j];
    }
    assert prompt[k + 1..k + 1 + |q|] == q;
    ContainsAt(prompt, q, k + 1);
  }

  // ---------------------------------------------------------------------------
  // Files
  // ---------------------------------------------------------------------------

  predicate IsFileProp(p: SchemaProp) {
    IsFileFormat(p.format) || p.propType == "file"
  }

  predicate AnyFileProp(props: seq<SchemaProp>) {
    exists i :: 0 <= i < |props| && IsFileProp(props[i])
  }

  predicate LabelMentionsFile(caption: string) {
    var lower := ToLower(caption);
    Contains(lower, "upload") || Contains(lower, "arquivo") || Contains(lower, "pdf") || Contains(lower, "documento")
  }

  /** `nodeRequiresFile`: a schema decides by its properties alone; without one, the label decides. */
  predicate NodeRequiresFile(n: AnalyzerNode) {
    if n.dataSchema.Some? then AnyFileProp(n.dataSchema.value.properties)
    else LabelMentionsFile(n.caption)
  }

  /** The accepted types of the file properties (binary or file format only), `pdf` when a property says none. */
  function SchemaFileTypes(props: seq<SchemaProp>): (types: seq<string>)
    ensures (exists i :: 0 <= i < |props| && IsFileFormat(props[i].format)) ==> |types| > 0
    ensures (forall i :: 0 <= i < |props| ==> !IsFileFormat(props[i].format)) ==> types == []
  {
    if |props| == 0 then []
    else
      var p := props[0];
      var here := if IsFileFormat(p.format) then (if p.accept != "" then Split(p.accept, ',') else ["pdf"]) else [];
      var rest := SchemaFileTypes(props[1..]);
      assert forall i :: 1 <= i < |props| ==> props[i] == props[1..][i - 1];
      here + rest
  }

  /** The file types a label names. */
  function LabelFileTypes(caption: string): (types: seq<string>)
    ensures forall i :: 0 <= i < |types| ==> types[i] in ["pdf", "docx", "xlsx"]
    ensures "pdf" in types <==> Contains(ToLower(caption), "pdf")
    ensures "docx" in types <==> Contains(ToLower(caption), "word") || Contains(ToLower(caption), "docx")
    ensures "xlsx" in types <==> Contains(ToLower(caption), "excel") || Contains(ToLower(caption), "xlsx")
  {
    var lower := ToLower(caption);
    LabelTypes(Contains(lower, "pdf"), Contains(lower, "word") || Contains(lower, "docx"),
               Contains(lower, "excel") || Contains(lower, "xlsx"))
  }

  function LabelTypes(pdf: bool, docx: bool, xlsx: bool): (types: seq<string>)
    ensures forall i :: 0 <= i < |types| ==> types[i] in ["pdf", "docx", "xlsx"]
    ensures "pdf" in types <==> pdf
    ensures "docx" in types <==> docx
    ensures "xlsx" in types <==> xlsx
  {
    (if pdf then ["pdf"] else []) + (if docx then ["docx"] else []) + (if xlsx then ["xlsx"] else [])
  }

  /**
    `extractFileTypes`: the schema's accepted types, then the types the label
    names; `pdf` alone when both give none.
   */
  function ExtractFileTypes(n: AnalyzerNode): (types: seq<string>)
    ensures |types| > 0
    ensures Contains(ToLower(n.caption), "pdf") ==> "pdf" in types
    ensures (n.dataSchema.None? && !Contains(ToLower(n.caption), "pdf") && !Contains(ToLower(n.caption), "word")
             && !Contains(ToLower(n.caption), "docx") && !Contains(ToLower(n.caption), "excel")
             && !Contains(ToLower(n.caption), "xlsx"))
            ==> types == ["pdf"]
  {
    var fromSchema := if n.dataSchema.Some? then SchemaFileTypes(n.dataSchema.value.properties) else [];
    var fromLabel := LabelFileTypes(n.caption);
    var all := fromSchema + fromLabel;
    if |all| > 0 then
      assert "pdf" in fromLabel ==> "pdf" in all;
      all
    else ["pdf"]
  }

  // ---------------------------------------------------------------------------
  // Execution flow
  // ---------------------------------------------------------------------------

  /** `node.data?.label || node.id`. */
  function DisplayName(n: AnalyzerNode): string {
    if n.caption != "" then n.caption else n.id
  }

  function DisplayNames(nodes: seq<AnalyzerNode>): (names: seq<string>)
    ensures |names| == |nodes|
    ensures forall i :: 0 <= i < |nodes| ==> names[i] == DisplayName(nodes[i])
  {
    if |nodes| == 0 then [] else [DisplayName(nodes[0])] + DisplayNames(nodes[1..])
  }

  function NodeIds(nodes: seq<AnalyzerNode>): (ids: set<string>)
    ensures forall i :: 0 <= i < |nodes| ==> nodes[i].id in ids
  {
    set n | n in nodes :: n.id
  }

  /** `nodes.find(n => n.id === id)`. */
  function FindById(nodes: seq<AnalyzerNode>, id: string): (r: Option<AnalyzerNode>)
    ensures r.Some? ==> r.value in nodes && r.value.id == id
    ensures r.None? <==> id !in NodeIds(nodes)
  {
    if |nodes| == 0 then None
    else if nodes[0].id == id then Some(nodes[0])
    else
      var r := FindById(nodes[1..], id);
      assert NodeIds(nodes) == {nodes[0].id} + NodeIds(nodes[1..]) by {
        assert nodes == [nodes[0]] + nodes[1..];
      }
      r
  }

  /**
    One visited node's outgoing edges: every target node not visited yet is
    shown and queued for the next round, once per edge.
   */
  function FollowEdges(nodes: seq<AnalyzerNode>, out: seq<Edge>, visited: set<string>): (next: seq<AnalyzerNode>)
    ensures forall i :: 0 <= i < |next| ==> next[i] in nodes && next[i].id !in visited
    ensures |out| == 0 ==> next == []
  {
    if |out| == 0 then []
    else
      var t := FindById(nodes, out[0].target);
      (if t.Some? && t.value.id !in visited then [t.value] else []) + FollowEdges(nodes, out[1..], visited)
  }

  /**
    One round of the breadth-first walk over the nodes of `current`: a node
    already visited is skipped, any other is marked visited and its targets
    queued. Returns the queue of the next round and the visited set after it;
    the flow grows by the names of the queued nodes.
   */
  function Round(nodes: seq<AnalyzerNode>, edges: seq<Edge>, current: seq<AnalyzerNode>, visited: set<string>)
    : (r: (seq<AnalyzerNode>, set<string>))
    ensures visited <= r.1
    ensures forall x :: x in r.1 ==> x in visited || exists i :: 0 <= i < |current| && current[i].id == x
    ensures r.1 == visited ==> r.0 == []
    ensures forall i :: 0 <= i < |r.0| ==> r.0[i] in nodes
    ensures edges == [] ==> r.0 == []
  {
    if |current| == 0 then ([], visited)
    else if current[0].id in visited then
      var r := Round(nodes, edges, current[1..], visited);
      assert forall i :: 0 <= i < |current[1..]| ==> current[1..][i] == current[i + 1];
      r
    else
      var id := current[0].id;
      var next := FollowEdges(nodes, OutEdges(edges, id), visited + {id});
      var (later, after) := Round(nodes, edges, current[1..], visited + {id});
      assert forall i :: 0 <= i < |current[1..]| ==> current[1..][i] == current[i + 1];
      (next + later, after)
  }

  /** A round marks only nodes of the graph, and a round that marks none ends the walk. */
  lemma RoundProgress(nodes: seq<AnalyzerNode>, edges: seq<Edge>, current: seq<AnalyzerNode>, visited: set<string>)
    requires forall i :: 0 <= i < |current| ==> current[i] in nodes
    requires visited <= NodeIds(nodes)
    ensures var (next, after) := Round(nodes, edges, current, visited);
      after <= NodeIds(nodes)
      && (after != visited ==> |NodeIds(nodes) - after| < |NodeIds(nodes) - visited|)
  {
    var after := Round(nodes, edges, current, visited).1;
    var ids := NodeIds(nodes);
    forall x | x in after ensures x in ids {
      if x !in visited {
        var i :| 0 <= i < |current| && current[i].id == x;
        assert current[i] in nodes;
      }
    }
    if after != visited {
      FewerLeft(ids, visited, after);
    }
  }

  /** Marking more ids of a finite set leaves fewer unmarked. */
  lemma FewerLeft(ids: set<string>, visited: set<string>, after: set<string>)
    requires visited <= after <= ids && after != visited
    ensures |ids - after| < |ids - visited|
  {
    var x :| x in after && x !in visited;
    var small, large := ids - after, ids - visited;
    assert small <= large - {x};
    SubsetCardinality(small, large - {x});
  }

  /** The names of nodes of the graph are among the graph's names. */
  lemma DisplayNamesWithin(nodes: seq<AnalyzerNode>, some: seq<AnalyzerNode>)
    requires forall i :: 0 <= i < |some| ==> some[i] in nodes
    ensures forall k :: 0 <= k < |some| ==> DisplayNames(some)[k] in DisplayNames(nodes)
  {
    forall k | 0 <= k < |some| ensures DisplayNames(some)[k] in DisplayNames(nodes) {
      var j :| 0 <= j < |nodes| && nodes[j] == some[k];
      assert DisplayNames(nodes)[j] == DisplayNames(some)[k];
    }
  }

  /** The rounds from `current` on, until a round queues nothing: the names shown after the start. */
  function Rounds(nodes: seq<AnalyzerNode>, edges: seq<Edge>, current: seq<AnalyzerNode>, visited: set<string>)
    : (flow: seq<string>)
    requires forall i :: 0 <= i < |current| ==> current[i] in nodes
    requires visited <= NodeIds(nodes)
    ensures forall k :: 0 <= k < |flow| ==> flow[k] in DisplayNames(nodes)
    ensures edges == [] ==> flow == []
    decreases |NodeIds(nodes) - visited|, |current|
  {
    if |current| == 0 then []
    else
      var (next, after) := Round(nodes, edges, current, visited);
      RoundProgress(nodes, edges, current, visited);
      var shown := DisplayNames(next);
      DisplayNamesWithin(nodes, next);
      shown + Rounds(nodes, edges, next, after)
  }

  function TargetIds(edges: seq<Edge>): set<string> {
    set e | e in edges :: e.target
  }

  /** The nodes no edge enters, in order. */
  function StartNodes(nodes: seq<AnalyzerNode>, targets: set<string>): (starts: seq<AnalyzerNode>)
    ensures forall i :: 0 <= i < |starts| ==> starts[i] in nodes && starts[i].id !in targets
    ensures (forall i :: 0 <= i < |nodes| ==> nodes[i].id !in targets) ==> starts == nodes
    ensures (forall i :: 0 <= i < |nodes| ==> nodes[i].id in targets) ==> starts == []
  {
    if |nodes| == 0 then []
    else
      assert forall i :: 1 <= i < |nodes| ==> nodes[i] == nodes[1..][i - 1];
      (if nodes[0].id !in targets then [nodes[0]] else []) + StartNodes(nodes[1..], targets)
  }

  const StartCaption := "Início"

  /**
    `buildExecutionFlow`: the names of the nodes no edge enters (or, when
    every node is entered, of the first node alone), then the names the
    breadth-first walk from the entry nodes reaches round by round.
   */
  function BuildExecutionFlow(nodes: seq<AnalyzerNode>, edges: seq<Edge>): (flow: seq<string>)
    ensures forall k :: 0 <= k < |flow| ==> flow[k] in DisplayNames(nodes) || flow[k] == StartCaption
    ensures |nodes| > 0 ==> |flow| > 0
    ensures var s := StartNodes(nodes, TargetIds(edges));
      |s| > 0 ==> |flow| >= |s| && flow[..|s|] == DisplayNames(s)
  {
    var starts := StartNodes(nodes, TargetIds(edges));
    var head := if |starts| == 0 && |nodes| > 0
      then [if nodes[0].caption != "" then nodes[0].caption else StartCaption]
      else DisplayNames(starts);
    DisplayNamesWithin(nodes, starts);
    assert |nodes| > 0 && nodes[0].caption != "" ==> DisplayNames(nodes)[0] == nodes[0].caption;
    head + Rounds(nodes, edges, starts, {})
  }

  /** Without edges every node is an entry node and the flow is every node's name, in order. */
  lemma EdgelessFlow(nodes: seq<AnalyzerNode>)
    ensures BuildExecutionFlow(nodes, []) == DisplayNames(nodes)
  {
    assert TargetIds([]) == {};
  }

  /** When every node is entered by an edge, the flow is the first node's label alone. */
  lemma NoEntryFlow(nodes: seq<AnalyzerNode>, edges: seq<Edge>)
    requires |nodes| > 0
    requires forall i :: 0 <= i < |nodes| ==> nodes[i].id in TargetIds(edges)
    ensures BuildExecutionFlow(nodes, edges) == [if nodes[0].caption != "" then nodes[0].caption else StartCaption]
  {
  }

  /**
    No edge leaves the set of ids: a set closed under the edges that holds
    the entry nodes holds every node reachable from them, and the smallest
    such set is exactly the reachable nodes.
   */
  predicate ClosedUnder(edges: seq<Edge>, reach: set<string>) {
    forall e :: e in edges && e.source in reach ==> e.target in reach
  }

  /** Every node queued along the edges leaving `src` is in a closed set that holds `src`. */
  lemma {:induction false} FollowEdgesReach(nodes: seq<AnalyzerNode>, edges: seq<Edge>, reach: set<string>,
                                            out: seq<Edge>, visited: set<string>, src: string)
    requires ClosedUnder(edges, reach) && src in reach
    requires forall j :: 0 <= j < |out| ==> out[j] in edges && out[j].source == src
    ensures forall i :: 0 <= i < |FollowEdges(nodes, out, visited)| ==> FollowEdges(nodes, out, visited)[i].id in reach
  {
    if |out| > 0 {
      var t := FindById(nodes, out[0].target);
      var head: seq<AnalyzerNode> := if t.Some? && t.value.id !in visited then [t.value] else [];
      var rest := FollowEdges(nodes, out[1..], visited);
      FollowEdgesReach(nodes, edges, reach, out[1..], visited, src);
      assert out[0] in edges && out[0].source in reach;
      assert FollowEdges(nodes, out, visited) == head + rest;
      forall i | 0 <= i < |head + rest| ensures (head + rest)[i].id in reach {
        if i >= |head| {
          assert (head + rest)[i] == rest[i - |head|];
        }
      }
    }
  }

  /** A round walking from nodes of a closed set queues only nodes of that set. */
  lemma {:induction false} RoundReach(nodes: seq<AnalyzerNode>, edges: seq<Edge>, reach: set<string>,
                                      current: seq<AnalyzerNode>, visited: set<string>)
    requires ClosedUnder(edges, reach)
    requires forall i :: 0 <= i < |current| ==> current[i].id in reach
    ensures forall i :: 0 <= i < |Round(nodes, edges, current, visited).0| ==>
              Round(nodes, edges, current, visited).0[i].id in reach
  {
    if |current| > 0 {
      assert forall i :: 0 <= i < |current[1..]| ==> current[1..][i] == current[i + 1];
      if current[0].id in visited {
        RoundReach(nodes, edges, reach, current[1..], visited);
      } else {
        var id := current[0].id;
        var next := FollowEdges(nodes, OutEdges(edges, id), visited + {id});
        var later := Round(nodes, edges, current[1..], visited + {id}).0;
        FollowEdgesReach(nodes, edges, reach, OutEdges(edges, id), visited + {id}, id);
        RoundReach(nodes, edges, reach, current[1..], visited + {id});
        assert Round(nodes, edges, current, visited).0 == next + later;
      }
    }
  }

  /** `name` is the display name of a node whose id is in `reach`. */
  predicate NameInside(nodes: seq<AnalyzerNode>, reach: set<string>, name: string) {
    exists n :: n in nodes && n.id in reach && name == DisplayName(n)
  }

  /** Every name the rounds show is the name of a node of the closed set they start in. */
  lemma {:induction false} RoundsReach(nodes: seq<AnalyzerNode>, edges: seq<Edge>, reach: set<string>,
                                       current: seq<AnalyzerNode>, visited: set<string>)
    requires forall i :: 0 <= i < |current| ==> current[i] in nodes
    requires visited <= NodeIds(nodes)
    requires ClosedUnder(edges, reach)
    requires forall i :: 0 <= i < |current| ==> current[i].id in reach
    ensures forall k :: 0 <= k < |Rounds(nodes, edges, current, visited)| ==>
              NameInside(nodes, reach, Rounds(nodes, edges, current, visited)[k])
    decreases |NodeIds(nodes) - visited|, |current|
  {
    if |current| > 0 {
      var (next, after) := Round(nodes, edges, current, visited);
      RoundProgress(nodes, edges, current, visited);
      RoundReach(nodes, edges, reach, current, visited);
      RoundsReach(nodes, edges, reach, next, after);
      ShownInside(nodes, reach, next);
      NamesInsideJoin(nodes, reach, DisplayNames(next), Rounds(nodes, edges, next, after));
      assert Rounds(nodes, edges, current, visited) == DisplayNames(next) + Rounds(nodes, edges, next, after);
    }
  }

  /** The names of nodes of the graph inside the set are names inside the set. */
  lemma ShownInside(nodes: seq<AnalyzerNode>, reach: set<string>, some: seq<AnalyzerNode>)
    requires forall i :: 0 <= i < |some| ==> some[i] in nodes && some[i].id in reach
    ensures forall k :: 0 <= k < |DisplayNames(some)| ==> NameInside(nodes, reach, DisplayNames(some)[k])
  {
    forall k | 0 <= k < |DisplayNames(some)| ensures NameInside(nodes, reach, DisplayNames(some)[k]) {
      assert DisplayNames(some)[k] == DisplayName(some[k]);
    }
  }

  lemma NamesInsideJoin(nodes: seq<AnalyzerNode>, reach: set<string>, a: seq<string>, b: seq<string>)
    requires forall k :: 0 <= k < |a| ==> NameInside(nodes, reach, a[k])
    requires forall k :: 0 <= k < |b| ==> NameInside(nodes, reach, b[k])
    ensures forall k :: 0 <= k < |a + b| ==> NameInside(nodes, reach, (a + b)[k])
  {
    forall k | |a| <= k < |a + b| ensures NameInside(nodes, reach, (a + b)[k]) {
      assert (a + b)[k] == b[k - |a|];
    }
  }

  /** With entry nodes, the flow is their names followed by the rounds of the walk from them. */
  lemma FlowSplit(nodes: seq<AnalyzerNode>, edges: seq<Edge>)
    ensures var s := StartNodes(nodes, TargetIds(edges));
      |s| > 0 ==> BuildExecutionFlow(nodes, edges) == DisplayNames(s) + Rounds(nodes, edges, s, {})
  {
  }

  /**
    After the entry nodes' names, every name in the flow is that of a node
    reachable from an entry node: it lies in every set of ids that holds
    the entry nodes and that no edge leaves.
   */
  lemma FlowReachable(nodes: seq<AnalyzerNode>, edges: seq<Edge>, reach: set<string>)
    requires ClosedUnder(edges, reach)
    requires NodeIds(StartNodes(nodes, TargetIds(edges))) <= reach
    ensures var s := StartNodes(nodes, TargetIds(edges));
      var flow := BuildExecutionFlow(nodes, edges);
      |s| > 0 ==> forall k :: |s| <= k < |flow| ==> NameInside(nodes, reach, flow[k])
  {
    var s := StartNodes(nodes, TargetIds(edges));
    if |s| > 0 {
      RoundsReach(nodes, edges, reach, s, {});
      var rest := Rounds(nodes, edges, s, {});
      var flow := BuildExecutionFlow(nodes, edges);
      FlowSplit(nodes, edges);
      forall k | |s| <= k < |flow| ensures NameInside(nodes, reach, flow[k]) {
        assert flow[k] == rest[k - |s|];
      }
    }
  }


  // ---------------------------------------------------------------------------
  // analyzeAgent
  // ---------------------------------------------------------------------------

  /** `isInputNode`: the label names an input, or the data type is `input` in any case. */
  predicate IsInputNode(n: AnalyzerNode) {
    var lower := ToLower(n.caption);
    Contains(lower, "input") || Contains(lower, "receber") || Contains(lower, "upload")
    || Contains(lower, "entrada") || ToLower(n.dataType) == "input"
  }

  predicate IsInput(n: AnalyzerNode) {
    n.nodeType == "input" || n.dataType == "input" || IsInputNode(n)
  }

  predicate IsAi(n: AnalyzerNode) {
    n.nodeType == "ai" || n.dataType == "ai"
  }

  /** The fields of the input nodes, node after node; two nodes may repeat a name. */
  function InputFields(nodes: seq<AnalyzerNode>): (fields: seq<RequiredField>)
    requires forall i :: 0 <= i < |nodes| ==> DistinctKeys(nodes[i])
  {
    if |nodes| == 0 then []
    else (if IsInput(nodes[0]) then ExtractFieldsFromNode(nodes[0]) else []) + InputFields(nodes[1..])
  }

  /** An input node's own fields all appear among the input fields. */
  lemma {:induction false} InputFieldsInclude(nodes: seq<AnalyzerNode>, i: int, name: string)
    requires forall j :: 0 <= j < |nodes| ==> DistinctKeys(nodes[j])
    requires 0 <= i < |nodes| && IsInput(nodes[i]) && name in FieldNames(ExtractFieldsFromNode(nodes[i]))
    ensures name in FieldNames(InputFields(nodes))
  {
    var here := if IsInput(nodes[0]) then ExtractFieldsFromNode(nodes[0]) else [];
    FieldNamesAppend(here, InputFields(nodes[1..]));
    if i > 0 {
      InputFieldsInclude(nodes[1..], i - 1, name);
    }
  }

  /** Does some input node need a file? */
  predicate AnyNeedsFile(nodes: seq<AnalyzerNode>) {
    exists i :: 0 <= i < |nodes| && IsInput(nodes[i]) && NodeRequiresFile(nodes[i])
  }

  /** The file types of the input nodes that need a file, with repetitions. */
  function InputFileTypes(nodes: seq<AnalyzerNode>): (types: seq<string>)
    ensures |types| > 0 <==> AnyNeedsFile(nodes)
  {
    if |nodes| == 0 then []
    else
      var here := if IsInput(nodes[0]) && NodeRequiresFile(nodes[0]) then ExtractFileTypes(nodes[0]) else [];
      var rest := InputFileTypes(nodes[1..]);
      AnyNeedsFileCons(nodes);
      here + rest
  }

  lemma AnyNeedsFileCons(nodes: seq<AnalyzerNode>)
    requires |nodes| > 0
    ensures AnyNeedsFile(nodes) <==> (IsInput(nodes[0]) && NodeRequiresFile(nodes[0])) || AnyNeedsFile(nodes[1..])
  {
    assert forall i :: 1 <= i < |nodes| ==> nodes[i] == nodes[1..][i - 1];
    if AnyNeedsFile(nodes[1..]) {
      var i :| 0 <= i < |nodes[1..]| && IsInput(nodes[1..][i]) && NodeRequiresFile(nodes[1..][i]);
      assert nodes[i + 1] == nodes[1..][i];
    }
  }

  /** A name of a prefix is a name of the whole. */
  lemma PrefixNames(r: seq<RequiredField>, p: seq<RequiredField>, name: string)
    requires |r| >= |p| && r[..|p|] == p && name in FieldNames(p)
    ensures name in FieldNames(r)
  {
    var j :| 0 <= j < |p| && FieldNames(p)[j] == name;
    assert FieldNames(r)[j] == r[j].name == p[j].name;
  }

  /** A prefix of a prefix is a prefix. */
  lemma PrefixTrans<T>(r: seq<T>, q: seq<T>, p: seq<T>)
    requires |r| >= |q| >= |p| && r[..|q|] == q && q[..|p|] == p
    ensures r[..|p|] == p
  {
    assert r[..|p|] == r[..|q|][..|p|];
  }

  /** `fields.push(field)` for each field whose name is not taken yet. */
  function AddAbsent(fields: seq<RequiredField>, extra: seq<RequiredField>): (r: seq<RequiredField>)
    ensures |r| >= |fields| && r[..|fields|] == fields
    ensures forall k :: 0 <= k < |extra| ==> extra[k].name in FieldNames(r)
    decreases |extra|
  {
    if |extra| == 0 then fields
    else
      var next := AddOne(fields, extra[0]);
      var r := AddAbsent(next, extra[1..]);
      PrefixTrans(r, next, fields);
      PrefixNames(r, next, extra[0].name);
      forall k | 1 <= k < |extra| ensures extra[k].name in FieldNames(r) {
        assert extra[k] == extra[1..][k - 1];
      }
      r
  }

  /** `fields.push(f)` unless its name is taken. */
  function AddOne(fields: seq<RequiredField>, f: RequiredField): (next: seq<RequiredField>)
    ensures f.name in FieldNames(fields) ==> next == fields
    ensures f.name !in FieldNames(fields) ==> next == fields + [f]
    ensures |next| >= |fields| && next[..|fields|] == fields
    ensures f.name in FieldNames(next)
  {
    if f.name in FieldNames(fields) then fields
    else
      assert FieldNames(fields + [f])[|fields|] == f.name;
      fields + [f]
  }

  /** Only fields of `extra` are added. */
  lemma {:induction false} AddAbsentFrom(fields: seq<RequiredField>, extra: seq<RequiredField>, k: int)
    requires |fields| <= k < |AddAbsent(fields, extra)|
    ensures AddAbsent(fields, extra)[k] in extra
    decreases |extra|
  {
    var next := AddOne(fields, extra[0]);
    var r := AddAbsent(next, extra[1..]);
    if k < |next| {
      assert r[k] == r[..|next|][k] == extra[0];
    } else {
      AddAbsentFrom(next, extra[1..], k);
    }
  }

  /** The fields of the AI nodes' prompts whose name is not taken yet, node after node. */
  function MergePromptFields(fields: seq<RequiredField>, nodes: seq<AnalyzerNode>): (r: seq<RequiredField>)
    ensures |r| >= |fields| && r[..|fields|] == fields
    ensures forall k :: |fields| <= k < |r| ==> r[k].fieldType == StringType && r[k].required
    decreases |nodes|
  {
    if |nodes| == 0 then fields
    else
      var here := if IsAi(nodes[0]) then ExtractFieldsFromPrompt(nodes[0]) else [];
      var merged := AddAbsent(fields, here);
      var r := MergePromptFields(merged, nodes[1..]);
      assert r[..|fields|] == r[..|merged|][..|fields|];
      forall k | |fields| <= k < |merged| ensures r[k].fieldType == StringType && r[k].required {
        AddAbsentFrom(fields, here, k);
        var j :| 0 <= j < |here| && here[j] == merged[k];
        assert r[k] == r[..|merged|][k] == merged[k];
      }
      r
  }

  /** Every placeholder of every AI node's prompt names a field after the merge. */
  lemma {:induction false} MergePromptFieldsCovers(fields: seq<RequiredField>, nodes: seq<AnalyzerNode>, i: int, name: string)
    requires 0 <= i < |nodes| && IsAi(nodes[i]) && name in PromptPlaceholders(PromptOf(nodes[i]))
    ensures name in FieldNames(MergePromptFields(fields, nodes))
    decreases |nodes|
  {
    var merged := MergeFirst(fields, nodes);
    var r := MergePromptFields(merged, nodes[1..]);
    assert MergePromptFields(fields, nodes) == r;
    if i == 0 {
      PromptFieldAdded(fields, nodes[0], name);
      PrefixNames(r, merged, name);
    } else {
      assert nodes[1..][i - 1] == nodes[i];
      MergePromptFieldsCovers(merged, nodes[1..], i - 1, name);
    }
  }

  /** The fields after merging the first node's prompt fields, when it is an AI node. */
  function MergeFirst(fields: seq<RequiredField>, nodes: seq<AnalyzerNode>): (merged: seq<RequiredField>)
    requires |nodes| > 0
    ensures |merged| >= |fields| && merged[..|fields|] == fields
    ensures IsAi(nodes[0]) ==> merged == AddAbsent(fields, ExtractFieldsFromPrompt(nodes[0]))
  {
    AddAbsent(fields, if IsAi(nodes[0]) then ExtractFieldsFromPrompt(nodes[0]) else [])
  }

  /** Merging an AI node's prompt fields adds a field for each of its placeholders. */
  lemma PromptFieldAdded(fields: seq<RequiredField>, n: AnalyzerNode, name: string)
    requires name in PromptPlaceholders(PromptOf(n))
    ensures name in FieldNames(AddAbsent(fields, ExtractFieldsFromPrompt(n)))
  {
    var here := ExtractFieldsFromPrompt(n);
    var k :| 0 <= k < |here| && FieldNames(here)[k] == name;
    assert here[k].name == name;
  }

  /** `name` is the name of a field of some input node. */
  predicate InputFieldName(nodes: seq<AnalyzerNode>, name: string) {
    exists i :: 0 <= i < |nodes| && IsInput(nodes[i]) && DistinctKeys(nodes[i])
      && name in FieldNames(ExtractFieldsFromNode(nodes[i]))
  }

  /** `name` is a placeholder of some AI node's prompt. */
  predicate PromptFieldName(nodes: seq<AnalyzerNode>, name: string) {
    exists i :: 0 <= i < |nodes| && IsAi(nodes[i]) && name in PromptPlaceholders(PromptOf(nodes[i]))
  }

  lemma InputFieldNameTail(nodes: seq<AnalyzerNode>, name: string)
    requires |nodes| > 0 && InputFieldName(nodes[1..], name)
    ensures InputFieldName(nodes, name)
  {
    var i :| 0 <= i < |nodes[1..]| && IsInput(nodes[1..][i]) && DistinctKeys(nodes[1..][i])
      && name in FieldNames(ExtractFieldsFromNode(nodes[1..][i]));
    assert nodes[i + 1] == nodes[1..][i];
  }

  lemma PromptFieldNameTail(nodes: seq<AnalyzerNode>, name: string)
    requires |nodes| > 0 && PromptFieldName(nodes[1..], name)
    ensures PromptFieldName(nodes, name)
  {
    var i :| 0 <= i < |nodes[1..]| && IsAi(nodes[1..][i]) && name in PromptPlaceholders(PromptOf(nodes[1..][i]));
    assert nodes[i + 1] == nodes[1..][i];
  }

  /** A field of a field list has its name among the list's names. */
  lemma NameOfField(fields: seq<RequiredField>, k: int)
    requires 0 <= k < |fields|
    ensures fields[k].name in FieldNames(fields)
  {
    assert FieldNames(fields)[k] == fields[k].name;
  }

  /** Every input field comes from an input node. */
  lemma {:induction false} InputFieldsSound(nodes: seq<AnalyzerNode>)
    requires forall i :: 0 <= i < |nodes| ==> DistinctKeys(nodes[i])
    ensures forall k :: 0 <= k < |InputFields(nodes)| ==> InputFieldName(nodes, InputFields(nodes)[k].name)
  {
    if |nodes| > 0 {
      var rest := InputFields(nodes[1..]);
      InputFieldsSound(nodes[1..]);
      if IsInput(nodes[0]) {
        var here := ExtractFieldsFromNode(nodes[0]);
        InputFieldNameHead(nodes);
        InputFieldNamesJoin(nodes, here, rest);
      } else {
        InputFieldNamesJoin(nodes, [], rest);
      }
    }
  }

  /** The fields of the first node, when it is an input node, come from an input node. */
  lemma InputFieldNameHead(nodes: seq<AnalyzerNode>)
    requires |nodes| > 0 && IsInput(nodes[0]) && DistinctKeys(nodes[0])
    ensures forall k :: 0 <= k < |ExtractFieldsFromNode(nodes[0])| ==>
              InputFieldName(nodes, ExtractFieldsFromNode(nodes[0])[k].name)
  {
    forall k | 0 <= k < |ExtractFieldsFromNode(nodes[0])|
      ensures InputFieldName(nodes, ExtractFieldsFromNode(nodes[0])[k].name)
    {
      NameOfField(ExtractFieldsFromNode(nodes[0]), k);
    }
  }

  lemma InputFieldNamesJoin(nodes: seq<AnalyzerNode>, here: seq<RequiredField>, rest: seq<RequiredField>)
    requires |nodes| > 0
    requires forall k :: 0 <= k < |here| ==> InputFieldName(nodes, here[k].name)
    requires forall k :: 0 <= k < |rest| ==> InputFieldName(nodes[1..], rest[k].name)
    ensures forall k :: 0 <= k < |here + rest| ==> InputFieldName(nodes, (here + rest)[k].name)
  {
    forall k | |here| <= k < |here + rest| ensures InputFieldName(nodes, (here + rest)[k].name) {
      assert (here + rest)[k] == rest[k - |here|];
      InputFieldNameTail(nodes, rest[k - |here|].name);
    }
  }

  /** Every field the merge adds is a placeholder of some AI node's prompt. */
  lemma {:induction false} MergePromptFieldsSound(fields: seq<RequiredField>, nodes: seq<AnalyzerNode>)
    ensures forall k :: |fields| <= k < |MergePromptFields(fields, nodes)| ==>
              PromptFieldName(nodes, MergePromptFields(fields, nodes)[k].name)
    decreases |nodes|
  {
    if |nodes| > 0 {
      var here: seq<RequiredField> := if IsAi(nodes[0]) then ExtractFieldsFromPrompt(nodes[0]) else [];
      var merged := MergeFirst(fields, nodes);
      var r := MergePromptFields(merged, nodes[1..]);
      assert MergePromptFields(fields, nodes) == r;
      MergePromptFieldsSound(merged, nodes[1..]);
      forall k | |fields| <= k < |r| ensures PromptFieldName(nodes, r[k].name) {
        if k < |merged| {
          AddAbsentFrom(fields, here, k);
          assert r[k] == r[..|merged|][k] == merged[k];
          var j :| 0 <= j < |here| && here[j] == merged[k];
          NameOfField(here, j);
        } else {
          PromptFieldNameTail(nodes, r[k].name);
        }
      }
    }
  }

  const FlowSeparator := " → "

  /** The first `n` non-empty labels, in node order. */
  function FirstLabels(nodes: seq<AnalyzerNode>, n: nat): (labels: seq<string>)
    ensures |labels| <= n
    ensures forall k :: 0 <= k < |labels| ==> labels[k] != ""
    ensures n > 0 && (exists i :: 0 <= i < |nodes| && nodes[i].caption != "") ==> |labels| > 0
    ensures (forall i :: 0 <= i < |nodes| ==> nodes[i].caption == "") ==> labels == []
  {
    if |nodes| == 0 || n == 0 then []
    else if nodes[0].caption != "" then [nodes[0].caption] + FirstLabels(nodes[1..], n - 1)
    else
      assert forall i :: 1 <= i < |nodes| ==> nodes[i] == nodes[1..][i - 1];
      FirstLabels(nodes[1..], n)
  }

  /** The label of every node, empty when it has none, in node order. */
  function Captions(nodes: seq<AnalyzerNode>): (cs: seq<string>)
    ensures |cs| == |nodes|
    ensures forall i :: 0 <= i < |nodes| ==> cs[i] == nodes[i].caption
  {
    seq(|nodes|, i requires 0 <= i < |nodes| => nodes[i].caption)
  }

  /** A label that `filter(Boolean)` keeps. */
  predicate Labelled(caption: string) {
    caption != ""
  }

  /**
    The labels shown in the description are the node labels, mapped in node
    order, filtered to the non-empty ones, then cut to the first `n`.
   */
  lemma {:induction false} FirstLabelsSpec(nodes: seq<AnalyzerNode>, n: nat)
    ensures FirstLabels(nodes, n) == Take(Filter(Captions(nodes), Labelled), n)
  {
    if |nodes| == 0 {
    } else {
      var cs := Captions(nodes);
      assert cs[1..] == Captions(nodes[1..]);
      FirstLabelsSpec(nodes[1..], n);
      FirstLabelsSpec(nodes[1..], if n > 0 then n - 1 else 0);
      if n > 0 && nodes[0].caption != "" {
        assert Filter(cs, Labelled) == [cs[0]] + Filter(cs[1..], Labelled);
        TakeCons(cs[0], Filter(cs[1..], Labelled), n);
      }
    }
  }

  const NameSeparator := " - "
  const FlowPrefix := "Fluxo: "
  const GenericDescription := "Agente de automação"

  /** The agent's name as the description shows it: `Agente` when it has none. */
  function ShownName(name: string): string {
    if name != "" then name else "Agente"
  }

  /**
    `generateDescription`: the agent's description when it has one; else
    its name (or `Agente`) with the first three labels, or with a generic
    phrase when no node has a label.
   */
  function GenerateDescription(name: string, description: string, nodes: seq<AnalyzerNode>): (r: string)
    ensures description != "" ==> r == description
    ensures description == "" ==> StartsWith(r, ShownName(name) + NameSeparator)
    ensures (description == "" && exists i :: 0 <= i < |nodes| && nodes[i].caption != "") ==>
              r == ShownName(name) + NameSeparator + FlowPrefix
                   + Join(Take(Filter(Captions(nodes), Labelled), 3), FlowSeparator)
    ensures (description == "" && forall i :: 0 <= i < |nodes| ==> nodes[i].caption == "") ==>
              r == ShownName(name) + NameSeparator + GenericDescription
  {
    if description != "" then description else NodesDescription(ShownName(name) + NameSeparator, nodes)
  }

  /** The generated description after `head`: the flow of the first three labels, or the generic phrase. */
  function NodesDescription(head: string, nodes: seq<AnalyzerNode>): (r: string)
    ensures StartsWith(r, head)
    ensures (exists i :: 0 <= i < |nodes| && nodes[i].caption != "") ==>
              r == head + FlowPrefix + Join(Take(Filter(Captions(nodes), Labelled), 3), FlowSeparator)
    ensures (forall i :: 0 <= i < |nodes| ==> nodes[i].caption == "") ==> r == head + GenericDescription
  {
    var labels := FirstLabels(nodes, 3);
    FirstLabelsSpec(nodes, 3);
    var flow := Join(labels, FlowSeparator);
    StartsWithSelf(head);
    StartsWithAppend(head, head, FlowPrefix);
    StartsWithAppend(head + FlowPrefix, head, flow);
    StartsWithAppend(head, head, GenericDescription);
    if |labels| > 0 then head + FlowPrefix + flow else head + GenericDescription
  }

  /** `checkNeedsOutputPreferences`: an output node, or a label mentioning a report or a result. */
  predicate NeedsOutputPreferences(nodes: seq<AnalyzerNode>) {
    exists i :: 0 <= i < |nodes| &&
      (nodes[i].nodeType == "output" || nodes[i].dataType == "output"
       || Contains(ToLower(nodes[i].caption), "relatório") || Contains(ToLower(nodes[i].caption), "resultado"))
  }

  datatype OutputOptions = OutputOptions(formats: seq<string>, deliveryMethods: seq<string>)

  const DefaultOutputOptions := OutputOptions(["PDF", "DOCX", "JSON", "Excel"], ["Visualizar aqui", "Download", "Email"])

  datatype AgentConfig = AgentConfig(name: string, description: string, nodes: seq<AnalyzerNode>, edges: seq<Edge>)

  datatype AgentRequirements = AgentRequirements(
    fields: seq<RequiredField>,
    needsFile: bool,
    fileTypes: Option<seq<string>>,
    description: string,
    executionFlow: seq<string>,
    needsOutputPreferences: bool,
    outputOptions: Option<OutputOptions>)

  /**
    Conversely, every field the analysis asks for is a field of an input
    node or a placeholder of an AI node's prompt.
   */
  lemma AnalyzeAgentSound(config: AgentConfig)
    requires forall i :: 0 <= i < |config.nodes| ==> DistinctKeys(config.nodes[i])
    ensures var fields := AnalyzeAgent(config).fields;
      forall k :: 0 <= k < |fields| ==>
        InputFieldName(config.nodes, fields[k].name) || PromptFieldName(config.nodes, fields[k].name)
  {
    var inputFields := InputFields(config.nodes);
    var fields := MergePromptFields(inputFields, config.nodes);
    assert AnalyzeAgent(config).fields == fields;
    InputFieldsSound(config.nodes);
    MergePromptFieldsSound(inputFields, config.nodes);
    forall k | 0 <= k < |fields| ensures InputFieldName(config.nodes, fields[k].name) || PromptFieldName(config.nodes, fields[k].name) {
      if k < |inputFields| {
        assert fields[k] == fields[..|inputFields|][k] == inputFields[k];
      }
    }
  }

  /**
    `analyzeAgent`: the input nodes' fields, then the AI prompts'
    placeholders not already named; whether a file is needed and of which
    distinct types; the flow, the description and the output options.
   */
  function AnalyzeAgent(config: AgentConfig): (r: AgentRequirements)
    requires forall i :: 0 <= i < |config.nodes| ==> DistinctKeys(config.nodes[i])
    ensures forall i, name ::
              (0 <= i < |config.nodes| && IsInput(config.nodes[i])
               && name in FieldNames(ExtractFieldsFromNode(config.nodes[i])))
              ==> name in FieldNames(r.fields)
    ensures forall i, name ::
              (0 <= i < |config.nodes| && IsAi(config.nodes[i])
               && name in PromptPlaceholders(PromptOf(config.nodes[i])))
              ==> name in FieldNames(r.fields)
    ensures r.needsFile <==> AnyNeedsFile(config.nodes)
    ensures r.fileTypes.Some? <==> r.needsFile
    ensures r.fileTypes.Some? ==>
              |r.fileTypes.value| > 0 && NoDuplicates(r.fileTypes.value)
              && ToSet(r.fileTypes.value) == ToSet(InputFileTypes(config.nodes))
    ensures r.outputOptions.Some? <==> r.needsOutputPreferences
    ensures r.needsOutputPreferences <==> NeedsOutputPreferences(config.nodes)
    ensures forall k :: 0 <= k < |r.executionFlow| ==>
      r.executionFlow[k] in DisplayNames(config.nodes) || r.executionFlow[k] == StartCaption
  {
    var inputFields := InputFields(config.nodes);
    var fields := MergePromptFields(inputFields, config.nodes);
    forall i, name | 0 <= i < |config.nodes| && IsInput(config.nodes[i])
                     && name in FieldNames(ExtractFieldsFromNode(config.nodes[i]))
      ensures name in FieldNames(fields)
    {
      InputFieldsInclude(config.nodes, i, name);
      PrefixNames(fields, inputFields, name);
    }
    forall i, name | 0 <= i < |config.nodes| && IsAi(config.nodes[i])
                     && name in PromptPlaceholders(PromptOf(config.nodes[i]))
      ensures name in FieldNames(fields)
    {
      MergePromptFieldsCovers(inputFields, config.nodes, i, name);
    }
    var types := InputFileTypes(config.nodes);
    var needsFile := AnyNeedsFile(config.nodes);
    var deduped := Dedup(types);
    assert needsFile ==> |deduped| > 0 by {
      if needsFile {
        assert types[0] in ToSet(types);
      }
    }
    var needsOutput := NeedsOutputPreferences(config.nodes);
    AgentRequirements(
      fields,
      needsFile,
      if needsFile then Some(deduped) else None,
      GenerateDescription(config.name, config.description, config.nodes),
      BuildExecutionFlow(config.nodes, config.edges),
      needsOutput,
      if needsOutput then Some(DefaultOutputOptions) else None)
  }
}
