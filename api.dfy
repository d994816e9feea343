/** The endpoints shared by the HTTP and MCP transports (pkg/api/endpoints.go)
    and the MCP tool definitions with their argument decoders
    (pkg/api/mcp.go). JSON arguments are given already decoded. */
module Api {
  import opened Wrappers
  import opened Text
  import opened DictRegistry
  import opened DictManifest

  const MaxBatch: nat := 100

  datatype ClassifyTermReq = ClassifyTermReq(term: string, opts: Option<ClassifyOptions>)
  datatype ClassifyBatchReq = ClassifyBatchReq(terms: seq<string>, opts: Option<ClassifyOptions>)

  datatype BatchResponse = BatchResponse(results: seq<ClassifyResult>)
  datatype DictsResponse = DictsResponse(dictionaries: seq<DictInfo>)

  /** The errors of the batch endpoint and of the batch decoder. */
  datatype BatchError = EmptyTerms | TooManyTerms(got: nat)

  // ---- endpoints ----

  /** classifyTermEndpoint: the registry's answer, never an error. */
  method ClassifyTermEndpoint(reg: Registry, req: ClassifyTermReq) returns (resp: ClassifyResult)
    ensures resp == ClassifyOf(reg.dicts, req.term, req.opts)
    ensures resp.term == req.term
  {
    resp := reg.Classify(req.term, req.opts);
  }

  /** Whether a batch of n terms is accepted: between 1 and 100. */
  function BatchCheck(n: nat): (r: Option<BatchError>)
    ensures r == None <==> 1 <= n <= MaxBatch
    ensures r == Some(EmptyTerms) <==> n == 0
    ensures r.Some? && r != Some(EmptyTerms) ==> r == Some(TooManyTerms(n)) && n > MaxBatch
  {
    if n == 0 then Some(EmptyTerms)
    else if n > MaxBatch then Some(TooManyTerms(n))
    else None
  }

  /** classifyBatchEndpoint: rejects an empty batch and one over 100 terms;
      otherwise one result per term, in the order of the terms. */
  method ClassifyBatchEndpoint(reg: Registry, req: ClassifyBatchReq)
    returns (r: Result<BatchResponse, BatchError>)
    ensures |req.terms| == 0 <==> r == Err(EmptyTerms)
    ensures |req.terms| > MaxBatch <==> r == Err(TooManyTerms(|req.terms|))
    ensures r.Ok? <==> BatchCheck(|req.terms|) == None
    ensures r.Ok? ==> |r.value.results| == |req.terms|
    ensures r.Ok? ==> forall i :: 0 <= i < |req.terms| ==>
                        r.value.results[i] == ClassifyOf(reg.dicts, req.terms[i], req.opts)
  {
    if |req.terms| == 0 {
      return Err(EmptyTerms);
    }
    if |req.terms| > MaxBatch {
      return Err(TooManyTerms(|req.terms|));
    }
    var results: seq<ClassifyResult> := [];
    for i := 0 to |req.terms|
      invariant |results| == i
      invariant forall k :: 0 <= k < i ==> results[k] == ClassifyOf(reg.dicts, req.terms[k], req.opts)
    {
      var res := reg.Classify(req.terms[i], req.opts);
      results := results + [res];
    }
    return Ok(BatchResponse(results));
  }

  /** listDictsEndpoint: the registry's listing, never an error. */
  method ListDictsEndpoint(reg: Registry) returns (resp: DictsResponse)
    ensures resp.dictionaries == ListOf(reg.dicts)
    ensures |resp.dictionaries| == |reg.dicts|
  {
    var infos := reg.ListDicts();
    return DictsResponse(infos);
  }

  // ---- MCP arguments ----

  /** A decoded JSON argument: a string, or any other JSON value. */
  datatype Arg = Str(s: string) | NonString

  /** The arguments of a tool call as they arrive: no params, no arguments,
      arguments that do not decode to an object (JSON null included), or an
      object. */
  datatype RawArgs = NoParams | NoArguments | Undecodable | Object(fields: map<string, Arg>)

  /** parseArgs: the decoded object, or an empty map; never nil. */
  function ParseArgs(raw: RawArgs): (args: map<string, Arg>)
    ensures raw.Object? ==> args == raw.fields
    ensures !raw.Object? ==> args == map[]
  {
    if raw.Object? then raw.fields else map[]
  }

  /** `args[key].(string)` with the ok result dropped: "" unless a string is
      stored under key. */
  function StringArg(args: map<string, Arg>, key: string): (v: string)
    ensures v != "" ==> key in args && args[key] == Str(v)
    ensures key in args && args[key].Str? ==> v == args[key].s
  {
    if key in args && args[key].Str? then args[key].s else ""
  }

  /** One comma-separated filter: its pieces, untrimmed, or no filter when empty. */
  function FilterList(v: string): (r: seq<string>)
    ensures v == "" <==> r == []
    ensures v != "" ==> r == Split(v, ',') && Join(r, ',') == v
    ensures v != "" ==> |r| == Count(v, ',') + 1
  {
    if v == "" then []
    else
      SplitProperties(v, ',');
      Split(v, ',')
  }

  /** parseMCPOpts: always some options; each list is the comma split of its
      argument when that is a non-empty string, and empty otherwise. */
  function ParseMcpOpts(args: map<string, Arg>): (opts: Option<ClassifyOptions>)
    ensures opts.Some?
    ensures opts.value.jurisdictions == FilterList(StringArg(args, "jurisdictions"))
    ensures opts.value.types == FilterList(StringArg(args, "types"))
    ensures opts.value.dicts == FilterList(StringArg(args, "dicts"))
  {
    Some(ClassifyOptions(
      FilterList(StringArg(args, "jurisdictions")),
      FilterList(StringArg(args, "types")),
      FilterList(StringArg(args, "dicts"))))
  }

  /** Options decoded from arguments that carry no filters admit every
      dictionary, as no options at all would. */
  lemma NoFiltersAdmitAll(args: map<string, Arg>, m: Manifest)
    requires StringArg(args, "jurisdictions") == "" && StringArg(args, "types") == ""
    requires StringArg(args, "dicts") == ""
    ensures Admits(ParseMcpOpts(args), m) && Admits(None, m)
  {
  }

  /** The classify_term decoder: the "term" string (or "") and the options. */
  function DecodeTermRequest(raw: RawArgs): (req: ClassifyTermReq)
    ensures req.term == StringArg(ParseArgs(raw), "term")
    ensures req.opts == ParseMcpOpts(ParseArgs(raw))
    ensures !raw.Object? ==> req.term == "" && req.opts == Some(ClassifyOptions([], [], []))
  {
    var args := ParseArgs(raw);
    ClassifyTermReq(StringArg(args, "term"), ParseMcpOpts(args))
  }

  /** The classify_batch decoder: "terms" split on commas with every piece
      trimmed; more than 100 pieces is an error before the endpoint runs. */
  method DecodeBatchRequest(raw: RawArgs) returns (r: Result<ClassifyBatchReq, BatchError>)
    ensures var pieces := Split(StringArg(ParseArgs(raw), "terms"), ',');
            r.Err? <==> |pieces| > MaxBatch
    ensures r.Err? ==> r.error == TooManyTerms(Count(StringArg(ParseArgs(raw), "terms"), ',') + 1)
    ensures r.Ok? ==> var pieces := Split(StringArg(ParseArgs(raw), "terms"), ',');
                      |r.value.terms| == |pieces| == Count(StringArg(ParseArgs(raw), "terms"), ',') + 1
                      && (forall i :: 0 <= i < |pieces| ==> r.value.terms[i] == TrimSpace(pieces[i]))
                      && r.value.opts == ParseMcpOpts(ParseArgs(raw))
  {
    var args := ParseArgs(raw);
    var termsStr := StringArg(args, "terms");
    var terms := Split(termsStr, ',');
    SplitProperties(termsStr, ',');
    ghost var pieces := terms;
    for i := 0 to |terms|
      invariant |terms| == |pieces|
      invariant forall k :: 0 <= k < i ==> terms[k] == TrimSpace(pieces[k])
      invariant forall k :: i <= k < |terms| ==> terms[k] == pieces[k]
    {
      terms := terms[i := TrimSpace(terms[i])];
    }
    if |terms| > MaxBatch {
      return Err(TooManyTerms(|terms|));
    }
    return Ok(ClassifyBatchReq(terms, ParseMcpOpts(args)));
  }

  /** A call without any "terms" decodes to a batch of one empty term, which
      the batch endpoint accepts. */
  lemma MissingTermsIsOneEmptyTerm(raw: RawArgs)
    requires StringArg(ParseArgs(raw), "terms") == ""
    ensures Split(StringArg(ParseArgs(raw), "terms"), ',') == [""]
    ensures TrimSpace("") == "" && BatchCheck(1) == None
  {
  }

  // ---- tool definitions ----

  /** A property of an input schema: its JSON type and description. */
  datatype Property = Property(typ: string, description: string)

  /** The input schema: "type", and "properties"/"required" when present. */
  datatype Schema = Schema(typ: string, properties: Option<map<string, Property>>, required: Option<seq<string>>)

  datatype Tool = Tool(name: string, description: string, inputSchema: Schema)

  /** mcpTool: an object schema; properties only when given, required only
      when non-empty. */
  function McpTool(name: string, description: string, properties: Option<map<string, Property>>,
                   required: seq<string>): (t: Tool)
    ensures t.name == name && t.description == description
    ensures t.inputSchema.typ == "object"
    ensures t.inputSchema.properties == properties
    ensures t.inputSchema.required.Some? <==> |required| > 0
    ensures t.inputSchema.required.Some? ==> t.inputSchema.required.value == required
  {
    Tool(name, description, Schema("object", properties, if |required| > 0 then Some(required) else None))
  }

  function StringProperty(description: string): Property {
    Property("string", description)
  }

  /** The tools' descriptions. */
  const ClassifyTermText: string := "Classify a single term against public data registries (surnames, first names, companies, cities, street types)."
  const ClassifyBatchText: string := "Classify multiple terms (up to 100) against public data registries."
  const ListDictsText: string := "List all loaded dictionaries with metadata (jurisdiction, entity type, entry count, source)."

  function ClassifyTermTool(): Tool {
    McpTool("classify_term",
      ClassifyTermText,
      Some(map[
        "term" := StringProperty("The term to classify"),
        "jurisdictions" := StringProperty("Comma-separated jurisdiction filter (e.g. fr,uk)"),
        "types" := StringProperty("Comma-separated entity type filter (e.g. surname,first_name)"),
        "dicts" := StringProperty("Comma-separated dictionary filter (e.g. patronymes-fr)")]),
      ["term"])
  }

  function ClassifyBatchTool(): Tool {
    McpTool("classify_batch",
      ClassifyBatchText,
      Some(map[
        "terms" := StringProperty("Comma-separated list of terms to classify (max 100)"),
        "jurisdictions" := StringProperty("Comma-separated jurisdiction filter"),
        "types" := StringProperty("Comma-separated entity type filter"),
        "dicts" := StringProperty("Comma-separated dictionary filter (e.g. patronymes-fr)")]),
      ["terms"])
  }

  function ListDictsTool(): Tool {
    McpTool("list_dicts",
      ListDictsText,
      None, [])
  }

  /** A schema whose required names are all declared string properties. */
  predicate RequiredDeclared(s: Schema) {
    s.required.Some? ==>
      s.properties.Some? &&
      forall i :: 0 <= i < |s.required.value| ==>
        s.required.value[i] in s.properties.value && s.properties.value[s.required.value[i]].typ == "string"
  }

  /** The three registered tools: distinct names, object schemas, every
      required argument declared, and list_dicts taking no arguments. */
  lemma ToolsWellFormed()
    ensures ClassifyTermTool().name != ClassifyBatchTool().name && ClassifyBatchTool().name != ListDictsTool().name
    ensures ListDictsTool().name != ClassifyTermTool().name
    ensures RequiredDeclared(ClassifyTermTool().inputSchema) && RequiredDeclared(ClassifyBatchTool().inputSchema)
    ensures ClassifyTermTool().inputSchema.required == Some(["term"])
    ensures ClassifyBatchTool().inputSchema.required == Some(["terms"])
    ensures ListDictsTool().inputSchema == Schema("object", None, None)
  {
    var term, batch, list := ClassifyTermTool(), ClassifyBatchTool(), ListDictsTool();
    assert term.name[9] == 't' && batch.name[9] == 'b' && list.name[0] == 'l' && term.name[0] == 'c';
    assert "term" in term.inputSchema.properties.value;
    assert "terms" in batch.inputSchema.properties.value;
  }
}
