/** The import validator (`validateJsonStructure`) over parsed JSON values,
    the JSON form of an import document, and how the two relate. */
module Validation {
  import opened Wrappers
  import opened JsonValue
  import opened FlowTypes

  const Highlights: seq<string> := ["violet", "red", "green", "blue", "default"]
  const NodeTypes: seq<string> := ["agentic", "decision", "start", "end", "memory"]

  /** `node.key === undefined || typeof node.key === 'string'`: a parsed
      document has no `undefined`, so the key is absent or a string. */
  predicate OptionalString(fields: map<string, Value>, key: string) {
    key !in fields || fields[key].Str?
  }

  /** The key is absent or one of the allowed strings. */
  predicate OptionalOneOf(fields: map<string, Value>, key: string, allowed: seq<string>) {
    key !in fields || (fields[key].Str? && fields[key].s in allowed)
  }

  predicate OptionalArray(fields: map<string, Value>, key: string) {
    key !in fields || fields[key].Arr?
  }

  /** Lines 205-217 for an object: string `id` and `name`, optional string
      texts, an allowed highlight and kind, and arrays for the links. */
  predicate NodeFields(fields: map<string, Value>) {
    "id" in fields && fields["id"].Str?
    && "name" in fields && fields["name"].Str?
    && OptionalString(fields, "summary") && OptionalString(fields, "systemPrompt")
    && OptionalString(fields, "userPrompt") && OptionalString(fields, "outputFormat")
    && OptionalString(fields, "context")
    && OptionalOneOf(fields, "highlight", Highlights) && OptionalOneOf(fields, "nodeType", NodeTypes)
    && OptionalArray(fields, "nextNodes") && OptionalArray(fields, "decisions")
  }

  /** Lines 204-218 for one entry of `nodes`. Numbers, strings and booleans
      fail `typeof node === 'object'`; an array passes it but has no string
      `id`. */
  predicate ValidNode(v: Value) {
    v.Obj? && NodeFields(v.fields)
  }

  /** Lines 194-219 as evidently intended: an object whose `nodes` is an
      array of valid node entries. */
  predicate ValidateJsonStructure(v: Value) {
    v.Obj? && "nodes" in v.fields && v.fields["nodes"].Arr?
    && forall i :: 0 <= i < |v.fields["nodes"].items| ==> ValidNode(v.fields["nodes"].items[i])
  }

  /** What the validator can do besides answering. */
  datatype Thrown = ReadOfNull

  /** Lines 204-218 as written: `every` tests the entries in order and stops
      at the first that fails; `typeof null === 'object'`, so for a `null`
      entry `node.id` is read from `null` and a TypeError is thrown. */
  function EveryNodeAsWritten(items: seq<Value>): (r: Result<bool, Thrown>)
    ensures r.Ok? ==> (r.value <==> forall i :: 0 <= i < |items| ==> ValidNode(items[i]))
    ensures r.Err? ==> exists i :: 0 <= i < |items| && items[i] == Null && forall k :: 0 <= k < i ==> ValidNode(items[k])
    decreases |items|
  {
    if items == [] then Ok(true)
    else if items[0] == Null then Err(ReadOfNull)
    else if !ValidNode(items[0]) then Ok(false)
    else
      var rest := EveryNodeAsWritten(items[1..]);
      assert forall i :: 1 <= i < |items| ==> items[i] == items[1..][i - 1];
      rest
  }

  /** Lines 194-219 as written. */
  function ValidateAsWritten(v: Value): Result<bool, Thrown> {
    if !(v.Obj? || v.Arr?) then Ok(false)
    else if !(v.Obj? && "nodes" in v.fields && v.fields["nodes"].Arr?) then Ok(false)
    else EveryNodeAsWritten(v.fields["nodes"].items)
  }

  /** When the code as written answers, it answers as intended; it throws only
      on a document the intended check rejects, and exactly when a `null`
      entry comes before any other invalid entry. */
  lemma AsWrittenAgrees(v: Value)
    ensures ValidateAsWritten(v).Ok? ==> ValidateAsWritten(v).value == ValidateJsonStructure(v)
    ensures ValidateAsWritten(v).Err? ==> !ValidateJsonStructure(v)
  {
  }

  /** `{"nodes": [null]}` makes the code as written throw instead of
      answering `false`. */
  lemma NullNodeThrows()
    ensures ValidateAsWritten(Obj(map["nodes" := Arr([Null])])) == Err(ReadOfNull)
    ensures !ValidateJsonStructure(Obj(map["nodes" := Arr([Null])]))
  {
    assert !ValidNode(Null);
  }

  /** An empty node list is accepted; a document that is not an object, or
      whose `nodes` is missing or not an array, is rejected. */
  lemma ValidateShape(v: Value)
    ensures v == Obj(map["nodes" := Arr([])]) ==> ValidateJsonStructure(v)
    ensures !v.Obj? || "nodes" !in v.fields || !v.fields["nodes"].Arr? ==> !ValidateJsonStructure(v)
    ensures ValidateJsonStructure(v) ==> forall i :: 0 <= i < |v.fields["nodes"].items| ==>
              v.fields["nodes"].items[i].Obj? && v.fields["nodes"].items[i].fields["id"].Str? && v.fields["nodes"].items[i].fields["name"].Str?
  {
  }

  // ------------------------------------------------- the JSON form of a node

  function HighlightName(h: Highlight): (s: string)
    ensures s in Highlights
  {
    match h
    case Violet => "violet"
    case Red => "red"
    case Green => "green"
    case Blue => "blue"
    case Default => "default"
  }

  function NodeTypeName(t: NodeType): (s: string)
    ensures s in NodeTypes
  {
    match t
    case Agentic => "agentic"
    case Decision => "decision"
    case Start => "start"
    case End => "end"
    case Memory => "memory"
  }

  function ParseHighlight(s: string): (h: Option<Highlight>)
    ensures h.Some? <==> s in Highlights
    ensures h.Some? ==> HighlightName(h.value) == s
  {
    if s == "violet" then Some(Violet)
    else if s == "red" then Some(Red)
    else if s == "green" then Some(Green)
    else if s == "blue" then Some(Blue)
    else if s == "default" then Some(Default)
    else None
  }

  function ParseNodeType(s: string): (t: Option<NodeType>)
    ensures t.Some? <==> s in NodeTypes
    ensures t.Some? ==> NodeTypeName(t.value) == s
  {
    if s == "agentic" then Some(Agentic)
    else if s == "decision" then Some(Decision)
    else if s == "start" then Some(Start)
    else if s == "end" then Some(End)
    else if s == "memory" then Some(Memory)
    else None
  }

  lemma NamesParse(h: Highlight, t: NodeType)
    ensures ParseHighlight(HighlightName(h)) == Some(h)
    ensures ParseNodeType(NodeTypeName(t)) == Some(t)
  {
  }

  function EncodeStrings(s: seq<string>): (v: seq<Value>)
    ensures |v| == |s|
  {
    seq(|s|, k requires 0 <= k < |s| => Str(s[k]))
  }

  function EncodeRule(d: DecisionRule): Value {
    Obj(map["id" := Str(d.id), "condition" := Str(d.condition), "label" := Str(d.caption), "targetNodeId" := Str(d.targetNodeId)])
  }

  function EncodeRules(rules: seq<DecisionRule>): (v: seq<Value>)
    ensures |v| == |rules|
  {
    seq(|rules|, k requires 0 <= k < |rules| => EncodeRule(rules[k]))
  }

  /** The keys a node of the import format can have. */
  const NodeKeys: set<string> := {"id", "name", "summary", "systemPrompt", "userPrompt", "outputFormat", "context",
                                  "highlight", "nodeType", "nextNodes", "decisions"}

  function StrOf(s: Option<string>): Option<Value> {
    if s.Some? then Some(Str(s.value)) else None
  }

  /** The value the import format writes under `key`, if any. */
  function FieldOf(n: JsonNodeData, key: string): Option<Value> {
    if key == "id" then Some(Str(n.id))
    else if key == "name" then Some(Str(n.name))
    else if key == "summary" then StrOf(n.summary)
    else if key == "systemPrompt" then StrOf(n.systemPrompt)
    else if key == "userPrompt" then StrOf(n.userPrompt)
    else if key == "outputFormat" then StrOf(n.outputFormat)
    else if key == "context" then StrOf(n.context)
    else if key == "highlight" then (if n.highlight.Some? then Some(Str(HighlightName(n.highlight.value))) else None)
    else if key == "nodeType" then (if n.nodeType.Some? then Some(Str(NodeTypeName(n.nodeType.value))) else None)
    else if key == "nextNodes" then (if n.nextNodes.Some? then Some(Arr(EncodeStrings(n.nextNodes.value))) else None)
    else if key == "decisions" then (if n.decisions.Some? then Some(Arr(EncodeRules(n.decisions.value))) else None)
    else None
  }

  /** A node as the import format writes it: absent optional fields are left
      out. */
  function EncodeNode(n: JsonNodeData): Value {
    Obj(map key | key in NodeKeys && FieldOf(n, key).Some? :: FieldOf(n, key).value)
  }

  function EncodeNodes(nodes: seq<JsonNodeData>): (v: seq<Value>)
    ensures |v| == |nodes|
  {
    seq(|nodes|, k requires 0 <= k < |nodes| => EncodeNode(nodes[k]))
  }

  function EncodeFlow(nodes: seq<JsonNodeData>): Value {
    Obj(map["nodes" := Arr(EncodeNodes(nodes))])
  }

  // -------------------------------------------------- reading a node back

  function TextField(fields: map<string, Value>, key: string): Option<string> {
    if key in fields && fields[key].Str? then Some(fields[key].s) else None
  }

  function DecodeStrings(items: seq<Value>): (r: Option<seq<string>>)
    ensures r.Some? ==> |r.value| == |items|
    decreases |items|
  {
    if items == [] then Some([])
    else if !items[|items| - 1].Str? then None
    else match DecodeStrings(items[..|items| - 1])
      case None => None
      case Some(init) => Some(init + [items[|items| - 1].s])
  }

  function DecodeRule(v: Value): Option<DecisionRule> {
    if v.Obj? && "id" in v.fields && v.fields["id"].Str? && "condition" in v.fields && v.fields["condition"].Str?
       && "label" in v.fields && v.fields["label"].Str? && "targetNodeId" in v.fields && v.fields["targetNodeId"].Str?
    then Some(DecisionRule(v.fields["id"].s, v.fields["condition"].s, v.fields["label"].s, v.fields["targetNodeId"].s))
    else None
  }

  function DecodeRules(items: seq<Value>): (r: Option<seq<DecisionRule>>)
    ensures r.Some? ==> |r.value| == |items|
    decreases |items|
  {
    if items == [] then Some([])
    else match (DecodeRules(items[..|items| - 1]), DecodeRule(items[|items| - 1]))
      case (Some(init), Some(d)) => Some(init + [d])
      case _ => None
  }

  function HighlightField(f: map<string, Value>): Option<Highlight> {
    if "highlight" in f && f["highlight"].Str? then ParseHighlight(f["highlight"].s) else None
  }

  function NodeTypeField(f: map<string, Value>): Option<NodeType> {
    if "nodeType" in f && f["nodeType"].Str? then ParseNodeType(f["nodeType"].s) else None
  }

  /** `Some(None)` when `nextNodes` is absent, `Some(Some(ids))` for an array
      of strings, `None` otherwise. */
  function NextField(f: map<string, Value>): Option<Option<seq<string>>> {
    if "nextNodes" !in f then Some(None)
    else if !f["nextNodes"].Arr? then None
    else match DecodeStrings(f["nextNodes"].items)
      case None => None
      case Some(ids) => Some(Some(ids))
  }

  function RulesField(f: map<string, Value>): Option<Option<seq<DecisionRule>>> {
    if "decisions" !in f then Some(None)
    else if !f["decisions"].Arr? then None
    else match DecodeRules(f["decisions"].items)
      case None => None
      case Some(rules) => Some(Some(rules))
  }

  /** The node a valid entry stands for, when its link arrays hold what the
      import format says they hold (strings, and rule objects). */
  function DecodeNode(v: Value): (r: Option<JsonNodeData>)
    ensures r.Some? ==> ValidNode(v)
  {
    if !ValidNode(v) then None
    else
      var f := v.fields;
      var next, rules := NextField(f), RulesField(f);
      if next.None? || rules.None? then None
      else Some(JsonNodeData(f["id"].s, f["name"].s,
                             TextField(f, "summary"), TextField(f, "systemPrompt"), TextField(f, "userPrompt"),
                             TextField(f, "outputFormat"), TextField(f, "context"),
                             HighlightField(f), NodeTypeField(f), next.value, rules.value))
  }

  /** Reading back what was written gives the same strings. */
  lemma {:induction false} StringsRoundTrip(s: seq<string>)
    ensures DecodeStrings(EncodeStrings(s)) == Some(s)
    decreases |s|
  {
    if s != [] {
      assert EncodeStrings(s)[..|s| - 1] == EncodeStrings(s[..|s| - 1]);
      StringsRoundTrip(s[..|s| - 1]);
      assert s == s[..|s| - 1] + [s[|s| - 1]];
    }
  }

  /** Reading back what was written gives the same rules. */
  lemma {:induction false} RulesRoundTrip(rules: seq<DecisionRule>)
    ensures DecodeRules(EncodeRules(rules)) == Some(rules)
    decreases |rules|
  {
    if rules != [] {
      assert EncodeRules(rules)[..|rules| - 1] == EncodeRules(rules[..|rules| - 1]);
      RulesRoundTrip(rules[..|rules| - 1]);
      assert rules == rules[..|rules| - 1] + [rules[|rules| - 1]];
    }
  }

  /** A written node has a key exactly where the node has a value. */
  lemma EncodedKey(n: JsonNodeData, key: string)
    requires key in NodeKeys
    ensures key in EncodeNode(n).fields <==> FieldOf(n, key).Some?
    ensures key in EncodeNode(n).fields ==> EncodeNode(n).fields[key] == FieldOf(n, key).value
  {
  }

  /** The texts of a written node read back as themselves. */
  lemma EncodedTexts(n: JsonNodeData)
    ensures var f := EncodeNode(n).fields;
            "id" in f && f["id"] == Str(n.id) && "name" in f && f["name"] == Str(n.name)
            && TextField(f, "summary") == n.summary && OptionalString(f, "summary")
            && TextField(f, "systemPrompt") == n.systemPrompt && OptionalString(f, "systemPrompt")
            && TextField(f, "userPrompt") == n.userPrompt && OptionalString(f, "userPrompt")
            && TextField(f, "outputFormat") == n.outputFormat && OptionalString(f, "outputFormat")
            && TextField(f, "context") == n.context && OptionalString(f, "context")
  {
    EncodedKey(n, "id");
    EncodedKey(n, "name");
    EncodedKey(n, "summary");
    EncodedKey(n, "systemPrompt");
    EncodedKey(n, "userPrompt");
    EncodedKey(n, "outputFormat");
    EncodedKey(n, "context");
  }

  /** The kind, highlight and links of a written node. */
  lemma EncodedKinds(n: JsonNodeData)
    ensures var f := EncodeNode(n).fields;
            ("highlight" in f <==> n.highlight.Some?) && (n.highlight.Some? ==> f["highlight"] == Str(HighlightName(n.highlight.value)))
            && ("nodeType" in f <==> n.nodeType.Some?) && (n.nodeType.Some? ==> f["nodeType"] == Str(NodeTypeName(n.nodeType.value)))
            && ("nextNodes" in f <==> n.nextNodes.Some?) && (n.nextNodes.Some? ==> f["nextNodes"] == Arr(EncodeStrings(n.nextNodes.value)))
            && ("decisions" in f <==> n.decisions.Some?) && (n.decisions.Some? ==> f["decisions"] == Arr(EncodeRules(n.decisions.value)))
  {
    EncodedKey(n, "highlight");
    EncodedKey(n, "nodeType");
    EncodedKey(n, "nextNodes");
    EncodedKey(n, "decisions");
  }

  /** The kind and highlight of a written node read back as themselves. */
  lemma KindsBack(n: JsonNodeData)
    ensures HighlightField(EncodeNode(n).fields) == n.highlight
    ensures NodeTypeField(EncodeNode(n).fields) == n.nodeType
    ensures OptionalOneOf(EncodeNode(n).fields, "highlight", Highlights) && OptionalOneOf(EncodeNode(n).fields, "nodeType", NodeTypes)
  {
    EncodedKinds(n);
    NamesParse(n.highlight.GetOr(Default), n.nodeType.GetOr(Agentic));
  }

  /** The links of a written node read back as themselves. */
  lemma LinksBack(n: JsonNodeData)
    ensures NextField(EncodeNode(n).fields) == Some(n.nextNodes)
    ensures RulesField(EncodeNode(n).fields) == Some(n.decisions)
    ensures OptionalArray(EncodeNode(n).fields, "nextNodes") && OptionalArray(EncodeNode(n).fields, "decisions")
  {
    EncodedKinds(n);
    if n.nextNodes.Some? {
      StringsRoundTrip(n.nextNodes.value);
    }
    if n.decisions.Some? {
      RulesRoundTrip(n.decisions.value);
    }
  }

  /** Every node of the import format passes the entry check and reads back
      as itself. */
  lemma NodeRoundTrip(n: JsonNodeData)
    ensures ValidNode(EncodeNode(n))
    ensures DecodeNode(EncodeNode(n)) == Some(n)
  {
    var f := EncodeNode(n).fields;
    EncodedTexts(n);
    KindsBack(n);
    LinksBack(n);
    assert NodeFields(f);
  }

  function DecodeNodes(items: seq<Value>): Option<seq<JsonNodeData>>
    decreases |items|
  {
    if items == [] then Some([])
    else
      var init, last := DecodeNodes(items[..|items| - 1]), DecodeNode(items[|items| - 1]);
      if init.Some? && last.Some? then Some(init.value + [last.value]) else None
  }

  /** Only entries that pass the entry check read back as nodes. */
  lemma {:induction false} DecodedValid(items: seq<Value>)
    ensures DecodeNodes(items).Some? ==> forall i :: 0 <= i < |items| ==> ValidNode(items[i])
    decreases |items|
  {
    if items != [] && DecodeNodes(items).Some? {
      var p := items[..|items| - 1];
      DecodedValid(p);
      assert forall i :: 0 <= i < |items| - 1 ==> items[i] == p[i];
    }
  }

  /** The import document a value stands for, if any: only a value that
      passes validation can stand for one. */
  function DecodeFlow(v: Value): (r: Option<seq<JsonNodeData>>)
    ensures r.Some? ==> ValidateJsonStructure(v)
  {
    if v.Obj? && "nodes" in v.fields && v.fields["nodes"].Arr? then
      DecodedValid(v.fields["nodes"].items);
      DecodeNodes(v.fields["nodes"].items)
    else None
  }

  lemma {:induction false} NodesRoundTrip(nodes: seq<JsonNodeData>)
    ensures DecodeNodes(EncodeNodes(nodes)) == Some(nodes)
    decreases |nodes|
  {
    if nodes != [] {
      var p, last := nodes[..|nodes| - 1], nodes[|nodes| - 1];
      var items := EncodeNodes(nodes);
      assert items[..|items| - 1] == EncodeNodes(p);
      assert DecodeNodes(EncodeNodes(p)) == Some(p) by {
        NodesRoundTrip(p);
      }
      assert DecodeNode(items[|items| - 1]) == Some(last) by {
        NodeRoundTrip(last);
      }
      LastSplit(nodes);
    }
  }

  lemma LastSplit<T>(s: seq<T>)
    requires s != []
    ensures s == s[..|s| - 1] + [s[|s| - 1]]
  {
  }

  /** Every import document passes validation and reads back as itself. */
  lemma FlowRoundTrip(nodes: seq<JsonNodeData>)
    ensures ValidateJsonStructure(EncodeFlow(nodes))
    ensures DecodeFlow(EncodeFlow(nodes)) == Some(nodes)
  {
    var v := EncodeFlow(nodes);
    assert "nodes" in v.fields && v.fields["nodes"] == Arr(EncodeNodes(nodes));
    NodesRoundTrip(nodes);
    DecodedValid(EncodeNodes(nodes));
  }

  /** Validation is shallow: it checks that `nextNodes` is an array but not
      what the array holds, so an entry can pass and still not be a node of
      the import format. */
  lemma ValidationIsShallow()
    ensures ValidNode(Obj(map["id" := Str("a"), "name" := Str("A"), "nextNodes" := Arr([Int(1)])]))
    ensures DecodeNode(Obj(map["id" := Str("a"), "name" := Str("A"), "nextNodes" := Arr([Int(1)])])).None?
  {
    var v := Obj(map["id" := Str("a"), "name" := Str("A"), "nextNodes" := Arr([Int(1)])]);
    assert DecodeStrings([Int(1)]).None?;
  }
}
