/** The schema model of a visual cookiecutter template: the parameters declared
    in `cookiecutter.json`, the optional `_viz_context` extension block
    (required fields, conditional visibility rules, descriptions), and the
    validation that rejects an inconsistent schema when it is loaded. */
module Core {
  import opened Pairs

  /** The document as `json.load` returns it. Floating-point numbers are not modelled. */
  datatype Json =
    | JStr(s: string)
    | JInt(i: int)
    | JBool(b: bool)
    | JNull
    | JArray(items: seq<Json>)
    | JObject(fields: seq<(string, Json)>)

  /** A parameter definition: a free-text default, a list of choices (the first
      is the default) or a nested mapping of further definitions. */
  datatype Value =
    | Str(text: string)
    | Choice(options: seq<string>)
    | Dict(entries: seq<(string, Value)>)

  /** The value an `if` rule compares the controlling parameter with. */
  datatype Primitive = PStr(s: string) | PInt(i: int) | PBool(b: bool)

  /** `{"is": trigger, "ask_for": [...]}`: the listed parameters are shown only
      while the controlling parameter equals `trigger`. */
  datatype Rule = Rule(trigger: Primitive, askFor: seq<string>)

  /** The `_viz_context` block. `isRequired` is the set of required names, held
      without repetitions; `conditions` keeps the order of the `if` object. */
  datatype Context = Context(
    isRequired: seq<string>,
    conditions: seq<(string, Rule)>,
    descriptions: seq<(string, string)>)

  datatype Schema = Schema(params: seq<(string, Value)>, context: Context)

  /** Why a schema is rejected; `name` is the offending parameter, or the
      offending field of the extension block for a shape error. */
  datatype Error =
    | ContextShape(name: string)
    | NotPrimitive(name: string)
    | ParamType(name: string)
    | NotSingleEntry(name: string)
    | TooDeep(name: string)
    | UnknownRequired(name: string)
    | RequiredChoice(name: string)
    | UnknownDescription(name: string)
    | UnknownController(name: string)
    | UnknownAskFor(name: string)

  datatype Result<T> = Ok(value: T) | Err(error: Error) {
    predicate IsFailure() { Err? }
    function PropagateFailure<U>(): Result<U> requires Err? { Err(error) }
    function Extract(): T requires Ok? { value }
  }

  const VizContextKey: string := "_viz_context"

  function EmptyContext(): Context
  {
    Context([], [], [])
  }

  /** `VisualCookiecutter.is_required`: in a schema that passed validation, a
      required name is a parameter and not a list of choices. */
  function IsRequired(s: Schema, name: string): (r: bool)
    ensures r && WellFormed(s) ==> name in Keys(s.params) && !IsChoiceParam(s.params, name)
  {
    name in s.context.isRequired
  }

  // ---------------------------------------------------------------------
  // Keys are unique at every level (every JSON object is a Python dict)

  ghost predicate JsonUnique(j: Json)
    decreases j
  {
    match j
    case JObject(fs) => UniqueKeys(fs) && forall i :: 0 <= i < |fs| ==> JsonUnique(fs[i].1)
    case JArray(items) => forall i :: 0 <= i < |items| ==> JsonUnique(items[i])
    case _ => true
  }

  ghost predicate ValueUnique(v: Value)
    decreases v
  {
    match v
    case Dict(es) => UniqueKeys(es) && forall i :: 0 <= i < |es| ==> ValueUnique(es[i].1)
    case _ => true
  }

  ghost predicate DocUnique(doc: seq<(string, Json)>)
  {
    UniqueKeys(doc) && forall i :: 0 <= i < |doc| ==> JsonUnique(doc[i].1)
  }

  ghost predicate ParamsUnique(ps: seq<(string, Value)>)
  {
    UniqueKeys(ps) && forall i :: 0 <= i < |ps| ==> ValueUnique(ps[i].1)
  }

  // ---------------------------------------------------------------------
  // Parameter definitions: a string, a list of strings, or a mapping

  predicate AllStrings(items: seq<Json>)
  {
    forall i :: 0 <= i < |items| ==> items[i].JStr?
  }

  function Strings(items: seq<Json>): (r: seq<string>)
    requires AllStrings(items)
    ensures |r| == |items| && forall i :: 0 <= i < |items| ==> r[i] == items[i].s
  {
    if items == [] then [] else [items[0].s] + Strings(items[1..])
  }

  /** How many mappings a parameter definition may still hold: a top-level
      definition (`level` 0) and the values of a nested mapping (`level` 1) may
      be mappings, the values of the last level (`level` 2) may not. */
  const LastLevel: nat := 2

  /** The JSON values the parameter type admits at `level`. */
  ghost predicate IsParamJson(j: Json, level: nat)
    decreases j
  {
    match j
    case JStr(_) => true
    case JArray(items) => AllStrings(items)
    case JObject(fs) => level < LastLevel && forall i :: 0 <= i < |fs| ==> IsParamJson(fs[i].1, level + 1)
    case _ => false
  }

  /** The parameter definition a JSON value at `level` stands for; `name` labels the error. */
  function ToValue(name: string, j: Json, level: nat): (r: Result<Value>)
    decreases j, 1
    ensures r.Ok? <==> IsParamJson(j, level)
    ensures r.Ok? ==> (j.JStr? <==> r.value.Str?) && (j.JArray? <==> r.value.Choice?)
    ensures r.Ok? && j.JStr? ==> r.value == Str(j.s)
    ensures r.Ok? && j.JArray? ==> r.value == Choice(Strings(j.items))
    ensures r.Ok? && level >= LastLevel ==> !r.value.Dict?
    ensures r.Ok? && level <= LastLevel ==> NestedAtMost(r.value, LastLevel - level)
  {
    match j
    case JStr(s) => Ok(Str(s))
    case JArray(items) => if AllStrings(items) then Ok(Choice(Strings(items))) else Err(ParamType(name))
    case JObject(fs) =>
      if level < LastLevel then
        var es :- ToEntries(fs, 0, level + 1);
        Ok(Dict(es))
      else Err(ParamType(name))
    case _ => Err(ParamType(name))
  }

  /** The entries `fs[i..]` of a mapping whose values sit at `level`,
      converted one by one in key order. */
  function ToEntries(fs: seq<(string, Json)>, i: nat, level: nat): (r: Result<seq<(string, Value)>>)
    requires i <= |fs|
    decreases JObject(fs), 0, |fs| - i
    ensures r.Ok? <==> forall k :: i <= k < |fs| ==> IsParamJson(fs[k].1, level)
    ensures r.Ok? ==> |r.value| == |fs| - i
    ensures r.Ok? ==> forall k :: i <= k < |fs| ==>
      r.value[k - i].0 == fs[k].0 && ToValue(fs[k].0, fs[k].1, level) == Ok(r.value[k - i].1)
    ensures r.Ok? && level <= LastLevel ==> forall k :: 0 <= k < |r.value| ==> NestedAtMost(r.value[k].1, LastLevel - level)
  {
    if i == |fs| then Ok([])
    else
      var v :- ToValue(fs[i].0, fs[i].1, level);
      var rest :- ToEntries(fs, i + 1, level);
      Ok([(fs[i].0, v)] + rest)
  }

  /** Converting keeps the keys, so unique keys stay unique at every level. */
  lemma {:induction false} ToValueUnique(name: string, j: Json, level: nat)
    requires JsonUnique(j) && ToValue(name, j, level).Ok?
    decreases j, 1
    ensures ValueUnique(ToValue(name, j, level).value)
  {
    if j.JObject? {
      ToEntriesUnique(j.fields, 0, level + 1);
    }
  }

  lemma {:induction false} ToEntriesUnique(fs: seq<(string, Json)>, i: nat, level: nat)
    requires i <= |fs| && ToEntries(fs, i, level).Ok?
    requires UniqueKeys(fs[i..]) && forall k :: i <= k < |fs| ==> JsonUnique(fs[k].1)
    decreases JObject(fs), 0, |fs| - i
    ensures ParamsUnique(ToEntries(fs, i, level).value)
  {
    var es := ToEntries(fs, i, level).value;
    forall k | 0 <= k < |es| ensures ValueUnique(es[k].1) {
      ToValueUnique(fs[i + k].0, fs[i + k].1, level);
    }
    forall a, b | 0 <= a < b < |es| ensures es[a].0 != es[b].0 {
      assert fs[i..][a] == fs[i + a] && fs[i..][b] == fs[i + b];
    }
  }

  // ---------------------------------------------------------------------
  // The `_viz_context` block

  /** A list of names (`is_required`, `ask_for`); `field` labels the error. */
  function ParseNames(j: Json, field: string): (r: Result<seq<string>>)
    ensures r.Ok? <==> j.JArray? && AllStrings(j.items)
    ensures r.Ok? ==> r.value == Strings(j.items)
  {
    if j.JArray? && AllStrings(j.items) then Ok(Strings(j.items)) else Err(ContextShape(field))
  }

  /** The `is` validator of `ConditionalParameter`: only int, str and bool pass,
      each as itself. */
  function ParsePrimitive(controller: string, j: Json): (r: Result<Primitive>)
    ensures r.Ok? <==> j.JStr? || j.JInt? || j.JBool?
    ensures r.Ok? && j.JStr? ==> r.value == PStr(j.s)
    ensures r.Ok? && j.JInt? ==> r.value == PInt(j.i)
    ensures r.Ok? && j.JBool? ==> r.value == PBool(j.b)
    ensures r.Err? ==> r.error == NotPrimitive(controller)
  {
    match j
    case JStr(s) => Ok(PStr(s))
    case JInt(i) => Ok(PInt(i))
    case JBool(b) => Ok(PBool(b))
    case _ => Err(NotPrimitive(controller))
  }

  /** A rule object carries an `is` that passes the primitive check and an
      `ask_for` list of strings. */
  predicate IsRuleJson(j: Json)
  {
    && j.JObject?
    && Lookup(j.fields, "is").Some?
    && (var t := Lookup(j.fields, "is").value; t.JStr? || t.JInt? || t.JBool?)
    && Lookup(j.fields, "ask_for").Some?
    && Lookup(j.fields, "ask_for").value.JArray?
    && AllStrings(Lookup(j.fields, "ask_for").value.items)
  }

  /** One `ConditionalParameter`: both `is` and `ask_for` are mandatory. */
  function ParseRule(controller: string, j: Json): (r: Result<Rule>)
    ensures r.Ok? <==> IsRuleJson(j)
    ensures r.Ok? ==> var t := Lookup(j.fields, "is").value;
      && (t.JStr? ==> r.value.trigger == PStr(t.s))
      && (t.JInt? ==> r.value.trigger == PInt(t.i))
      && (t.JBool? ==> r.value.trigger == PBool(t.b))
    ensures r.Ok? ==> var items := Lookup(j.fields, "ask_for").value.items;
      |r.value.askFor| == |items| && forall k :: 0 <= k < |items| ==> items[k] == JStr(r.value.askFor[k])
    ensures j.JObject? && Lookup(j.fields, "is").Some? && ParsePrimitive(controller, Lookup(j.fields, "is").value).Err? ==>
      r == Err(NotPrimitive(controller))
  {
    match j
    case JObject(fs) =>
      var isValue :- match Lookup(fs, "is") case None => Err(ContextShape("if")) case Some(p) => Ok(p);
      var trigger :- ParsePrimitive(controller, isValue);
      var askValue :- match Lookup(fs, "ask_for") case None => Err(ContextShape("if")) case Some(a) => Ok(a);
      var askFor :- ParseNames(askValue, "if");
      Ok(Rule(trigger, askFor))
    case _ => Err(ContextShape("if"))
  }

  /** The `if` mapping, in order. */
  function ParseRules(fs: seq<(string, Json)>): (r: Result<seq<(string, Rule)>>)
    ensures r.Ok? <==> forall k :: 0 <= k < |fs| ==> ParseRule(fs[k].0, fs[k].1).Ok?
    ensures r.Ok? ==> Keys(r.value) == Keys(fs)
    ensures r.Ok? ==> forall k :: 0 <= k < |fs| ==> ParseRule(fs[k].0, fs[k].1) == Ok(r.value[k].1)
  {
    if fs == [] then Ok([])
    else
      var rule :- ParseRule(fs[0].0, fs[0].1);
      match ParseRules(fs[1..])
      case Err(e) =>
        RulesTailFails(fs);
        Err(e)
      case Ok(rest) =>
        RulesCons(fs, rule, rest);
        Ok([(fs[0].0, rule)] + rest)
  }

  lemma RulesTailFails(fs: seq<(string, Json)>)
    requires fs != [] && !forall k :: 0 <= k < |fs| - 1 ==> ParseRule(fs[1..][k].0, fs[1..][k].1).Ok?
    ensures !forall k :: 0 <= k < |fs| ==> ParseRule(fs[k].0, fs[k].1).Ok?
  {
    var k :| 0 <= k < |fs| - 1 && !ParseRule(fs[1..][k].0, fs[1..][k].1).Ok?;
    assert fs[1..][k] == fs[k + 1];
  }

  lemma RulesCons(fs: seq<(string, Json)>, rule: Rule, rest: seq<(string, Rule)>)
    requires fs != [] && ParseRule(fs[0].0, fs[0].1) == Ok(rule)
    requires Keys(rest) == Keys(fs[1..])
    requires forall k :: 0 <= k < |fs| - 1 ==> ParseRule(fs[1..][k].0, fs[1..][k].1) == Ok(rest[k].1)
    ensures Keys([(fs[0].0, rule)] + rest) == Keys(fs)
    ensures forall k :: 0 <= k < |fs| ==> ParseRule(fs[k].0, fs[k].1) == Ok(([(fs[0].0, rule)] + rest)[k].1)
  {
    var r := [(fs[0].0, rule)] + rest;
    assert r[1..] == rest;
    forall k | 1 <= k < |fs| ensures ParseRule(fs[k].0, fs[k].1) == Ok(r[k].1) {
      assert fs[1..][k - 1] == fs[k] && r[k] == rest[k - 1];
    }
  }

  /** The `descriptions` mapping: every value must be a string, and each key keeps its text. */
  function ParseDescriptions(fs: seq<(string, Json)>): (r: Result<seq<(string, string)>>)
    ensures r.Ok? <==> forall k :: 0 <= k < |fs| ==> fs[k].1.JStr?
    ensures r.Ok? ==> |r.value| == |fs| && forall k :: 0 <= k < |fs| ==> r.value[k] == (fs[k].0, fs[k].1.s)
    ensures r.Ok? ==> Keys(r.value) == Keys(fs)
  {
    if fs == [] then Ok([])
    else
      var d :- if fs[0].1.JStr? then Ok(fs[0].1.s) else Err(ContextShape("descriptions"));
      assert forall k :: 1 <= k < |fs| ==> fs[k] == fs[1..][k - 1];
      var rest :- ParseDescriptions(fs[1..]);
      Ok([(fs[0].0, d)] + rest)
  }

  /** The `is_required` field; absent means no required names. */
  function RequiredField(fs: seq<(string, Json)>): (r: Result<seq<string>>)
    ensures var l := Lookup(fs, "is_required");
      r.Ok? <==> l.None? || (l.value.JArray? && AllStrings(l.value.items))
    ensures Lookup(fs, "is_required").None? ==> r == Ok([])
    ensures r.Ok? ==> forall n :: n in r.value <==>
      (var l := Lookup(fs, "is_required"); l.Some? && JStr(n) in l.value.items)
  {
    match Lookup(fs, "is_required")
    case None => Ok([])
    case Some(l) =>
      var r := ParseNames(l, "is_required");
      StringsMembership(l);
      r
  }

  lemma StringsMembership(l: Json)
    ensures l.JArray? && AllStrings(l.items) ==> forall n :: n in Strings(l.items) <==> JStr(n) in l.items
  {
    if l.JArray? && AllStrings(l.items) {
      var names := Strings(l.items);
      forall n ensures n in names <==> JStr(n) in l.items {
        if JStr(n) in l.items {
          var i :| 0 <= i < |l.items| && l.items[i] == JStr(n);
          assert names[i] == n;
        }
        if n in names {
          var i :| 0 <= i < |names| && names[i] == n;
          assert l.items[i] == JStr(n);
        }
      }
    }
  }

  /** The `if` field; absent means no rules. */
  function ConditionsField(fs: seq<(string, Json)>): (r: Result<seq<(string, Rule)>>)
    ensures var c := Lookup(fs, "if");
      r.Ok? <==> c.None? || (c.value.JObject? && forall k :: 0 <= k < |c.value.fields| ==> IsRuleJson(c.value.fields[k].1))
    ensures Lookup(fs, "if").None? ==> r == Ok([])
    ensures r.Ok? && Lookup(fs, "if").Some? ==> var rules := Lookup(fs, "if").value.fields;
      Keys(r.value) == Keys(rules) && forall k :: 0 <= k < |rules| ==> ParseRule(rules[k].0, rules[k].1) == Ok(r.value[k].1)
  {
    match Lookup(fs, "if")
    case None => Ok([])
    case Some(c) => if c.JObject? then ParseRules(c.fields) else Err(ContextShape("if"))
  }

  /** The `descriptions` field; absent means no descriptions. */
  function DescriptionsField(fs: seq<(string, Json)>): (r: Result<seq<(string, string)>>)
    ensures var d := Lookup(fs, "descriptions");
      r.Ok? <==> d.None? || (d.value.JObject? && forall k :: 0 <= k < |d.value.fields| ==> d.value.fields[k].1.JStr?)
    ensures Lookup(fs, "descriptions").None? ==> r == Ok([])
    ensures r.Ok? && Lookup(fs, "descriptions").Some? ==> var ds := Lookup(fs, "descriptions").value.fields;
      |r.value| == |ds| && forall k :: 0 <= k < |ds| ==> r.value[k] == (ds[k].0, ds[k].1.s)
  {
    match Lookup(fs, "descriptions")
    case None => Ok([])
    case Some(d) => if d.JObject? then ParseDescriptions(d.fields) else Err(ContextShape("descriptions"))
  }

  /** `VisualCookiecutterContext.parse_obj`: absent fields take their empty
      defaults, unknown fields are ignored, and the required names become a set. */
  function ParseContext(j: Json): (r: Result<Context>)
    ensures r.Ok? <==> j.JObject? && RequiredField(j.fields).Ok? && ConditionsField(j.fields).Ok? && DescriptionsField(j.fields).Ok?
    ensures !j.JObject? ==> r == Err(ContextShape(VizContextKey))
    ensures r.Ok? ==> j.JObject? && NoDups(r.value.isRequired)
    ensures r.Ok? ==> r.value.isRequired == Dedup(RequiredField(j.fields).value)
    ensures r.Ok? ==> ConditionsField(j.fields) == Ok(r.value.conditions)
    ensures r.Ok? ==> DescriptionsField(j.fields) == Ok(r.value.descriptions)
  {
    match j
    case JObject(fs) =>
      var required :- RequiredField(fs);
      var conditions :- ConditionsField(fs);
      var descriptions :- DescriptionsField(fs);
      Ok(Context(Dedup(required), conditions, descriptions))
    case _ => Err(ContextShape(VizContextKey))
  }

  /** What a parsed block holds, field by field: the names `is_required` lists
      (each once), the rules and descriptions of the `if` and `descriptions`
      objects, and nothing for a field that is absent. */
  lemma ParsedBlock(fs: seq<(string, Json)>)
    requires ParseContext(JObject(fs)).Ok?
    ensures var ctx := ParseContext(JObject(fs)).value;
      && NoDups(ctx.isRequired)
      && (forall n :: n in ctx.isRequired <==>
            (var l := Lookup(fs, "is_required"); l.Some? && JStr(n) in l.value.items))
      && (Lookup(fs, "if").None? ==> ctx.conditions == [])
      && (Lookup(fs, "if").Some? ==> var rules := Lookup(fs, "if").value.fields;
            Keys(ctx.conditions) == Keys(rules) &&
            forall k :: 0 <= k < |rules| ==> ParseRule(rules[k].0, rules[k].1) == Ok(ctx.conditions[k].1))
      && (Lookup(fs, "descriptions").None? ==> ctx.descriptions == [])
      && (Lookup(fs, "descriptions").Some? ==> var ds := Lookup(fs, "descriptions").value.fields;
            |ctx.descriptions| == |ds| && forall k :: 0 <= k < |ds| ==> ctx.descriptions[k] == (ds[k].0, ds[k].1.s))
  {
  }

  lemma {:induction false} SameKeysUnique<V, W>(a: seq<(string, V)>, b: seq<(string, W)>)
    requires Keys(a) == Keys(b) && UniqueKeys(a)
    ensures UniqueKeys(b)
  {
    forall i, j | 0 <= i < j < |b| ensures b[i].0 != b[j].0 {
      assert Keys(a)[i] == Keys(b)[i] && Keys(a)[j] == Keys(b)[j];
    }
  }

  lemma ConditionsFieldUnique(fs: seq<(string, Json)>)
    requires JsonUnique(JObject(fs)) && ConditionsField(fs).Ok?
    ensures UniqueKeys(ConditionsField(fs).value)
  {
    if Lookup(fs, "if").Some? {
      var c := Lookup(fs, "if").value;
      var i :| 0 <= i < |fs| && fs[i] == ("if", c);
      assert JsonUnique(c);
      SameKeysUnique(c.fields, ConditionsField(fs).value);
    }
  }

  lemma DescriptionsFieldUnique(fs: seq<(string, Json)>)
    requires JsonUnique(JObject(fs)) && DescriptionsField(fs).Ok?
    ensures UniqueKeys(DescriptionsField(fs).value)
  {
    if Lookup(fs, "descriptions").Some? {
      var d := Lookup(fs, "descriptions").value;
      var i :| 0 <= i < |fs| && fs[i] == ("descriptions", d);
      assert JsonUnique(d);
      assert ParseDescriptions(d.fields) == DescriptionsField(fs);
      SameKeysUnique(d.fields, DescriptionsField(fs).value);
    }
  }

  /** The `if` and `descriptions` mappings of a parsed block have unique keys. */
  lemma ParseContextUnique(j: Json)
    requires JsonUnique(j) && ParseContext(j).Ok?
    ensures UniqueKeys(ParseContext(j).value.conditions) && UniqueKeys(ParseContext(j).value.descriptions)
  {
    ConditionsFieldUnique(j.fields);
    DescriptionsFieldUnique(j.fields);
  }

  lemma ContextOfUnique(doc: seq<(string, Json)>)
    requires DocUnique(doc) && ContextOf(doc).Ok?
    ensures UniqueKeys(ContextOf(doc).value.conditions) && UniqueKeys(ContextOf(doc).value.descriptions)
  {
    if Lookup(doc, VizContextKey).Some? {
      ParseContextUnique(Lookup(doc, VizContextKey).value);
    }
  }

  /** The first step of `from_cookiecutter`: the extension block, or the empty one when the key is absent. */
  function ContextOf(doc: seq<(string, Json)>): (r: Result<Context>)
    ensures Lookup(doc, VizContextKey).None? ==> r == Ok(EmptyContext())
    ensures Lookup(doc, VizContextKey).Some? && !Lookup(doc, VizContextKey).value.JObject? ==>
      r == Err(ContextShape(VizContextKey))
    ensures r.Ok? ==> NoDups(r.value.isRequired)
  {
    match Lookup(doc, VizContextKey)
    case None => Ok(EmptyContext())
    case Some(c) => ParseContext(c)
  }

  // ---------------------------------------------------------------------
  // `_dict_depth` and the nesting it allows

  /** `_dict_depth(v, level)`: `level` for a non-mapping or an empty mapping,
      otherwise the largest depth of an entry one level further down. */
  function DictDepth(v: Value, level: nat): (r: nat)
    decreases v, 1
    ensures r >= level
    ensures v.Dict? && v.entries != [] ==> r > level
  {
    match v
    case Dict(es) => if es == [] then level else MaxDepth(es, 0, level + 1)
    case _ => level
  }

  /** The `max` over the entries `es[i..]`, each taken at `level`. */
  function MaxDepth(es: seq<(string, Value)>, i: nat, level: nat): (r: nat)
    requires i < |es|
    decreases Dict(es), 0, |es| - i
    ensures r >= level
    ensures forall k :: i <= k < |es| ==> DictDepth(es[k].1, level) <= r
    ensures exists k :: i <= k < |es| && DictDepth(es[k].1, level) == r
  {
    var d := DictDepth(es[i].1, level);
    if i == |es| - 1 then d
    else
      var rest := MaxDepth(es, i + 1, level);
      assert exists k :: i + 1 <= k < |es| && DictDepth(es[k].1, level) == rest;
      assert forall k :: i + 1 <= k < |es| ==> DictDepth(es[k].1, level) <= rest;
      if d < rest then rest else d
  }

  /** A structural reading of the depth bound: no chain of more than `n`
      non-empty mappings, one inside the next. */
  ghost predicate NestedAtMost(v: Value, n: nat)
    decreases v
  {
    match v
    case Dict(es) => es == [] || (n > 0 && forall i :: 0 <= i < |es| ==> NestedAtMost(es[i].1, n - 1))
    case _ => true
  }

  lemma {:induction false} DepthBound(v: Value, level: nat, n: nat)
    decreases v
    ensures DictDepth(v, level) <= level + n <==> NestedAtMost(v, n)
  {
    if v.Dict? && v.entries != [] && n > 0 {
      var es := v.entries;
      var m := MaxDepth(es, 0, level + 1);
      assert DictDepth(v, level) == m;
      forall i | 0 <= i < |es|
        ensures DictDepth(es[i].1, level + 1) <= level + n <==> NestedAtMost(es[i].1, n - 1)
      {
        DepthBound(es[i].1, level + 1, n - 1);
      }
      if NestedAtMost(v, n) {
        var k :| 0 <= k < |es| && DictDepth(es[k].1, level + 1) == m;
        assert NestedAtMost(es[k].1, n - 1);
      }
    }
  }

  // ---------------------------------------------------------------------
  // Consistency of the parameters and the extension block

  /** `_validate_cookiecutter_params` on one definition: a mapping has exactly
      one entry and a depth of 1 or 2. */
  predicate ShapeOk(v: Value)
  {
    v.Dict? ==> |v.entries| == 1 && DictDepth(v, 0) in {1, 2}
  }

  predicate IsChoiceParam(ps: seq<(string, Value)>, name: string)
  {
    Lookup(ps, name).Some? && Lookup(ps, name).value.Choice?
  }

  ghost predicate RequiredOk(ps: seq<(string, Value)>, req: seq<string>)
  {
    forall n :: n in req ==> n in Keys(ps) && !IsChoiceParam(ps, n)
  }

  ghost predicate NamesKnown(names: seq<string>, keys: seq<string>)
  {
    forall n :: n in names ==> n in keys
  }

  ghost predicate ConditionsOk(cs: seq<(string, Rule)>, keys: seq<string>)
  {
    forall i :: 0 <= i < |cs| ==> cs[i].0 in keys && NamesKnown(cs[i].1.askFor, keys)
  }

  /** Everything `_validate_consistency` demands of a schema. */
  ghost predicate Consistent(ps: seq<(string, Value)>, ctx: Context)
  {
    && (forall i :: 0 <= i < |ps| ==> ShapeOk(ps[i].1))
    && RequiredOk(ps, ctx.isRequired)
    && NamesKnown(Keys(ctx.descriptions), Keys(ps))
    && ConditionsOk(ctx.conditions, Keys(ps))
  }

  /** A schema as loading produces it: consistent, with unique keys everywhere. */
  ghost predicate WellFormed(s: Schema)
  {
    && ParamsUnique(s.params)
    && NoDups(s.context.isRequired)
    && UniqueKeys(s.context.conditions)
    && UniqueKeys(s.context.descriptions)
    && Consistent(s.params, s.context)
  }

  /** The loop of `_validate_cookiecutter_params`: the first definition that fails. */
  function CheckShapes(ps: seq<(string, Value)>): (r: Option<Error>)
    ensures r.None? <==> forall i :: 0 <= i < |ps| ==> ShapeOk(ps[i].1)
    ensures r.Some? ==> exists i :: (
      && 0 <= i < |ps| && ps[i].0 == r.value.name && !ShapeOk(ps[i].1)
      && (forall m :: 0 <= m < i ==> ShapeOk(ps[m].1))
      && (r.value.NotSingleEntry? <==> |ps[i].1.entries| != 1)
      && (r.value.NotSingleEntry? || r.value.TooDeep?))
  {
    if ps == [] then None
    else if ps[0].1.Dict? && |ps[0].1.entries| != 1 then Some(NotSingleEntry(ps[0].0))
    else if ps[0].1.Dict? && DictDepth(ps[0].1, 0) !in {1, 2} then Some(TooDeep(ps[0].0))
    else
      var r := CheckShapes(ps[1..]);
      assert forall i :: 1 <= i < |ps| ==> ps[i] == ps[1..][i - 1];
      r
  }

  /** The `is_required` loop: an unknown name, then a name bound to a choice. */
  function CheckRequired(req: seq<string>, ps: seq<(string, Value)>): (r: Option<Error>)
    ensures r.None? <==> RequiredOk(ps, req)
    ensures r.Some? ==> r.value.name in req
    ensures r.Some? ==> (
      || (r.value.UnknownRequired? && r.value.name !in Keys(ps))
      || (r.value.RequiredChoice? && IsChoiceParam(ps, r.value.name)))
  {
    if req == [] then None
    else if req[0] !in Keys(ps) then Some(UnknownRequired(req[0]))
    else if IsChoiceParam(ps, req[0]) then Some(RequiredChoice(req[0]))
    else
      var r := CheckRequired(req[1..], ps);
      assert forall n :: n in req ==> n == req[0] || n in req[1..];
      r
  }

  /** The first name that is not among `keys`. */
  function FirstUnknown(names: seq<string>, keys: seq<string>): (r: Option<string>)
    ensures r.None? <==> NamesKnown(names, keys)
    ensures r.Some? ==> r.value in names && r.value !in keys
  {
    if names == [] then None
    else if names[0] !in keys then Some(names[0])
    else
      var r := FirstUnknown(names[1..], keys);
      assert forall n :: n in names ==> n == names[0] || n in names[1..];
      r
  }

  /** The `if` loop: each controlling name, then its `ask_for` names. */
  function CheckConditions(cs: seq<(string, Rule)>, keys: seq<string>): (r: Option<Error>)
    ensures r.None? <==> ConditionsOk(cs, keys)
    ensures r.Some? ==> (
      && r.value.name !in keys
      && (|| (r.value.UnknownController? && r.value.name in Keys(cs))
          || (r.value.UnknownAskFor? && exists i :: 0 <= i < |cs| && r.value.name in cs[i].1.askFor)))
  {
    if cs == [] then None
    else if cs[0].0 !in keys then Some(UnknownController(cs[0].0))
    else match FirstUnknown(cs[0].1.askFor, keys)
      case Some(n) => Some(UnknownAskFor(n))
      case None =>
        var r := CheckConditions(cs[1..], keys);
        assert forall i :: 1 <= i < |cs| ==> cs[i] == cs[1..][i - 1];
        r
  }

  /** The entry an error reports: a parameter whose shape is wrong, a
      required name that is unknown or a choice, or a description, controlling
      or `ask_for` name that is not a parameter. */
  predicate ErrorNames(e: Error, ps: seq<(string, Value)>, ctx: Context)
  {
    || ((e.NotSingleEntry? || e.TooDeep?) && e.name in Keys(ps) && !ShapeOk(Lookup(ps, e.name).value))
    || (e.UnknownRequired? && e.name in ctx.isRequired && e.name !in Keys(ps))
    || (e.RequiredChoice? && e.name in ctx.isRequired && IsChoiceParam(ps, e.name))
    || (e.UnknownDescription? && e.name in Keys(ctx.descriptions) && e.name !in Keys(ps))
    || (e.UnknownController? && e.name in Keys(ctx.conditions) && e.name !in Keys(ps))
    || (e.UnknownAskFor? && e.name !in Keys(ps)
        && exists i :: 0 <= i < |ctx.conditions| && e.name in ctx.conditions[i].1.askFor)
  }

  /** `_validate_consistency`: the first violation, in the order the source checks them. */
  function Validate(ps: seq<(string, Value)>, ctx: Context): (r: Option<Error>)
    ensures r.None? <==> Consistent(ps, ctx)
  {
    match CheckShapes(ps)
    case Some(e) => Some(e)
    case None =>
      match CheckRequired(ctx.isRequired, ps)
      case Some(e) => Some(e)
      case None =>
        match FirstUnknown(Keys(ctx.descriptions), Keys(ps))
        case Some(n) => Some(UnknownDescription(n))
        case None => CheckConditions(ctx.conditions, Keys(ps))
  }

  /** A rejection names the entry at fault. */
  lemma ValidateNamesCulprit(ps: seq<(string, Value)>, ctx: Context)
    requires UniqueKeys(ps)
    ensures Validate(ps, ctx).Some? ==> ErrorNames(Validate(ps, ctx).value, ps, ctx)
  {
    var r := Validate(ps, ctx);
    if CheckShapes(ps).Some? {
      var e := CheckShapes(ps).value;
      var i :| 0 <= i < |ps| && ps[i].0 == e.name && !ShapeOk(ps[i].1);
      LookupAt(ps, i);
      assert Keys(ps)[i] == e.name;
    } else if CheckRequired(ctx.isRequired, ps).None? && FirstUnknown(Keys(ctx.descriptions), Keys(ps)).None? {
      assert r == CheckConditions(ctx.conditions, Keys(ps));
    }
  }

  // ---------------------------------------------------------------------
  // Loading

  /** `VisualCookiecutter.from_cookiecutter` on an already parsed document:
      pop the extension block, type the remaining entries as parameter
      definitions, and validate the whole. */
  function Load(doc: seq<(string, Json)>): (r: Result<Schema>)
    requires DocUnique(doc)
    ensures r.Ok? ==> WellFormed(r.value)
    ensures r.Ok? ==> VizContextKey !in Keys(r.value.params)
    ensures r.Ok? ==> ContextOf(doc) == Ok(r.value.context)
    ensures r.Ok? ==> var rest := Without(doc, VizContextKey);
      |r.value.params| == |rest| &&
      forall k :: 0 <= k < |rest| ==>
        r.value.params[k].0 == rest[k].0 && ToValue(rest[k].0, rest[k].1, 0) == Ok(r.value.params[k].1)
    ensures VizContextKey !in Keys(doc) && r.Ok? ==>
      r.value.context == EmptyContext() && |r.value.params| == |doc| &&
      forall k :: 0 <= k < |doc| ==> r.value.params[k].0 == doc[k].0 && ToValue(doc[k].0, doc[k].1, 0) == Ok(r.value.params[k].1)
  {
    var ctx :- ContextOf(doc);
    var params :- ToEntries(Without(doc, VizContextKey), 0, 0);
    ConvertedParamsUnique(doc);
    ContextOfUnique(doc);
    match Validate(params, ctx)
    case Some(e) => Err(e)
    case None => Ok(Schema(params, ctx))
  }

  /** The definitions converted from the document keep its unique keys, and
      none of them is the extension key. */
  lemma ConvertedParamsUnique(doc: seq<(string, Json)>)
    requires DocUnique(doc) && ToEntries(Without(doc, VizContextKey), 0, 0).Ok?
    ensures var ps := ToEntries(Without(doc, VizContextKey), 0, 0).value;
      ParamsUnique(ps) && VizContextKey !in Keys(ps)
  {
    var rest := Without(doc, VizContextKey);
    var params := ToEntries(rest, 0, 0).value;
    WithoutUnique(doc, VizContextKey);
    WithoutEntries(doc, VizContextKey);
    KeysOfConverted(rest, params);
    RestJsonUnique(doc);
    assert rest[0..] == rest;
    ToEntriesUnique(rest, 0, 0);
  }

  lemma RestJsonUnique(doc: seq<(string, Json)>)
    requires DocUnique(doc)
    ensures forall k :: 0 <= k < |Without(doc, VizContextKey)| ==> JsonUnique(Without(doc, VizContextKey)[k].1)
  {
    var rest := Without(doc, VizContextKey);
    WithoutEntries(doc, VizContextKey);
    forall k | 0 <= k < |rest| ensures JsonUnique(rest[k].1) {
      var j :| 0 <= j < |doc| && doc[j] == rest[k];
    }
  }

  lemma {:induction false} KeysOfConverted(fs: seq<(string, Json)>, es: seq<(string, Value)>)
    requires |es| == |fs| && forall k :: 0 <= k < |fs| ==> es[k].0 == fs[k].0
    ensures Keys(es) == Keys(fs)
  {
    if fs != [] {
      KeysOfConverted(fs[1..], es[1..]);
    }
  }

  // ---------------------------------------------------------------------
  // What loading guarantees

  /** Without an extension block every declared entry is a parameter, in the
      same order, and the extension is empty. */
  lemma NoContextKeyKeepsParameters(doc: seq<(string, Json)>)
    requires DocUnique(doc) && VizContextKey !in Keys(doc)
    ensures Load(doc).Ok? ==> Keys(Load(doc).value.params) == Keys(doc)
    ensures Load(doc).Ok? ==> Load(doc).value.context == Context([], [], [])
  {
    if Load(doc).Ok? {
      KeysOfConverted(doc, Load(doc).value.params);
    }
  }

  /** Loading accepts exactly the documents whose extension block parses, whose
      entries are parameter definitions, and which are consistent. */
  lemma {:induction false} LoadAccepts(doc: seq<(string, Json)>, ctx: Context, ps: seq<(string, Value)>)
    requires DocUnique(doc)
    requires ContextOf(doc) == Ok(ctx) && ToEntries(Without(doc, VizContextKey), 0, 0) == Ok(ps)
    ensures Load(doc).Ok? <==> Consistent(ps, ctx)
    ensures Load(doc).Ok? ==> Load(doc).value == Schema(ps, ctx)
  {
  }

  /** Every loaded parameter is an entry of the document other than the extension block. */
  lemma LoadedParamsFromDoc(doc: seq<(string, Json)>)
    requires DocUnique(doc)
    ensures Load(doc).Ok? ==> forall n :: n in Keys(Load(doc).value.params) ==> n in Keys(doc)
  {
    if Load(doc).Ok? {
      var ps := Load(doc).value.params;
      var rest := Without(doc, VizContextKey);
      WithoutEntries(doc, VizContextKey);
      forall n | n in Keys(ps) ensures n in Keys(doc) {
        var k :| 0 <= k < |ps| && Keys(ps)[k] == n;
        var j :| 0 <= j < |doc| && doc[j] == rest[k];
        assert Keys(doc)[j] == n;
      }
    }
  }

  /** A list entry of the document becomes a choice parameter. */
  lemma {:induction false} DocListIsChoice(doc: seq<(string, Json)>, k: nat)
    requires DocUnique(doc) && k < |doc| && doc[k].1.JArray? && doc[k].0 != VizContextKey
    ensures Load(doc).Ok? ==> IsChoiceParam(Load(doc).value.params, doc[k].0)
  {
    if Load(doc).Ok? {
      var ps := Load(doc).value.params;
      var rest := Without(doc, VizContextKey);
      WithoutEntries(doc, VizContextKey);
      var j :| 0 <= j < |rest| && rest[j] == doc[k];
      LookupAt(ps, j);
    }
  }

  lemma {:induction false} KeyAt<V>(es: seq<(string, V)>, n: string)
    requires n in Keys(es)
    ensures exists i :: 0 <= i < |es| && es[i].0 == n
  {
    var i :| 0 <= i < |Keys(es)| && Keys(es)[i] == n;
  }

  /** A required name that is not a top-level parameter (absent from the
      document, or the extension block's own key) is rejected. */
  lemma UnknownRequiredRejected(doc: seq<(string, Json)>, ctx: Context, n: string)
    requires DocUnique(doc) && ContextOf(doc) == Ok(ctx)
    requires n in ctx.isRequired && (n !in Keys(doc) || n == VizContextKey)
    ensures Load(doc).Err?
  {
    NeverAParameter(doc, n);
  }

  /** A required name bound to a list (a choice) is rejected. */
  lemma RequiredChoiceRejected(doc: seq<(string, Json)>, ctx: Context, k: nat)
    requires DocUnique(doc) && ContextOf(doc) == Ok(ctx)
    requires k < |doc| && doc[k].1.JArray? && doc[k].0 != VizContextKey && doc[k].0 in ctx.isRequired
    ensures Load(doc).Err?
  {
    DocListIsChoice(doc, k);
  }

  /** A description, a controlling name or an `ask_for` name that is not a
      top-level parameter (absent from the document, or the extension block's
      own key) is rejected. */
  lemma DanglingReferenceRejected(doc: seq<(string, Json)>, ctx: Context, n: string)
    requires DocUnique(doc) && ContextOf(doc) == Ok(ctx) && (n !in Keys(doc) || n == VizContextKey)
    requires n in Keys(ctx.descriptions) || n in Keys(ctx.conditions) ||
             exists i :: 0 <= i < |ctx.conditions| && n in ctx.conditions[i].1.askFor
    ensures Load(doc).Err?
  {
    if n in Keys(ctx.conditions) {
      KeyAt(ctx.conditions, n);
    }
    NeverAParameter(doc, n);
    LoadedReferencesKnown(doc, ctx);
  }

  /** Every name the loaded block refers to is a loaded parameter. */
  lemma LoadedReferencesKnown(doc: seq<(string, Json)>, ctx: Context)
    requires DocUnique(doc) && ContextOf(doc) == Ok(ctx)
    ensures Load(doc).Ok? ==> var keys := Keys(Load(doc).value.params);
      NamesKnown(Keys(ctx.descriptions), keys) && ConditionsOk(ctx.conditions, keys)
  {
  }

  /** A name absent from the document, or the extension key, is never a loaded parameter. */
  lemma NeverAParameter(doc: seq<(string, Json)>, n: string)
    requires DocUnique(doc) && (n !in Keys(doc) || n == VizContextKey)
    ensures Load(doc).Ok? ==> n !in Keys(Load(doc).value.params)
  {
    LoadedParamsFromDoc(doc);
  }

  /** An `if` rule whose `is` is not an int, a string or a bool is rejected. */
  lemma {:induction false} NonPrimitiveTriggerRejected(
    doc: seq<(string, Json)>, block: seq<(string, Json)>, rules: seq<(string, Json)>, k: nat)
    requires DocUnique(doc)
    requires Lookup(doc, VizContextKey) == Some(JObject(block))
    requires Lookup(block, "if") == Some(JObject(rules))
    requires k < |rules| && rules[k].1.JObject?
    requires Lookup(rules[k].1.fields, "is").Some?
    requires var t := Lookup(rules[k].1.fields, "is").value; !(t.JStr? || t.JInt? || t.JBool?)
    ensures Load(doc).Err?
  {
    assert ParseRule(rules[k].0, rules[k].1).Err?;
    assert ParseRules(rules).Err?;
  }

  /** A loaded mapping parameter has one entry and at most one further level
      of non-empty mappings below it. */
  lemma LoadedMappingsAreShallow(doc: seq<(string, Json)>, k: nat)
    requires DocUnique(doc) && Load(doc).Ok? && k < |Load(doc).value.params|
    requires Load(doc).value.params[k].1.Dict?
    ensures |Load(doc).value.params[k].1.entries| == 1
    ensures NestedAtMost(Load(doc).value.params[k].1, 2)
  {
    var v := Load(doc).value.params[k].1;
    assert ShapeOk(v);
    DepthBound(v, 0, 2);
  }

  /** A name is required after loading iff the `is_required` list names it. */
  lemma RequiredIffListed(doc: seq<(string, Json)>, block: seq<(string, Json)>, items: seq<Json>, n: string)
    requires DocUnique(doc) && Load(doc).Ok?
    requires Lookup(doc, VizContextKey) == Some(JObject(block))
    requires Lookup(block, "is_required") == Some(JArray(items))
    ensures IsRequired(Load(doc).value, n) <==> JStr(n) in items
  {
    var ctx := Load(doc).value.context;
    assert ParseContext(JObject(block)) == Ok(ctx);
    assert AllStrings(items);
    var names := Strings(items);
    if JStr(n) in items {
      var i :| 0 <= i < |items| && items[i] == JStr(n);
      assert names[i] == n;
    }
    if n in names {
      var i :| 0 <= i < |names| && names[i] == n;
      assert items[i] == JStr(n);
    }
  }

  /** The parameter type stops at the last level: a mapping nested inside a
      mapping inside a top-level mapping is rejected, even an empty one. */
  lemma {:induction false} MappingAtLastLevelRejected(doc: seq<(string, Json)>, k: nat, a: nat, b: nat)
    requires DocUnique(doc) && k < |doc| && doc[k].0 != VizContextKey
    requires doc[k].1.JObject? && a < |doc[k].1.fields|
    requires doc[k].1.fields[a].1.JObject? && b < |doc[k].1.fields[a].1.fields|
    requires doc[k].1.fields[a].1.fields[b].1.JObject?
    ensures Load(doc).Err?
  {
    LoadedEntriesAreDefinitions(doc, k);
    var inner := doc[k].1.fields[a].1;
    assert !IsParamJson(inner.fields[b].1, 2);
    assert !IsParamJson(inner, 1);
  }

  /** Every entry of a loaded document other than the extension block has the
      parameter type. */
  lemma LoadedEntriesAreDefinitions(doc: seq<(string, Json)>, k: nat)
    requires DocUnique(doc) && k < |doc| && doc[k].0 != VizContextKey
    ensures Load(doc).Ok? ==> IsParamJson(doc[k].1, 0)
  {
    var rest := Without(doc, VizContextKey);
    WithoutEntries(doc, VizContextKey);
    var j :| 0 <= j < |rest| && rest[j] == doc[k];
    if Load(doc).Ok? {
      assert ToEntries(rest, 0, 0).Ok?;
    }
  }

  /** `{"p": {"a": {"b": {}}}}` does not load. */
  lemma EmptyMappingAtLastLevelRejected()
    ensures var doc := [("p", JObject([("a", JObject([("b", JObject([]))]))]))];
      DocUnique(doc) && Load(doc).Err?
  {
    var doc := [("p", JObject([("a", JObject([("b", JObject([]))]))]))];
    assert DocUnique(doc);
    MappingAtLastLevelRejected(doc, 0, 0, 0);
  }

  /** A rule's `ask_for` after loading names exactly what its list names. */
  lemma AskForIffListed(
    doc: seq<(string, Json)>, block: seq<(string, Json)>, rules: seq<(string, Json)>, k: nat, items: seq<Json>, n: string)
    requires DocUnique(doc) && Load(doc).Ok?
    requires Lookup(doc, VizContextKey) == Some(JObject(block))
    requires Lookup(block, "if") == Some(JObject(rules))
    requires k < |rules| && rules[k].1.JObject? && Lookup(rules[k].1.fields, "ask_for") == Some(JArray(items))
    ensures var cs := Load(doc).value.context.conditions;
      k < |cs| && cs[k].0 == rules[k].0 && (n in cs[k].1.askFor <==> JStr(n) in items)
  {
    var cs := Load(doc).value.context.conditions;
    LoadedRules(doc, block, rules);
    assert Keys(cs)[k] == Keys(rules)[k];
    RuleAskForIff(rules[k].0, rules[k].1, items, n);
  }

  lemma LoadedRules(doc: seq<(string, Json)>, block: seq<(string, Json)>, rules: seq<(string, Json)>)
    requires DocUnique(doc) && Load(doc).Ok?
    requires Lookup(doc, VizContextKey) == Some(JObject(block))
    requires Lookup(block, "if") == Some(JObject(rules))
    ensures ParseRules(rules) == Ok(Load(doc).value.context.conditions)
  {
    assert ParseContext(JObject(block)) == Ok(Load(doc).value.context);
  }

  lemma RuleAskForIff(controller: string, j: Json, items: seq<Json>, n: string)
    requires ParseRule(controller, j).Ok? && Lookup(j.fields, "ask_for") == Some(JArray(items))
    ensures n in ParseRule(controller, j).value.askFor <==> JStr(n) in items
  {
    var rule := ParseRule(controller, j).value;
    if JStr(n) in items {
      var i :| 0 <= i < |items| && items[i] == JStr(n);
      assert rule.askFor[i] == n;
    }
    if n in rule.askFor {
      var i :| 0 <= i < |rule.askFor| && rule.askFor[i] == n;
      assert items[i] == JStr(n);
    }
  }

  /** `{"p": {"a": {"b": "x"}}}`, one level less, loads as a nested mapping. */
  lemma TwoLevelMappingLoads()
    ensures var doc := [("p", JObject([("a", JObject([("b", JStr("x"))]))]))];
      DocUnique(doc) && Load(doc) == Ok(Schema([("p", Dict([("a", Dict([("b", Str("x"))]))]))], EmptyContext()))
  {
    var doc := [("p", JObject([("a", JObject([("b", JStr("x"))]))]))];
    assert DocUnique(doc);
    var v := Dict([("a", Dict([("b", Str("x"))]))]);
    var inner := [("b", JStr("x"))];
    var middle := [("a", JObject(inner))];
    assert ToValue("b", JStr("x"), 2) == Ok(Str("x"));
    assert ToEntries(inner, 1, 2) == Ok([]);
    assert [("b", Str("x"))] + [] == [("b", Str("x"))];
    assert ToEntries(inner, 0, 2) == Ok([("b", Str("x"))]);
    assert ToValue("a", JObject(inner), 1) == Ok(Dict([("b", Str("x"))]));
    assert ToEntries(middle, 1, 1) == Ok([]);
    assert [("a", Dict([("b", Str("x"))]))] + [] == [("a", Dict([("b", Str("x"))]))];
    assert ToEntries(middle, 0, 1) == Ok([("a", Dict([("b", Str("x"))]))]);
    assert ToValue("p", JObject(middle), 0) == Ok(v);
    assert ToEntries(doc, 1, 0) == Ok([]);
    assert [("p", v)] + [] == [("p", v)];
    assert ToEntries(doc, 0, 0) == Ok([("p", v)]);
    assert DictDepth(v, 0) == 2;
    assert Validate([("p", v)], EmptyContext()).None?;
  }
}
