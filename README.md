# Visual Cookiecutter: schema loading and form resolution

Visual Cookiecutter presents a cookiecutter template's `cookiecutter.json` as a web form. The file may hold a reserved `_viz_context` entry with three parts:

- `is_required`: parameters the user must type in;
- `if`: rules that show a parameter only while a controlling parameter has a given value;
- `descriptions`: field descriptions.

This project models the two sequential parts that sit between the parsed file and the template engine. It proves what they promise.

- **Loading** (`core.dfy`, module `Core`). `Load` takes an already parsed document, pops the extension block and turns it into a `Context`. It types every other entry as a parameter definition: a string, a choice list, or a mapping of definitions, with mappings allowed at the top level and one level down only (the three nested `Mapping` types of core.py:54-58). It rejects the schema at the first inconsistency, in the order `_validate_consistency` checks them.
- **Form resolution** (`gui.dfy`, module `Gui`):
  - the default values;
  - seeding the session store, modelled as a `Session` class whose `InitializeState` writes into its own `store` and which seeds a nested mapping into a fresh nested session;
  - the first-match visibility rule and the order-preserving filter built from it;
  - the Jinja-template test that makes a text field read-only;
  - the completeness guard in front of baking;
  - the field label helper.
- **Ordered mappings** (`pairs.dfy`, module `Pairs`). Mappings are sequences of `(key, value)` pairs, because key order is field order. The module also holds a deduplicated list standing for a Python `set`.

Some modelling choices:

- The template engine `_render_string` is a parameter `render: string -> string`.
- A session value is text or a nested map. Equality with an `is` trigger is therefore true only for a string trigger equal to the text.
- Visibility is decided by the first rule in `if` order that names the parameter (gui.py:189-191), not by the union of all rules.

## Model

| member | source | states |
|---|---|---|
| Pairs.Without | viz_cookiecutter/core.py:74 | popping a key leaves a mapping without it, and is the identity when the key is absent |
| Pairs.WithoutEntries | viz_cookiecutter/core.py:74 | after the pop the key is gone, every kept entry comes from the mapping, and every entry with another key is kept |
| Pairs.WithoutInOrder | viz_cookiecutter/core.py:74 | popping a key keeps the remaining entries in their original order |
| Pairs.Dedup | viz_cookiecutter/core.py:34 | the set built from a name list has exactly the listed names, each once |
| Core.ToValue | viz_cookiecutter/core.py:54-58 | a definition at a nesting level is accepted iff it is a string, a list of strings, or, above the last level, a mapping of definitions one level down; a string stays itself, a list becomes a choice of the same strings, nothing at the last level is a mapping, and a definition at level `l` holds at most `2 - l` nested non-empty mappings |
| Core.ToEntries | viz_cookiecutter/core.py:54-58 | the entries of a mapping are accepted iff every value is a definition at the level of the mapping's values; keys and order are kept, each value is its converted definition, and the depth bound of every value holds |
| Core.ParseNames | viz_cookiecutter/core.py:34-39 | a name list is accepted iff it is a list of strings, and yields those strings |
| Core.ParsePrimitive | viz_cookiecutter/core.py:22-27 | an `is` value passes iff it is a string, an int or a bool, and is kept as that value; otherwise the error names the controlling parameter |
| Core.ParseRule | viz_cookiecutter/core.py:7-27 | a rule is accepted iff it is an object with an `is` that passes the primitive check and an `ask_for` list of strings (both mandatory); the trigger is the `is` value and `ask_for` holds the listed strings in list order; a bad `is` is reported against the controlling parameter |
| Core.ParseRules | viz_cookiecutter/core.py:41-42 | the `if` mapping is accepted iff every value is a well-formed rule; it keeps its controlling names in order, and each rule is the parse of its entry |
| Core.ParseDescriptions | viz_cookiecutter/core.py:44-48 | the descriptions are accepted iff every value is a string; each entry keeps its key and its text, in order |
| Core.RequiredField | viz_cookiecutter/core.py:34-39 | `is_required` is accepted iff absent or a list of strings; absent gives no names, otherwise exactly the listed names |
| Core.ConditionsField | viz_cookiecutter/core.py:41-42 | `if` is accepted iff absent or an object of well-formed rules; absent gives no rules, otherwise the rules keyed and parsed as listed |
| Core.DescriptionsField | viz_cookiecutter/core.py:44-48 | `descriptions` is accepted iff absent or an object of strings; absent gives none, otherwise each key with its text, in order |
| Core.ParseContext | viz_cookiecutter/core.py:33-48 | the block is accepted iff it is an object whose three fields are each accepted (unknown fields ignored); a non-object block is rejected; the required names hold each listed name once |
| Core.ParsedBlock | viz_cookiecutter/core.py:33-48 | a parsed block's required names are exactly the strings the `is_required` list names, each once; absent `if` and `descriptions` give none; present ones give the same keys with each rule parsed and each description's text |
| Core.DictDepth | viz_cookiecutter/core.py:140-143 | the depth is at least `level`, and above it for a non-empty mapping |
| Core.MaxDepth | viz_cookiecutter/core.py:143 | the depth of a mapping is the maximum over its entries: at least every entry's depth and equal to one of them |
| Core.DepthBound | viz_cookiecutter/core.py:140-143 | depth at most `level + n` iff no chain of more than `n` non-empty mappings nests one inside the next |
| Core.CheckShapes | viz_cookiecutter/core.py:128-137 | no error iff every mapping parameter has exactly one entry and depth 1 or 2; an error names the first offending parameter, as a size error iff its entry count is wrong |
| Core.CheckRequired | viz_cookiecutter/core.py:88-97 | no error iff every required name is a parameter and not a choice; an error names a required name that is unknown or bound to a choice |
| Core.FirstUnknown | viz_cookiecutter/core.py:100-104 | none iff every name is known; otherwise a listed name that is unknown |
| Core.CheckConditions | viz_cookiecutter/core.py:108-117 | no error iff every controlling name and every `ask_for` name is a parameter; an error names a controlling or `ask_for` name that is not one |
| Core.Validate | viz_cookiecutter/core.py:80-119 | no error iff the parameters and the extension block are consistent |
| Core.ValidateNamesCulprit | viz_cookiecutter/core.py:80-137 | every rejection names an entry at fault, of the kind the failing check reports |
| Core.IsRequired | viz_cookiecutter/core.py:65-66 | in a schema that passed validation, a required name is a declared parameter and not a choice |
| Core.ContextOf | viz_cookiecutter/core.py:72-76 | without the extension key the context is the empty one; a block that is not an object is rejected; an accepted context lists each required name once |
| Core.Load | viz_cookiecutter/core.py:68-78 | a loaded schema is well formed and never has `_viz_context` as a parameter; its context is the parsed block; its parameters are the other entries, converted as top-level definitions, in order |
| Core.NoContextKeyKeepsParameters | viz_cookiecutter/core.py:75-78 | without the extension key every entry is a parameter in the same order, and the context is empty |
| Core.LoadAccepts | viz_cookiecutter/core.py:78 | once the block and the definitions parse, loading succeeds iff they are consistent, and yields exactly them |
| Core.LoadedParamsFromDoc | viz_cookiecutter/core.py:73-78 | every loaded parameter name is a key of the document |
| Core.DocListIsChoice | viz_cookiecutter/core.py:94 | a list entry of the document becomes a choice parameter |
| Core.UnknownRequiredRejected | viz_cookiecutter/core.py:88-92 | a required name that is not a key of the document, or is `_viz_context` itself, makes loading fail |
| Core.RequiredChoiceRejected | viz_cookiecutter/core.py:94-97 | a required name bound to a list makes loading fail |
| Core.DanglingReferenceRejected | viz_cookiecutter/core.py:100-117 | a description key, controlling name or `ask_for` name that is not a key of the document, or is `_viz_context` itself, makes loading fail |
| Core.NonPrimitiveTriggerRejected | viz_cookiecutter/core.py:22-27 | a rule whose `is` is not an int, string or bool makes loading fail |
| Core.LoadedMappingsAreShallow | viz_cookiecutter/core.py:128-137 | a loaded mapping parameter has one entry and at most two levels of non-empty mappings |
| Core.RequiredIffListed | viz_cookiecutter/core.py:65-66 | after loading, `is_required(n)` holds iff the `is_required` list names `n` |
| Core.LoadedEntriesAreDefinitions | viz_cookiecutter/core.py:57-62 | every entry of a loaded document other than `_viz_context` has the parameter type at the top level |
| Core.LoadedReferencesKnown | viz_cookiecutter/core.py:99-117 | after loading, every description key, controlling name and `ask_for` name of the block is a parameter |
| Core.MappingAtLastLevelRejected | viz_cookiecutter/core.py:54-58 | a mapping inside a mapping inside a top-level mapping makes loading fail, whatever it holds |
| Core.EmptyMappingAtLastLevelRejected | viz_cookiecutter/core.py:54-58 | `{"p": {"a": {"b": {}}}}` does not load |
| Core.TwoLevelMappingLoads | viz_cookiecutter/core.py:54-58 | `{"p": {"a": {"b": "x"}}}` loads as that nested mapping with an empty extension |
| Core.AskForIffListed | viz_cookiecutter/core.py:13-15 | after loading, a rule's `ask_for` names exactly the strings its list names, and the rule stays at its position under its controlling name |
| Gui.InitializeDefaultValues | viz_cookiecutter/gui.py:218-231 | succeeds iff no choice at any depth is empty; the defaults have the same keys in the same order, with a string as itself, a choice as its first option and a mapping as its defaults |
| Gui.DefaultsUnique | viz_cookiecutter/gui.py:221-229 | defaults of a schema with unique keys have unique keys at every depth |
| Gui.Session.InitializeState | viz_cookiecutter/gui.py:46-54 | the new store is the old one seeded with the defaults; every default key is present and every other key is unchanged |
| Gui.Session.Set | viz_cookiecutter/gui.py:92-101 | writing a field changes exactly that key of the store, and leaves the visibility of every parameter that no rule controlled by that key names unchanged, for every schema |
| Gui.Seeded | viz_cookiecutter/gui.py:49-54 | seeding as written adds exactly the keys of the defaults and leaves every other key alone; with unique keys each key holds its own default's seed, with `is_required` blanking leaves at every depth |
| Gui.SeededTopLevel | viz_cookiecutter/gui.py:49-54 | the corrected seeding adds the same keys and leaves every other key alone; with unique keys each key holds its own default's seed, with `is_required` blanking top-level leaves only |
| Gui.SeedFromAll | viz_cookiecutter/gui.py:49-54 | a whole seeding pass adds exactly the keys of the defaults, leaves other keys alone and, with unique keys, puts each default's seed under its key |
| Gui.SeedFromFrame | viz_cookiecutter/gui.py:49-54 | seeding adds exactly the keys of the defaults and leaves every other key alone |
| Gui.SeedFromAt | viz_cookiecutter/gui.py:49-54 | with unique keys, each key ends up holding the value seeded from its own default |
| Gui.SeedEntryMatches | viz_cookiecutter/gui.py:50-54 | a seeded leaf is empty when its key is blanked and its default otherwise; a mapping becomes a nested map with the same keys |
| Gui.InitializedState | viz_cookiecutter/gui.py:46-54 | after seeding, every default key holds what the pointwise description says, with `is_required` choosing blank leaves at every depth; other keys are unchanged |
| Gui.IndexOf | viz_cookiecutter/gui.py:101 | `list.index` gives the first position of the value, and fails iff the value is not listed |
| Gui.TopLevelChoiceStartsAtFirstOption | viz_cookiecutter/gui.py:99-101 | for a loaded schema, a top-level choice is seeded with its first option, so the radio index is defined and is 0 |
| Gui.NestedRequiredNameBreaksRadio | viz_cookiecutter/gui.py:54 | the document `{"name": "x", "meta": {"name": ["a", "b"]}, "_viz_context": {"is_required": ["name"]}}` loads to a well-formed schema in which a nested choice key repeats a required name; it is seeded with "" below, so the radio index is undefined |
| Gui.NestedSeedStartsAtFirstOption | viz_cookiecutter/gui.py:129-131 | seeded without blanking, every choice below a mapping starts at its first option |
| Gui.CorrectedSeedStartsAtFirstOption | viz_cookiecutter/gui.py:46-54 | with the required test kept to top-level keys, every choice of a loaded schema at any depth starts at its first option |
| Gui.SeedingsAgree | viz_cookiecutter/gui.py:46-54 | the seeding as written equals the corrected one whenever no nested key repeats a required name |
| Gui.AsWrittenSeedStartsAtFirstOption | viz_cookiecutter/gui.py:46-54 | as written, every choice at any depth starts at its first option when no nested key repeats a required name |
| Gui.FirstRuleFor | viz_cookiecutter/gui.py:189-190 | the first rule in `if` order whose `ask_for` names the parameter, or none iff no rule names it |
| Gui.TriggerHolds | viz_cookiecutter/gui.py:191 | a controller value equals its trigger only when both are strings, and then iff the texts are equal; an int or bool trigger never equals a session value |
| Gui.ShouldAskFor | viz_cookiecutter/gui.py:181-193 | an undeclared name raises; a required name, or a name no rule mentions, is asked for; a hidden name is named by some rule; the only other error is a missing controller value |
| Gui.FirstMatchDecides | viz_cookiecutter/gui.py:189-191 | otherwise the answer is whether the first naming rule's controller holds its trigger |
| Gui.LaterRuleCannotReveal | viz_cookiecutter/gui.py:189-191 | a later rule that holds does not show a parameter the first naming rule hides: first match, not union |
| Gui.NonStringTriggerHides | viz_cookiecutter/gui.py:191 | an int or bool trigger on the deciding rule always hides the parameter |
| Gui.OnlyControllerMatters | viz_cookiecutter/gui.py:189-193 | writing a key that controls no rule naming the parameter leaves its visibility unchanged |
| Gui.ShouldAskForTotal | viz_cookiecutter/gui.py:181-193 | for a well-formed schema with every parameter in the store, the test never raises for a declared name |
| Gui.ParamsToAsk | viz_cookiecutter/gui.py:78-82 | the asked parameters are an order-preserving subsequence of the parameters, containing exactly those for which the test holds |
| Gui.FirstExceptionPropagates | viz_cookiecutter/gui.py:78-82 | an exception is the one raised by the first parameter whose test raises, every earlier test having returned |
| Gui.NoRulesAsksEverything | viz_cookiecutter/gui.py:78-82 | with no rules every parameter is asked for, in order |
| Gui.AllAskedKeepsAll | viz_cookiecutter/gui.py:78-82 | when every test answers yes, the filter keeps every parameter, in order |
| Gui.RenderTextInput | viz_cookiecutter/gui.py:136-153 | the field is disabled iff the default matches the template pattern; a disabled field shows the rendered default and the labelled pattern; otherwise the live value; placeholder "Required" iff required |
| Gui.IsJinjaTemplate | viz_cookiecutter/gui.py:142 | a default that matches the pattern (with `$` also matching before a final newline) contains `{{` followed by a whitespace character |
| Gui.PaddedBracesAreJinja | viz_cookiecutter/gui.py:142 | `{{ e }}` matches for every one-line expression `e` |
| Gui.ExpressionDefaultIsJinja | viz_cookiecutter/gui.py:142 | `{{ cookiecutter.project_name \| lower }}` is a template, so its field is read-only |
| Gui.UnspacedBracesAreNotJinja | viz_cookiecutter/gui.py:142 | `{{cookiecutter.x}}` does not match, so its field stays editable |
| Gui.RequiredFieldsFilled | viz_cookiecutter/gui.py:160-167 | the form is valid iff no required value is ""; one error per such name, each once, in order; a required name absent from the store raises |
| Gui.SplitCount | viz_cookiecutter/gui.py:235 | splitting on `_` yields one segment more than there are underscores |
| Gui.JoinSplit | viz_cookiecutter/gui.py:235 | joining the segments with a character puts it exactly where each separator was |
| Gui.SplitJoinRoundTrip | viz_cookiecutter/gui.py:235 | joining the segments with `_` gives the name back |
| Gui.TitleFromAt | viz_cookiecutter/gui.py:235 | `str.title` lower-cases a character after a cased one and upper-cases every other |
| Gui.JoinTitle | viz_cookiecutter/gui.py:235 | title-casing each segment and joining with spaces equals title-casing the spaced text |
| Gui.SnakeCaseToTitle | viz_cookiecutter/gui.py:234-235 | the label is as long as the name, and is the title-casing of the name with every `_` read as a space |
| Gui.SnakeCaseToTitleAt | viz_cookiecutter/gui.py:234-235 | same length; `_` becomes a space, and at a position where the name has no space the label has a space iff the name has `_`; a letter is upper-case at the start of a word and lower-case inside one |
| Gui.FieldLabel | viz_cookiecutter/gui.py:85-87 | the label starts with the titled name and is exactly that unless a non-empty description follows it after " - " |

## Left out

- `viz_cookiecutter/cli.py` is not part of this model. It only starts the Streamlit process.
- `_initialize_context` (gui.py:196-215) is left out. It resolves the repository, reads the user configuration, opens the file and caches the result; all of that is I/O and foreign calls. The model starts from a parsed document.
- `json.load` is left out. `Core.Load` takes the entries of the top-level JSON object, a `seq<(string, Json)>` without floating-point numbers whose objects have unique keys (`Core.DocUnique`), as a decoded JSON object is a dict.
- A top level that is not a JSON object is not modelled. There `.pop` at core.py:74 raises an `AttributeError`, or a `TypeError` for a list, which the `except KeyError` does not catch.
- pydantic's type coercion is not modelled. It turns numbers into strings in definitions and descriptions and accepts more shapes for `is_required`. The model rejects such values.
- Core.ParseContext: pydantic v1's `parse_obj` first passes a block that is not a dict through `dict()`. So `"_viz_context": []` loads with an empty context, and a list of key-value pairs loads as that object. The model rejects every non-object block with `ContextShape`.
- Floats as `is` values are not modelled. Their comparison is floating point.
- Error message text is left out. Only which check fails is modelled.
- Core.Validate: the description message at core.py:103 interpolates `req_param_name` instead of `desc_param`. With a non-empty `is_required` it names the wrong parameter. With an empty one the variable is unbound, so an `UnboundLocalError` escapes instead of a validation error, since pydantic wraps only `ValueError`, `TypeError` and `AssertionError`. Loading fails in both cases, which the model's `UnknownDescription` error captures; the exception type is not modelled.
- `__hash__` and the frozen/immutable configuration (core.py:29-30, 50-51, 121-125) are left out. Values of the model are immutable anyway.
- The set order of `is_required` is not modelled: it is a duplicate-free list in first-occurrence order. Python iterates the set in hash order. Only the order of the bake errors and which offending name is reported first differ.
- Core.ParseRule: `ask_for` is a `set[str]` (core.py:15) but is kept as the raw list, in list order and with any repetitions. Membership is the same (`Core.AskForIffListed`). `Core.CheckConditions` reports the first unknown `ask_for` name in list order, where Python reports one in set order.
- `_render_string` and the Jinja environment (gui.py:12-17) are left out. The rendered text is the uninterpreted `render` parameter of `Gui.RenderTextInput`.
- Streamlit widgets, layout, the context panel and rerun (gui.py:57-73, 103-104, 113-120, 150-153) are left out. This includes the bodies of `_render_mapping` and the per-field assignment loop (gui.py:84-101) beyond the radio index and `Gui.Session.Set`.
- The `cookiecutter(...)` call and its exception handling (gui.py:169-178) are left out. Only the guard in front of it is modelled.
- `st.cache_data` on `_initialize_default_values` and its `copy.deepcopy` are left out. The model's values are never shared.
- Gui.Title: only ASCII letters are cased. Unicode title-casing is not modelled.
- Gui.IsSpace: the whitespace set of `\s` is the one of Python's `str.isspace`. It is written out by code point with no Unicode database.

## Findings

| source | as written | input that shows it | evidently intended | confidence | as-written member | corrected member |
|---|---|---|---|---|---|---|
| viz_cookiecutter/gui.py:54 | `is_required(key)` is tested on the bare key at every depth of the defaults | parameters `name: "x"` and `meta: {name: ["a", "b"]}`, with `is_required: ["name"]`: `meta.name` is seeded with "" and `.index("")` at gui.py:131 raises `ValueError` | only top-level parameters are blanked, as `is_required` names top-level parameters (core.py:88-92) | medium; not executed | Gui.NestedRequiredNameBreaksRadio | Gui.CorrectedSeedStartsAtFirstOption |

`Gui.Session.InitializeState` keeps the behaviour as written. `Gui.SeedingsAgree` shows that the two seedings coincide unless a nested key repeats a required name. So every property proved about the seeding holds for both outside that case.
