/** Form resolution for a loaded schema: default values, seeding the session
    store, which parameters are asked for, how a text field is shown, whether
    baking may be attempted, and the field labels. */
module Gui {
  import opened Pairs
  import opened Core

  /** A default value: the text a field starts with, or a nested mapping. */
  datatype Default = DText(text: string) | DGroup(fields: seq<(string, Default)>)

  /** A value in the session store: text (also a chosen option) or a nested mapping. */
  datatype SessionValue = SText(text: string) | SGroup(fields: map<string, SessionValue>)

  /** What the form code can raise: an undeclared parameter name
      (`_should_ask_for`), or a session key that is not set (`KeyError`). */
  datatype FormError = UnknownParameter(name: string) | MissingState(name: string)

  datatype Outcome<T> = Returns(value: T) | Raises(error: FormError)

  // ---------------------------------------------------------------------
  // Default values (`_initialize_default_values`)

  /** `d` is the default of definition `v`: a text is its own default, a choice
      defaults to its first option, a mapping to the mapping of its defaults. */
  ghost predicate DefaultFor(v: Value, d: Default)
    decreases v, 1
  {
    match v
    case Str(t) => d == DText(t)
    case Choice(o) => |o| > 0 && d == DText(o[0])
    case Dict(es) => d.DGroup? && DefaultsFor(es, d.fields)
  }

  /** Same keys in the same order, each bound to the default of its definition. */
  ghost predicate DefaultsFor(es: seq<(string, Value)>, ds: seq<(string, Default)>)
    decreases Dict(es), 0
  {
    |ds| == |es| && forall i :: 0 <= i < |es| ==> ds[i].0 == es[i].0 && DefaultFor(es[i].1, ds[i].1)
  }

  /** Every choice list, at any depth, has a first option. */
  ghost predicate ChoicesNonEmpty(v: Value)
    decreases v
  {
    match v
    case Choice(o) => |o| > 0
    case Dict(es) => forall i :: 0 <= i < |es| ==> ChoicesNonEmpty(es[i].1)
    case Str(_) => true
  }

  /** `_initialize_default_values`. `None` stands for the `IndexError` raised
      by `param_def_value[0]` on an empty choice list. */
  method InitializeDefaultValues(params: seq<(string, Value)>) returns (r: Option<seq<(string, Default)>>)
    decreases Dict(params)
    ensures r.Some? <==> forall i :: 0 <= i < |params| ==> ChoicesNonEmpty(params[i].1)
    ensures r.Some? ==> DefaultsFor(params, r.value)
  {
    var out: seq<(string, Default)> := [];
    var i := 0;
    while i < |params|
      invariant 0 <= i <= |params|
      invariant |out| == i
      invariant forall k :: 0 <= k < i ==> out[k].0 == params[k].0 && DefaultFor(params[k].1, out[k].1)
      invariant forall k :: 0 <= k < i ==> ChoicesNonEmpty(params[k].1)
    {
      var name := params[i].0;
      match params[i].1 {
        case Str(t) =>
          out := out + [(name, DText(t))];
        case Dict(inner) =>
          var sub := InitializeDefaultValues(inner);
          if sub.None? {
            return None;
          }
          out := out + [(name, DGroup(sub.value))];
        case Choice(o) =>
          if |o| == 0 {
            return None;
          }
          out := out + [(name, DText(o[0]))];
      }
      i := i + 1;
    }
    return Some(out);
  }

  // ---------------------------------------------------------------------
  // Seeding the session store (`_initialize_state`)

  /** The value seeded under `key` for default `d`: a leaf whose key is in
      `blank` gets the empty string, and a mapping is seeded with `below` at
      every level under it. `_initialize_state` passes `is_required` for both
      (see `Seeded`). */
  function SeedEntry(key: string, d: Default, blank: seq<string>, below: seq<string>): SessionValue
    decreases d, 1
  {
    match d
    case DText(t) => SText(if key in blank then "" else t)
    case DGroup(fs) => SGroup(SeedFrom(map[], fs, 0, below, below))
  }

  /** The store after writing the entries `ds[i..]` into `state`, in order. */
  function SeedFrom(state: map<string, SessionValue>, ds: seq<(string, Default)>, i: nat,
                    blank: seq<string>, below: seq<string>): map<string, SessionValue>
    requires i <= |ds|
    decreases DGroup(ds), 0, |ds| - i
  {
    if i == |ds| then state
    else SeedFrom(state[ds[i].0 := SeedEntry(ds[i].0, ds[i].1, blank, below)], ds, i + 1, blank, below)
  }

  /** `_initialize_state` as written: every key of the defaults is added and
      holds its own default's seed, with `is_required(key)` asked at every
      depth; other keys are unchanged. */
  function Seeded(s: Schema, state: map<string, SessionValue>, ds: seq<(string, Default)>): (r: map<string, SessionValue>)
    ensures forall k :: k in r <==> k in state || k in Keys(ds)
    ensures forall k :: k in state && k !in Keys(ds) ==> r[k] == state[k]
    ensures UniqueKeys(ds) ==> forall j :: 0 <= j < |ds| ==>
      ds[j].0 in r && r[ds[j].0] == SeedEntry(ds[j].0, ds[j].1, s.context.isRequired, s.context.isRequired)
  {
    SeedFromAll(state, ds, s.context.isRequired, s.context.isRequired);
    SeedFrom(state, ds, 0, s.context.isRequired, s.context.isRequired)
  }

  /** The session store, a mutable mapping owned by one form-filling interaction. */
  class Session {
    var store: map<string, SessionValue>

    constructor ()
      ensures store == map[]
    {
      store := map[];
    }

    /** `_initialize_state(viz_cookie, default_values, state)` with `state` this
        session: a nested mapping is seeded into a fresh nested session. */
    method InitializeState(s: Schema, defaults: seq<(string, Default)>)
      modifies this
      decreases DGroup(defaults)
      ensures store == Seeded(s, old(store), defaults)
      ensures forall k :: k in Keys(defaults) ==> k in store
      ensures forall k :: k in old(store) && k !in Keys(defaults) ==> k in store && store[k] == old(store)[k]
    {
      ghost var before := store;
      ghost var req := s.context.isRequired;
      var i := 0;
      while i < |defaults|
        invariant 0 <= i <= |defaults|
        invariant SeedFrom(store, defaults, i, req, req) == SeedFrom(before, defaults, 0, req, req)
      {
        var key := defaults[i].0;
        match defaults[i].1 {
          case DGroup(fs) =>
            var nested := new Session();
            nested.InitializeState(s, fs);
            store := store[key := SGroup(nested.store)];
          case DText(t) =>
            store := store[key := SText(if IsRequired(s, key) then "" else t)];
        }
        i := i + 1;
      }
      SeedFromFrame(before, defaults, 0, req, req);
    }

    /** A widget writing a new value back (`st.session_state[name] = ...`). */
    method Set(key: string, v: SessionValue)
      modifies this
      ensures store == old(store)[key := v]
      ensures forall s: Schema, name: string :: NotControlledBy(s, name, key) ==>
        ShouldAskFor(s, store, name) == ShouldAskFor(s, old(store), name)
    {
      var before := store;
      store := store[key := v];
      forall s: Schema, name: string | NotControlledBy(s, name, key)
        ensures ShouldAskFor(s, store, name) == ShouldAskFor(s, before, name)
      {
        OnlyControllerMatters(s, before, name, key, v);
      }
    }
  }

  /** Seeding adds exactly the keys of the defaults and leaves every other key alone. */
  lemma {:induction false} SeedFromFrame(state: map<string, SessionValue>, ds: seq<(string, Default)>, i: nat,
                                         blank: seq<string>, below: seq<string>)
    requires i <= |ds|
    decreases |ds| - i
    ensures forall j :: i <= j < |ds| ==> ds[j].0 in SeedFrom(state, ds, i, blank, below)
    ensures forall k :: k in SeedFrom(state, ds, i, blank, below) <==> k in state || k in Keys(ds[i..])
    ensures forall k :: k in state && k !in Keys(ds[i..]) ==> SeedFrom(state, ds, i, blank, below)[k] == state[k]
  {
    if i < |ds| {
      var next := state[ds[i].0 := SeedEntry(ds[i].0, ds[i].1, blank, below)];
      SeedFromFrame(next, ds, i + 1, blank, below);
      assert SeedFrom(state, ds, i, blank, below) == SeedFrom(next, ds, i + 1, blank, below);
      assert Keys(ds[i..]) == [ds[i].0] + Keys(ds[i + 1..]) by {
        assert ds[i..] == [ds[i]] + ds[i + 1..];
      }
    }
  }

  /** With unique keys, each key ends up holding the value seeded from its own default. */
  lemma {:induction false} SeedFromAt(state: map<string, SessionValue>, ds: seq<(string, Default)>, i: nat,
                                      blank: seq<string>, below: seq<string>, j: nat)
    requires UniqueKeys(ds) && i <= j < |ds|
    decreases |ds| - i
    ensures ds[j].0 in SeedFrom(state, ds, i, blank, below)
    ensures SeedFrom(state, ds, i, blank, below)[ds[j].0] == SeedEntry(ds[j].0, ds[j].1, blank, below)
  {
    SeedFromFrame(state, ds, i, blank, below);
    var next := state[ds[i].0 := SeedEntry(ds[i].0, ds[i].1, blank, below)];
    if i < j {
      SeedFromAt(next, ds, i + 1, blank, below, j);
    } else {
      SeedFromFrame(next, ds, i + 1, blank, below);
      KeyNotInSuffix(ds, i + 1, ds[j].0);
    }
  }

  /** The whole of a seeding pass: its keys, what it leaves alone and, with
      unique keys, what each key holds. */
  lemma SeedFromAll(state: map<string, SessionValue>, ds: seq<(string, Default)>, blank: seq<string>, below: seq<string>)
    ensures forall k :: k in SeedFrom(state, ds, 0, blank, below) <==> k in state || k in Keys(ds)
    ensures forall k :: k in state && k !in Keys(ds) ==> SeedFrom(state, ds, 0, blank, below)[k] == state[k]
    ensures UniqueKeys(ds) ==> forall j :: 0 <= j < |ds| ==>
      ds[j].0 in SeedFrom(state, ds, 0, blank, below) &&
      SeedFrom(state, ds, 0, blank, below)[ds[j].0] == SeedEntry(ds[j].0, ds[j].1, blank, below)
  {
    SeedFromFrame(state, ds, 0, blank, below);
    assert ds[0..] == ds;
    if UniqueKeys(ds) {
      forall j | 0 <= j < |ds|
        ensures ds[j].0 in SeedFrom(state, ds, 0, blank, below) &&
                SeedFrom(state, ds, 0, blank, below)[ds[j].0] == SeedEntry(ds[j].0, ds[j].1, blank, below)
      {
        SeedFromAt(state, ds, 0, blank, below, j);
      }
    }
  }

  lemma KeyNotInSuffix<V>(es: seq<(string, V)>, i: nat, k: string)
    requires i <= |es| && forall m :: i <= m < |es| ==> es[m].0 != k
    ensures k !in Keys(es[i..])
  {
    forall m | 0 <= m < |es| - i ensures Keys(es[i..])[m] != k {
      assert es[i..][m] == es[i + m];
    }
  }

  /** Unique keys at every depth of a default mapping. */
  ghost predicate DefaultUnique(d: Default)
    decreases d
  {
    match d
    case DGroup(fs) => UniqueKeys(fs) && forall i :: 0 <= i < |fs| ==> DefaultUnique(fs[i].1)
    case DText(_) => true
  }

  /** What the session holds for `key` after seeding, stated pointwise: a
      leaf is the empty string when `key` is blanked and its default
      otherwise; a mapping becomes a nested map with the same keys. */
  ghost predicate SeedMatches(key: string, d: Default, sv: SessionValue, blank: seq<string>, below: seq<string>)
    decreases d
  {
    match d
    case DText(t) => sv == SText(if key in blank then "" else t)
    case DGroup(fs) =>
      && sv.SGroup?
      && (forall k :: k in sv.fields <==> k in Keys(fs))
      && forall i :: 0 <= i < |fs| ==>
           fs[i].0 in sv.fields && SeedMatches(fs[i].0, fs[i].1, sv.fields[fs[i].0], below, below)
  }

  lemma {:induction false} SeedEntryMatches(key: string, d: Default, blank: seq<string>, below: seq<string>)
    requires DefaultUnique(d)
    decreases d
    ensures SeedMatches(key, d, SeedEntry(key, d, blank, below), blank, below)
  {
    match d
    case DText(_) =>
    case DGroup(fs) =>
      SeedFromFrame(map[], fs, 0, below, below);
      assert fs[0..] == fs;
      forall i | 0 <= i < |fs|
        ensures SeedMatches(fs[i].0, fs[i].1, SeedFrom(map[], fs, 0, below, below)[fs[i].0], below, below)
      {
        SeedFromAt(map[], fs, 0, below, below, i);
        SeedEntryMatches(fs[i].0, fs[i].1, below, below);
      }
  }

  /** After `_initialize_state`, every key of the defaults is in the store and
      holds what `SeedMatches` describes, with `is_required` deciding which
      leaves are blank; other keys are unchanged. */
  lemma InitializedState(s: Schema, state: map<string, SessionValue>, ds: seq<(string, Default)>)
    requires DefaultUnique(DGroup(ds))
    ensures forall i :: 0 <= i < |ds| ==>
      && ds[i].0 in Seeded(s, state, ds)
      && SeedMatches(ds[i].0, ds[i].1, Seeded(s, state, ds)[ds[i].0], s.context.isRequired, s.context.isRequired)
    ensures forall k :: k in state && k !in Keys(ds) ==> k in Seeded(s, state, ds) && Seeded(s, state, ds)[k] == state[k]
  {
    var req := s.context.isRequired;
    SeedFromFrame(state, ds, 0, req, req);
    assert ds[0..] == ds;
    forall i | 0 <= i < |ds| ensures SeedMatches(ds[i].0, ds[i].1, Seeded(s, state, ds)[ds[i].0], req, req) {
      SeedFromAt(state, ds, 0, req, req, i);
      SeedEntryMatches(ds[i].0, ds[i].1, req, req);
    }
  }

  /** The defaults of a loaded schema keep its unique keys. */
  lemma {:induction false} DefaultsUnique(es: seq<(string, Value)>, ds: seq<(string, Default)>)
    requires ParamsUnique(es) && DefaultsFor(es, ds)
    decreases Dict(es), 0
    ensures DefaultUnique(DGroup(ds))
  {
    forall i | 0 <= i < |ds| ensures DefaultUnique(ds[i].1) {
      if es[i].1.Dict? {
        DefaultsUnique(es[i].1.entries, ds[i].1.fields);
      }
    }
    forall a, b | 0 <= a < b < |ds| ensures ds[a].0 != ds[b].0 {
      assert es[a].0 != es[b].0;
    }
  }

  // ---------------------------------------------------------------------
  // The radio widget's starting index (`param_def_value.index(state[name])`)

  /** Python's `list.index`: the first position of `x`, `None` for `ValueError`. */
  function IndexOf(xs: seq<string>, x: string): (r: Option<nat>)
    ensures r.None? <==> x !in xs
    ensures r.Some? ==> r.value < |xs| && xs[r.value] == x && forall j :: 0 <= j < r.value ==> xs[j] != x
  {
    if xs == [] then None
    else if xs[0] == x then Some(0)
    else match IndexOf(xs[1..], x)
      case None => None
      case Some(k) => Some(k + 1)
  }

  /** The index handed to `st.radio` for the session value `v`. */
  function RadioIndex(options: seq<string>, v: SessionValue): Option<nat>
  {
    if v.SText? then IndexOf(options, v.text) else None
  }

  /** A top-level choice starts at its first option: a required choice is
      rejected at load, so its seeded value is its default `options[0]`. */
  lemma TopLevelChoiceStartsAtFirstOption(s: Schema, ds: seq<(string, Default)>, state: map<string, SessionValue>, k: nat)
    requires WellFormed(s) && DefaultsFor(s.params, ds)
    requires k < |s.params| && s.params[k].1.Choice?
    ensures s.params[k].0 in Seeded(s, state, ds)
    ensures RadioIndex(s.params[k].1.options, Seeded(s, state, ds)[s.params[k].0]) == Some(0)
  {
    var name := s.params[k].0;
    var o := s.params[k].1.options;
    LookupAt(s.params, k);
    assert !IsRequired(s, name) by {
      assert IsChoiceParam(s.params, name);
    }
    DefaultsUnique(s.params, ds);
    assert ds[k] == (name, DText(o[0]));
    SeedFromAt(state, ds, 0, s.context.isRequired, s.context.isRequired, k);
  }

  /** Every choice, at any depth under `v`, starts at its first option when
      the session holds `sv` for it. */
  ghost predicate StartsAtFirstOption(v: Value, sv: SessionValue)
    decreases v
  {
    match v
    case Choice(o) => RadioIndex(o, sv) == Some(0)
    case Dict(es) =>
      && sv.SGroup?
      && forall i :: 0 <= i < |es| ==> es[i].0 in sv.fields && StartsAtFirstOption(es[i].1, sv.fields[es[i].0])
    case Str(_) => true
  }

  /** `{"name": "x", "meta": {"name": ["a", "b"]}, "_viz_context": {"is_required": ["name"]}}`:
      a nested key repeats a required top-level name. */
  const CollidingDoc: seq<(string, Json)> :=
    [("name", JStr("x")),
     ("meta", JObject([("name", JArray([JStr("a"), JStr("b")]))])),
     (VizContextKey, JObject([("is_required", JArray([JStr("name")]))]))]

  /** What `CollidingDoc` loads to. */
  const CollidingSchema: Schema :=
    Schema([("name", Str("x")), ("meta", Dict([("name", Choice(["a", "b"]))]))], Context(["name"], [], []))

  /** The defaults `_initialize_default_values` builds for `CollidingSchema`. */
  const CollidingDefaults: seq<(string, Default)> :=
    [("name", DText("x")), ("meta", DGroup([("name", DText("a"))]))]

  /** A loadable schema whose nested key repeats a required top-level name:
      as written, seeding blanks the nested choice too, so `.index("")` in
      `_render_mapping` raises `ValueError`. */
  lemma NestedRequiredNameBreaksRadio()
    ensures DocUnique(CollidingDoc) && Load(CollidingDoc) == Ok(CollidingSchema)
    ensures WellFormed(CollidingSchema)
    ensures DefaultsFor(CollidingSchema.params, CollidingDefaults)
    ensures Seeded(CollidingSchema, map[], CollidingDefaults)["meta"] == SGroup(map["name" := SText("")])
    ensures RadioIndex(["a", "b"], SText("")) == None
    ensures !StartsAtFirstOption(CollidingSchema.params[1].1, Seeded(CollidingSchema, map[], CollidingDefaults)["meta"])
  {
    CollidingDocLoads();
    CollidingSchemaWellFormed();
    CollidingSchemaSeedsBlank();
    CollidingRadioFails();
  }

  lemma CollidingRadioFails()
    ensures RadioIndex(["a", "b"], SText("")) == None
    ensures !StartsAtFirstOption(CollidingSchema.params[1].1, Seeded(CollidingSchema, map[], CollidingDefaults)["meta"])
  {
    CollidingSchemaSeedsBlank();
  }

  lemma CollidingContext()
    ensures DocUnique(CollidingDoc) && ContextOf(CollidingDoc) == Ok(CollidingSchema.context)
  {
    var block := [("is_required", JArray([JStr("name")]))];
    assert DocUnique(CollidingDoc) by {
      assert Keys(CollidingDoc) == ["name", "meta", VizContextKey];
    }
    assert Lookup(CollidingDoc, VizContextKey) == Some(JObject(block));
    CollidingBlock();
  }

  lemma CollidingBlock()
    ensures ParseContext(JObject([("is_required", JArray([JStr("name")]))])) == Ok(CollidingSchema.context)
  {
    var block := [("is_required", JArray([JStr("name")]))];
    CollidingRequired();
    assert Lookup(block, "if") == None;
    assert Lookup(block, "descriptions") == None;
    assert Dedup(["name"]) == ["name"] by {
      assert ["name"][..0] == [];
    }
  }

  lemma CollidingRequired()
    ensures RequiredField([("is_required", JArray([JStr("name")]))]) == Ok(["name"])
  {
    var block := [("is_required", JArray([JStr("name")]))];
    assert Lookup(block, "is_required") == Some(JArray([JStr("name")]));
    assert Strings([JStr("name")]) == ["name"];
  }

  lemma CollidingRest()
    ensures Without(CollidingDoc, VizContextKey) == CollidingDoc[..2]
  {
    var doc := CollidingDoc;
    assert Without(doc[2..], VizContextKey) == [] by {
      assert doc[2..][1..] == [];
    }
    assert Without(doc[1..], VizContextKey) == [doc[1]] by {
      assert doc[1..][1..] == doc[2..];
    }
  }

  lemma CollidingParams()
    ensures ToEntries(CollidingDoc[..2], 0, 0) == Ok(CollidingSchema.params)
  {
    var meta := [("name", JArray([JStr("a"), JStr("b")]))];
    var rest := CollidingDoc[..2];
    var nested := Dict([("name", Choice(["a", "b"]))]);
    assert rest == [("name", JStr("x")), ("meta", JObject(meta))];
    assert Strings([JStr("a"), JStr("b")]) == ["a", "b"];
    assert ToValue("name", JArray([JStr("a"), JStr("b")]), 1) == Ok(Choice(["a", "b"]));
    assert ToEntries(meta, 1, 1) == Ok([]);
    assert [("name", Choice(["a", "b"]))] + [] == [("name", Choice(["a", "b"]))];
    assert ToEntries(meta, 0, 1) == Ok([("name", Choice(["a", "b"]))]);
    assert ToValue("meta", JObject(meta), 0) == Ok(nested);
    assert ToEntries(rest, 2, 0) == Ok([]);
    assert [("meta", nested)] + [] == [("meta", nested)];
    assert ToEntries(rest, 1, 0) == Ok([("meta", nested)]);
    assert ToValue("name", JStr("x"), 0) == Ok(Str("x"));
    assert [("name", Str("x"))] + [("meta", nested)] == CollidingSchema.params;
  }

  lemma CollidingDocLoads()
    ensures DocUnique(CollidingDoc) && Load(CollidingDoc) == Ok(CollidingSchema)
  {
    CollidingContext();
    CollidingRest();
    CollidingParams();
    CollidingSchemaWellFormed();
    assert Validate(CollidingSchema.params, CollidingSchema.context).None?;
  }

  lemma CollidingSchemaWellFormed()
    ensures WellFormed(CollidingSchema)
  {
    var s := CollidingSchema;
    assert Keys(s.params) == ["name", "meta"];
    assert Lookup(s.params, "name") == Some(Str("x"));
    assert DictDepth(s.params[1].1, 0) == 1 by {
      assert DictDepth(Choice(["a", "b"]), 1) == 1;
    }
  }

  lemma CollidingSchemaSeedsBlank()
    ensures DefaultsFor(CollidingSchema.params, CollidingDefaults)
    ensures Seeded(CollidingSchema, map[], CollidingDefaults)["meta"] == SGroup(map["name" := SText("")])
  {
    assert SeedFrom(map[], [("name", DText("a"))], 0, ["name"], ["name"]) == map["name" := SText("")];
  }

  /** Seeding in which only top-level keys are looked up in `is_required`:
      the same keys are added, but a nested leaf keeps its default. */
  function SeededTopLevel(s: Schema, state: map<string, SessionValue>, ds: seq<(string, Default)>): (r: map<string, SessionValue>)
    ensures forall k :: k in r <==> k in state || k in Keys(ds)
    ensures forall k :: k in state && k !in Keys(ds) ==> r[k] == state[k]
    ensures UniqueKeys(ds) ==> forall j :: 0 <= j < |ds| ==>
      ds[j].0 in r && r[ds[j].0] == SeedEntry(ds[j].0, ds[j].1, s.context.isRequired, [])
  {
    SeedFromAll(state, ds, s.context.isRequired, []);
    SeedFrom(state, ds, 0, s.context.isRequired, [])
  }

  lemma {:induction false} NestedSeedStartsAtFirstOption(key: string, v: Value, d: Default)
    requires DefaultFor(v, d) && ValueUnique(v)
    decreases v
    ensures StartsAtFirstOption(v, SeedEntry(key, d, [], []))
  {
    match v
    case Str(_) =>
    case Choice(o) =>
    case Dict(es) =>
      var fs := d.fields;
      assert UniqueKeys(fs) by {
        forall a, b | 0 <= a < b < |fs| ensures fs[a].0 != fs[b].0 {
          assert es[a].0 != es[b].0;
        }
      }
      forall i | 0 <= i < |es|
        ensures es[i].0 in SeedFrom(map[], fs, 0, [], [])
        ensures StartsAtFirstOption(es[i].1, SeedFrom(map[], fs, 0, [], [])[es[i].0])
      {
        SeedFromAt(map[], fs, 0, [], [], i);
        NestedSeedStartsAtFirstOption(fs[i].0, es[i].1, fs[i].1);
      }
  }

  /** With the required test kept to the top level, every choice of a loaded
      schema, at any depth, starts at its first option. */
  lemma CorrectedSeedStartsAtFirstOption(s: Schema, ds: seq<(string, Default)>, state: map<string, SessionValue>)
    requires WellFormed(s) && DefaultsFor(s.params, ds)
    ensures forall k :: 0 <= k < |s.params| ==>
      && s.params[k].0 in SeededTopLevel(s, state, ds)
      && StartsAtFirstOption(s.params[k].1, SeededTopLevel(s, state, ds)[s.params[k].0])
  {
    DefaultsUnique(s.params, ds);
    var req := s.context.isRequired;
    forall k | 0 <= k < |s.params|
      ensures s.params[k].0 in SeededTopLevel(s, state, ds)
      ensures StartsAtFirstOption(s.params[k].1, SeededTopLevel(s, state, ds)[s.params[k].0])
    {
      var name := s.params[k].0;
      SeedFromAt(state, ds, 0, req, [], k);
      match s.params[k].1
      case Str(_) =>
      case Choice(o) =>
        LookupAt(s.params, k);
        assert IsChoiceParam(s.params, name);
      case Dict(es) =>
        NestedSeedStartsAtFirstOption(name, s.params[k].1, ds[k].1);
    }
  }

  /** No key below the top level of `d` is one of `names`. */
  ghost predicate NestedKeysAvoid(d: Default, names: seq<string>)
    decreases d
  {
    match d
    case DText(_) => true
    case DGroup(fs) => forall i :: 0 <= i < |fs| ==> fs[i].0 !in names && NestedKeysAvoid(fs[i].1, names)
  }

  lemma {:induction false} NestedSeedsAgree(state: map<string, SessionValue>, fs: seq<(string, Default)>, i: nat, names: seq<string>)
    requires i <= |fs|
    requires forall j :: i <= j < |fs| ==> fs[j].0 !in names && NestedKeysAvoid(fs[j].1, names)
    decreases DGroup(fs), |fs| - i
    ensures SeedFrom(state, fs, i, names, names) == SeedFrom(state, fs, i, [], [])
  {
    if i < |fs| {
      if fs[i].1.DGroup? {
        NestedSeedsAgree(map[], fs[i].1.fields, 0, names);
      }
      NestedSeedsAgree(state[fs[i].0 := SeedEntry(fs[i].0, fs[i].1, [], [])], fs, i + 1, names);
    }
  }

  lemma {:induction false} TopSeedsAgree(state: map<string, SessionValue>, ds: seq<(string, Default)>, i: nat, names: seq<string>)
    requires i <= |ds|
    requires forall j :: i <= j < |ds| ==> NestedKeysAvoid(ds[j].1, names)
    decreases |ds| - i
    ensures SeedFrom(state, ds, i, names, names) == SeedFrom(state, ds, i, names, [])
  {
    if i < |ds| {
      if ds[i].1.DGroup? {
        NestedSeedsAgree(map[], ds[i].1.fields, 0, names);
      }
      TopSeedsAgree(state[ds[i].0 := SeedEntry(ds[i].0, ds[i].1, names, [])], ds, i + 1, names);
    }
  }

  /** The seeding as written and the corrected one differ only when a nested
      key repeats a required name. */
  lemma SeedingsAgree(s: Schema, state: map<string, SessionValue>, ds: seq<(string, Default)>)
    requires forall j :: 0 <= j < |ds| ==> NestedKeysAvoid(ds[j].1, s.context.isRequired)
    ensures Seeded(s, state, ds) == SeededTopLevel(s, state, ds)
  {
    TopSeedsAgree(state, ds, 0, s.context.isRequired);
  }

  /** As written, every choice at any depth starts at its first option as long
      as no nested key repeats a required name. */
  lemma AsWrittenSeedStartsAtFirstOption(s: Schema, ds: seq<(string, Default)>, state: map<string, SessionValue>)
    requires WellFormed(s) && DefaultsFor(s.params, ds)
    requires forall j :: 0 <= j < |ds| ==> NestedKeysAvoid(ds[j].1, s.context.isRequired)
    ensures forall k :: 0 <= k < |s.params| ==>
      && s.params[k].0 in Seeded(s, state, ds)
      && StartsAtFirstOption(s.params[k].1, Seeded(s, state, ds)[s.params[k].0])
  {
    SeedingsAgree(s, state, ds);
    CorrectedSeedStartsAtFirstOption(s, ds, state);
  }

  // ---------------------------------------------------------------------
  // Visibility (`_should_ask_for`)

  /** The index of the first rule, in `if` order, whose `ask_for` names `name`. */
  function FirstRuleFor(cs: seq<(string, Rule)>, name: string, i: nat): (r: Option<nat>)
    requires i <= |cs|
    decreases |cs| - i
    ensures r.None? <==> forall j :: i <= j < |cs| ==> name !in cs[j].1.askFor
    ensures r.Some? ==> i <= r.value < |cs| && name in cs[r.value].1.askFor
    ensures r.Some? ==> forall j :: i <= j < r.value ==> name !in cs[j].1.askFor
  {
    if i == |cs| then None
    else if name in cs[i].1.askFor then Some(i)
    else FirstRuleFor(cs, name, i + 1)
  }

  /** `st.session_state[param] == cond.is_`: a session value is a string or a
      mapping, so only a string trigger can be equal to it. */
  function TriggerHolds(v: SessionValue, t: Primitive): (r: bool)
    ensures r ==> v.SText? && t.PStr?
    ensures v.SText? && t.PStr? ==> (r <==> v.text == t.s)
  {
    v.SText? && t.PStr? && v.text == t.s
  }

  /** `_should_ask_for`: required names are always asked; otherwise the first
      rule naming the parameter decides; a parameter no rule names is asked. */
  function ShouldAskFor(s: Schema, state: map<string, SessionValue>, name: string): (r: Outcome<bool>)
    ensures name !in Keys(s.params) ==> r == Raises(UnknownParameter(name))
    ensures name in Keys(s.params) && IsRequired(s, name) ==> r == Returns(true)
    ensures name in Keys(s.params) && (forall j :: 0 <= j < |s.context.conditions| ==> name !in s.context.conditions[j].1.askFor)
      ==> r == Returns(true)
    ensures r.Returns? && !r.value ==>
      exists j :: 0 <= j < |s.context.conditions| && name in s.context.conditions[j].1.askFor
    ensures r == Raises(UnknownParameter(name)) || r.Returns? ||
      exists j :: 0 <= j < |s.context.conditions| && r == Raises(MissingState(s.context.conditions[j].0))
  {
    if name !in Keys(s.params) then Raises(UnknownParameter(name))
    else if IsRequired(s, name) then Returns(true)
    else match FirstRuleFor(s.context.conditions, name, 0)
      case None => Returns(true)
      case Some(j) =>
        var controller := s.context.conditions[j].0;
        if controller in state then Returns(TriggerHolds(state[controller], s.context.conditions[j].1.trigger))
        else Raises(MissingState(controller))
  }

  /** The first rule naming a parameter decides, whatever later rules say. */
  lemma FirstMatchDecides(s: Schema, state: map<string, SessionValue>, name: string, j: nat)
    requires name in Keys(s.params) && !IsRequired(s, name)
    requires j < |s.context.conditions| && name in s.context.conditions[j].1.askFor
    requires forall i :: 0 <= i < j ==> name !in s.context.conditions[i].1.askFor
    requires s.context.conditions[j].0 in state
    ensures ShouldAskFor(s, state, name) ==
      Returns(TriggerHolds(state[s.context.conditions[j].0], s.context.conditions[j].1.trigger))
  {
    assert FirstRuleFor(s.context.conditions, name, 0) == Some(j);
  }

  /** Visibility is first-match, not the union of the rules: a later rule
      that holds does not show a parameter the first rule hides. */
  lemma {:induction false} LaterRuleCannotReveal(s: Schema, state: map<string, SessionValue>, name: string, j: nat, k: nat)
    requires name in Keys(s.params) && !IsRequired(s, name)
    requires j < k < |s.context.conditions|
    requires name in s.context.conditions[j].1.askFor && name in s.context.conditions[k].1.askFor
    requires forall i :: 0 <= i < j ==> name !in s.context.conditions[i].1.askFor
    requires s.context.conditions[j].0 in state && s.context.conditions[k].0 in state
    requires !TriggerHolds(state[s.context.conditions[j].0], s.context.conditions[j].1.trigger)
    requires TriggerHolds(state[s.context.conditions[k].0], s.context.conditions[k].1.trigger)
    ensures ShouldAskFor(s, state, name) == Returns(false)
  {
    FirstMatchDecides(s, state, name, j);
  }

  /** A rule whose trigger is an int or a bool never shows its parameters. */
  lemma NonStringTriggerHides(s: Schema, state: map<string, SessionValue>, name: string, j: nat)
    requires name in Keys(s.params) && !IsRequired(s, name)
    requires j < |s.context.conditions| && name in s.context.conditions[j].1.askFor
    requires forall i :: 0 <= i < j ==> name !in s.context.conditions[i].1.askFor
    requires s.context.conditions[j].0 in state && !s.context.conditions[j].1.trigger.PStr?
    ensures ShouldAskFor(s, state, name) == Returns(false)
  {
    FirstMatchDecides(s, state, name, j);
  }

  /** No rule naming `name` is controlled by `key`. */
  ghost predicate NotControlledBy(s: Schema, name: string, key: string)
  {
    forall j :: 0 <= j < |s.context.conditions| && name in s.context.conditions[j].1.askFor ==>
      s.context.conditions[j].0 != key
  }

  /** Only the controlling value of the deciding rule matters: writing any other
      key leaves the answer unchanged, so one pass re-resolves visibility. */
  lemma {:induction false} OnlyControllerMatters(s: Schema, state: map<string, SessionValue>, name: string, key: string, v: SessionValue)
    requires NotControlledBy(s, name, key)
    ensures ShouldAskFor(s, state[key := v], name) == ShouldAskFor(s, state, name)
  {
    match FirstRuleFor(s.context.conditions, name, 0)
    case None =>
    case Some(j) =>
      assert s.context.conditions[j].0 != key;
  }

  /** With a consistent schema and every parameter in the store, the visibility
      test never raises for a declared parameter. */
  lemma {:induction false} ShouldAskForTotal(s: Schema, state: map<string, SessionValue>, name: string)
    requires WellFormed(s) && name in Keys(s.params)
    requires forall n :: n in Keys(s.params) ==> n in state
    ensures ShouldAskFor(s, state, name).Returns?
  {
    match FirstRuleFor(s.context.conditions, name, 0)
    case None =>
    case Some(j) =>
      assert ConditionsOk(s.context.conditions, Keys(s.params));
      assert s.context.conditions[j].0 in Keys(s.params);
  }

  // ---------------------------------------------------------------------
  // The asked-for parameters (`params_to_ask` in `_cookiecutter_params_form`)

  /** The parameters `ps[i..]` for which `_should_ask_for` holds, in order;
      the first exception stops the comprehension. */
  function ParamsToAsk(s: Schema, state: map<string, SessionValue>, ps: seq<(string, Value)>, i: nat): (r: Outcome<seq<(string, Value)>>)
    requires i <= |ps|
    decreases |ps| - i
    ensures r.Returns? <==> forall k :: i <= k < |ps| ==> ShouldAskFor(s, state, ps[k].0).Returns?
    ensures r.Returns? ==> IsSubsequence(r.value, ps[i..])
    ensures r.Returns? ==> forall k :: i <= k < |ps| ==>
      (ps[k] in r.value <==> ShouldAskFor(s, state, ps[k].0) == Returns(true))
    ensures r.Returns? ==> forall e :: e in r.value ==> e in ps[i..]
  {
    if i == |ps| then Returns([])
    else match ShouldAskFor(s, state, ps[i].0)
      case Raises(e) => Raises(e)
      case Returns(ask) =>
        match ParamsToAsk(s, state, ps, i + 1)
        case Raises(e) => Raises(e)
        case Returns(rest) =>
          AskedStep(ps, i, rest, ask);
          if ask then Returns([ps[i]] + rest) else Returns(rest)
  }

  /** One step of the filter: keeping or dropping `ps[i]` in front of the
      filtered `ps[i + 1..]` keeps a subsequence of `ps[i..]`. */
  lemma AskedStep<T>(ps: seq<T>, i: nat, rest: seq<T>, ask: bool)
    requires i < |ps| && IsSubsequence(rest, ps[i + 1..])
    ensures ps[i..] == [ps[i]] + ps[i + 1..]
    ensures forall e :: e in ps[i..] <==> e == ps[i] || e in ps[i + 1..]
    ensures ask ==> IsSubsequence([ps[i]] + rest, ps[i..])
    ensures !ask ==> IsSubsequence(rest, ps[i..])
  {
    assert ps[i..] == [ps[i]] + ps[i + 1..];
    assert ps[i..][1..] == ps[i + 1..];
    if ask {
      assert ([ps[i]] + rest)[1..] == rest;
    } else {
      SubsequenceDrop(rest, ps[i..]);
    }
  }

  /** An exception comes from the first parameter whose test raises, and no
      later parameter is consulted. */
  lemma {:induction false} FirstExceptionPropagates(s: Schema, state: map<string, SessionValue>, ps: seq<(string, Value)>, i: nat)
    requires i <= |ps|
    decreases |ps| - i
    ensures var r := ParamsToAsk(s, state, ps, i);
      r.Raises? ==> exists k :: (
        && i <= k < |ps| && ShouldAskFor(s, state, ps[k].0) == Raises(r.error)
        && forall m :: i <= m < k ==> ShouldAskFor(s, state, ps[m].0).Returns?)
  {
    if i < |ps| && ShouldAskFor(s, state, ps[i].0).Returns? {
      FirstExceptionPropagates(s, state, ps, i + 1);
      var r := ParamsToAsk(s, state, ps, i);
      if r.Raises? {
        assert ParamsToAsk(s, state, ps, i + 1) == r;
        var k :| i + 1 <= k < |ps| && ShouldAskFor(s, state, ps[k].0) == Raises(r.error)
          && forall m :: i + 1 <= m < k ==> ShouldAskFor(s, state, ps[m].0).Returns?;
        assert forall m :: i <= m < k ==> ShouldAskFor(s, state, ps[m].0).Returns?;
      }
    }
  }

  /** With no rules at all, every declared parameter is asked for, in order. */
  lemma NoRulesAsksEverything(s: Schema, state: map<string, SessionValue>, i: nat)
    requires s.context.conditions == [] && i <= |s.params|
    ensures ParamsToAsk(s, state, s.params, i) == Returns(s.params[i..])
  {
    forall k | i <= k < |s.params| ensures ShouldAskFor(s, state, s.params[k].0) == Returns(true) {
      assert Keys(s.params)[k] == s.params[k].0;
    }
    AllAskedKeepsAll(s, state, s.params, i);
  }

  /** A parameter that is asked for is kept in front of the rest. */
  lemma AskedFirst(s: Schema, state: map<string, SessionValue>, ps: seq<(string, Value)>, i: nat)
    requires i < |ps| && ShouldAskFor(s, state, ps[i].0) == Returns(true) && ParamsToAsk(s, state, ps, i + 1).Returns?
    ensures ParamsToAsk(s, state, ps, i) == Returns([ps[i]] + ParamsToAsk(s, state, ps, i + 1).value)
  {
  }

  /** When every test answers yes, the filter keeps everything. */
  lemma {:induction false} AllAskedKeepsAll(s: Schema, state: map<string, SessionValue>, ps: seq<(string, Value)>, i: nat)
    requires i <= |ps| && forall k :: i <= k < |ps| ==> ShouldAskFor(s, state, ps[k].0) == Returns(true)
    decreases |ps| - i
    ensures ParamsToAsk(s, state, ps, i) == Returns(ps[i..])
  {
    if i < |ps| {
      AllAskedKeepsAll(s, state, ps, i + 1);
      AskedFirst(s, state, ps, i);
      assert [ps[i]] + ps[i + 1..] == ps[i..];
    } else {
      assert ps[i..] == [];
    }
  }

  // ---------------------------------------------------------------------
  // Text fields (`_render_text_input`)

  /** The characters Python's `\s` matches in a `str` pattern (`str.isspace`). */
  predicate IsSpace(c: char)
  {
    || c == ' ' || '\t' <= c <= '\r' || '\U{1C}' <= c <= '\U{1F}'
    || c == '\U{85}' || c == '\U{A0}' || c == '\U{1680}' || '\U{2000}' <= c <= '\U{200A}'
    || c == '\U{2028}' || c == '\U{2029}' || c == '\U{202F}' || c == '\U{205F}' || c == '\U{3000}'
  }

  predicate NoNewline(t: string)
  {
    forall i :: 0 <= i < |t| ==> t[i] != '\n'
  }

  predicate Spaces(t: string)
  {
    |t| > 0 && forall i :: 0 <= i < |t| ==> IsSpace(t[i])
  }

  /** `t` splits as `X {{ W1 Y W2 }} Z` at these positions: `X`, `Y`, `Z` are
      `.*` (no newline) and `W1` = `t[p+2..q]`, `W2` = `t[u..v]` are `\s+`. */
  predicate PatternAt(t: string, p: nat, q: nat, u: nat, v: nat)
  {
    && p + 2 < q <= u < v && v + 2 <= |t|
    && NoNewline(t[..p]) && t[p..p + 2] == "{{"
    && Spaces(t[p + 2..q]) && NoNewline(t[q..u]) && Spaces(t[u..v])
    && t[v..v + 2] == "}}" && NoNewline(t[v + 2..])
  }

  predicate WholeMatch(t: string)
  {
    exists p: nat, q: nat, u: nat, v: nat ::
      p < |t| && q < |t| && u < |t| && v < |t| && PatternAt(t, p, q, u, v)
  }

  /** `re.match(r"^.*\{\{\s+.*\s+\}\}.*$", t)`: `$` also matches just before a
      final newline. */
  function IsJinjaTemplate(t: string): (r: bool)
    ensures r ==> exists p :: OpensWithSpace(t, p)
  {
    if WholeMatch(t) then
      WholeMatchOpensWithSpace(t);
      true
    else if |t| > 0 && t[|t| - 1] == '\n' && WholeMatch(t[..|t| - 1]) then
      WholeMatchOpensWithSpace(t[..|t| - 1]);
      OpensWithSpaceInPrefix(t, |t| - 1);
      true
    else
      false
  }

  /** What `st.text_input` is given. */
  datatype TextInput = TextInput(caption: string, value: string, placeholder: string, disabled: bool)

  const JinjaLabelPrefix: string := " - \U{1F6AB} Generated with Jinja: `"

  /** `_render_text_input`; `render` is the Jinja rendering of a template
      against the current session, which is not modelled. */
  function RenderTextInput(caption: string, isRequired: bool, actual: string, default: string, render: string -> string): (w: TextInput)
    ensures w.disabled <==> IsJinjaTemplate(default)
    ensures w.disabled ==> w.value == render(default) && w.caption == caption + JinjaLabelPrefix + default + "`"
    ensures !w.disabled ==> w.value == actual && w.caption == caption
    ensures w.placeholder == "Required" <==> isRequired
    ensures !isRequired ==> w.placeholder == ""
  {
    var placeholder := if isRequired then "Required" else "";
    if IsJinjaTemplate(default) then
      TextInput(caption + JinjaLabelPrefix + default + "`", render(default), placeholder, true)
    else
      TextInput(caption, actual, placeholder, false)
  }

  /** `{{` at `p`, followed by a whitespace character. */
  predicate OpensWithSpace(t: string, p: nat)
  {
    p + 2 < |t| && t[p] == '{' && t[p + 1] == '{' && IsSpace(t[p + 2])
  }

  lemma WholeMatchOpensWithSpace(t: string)
    requires WholeMatch(t)
    ensures exists p :: OpensWithSpace(t, p)
  {
    var p: nat, q: nat, u: nat, v: nat :| PatternAt(t, p, q, u, v);
    assert PatternAt(t, p, q, u, v);
    assert t[p..p + 2][0] == t[p] && t[p..p + 2][1] == t[p + 1];
    assert t[p + 2..q][0] == t[p + 2];
    assert OpensWithSpace(t, p);
  }

  lemma OpensWithSpaceInPrefix(t: string, n: nat)
    requires n <= |t| && exists p :: OpensWithSpace(t[..n], p)
    ensures exists p :: OpensWithSpace(t, p)
  {
    var p :| OpensWithSpace(t[..n], p);
    assert OpensWithSpace(t, p);
  }

  /** Braces padded with single spaces around a one-line expression match. */
  lemma {:induction false} PaddedBracesAreJinja(expr: string)
    requires NoNewline(expr)
    ensures IsJinjaTemplate("{{ " + expr + " }}")
  {
    var t := "{{ " + expr + " }}";
    var n := |t|;
    assert t[..0] == [];
    assert t[0..2] == "{{";
    assert t[2..3] == " ";
    assert t[3..n - 3] == expr;
    assert t[n - 3..n - 2] == " ";
    assert t[n - 2..n] == "}}";
    assert t[n..] == [];
    assert PatternAt(t, 0, 3, n - 3, n - 2);
  }

  /** The template-only default of a derived field matches. */
  lemma ExpressionDefaultIsJinja()
    ensures IsJinjaTemplate("{{ cookiecutter.project_name | lower }}")
  {
    ExpressionIsOneLine();
    PaddedBracesAreJinja("cookiecutter.project_name | lower");
    ExpressionPadded();
  }

  lemma ExpressionIsOneLine()
    ensures NoNewline("cookiecutter.project_name | lower")
  {
  }

  lemma ExpressionPadded()
    ensures "{{ " + "cookiecutter.project_name | lower" + " }}" == "{{ cookiecutter.project_name | lower }}"
  {
    var t := "{{ " + "cookiecutter.project_name | lower" + " }}";
    assert |t| == 39;
    assert forall i :: 0 <= i < 39 ==> t[i] == "{{ cookiecutter.project_name | lower }}"[i];
  }

  /** Without whitespace after the braces the default is not a template and
      the field stays editable. */
  lemma UnspacedBracesAreNotJinja()
    ensures !IsJinjaTemplate("{{cookiecutter.x}}")
  {
    var t := "{{cookiecutter.x}}";
    forall p: nat ensures !OpensWithSpace(t, p) {
      if p == 0 {
        assert t[2] == 'c';
      } else if p + 2 < |t| {
        assert t[p + 1] != '{';
      }
    }
  }

  // ---------------------------------------------------------------------
  // The completeness guard in front of baking (`_bake_cookiecutter_template`)

  /** The validity loop: one error per required name whose value is the empty
      placeholder, in the order of `isRequired`; `Returns(valid_form)` decides
      whether baking is attempted, and a required name missing from the store
      raises `KeyError`. */
  method RequiredFieldsFilled(s: Schema, state: map<string, SessionValue>) returns (r: Outcome<bool>, missing: seq<string>)
    requires NoDups(s.context.isRequired)
    ensures r.Raises? <==> exists n :: n in s.context.isRequired && n !in state
    ensures r.Raises? ==> r.error.MissingState? && r.error.name in s.context.isRequired && r.error.name !in state
    ensures r.Returns? ==> (r.value <==> missing == [])
    ensures r.Returns? ==> (r.value <==> forall n :: n in s.context.isRequired ==> n in state && state[n] != SText(""))
    ensures r.Returns? ==> forall n :: n in missing <==> n in s.context.isRequired && state[n] == SText("")
    ensures NoDups(missing)
    ensures IsSubsequence(missing, s.context.isRequired)
  {
    var req := s.context.isRequired;
    var valid := true;
    missing := [];
    var i := 0;
    while i < |req|
      invariant 0 <= i <= |req|
      invariant forall n :: n in req[..i] ==> n in state
      invariant valid <==> missing == []
      invariant forall n :: n in missing <==> n in req[..i] && state[n] == SText("")
      invariant NoDups(missing)
      invariant IsSubsequence(missing, req[..i])
    {
      if req[i] !in state {
        SubsequencePrefix(missing, req, i);
        return Raises(MissingState(req[i])), missing;
      }
      assert req[..i + 1] == req[..i] + [req[i]];
      SubsequenceExtend(missing, req[..i], req[i]);
      if state[req[i]] == SText("") {
        assert req[i] !in req[..i] by {
          forall k | 0 <= k < i ensures req[k] != req[i] {
            assert k < i;
          }
        }
        missing := missing + [req[i]];
        valid := false;
      }
      i := i + 1;
    }
    assert req[..i] == req;
    if missing != [] {
      assert missing[0] in missing;
    }
    r := Returns(valid);
  }

  // ---------------------------------------------------------------------
  // Labels (`_snake_case_to_title`)

  predicate IsUpper(c: char) { 'A' <= c <= 'Z' }
  predicate IsLower(c: char) { 'a' <= c <= 'z' }

  /** ASCII letters are the cased characters. */
  predicate IsCased(c: char) { IsUpper(c) || IsLower(c) }

  function ToUpper(c: char): char { if IsLower(c) then (c as int - 32) as char else c }
  function ToLower(c: char): char { if IsUpper(c) then (c as int + 32) as char else c }

  /** `str.title()`: a cased character after a cased one is lower-cased, any
      other is upper-cased. */
  function TitleFrom(t: string, previousCased: bool): (r: string)
    ensures |r| == |t|
  {
    if t == [] then []
    else [if previousCased then ToLower(t[0]) else ToUpper(t[0])] + TitleFrom(t[1..], IsCased(t[0]))
  }

  function Title(t: string): string
  {
    TitleFrom(t, false)
  }

  /** `str.split(sep)`: the pieces between separators, never an empty list. */
  function SplitOn(t: string, sep: char): (parts: seq<string>)
    ensures |parts| >= 1
  {
    if t == [] then [""]
    else
      var rest := SplitOn(t[1..], sep);
      if t[0] == sep then [""] + rest else [[t[0]] + rest[0]] + rest[1..]
  }

  /** `sep.join(parts)`. */
  function JoinWith(sep: char, parts: seq<string>): string
    requires |parts| >= 1
  {
    if |parts| == 1 then parts[0] else parts[0] + [sep] + JoinWith(sep, parts[1..])
  }

  function MapTitle(parts: seq<string>): (r: seq<string>)
    ensures |r| == |parts|
  {
    if parts == [] then [] else [Title(parts[0])] + MapTitle(parts[1..])
  }

  /** `_snake_case_to_title`: the label is as long as the name, and it is the
      title-casing of the name with `_` read as a space. */
  function SnakeCaseToTitle(text: string): (r: string)
    ensures |r| == |text|
    ensures r == Title(Replace(text, '_', ' '))
  {
    JoinTitle(SplitOn(text, '_'));
    JoinSplit(text, '_', ' ');
    JoinWith(' ', MapTitle(SplitOn(text, '_')))
  }

  /** `t` with every `a` replaced by `b`. */
  function Replace(t: string, a: char, b: char): (r: string)
    ensures |r| == |t|
    ensures forall i :: 0 <= i < |t| ==> r[i] == if t[i] == a then b else t[i]
  {
    if t == [] then [] else [if t[0] == a then b else t[0]] + Replace(t[1..], a, b)
  }

  function Count(t: string, c: char): nat
  {
    if t == [] then 0 else (if t[0] == c then 1 else 0) + Count(t[1..], c)
  }

  /** One piece per separator, plus one. */
  lemma {:induction false} SplitCount(t: string, sep: char)
    ensures |SplitOn(t, sep)| == Count(t, sep) + 1
  {
    if t != [] {
      SplitCount(t[1..], sep);
    }
  }

  lemma JoinCons(c: char, x: char, parts: seq<string>)
    requires |parts| >= 1
    ensures JoinWith(c, [[x] + parts[0]] + parts[1..]) == [x] + JoinWith(c, parts)
  {
    var ps := [[x] + parts[0]] + parts[1..];
    assert ps[1..] == parts[1..];
  }

  /** Joining the pieces with `c` puts `c` where each separator was. */
  lemma {:induction false} JoinSplit(t: string, sep: char, c: char)
    ensures JoinWith(c, SplitOn(t, sep)) == Replace(t, sep, c)
  {
    if t != [] {
      var rest := SplitOn(t[1..], sep);
      JoinSplit(t[1..], sep, c);
      if t[0] == sep {
        assert ([""] + rest)[1..] == rest;
      } else {
        JoinCons(c, t[0], rest);
      }
    }
  }

  /** Splitting on `_` and joining with `_` gives the input back. */
  lemma SplitJoinRoundTrip(t: string)
    ensures JoinWith('_', SplitOn(t, '_')) == t
  {
    JoinSplit(t, '_', '_');
  }

  lemma {:induction false} TitleAppend(a: string, b: string, prev: bool)
    ensures TitleFrom(a + b, prev) == TitleFrom(a, prev) + TitleFrom(b, if a == [] then prev else IsCased(a[|a| - 1]))
  {
    if a != [] {
      assert (a + b)[1..] == a[1..] + b;
      TitleAppend(a[1..], b, IsCased(a[0]));
    } else {
      assert a + b == b;
    }
  }

  /** Title-casing each piece and joining with spaces is title-casing the
      spaced text: a space is not cased, so each word starts afresh. */
  lemma {:induction false} JoinTitle(parts: seq<string>)
    requires |parts| >= 1
    ensures JoinWith(' ', MapTitle(parts)) == Title(JoinWith(' ', parts))
  {
    if |parts| > 1 {
      JoinTitle(parts[1..]);
      var rest := JoinWith(' ', parts[1..]);
      assert MapTitle(parts)[1..] == MapTitle(parts[1..]);
      TitleAppend(parts[0], [' '] + rest, false);
      assert ([' '] + rest)[1..] == rest;
      assert parts[0] + [' '] + rest == parts[0] + ([' '] + rest);
    }
  }

  lemma {:induction false} TitleFromAt(t: string, prev: bool, i: nat)
    requires i < |t|
    ensures TitleFrom(t, prev)[i] ==
      if (if i == 0 then prev else IsCased(t[i - 1])) then ToLower(t[i]) else ToUpper(t[i])
  {
    if i > 0 {
      TitleFromAt(t[1..], IsCased(t[0]), i - 1);
      assert t[1..][i - 1] == t[i];
      if i > 1 {
        assert t[1..][i - 2] == t[i - 1];
      }
    }
  }

  /** Same length; a space exactly where the name had `_` (for a name without
      spaces); every other letter is upper-cased at the start of a word and
      lower-cased inside one. */
  lemma SnakeCaseToTitleAt(t: string, i: nat)
    requires i < |t|
    ensures |SnakeCaseToTitle(t)| == |t|
    ensures SnakeCaseToTitle(t)[i] ==
      if t[i] == '_' then ' '
      else if i > 0 && IsCased(t[i - 1]) then ToLower(t[i])
      else ToUpper(t[i])
    ensures t[i] != ' ' ==> (SnakeCaseToTitle(t)[i] == ' ' <==> t[i] == '_')
  {
    TitleFromAt(Replace(t, '_', ' '), false, i);
  }

  /** The label of a top-level field: the title of its name, followed by its
      description when that is a non-empty string. */
  function FieldLabel(s: Schema, name: string): (caption: string)
    ensures |caption| >= |name| && caption[..|name|] == SnakeCaseToTitle(name)
    ensures |caption| == |name| <==> Lookup(s.context.descriptions, name) in {None, Some("")}
    ensures Lookup(s.context.descriptions, name).Some? && Lookup(s.context.descriptions, name).value != "" ==>
      caption[|name|..] == " - " + Lookup(s.context.descriptions, name).value
  {
    var title := SnakeCaseToTitle(name);
    match Lookup(s.context.descriptions, name)
    case Some(desc) =>
      if desc != "" then title + " - " + desc else title
    case None => title
  }
}
