/**
 The typed configuration model of src/core/config_schema.py: flat keys routed
 into subgroups on the way in, proxied on read and write, and on copy.
 */
module ConfigModel {
  import opened Basics
  import opened ConfigMerge

  datatype Target = Target(group: string, field: string)
  type Registry = map<string, Target>

  /** The flat name of a registered field. */
  ghost function NameOf(reg: Registry, t: Target): (n: string)
    requires t in reg.Values
    ensures n in reg && reg[n] == t
  {
    var n :| n in reg && reg[n] == t;
    n
  }

  /**
   The registries the program declares: no two flat names share a field, so each is the name of its
   target, and no group's name is itself a flat name.
   */
  ghost predicate WellFormed(reg: Registry) {
    && (forall a :: a in reg ==> NameOf(reg, reg[a]) == a)
    && (forall a :: a in reg ==> reg[a].group !in reg)
  }

  // ---------- Routing flat keys ----------

  /** The flat keys of the data that belong to group g. */
  function FlatIn(data: map<string, Value>, reg: Registry, g: string): set<string> {
    set n | n in data && n in reg && reg[n].group == g
  }

  function FieldsIn(data: map<string, Value>, reg: Registry, g: string): set<string> {
    set n | n in FlatIn(data, reg, g) :: reg[n].field
  }

  /** The values the flat keys give to the fields of group g. */
  ghost function Grouped(data: map<string, Value>, reg: Registry, g: string): map<string, Value>
    requires WellFormed(reg)
  {
    map f | f in FieldsIn(data, reg, g) && Target(g, f) in reg.Values && NameOf(reg, Target(g, f)) in data ::
      data[NameOf(reg, Target(g, f))]
  }

  function Touched(data: map<string, Value>, reg: Registry): set<string> {
    set n | n in data && n in reg :: reg[n].group
  }

  function GroupBase(data: map<string, Value>, g: string): map<string, Value> {
    if g in data && data[g].Block? then data[g].entries else map[]
  }

  ghost function Routed(data: map<string, Value>, reg: Registry): map<string, Value>
    requires WellFormed(reg)
  {
    map k | k in (data.Keys - reg.Keys) + Touched(data, reg) ::
      if k in Touched(data, reg) then Block(GroupBase(data, k) + Grouped(data, reg, k)) else data[k]
  }

  function Part(data: map<string, Value>, keys: set<string>): map<string, Value> {
    map k | k in data && k in keys :: data[k]
  }

  lemma GroupedAt(data: map<string, Value>, reg: Registry, n: string)
    requires WellFormed(reg) && n in reg
    ensures var Target(g, f) := reg[n];
      && (f in Grouped(data, reg, g) <==> n in data)
      && (n in data ==> Grouped(data, reg, g)[f] == data[n])
  {
    var Target(g, f) := reg[n];
    assert Target(g, f) in reg.Values && NameOf(reg, Target(g, f)) == n;
    if n in data { assert n in FlatIn(data, reg, g); }
  }

  lemma FlatInStep(data: map<string, Value>, reg: Registry, done: set<string>, n: string, g: string)
    requires n in data && n in reg
    ensures FlatIn(Part(data, done + {n}), reg, g) ==
      FlatIn(Part(data, done), reg, g) + (if g == reg[n].group then {n} else {})
  { }

  /** One flat key added to its group's fields. */
  lemma GroupedStep(data: map<string, Value>, reg: Registry, done: set<string>, n: string)
    requires WellFormed(reg) && n in data && n in reg && n !in done
    ensures Grouped(Part(data, done + {n}), reg, reg[n].group) ==
      Grouped(Part(data, done), reg, reg[n].group)[reg[n].field := data[n]]
  {
    var g := reg[n].group;
    var before, after := Grouped(Part(data, done), reg, g), Grouped(Part(data, done + {n}), reg, g);
    var field, value := reg[n].field, data[n];
    forall f ensures ExtendedAt(before, after, field, value, f) {
      GroupedStepAt(data, reg, done, n, f);
    }
    MapExtended(before, after, field, value);
  }

  predicate ExtendedAt(before: map<string, Value>, after: map<string, Value>, key: string, value: Value, f: string) {
    && (f in after <==> f in before || f == key)
    && (f in after ==> after[f] == if f == key then value else before[f])
  }

  lemma MapExtended(before: map<string, Value>, after: map<string, Value>, key: string, value: Value)
    requires forall f :: ExtendedAt(before, after, key, value, f)
    ensures after == before[key := value]
  {
    forall f ensures f in after <==> f in before[key := value]
      ensures f in after ==> after[f] == before[key := value][f]
    {
      assert ExtendedAt(before, after, key, value, f);
    }
  }

  lemma GroupedStepAt(data: map<string, Value>, reg: Registry, done: set<string>, n: string, f: string)
    requires WellFormed(reg) && n in data && n in reg && n !in done
    ensures var g := reg[n].group;
            ExtendedAt(Grouped(Part(data, done), reg, g), Grouped(Part(data, done + {n}), reg, g),
                       reg[n].field, data[n], f)
  {
    var g := reg[n].group;
    if Target(g, f) in reg.Values {
      var m := NameOf(reg, Target(g, f));
      GroupedAt(Part(data, done), reg, m);
      GroupedAt(Part(data, done + {n}), reg, m);
    }
  }

  lemma GroupedElse(data: map<string, Value>, reg: Registry, done: set<string>, n: string, g: string)
    requires WellFormed(reg) && n in data && n in reg && n !in done && g != reg[n].group
    ensures Grouped(Part(data, done + {n}), reg, g) == Grouped(Part(data, done), reg, g)
  {
    FlatInStep(data, reg, done, n, g);
  }

  lemma GroupedElsewhere(data: map<string, Value>, reg: Registry, done: set<string>, n: string, g: string)
    requires WellFormed(reg) && n in data && n !in reg
    ensures Grouped(Part(data, done + {n}), reg, g) == Grouped(Part(data, done), reg, g)
  {
    assert FlatIn(Part(data, done + {n}), reg, g) == FlatIn(Part(data, done), reg, g);
  }

  ghost predicate Collected(data: map<string, Value>, reg: Registry, done: set<string>,
                            plain: map<string, Value>, grouped: map<string, map<string, Value>>)
    requires WellFormed(reg)
  {
    && plain == Part(data, done - reg.Keys)
    && grouped.Keys == Touched(Part(data, done), reg)
    && forall g :: g in grouped ==> grouped[g] == Grouped(Part(data, done), reg, g)
  }

  /** The first loop of the validator and of model_copy: keys are sorted into plain ones and groups. */
  method SortKeys(data: map<string, Value>, reg: Registry)
    returns (plain: map<string, Value>, grouped: map<string, map<string, Value>>)
    requires WellFormed(reg)
    ensures plain == Part(data, data.Keys - reg.Keys)
    ensures grouped.Keys == Touched(data, reg)
    ensures forall g :: g in grouped ==> grouped[g] == Grouped(data, reg, g)
  {
    plain, grouped := map[], map[];
    var rest := data.Keys;
    while rest != {}
      invariant rest <= data.Keys
      invariant Collected(data, reg, data.Keys - rest, plain, grouped)
      decreases |rest|
    {
      var key :| key in rest;
      ghost var done := data.Keys - rest;
      if key in reg {
        var Target(group, field) := reg[key];
        var fields := FieldsOf(grouped, group);
        CollectFlat(data, reg, done, plain, grouped, key);
        grouped := grouped[group := fields[field := data[key]]];
      } else {
        CollectPlain(data, reg, done, plain, grouped, key);
        plain := plain[key := data[key]];
      }
      assert data.Keys - (rest - {key}) == done + {key};
      rest := rest - {key};
    }
    assert Part(data, data.Keys) == data && data.Keys - {} == data.Keys;
  }

  lemma CollectPlain(data: map<string, Value>, reg: Registry, done: set<string>,
                     plain: map<string, Value>, grouped: map<string, map<string, Value>>, key: string)
    requires WellFormed(reg) && Collected(data, reg, done, plain, grouped)
    requires key in data && key !in done && key !in reg
    ensures Collected(data, reg, done + {key}, plain[key := data[key]], grouped)
  {
    forall g | g in grouped ensures grouped[g] == Grouped(Part(data, done + {key}), reg, g) {
      GroupedElsewhere(data, reg, done, key, g);
    }
    assert Part(data, done + {key} - reg.Keys) == plain[key := data[key]];
  }

  function FieldsOf(grouped: map<string, map<string, Value>>, g: string): map<string, Value> {
    if g in grouped then grouped[g] else map[]
  }

  lemma CollectFlat(data: map<string, Value>, reg: Registry, done: set<string>,
                    plain: map<string, Value>, grouped: map<string, map<string, Value>>, key: string)
    requires WellFormed(reg) && Collected(data, reg, done, plain, grouped)
    requires key in data && key !in done && key in reg
    ensures var Target(group, field) := reg[key];
      Collected(data, reg, done + {key}, plain, grouped[group := FieldsOf(grouped, group)[field := data[key]]])
  {
    var Target(group, field) := reg[key];
    CollectedKeys(data, reg, done, plain, grouped, key);
    CollectedElse(data, reg, done, plain, grouped, key);
    GroupedStep(data, reg, done, key);
    CollectedFrom(data, reg, done + {key}, plain, grouped, group, FieldsOf(grouped, group)[field := data[key]]);
  }

  lemma CollectedKeys(data: map<string, Value>, reg: Registry, done: set<string>,
                      plain: map<string, Value>, grouped: map<string, map<string, Value>>, key: string)
    requires WellFormed(reg) && Collected(data, reg, done, plain, grouped)
    requires key in data && key !in done && key in reg
    ensures plain == Part(data, done + {key} - reg.Keys)
    ensures grouped.Keys + {reg[key].group} == Touched(Part(data, done + {key}), reg)
  {
    assert done + {key} - reg.Keys == done - reg.Keys;
  }

  lemma CollectedElse(data: map<string, Value>, reg: Registry, done: set<string>,
                      plain: map<string, Value>, grouped: map<string, map<string, Value>>, key: string)
    requires WellFormed(reg) && Collected(data, reg, done, plain, grouped)
    requires key in data && key !in done && key in reg
    ensures forall g :: g in grouped && g != reg[key].group ==> grouped[g] == Grouped(Part(data, done + {key}), reg, g)
  {
    forall g | g in grouped && g != reg[key].group ensures grouped[g] == Grouped(Part(data, done + {key}), reg, g) {
      GroupedElse(data, reg, done, key, g);
    }
  }

  lemma CollectedFrom(data: map<string, Value>, reg: Registry, done: set<string>, plain: map<string, Value>,
                      grouped: map<string, map<string, Value>>, group: string, fields: map<string, Value>)
    requires WellFormed(reg)
    requires plain == Part(data, done - reg.Keys)
    requires grouped.Keys + {group} == Touched(Part(data, done), reg)
    requires forall g :: g in grouped && g != group ==> grouped[g] == Grouped(Part(data, done), reg, g)
    requires fields == Grouped(Part(data, done), reg, group)
    ensures Collected(data, reg, done, plain, grouped[group := fields])
  { }

  /** The plain keys with the groups in done folded over what was there. */
  function Folded(plain: map<string, Value>, grouped: map<string, map<string, Value>>, done: set<string>)
    : map<string, Value>
    requires done <= grouped.Keys
  {
    map k | k in plain.Keys + done ::
      if k in done then Block(GroupBase(plain, k) + grouped[k]) else plain[k]
  }

  /** The routing validator: keys sorted, then each group folded over the mapping given for it. */
  method RouteFlatKeys(data: map<string, Value>, reg: Registry) returns (routed: map<string, Value>)
    requires WellFormed(reg)
    ensures routed == Routed(data, reg)
  {
    var plain, grouped := SortKeys(data, reg);
    routed := plain;
    var done: set<string> := {};
    assert Folded(plain, grouped, {}) == plain;
    while done != grouped.Keys
      invariant done <= grouped.Keys
      invariant routed == Folded(plain, grouped, done)
      decreases grouped.Keys - done
    {
      assert grouped.Keys - done != {};
      var group :| group in grouped.Keys - done;
      var fields := if group in routed && routed[group].Block? then routed[group].entries else map[];
      routed := routed[group := Block(fields + grouped[group])];
      done := done + {group};
    }
    FoldedIsRouted(data, reg, plain, grouped);
  }

  lemma FoldedIsRouted(data: map<string, Value>, reg: Registry, plain: map<string, Value>,
                       grouped: map<string, map<string, Value>>)
    requires WellFormed(reg)
    requires plain == Part(data, data.Keys - reg.Keys)
    requires grouped.Keys == Touched(data, reg)
    requires forall g :: g in grouped ==> grouped[g] == Grouped(data, reg, g)
    ensures Folded(plain, grouped, grouped.Keys) == Routed(data, reg)
  {
    forall g | g in grouped ensures GroupBase(plain, g) == GroupBase(data, g) {
      var n :| n in data && n in reg && reg[n].group == g;
      assert g !in reg;
    }
    assert plain.Keys == data.Keys - reg.Keys;
  }

  // ---------- Reading back ----------

  /**
   Reading a flat setting of the routed data, by either spelling, gives the
   flat key's value if the data holds the key, and the nested one otherwise.
   */
  lemma RoutedReadsBack(data: map<string, Value>, reg: Registry, n: string, inner: seq<string>)
    requires WellFormed(reg) && n in reg
    ensures At(Block(Routed(data, reg)), [reg[n].group, reg[n].field] + inner) ==
      if n in data then At(data[n], inner) else At(Block(data), [reg[n].group, reg[n].field] + inner)
  {
    var Target(g, f) := reg[n];
    TwoKeys(Block(Routed(data, reg)), g, f, inner);
    TwoKeys(Block(data), g, f, inner);
    RoutedField(data, reg, g, f);
    GroupedAt(data, reg, n);
  }

  lemma TwoKeys(v: Value, g: string, f: string, inner: seq<string>)
    ensures At(v, [g, f] + inner) ==
      if v.Block? && g in v.entries && v.entries[g].Block? && f in v.entries[g].entries
      then At(v.entries[g].entries[f], inner) else Absent
  {
    var path := [g, f] + inner;
    assert path[1..] == [f] + inner && ([f] + inner)[1..] == inner;
  }

  lemma RoutedField(data: map<string, Value>, reg: Registry, g: string, f: string)
    requires WellFormed(reg) && g !in reg
    ensures var out := Routed(data, reg);
      if g in Touched(data, reg) then
        && g in out && out[g].Block?
        && out[g].entries == GroupBase(data, g) + Grouped(data, reg, g)
      else (g in out <==> g in data) && (g in data ==> out[g] == data[g])
  { }

  /** Every other setting is left as it was written. */
  lemma RoutedElsewhere(data: map<string, Value>, reg: Registry, g: string, f: string, inner: seq<string>)
    requires WellFormed(reg) && g !in reg && Target(g, f) !in reg.Values
    ensures At(Block(Routed(data, reg)), [g, f] + inner) == At(Block(data), [g, f] + inner)
  {
    TwoKeys(Block(Routed(data, reg)), g, f, inner);
    TwoKeys(Block(data), g, f, inner);
    RoutedField(data, reg, g, f);
    assert f !in Grouped(data, reg, g) by {
      forall n | n in FlatIn(data, reg, g) ensures reg[n].field != f {
        assert reg[n] in reg.Values;
      }
    }
  }

  // ---------- Settings of a resolved configuration ----------

  /**
   What is read for a flat name once the layers are merged, the plugin is
   recorded and the keys are routed.
   */
  ghost function Setting(plugin: Option<Plugin>, layers: seq<Document>, reg: Registry, n: string): Sight
    requires WellFormed(reg) && n in reg
  {
    At(Block(Routed(WithPlugin(plugin, Stack(layers)).entries, reg)), [reg[n].group, reg[n].field])
  }

  /**
   The highest layer that spells the setting flat decides it; only when no
   layer does, the highest layer that settles the nested spelling decides.
   */
  lemma SettingExactly(plugin: Option<Plugin>, layers: seq<Document>, reg: Registry, n: string)
    requires WellFormed(reg) && n in reg && n != "plugin" && reg[n].group != "plugin"
    ensures forall i: nat :: Settles(layers, i, [n]) ==> Setting(plugin, layers, reg, n) == At(layers[i], [n])
    ensures (forall i :: 0 <= i < |layers| ==> n !in layers[i].entries) ==>
      forall j: nat :: Settles(layers, j, [reg[n].group, reg[n].field]) ==>
        Setting(plugin, layers, reg, n) == At(layers[j], [reg[n].group, reg[n].field])
  {
    var Target(g, f) := reg[n];
    var merged := WithPlugin(plugin, Stack(layers));
    RoutedReadsBack(merged.entries, reg, n, []);
    assert [g, f] + [] == [g, f];
    StackAt(layers, [n]);
    StackAt(layers, [g, f]);
    OneKey(Stack(layers), n);
    forall i: nat | Settles(layers, i, [n]) ensures Setting(plugin, layers, reg, n) == At(layers[i], [n]) {
      OneKey(layers[i], n);
    }
    if forall i :: 0 <= i < |layers| ==> n !in layers[i].entries {
      assert n !in Stack(layers).entries by { StackSilent(layers, [n]); }
      TwoKeys(merged, g, f, []);
      TwoKeys(Stack(layers), g, f, []);
    }
  }

  lemma OneKey(d: Document, n: string)
    ensures At(d, [n]) == if n in d.entries then At(d.entries[n], []) else Absent
    ensures Speaks(d, [n]) == (n in d.entries)
  {
    assert [n][1..] == [];
  }

  /**
   With both spellings in the layers, the highest definer is read exactly
   when the flat one is not below the nested one, or both say the same.
   */
  lemma HighestSpellingReadExactly(plugin: Option<Plugin>, layers: seq<Document>, reg: Registry, n: string,
                                   i: nat, j: nat)
    requires WellFormed(reg) && n in reg && n != "plugin" && reg[n].group != "plugin"
    requires Settles(layers, i, [n]) && Settles(layers, j, [reg[n].group, reg[n].field])
    ensures var highest := if i >= j then At(layers[i], [n]) else At(layers[j], [reg[n].group, reg[n].field]);
      Setting(plugin, layers, reg, n) == highest <==>
      i >= j || At(layers[i], [n]) == At(layers[j], [reg[n].group, reg[n].field])
  {
    SettingExactly(plugin, layers, reg, n);
  }

  /** A flat key of the lowest layer beats the nested key of any layer above it. */
  lemma FlatBeatsHigherNested(reg: Registry, n: string, low: Value, high: Value)
    requires WellFormed(reg) && n in reg && n != "plugin" && reg[n].group != "plugin"
    requires !low.Block? && !high.Block?
    ensures var flat, nested := Block(map[n := low]), Block(map[reg[n].group := Block(map[reg[n].field := high])]);
      Setting(None, [flat, nested], reg, n) == Leaf(low)
  {
    var Target(g, f) := reg[n];
    var flat, nested := Block(map[n := low]), Block(map[g := Block(map[f := high])]);
    var layers := [flat, nested];
    OneKey(flat, n);
    OneKey(nested, n);
    assert g != n;
    assert Settles(layers, 0, [n]);
    SettingExactly(None, layers, reg, n);
  }

  /** With the flat spelling alone in use and no clash, the setting is the leaf of its highest definer. */
  lemma FlatRightmostDefiner(plugin: Option<Plugin>, layers: seq<Document>, reg: Registry, n: string, i: nat)
    requires WellFormed(reg) && n in reg && n != "plugin" && reg[n].group != "plugin"
    requires i < |layers| && Defines(layers[i], [n])
    requires forall j :: i < j < |layers| ==> n !in layers[j].entries
    ensures Setting(plugin, layers, reg, n) == At(layers[i], [n])
  {
    DefinesSpeaks(layers[i], [n]);
    forall j | i < j < |layers| ensures !Speaks(layers[j], [n]) { OneKey(layers[j], n); }
    assert Settles(layers, i, [n]);
    SettingExactly(plugin, layers, reg, n);
  }

  /** With the nested spelling alone in use and no clash, likewise. */
  lemma NestedRightmostDefiner(plugin: Option<Plugin>, layers: seq<Document>, reg: Registry, n: string, i: nat)
    requires WellFormed(reg) && n in reg && n != "plugin" && reg[n].group != "plugin"
    requires forall j :: 0 <= j < |layers| ==> n !in layers[j].entries
    requires forall j :: 0 <= j < |layers| ==> !Clashes(layers[j], [reg[n].group, reg[n].field])
    requires i < |layers| && Defines(layers[i], [reg[n].group, reg[n].field])
    requires forall j :: i < j < |layers| ==> !Defines(layers[j], [reg[n].group, reg[n].field])
    ensures Setting(plugin, layers, reg, n) == At(layers[i], [reg[n].group, reg[n].field])
  {
    var path := [reg[n].group, reg[n].field];
    DefinesSpeaks(layers[i], path);
    assert Settles(layers, i, path);
    SettingExactly(plugin, layers, reg, n);
  }

  // ---------- Validation on assignment ----------

  /** The LLM group has validators of its own; the other groups only have field types. */
  datatype Kind = LlmGroup | OtherGroup

  /** What a field's type makes of a value: `None` when it is rejected. */
  type Types = (string, Value) -> Option<Value>

  /** A group's values, and the fields that were ever given one. */
  datatype Fields = Fields(values: map<string, Value>, given: set<string>)

  const OPENAI_LIKE: set<string> := {"openai", "openai-responses", "openai-chat", "litellm"}
  const OPENAI_MODEL: Value := Text("gpt-4o")
  const SWITCHABLE: set<string> := {"reasoning_effort", "reasoning_summary", "text_verbosity"}

  function Lower(s: string): string {
    seq(|s|, i requires 0 <= i < |s| => if 'A' <= s[i] <= 'Z' then s[i] - 'A' + 'a' else s[i])
  }

  /** The string "none" switches some fields of the LLM group off. */
  function Cleaned(kind: Kind, field: string, v: Value): Value {
    if kind == LlmGroup && field in SWITCHABLE && v.Text? && Lower(v.text) == "none" then Null else v
  }

  function Coerced(kind: Kind, types: Types, field: string, v: Value): Option<Value> {
    types(field, Cleaned(kind, field, v))
  }

  /** An OpenAI-like provider picks its own model when none was ever given. */
  predicate ModelFollows(kind: Kind, f: Fields) {
    && kind == LlmGroup && "model" !in f.given
    && "provider" in f.values && f.values["provider"].Text? && f.values["provider"].text in OPENAI_LIKE
  }

  function Followed(kind: Kind, f: Fields): Fields {
    if ModelFollows(kind, f) then Fields(f.values["model" := OPENAI_MODEL], f.given + {"model"}) else f
  }

  /** The group's values with one set as it is. */
  function Stored(f: Fields, field: string, v: Value): Fields {
    Fields(f.values[field := v], f.given + {field})
  }

  /** An assignment to a field, validated: `None` when the value is rejected. */
  function Assigned(kind: Kind, types: Types, f: Fields, field: string, v: Value): Option<Fields> {
    match Coerced(kind, types, field, v)
    case None => None
    case Some(w) => Some(Followed(kind, Stored(f, field, w)))
  }

  /** The assignment stores the value as it is and changes no other. */
  predicate Plain(kind: Kind, types: Types, f: Fields, field: string, v: Value) {
    && Coerced(kind, types, field, v) == Some(v)
    && (ModelFollows(kind, Stored(f, field, v)) ==> "model" in f.values && f.values["model"] == OPENAI_MODEL)
  }

  lemma PlainExactly(kind: Kind, types: Types, f: Fields, field: string, v: Value)
    ensures Plain(kind, types, f, field, v) <==>
            && Assigned(kind, types, f, field, v).Some?
            && Assigned(kind, types, f, field, v).value.values == f.values[field := v]
  {
    var c := Coerced(kind, types, field, v);
    if c.Some? {
      assert f.values[field := c.value][field] == c.value;
      if ModelFollows(kind, Stored(f, field, c.value)) {
        TwoWrites(f.values, field, c.value, v, "model", OPENAI_MODEL);
      }
    }
  }

  lemma TwoWrites(m: map<string, Value>, a: string, v: Value, w: Value, b: string, x: Value)
    requires a != b
    ensures m[a := v][b := x] == m[a := w] <==> v == w && b in m && m[b] == x
  {
    var left, right := m[a := v][b := x], m[a := w];
    assert left[a] == v && right[a] == w && left[b] == x;
    assert b in right <==> b in m;
    if v == w && b in m && m[b] == x { assert left == right; }
  }

  /** The four letters of "none", in capitals or not. */
  predicate SpellsNone(s: string) {
    && |s| == 4 && (s[0] == 'n' || s[0] == 'N') && (s[1] == 'o' || s[1] == 'O')
    && (s[2] == 'n' || s[2] == 'N') && (s[3] == 'e' || s[3] == 'E')
  }

  /** Exactly a text spelling "none" is cleaned, in exactly three fields of the LLM group, and it is to null. */
  lemma CleanedExactly(kind: Kind, field: string, v: Value)
    ensures Cleaned(kind, field, v) ==
            if kind == LlmGroup && v.Text? && SpellsNone(v.text)
               && (field == "reasoning_effort" || field == "reasoning_summary" || field == "text_verbosity")
            then Null else v
  {
    if v.Text? {
      var t := Lower(v.text);
      assert t == "none" <==> |t| == 4 && t[0] == 'n' && t[1] == 'o' && t[2] == 'n' && t[3] == 'e';
    }
  }

  /**
   An assignment picks the OpenAI model exactly when none was ever given, none is given by it, and the
   provider then is one of four; it changes no other field but its own.
   */
  lemma ModelPickedExactly(types: Types, kind: Kind, f: Fields, field: string, v: Value)
    requires Assigned(kind, types, f, field, v).Some? && field != "model"
    ensures var g := Assigned(kind, types, f, field, v).value;
            && field in g.values && Some(g.values[field]) == types(field, Cleaned(kind, field, v))
            && (forall k :: k != field && k != "model" ==>
                  (k in g.values <==> k in f.values) && (k in f.values ==> g.values[k] == f.values[k]))
            && var openai := {Text("openai"), Text("openai-responses"), Text("openai-chat"), Text("litellm")};
               if kind == LlmGroup && "model" !in f.given && "provider" in g.values && g.values["provider"] in openai
               then g.given == f.given + {field, "model"} && "model" in g.values && g.values["model"] == Text("gpt-4o")
               else
                 && g.given == f.given + {field} && ("model" in g.values <==> "model" in f.values)
                 && ("model" in f.values ==> g.values["model"] == f.values["model"])
  {
  }

  /** A field that does not read back what was written to it. */
  lemma NoneReadsBackNull(types: Types, f: Fields)
    requires types("reasoning_effort", Null) == Some(Null)
    ensures var r := Assigned(LlmGroup, types, f, "reasoning_effort", Text("None"));
            r.Some? && "reasoning_effort" in r.value.values && r.value.values["reasoning_effort"] == Null
  {
    assert Lower("None") == "none";
    assert "reasoning_effort" in SWITCHABLE;
  }

  /** A write to one field that changes another. */
  lemma ProviderMovesModel(types: Types, f: Fields)
    requires "model" !in f.given && types("provider", Text("openai")) == Some(Text("openai"))
    ensures var r := Assigned(LlmGroup, types, f, "provider", Text("openai"));
            r.Some? && r.value.values == f.values["provider" := Text("openai")]["model" := OPENAI_MODEL]
  {
    assert "openai" in OPENAI_LIKE && "provider" !in SWITCHABLE;
  }

  // ---------- The model as an object ----------

  class Subgroup {
    const kind: Kind
    const types: Types
    var state: Fields

    constructor (kind: Kind, types: Types, state: Fields)
      ensures this.kind == kind && this.types == types && this.state == state
    {
      this.kind, this.types, this.state := kind, types, state;
    }

    /** Attribute assignment; a rejected value raises and changes nothing. */
    method Assign(field: string, v: Value) returns (ok: bool)
      modifies this
      ensures ok == Assigned(kind, types, old(state), field, v).Some?
      ensures state == if ok then Assigned(kind, types, old(state), field, v).value else old(state)
    {
      var coerced := types(field, Cleaned(kind, field, v));
      if coerced.None? { return false; }
      state := Fields(state.values[field := coerced.value], state.given + {field});
      if ModelFollows(kind, state) {
        state := Fields(state.values["model" := OPENAI_MODEL], state.given + {"model"});
      }
      return true;
    }
  }

  class ProxyModel {
    const reg: Registry
    var groups: map<string, Subgroup>
    var own: map<string, Value>

    /** Every group a flat name points into exists. */
    ghost predicate Valid() reads this {
      WellFormed(reg) && forall n :: n in reg ==> reg[n].group in groups
    }

    /** No two groups are the same object. */
    ghost predicate Separate() reads this {
      forall a, b :: a in groups && b in groups && a != b ==> groups[a] != groups[b]
    }

    constructor (reg: Registry, groups: map<string, Subgroup>, own: map<string, Value>)
      ensures this.reg == reg && this.groups == groups && this.own == own
    {
      this.reg, this.groups, this.own := reg, groups, own;
    }

    /** Attribute read: a flat name resolves through the registry. */
    function Get(name: string): Option<Value>
      requires Valid()
      reads this, groups.Values
    {
      if name in reg then
        var values := groups[reg[name].group].state.values;
        if reg[name].field in values then Some(values[reg[name].field]) else None
      else if name in own then Some(own[name]) else None
    }

    /** Attribute write: a flat name assigns in its subgroup, in place; the model's own fields are not validated. */
    method Put(name: string, value: Value) returns (ok: bool)
      requires Valid()
      modifies this`own, if name in reg then {groups[reg[name].group]} else {}
      ensures own == if name in reg then old(own) else old(own)[name := value]
      ensures name !in reg ==> ok
      ensures name in reg ==>
        var s := groups[reg[name].group];
        && ok == Assigned(s.kind, s.types, old(s.state), reg[name].field, value).Some?
        && s.state == if ok then Assigned(s.kind, s.types, old(s.state), reg[name].field, value).value else old(s.state)
    {
      if name in reg {
        var Target(group, field) := reg[name];
        ok := groups[group].Assign(field, value);
      } else {
        own := own[name := value];
        ok := true;
      }
    }

    /** The write would be stored as it is and touch nothing else. */
    predicate PutIsPlain(name: string, value: Value)
      requires Valid()
      reads this, groups.Values
    {
      name in reg ==>
        var s := groups[reg[name].group]; Plain(s.kind, s.types, s.state, reg[name].field, value)
    }

    /**
     With no group shared under two names, a write that no validator alters is read back and changes
     no other attribute; `PlainExactly` says that these are the only such writes.
     */
    method PutAlone(name: string, value: Value) returns (ok: bool)
      requires Valid() && Separate() && PutIsPlain(name, value)
      modifies this`own, if name in reg then {groups[reg[name].group]} else {}
      ensures ok && Valid() && Get(name) == Some(value)
      ensures forall other :: other != name ==> Get(other) == old(Get(other))
    {
      if name in reg {
        var s := groups[reg[name].group];
        PlainExactly(s.kind, s.types, s.state, reg[name].field, value);
      }
      ok := Put(name, value);
    }

    /**
     model_copy(update=..., deep=...): groups a flat key points into are copied and updated without
     validation; the others are shared with the original, or copied as they are when deep.
     */
    method ModelCopy(update: map<string, Value>, whole: map<string, Subgroup>, deep: bool) returns (copy: ProxyModel)
      requires Valid() && whole.Keys <= groups.Keys
      ensures fresh(copy) && copy.reg == reg && copy.groups.Keys == groups.Keys
      ensures copy.own == own + Part(update, update.Keys - reg.Keys)
      ensures forall g :: g in groups && g !in Touched(update, reg) ==>
        if deep && g !in whole then fresh(copy.groups[g]) && SameGroup(copy.groups[g], groups[g])
        else copy.groups[g] == (groups + whole)[g]
      ensures forall g :: g in groups && g in Touched(update, reg) ==>
        fresh(copy.groups[g]) && UpdatedGroup(copy.groups[g], (groups + whole)[g], Grouped(update, reg, g))
    {
      var plain, grouped := SortKeys(update, reg);
      var made := CopiedForUpdate(groups, whole, grouped, deep);
      copy := new ProxyModel(reg, made, own + plain);
    }

  }

  ghost predicate SameGroup(copy: Subgroup, s: Subgroup)
    reads copy, s
  {
    copy.kind == s.kind && copy.types == s.types && copy.state == s.state
  }

  ghost predicate UpdatedGroup(copy: Subgroup, s: Subgroup, fields: map<string, Value>)
    reads copy, s
  {
    && copy.kind == s.kind && copy.types == s.types
    && copy.state == Fields(s.state.values + fields, s.state.given + fields.Keys)
  }

  method CopiedGroups(groups: map<string, Subgroup>) returns (made: map<string, Subgroup>)
    ensures made.Keys == groups.Keys
    ensures forall g :: g in groups ==> fresh(made[g]) && SameGroup(made[g], groups[g])
  {
    made := groups;
    var done: set<string> := {};
    while done != groups.Keys
      invariant done <= groups.Keys && made.Keys == groups.Keys
      invariant forall g :: g in done ==> fresh(made[g]) && SameGroup(made[g], groups[g])
      decreases groups.Keys - done
    {
      assert groups.Keys - done != {};
      var group :| group in groups.Keys - done;
      var s := groups[group];
      var part := new Subgroup(s.kind, s.types, s.state);
      made := made[group := part];
      done := done + {group};
    }
  }

  /** The groups of a copy: updated ones replaced, the rest shared or, when deep, copied unless given whole. */
  method CopiedForUpdate(groups: map<string, Subgroup>, whole: map<string, Subgroup>,
                         grouped: map<string, map<string, Value>>, deep: bool) returns (made: map<string, Subgroup>)
    requires grouped.Keys <= groups.Keys && whole.Keys <= groups.Keys
    ensures made.Keys == groups.Keys
    ensures forall g :: g in groups && g !in grouped ==>
      if deep && g !in whole then fresh(made[g]) && SameGroup(made[g], groups[g]) else made[g] == (groups + whole)[g]
    ensures forall g :: g in grouped ==> fresh(made[g]) && UpdatedGroup(made[g], (groups + whole)[g], grouped[g])
  {
    var base := groups;
    if deep {
      base := CopiedGroups(groups);
    }
    made := UpdatedGroups(groups + whole, base + whole, grouped);
  }

  /** A group with routed fields is replaced by an updated copy of itself, the others come from `base`. */
  method UpdatedGroups(chosen: map<string, Subgroup>, base: map<string, Subgroup>,
                       grouped: map<string, map<string, Value>>)
    returns (made: map<string, Subgroup>)
    requires grouped.Keys <= chosen.Keys == base.Keys
    ensures made.Keys == chosen.Keys
    ensures forall g :: g in chosen && g !in grouped ==> made[g] == base[g]
    ensures forall g :: g in grouped ==> fresh(made[g]) && UpdatedGroup(made[g], chosen[g], grouped[g])
  {
    made := base;
    var done: set<string> := {};
    while done != grouped.Keys
      invariant done <= grouped.Keys
      invariant made.Keys == chosen.Keys
      invariant forall g :: g in chosen && g !in done ==> made[g] == base[g]
      invariant forall g :: g in done ==> fresh(made[g]) && UpdatedGroup(made[g], chosen[g], grouped[g])
      decreases grouped.Keys - done
    {
      assert grouped.Keys - done != {};
      var group :| group in grouped.Keys - done;
      var s, fields := chosen[group], grouped[group];
      var part := new Subgroup(s.kind, s.types, Fields(s.state.values + fields, s.state.given + fields.Keys));
      made := made[group := part];
      done := done + {group};
    }
  }

  /**
   Writing a flat name through an updated copy reaches the original exactly when the copy is shallow
   and the update did not touch that name's group: the two then hold the same object.
   */
  method WriteThroughCopy(m: ProxyModel, update: map<string, Value>, deep: bool, name: string, value: Value)
    returns (copy: ProxyModel, ok: bool)
    requires m.Valid() && name in m.reg
    modifies m.groups.Values
    ensures fresh(copy) && copy.reg == m.reg && copy.Valid() && m.groups == old(m.groups)
    ensures var Target(g, f) := m.reg[name];
      var s := m.groups[g];
      var reached := !deep && g !in Touched(update, m.reg);
      var after := Assigned(s.kind, s.types, old(s.state), f, value);
      && (reached <==> copy.groups[g] == s)
      && s.state == if reached && after.Some? then after.value else old(s.state)
  {
    copy := m.ModelCopy(update, map[], deep);
    var Target(group, field) := m.reg[name];
    var s := m.groups[group];
    assert (m.groups + map[])[group] == s;
    ok := copy.Put(name, value);
  }
}
