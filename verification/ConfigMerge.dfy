/**
 Layered configuration: the recursive merge and the order of the layers in
 src/core/config_resolve.py.
 */
module ConfigMerge {
  import opened Basics

  /** A YAML or command-line value. A mapping is a Block; everything else is replaced whole. */
  datatype Value =
    | Null
    | Flag(on: bool)
    | Number(amount: real)
    | Text(text: string)
    | Items(items: seq<Value>)
    | PluginObject(name: string)
    | Block(entries: map<string, Value>)

  type Document = v: Value | v.Block? witness Block(map[])

  const NOTHING: Document := Block(map[])

  // ---------- The merge of two documents ----------

  function Merge(base: Document, over: Document): Document
    decreases base, 1
  {
    Block(map k | k in base.entries.Keys + over.entries.Keys ::
      if k in over.entries then Entry(base, over, k) else base.entries[k])
  }

  /** What the override makes of one of its keys: two mappings merge, anything else is replaced. */
  function Entry(base: Document, over: Document, k: string): Value
    requires k in over.entries
    decreases base, 0
  {
    if k in base.entries && base.entries[k].Block? && over.entries[k].Block?
    then Merge(base.entries[k], over.entries[k])
    else over.entries[k]
  }

  /** The loop of deep_merge, over the override's keys in whatever order they come. */
  method DeepMerge(base: Document, over: Document) returns (out: Document)
    ensures out == Merge(base, over)
    decreases base, 1
  {
    var entries, rest := base.entries, over.entries.Keys;
    while rest != {}
      invariant MergedBut(base, over, entries, rest)
      decreases |rest|
    {
      var key :| key in rest;
      var value := MergeKey(base, over, key);
      MergedButStep(base, over, entries, rest, key);
      entries := entries[key := value];
      rest := rest - {key};
    }
    MergedEntries(base, over, entries);
    out := Block(entries);
  }

  /** The entries are merged except for the override's keys still to come. */
  ghost predicate MergedBut(base: Document, over: Document, entries: map<string, Value>, rest: set<string>) {
    && rest <= over.entries.Keys
    && entries.Keys == base.entries.Keys + (over.entries.Keys - rest)
    && (forall k :: k in over.entries && k !in rest ==> entries[k] == Entry(base, over, k))
    && (forall k :: k in base.entries && (k !in over.entries || k in rest) ==> entries[k] == base.entries[k])
  }

  lemma MergedButStep(base: Document, over: Document, entries: map<string, Value>, rest: set<string>, key: string)
    requires MergedBut(base, over, entries, rest) && key in rest
    ensures MergedBut(base, over, entries[key := Entry(base, over, key)], rest - {key})
  { }

  method MergeKey(base: Document, over: Document, key: string) returns (value: Value)
    requires key in over.entries
    ensures value == Entry(base, over, key)
    decreases base, 0
  {
    value := over.entries[key];
    if key in base.entries && base.entries[key].Block? && value.Block? {
      value := DeepMerge(base.entries[key], value);
    }
  }

  lemma MergedEntries(base: Document, over: Document, entries: map<string, Value>)
    requires MergedBut(base, over, entries, {})
    ensures Block(entries) == Merge(base, over)
  {
    assert entries == Merge(base, over).entries;
  }

  // ---------- What a document says at a path of keys ----------

  datatype Sight = Absent | Mapping | Leaf(value: Value)

  function At(v: Value, path: seq<string>): Sight {
    if path == [] then (if v.Block? then Mapping else Leaf(v))
    else if v.Block? && path[0] in v.entries then At(v.entries[path[0]], path[1..])
    else Absent
  }

  /**
   The document settles the path: it holds something there, or a
   non-mapping above it, under which nothing of a lower layer survives.
   */
  predicate Speaks(v: Value, path: seq<string>) {
    path == [] || !v.Block? || (path[0] in v.entries && Speaks(v.entries[path[0]], path[1..]))
  }

  lemma {:induction false} SilentIsAbsent(v: Value, path: seq<string>)
    requires !Speaks(v, path)
    ensures At(v, path) == Absent
    decreases path
  {
    if path[0] in v.entries { SilentIsAbsent(v.entries[path[0]], path[1..]); }
  }

  lemma {:induction false} MergeAt(base: Document, over: Document, path: seq<string>)
    ensures At(Merge(base, over), path) == if Speaks(over, path) then At(over, path) else At(base, path)
    decreases path
  {
    if path != [] {
      var k, rest := path[0], path[1..];
      if k in base.entries && k in over.entries && base.entries[k].Block? && over.entries[k].Block? {
        MergeAt(base.entries[k], over.entries[k], rest);
      } else if k in over.entries && !Speaks(over.entries[k], rest) {
        SilentIsAbsent(over.entries[k], rest);
      }
    }
  }

  /** A merge speaks only where one of the two does. */
  lemma {:induction false} MergeSpeaks(base: Document, over: Document, path: seq<string>)
    requires Speaks(Merge(base, over), path)
    ensures Speaks(base, path) || Speaks(over, path)
    decreases path
  {
    if path != [] {
      var k, rest := path[0], path[1..];
      assert Merge(base, over).entries[k] == if k in over.entries then Entry(base, over, k) else base.entries[k];
      if k in base.entries && k in over.entries && base.entries[k].Block? && over.entries[k].Block? {
        MergeSpeaks(base.entries[k], over.entries[k], rest);
      }
    }
  }

  lemma {:induction false} SightDetermines(u: Value, v: Value)
    requires forall path: seq<string> :: At(u, path) == At(v, path)
    ensures u == v
    decreases u
  {
    assert At(u, []) == At(v, []);
    if u.Block? {
      forall k: string ensures (k in u.entries) == (k in v.entries)
        ensures k in u.entries && k in v.entries ==> u.entries[k] == v.entries[k]
      {
        assert At(u, [k]) == At(v, [k]);
        if k in u.entries && k in v.entries {
          forall path: seq<string> ensures At(u.entries[k], path) == At(v.entries[k], path) {
            assert ([k] + path)[1..] == path;
            assert At(u, [k] + path) == At(v, [k] + path);
          }
          SightDetermines(u.entries[k], v.entries[k]);
        }
      }
      assert u.entries == v.entries;
    }
  }

  /** m says what the override says where that speaks, and what the base says elsewhere. */
  ghost predicate Overlay(m: Value, base: Document, over: Document) {
    forall path: seq<string> :: At(m, path) == if Speaks(over, path) then At(over, path) else At(base, path)
  }

  /** The merge is the only such document. */
  lemma MergeIsOverlayExactly(base: Document, over: Document, m: Document)
    ensures m == Merge(base, over) <==> Overlay(m, base, over)
  {
    forall path: seq<string>
      ensures At(Merge(base, over), path) == if Speaks(over, path) then At(over, path) else At(base, path)
    {
      MergeAt(base, over, path);
    }
    assert Overlay(Merge(base, over), base, over);
    if Overlay(m, base, over) {
      forall path: seq<string> ensures At(m, path) == At(Merge(base, over), path) { }
      SightDetermines(m, Merge(base, over));
    }
  }

  lemma MergeNothing(d: Document)
    ensures Merge(NOTHING, d) == d == Merge(d, NOTHING)
  {
    assert Merge(NOTHING, d).entries == d.entries;
    assert Merge(d, NOTHING).entries == d.entries;
  }

  // ---------- A stack of layers, lowest first ----------

  function Stack(layers: seq<Document>): Document {
    if layers == [] then NOTHING else Merge(Stack(layers[..|layers| - 1]), layers[|layers| - 1])
  }

  /** Layer i settles the path: it speaks there and no higher layer does. */
  predicate Settles(layers: seq<Document>, i: nat, path: seq<string>) {
    i < |layers| && Speaks(layers[i], path) && forall j :: i < j < |layers| ==> !Speaks(layers[j], path)
  }

  lemma {:induction false} StackSettled(layers: seq<Document>, i: nat, path: seq<string>)
    requires Settles(layers, i, path)
    ensures At(Stack(layers), path) == At(layers[i], path)
  {
    var n := |layers| - 1;
    MergeAt(Stack(layers[..n]), layers[n], path);
    if i < n { StackSettled(layers[..n], i, path); }
  }

  lemma {:induction false} StackSilent(layers: seq<Document>, path: seq<string>)
    requires path != [] && forall i :: 0 <= i < |layers| ==> !Speaks(layers[i], path)
    ensures At(Stack(layers), path) == Absent
  {
    if layers != [] {
      var n := |layers| - 1;
      MergeAt(Stack(layers[..n]), layers[n], path);
      StackSilent(layers[..n], path);
    }
  }

  /** A stack says at a path exactly what the highest layer that speaks there says. */
  lemma StackAt(layers: seq<Document>, path: seq<string>)
    ensures forall i: nat :: Settles(layers, i, path) ==> At(Stack(layers), path) == At(layers[i], path)
    ensures path != [] && (forall i :: 0 <= i < |layers| ==> !Speaks(layers[i], path)) ==>
              At(Stack(layers), path) == Absent
  {
    forall i: nat | Settles(layers, i, path) ensures At(Stack(layers), path) == At(layers[i], path) {
      StackSettled(layers, i, path);
    }
    if path != [] && forall i :: 0 <= i < |layers| ==> !Speaks(layers[i], path) { StackSilent(layers, path); }
  }

  /** A layer clashes at the path when it holds a mapping there or a plain value above it. */
  predicate Defines(v: Value, path: seq<string>) { At(v, path).Leaf? }
  predicate Clashes(v: Value, path: seq<string>) { Speaks(v, path) && !Defines(v, path) }

  lemma {:induction false} DefinesSpeaks(v: Value, path: seq<string>)
    requires Defines(v, path)
    ensures Speaks(v, path)
    decreases path
  {
    if path != [] { DefinesSpeaks(v.entries[path[0]], path[1..]); }
  }

  /**
   Rightmost definer: without clashes, a leaf of the stack is the leaf of the
   highest layer that defines it, and a leaf exists exactly when some layer does.
   */
  lemma RightmostDefiner(layers: seq<Document>, path: seq<string>)
    requires path != []
    requires forall i :: 0 <= i < |layers| ==> !Clashes(layers[i], path)
    ensures Defines(Stack(layers), path) <==> exists i :: 0 <= i < |layers| && Defines(layers[i], path)
    ensures forall i :: (0 <= i < |layers| && Defines(layers[i], path) &&
                         forall j :: i < j < |layers| ==> !Defines(layers[j], path)) ==>
      At(Stack(layers), path) == At(layers[i], path)
  {
    StackAt(layers, path);
    forall i | 0 <= i < |layers| ensures Defines(layers[i], path) == Speaks(layers[i], path) {
      if Defines(layers[i], path) { DefinesSpeaks(layers[i], path); }
    }
    forall i |
      0 <= i < |layers| && Defines(layers[i], path) && forall j :: i < j < |layers| ==> !Defines(layers[j], path)
      ensures At(Stack(layers), path) == At(layers[i], path)
    {
      assert Settles(layers, i, path);
    }
    if exists i :: 0 <= i < |layers| && Defines(layers[i], path) {
      var i := Highest(layers, path, |layers|);
    }
  }

  lemma {:induction false} Highest(layers: seq<Document>, path: seq<string>, n: nat) returns (i: nat)
    requires n <= |layers|
    requires exists k :: 0 <= k < n && Defines(layers[k], path)
    ensures i < n && Defines(layers[i], path) && forall j :: i < j < n ==> !Defines(layers[j], path)
  {
    if Defines(layers[n - 1], path) { i := n - 1; } else { i := Highest(layers, path, n - 1); }
  }

  // ---------- The layers of a run ----------

  const DIRECTIVES: set<string> := {"plugin", "plugin_profile", "coordinator", "executor"}

  predicate PrivateKey(k: string) { |k| >= 8 && k[..8] == "_plugin_" }

  function DropNulls(d: Document): Document {
    Block(map k | k in d.entries && d.entries[k] != Null :: d.entries[k])
  }

  function Shared(raw: Document): Document {
    Block(map k | k in raw.entries && k !in DIRECTIVES :: raw.entries[k])
  }

  function RoleSection(raw: Document, role: string): Document {
    if role in raw.entries && raw.entries[role].Block? then raw.entries[role] else NOTHING
  }

  function Provided(cli: Document): Document {
    Block(map k | k in cli.entries && cli.entries[k] != Null && k !in DIRECTIVES && !PrivateKey(k) :: cli.entries[k])
  }

  /** One YAML document as a layer: shared keys, the role's section over them, then nulls dropped. */
  method SplitSection(raw: Document, role: string) returns (layer: Document)
    ensures layer == Merge(Shared(raw), RoleSection(raw, role))
  {
    if role in raw.entries && raw.entries[role].Block? {
      layer := DeepMerge(Shared(raw), raw.entries[role]);
    } else {
      layer := Shared(raw);
      MergeNothing(layer);
    }
  }

  function YamlLayer(raw: Document, role: string): Document {
    DropNulls(Merge(Shared(raw), RoleSection(raw, role)))
  }

  lemma DroppedEntry(s: Document, r: Document, k: string)
    ensures var left, right := DropNulls(Merge(s, r)), Merge(DropNulls(s), DropNulls(r));
      && (k in left.entries <==> k in right.entries && !(k in r.entries && r.entries[k] == Null))
      && (k in left.entries && k in right.entries ==> left.entries[k] == right.entries[k])
  {
    if k in r.entries {
      assert Merge(s, r).entries[k] == Entry(s, r, k);
      if r.entries[k] != Null {
        assert Entry(s, r, k) == Entry(DropNulls(s), DropNulls(r), k);
      }
    }
  }

  /**
   Nulls are dropped after the two parts of the document are merged, so a
   null in the role section erases the shared value instead of leaving it.
   The parts are two null-free layers exactly when that never happens.
   */
  lemma RoleNullExactly(s: Document, r: Document)
    ensures DropNulls(Merge(s, r)) == Merge(DropNulls(s), DropNulls(r)) <==>
      forall k :: k in r.entries && r.entries[k] == Null && k in s.entries ==> s.entries[k] == Null
  {
    var left, right := DropNulls(Merge(s, r)), Merge(DropNulls(s), DropNulls(r));
    forall k: string
      ensures (k in left.entries) == (k in right.entries && !(k in r.entries && r.entries[k] == Null))
      ensures k in left.entries && k in right.entries ==> left.entries[k] == right.entries[k]
    {
      DroppedEntry(s, r, k);
    }
    if forall k :: k in r.entries && r.entries[k] == Null && k in s.entries ==> s.entries[k] == Null {
      assert left.entries == right.entries;
    } else {
      var k :| k in r.entries && r.entries[k] == Null && k in s.entries && s.entries[k] != Null;
      assert k in right.entries && k !in left.entries;
    }
  }

  lemma RoleNullErasesShared(s: Document, r: Document, path: seq<string>)
    requires path != [] && path[0] in r.entries && r.entries[path[0]] == Null
    ensures !Speaks(DropNulls(Merge(s, r)), path)
  {
    assert Merge(s, r).entries[path[0]] == Null;
  }

  // ---------- Resolution ----------

  datatype Plugin = Plugin(name: string, overrides: Document, profiles: map<string, Document>)
  datatype Error = UnknownPlugin | UnknownProfile
  datatype Result<T> = Ok(value: T) | Err(error: Error)
  predicate Truthy(v: Value) {
    match v
    case Null => false
    case Flag(on) => on
    case Number(amount) => amount != 0.0
    case Text(text) => text != ""
    case Items(items) => items != []
    case PluginObject(_) => true
    case Block(entries) => entries != map[]
  }

  predicate Raised(cli: Document, key: string) { key in cli.entries && Truthy(cli.entries[key]) }

  /** The document the plugin and profile names are read from. */
  function DirectiveSource(raw: Document, cli: Document): Document {
    if Raised(cli, "_plugin_disabled") then Block(raw.entries - {"plugin", "plugin_profile"})
    else
      var chosen := Block(map k | k in cli.entries && k in DIRECTIVES && cli.entries[k] != Null :: cli.entries[k]);
      var merged := Merge(raw, chosen);
      if Raised(cli, "_plugin_profile_cleared") then Block(merged.entries - {"plugin_profile"}) else merged
  }

  function NamedIn(d: Document, key: string): Option<string> {
    if key in d.entries && d.entries[key].Text? && d.entries[key].text != "" then Some(d.entries[key].text) else None
  }

  /** The plugin loader is outside the model: it answers each name with a plugin or an error. */
  function PluginOf(load: string -> Result<Plugin>, source: Document): Result<Option<Plugin>> {
    match NamedIn(source, "plugin")
    case None => Ok(None)
    case Some(name) => (match load(name) case Ok(p) => Ok(Some(p)) case Err(e) => Err(e))
  }

  function ProfileOf(plugin: Plugin, source: Document): Result<Document> {
    match NamedIn(source, "plugin_profile")
    case None => Ok(NOTHING)
    case Some(name) => if name in plugin.profiles then Ok(plugin.profiles[name]) else Err(UnknownProfile)
  }

  function PluginLayers(plugin: Option<Plugin>, source: Document): Result<seq<Document>> {
    match plugin
    case None => Ok([NOTHING, NOTHING])
    case Some(p) => (match ProfileOf(p, source) case Ok(profile) => Ok([p.overrides, profile]) case Err(e) => Err(e))
  }

  /** Disabling plugins on the command line overrules every choice of one. */
  lemma DisabledMeansNone(load: string -> Result<Plugin>, raw: Document, cli: Document)
    requires Raised(cli, "_plugin_disabled")
    ensures PluginOf(load, DirectiveSource(raw, cli)) == Ok(None)
  { }

  /** Otherwise the plugin is the one the command line gives if it gives any value, and the YAML document's if not. */
  lemma PluginChosenExactly(raw: Document, cli: Document)
    requires !Raised(cli, "_plugin_disabled")
    ensures NamedIn(DirectiveSource(raw, cli), "plugin") ==
      NamedIn(if "plugin" in cli.entries && cli.entries["plugin"] != Null && !BothBlocks(raw, cli, "plugin")
              then cli else raw, "plugin")
  {
    var chosen := Block(map k | k in cli.entries && k in DIRECTIVES && cli.entries[k] != Null :: cli.entries[k]);
    MergeAt(raw, chosen, ["plugin"]);
  }

  /** No profile once it is cleared or plugins are disabled, and otherwise the one named last. */
  lemma ProfileChosenExactly(raw: Document, cli: Document)
    ensures NamedIn(DirectiveSource(raw, cli), "plugin_profile") ==
      if Raised(cli, "_plugin_disabled") || Raised(cli, "_plugin_profile_cleared") then None
      else NamedIn(if "plugin_profile" in cli.entries && cli.entries["plugin_profile"] != Null
                      && !BothBlocks(raw, cli, "plugin_profile") then cli else raw, "plugin_profile")
  {
    var chosen := Block(map k | k in cli.entries && k in DIRECTIVES && cli.entries[k] != Null :: cli.entries[k]);
    MergeAt(raw, chosen, ["plugin_profile"]);
  }

  predicate BothBlocks(a: Document, b: Document, k: string) {
    k in a.entries && k in b.entries && a.entries[k].Block? && b.entries[k].Block?
  }

  /**
   Directives never reach the configuration from the command line or the
   shared keys, but those written inside the role section do.
   */
  lemma DirectivesLeakExactly(raw: Document, role: string, cli: Document, k: string)
    requires k in DIRECTIVES
    ensures k !in Provided(cli).entries
    ensures k in YamlLayer(raw, role).entries <==>
      k in RoleSection(raw, role).entries && RoleSection(raw, role).entries[k] != Null
  {
    var shared, section := Shared(raw), RoleSection(raw, role);
    assert k !in shared.entries;
    if k in section.entries { assert Merge(shared, section).entries[k] == section.entries[k]; }
  }

  /** Plugin < profile < setup defaults < YAML < command line. */
  function Layers(below: seq<Document>, defaults: Document, raw: Document, role: string, cli: Document): seq<Document> {
    below + [DropNulls(defaults), YamlLayer(raw, role), Provided(cli)]
  }

  function WithPlugin(plugin: Option<Plugin>, d: Document): Document {
    match plugin case None => d case Some(p) => Block(d.entries["plugin" := PluginObject(p.name)])
  }

  lemma StackExtends(layers: seq<Document>, top: Document)
    ensures Stack(layers + [top]) == Merge(Stack(layers), top)
  {
    assert (layers + [top])[..|layers|] == layers;
  }

  lemma StackOfTwo(a: Document, b: Document)
    ensures Stack([a, b]) == Merge(a, b)
  {
    StackExtends([], a);
    StackExtends([a], b);
    assert [] + [a] == [a] && [a] + [b] == [a, b];
    MergeNothing(a);
  }

  lemma StackOfLayers(below: seq<Document>, defaults: Document, raw: Document, role: string, cli: Document)
    ensures Stack(Layers(below, defaults, raw, role, cli)) ==
      Merge(Merge(Merge(Stack(below), DropNulls(defaults)), YamlLayer(raw, role)), Provided(cli))
  {
    StackExtends(below, DropNulls(defaults));
    StackExtends(below + [DropNulls(defaults)], YamlLayer(raw, role));
    StackExtends(below + [DropNulls(defaults)] + [YamlLayer(raw, role)], Provided(cli));
    assert below + [DropNulls(defaults)] + [YamlLayer(raw, role)] + [Provided(cli)] ==
      Layers(below, defaults, raw, role, cli);
  }

  method MergePlugin(plugin: Option<Plugin>, source: Document) returns (r: Result<Document>)
    ensures r == match PluginLayers(plugin, source) case Ok(below) => Ok(Stack(below)) case Err(e) => Err(e)
  {
    var merged := NOTHING;
    if plugin.Some? {
      var p := plugin.value;
      if p.overrides != NOTHING { merged := DeepMerge(merged, p.overrides); }
      MergeNothing(p.overrides);
      var profile := ProfileOf(p, source);
      if profile.Err? { return Err(profile.error); }
      if NamedIn(source, "plugin_profile").Some? { merged := DeepMerge(merged, profile.value); }
      MergeNothing(merged);
      StackOfTwo(p.overrides, profile.value);
    } else {
      StackOfTwo(NOTHING, NOTHING);
      MergeNothing(NOTHING);
    }
    return Ok(merged);
  }

  /** The resolved document, or the first error. */
  function Resolved(load: string -> Result<Plugin>, raw: Document, cli: Document, role: string, defaults: Document)
    : Result<Document>
  {
    var source := DirectiveSource(raw, cli);
    match PluginOf(load, source)
    case Err(e) => Err(e)
    case Ok(plugin) =>
      match PluginLayers(plugin, source)
      case Err(e) => Err(e)
      case Ok(below) => Ok(WithPlugin(plugin, Stack(Layers(below, defaults, raw, role, cli))))
  }

  /** resolve_config up to the point where the typed model is built. */
  method ResolveConfig(load: string -> Result<Plugin>, raw: Document, cli: Document, role: string, defaults: Document)
    returns (r: Result<Document>)
    ensures r == Resolved(load, raw, cli, role, defaults)
  {
    var source := DirectiveSource(raw, cli);
    var found := PluginOf(load, source);
    if found.Err? { return Err(found.error); }
    var plugin := found.value;
    var lower := MergePlugin(plugin, source);
    if lower.Err? { return Err(lower.error); }
    var merged := lower.value;
    MergeNothing(merged);
    if defaults != NOTHING { merged := DeepMerge(merged, DropNulls(defaults)); }
    else { assert DropNulls(defaults).entries == map[]; }
    var section := SplitSection(raw, role);
    merged := DeepMerge(merged, DropNulls(section));
    merged := DeepMerge(merged, Provided(cli));
    StackOfLayers(PluginLayers(plugin, source).value, defaults, raw, role, cli);
    return Ok(WithPlugin(plugin, merged));
  }
}
