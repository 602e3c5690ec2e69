/**
 The resolved configuration in terms of the documents that were given: whose leaf is found at a path, which
 keys of the command line count for nothing, and when resolution fails.
 */
module ResolvedLaws {
  import opened Basics
  import opened ConfigMerge

  /** The keys that name a plugin, a profile or a role, and may not be settings of the whole document. */
  predicate NamesDirective(k: string) {
    k == "plugin" || k == "plugin_profile" || k == "coordinator" || k == "executor"
  }

  /** A command-line entry that is no setting: null, a directive, or private to the plugin switches. */
  predicate Ignored(cli: Document, k: string) {
    (k in cli.entries && cli.entries[k] == Null) || NamesDirective(k) || "_plugin_" <= k
  }

  /** The command line leaves the path to the layers below it. */
  predicate CliSilent(cli: Document, path: seq<string>)
    requires path != []
  {
    Ignored(cli, path[0]) || !Speaks(cli, path)
  }

  /** The document has a section for the role that says something, be it null, at the path. */
  predicate RoleSpeaks(raw: Document, role: string, path: seq<string>) {
    role in raw.entries && raw.entries[role].Block? && Speaks(raw.entries[role], path)
  }

  /** Nothing the YAML document says to every role reaches the path. */
  predicate SharedSilent(raw: Document, path: seq<string>)
    requires path != []
  {
    NamesDirective(path[0]) || !Speaks(raw, path) || (path[0] in raw.entries && raw.entries[path[0]] == Null)
  }

  /** A leaf of a document other than a null directly under the document's root. */
  predicate GivesLeaf(d: Document, path: seq<string>) {
    path != [] && Defines(d, path) && path[0] in d.entries && d.entries[path[0]] != Null
  }

  // ---------- the switches ----------

  /** A name counts when it is a text that is not empty. */
  lemma NamedExactly(d: Document, key: string, name: string)
    ensures NamedIn(d, key) == Some(name) <==> key in d.entries && d.entries[key] == Text(name) && name != ""
  {
  }

  /** A switch is on for every value but the empty one of its kind. */
  lemma RaisedExactly(cli: Document, key: string)
    ensures Raised(cli, key) <==>
            && key in cli.entries
            && cli.entries[key] !in {Null, Flag(false), Number(0.0), Text(""), Items([]), Block(map[])}
  {
  }

  // ---------- what the layers are ----------

  lemma FirstKeyDecides(d: Document, e: Document, path: seq<string>)
    requires path != [] && path[0] in d.entries && path[0] in e.entries && d.entries[path[0]] == e.entries[path[0]]
    ensures At(d, path) == At(e, path) && Speaks(d, path) == Speaks(e, path)
  {
  }

  lemma CliQuiet(cli: Document, path: seq<string>)
    requires path != [] && CliSilent(cli, path)
    ensures !Speaks(Provided(cli), path)
  {
    var k := path[0];
    assert "_plugin_" <= k <==> PrivateKey(k);
    if k in Provided(cli).entries { FirstKeyDecides(Provided(cli), cli, path); }
  }

  /** What the YAML layer says where the role section speaks, and where it does not. */
  lemma YamlSaysRole(raw: Document, role: string, path: seq<string>)
    requires path != [] && RoleSpeaks(raw, role, path)
    ensures var section := raw.entries[role];
            if path[0] in section.entries && section.entries[path[0]] == Null then !Speaks(YamlLayer(raw, role), path)
            else Defines(section, path) ==>
                   Speaks(YamlLayer(raw, role), path) && At(YamlLayer(raw, role), path) == At(section, path)
  {
    var section, layer := raw.entries[role], YamlLayer(raw, role);
    var merged := Merge(Shared(raw), section);
    MergeAt(Shared(raw), section, path);
    if path[0] in section.entries && section.entries[path[0]] == Null {
      assert merged.entries[path[0]] == Null;
    } else if Defines(section, path) {
      assert At(merged, path) == At(section, path);
      KeptByDropping(merged, path);
      DefinesSpeaks(layer, path);
    }
  }

  /** Dropping nulls keeps a leaf under any key that is not null itself. */
  lemma KeptByDropping(d: Document, path: seq<string>)
    requires path != [] && path[0] in d.entries && d.entries[path[0]] != Null
    ensures At(DropNulls(d), path) == At(d, path) && Speaks(DropNulls(d), path) == Speaks(d, path)
  {
    FirstKeyDecides(DropNulls(d), d, path);
  }

  lemma SharedSays(raw: Document, path: seq<string>)
    requires path != []
    ensures SharedSilent(raw, path) && Speaks(Shared(raw), path) ==> Shared(raw).entries[path[0]] == Null
    ensures GivesLeaf(raw, path) && !NamesDirective(path[0]) ==> At(Shared(raw), path) == At(raw, path)
  {
    if path[0] in Shared(raw).entries { FirstKeyDecides(Shared(raw), raw, path); }
  }

  /** What the YAML layer says where the role section is silent. */
  lemma YamlSaysShared(raw: Document, role: string, path: seq<string>)
    requires path != [] && !RoleSpeaks(raw, role, path)
    ensures SharedSilent(raw, path) ==> !Speaks(YamlLayer(raw, role), path)
    ensures GivesLeaf(raw, path) && !NamesDirective(path[0]) ==>
              Speaks(YamlLayer(raw, role), path) && At(YamlLayer(raw, role), path) == At(raw, path)
  {
    var section := RoleSection(raw, role);
    var merged := Merge(Shared(raw), section);
    SharedSays(raw, path);
    MergeAt(Shared(raw), section, path);
    if GivesLeaf(raw, path) && !NamesDirective(path[0]) {
      assert Defines(merged, path);
      assert merged.entries[path[0]] != Null;
      KeptByDropping(merged, path);
      DefinesSpeaks(merged, path);
    }
    if SharedSilent(raw, path) && Speaks(YamlLayer(raw, role), path) {
      KeptByDropping(merged, path);
      MergeSpeaks(Shared(raw), section, path);
      assert Shared(raw).entries[path[0]] == Null;
      SilentUnderNull(Shared(raw), section, path);
    }
  }

  /** A null is not merged into: what is silent above it leaves the null. */
  lemma SilentUnderNull(base: Document, over: Document, path: seq<string>)
    requires path != [] && path[0] in base.entries && base.entries[path[0]] == Null && !Speaks(over, path)
    requires path[0] in Merge(base, over).entries && Speaks(Merge(base, over), path)
    ensures Merge(base, over).entries[path[0]] == Null
  {
  }

  // ---------- whose leaf is found ----------

  /** The layers of a resolution that succeeds. */
  lemma LayersOf(load: string -> Result<Plugin>, raw: Document, cli: Document, role: string, defaults: Document)
    returns (plugin: Option<Plugin>, below: seq<Document>)
    requires Resolved(load, raw, cli, role, defaults).Ok?
    ensures PluginOf(load, DirectiveSource(raw, cli)) == Ok(plugin)
    ensures PluginLayers(plugin, DirectiveSource(raw, cli)) == Ok(below) && |below| == 2
    ensures Resolved(load, raw, cli, role, defaults).value ==
            WithPlugin(plugin, Stack(Layers(below, defaults, raw, role, cli)))
    ensures Layers(below, defaults, raw, role, cli) ==
            [below[0], below[1], DropNulls(defaults), YamlLayer(raw, role), Provided(cli)]
  {
    plugin := PluginOf(load, DirectiveSource(raw, cli)).value;
    below := PluginLayers(plugin, DirectiveSource(raw, cli)).value;
    assert below == [below[0], below[1]];
  }

  /** Layer `i` of five settles the path: so does the resolved document. */
  lemma SettledInFive(plugin: Option<Plugin>, five: seq<Document>, i: nat, path: seq<string>)
    requires |five| == 5 && i < 5 && path != [] && path[0] != "plugin" && Speaks(five[i], path)
    requires forall j :: i < j < 5 ==> !Speaks(five[j], path)
    ensures At(WithPlugin(plugin, Stack(five)), path) == At(five[i], path)
  {
    assert Settles(five, i, path);
    StackSettled(five, i, path);
  }

  /** A leaf the command line gives under any key but the ignored ones is the resolved one. */
  lemma CommandLineWins(load: string -> Result<Plugin>, raw: Document, cli: Document, role: string,
                        defaults: Document, path: seq<string>)
    requires Resolved(load, raw, cli, role, defaults).Ok?
    requires GivesLeaf(cli, path) && !Ignored(cli, path[0])
    ensures At(Resolved(load, raw, cli, role, defaults).value, path) == At(cli, path)
  {
    var plugin, below := LayersOf(load, raw, cli, role, defaults);
    assert "_plugin_" <= path[0] <==> PrivateKey(path[0]);
    FirstKeyDecides(Provided(cli), cli, path);
    DefinesSpeaks(cli, path);
    SettledInFive(plugin, Layers(below, defaults, raw, role, cli), 4, path);
  }

  /** Where the command line is silent, a leaf of the role's section is, ... */
  lemma RoleSectionWins(load: string -> Result<Plugin>, raw: Document, cli: Document, role: string,
                        defaults: Document, path: seq<string>)
    requires Resolved(load, raw, cli, role, defaults).Ok? && path != [] && path[0] != "plugin"
    requires role in raw.entries && raw.entries[role].Block? && GivesLeaf(raw.entries[role], path)
    requires CliSilent(cli, path)
    ensures At(Resolved(load, raw, cli, role, defaults).value, path) == At(raw.entries[role], path)
  {
    var plugin, below := LayersOf(load, raw, cli, role, defaults);
    DefinesSpeaks(raw.entries[role], path);
    YamlSaysRole(raw, role, path);
    CliQuiet(cli, path);
    SettledInFive(plugin, Layers(below, defaults, raw, role, cli), 3, path);
  }

  /** ... where the section is silent too, a leaf under a shared key of the YAML document is, ... */
  lemma SharedKeyWins(load: string -> Result<Plugin>, raw: Document, cli: Document, role: string,
                      defaults: Document, path: seq<string>)
    requires Resolved(load, raw, cli, role, defaults).Ok?
    requires GivesLeaf(raw, path) && !NamesDirective(path[0])
    requires CliSilent(cli, path) && !RoleSpeaks(raw, role, path)
    ensures At(Resolved(load, raw, cli, role, defaults).value, path) == At(raw, path)
  {
    var plugin, below := LayersOf(load, raw, cli, role, defaults);
    YamlSaysShared(raw, role, path);
    CliQuiet(cli, path);
    SettledInFive(plugin, Layers(below, defaults, raw, role, cli), 3, path);
  }

  /** The YAML document leaves the path to the layers below it, be it by a null in the role's section. */
  predicate YamlSilent(raw: Document, role: string, path: seq<string>)
    requires path != []
  {
    || (!RoleSpeaks(raw, role, path) && SharedSilent(raw, path))
    || (role in raw.entries && raw.entries[role].Block? && path[0] in raw.entries[role].entries
        && raw.entries[role].entries[path[0]] == Null)
  }

  lemma YamlQuiet(raw: Document, role: string, path: seq<string>)
    requires path != [] && YamlSilent(raw, role, path)
    ensures !Speaks(YamlLayer(raw, role), path)
  {
    if RoleSpeaks(raw, role, path) {
      YamlSaysRole(raw, role, path);
    } else {
      assert role in raw.entries && raw.entries[role].Block? && path[0] in raw.entries[role].entries ==>
          !Speaks(raw.entries[role].entries[path[0]], path[1..]);
      YamlSaysShared(raw, role, path);
    }
  }

  /** ... where all of the YAML document is, a leaf of the defaults is, ... */
  lemma DefaultsWin(load: string -> Result<Plugin>, raw: Document, cli: Document, role: string,
                    defaults: Document, path: seq<string>)
    requires Resolved(load, raw, cli, role, defaults).Ok?
    requires GivesLeaf(defaults, path) && path[0] != "plugin"
    requires CliSilent(cli, path) && YamlSilent(raw, role, path)
    ensures At(Resolved(load, raw, cli, role, defaults).value, path) == At(defaults, path)
  {
    var plugin, below := LayersOf(load, raw, cli, role, defaults);
    CliQuiet(cli, path);
    YamlQuiet(raw, role, path);
    KeptByDropping(defaults, path);
    DefinesSpeaks(defaults, path);
    SettledInFive(plugin, Layers(below, defaults, raw, role, cli), 2, path);
  }

  /** The defaults leave the path to the plugin. */
  predicate DefaultsSilent(defaults: Document, path: seq<string>)
    requires path != []
  {
    !Speaks(defaults, path) || (path[0] in defaults.entries && defaults.entries[path[0]] == Null)
  }

  /**
   ... and where the defaults are, the chosen profile's word counts, or that of the plugin's overrides where
   no profile is named or the profile is silent. The plugin itself is recorded under its key.
   */
  lemma PluginComesLast(load: string -> Result<Plugin>, raw: Document, cli: Document, role: string,
                        defaults: Document, name: string, path: seq<string>)
    requires Resolved(load, raw, cli, role, defaults).Ok? && path != [] && path[0] != "plugin"
    requires NamedIn(DirectiveSource(raw, cli), "plugin") == Some(name)
    requires CliSilent(cli, path) && YamlSilent(raw, role, path) && DefaultsSilent(defaults, path)
    ensures load(name).Ok?
    ensures var doc, p := Resolved(load, raw, cli, role, defaults).value, load(name).value;
            && "plugin" in doc.entries && doc.entries["plugin"] == PluginObject(p.name)
            && match NamedIn(DirectiveSource(raw, cli), "plugin_profile")
               case None => Speaks(p.overrides, path) ==> At(doc, path) == At(p.overrides, path)
               case Some(profile) =>
                 && profile in p.profiles
                 && (Speaks(p.profiles[profile], path) ==> At(doc, path) == At(p.profiles[profile], path))
                 && (!Speaks(p.profiles[profile], path) && Speaks(p.overrides, path) ==>
                       At(doc, path) == At(p.overrides, path))
  {
    var plugin, below := LayersOf(load, raw, cli, role, defaults);
    CliQuiet(cli, path);
    YamlQuiet(raw, role, path);
    DefaultsQuiet(defaults, path);
    LowestTwo(plugin, Layers(below, defaults, raw, role, cli), path);
  }

  /** Where the upper three of five layers are silent the second counts, or the first. */
  lemma LowestTwo(plugin: Option<Plugin>, five: seq<Document>, path: seq<string>)
    requires |five| == 5 && path != [] && path[0] != "plugin"
    requires !Speaks(five[2], path) && !Speaks(five[3], path) && !Speaks(five[4], path)
    ensures Speaks(five[1], path) ==> At(WithPlugin(plugin, Stack(five)), path) == At(five[1], path)
    ensures !Speaks(five[1], path) && Speaks(five[0], path) ==>
              At(WithPlugin(plugin, Stack(five)), path) == At(five[0], path)
  {
    if Speaks(five[1], path) {
      SettledInFive(plugin, five, 1, path);
    } else if Speaks(five[0], path) {
      SettledInFive(plugin, five, 0, path);
    }
  }

  lemma DefaultsQuiet(defaults: Document, path: seq<string>)
    requires path != [] && DefaultsSilent(defaults, path)
    ensures !Speaks(DropNulls(defaults), path)
  {
    if path[0] in DropNulls(defaults).entries { KeptByDropping(defaults, path); }
  }

  /** Without a plugin nothing is found where every document is silent. */
  lemma NothingFromNowhere(load: string -> Result<Plugin>, raw: Document, cli: Document, role: string,
                           defaults: Document, path: seq<string>)
    requires path != [] && path[0] != "plugin" && NamedIn(DirectiveSource(raw, cli), "plugin") == None
    requires CliSilent(cli, path) && YamlSilent(raw, role, path) && DefaultsSilent(defaults, path)
    ensures Resolved(load, raw, cli, role, defaults).Ok?
    ensures At(Resolved(load, raw, cli, role, defaults).value, path) == Absent
  {
    var plugin, below := LayersOf(load, raw, cli, role, defaults);
    var five := Layers(below, defaults, raw, role, cli);
    CliQuiet(cli, path);
    YamlQuiet(raw, role, path);
    DefaultsQuiet(defaults, path);
    StackSilent(five, path);
  }

  // ---------- what counts for nothing, and what fails ----------

  /**
   Taking ignored entries off the command line changes nothing, unless it changes the choice of the plugin
   or of its profile.
   */
  lemma IgnoredKeysChangeNothing(load: string -> Result<Plugin>, raw: Document, cli: Document, less: Document,
                                 role: string, defaults: Document)
    requires less.entries.Keys <= cli.entries.Keys
    requires forall k :: k in less.entries ==> less.entries[k] == cli.entries[k]
    requires forall k :: k in cli.entries && k !in less.entries ==> Ignored(cli, k)
    requires NamedIn(DirectiveSource(raw, less), "plugin") == NamedIn(DirectiveSource(raw, cli), "plugin")
    requires NamedIn(DirectiveSource(raw, less), "plugin_profile")
          == NamedIn(DirectiveSource(raw, cli), "plugin_profile")
    ensures Resolved(load, raw, less, role, defaults) == Resolved(load, raw, cli, role, defaults)
  {
    IgnoredNotProvided(cli, less);
    SamePlugin(load, DirectiveSource(raw, less), DirectiveSource(raw, cli));
  }

  lemma IgnoredNotProvided(cli: Document, less: Document)
    requires less.entries.Keys <= cli.entries.Keys
    requires forall k :: k in less.entries ==> less.entries[k] == cli.entries[k]
    requires forall k :: k in cli.entries && k !in less.entries ==> Ignored(cli, k)
    ensures Provided(less) == Provided(cli)
  {
    assert forall k: string :: "_plugin_" <= k <==> PrivateKey(k);
    assert Provided(less).entries == Provided(cli).entries;
  }

  /** The names alone decide what the plugin contributes. */
  lemma SamePlugin(load: string -> Result<Plugin>, a: Document, b: Document)
    requires NamedIn(a, "plugin") == NamedIn(b, "plugin")
    requires NamedIn(a, "plugin_profile") == NamedIn(b, "plugin_profile")
    ensures PluginOf(load, a) == PluginOf(load, b)
    ensures forall plugin :: PluginLayers(plugin, a) == PluginLayers(plugin, b)
  {
  }

  /** Resolution fails exactly when the chosen plugin cannot be loaded or does not have the chosen profile. */
  lemma FailsExactly(load: string -> Result<Plugin>, raw: Document, cli: Document, role: string, defaults: Document)
    ensures Resolved(load, raw, cli, role, defaults).Err? <==>
            match NamedIn(DirectiveSource(raw, cli), "plugin")
            case None => false
            case Some(name) =>
              || load(name).Err?
              || var profile := NamedIn(DirectiveSource(raw, cli), "plugin_profile");
                 profile.Some? && profile.value !in load(name).value.profiles
  {
  }
}
