/**
 The precedence of the resolved configuration as one statement: plugin < profile < setup defaults <
 shared YAML < role section < command line.
 */
module ConfigPrecedence {
  import opened Basics
  import opened ConfigMerge
  import opened ConfigModel

  /** The shared keys that count: neither null themselves nor erased by a null of the role section. */
  function SharedKept(raw: Document, role: string): Document {
    Block(map k | k in Shared(raw).entries && Shared(raw).entries[k] != Null &&
                  !(k in RoleSection(raw, role).entries && RoleSection(raw, role).entries[k] == Null) ::
      Shared(raw).entries[k])
  }

  /** The YAML layer is these shared keys under the non-null keys of the role section, for every document. */
  lemma YamlLayerExactly(raw: Document, role: string)
    ensures YamlLayer(raw, role) == Merge(SharedKept(raw, role), DropNulls(RoleSection(raw, role)))
  {
    var s, r := Shared(raw), RoleSection(raw, role);
    var left, right := YamlLayer(raw, role), Merge(SharedKept(raw, role), DropNulls(r));
    forall k: string
      ensures k in left.entries <==> k in right.entries
      ensures k in left.entries ==> left.entries[k] == right.entries[k]
    {
      YamlEntry(raw, role, k);
    }
    assert left.entries == right.entries;
  }

  lemma YamlEntry(raw: Document, role: string, k: string)
    ensures var left, right := YamlLayer(raw, role), Merge(SharedKept(raw, role), DropNulls(RoleSection(raw, role)));
      (k in left.entries <==> k in right.entries) && (k in left.entries ==> left.entries[k] == right.entries[k])
  {
    var s, r := Shared(raw), RoleSection(raw, role);
    if k in r.entries {
      assert Merge(s, r).entries[k] == Entry(s, r, k);
      if r.entries[k] != Null {
        assert Entry(s, r, k) == Entry(SharedKept(raw, role), DropNulls(r), k);
      }
    }
  }

  function SixLayers(below: seq<Document>, defaults: Document, raw: Document, role: string, cli: Document)
    : seq<Document>
  {
    below + [DropNulls(defaults), SharedKept(raw, role), DropNulls(RoleSection(raw, role)), Provided(cli)]
  }

  /** Two layers merged into one define at a path what the upper one does, and otherwise what the lower one does. */
  lemma MergedLayer(base: Document, over: Document, path: seq<string>)
    requires !Clashes(base, path) && !Clashes(over, path)
    ensures var m := Merge(base, over);
      && !Clashes(m, path)
      && (Defines(m, path) <==> Defines(base, path) || Defines(over, path))
      && (Defines(m, path) ==> At(m, path) == if Defines(over, path) then At(over, path) else At(base, path))
  {
    MergeAt(base, over, path);
    if Speaks(Merge(base, over), path) { MergeSpeaks(base, over, path); }
    if Defines(over, path) { DefinesSpeaks(over, path); }
    if Defines(base, path) { DefinesSpeaks(base, path); }
  }

  /** Layer i of these defines the path and no higher one does. */
  predicate Decides(layers: seq<Document>, i: nat, path: seq<string>) {
    i < |layers| && Defines(layers[i], path) && forall j :: i < j < |layers| ==> !Defines(layers[j], path)
  }

  predicate ClashFree(layers: seq<Document>, path: seq<string>) {
    forall i :: 0 <= i < |layers| ==> !Clashes(layers[i], path)
  }

  /** Of two layers merged inside a stack, the highest definer is still the one that is seen. */
  lemma MergedInside(lower: seq<Document>, a: Document, b: Document, upper: seq<Document>, path: seq<string>)
    requires path != [] && ClashFree(lower + [a, b] + upper, path)
    ensures ClashFree(lower + [Merge(a, b)] + upper, path)
    ensures forall i: nat :: Decides(lower + [a, b] + upper, i, path) ==>
      At(Stack(lower + [Merge(a, b)] + upper), path) == At((lower + [a, b] + upper)[i], path)
    ensures (forall i :: 0 <= i < |lower + [a, b] + upper| ==> !Defines((lower + [a, b] + upper)[i], path)) ==>
      !Defines(Stack(lower + [Merge(a, b)] + upper), path)
  {
    var six, five := lower + [a, b] + upper, lower + [Merge(a, b)] + upper;
    var n := |lower|;
    assert six[n] == a && six[n + 1] == b && five[n] == Merge(a, b);
    assert forall j :: 0 <= j < n ==> six[j] == five[j] == lower[j];
    assert forall j :: 0 <= j < |upper| ==> six[n + 2 + j] == five[n + 1 + j] == upper[j];
    MergedLayer(a, b, path);
    MovedDown(six, five, n, path);
    RightmostDefiner(five, path);
    forall i: nat | Decides(six, i, path) ensures At(Stack(five), path) == At(six[i], path) {
      var j := if i <= n then i else i - 1;
      assert Decides(five, j, path) && At(five[j], path) == At(six[i], path);
    }
  }

  /** The layers from position n + 2 on stand one lower once the two at n and n + 1 are one. */
  lemma MovedDown(six: seq<Document>, five: seq<Document>, n: nat, path: seq<string>)
    requires n + 2 <= |six| == |five| + 1 && ClashFree(six, path)
    requires forall j :: 0 <= j < n ==> five[j] == six[j]
    requires forall j :: n < j < |five| ==> five[j] == six[j + 1]
    requires !Clashes(five[n], path)
    requires Defines(five[n], path) <==> Defines(six[n], path) || Defines(six[n + 1], path)
    requires Defines(five[n], path) ==>
      At(five[n], path) == if Defines(six[n + 1], path) then At(six[n + 1], path) else At(six[n], path)
    ensures ClashFree(five, path)
    ensures forall i: nat :: Decides(six, i, path) ==>
      var j := if i <= n then i else i - 1;
      Decides(five, j, path) && At(five[j], path) == At(six[i], path)
    ensures (exists i :: 0 <= i < |five| && Defines(five[i], path)) ==>
              exists i :: 0 <= i < |six| && Defines(six[i], path)
  {
  }

  /**
   A leaf of the resolved document is the leaf of the highest of the six layers defining it, and
   there is one exactly when some layer defines it, wherever no layer clashes.
   */
  lemma ResolvedPrecedence(plugin: Option<Plugin>, below: seq<Document>, defaults: Document, raw: Document,
                           role: string, cli: Document, path: seq<string>)
    requires path != [] && path[0] != "plugin"
    requires ClashFree(SixLayers(below, defaults, raw, role, cli), path)
    ensures var six, resolved := SixLayers(below, defaults, raw, role, cli),
                                 WithPlugin(plugin, Stack(Layers(below, defaults, raw, role, cli)));
      && (forall i: nat :: Decides(six, i, path) ==> At(resolved, path) == At(six[i], path))
      && (Defines(resolved, path) <==> exists i :: 0 <= i < |six| && Defines(six[i], path))
  {
    var six := SixLayers(below, defaults, raw, role, cli);
    var a, b := SharedKept(raw, role), DropNulls(RoleSection(raw, role));
    var lower, upper := below + [DropNulls(defaults)], [Provided(cli)];
    assert six == lower + [a, b] + upper;
    YamlLayerExactly(raw, role);
    assert Layers(below, defaults, raw, role, cli) == lower + [Merge(a, b)] + upper;
    MergedInside(lower, a, b, upper, path);
    if exists i :: 0 <= i < |six| && Defines(six[i], path) {
      var i := Highest(six, path, |six|);
      assert Decides(six, i, path);
    }
  }

  /**
   A setting is read from the highest of the six layers defining it: by its flat name wherever a
   layer has it, and by its nested name when no layer has the flat one.
   */
  lemma SettingPrecedence(plugin: Option<Plugin>, below: seq<Document>, defaults: Document, raw: Document,
                          role: string, cli: Document, reg: Registry, n: string, i: nat)
    requires WellFormed(reg) && n in reg && n != "plugin" && reg[n].group != "plugin"
    requires var six := SixLayers(below, defaults, raw, role, cli);
      var flat, nested := [n], [reg[n].group, reg[n].field];
      || (ClashFree(six, flat) && Decides(six, i, flat))
      || (ClashFree(six, nested) && Decides(six, i, nested) && forall j :: 0 <= j < |six| ==> n !in six[j].entries)
    ensures var six := SixLayers(below, defaults, raw, role, cli);
      Setting(plugin, Layers(below, defaults, raw, role, cli), reg, n) ==
      At(six[i], if Decides(six, i, [n]) then [n] else [reg[n].group, reg[n].field])
  {
    var Target(g, f) := reg[n];
    var six, five := SixLayers(below, defaults, raw, role, cli), Layers(below, defaults, raw, role, cli);
    var resolved := WithPlugin(plugin, Stack(five));
    RoutedReadsBack(resolved.entries, reg, n, []);
    assert [g, f] + [] == [g, f];
    OneKey(resolved, n);
    if Decides(six, i, [n]) {
      OneKey(six[i], n);
      ResolvedPrecedence(plugin, below, defaults, raw, role, cli, [n]);
    } else {
      NoFlatKey(plugin, below, defaults, raw, role, cli, n);
      ResolvedPrecedence(plugin, below, defaults, raw, role, cli, [g, f]);
    }
  }

  lemma NoFlatKey(plugin: Option<Plugin>, below: seq<Document>, defaults: Document, raw: Document, role: string,
                  cli: Document, n: string)
    requires n != "plugin"
    requires var six := SixLayers(below, defaults, raw, role, cli); forall j :: 0 <= j < |six| ==> n !in six[j].entries
    ensures n !in WithPlugin(plugin, Stack(Layers(below, defaults, raw, role, cli))).entries
  {
    var six := SixLayers(below, defaults, raw, role, cli);
    forall j | 0 <= j < |six| ensures At(six[j], [n]) == Absent && !Speaks(six[j], [n]) { OneKey(six[j], n); }
    ResolvedKeys(below, defaults, raw, role, cli, n);
  }

  lemma ResolvedKeys(below: seq<Document>, defaults: Document, raw: Document, role: string, cli: Document, n: string)
    requires var six := SixLayers(below, defaults, raw, role, cli); forall j :: 0 <= j < |six| ==> !Speaks(six[j], [n])
    ensures n !in Stack(Layers(below, defaults, raw, role, cli)).entries
  {
    var six, five := SixLayers(below, defaults, raw, role, cli), Layers(below, defaults, raw, role, cli);
    var k := |below|;
    YamlLayerExactly(raw, role);
    assert six[k + 1] == SharedKept(raw, role) && six[k + 2] == DropNulls(RoleSection(raw, role));
    assert !Speaks(five[k + 1], [n]) by {
      if Speaks(five[k + 1], [n]) { MergeSpeaks(six[k + 1], six[k + 2], [n]); }
    }
    forall j | 0 <= j < |five| ensures !Speaks(five[j], [n]) {
      assert j <= k ==> five[j] == six[j];
      assert j == k + 2 ==> five[j] == six[k + 3];
    }
    StackSilent(five, [n]);
    OneKey(Stack(five), n);
  }
}
