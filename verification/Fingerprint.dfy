/**
 Canonicalising `eas.json`: only the build profiles that can matter for the active APP_ENV are
 kept, so that editing the others does not change the fingerprint.
 */
module Fingerprint {
  import opened Basics

  /** A build profile: an object with its own `env.APP_ENV` and `extends`, or some other value. */
  datatype Profile = Profile(appEnv: string, extended: string, rest: int) | NotAnObject(tag: int)

  type Build = map<string, Profile>

  /** The document; `NoBuild` is one without a `build` object, which is left as it is. */
  datatype Eas = WithBuild(build: Build, rest: int) | NoBuild(rest: int)

  /** JavaScript's string functions: `trim().toLowerCase()` and `trim()`. */
  datatype Text = Text(environment: string -> string, trim: string -> string)

  // ---------- the effective environment of a profile ----------

  /** The existing profile that `name` extends, or "". */
  function Parent(js: Text, build: Build, name: string): string {
    if name in build && build[name].Profile? && js.trim(build[name].extended) in build
    then js.trim(build[name].extended) else ""
  }

  function Effective(js: Text, build: Build, name: string, seen: set<string>): string
    decreases build.Keys - seen
  {
    if name == "" || name in seen || name !in build || !build[name].Profile? then ""
    else
      var direct := js.environment(build[name].appEnv);
      if direct != "" then direct
      else
        var parent := js.trim(build[name].extended);
        if parent != "" && parent in build then
          assert build.Keys - (seen + {name}) < build.Keys - seen by { assert name in build.Keys - seen; }
          Effective(js, build, parent, seen + {name})
        else ""
  }

  /**
   A walk along `extends` through distinct object profiles, none of which sets an environment of its own
   except perhaps the last.
   */
  predicate Inherits(js: Text, build: Build, path: seq<string>) {
    && path != [] && Distinct(path)
    && (forall i :: 0 <= i < |path| ==> path[i] != "" && path[i] in build && build[path[i]].Profile?)
    && (forall i :: 0 <= i < |path| - 1 ==>
          js.environment(build[path[i]].appEnv) == "" && path[i + 1] == js.trim(build[path[i]].extended))
  }

  /** Such a walk from `name` outside `seen`, to a profile with environment `e`. */
  predicate InheritsFrom(js: Text, build: Build, path: seq<string>, name: string, seen: set<string>, e: string) {
    && Inherits(js, build, path) && path[0] == name && (forall i :: 0 <= i < |path| ==> path[i] !in seen)
    && js.environment(build[path[|path| - 1]].appEnv) == e
  }

  lemma InheritsBehind(js: Text, build: Build, path: seq<string>, name: string, seen: set<string>, e: string)
    requires name != "" && name in build && build[name].Profile? && name !in seen
    requires js.environment(build[name].appEnv) == ""
    requires InheritsFrom(js, build, path, js.trim(build[name].extended), seen + {name}, e)
    ensures InheritsFrom(js, build, [name] + path, name, seen, e)
  {
    var longer := [name] + path;
    forall i | 0 <= i < |longer| - 1
      ensures js.environment(build[longer[i]].appEnv) == "" && longer[i + 1] == js.trim(build[longer[i]].extended)
    {
      assert longer[i + 1] == path[i] && (i > 0 ==> longer[i] == path[i - 1]);
    }
    assert longer[|longer| - 1] == path[|path| - 1];
  }

  lemma InheritsTail(js: Text, build: Build, path: seq<string>, name: string, seen: set<string>, e: string)
    requires InheritsFrom(js, build, path, name, seen, e) && |path| > 1
    ensures InheritsFrom(js, build, path[1..], js.trim(build[name].extended), seen + {name}, e)
  {
    var rest := path[1..];
    assert forall i :: 0 <= i < |rest| ==> rest[i] == path[i + 1];
  }

  /** The effective environment is followed down to the first profile that sets one, cycles ending without. */
  lemma {:induction false} EffectiveWalk(js: Text, build: Build, name: string, seen: set<string>, e: string)
    requires e != ""
    ensures Effective(js, build, name, seen) == e <==> exists path :: InheritsFrom(js, build, path, name, seen, e)
    decreases build.Keys - seen
  {
    if name == "" || name in seen || name !in build || !build[name].Profile? {
      NoWalkFrom(js, build, name, seen, e);
    } else if js.environment(build[name].appEnv) != "" {
      OwnEnvironment(js, build, name, seen, e);
    } else {
      assert build.Keys - (seen + {name}) < build.Keys - seen by { assert name in build.Keys - seen; }
      var parent := js.trim(build[name].extended);
      EffectiveWalk(js, build, parent, seen + {name}, e);
      InheritedEnvironment(js, build, name, seen, e);
    }
  }

  lemma NoWalkFrom(js: Text, build: Build, name: string, seen: set<string>, e: string)
    requires name == "" || name in seen || name !in build || !build[name].Profile?
    ensures !exists path :: InheritsFrom(js, build, path, name, seen, e)
  {
  }

  lemma OwnEnvironment(js: Text, build: Build, name: string, seen: set<string>, e: string)
    requires name != "" && name !in seen && name in build && build[name].Profile?
    requires js.environment(build[name].appEnv) != ""
    ensures (exists path :: InheritsFrom(js, build, path, name, seen, e)) <==> js.environment(build[name].appEnv) == e
  {
    if js.environment(build[name].appEnv) == e { assert InheritsFrom(js, build, [name], name, seen, e); }
    if path :| InheritsFrom(js, build, path, name, seen, e) {
      assert path[0] == name && |path| == 1;
    }
  }

  lemma InheritedEnvironment(js: Text, build: Build, name: string, seen: set<string>, e: string)
    requires name != "" && name !in seen && name in build && build[name].Profile?
    requires js.environment(build[name].appEnv) == "" && e != ""
    ensures (exists path :: InheritsFrom(js, build, path, name, seen, e)) <==>
            exists path :: InheritsFrom(js, build, path, js.trim(build[name].extended), seen + {name}, e)
  {
    if path :| InheritsFrom(js, build, path, name, seen, e) {
      assert |path| > 1;
      InheritsTail(js, build, path, name, seen, e);
    }
    if path :| InheritsFrom(js, build, path, js.trim(build[name].extended), seen + {name}, e) {
      InheritsBehind(js, build, path, name, seen, e);
    }
  }

  /**
   A profile's effective environment is that of the first profile along `extends` that sets one, and it has
   none exactly when there is no such profile, for instance because the walk runs into a cycle.
   */
  lemma EffectiveExactly(js: Text, build: Build, name: string)
    ensures var e := Effective(js, build, name, {});
            && (e != "" ==> exists path :: InheritsFrom(js, build, path, name, {}, e))
            && (e == "" <==> forall path, f :: InheritsFrom(js, build, path, name, {}, f) ==> f == "")
            && forall path, f :: InheritsFrom(js, build, path, name, {}, f) && f != "" ==> f == e
  {
    var e := Effective(js, build, name, {});
    if e != "" { EffectiveWalk(js, build, name, {}, e); }
    forall path, f | InheritsFrom(js, build, path, name, {}, f) && f != "" ensures f == e {
      EffectiveWalk(js, build, name, {}, f);
    }
  }

  /** A profile that has to be kept: `base`, or one whose environment, its own or inherited, is the active one. */
  ghost predicate Wanted(js: Text, build: Build, appEnv: string, name: string) {
    && name in build
    && (name == "base" || (appEnv != "" && exists path :: InheritsFrom(js, build, path, name, {}, appEnv)))
  }

  lemma WantedIsSeed(js: Text, build: Build, appEnv: string, name: string)
    ensures Wanted(js, build, appEnv, name) <==> Seed(js, build, appEnv, name)
  {
    if appEnv != "" { EffectiveWalk(js, build, name, {}, appEnv); }
    if name in build && !build[name].Profile? { NoWalkFrom(js, build, name, {}, appEnv); }
  }

  predicate Matches(js: Text, build: Build, appEnv: string, name: string) {
    && name in build && build[name].Profile?
    && Effective(js, build, name, {}) != "" && Effective(js, build, name, {}) == appEnv
  }

  // ---------- what is kept ----------

  predicate Seed(js: Text, build: Build, appEnv: string, name: string) {
    (name == "base" && name in build) || Matches(js, build, appEnv, name)
  }

  /** A walk from a seed along `extends`. */
  predicate Walk(js: Text, build: Build, appEnv: string, path: seq<string>) {
    && path != [] && Seed(js, build, appEnv, path[0])
    && forall i :: 0 < i < |path| ==> path[i] != "" && path[i] == Parent(js, build, path[i - 1])
  }

  ghost predicate Reached(js: Text, build: Build, appEnv: string, name: string) {
    exists path :: Walk(js, build, appEnv, path) && path[|path| - 1] == name
  }

  /** The kept names. */
  ghost function Keep(js: Text, build: Build, appEnv: string): set<string> {
    set name | name in build && Reached(js, build, appEnv, name)
  }

  predicate ClosedUnderExtends(js: Text, build: Build, keep: set<string>) {
    forall name :: name in keep && Parent(js, build, name) != "" ==> Parent(js, build, name) in keep
  }

  ghost predicate HasSeeds(js: Text, build: Build, appEnv: string, keep: set<string>) {
    forall name :: Seed(js, build, appEnv, name) ==> name in keep
  }

  ghost function Canonical(js: Text, eas: Eas, appEnv: string): Eas {
    match eas
    case NoBuild(_) => eas
    case WithBuild(build, rest) => WithBuild(map name | name in Keep(js, build, appEnv) :: build[name], rest)
  }

  lemma {:induction false} WalkStaysInside(js: Text, build: Build, appEnv: string, path: seq<string>, keep: set<string>)
    requires Walk(js, build, appEnv, path)
    requires HasSeeds(js, build, appEnv, keep) && ClosedUnderExtends(js, build, keep)
    ensures path[|path| - 1] in keep
  {
    if |path| > 1 {
      var front := path[..|path| - 1];
      WalkStaysInside(js, build, appEnv, front, keep);
      assert path[|path| - 1] == Parent(js, build, front[|front| - 1]);
    }
  }

  lemma WalkExtends(js: Text, build: Build, appEnv: string, name: string)
    requires Reached(js, build, appEnv, name) && Parent(js, build, name) != ""
    ensures Reached(js, build, appEnv, Parent(js, build, name))
  {
    var path :| Walk(js, build, appEnv, path) && path[|path| - 1] == name;
    var longer := path + [Parent(js, build, name)];
    forall i | 0 < i < |longer| ensures longer[i] != "" && longer[i] == Parent(js, build, longer[i - 1]) {
      if i < |path| { assert path[i] == Parent(js, build, path[i - 1]); }
    }
    assert Walk(js, build, appEnv, longer);
  }

  lemma SeedReached(js: Text, build: Build, appEnv: string, name: string)
    requires Seed(js, build, appEnv, name)
    ensures Reached(js, build, appEnv, name)
  {
    assert Walk(js, build, appEnv, [name]);
  }

  lemma {:induction false} WalkInBuild(js: Text, build: Build, appEnv: string, path: seq<string>)
    requires Walk(js, build, appEnv, path)
    ensures forall i :: 0 <= i < |path| ==> path[i] in build && path[i] in Keep(js, build, appEnv)
  {
    forall i | 0 <= i < |path| ensures path[i] in build && path[i] in Keep(js, build, appEnv) {
      assert Walk(js, build, appEnv, path[..i + 1]);
      assert path[..i + 1][i] == path[i];
      if i > 0 { assert path[i] == Parent(js, build, path[i - 1]); }
    }
  }

  /** The set holds every wanted profile, and the existing parent of each object profile in it. */
  ghost predicate KeepsWhatMatters(js: Text, build: Build, appEnv: string, keep: set<string>) {
    && (forall name :: Wanted(js, build, appEnv, name) ==> name in keep)
    && (forall name :: name in keep && name in build && build[name].Profile? ==>
          var parent := js.trim(build[name].extended);
          parent != "" && parent in build ==> parent in keep)
  }

  /**
   The kept set is the least one that holds `base` (if present) and every profile whose own or inherited
   environment is the active one, and that holds the existing parents of its profiles.
   */
  lemma KeepIsLeast(js: Text, build: Build, appEnv: string, other: set<string>)
    ensures KeepsWhatMatters(js, build, appEnv, Keep(js, build, appEnv)) && Keep(js, build, appEnv) <= build.Keys
    ensures KeepsWhatMatters(js, build, appEnv, other) ==> Keep(js, build, appEnv) <= other
  {
    KeepIsClosed(js, build, appEnv, other);
    forall name ensures Wanted(js, build, appEnv, name) <==> Seed(js, build, appEnv, name) {
      WantedIsSeed(js, build, appEnv, name);
    }
    ClosedExactly(js, build, appEnv, Keep(js, build, appEnv));
    ClosedExactly(js, build, appEnv, other);
  }

  lemma ClosedExactly(js: Text, build: Build, appEnv: string, keep: set<string>)
    requires forall name :: Wanted(js, build, appEnv, name) <==> Seed(js, build, appEnv, name)
    ensures KeepsWhatMatters(js, build, appEnv, keep) <==>
            HasSeeds(js, build, appEnv, keep) && ClosedUnderExtends(js, build, keep)
  {
    assert HasSeeds(js, build, appEnv, keep) <==> forall name :: Wanted(js, build, appEnv, name) ==> name in keep;
    assert forall name :: Parent(js, build, name) != "" <==>
        && name in build && build[name].Profile?
        && js.trim(build[name].extended) != "" && js.trim(build[name].extended) in build;
  }

  /** The canonical document has the kept profiles as they were, and nothing else of it is touched. */
  lemma CanonicalKeeps(js: Text, eas: Eas, appEnv: string)
    ensures var c := Canonical(js, eas, appEnv);
            && (eas.NoBuild? ==> c == eas)
            && (eas.WithBuild? ==>
                  && c.WithBuild? && c.rest == eas.rest && c.build.Keys == Keep(js, eas.build, appEnv)
                  && forall name :: name in c.build ==> name in eas.build && c.build[name] == eas.build[name])
  {
  }

  lemma KeepIsClosed(js: Text, build: Build, appEnv: string, other: set<string>)
    ensures HasSeeds(js, build, appEnv, Keep(js, build, appEnv))
    ensures ClosedUnderExtends(js, build, Keep(js, build, appEnv))
    ensures HasSeeds(js, build, appEnv, other) && ClosedUnderExtends(js, build, other) ==>
              Keep(js, build, appEnv) <= other
  {
    var keep := Keep(js, build, appEnv);
    forall name | Seed(js, build, appEnv, name) ensures name in keep {
      SeedReached(js, build, appEnv, name);
    }
    forall name | name in keep && Parent(js, build, name) != "" ensures Parent(js, build, name) in keep {
      WalkExtends(js, build, appEnv, name);
    }
    if HasSeeds(js, build, appEnv, other) && ClosedUnderExtends(js, build, other) {
      forall name | name in keep ensures name in other {
        var path :| Walk(js, build, appEnv, path) && path[|path| - 1] == name;
        WalkStaysInside(js, build, appEnv, path, other);
      }
    }
  }

  // ---------- the code ----------

  /** One pass over the names kept at its start. */
  method CloseOnce(js: Text, build: Build, keep: set<string>) returns (next: set<string>, changed: bool)
    requires keep <= build.Keys
    ensures keep <= next <= build.Keys
    ensures changed <==> next != keep
    ensures !changed ==> ClosedUnderExtends(js, build, keep)
    ensures forall name :: name in next && name !in keep ==>
              name != "" && exists child :: child in keep && Parent(js, build, child) == name
  {
    next := keep;
    changed := false;
    var todo := keep;
    while todo != {}
      invariant todo <= keep <= next <= build.Keys
      invariant changed <==> next != keep
      invariant forall name :: name in keep && name !in todo && Parent(js, build, name) != "" ==>
                  Parent(js, build, name) in next
      invariant forall name :: name in next && name !in keep ==>
                  name != "" && exists child :: child in keep && Parent(js, build, child) == name
      decreases todo
    {
      var name :| name in todo;
      todo := todo - {name};
      if build[name].Profile? {
        var parent := js.trim(build[name].extended);
        if parent != "" && parent in build && parent !in next {
          assert Parent(js, build, name) == parent;
          next := next + {parent};
          changed := true;
        }
      }
    }
  }

  method CanonicalizeEasJson(js: Text, eas: Eas, appEnv: string) returns (canonical: Eas)
    ensures canonical == Canonical(js, eas, appEnv)
  {
    if eas.NoBuild? { return eas; }
    var build := eas.build;
    var keep: set<string> := {};
    if "base" in build { keep := keep + {"base"}; }
    var todo := build.Keys;
    while todo != {}
      invariant todo <= build.Keys && keep <= build.Keys
      invariant forall name :: name in keep <==>
                  (name == "base" && name in build) || (name !in todo && Matches(js, build, appEnv, name))
      decreases todo
    {
      var name :| name in todo;
      todo := todo - {name};
      if build[name].Profile? {
        var effective := Effective(js, build, name, {});
        if effective != "" && effective == appEnv {
          keep := keep + {name};
        }
      }
    }
    forall name | name in keep ensures Reached(js, build, appEnv, name) {
      SeedReached(js, build, appEnv, name);
    }
    var changed := true;
    while changed
      invariant HasSeeds(js, build, appEnv, keep) && keep <= build.Keys
      invariant forall name :: name in keep ==> Reached(js, build, appEnv, name)
      invariant !changed ==> ClosedUnderExtends(js, build, keep)
      decreases build.Keys - keep, changed
    {
      ghost var before := keep;
      keep, changed := CloseOnce(js, build, keep);
      forall name | name in keep && name !in before ensures Reached(js, build, appEnv, name) {
        var child :| child in before && Parent(js, build, child) == name;
        WalkExtends(js, build, appEnv, child);
      }
    }
    KeepIsClosed(js, build, appEnv, keep);
    assert keep == Keep(js, build, appEnv);
    return WithBuild(map name | name in keep :: build[name], eas.rest);
  }

  // ---------- non-interference ----------

  /** The two tables agree on every name outside `edited`. */
  ghost predicate AgreeOutside(a: Build, b: Build, edited: set<string>) {
    forall name :: name !in edited ==> (name in a <==> name in b) && (name in a ==> a[name] == b[name])
  }

  /** If every profile consulted in `a` is kept there, and no edited profile is, `b` resolves alike. */
  lemma {:induction false} EffectiveAgrees(js: Text, a: Build, b: Build, appEnv: string, edited: set<string>,
                                           name: string, seenA: set<string>)
    requires AgreeOutside(a, b, edited) && edited !! Keep(js, a, appEnv)
    requires Reached(js, a, appEnv, name) && Effective(js, a, name, seenA) != ""
    ensures Effective(js, b, name, seenA) == Effective(js, a, name, seenA)
    decreases a.Keys - seenA
  {
    assert name in Keep(js, a, appEnv);
    assert name !in edited;
    var direct := js.environment(a[name].appEnv);
    if direct == "" {
      var parent := js.trim(a[name].extended);
      assert Parent(js, a, name) == parent;
      WalkExtends(js, a, appEnv, name);
      assert parent in Keep(js, a, appEnv);
      assert a.Keys - (seenA + {name}) < a.Keys - seenA by { assert name in a.Keys - seenA; }
      EffectiveAgrees(js, a, b, appEnv, edited, parent, seenA + {name});
    }
  }

  lemma SeedAgrees(js: Text, a: Build, b: Build, appEnv: string, edited: set<string>, name: string)
    requires AgreeOutside(a, b, edited) && edited !! Keep(js, a, appEnv)
    requires Seed(js, a, appEnv, name)
    ensures Seed(js, b, appEnv, name)
  {
    SeedReached(js, a, appEnv, name);
    assert name in Keep(js, a, appEnv);
    if Matches(js, a, appEnv, name) {
      EffectiveAgrees(js, a, b, appEnv, edited, name, {});
    }
  }

  lemma WalkAgrees(js: Text, a: Build, b: Build, appEnv: string, edited: set<string>, path: seq<string>)
    requires AgreeOutside(a, b, edited) && edited !! Keep(js, a, appEnv)
    requires Walk(js, a, appEnv, path)
    ensures Walk(js, b, appEnv, path)
  {
    SeedAgrees(js, a, b, appEnv, edited, path[0]);
    WalkInBuild(js, a, appEnv, path);
    forall i | 0 < i < |path| ensures path[i] == Parent(js, b, path[i - 1]) {
      assert path[i - 1] !in edited && path[i] !in edited;
      assert path[i] == Parent(js, a, path[i - 1]);
    }
  }

  lemma KeepIncluded(js: Text, a: Build, b: Build, appEnv: string, edited: set<string>)
    requires AgreeOutside(a, b, edited) && edited !! Keep(js, a, appEnv)
    ensures Keep(js, a, appEnv) <= Keep(js, b, appEnv)
  {
    forall name | name in Keep(js, a, appEnv) ensures name in Keep(js, b, appEnv) {
      var path :| Walk(js, a, appEnv, path) && path[|path| - 1] == name;
      WalkAgrees(js, a, b, appEnv, edited, path);
      WalkInBuild(js, b, appEnv, path);
    }
  }

  /**
   Adding, removing or editing any set of profiles that are kept neither before nor after
   leaves the canonical document unchanged.
   */
  lemma UnkeptProfilesDoNotInterfere(js: Text, a: Build, b: Build, rest: int, appEnv: string, edited: set<string>)
    requires AgreeOutside(a, b, edited)
    requires edited !! Keep(js, a, appEnv) && edited !! Keep(js, b, appEnv)
    ensures Canonical(js, WithBuild(a, rest), appEnv) == Canonical(js, WithBuild(b, rest), appEnv)
  {
    KeepIncluded(js, a, b, appEnv, edited);
    KeepIncluded(js, b, a, appEnv, edited);
    forall name | name in Keep(js, a, appEnv) ensures name in a && name in b && a[name] == b[name] {
      assert name !in edited;
    }
  }

  /** Canonicalising twice is canonicalising once. */
  lemma CanonicalIdempotent(js: Text, eas: Eas, appEnv: string)
    ensures Canonical(js, Canonical(js, eas, appEnv), appEnv) == Canonical(js, eas, appEnv)
  {
    if eas.WithBuild? {
      var kept := Canonical(js, eas, appEnv).build;
      UnkeptProfilesDoNotInterfere(js, eas.build, kept, eas.rest, appEnv, eas.build.Keys - kept.Keys);
    }
  }
}
