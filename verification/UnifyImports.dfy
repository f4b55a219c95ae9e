/** The hook and the import machinery as they run: `sys.modules` and the module
    objects are updated in place, and the hook remembers what PathFinder said.
    Every method is proved against the specification in ImportSpec, and every
    import, however deep in the bodies, starts and ends in a state that satisfies
    the unification invariant. */
module UnifyImports {
  import opened Common
  import opened ImportSpec
  import opened ImportProofs

  /** What an alias import comes to, given what importing its target did. */
  lemma AliasComesTo(env: Env, s: State, n: Name, t: Name, c: Outcome)
    requires Ready(env, s) && Inv(env, s) && n in env.universe && n !in s.modules
    requires |n| > 1 ==> Parent(n) in s.modules && env.isPackage(FileOf(s, Parent(n)))
    requires HookTarget(env, s, n) == Some(t) && t in env.universe && c == Import(env, s, t)
    ensures var r := FindAndLoad(env, s, n);
            && Inv(env, r.state)
            && r == if c.result.None? then c else Outcome(Aliased(c.state, n, c.result.value), c.result)
  {
    AliasKeepsInv(env, s, n);
  }

  lemma FileComesTo(env: Env, s: State, n: Name, f: File)
    requires Ready(env, s) && Inv(env, s) && n in env.universe && n !in s.modules
    requires |n| > 1 ==> Parent(n) in s.modules && env.isPackage(FileOf(s, Parent(n)))
    requires HookTarget(env, s, n) == None && Locate(env, s, n) == Some(f)
    ensures Inv(env, Created(s, n, f)) && Ready(env, Created(s, n, f))
  {
    CreatedKeepsInv(env, s, n, f);
  }

  lemma BodyStep(env: Env, s: State, names: seq<Name>, k: nat)
    requires Ready(env, s) && k < |names| && forall n :: n in names ==> n in env.universe
    ensures names[k] in env.universe && forall n :: n in names[k..] || n in names[k + 1..] ==> n in env.universe
    ensures RunBody(env, s, names[k..]) == RunBody(env, Import(env, s, names[k]).state, names[k + 1..])
  {
    assert names[k..][0] == names[k] && names[k..][1..] == names[k + 1..];
  }

  class Interpreter {
    const env: Env
    var modules: map<Name, nat>
    var objects: seq<Module>
    var executed: seq<File>
    var resolvedCache: map<string, bool>

    function Now(): State
      reads this
    {
      State(modules, objects, executed)
    }

    ghost predicate Valid()
      reads this
    {
      && Ready(env, Now()) && Inv(env, Now())
      && forall top :: top in resolvedCache ==> resolvedCache[top] == ResolvesToSrc(env, top)
    }

    /** The hook is installed in whatever state the imports so far have left. */
    constructor (env: Env, s: State)
      requires Inv(env, s)
      ensures Valid() && this.env == env && Now() == s
    {
      this.env := env;
      modules, objects, executed := s.modules, s.objects, s.executed;
      resolvedCache := map[];
      new;
      assert Now() == s;
    }

    /** `_bare_top_resolves_to_src`: the cached answer is always the fresh one. */
    method BareTopResolvesToSrc(top: string) returns (result: bool)
      requires Valid()
      modifies this`resolvedCache
      ensures Valid() && result == ResolvesToSrc(env, top)
    {
      if top in resolvedCache {
        return resolvedCache[top];
      }
      result := env.pathTop(top) == Some(Src([top]));
      resolvedCache := resolvedCache[top := result];
    }

    /** `_DualImportFinder.find_spec`: the spelling to alias onto, if any. */
    method FindSpec(fullname: Name) returns (target: Option<Name>)
      requires Valid() && |fullname| > 0
      modifies this`resolvedCache
      ensures Valid() && target == HookTarget(env, Now(), fullname)
    {
      if IsSrcSpelling(fullname) {
        var bare := fullname[1..];
        if bare in modules && FromSrc(objects[modules[bare]], bare) {
          return Some(bare);
        }
        return None;
      }
      var top := fullname[0];
      if !Identifier(top) || Private(top) {
        return None;
      }
      var canonical := Canonical(fullname);
      if canonical in modules && FromSrc(objects[modules[canonical]], fullname) {
        return Some(canonical);
      }
      var resolves := BareTopResolvesToSrc(top);
      target := if resolves then Some(canonical) else None;
    }

    /** How far an import of `name` can still go: names left to bind, then
        bound before unbound, then the spelling. */
    ghost function Distance(name: Name): nat
      reads this
    {
      if name in modules then 0 else 1 + Rank(name)
    }

    /** `importlib.import_module`, with None for ModuleNotFoundError. */
    method ImportModule(name: Name) returns (m: Option<nat>)
      requires Valid() && name in env.universe
      modifies this
      ensures Valid() && Outcome(Now(), m) == Import(env, old(Now()), name)
      decreases env.universe - modules.Keys, Distance(name), |name|, 2
    {
      if name in modules {
        return Some(modules[name]);
      }
      if |name| > 1 && Parent(name) !in modules {
        RankOfParent(name);
        var p := ImportModule(Parent(name));
        if p == None {
          return None;
        }
        if name in modules {
          return Some(modules[name]);
        }
      }
      m := FindAndLoadUnlocked(name);
    }

    method FindAndLoadUnlocked(name: Name) returns (m: Option<nat>)
      requires Valid() && name in env.universe && name !in modules
      requires |name| > 1 ==> Parent(name) in modules
      modifies this
      ensures Valid() && Outcome(Now(), m) == FindAndLoad(env, old(Now()), name)
      decreases env.universe - modules.Keys, Distance(name), |name|, 1
    {
      if |name| > 1 && !env.isPackage(objects[modules[Parent(name)]].file) {
        return None;
      }
      var target := FindSpec(name);
      if target.Some? {
        m := LoadAlias(name, target.value);
      } else {
        var found := Locate(env, Now(), name);
        if found == None {
          return None;
        }
        LoadFile(name, found.value);
        m := Some(modules[name]);
      }
    }

    /** `_load_unlocked` with an alias spec: importlib overwrites the object's
        spec before the loader puts the old one back. */
    method LoadAlias(name: Name, target: Name) returns (m: Option<nat>)
      requires Valid() && name in env.universe && name !in modules
      requires HookTarget(env, Now(), name) == Some(target)
      requires |name| > 1 ==> Parent(name) in modules && env.isPackage(objects[modules[Parent(name)]].file)
      modifies this
      ensures Valid() && Outcome(Now(), m) == FindAndLoad(env, old(Now()), name)
      decreases env.universe - modules.Keys, Distance(name), |name|, 0
    {
      assert Spelled(name) in env.universe;
      ghost var before := Now();
      var loader := new AliasLoader(target);
      m := loader.CreateModule(this);
      if m.Some? {
        BindAlias(name, m.value, loader);
      }
      AliasComesTo(env, before, name, target, Import(env, before, target));
    }

    /** The object gets the alias spec and the second name, and then its own spec
        back from the loader. */
    method BindAlias(name: Name, i: nat, loader: AliasLoader)
      requires i < |objects| && loader.origSpec == objects[i].spec
      modifies this`objects, this`modules
      ensures Now() == Aliased(old(Now()), name, i)
    {
      objects := objects[i := objects[i].(spec := Some(name))];
      modules := modules[name := i];
      loader.ExecModule(this, i);
      assert objects == Aliased(old(Now()), name, i).objects;
    }

    /** `_load_unlocked` with a file spec: bound first, then executed. */
    method LoadFile(name: Name, file: File)
      requires Valid() && name in env.universe && name !in modules
      requires |name| > 1 ==> Parent(name) in modules && env.isPackage(objects[modules[Parent(name)]].file)
      requires HookTarget(env, Now(), name) == None && Locate(env, Now(), name) == Some(file)
      modifies this
      ensures Valid() && Now() == RunBody(env, Created(old(Now()), name, file), env.body(file, name))
      ensures name in modules
      decreases env.universe - modules.Keys, Distance(name), |name|, 0
    {
      FileComesTo(env, Now(), name, file);
      modules, objects, executed :=
        modules[name := |objects|], objects + [Module(file, Some(name))], executed + [file];
      assert name in env.universe - old(modules.Keys) && name !in env.universe - modules.Keys;
      ExecBody(env.body(file, name));
    }

    /** A module body's imports, in order, failures swallowed. */
    method ExecBody(names: seq<Name>)
      requires Valid() && forall n :: n in names ==> n in env.universe
      modifies this
      ensures Valid() && Now() == RunBody(env, old(Now()), names)
      decreases env.universe - modules.Keys, 3, |names|, 0
    {
      for k := 0 to |names|
        invariant Valid() && old(modules.Keys) <= modules.Keys
        invariant forall n :: n in names[k..] ==> n in env.universe
        invariant RunBody(env, old(Now()), names) == RunBody(env, Now(), names[k..])
      {
        BodyStep(env, Now(), names, k);
        assert env.universe - modules.Keys <= old(env.universe - modules.Keys);
        var _ := ImportModule(names[k]);
      }
    }
  }

  /** `_AliasLoader`: remembers the spec that importlib is about to overwrite. */
  class AliasLoader {
    const canonical: Name
    var origSpec: Option<Name>

    constructor (canonical: Name)
      ensures this.canonical == canonical && origSpec == None
    {
      this.canonical := canonical;
      origSpec := None;
    }

    method CreateModule(interp: Interpreter) returns (m: Option<nat>)
      requires interp.Valid() && canonical in interp.env.universe
      modifies this, interp
      ensures interp.Valid() && Outcome(interp.Now(), m) == Import(interp.env, old(interp.Now()), canonical)
      ensures m.Some? ==> m.value < |interp.objects| && origSpec == interp.objects[m.value].spec
      decreases interp.env.universe - interp.modules.Keys, interp.Distance(canonical), |canonical|, 3
    {
      m := interp.ImportModule(canonical);
      if m.Some? {
        origSpec := interp.objects[m.value].spec;
      }
    }

    method ExecModule(interp: Interpreter, m: nat)
      requires m < |interp.objects|
      modifies interp`objects
      ensures interp.objects == if origSpec.Some?
                                then old(interp.objects)[m := old(interp.objects[m]).(spec := origSpec)]
                                else old(interp.objects)
    {
      if origSpec.Some? {
        interp.objects := interp.objects[m := interp.objects[m].(spec := origSpec)];
      }
    }
  }
}
