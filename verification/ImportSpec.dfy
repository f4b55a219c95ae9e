/** Python's import protocol with the two-spelling hook in front of it, as a
    state-passing specification.  A dotted name is a sequence of parts; a module
    object is an index into `objects`, so two names denote one object exactly
    when `modules` maps them to one index. */
module ImportSpec {
  import opened Common

  type Name = seq<string>

  /** The file a module object was loaded from.  `Src(p)` is the file below
      src/ for the dotted path p, and `Src([])` is the package src itself. */
  datatype File = Src(path: Name) | Foreign(id: nat)

  /** `spec` is the name held by the object's `__spec__`, if it has one. */
  datatype Module = Module(file: File, spec: Option<Name>)

  datatype State = State(modules: map<Name, nat>, objects: seq<Module>, executed: seq<File>)

  datatype Outcome = Outcome(state: State, result: Option<nat>)

  /** Everything the interpreter finds outside `sys.modules`. */
  datatype Env = Env(
    universe: set<Name>,                          // every name that can be asked for
    entries: set<Name>,                           // paths that have a file below src/
    isPackage: File -> bool,
    pathTop: string -> Option<File>,              // PathFinder alone, on sys.path
    restTop: string -> Option<File>,              // all finders behind the hook
    foreignChild: (nat, string) -> Option<nat>,
    body: (File, Name) -> seq<Name>)              // imports a body runs, per loading name

  const SRC: string := "src"
  const ROOT: Name := [SRC]

  predicate IsSrcSpelling(n: Name) { |n| >= 2 && n[0] == SRC }

  function Canonical(n: Name): Name { ROOT + n }

  function Parent(n: Name): Name
    requires |n| > 1
  {
    n[..|n| - 1]
  }

  /** The path below src/ that a name spells. */
  function Spelled(n: Name): Name { if IsSrcSpelling(n) then n[1..] else n }

  predicate IdentifierStart(c: char) { c == '_' || 'a' <= c <= 'z' || 'A' <= c <= 'Z' }

  predicate Identifier(s: string) {
    && |s| > 0 && IdentifierStart(s[0])
    && forall i :: 0 <= i < |s| ==> IdentifierStart(s[i]) || '0' <= s[i] <= '9'
  }

  predicate Letter(c: char) { c == '_' || c in SMALL || c in CAPITALS }

  /** Which names are identifiers: a single character is one exactly if it is a
      letter or the underscore; two joined are one, and so is one with a digit
      behind it; and none is empty, starts with a digit, or holds anything else. */
  lemma IdentifierLaws(s: string, t: string, c: char)
    ensures Identifier([c]) <==> Letter(c)
    ensures Identifier(s) && Identifier(t) ==> Identifier(s + t)
    ensures Identifier(s) && c in NUMERALS ==> Identifier(s + [c])
    ensures Identifier(s) ==> s != "" && s[0] !in NUMERALS
    ensures Identifier(s) ==> forall i :: 0 <= i < |s| ==> Letter(s[i]) || s[i] in NUMERALS
  {
    Alphabets(c);
    if Identifier(s) {
      forall i | 0 <= i < |s| ensures Letter(s[i]) || s[i] in NUMERALS {
        Alphabets(s[i]);
      }
      Alphabets(s[0]);
    }
  }

  predicate Private(s: string) { |s| > 0 && s[0] == '_' }

  predicate Identifiers(n: Name) { forall i :: 0 <= i < |n| ==> Identifier(n[i]) }

  /** The bare names the hook is prepared to intercept. */
  predicate Hooked(n: Name) { |n| > 0 && Identifier(n[0]) && !Private(n[0]) }

  /** The paths below src/ that the unification promise is about. */
  predicate Covered(p: Name) { Hooked(p) && Identifiers(p) }

  predicate FromSrc(m: Module, n: Name) { m.file == Src(n) && Identifiers(n) }

  predicate ResolvesToSrc(env: Env, top: string) { env.pathTop(top) == Some(Src([top])) }

  ghost predicate Closed(env: Env) {
    && (forall n :: n in env.universe ==> |n| > 0)
    && (forall n {:trigger Parent(n)} :: n in env.universe && |n| > 1 ==> Parent(n) in env.universe)
    && (forall n {:trigger Canonical(n)} :: n in env.universe && n != ROOT && !IsSrcSpelling(n) ==>
          Canonical(n) in env.universe)
    && (forall n {:trigger Spelled(n)} :: n in env.universe ==> Spelled(n) in env.universe)
    && (forall f, n, m :: n in env.universe && m in env.body(f, n) ==> m in env.universe)
  }

  /** What the file system and `sys.path` are assumed to look like. */
  ghost predicate WellFormed(env: Env) {
    && (forall c, p :: env.pathTop(c) == Some(Src(p)) ==> p == [c] || (c == SRC && p == []))
    && (forall c, p :: env.restTop(c) == Some(Src(p)) ==> env.pathTop(c) == env.restTop(c))
    && (forall c, p :: env.pathTop(c) == Some(Src(p)) && |p| > 0 ==> p in env.entries)
  }

  predicate InRange(s: State) {
    forall n :: n in s.modules ==> s.modules[n] < |s.objects|
  }

  ghost predicate Ready(env: Env, s: State) {
    Closed(env) && InRange(s) && ROOT in s.modules
  }

  function FileOf(s: State, n: Name): File
    requires InRange(s) && n in s.modules
  {
    s.objects[s.modules[n]].file
  }

  function Child(env: Env, f: File, c: string): Option<File> {
    match f
    case Src(p) => if p + [c] in env.entries then Some(Src(p + [c])) else None
    case Foreign(k) =>
      match env.foreignChild(k, c)
      case Some(j) => Some(Foreign(j))
      case None => None
  }

  /** The hook's answer: the spelling to alias onto, if it intercepts at all. */
  function HookTarget(env: Env, s: State, n: Name): Option<Name>
    requires InRange(s) && |n| > 0
  {
    if IsSrcSpelling(n) then
      var bare := n[1..];
      if bare in s.modules && FromSrc(s.objects[s.modules[bare]], bare) then Some(bare) else None
    else if !Hooked(n) then
      None
    else
      var canonical := Canonical(n);
      if canonical in s.modules && FromSrc(s.objects[s.modules[canonical]], n) then Some(canonical)
      else if ResolvesToSrc(env, n[0]) then Some(canonical)
      else None
  }

  /** The finders behind the hook. */
  function Locate(env: Env, s: State, n: Name): Option<File>
    requires InRange(s) && |n| > 0
    requires |n| > 1 ==> Parent(n) in s.modules
  {
    if |n| == 1 then env.restTop(n[0]) else Child(env, FileOf(s, Parent(n)), n[|n| - 1])
  }

  ghost predicate Grows(s: State, r: State) {
    && s.modules.Keys <= r.modules.Keys
    && |s.objects| <= |r.objects|
  }

  /** A fresh object bound to n, before its body runs. */
  function Created(s: State, n: Name, f: File): State {
    State(s.modules[n := |s.objects|], s.objects + [Module(f, Some(n))], s.executed + [f])
  }

  /** The alias: n bound to object i, whose spec survives if it has one. */
  function Aliased(s: State, n: Name, i: nat): State
    requires i < |s.objects|
  {
    var m := s.objects[i];
    State(s.modules[n := i],
          if m.spec.Some? then s.objects else s.objects[i := m.(spec := Some(n))],
          s.executed)
  }

  function Rank(n: Name): nat { if IsSrcSpelling(n) then 0 else 1 }

  lemma RankOfParent(n: Name)
    requires |n| > 1 && Parent(n) != ROOT
    ensures Rank(Parent(n)) == Rank(n)
  {
    if |n| == 2 {
      assert Parent(n) == [n[0]];
    }
  }

  /** `importlib.import_module(n)`. */
  ghost function Import(env: Env, s: State, n: Name): (r: Outcome)
    requires Ready(env, s) && n in env.universe
    ensures Ready(env, r.state) && Grows(s, r.state)
    ensures r.result.Some? ==> n in r.state.modules && r.result.value == r.state.modules[n]
    decreases env.universe - s.modules.Keys, Rank(n), |n|, 1
  {
    if n in s.modules then
      Outcome(s, Some(s.modules[n]))
    else if |n| > 1 && Parent(n) !in s.modules then
      RankOfParent(n);
      var p := Import(env, s, Parent(n));
      if p.result.None? then p
      else if n in p.state.modules then Outcome(p.state, Some(p.state.modules[n]))
      else FindAndLoad(env, p.state, n)
    else
      FindAndLoad(env, s, n)
  }

  /** The part of an import that runs once the parent package is bound. */
  ghost function FindAndLoad(env: Env, s: State, n: Name): (r: Outcome)
    requires Ready(env, s) && n in env.universe && n !in s.modules
    requires |n| > 1 ==> Parent(n) in s.modules
    ensures Ready(env, r.state) && Grows(s, r.state)
    ensures r.result.Some? ==> n in r.state.modules && r.result.value == r.state.modules[n]
    decreases env.universe - s.modules.Keys, Rank(n), |n|, 0
  {
    if |n| > 1 && !env.isPackage(FileOf(s, Parent(n))) then
      Outcome(s, None)
    else
      match HookTarget(env, s, n)
      case Some(target) =>
        var c := if target in s.modules then Outcome(s, Some(s.modules[target])) else Import(env, s, target);
        if c.result.None? then c
        else Outcome(Aliased(c.state, n, c.result.value), c.result)
      case None =>
        match Locate(env, s, n)
        case None => Outcome(s, None)
        case Some(f) =>
          var created := Created(s, n, f);
          assert n in env.universe - s.modules.Keys && n !in env.universe - created.modules.Keys;
          var ran := RunBody(env, created, env.body(f, n));
          Outcome(ran, Some(ran.modules[n]))
  }

  /** A module body: its imports in order, each failure swallowed. */
  ghost function RunBody(env: Env, s: State, names: seq<Name>): (r: State)
    requires Ready(env, s) && forall m :: m in names ==> m in env.universe
    ensures Ready(env, r) && Grows(s, r)
    decreases env.universe - s.modules.Keys, 2, |names|, 0
  {
    if names == [] then s
    else RunBody(env, Import(env, s, names[0]).state, names[1..])
  }
}
