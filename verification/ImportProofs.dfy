/** What the two-spelling hook guarantees over every sequence of imports. */
module ImportProofs {
  import opened Common
  import opened ImportSpec

  // ---------------------------------------------------------------- invariant

  /** A file a name may denote: the one it spells, or one outside src/. */
  predicate Rightly(n: Name, f: File) { f == Src(Spelled(n)) || (!IsSrcSpelling(n) && f.Foreign?) }

  ghost predicate BindingsNameTheirFile(env: Env, s: State)
    requires Ready(env, s)
  {
    && FileOf(s, ROOT) == Src([])
    && forall n :: n in s.modules && n != ROOT ==>
         && |n| > 0
         && Rightly(n, FileOf(s, n))
  }

  /** The promise itself: two spellings of one src file denote one object. */
  ghost predicate Unified(env: Env, s: State)
    requires Ready(env, s)
  {
    forall p {:trigger Canonical(p)} ::
      Covered(p) && p in s.modules && Canonical(p) in s.modules && FileOf(s, p) == Src(p) ==>
        s.modules[p] == s.modules[Canonical(p)]
  }

  ghost predicate AnchoredAt(s: State, i: nat, p: Name) {
    || (p in s.modules && s.modules[p] == i)
    || (Canonical(p) in s.modules && s.modules[Canonical(p)] == i)
  }

  /** Every object of a covered src file is reachable under one of its spellings. */
  ghost predicate Anchored(env: Env, s: State)
    requires Ready(env, s)
  {
    forall i :: 0 <= i < |s.objects| && s.objects[i].file.Src? && Covered(s.objects[i].file.path) ==>
      AnchoredAt(s, i, s.objects[i].file.path)
  }

  ghost predicate EntriesExist(env: Env, s: State) {
    forall i :: 0 <= i < |s.objects| && s.objects[i].file.Src? && |s.objects[i].file.path| > 0 ==>
      s.objects[i].file.path in env.entries
  }

  /** A bound name has a bound package for a parent; a src module bound only
      under its bare name has the src package for a parent. */
  ghost predicate ParentsBound(env: Env, s: State)
    requires Ready(env, s)
  {
    forall n {:trigger Parent(n)} :: n in s.modules && |n| > 1 ==>
      && Parent(n) in s.modules
      && env.isPackage(FileOf(s, Parent(n)))
      && (!IsSrcSpelling(n) && FileOf(s, n) == Src(n) && Canonical(n) !in s.modules ==>
            FileOf(s, Parent(n)) == Src(Parent(n)))
  }

  /** One body execution per object. */
  predicate Logged(s: State) {
    |s.executed| == |s.objects| && forall i :: 0 <= i < |s.objects| ==> s.executed[i] == s.objects[i].file
  }

  ghost predicate Inv(env: Env, s: State) {
    && WellFormed(env) && Ready(env, s)
    && BindingsNameTheirFile(env, s)
    && Unified(env, s)
    && Anchored(env, s)
    && EntriesExist(env, s)
    && ParentsBound(env, s)
    && Logged(s)
  }

  /** The state right after `import src` in a fresh interpreter. */
  function Initial(): State { State(map[ROOT := 0], [Module(Src([]), Some(ROOT))], [Src([])]) }

  // ------------------------------------------------------- what a step may do

  /** No binding changes, no object changes its file or a spec it has, and a
      bare name that resolves below src/ only ever gets bound to its twin. */
  ghost predicate Extends(env: Env, s: State, r: State) {
    && Ready(env, s) && Ready(env, r) && Grows(s, r)
    && (forall n :: n in s.modules ==> r.modules[n] == s.modules[n])
    && (forall i :: 0 <= i < |s.objects| ==>
          && r.objects[i].file == s.objects[i].file
          && (s.objects[i].spec.Some? ==> r.objects[i].spec == s.objects[i].spec))
    && s.executed <= r.executed
    && (forall n {:trigger Resolving(env, n)} :: n in r.modules && n !in s.modules && Resolving(env, n) ==>
          Canonical(n) in r.modules && r.modules[n] == r.modules[Canonical(n)])
    && (forall i :: |s.objects| <= i < |r.objects| ==>
          r.objects[i].spec.Some? && LoadedAs(r, i, r.objects[i].spec.value))
  }

  ghost predicate LoadedAs(s: State, i: nat, n: Name) { n in s.modules && s.modules[n] == i }

  /** A bare name whose top part PathFinder finds below src/. */
  ghost predicate Resolving(env: Env, n: Name) {
    n != ROOT && !IsSrcSpelling(n) && Hooked(n) && ResolvesToSrc(env, n[0])
  }

  lemma ExtendsTransitive(env: Env, a: State, b: State, c: State)
    requires Extends(env, a, b) && Extends(env, b, c)
    ensures Extends(env, a, c)
  {
    forall n | n in c.modules && n !in a.modules && Resolving(env, n)
      ensures Canonical(n) in c.modules && c.modules[n] == c.modules[Canonical(n)]
    {
      if n in b.modules {
        assert Canonical(n) in b.modules;
      }
    }
    forall i | |a.objects| <= i < |c.objects|
      ensures c.objects[i].spec.Some? && LoadedAs(c, i, c.objects[i].spec.value)
    {
      if i < |b.objects| {
        assert LoadedAs(b, i, b.objects[i].spec.value);
      }
    }
  }

  // ------------------------------------------------------------- single steps

  /** Loading a file under an unbound name the hook passed over. */
  ghost predicate Loadable(env: Env, s: State, n: Name, f: File) {
    && WellFormed(env) && Ready(env, s) && BindingsNameTheirFile(env, s)
    && n in env.universe && n !in s.modules
    && (|n| > 1 ==> Parent(n) in s.modules && env.isPackage(FileOf(s, Parent(n))))
    && HookTarget(env, s, n) == None && Locate(env, s, n) == Some(f)
  }

  lemma CreatedFrame(s: State, n: Name, f: File)
    requires InRange(s) && n !in s.modules
    ensures var r := Created(s, n, f);
            && InRange(r) && n in r.modules && FileOf(r, n) == f
            && forall m :: m in s.modules ==> FileOf(r, m) == FileOf(s, m)
  {
  }

  lemma CreatedUnified(env: Env, s: State, n: Name, f: File)
    requires Loadable(env, s, n, f) && Unified(env, s)
    ensures Unified(env, Created(s, n, f))
  {
    var r := Created(s, n, f);
    CreatedFrame(s, n, f);
    LocatedFile(env, s, n, f);
    forall p | Covered(p) && p in r.modules && Canonical(p) in r.modules && FileOf(r, p) == Src(p)
      ensures r.modules[p] == r.modules[Canonical(p)]
    {
      SpelledTwin(p);
    }
  }

  lemma SpelledTwin(p: Name)
    requires |p| > 0
    ensures IsSrcSpelling(Canonical(p)) && Canonical(p)[1..] == p && Canonical(p) != p && Canonical(p) != ROOT
  {
  }

  lemma CreatedAnchored(env: Env, s: State, n: Name, f: File)
    requires Loadable(env, s, n, f) && Anchored(env, s)
    ensures Anchored(env, Created(s, n, f))
  {
    var r := Created(s, n, f);
    LocatedFile(env, s, n, f);
    if IsSrcSpelling(n) {
      assert Canonical(n[1..]) == n;
    }
    forall i | 0 <= i < |r.objects| && r.objects[i].file.Src? && Covered(r.objects[i].file.path)
      ensures AnchoredAt(r, i, r.objects[i].file.path)
    {
      if i < |s.objects| {
        assert AnchoredAt(s, i, s.objects[i].file.path);
      }
    }
  }

  lemma CreatedParents(env: Env, s: State, n: Name, f: File)
    requires Loadable(env, s, n, f) && ParentsBound(env, s)
    ensures ParentsBound(env, Created(s, n, f))
  {
    LocatedFile(env, s, n, f);
    CreatedFrame(s, n, f);
  }

  lemma CreatedExtends(env: Env, s: State, n: Name, f: File)
    requires Loadable(env, s, n, f)
    ensures Extends(env, s, Created(s, n, f))
  {
    var r := Created(s, n, f);
    assert LoadedAs(r, |s.objects|, n);
  }

  lemma CreatedKeepsInv(env: Env, s: State, n: Name, f: File)
    requires Inv(env, s) && Loadable(env, s, n, f)
    ensures Inv(env, Created(s, n, f)) && Extends(env, s, Created(s, n, f))
  {
    CreatedFrame(s, n, f);
    LocatedFile(env, s, n, f);
    CreatedUnified(env, s, n, f);
    CreatedAnchored(env, s, n, f);
    CreatedParents(env, s, n, f);
    CreatedExtends(env, s, n, f);
  }

  lemma SpelledChild(n: Name)
    requires |n| > 1
    ensures Parent(n) == ROOT ==> n == Canonical([n[|n| - 1]])
    ensures Parent(n) != ROOT ==> IsSrcSpelling(Parent(n)) == IsSrcSpelling(n)
    ensures IsSrcSpelling(n) ==> Parent(n) == ROOT || IsSrcSpelling(Parent(n))
    ensures Parent(n) != ROOT ==> Spelled(n) == Spelled(Parent(n)) + [n[|n| - 1]]
  {
    var q := Parent(n);
    assert n == q + [n[|n| - 1]];
    if |n| == 2 {
      assert q == [n[0]];
    } else if IsSrcSpelling(n) {
      assert n[1..] == q[1..] + [n[|n| - 1]];
    }
  }

  /** Below a package of the right file the finders behind the hook agree with the
      spelling, or find a foreign file. */
  lemma LocatedBelow(env: Env, s: State, n: Name, f: File)
    requires WellFormed(env) && InRange(s) && |n| > 0 && n != ROOT
    requires |n| > 1 ==> Parent(n) in s.modules &&
                         if Parent(n) == ROOT then FileOf(s, ROOT) == Src([])
                         else Rightly(Parent(n), FileOf(s, Parent(n)))
    requires Locate(env, s, n) == Some(f)
    ensures Rightly(n, f)
    ensures f.Src? ==> f.path in env.entries
    ensures |n| > 1 && !IsSrcSpelling(n) && f == Src(n) ==> FileOf(s, Parent(n)) == Src(Parent(n))
  {
    if |n| > 1 {
      SpelledChild(n);
      if Parent(n) == ROOT {
        assert [] + [n[|n| - 1]] == n[1..];
      }
    } else {
      assert n == [n[0]];
    }
  }

  lemma LocatedFile(env: Env, s: State, n: Name, f: File)
    requires WellFormed(env) && Ready(env, s) && BindingsNameTheirFile(env, s)
    requires |n| > 0 && n != ROOT
    requires |n| > 1 ==> Parent(n) in s.modules
    requires Locate(env, s, n) == Some(f)
    ensures Rightly(n, f)
    ensures f.Src? ==> f.path in env.entries
    ensures |n| > 1 && !IsSrcSpelling(n) && f == Src(n) ==> FileOf(s, Parent(n)) == Src(Parent(n))
  {
    LocatedBelow(env, s, n, f);
  }

  /** Binding one spelling of a src file to the object of the other. */
  ghost predicate Aliasable(env: Env, s: State, n: Name, t: Name) {
    && WellFormed(env) && Ready(env, s) && BindingsNameTheirFile(env, s)
    && n in env.universe && n != ROOT && t in s.modules
    && (|n| > 1 ==> Parent(n) in s.modules && env.isPackage(FileOf(s, Parent(n))))
    && (n in s.modules ==> s.modules[n] == s.modules[t])
    && FileOf(s, t) == Src(Spelled(n))
    && (if IsSrcSpelling(n) then t == n[1..] else t == Canonical(n))
  }

  lemma AliasedFrame(s: State, n: Name, i: nat)
    requires InRange(s) && i < |s.objects| && (n in s.modules ==> s.modules[n] == i)
    ensures var r := Aliased(s, n, i);
            && InRange(r) && |r.objects| == |s.objects| && n in r.modules && r.modules[n] == i
            && (forall m :: m in s.modules ==> m in r.modules && r.modules[m] == s.modules[m])
            && (forall k :: 0 <= k < |s.objects| ==> r.objects[k].file == s.objects[k].file)
            && forall m :: m in s.modules ==> FileOf(r, m) == FileOf(s, m)
  {
  }

  lemma AliasedUnified(env: Env, s: State, n: Name, t: Name)
    requires Aliasable(env, s, n, t) && Unified(env, s)
    ensures Unified(env, Aliased(s, n, s.modules[t]))
  {
    var r := Aliased(s, n, s.modules[t]);
    AliasedFrame(s, n, s.modules[t]);
    forall p | Covered(p) && p in r.modules && Canonical(p) in r.modules && FileOf(r, p) == Src(p)
      ensures r.modules[p] == r.modules[Canonical(p)]
    {
      SpelledTwin(p);
      if IsSrcSpelling(n) {
        assert Canonical(n[1..]) == n;
      }
    }
  }

  lemma AliasedAnchored(env: Env, s: State, n: Name, t: Name)
    requires Aliasable(env, s, n, t) && Anchored(env, s)
    ensures Anchored(env, Aliased(s, n, s.modules[t]))
  {
    var r := Aliased(s, n, s.modules[t]);
    AliasedFrame(s, n, s.modules[t]);
    forall i | 0 <= i < |r.objects| && r.objects[i].file.Src? && Covered(r.objects[i].file.path)
      ensures AnchoredAt(r, i, r.objects[i].file.path)
    {
      assert AnchoredAt(s, i, s.objects[i].file.path);
    }
  }

  lemma AliasedParents(env: Env, s: State, n: Name, t: Name)
    requires Aliasable(env, s, n, t) && ParentsBound(env, s)
    ensures ParentsBound(env, Aliased(s, n, s.modules[t]))
  {
    AliasedFrame(s, n, s.modules[t]);
  }

  lemma AliasedExtends(env: Env, s: State, n: Name, t: Name)
    requires Aliasable(env, s, n, t)
    ensures Extends(env, s, Aliased(s, n, s.modules[t]))
  {
    AliasedFrame(s, n, s.modules[t]);
  }

  lemma AliasedKeepsInv(env: Env, s: State, n: Name, t: Name)
    requires Inv(env, s) && Aliasable(env, s, n, t)
    ensures Inv(env, Aliased(s, n, s.modules[t])) && Extends(env, s, Aliased(s, n, s.modules[t]))
  {
    AliasedFrame(s, n, s.modules[t]);
    AliasedUnified(env, s, n, t);
    AliasedAnchored(env, s, n, t);
    AliasedParents(env, s, n, t);
    AliasedExtends(env, s, n, t);
  }

  // -------------------------------------------------------------- whole imports

  /** Every import, over any import graph, keeps the invariant. */
  lemma {:induction false} ImportKeepsInv(env: Env, s: State, n: Name)
    requires Inv(env, s) && n in env.universe
    ensures var r := Import(env, s, n); Inv(env, r.state) && Extends(env, s, r.state)
    decreases env.universe - s.modules.Keys, Rank(n), |n|, 2
  {
    if n in s.modules {
    } else if |n| > 1 && Parent(n) !in s.modules {
      var p := Import(env, s, Parent(n));
      RankOfParent(n);
      ImportKeepsInv(env, s, Parent(n));
      if p.result.Some? && n !in p.state.modules {
        FindAndLoadKeepsInv(env, p.state, n);
        ExtendsTransitive(env, s, p.state, FindAndLoad(env, p.state, n).state);
      }
    } else {
      FindAndLoadKeepsInv(env, s, n);
    }
  }

  lemma {:induction false} FindAndLoadKeepsInv(env: Env, s: State, n: Name)
    requires Inv(env, s) && n in env.universe && n !in s.modules
    requires |n| > 1 ==> Parent(n) in s.modules
    ensures var r := FindAndLoad(env, s, n); Inv(env, r.state) && Extends(env, s, r.state)
    decreases env.universe - s.modules.Keys, Rank(n), |n|, 1
  {
    if |n| > 1 && !env.isPackage(FileOf(s, Parent(n))) {
    } else if HookTarget(env, s, n).Some? {
      AliasKeepsInv(env, s, n);
    } else if Locate(env, s, n).Some? {
      LoadKeepsInv(env, s, n);
    }
  }

  lemma {:induction false} AliasKeepsInv(env: Env, s: State, n: Name)
    requires Inv(env, s) && n in env.universe && n !in s.modules
    requires |n| > 1 ==> Parent(n) in s.modules && env.isPackage(FileOf(s, Parent(n)))
    requires HookTarget(env, s, n).Some?
    ensures var r := FindAndLoad(env, s, n); Inv(env, r.state) && Extends(env, s, r.state)
    decreases env.universe - s.modules.Keys, Rank(n), |n|, 0
  {
    var t := HookTarget(env, s, n).value;
    if t in s.modules {
      HookedOntoTwin(env, s, n);
      AliasedKeepsInv(env, s, n, t);
    } else {
      HookedOntoTwin(env, s, n);
      var c := Import(env, s, t);
      ImportKeepsInv(env, s, t);
      if c.result.Some? {
        NestedTwin(env, s, c.state, n);
        AliasedKeepsInv(env, c.state, n, t);
        ExtendsTransitive(env, s, c.state, Aliased(c.state, n, c.result.value));
      }
    }
  }

  /** The hook aliases only between the two spellings, and recurses only from
      a bare name that resolves below src/. */
  lemma HookedOntoTwin(env: Env, s: State, n: Name)
    requires WellFormed(env) && Ready(env, s) && BindingsNameTheirFile(env, s)
    requires n in env.universe && n !in s.modules && HookTarget(env, s, n).Some?
    requires |n| > 1 ==> Parent(n) in s.modules && env.isPackage(FileOf(s, Parent(n)))
    ensures var t := HookTarget(env, s, n).value;
            && (if IsSrcSpelling(n) then t == n[1..] else t == Canonical(n))
            && (t in s.modules ==> Aliasable(env, s, n, t))
            && (t !in s.modules ==> t == Canonical(n) && Resolving(env, n))
  {
    SpelledTwin(n);
  }

  /** Once the canonical spelling is imported the bare one can be bound to it. */
  lemma NestedTwin(env: Env, s: State, r: State, n: Name)
    requires WellFormed(env) && Extends(env, s, r) && BindingsNameTheirFile(env, r)
    requires n in env.universe && n !in s.modules && Resolving(env, n) && Canonical(n) in r.modules
    requires |n| > 1 ==> Parent(n) in s.modules && env.isPackage(FileOf(s, Parent(n)))
    ensures Aliasable(env, r, n, Canonical(n))
  {
    SpelledTwin(n);
  }

  lemma {:induction false} LoadKeepsInv(env: Env, s: State, n: Name)
    requires Inv(env, s) && n in env.universe && n !in s.modules
    requires |n| > 1 ==> Parent(n) in s.modules && env.isPackage(FileOf(s, Parent(n)))
    requires HookTarget(env, s, n) == None && Locate(env, s, n).Some?
    ensures var r := FindAndLoad(env, s, n); Inv(env, r.state) && Extends(env, s, r.state)
    decreases env.universe - s.modules.Keys, Rank(n), |n|, 0
  {
    var f := Locate(env, s, n).value;
    var created := Created(s, n, f);
    CreatedKeepsInv(env, s, n, f);
    assert n in env.universe - s.modules.Keys && n !in env.universe - created.modules.Keys;
    RunBodyKeepsInv(env, created, env.body(f, n));
    ExtendsTransitive(env, s, created, RunBody(env, created, env.body(f, n)));
  }

  lemma {:induction false} RunBodyKeepsInv(env: Env, s: State, names: seq<Name>)
    requires Inv(env, s) && forall m :: m in names ==> m in env.universe
    ensures var r := RunBody(env, s, names); Inv(env, r) && Extends(env, s, r)
    decreases env.universe - s.modules.Keys, 2, |names|, 0
  {
    if names != [] {
      var s1 := Import(env, s, names[0]).state;
      ImportKeepsInv(env, s, names[0]);
      RunBodyKeepsInv(env, s1, names[1..]);
      ExtendsTransitive(env, s, s1, RunBody(env, s1, names[1..]));
    }
  }
}
