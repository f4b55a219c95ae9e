/** The promises of the two-spelling hook, and where they stop. */
module ImportTheorems {
  import opened Common
  import opened ImportSpec
  import opened ImportProofs

  // ------------------------------------------------------ installing the hook

  /** A state that imports without the hook can lead to: every name was loaded
      once, from the file the finders give, below a bound package. */
  ghost predicate PlainlyLoaded(env: Env, s: State) {
    && WellFormed(env) && Ready(env, s) && Logged(s) && FileOf(s, ROOT) == Src([])
    && (forall n :: n in s.modules && n != ROOT ==> FoundPlainly(env, s, n))
    && (forall i :: 0 <= i < |s.objects| ==> HasName(s, i))
    && (forall m, n :: m in s.modules && n in s.modules && s.modules[m] == s.modules[n] ==> m == n)
  }

  ghost predicate HasName(s: State, i: nat) { exists n :: LoadedAs(s, i, n) }

  predicate FoundPlainly(env: Env, s: State, n: Name)
    requires InRange(s) && n in s.modules
  {
    && |n| > 0
    && (|n| > 1 ==> Parent(n) in s.modules && env.isPackage(FileOf(s, Parent(n))))
    && Locate(env, s, n) == Some(FileOf(s, n))
  }

  /** `import src` in a fresh interpreter leads to one such state. */
  lemma InitialInv(env: Env)
    requires WellFormed(env) && Closed(env)
    ensures PlainlyLoaded(env, Initial()) && Inv(env, Initial())
  {
    assert LoadedAs(Initial(), 0, ROOT);
  }

  /** Each further load by the finders behind the hook leads to another. */
  lemma PlainLoad(env: Env, s: State, n: Name, f: File)
    requires PlainlyLoaded(env, s) && |n| > 0 && n !in s.modules
    requires |n| > 1 ==> Parent(n) in s.modules && env.isPackage(FileOf(s, Parent(n)))
    requires Locate(env, s, n) == Some(f)
    ensures PlainlyLoaded(env, Created(s, n, f))
  {
    var r := Created(s, n, f);
    CreatedFrame(s, n, f);
    forall i | 0 <= i < |r.objects| ensures HasName(r, i) {
      if i < |s.objects| {
        assert HasName(s, i);
        var m :| LoadedAs(s, i, m);
        assert LoadedAs(r, i, m);
      } else {
        assert LoadedAs(r, i, n);
      }
    }
    forall m | m in r.modules && m != ROOT ensures FoundPlainly(env, r, m) {
      assert m != n ==> FoundPlainly(env, s, m);
    }
  }

  lemma {:induction false} PlainFile(env: Env, s: State, n: Name)
    requires PlainlyLoaded(env, s) && n in s.modules && n != ROOT
    ensures Rightly(n, FileOf(s, n))
    ensures FileOf(s, n).Src? ==> FileOf(s, n).path in env.entries
    ensures |n| > 1 && !IsSrcSpelling(n) && FileOf(s, n) == Src(n) ==> FileOf(s, Parent(n)) == Src(Parent(n))
    decreases |n|
  {
    assert FoundPlainly(env, s, n);
    if |n| > 1 && Parent(n) != ROOT {
      PlainFile(env, s, Parent(n));
    }
    LocatedBelow(env, s, n, FileOf(s, n));
  }

  predicate LoadedTwice(s: State, p: Name)
    requires InRange(s)
  {
    p in s.modules && Canonical(p) in s.modules && FileOf(s, p) == Src(p)
  }

  lemma PlainAnchored(env: Env, s: State)
    requires PlainlyLoaded(env, s)
    ensures Anchored(env, s) && EntriesExist(env, s)
  {
    forall i | 0 <= i < |s.objects| && s.objects[i].file.Src? && |s.objects[i].file.path| > 0
      ensures s.objects[i].file.path in env.entries && AnchoredAt(s, i, s.objects[i].file.path)
    {
      assert HasName(s, i);
      var n :| LoadedAs(s, i, n);
      PlainFile(env, s, n);
      assert IsSrcSpelling(n) ==> n == Canonical(n[1..]);
    }
  }

  /** The hook may be installed in such a state exactly when no covered file has
      been loaded under both spellings already. */
  lemma InstalledInvIff(env: Env, s: State)
    requires PlainlyLoaded(env, s)
    ensures Inv(env, s) <==> forall p :: Covered(p) ==> !LoadedTwice(s, p)
  {
    forall n | n in s.modules && n != ROOT
      ensures |n| > 0 && Rightly(n, FileOf(s, n))
      ensures |n| > 1 && !IsSrcSpelling(n) && FileOf(s, n) == Src(n) ==>
                Parent(n) in s.modules && FileOf(s, Parent(n)) == Src(Parent(n))
    {
      assert FoundPlainly(env, s, n);
      PlainFile(env, s, n);
    }
    PlainAnchored(env, s);
    assert ParentsBound(env, s) by {
      forall n {:trigger Parent(n)} | n in s.modules && |n| > 1
        ensures Parent(n) in s.modules && env.isPackage(FileOf(s, Parent(n)))
      {
        assert FoundPlainly(env, s, n);
      }
    }
    forall p ensures p != Canonical(p) {
      assert |Canonical(p)| == |p| + 1;
    }
    assert Unified(env, s) <==> forall p :: Covered(p) ==> !LoadedTwice(s, p);
  }

  // -------------------------------------------------------- one module per file

  /** Over any sequence of imports of any import graph, cycles included, the two
      spellings of a covered file denote one object and its body ran at most
      once.  Bindings are never undone, so this also speaks of every state the
      bodies passed through on the way. */
  lemma ImportsUnify(env: Env, s: State, names: seq<Name>, p: Name)
    requires Inv(env, s) && Covered(p)
    requires forall n :: n in names ==> n in env.universe
    ensures var r := RunBody(env, s, names);
            && (p in r.modules && Canonical(p) in r.modules && FileOf(r, p) == Src(p) ==>
                  r.modules[p] == r.modules[Canonical(p)])
            && (forall i, j :: 0 <= i < j < |r.executed| && r.executed[i] == Src(p) ==> r.executed[j] != Src(p))
            && (forall n :: n in s.modules ==> n in r.modules && r.modules[n] == s.modules[n])
  {
    RunBodyKeepsInv(env, s, names);
    var r := RunBody(env, s, names);
    forall i, j | 0 <= i < j < |r.executed| && r.executed[i] == Src(p)
      ensures r.executed[j] != Src(p)
    {
      assert AnchoredAt(r, i, p);
    }
  }

  /** An object keeps the spec it has through every import; an object loaded on
      the way carries the spec of a spelling it is bound under. */
  lemma ImportsKeepSpecs(env: Env, s: State, names: seq<Name>, i: nat)
    requires Inv(env, s)
    requires forall n :: n in names ==> n in env.universe
    ensures var r := RunBody(env, s, names);
            && (i < |s.objects| ==> r.objects[i].file == s.objects[i].file)
            && (i < |s.objects| && s.objects[i].spec.Some? ==> r.objects[i].spec == s.objects[i].spec)
            && (|s.objects| <= i < |r.objects| ==>
                  r.objects[i].spec.Some? && LoadedAs(r, i, r.objects[i].spec.value))
  {
    RunBodyKeepsInv(env, s, names);
  }

  /** An alias import of a loaded twin keeps the object's spec exactly when the
      object had one; otherwise the alias spec stays on it. */
  lemma AliasKeepsSpecIff(env: Env, s: State, n: Name)
    requires Inv(env, s) && n in env.universe && n !in s.modules
    requires |n| > 1 ==> Parent(n) in s.modules && env.isPackage(FileOf(s, Parent(n)))
    requires HookTarget(env, s, n).Some? && HookTarget(env, s, n).value in s.modules
    ensures var i := s.modules[HookTarget(env, s, n).value];
            var r := Import(env, s, n);
            && r.result == Some(i)
            && (r.state.objects[i].spec == s.objects[i].spec <==> s.objects[i].spec.Some?)
  {
    assert Import(env, s, n) == FindAndLoad(env, s, n);
  }

  // ------------------------------------------- either order gives one object

  /** No foreign module holds the name or a package on the way to it. */
  predicate NoForeignPrefix(s: State, n: Name)
    requires InRange(s)
  {
    && (n in s.modules ==> FileOf(s, n) == Src(n))
    && (|n| > 1 ==> NoForeignPrefix(s, Parent(n)))
  }

  lemma CoveredParent(p: Name)
    requires Covered(p) && |p| > 1
    ensures Covered(Parent(p)) && Parent(Canonical(p)) == Canonical(Parent(p))
    ensures !IsSrcSpelling(p) ==> !IsSrcSpelling(Parent(p)) && Parent(p) != ROOT
  {
    assert Canonical(p) == Canonical(Parent(p)) + [p[|p| - 1]];
  }

  /** After the bare spelling has loaded a src file, the src spelling imports
      the same object. */
  lemma {:induction false} CanonicalAfterBare(env: Env, s: State, p: Name)
    requires Inv(env, s) && Covered(p) && !IsSrcSpelling(p) && p != ROOT
    requires p in env.universe && p in s.modules && FileOf(s, p) == Src(p)
    requires env.isPackage(Src([]))
    ensures Import(env, s, Canonical(p)).result == Some(s.modules[p])
    decreases |p|
  {
    var c := Canonical(p);
    SpelledTwin(p);
    if c !in s.modules {
      if |p| == 1 {
        assert Parent(c) == ROOT;
        HookSeesBare(env, s, p);
      } else {
        CoveredParent(p);
        var q := Parent(p);
        CanonicalAfterBare(env, s, q);
        if Canonical(q) !in s.modules {
          var r := Import(env, s, Canonical(q));
          ImportKeepsInv(env, s, Canonical(q));
          assert r.state.modules[p] == s.modules[p];
          if c !in r.state.modules {
            assert FileOf(r.state, Canonical(q)) == Src(q);
            HookSeesBare(env, r.state, p);
          }
        } else {
          HookSeesBare(env, s, p);
        }
      }
    }
  }

  lemma HookSeesBare(env: Env, s: State, p: Name)
    requires Inv(env, s) && Covered(p) && !IsSrcSpelling(p) && p != ROOT
    requires Canonical(p) in env.universe && Canonical(p) !in s.modules
    requires p in s.modules && FileOf(s, p) == Src(p)
    requires Parent(Canonical(p)) in s.modules && env.isPackage(FileOf(s, Parent(Canonical(p))))
    ensures FindAndLoad(env, s, Canonical(p)).result == Some(s.modules[p])
  {
    SpelledTwin(p);
    assert FromSrc(s.objects[s.modules[p]], p);
  }

  /** After the src spelling has loaded a file, the bare spelling imports the
      same object, unless a foreign module already holds part of the name. */
  lemma {:induction false} BareAfterCanonical(env: Env, s: State, p: Name)
    requires Inv(env, s) && Covered(p) && !IsSrcSpelling(p) && p != ROOT
    requires p in env.universe && Canonical(p) in s.modules && NoForeignPrefix(s, p)
    ensures var r := Import(env, s, p);
            && r.result == Some(s.modules[Canonical(p)])
            && (forall m :: m in r.state.modules && m !in s.modules ==> |m| <= |p|)
    decreases |p|
  {
    SpelledTwin(p);
    if p in s.modules {
    } else if |p| == 1 || Parent(p) in s.modules {
      if |p| > 1 { CoveredParent(p); }
      HookSeesCanonical(env, s, p);
    } else {
      CoveredParent(p);
      var q := Parent(p);
      assert Canonical(q) in s.modules;
      BareAfterCanonical(env, s, q);
      ImportKeepsInv(env, s, q);
      var r := Import(env, s, q).state;
      assert p !in r.modules && r.modules[q] == r.modules[Canonical(q)];
      HookSeesCanonical(env, r, p);
    }
  }

  lemma HookSeesCanonical(env: Env, s: State, p: Name)
    requires Inv(env, s) && Covered(p) && !IsSrcSpelling(p) && p != ROOT
    requires p in env.universe && p !in s.modules && Canonical(p) in s.modules
    requires |p| > 1 ==> Parent(p) in s.modules && Canonical(Parent(p)) in s.modules &&
                         Parent(Canonical(p)) == Canonical(Parent(p)) &&
                         FileOf(s, Parent(p)) == FileOf(s, Canonical(Parent(p)))
    ensures FindAndLoad(env, s, p) == Outcome(Aliased(s, p, s.modules[Canonical(p)]), Some(s.modules[Canonical(p)]))
  {
    SpelledTwin(p);
    assert FromSrc(s.objects[s.modules[Canonical(p)]], p);
    if |p| > 1 {
      assert env.isPackage(FileOf(s, Parent(Canonical(p))));
    }
  }

  // ------------------------------------------------- where the hook stays out

  /** Directories below src/: a file's containing packages have entries too. */
  ghost predicate EntriesNested(env: Env) {
    forall p {:trigger Parent(p)} :: p in env.entries && |p| > 1 ==> Parent(p) in env.entries
  }

  lemma {:induction false} TopOfEntry(env: Env, p: Name)
    requires EntriesNested(env) && p in env.entries && |p| > 0
    ensures [p[0]] in env.entries
    decreases |p|
  {
    if |p| == 1 {
      assert p == [p[0]];
    } else {
      TopOfEntry(env, Parent(p));
    }
  }

  /** A name whose top part has no entry below src/ gets no spec from the hook. */
  lemma NoEntryNoSpec(env: Env, s: State, n: Name)
    requires Inv(env, s) && EntriesNested(env) && |n| > 0 && n != ROOT
    requires [Spelled(n)[0]] !in env.entries
    ensures HookTarget(env, s, n) == None
  {
    var p := Spelled(n);
    if p in env.entries {
      TopOfEntry(env, p);
    }
    if !IsSrcSpelling(n) {
      SpelledTwin(n);
    }
  }

  // --------------------------------------------- "can never be hijacked" fails

  /** The file of a path below src/ and the packages on the way to it exist. */
  predicate Reachable(env: Env, p: Name)
    decreases |p|
  {
    p == [] || (p in env.entries && env.isPackage(Src(p[..|p| - 1])) && Reachable(env, p[..|p| - 1]))
  }

  lemma CanonicalParent(p: Name)
    requires |p| > 0
    ensures Parent(Canonical(p)) == Canonical(p[..|p| - 1]) && Canonical([]) == ROOT
    ensures Canonical(p)[|p|] == p[|p| - 1] && p[..|p| - 1] + [p[|p| - 1]] == p
    ensures IsSrcSpelling(Canonical(p)) && Spelled(Canonical(p)) == p && Canonical(p) != ROOT
  {
  }

  lemma SrcFile(env: Env, s: State, p: Name)
    requires Inv(env, s) && Canonical(p) in s.modules
    ensures FileOf(s, Canonical(p)) == Src(p)
  {
    if p == [] {
      assert Canonical(p) == ROOT;
    } else {
      CanonicalParent(p);
    }
  }

  lemma LoadedEntry(env: Env, s: State, p: Name)
    requires Inv(env, s) && p != [] && Canonical(p) in s.modules
    ensures p in env.entries
  {
    SrcFile(env, s, p);
    assert s.objects[s.modules[Canonical(p)]].file.path == p;
  }

  lemma LoadedParent(env: Env, s: State, p: Name)
    requires InRange(s) && Ready(env, s) && ParentsBound(env, s) && p != [] && Canonical(p) in s.modules
    ensures Parent(Canonical(p)) in s.modules && env.isPackage(FileOf(s, Parent(Canonical(p))))
  {
  }

  lemma {:induction false} LoadedIsReachable(env: Env, s: State, p: Name)
    requires Inv(env, s) && Canonical(p) in s.modules
    ensures Reachable(env, p)
    decreases |p|
  {
    if p != [] {
      var q := p[..|p| - 1];
      LoadedEntry(env, s, p);
      LoadedParent(env, s, p);
      CanonicalParent(p);
      SrcFile(env, s, q);
      LoadedIsReachable(env, s, q);
    }
  }

  lemma LocateSrc(env: Env, s: State, p: Name)
    requires InRange(s) && p != [] && Parent(Canonical(p)) in s.modules
    requires FileOf(s, Parent(Canonical(p))) == Src(p[..|p| - 1])
    ensures Locate(env, s, Canonical(p)) == if p in env.entries then Some(Src(p)) else None
  {
    CanonicalParent(p);
  }

  /** The hook or a finder behind it has an answer for n. */
  predicate Finds(env: Env, s: State, n: Name)
    requires InRange(s) && |n| > 1 && Parent(n) in s.modules
  {
    env.isPackage(FileOf(s, Parent(n))) && (HookTarget(env, s, n).Some? || Locate(env, s, n).Some?)
  }

  lemma SrcFoundIff(env: Env, s: State, p: Name)
    requires InRange(s) && EntriesExist(env, s) && p != [] && Parent(Canonical(p)) in s.modules
    requires FileOf(s, Parent(Canonical(p))) == Src(p[..|p| - 1]) && Reachable(env, p[..|p| - 1])
    ensures Finds(env, s, Canonical(p)) <==> Reachable(env, p)
  {
    LocateSrc(env, s, p);
    if HookTarget(env, s, Canonical(p)).Some? {
      HookedHasEntry(env, s, p);
    }
  }

  lemma HookedHasEntry(env: Env, s: State, p: Name)
    requires InRange(s) && EntriesExist(env, s) && p != [] && HookTarget(env, s, Canonical(p)).Some?
    ensures p in env.entries
  {
    assert Canonical(p)[1..] == p;
  }

  lemma FoundIsLoaded(env: Env, s: State, n: Name)
    requires Ready(env, s) && n in env.universe && n !in s.modules && IsSrcSpelling(n) && Parent(n) in s.modules
    ensures FindAndLoad(env, s, n).result.Some? <==> Finds(env, s, n)
  {
  }

  lemma LoadsSrc(env: Env, s: State, p: Name)
    requires Inv(env, s) && p != [] && Canonical(p) in env.universe && Canonical(p) !in s.modules
    requires Parent(Canonical(p)) in s.modules
    ensures FindAndLoad(env, s, Canonical(p)).result.Some? <==> Reachable(env, p)
  {
    SrcParent(env, s, p);
    SrcFoundIff(env, s, p);
    FoundIsLoaded(env, s, Canonical(p));
  }

  lemma SrcParent(env: Env, s: State, p: Name)
    requires Inv(env, s) && p != [] && Parent(Canonical(p)) in s.modules
    ensures FileOf(s, Parent(Canonical(p))) == Src(p[..|p| - 1]) && Reachable(env, p[..|p| - 1])
    ensures Ready(env, s) && EntriesExist(env, s) && IsSrcSpelling(Canonical(p))
  {
    CanonicalParent(p);
    SrcFile(env, s, p[..|p| - 1]);
    LoadedIsReachable(env, s, p[..|p| - 1]);
  }

  /** Whatever has been imported before, the src spelling of a path can be
      imported exactly when its file and packages exist. */
  lemma {:induction false} SrcImportIff(env: Env, s: State, p: Name)
    requires Inv(env, s) && p != [] && Canonical(p) in env.universe
    ensures Import(env, s, Canonical(p)).result.Some? <==> Reachable(env, p)
    decreases |p|
  {
    var c, q := Canonical(p), p[..|p| - 1];
    CanonicalParent(p);
    if c in s.modules {
      LoadedIsReachable(env, s, p);
    } else if Canonical(q) in s.modules {
      LoadsSrc(env, s, p);
    } else {
      SrcImportIff(env, s, q);
      ImportKeepsInv(env, s, Canonical(q));
      var r := Import(env, s, Canonical(q));
      if r.result.Some? {
        if c in r.state.modules {
          LoadedIsReachable(env, r.state, p);
        } else {
          LoadsSrc(env, r.state, p);
        }
      }
    }
  }

  /** The state in which the finders are asked for n, after its package. */
  ghost function Asked(env: Env, s: State, n: Name): State
    requires Ready(env, s) && n in env.universe
  {
    if |n| > 1 then Import(env, s, Parent(n)).state else s
  }

  /** The finders behind the hook would not give n its file below src/, and the
      hook does: the src spelling is loaded, or PathFinder finds the top part
      below src/ and the rest of the path exists there. */
  predicate Overridden(env: Env, s: State, n: Name)
    requires InRange(s) && |n| > 0 && (|n| > 1 ==> Parent(n) in s.modules)
  {
    && Locate(env, s, n) != Some(Src(n))
    && (|n| > 1 ==> env.isPackage(FileOf(s, Parent(n))))
    && Hooked(n)
    && ((Canonical(n) in s.modules && Identifiers(n)) || (ResolvesToSrc(env, n[0]) && Reachable(env, n)))
  }

  lemma HookedWhenLoaded(env: Env, s: State, n: Name)
    requires Ready(env, s) && BindingsNameTheirFile(env, s)
    requires |n| > 0 && n != ROOT && !IsSrcSpelling(n)
    ensures HookTarget(env, s, n).Some? <==>
            Hooked(n) && ((Canonical(n) in s.modules && Identifiers(n)) || ResolvesToSrc(env, n[0]))
    ensures HookTarget(env, s, n).Some? ==> HookTarget(env, s, n).value == Canonical(n)
    ensures Canonical(n) in s.modules ==> FileOf(s, Canonical(n)) == Src(n)
  {
    CanonicalParent(n);
  }

  /** An import the hook stays out of gives what the other finders give, as a new
      object whose body runs. */
  lemma PassedOver(env: Env, s: State, n: Name)
    requires Inv(env, s) && n in env.universe && n !in s.modules
    requires |n| > 1 ==> Parent(n) in s.modules && env.isPackage(FileOf(s, Parent(n)))
    requires HookTarget(env, s, n) == None
    ensures var r := FindAndLoad(env, s, n); var f := Locate(env, s, n);
            if f == None then r.result == None
            else r.result == Some(|s.objects|) && FileOf(r.state, n) == f.value &&
                 s.executed + [f.value] <= r.state.executed && Extends(env, s, r.state)
  {
    if Locate(env, s, n).Some? {
      var f := Locate(env, s, n).value;
      CreatedKeepsInv(env, s, n, f);
      CreatedFrame(s, n, f);
      RunBodyKeepsInv(env, Created(s, n, f), env.body(f, n));
      ExtendsTransitive(env, s, Created(s, n, f), RunBody(env, Created(s, n, f), env.body(f, n)));
    }
  }

  lemma AliasedLoaded(env: Env, s: State, n: Name, t: Name)
    requires Ready(env, s) && n in env.universe && n !in s.modules
    requires |n| > 1 ==> Parent(n) in s.modules && env.isPackage(FileOf(s, Parent(n)))
    requires HookTarget(env, s, n) == Some(t) && t in s.modules
    ensures var r := FindAndLoad(env, s, n);
            && r.result == Some(s.modules[t]) && FileOf(r.state, n) == FileOf(s, t)
            && t in r.state.modules && r.state.modules[t] == s.modules[t] && r.state.executed == s.executed
  {
    AliasedFrame(s, n, s.modules[t]);
  }

  lemma AliasedImported(env: Env, s: State, n: Name)
    requires Ready(env, s) && n in env.universe && n !in s.modules
    requires |n| > 1 ==> Parent(n) in s.modules && env.isPackage(FileOf(s, Parent(n)))
    requires HookTarget(env, s, n) == Some(Canonical(n)) && Canonical(n) !in s.modules
    requires Canonical(n) in env.universe
    ensures FindAndLoad(env, s, n).result == Import(env, s, Canonical(n)).result
  {
  }

  /** An import the hook takes over gives the file below src/, if it exists. */
  lemma TakenOver(env: Env, s: State, n: Name)
    requires Inv(env, s) && n in env.universe && n !in s.modules && n != ROOT && !IsSrcSpelling(n)
    requires |n| > 1 ==> Parent(n) in s.modules && env.isPackage(FileOf(s, Parent(n)))
    requires HookTarget(env, s, n).Some?
    ensures var r := FindAndLoad(env, s, n);
            (r.result.Some? <==> Canonical(n) in s.modules || Reachable(env, n)) &&
            (r.result.Some? ==> FileOf(r.state, n) == Src(n))
  {
    HookedWhenLoaded(env, s, n);
    if Canonical(n) in s.modules {
      AliasedLoaded(env, s, n, Canonical(n));
    } else {
      SrcImportIff(env, s, n);
      AliasedImported(env, s, n);
      AliasKeepsInv(env, s, n);
      var r := FindAndLoad(env, s, n);
      if r.result.Some? {
        assert Resolving(env, n);
        SrcFile(env, r.state, n);
      }
    }
  }

  /** The import gave n its file below src/, and the finders behind the hook would
      not have. */
  ghost predicate Hijacked(env: Env, s: State, n: Name, r: Outcome)
    requires InRange(s) && |n| > 0 && (|n| > 1 ==> Parent(n) in s.modules)
    requires InRange(r.state) && (r.result.Some? ==> n in r.state.modules)
  {
    r.result.Some? && FileOf(r.state, n) == Src(n) && Locate(env, s, n) != Some(Src(n))
  }

  lemma OverriddenIff(env: Env, s: State, n: Name)
    requires Inv(env, s) && n in env.universe && n !in s.modules && n != ROOT && !IsSrcSpelling(n)
    requires |n| > 1 ==> Parent(n) in s.modules
    ensures Hijacked(env, s, n, FindAndLoad(env, s, n)) <==> Overridden(env, s, n)
  {
    HookedWhenLoaded(env, s, n);
    if |n| > 1 && !env.isPackage(FileOf(s, Parent(n))) {
      assert FindAndLoad(env, s, n).result == None;
    } else if HookTarget(env, s, n).Some? {
      TakenOver(env, s, n);
      if Canonical(n) in s.modules {
        LoadedIsReachable(env, s, n);
      }
    } else {
      PassedOver(env, s, n);
    }
  }

  /** For every bare name that is not bound yet, once its package has been
      imported: the import gives it a file below src/ that the finders behind the
      hook would not have given exactly when the name is overridden. */
  lemma HijackedIff(env: Env, s: State, n: Name)
    requires Inv(env, s) && n in env.universe && n != ROOT && !IsSrcSpelling(n)
    requires |n| > 1 ==> Import(env, s, Parent(n)).result.Some?
    requires n !in Asked(env, s, n).modules
    ensures var at := Asked(env, s, n); var r := Import(env, s, n);
            Hijacked(env, at, n, r) <==> Overridden(env, at, n)
  {
    if |n| > 1 {
      ImportKeepsInv(env, s, Parent(n));
    }
    OverriddenIff(env, Asked(env, s, n), n);
    AskedThenFound(env, s, n);
  }

  lemma AskedThenFound(env: Env, s: State, n: Name)
    requires Ready(env, s) && n in env.universe && |n| > 0
    requires |n| > 1 ==> Import(env, s, Parent(n)).result.Some?
    requires n !in Asked(env, s, n).modules
    ensures Import(env, s, n) == FindAndLoad(env, Asked(env, s, n), n)
  {
  }

  /** For every bare name that the finders behind the hook would find, once its
      package has been imported: the import fails exactly when the hook takes it
      over for a file below src/ that cannot be imported and is not loaded. */
  lemma BrokenIff(env: Env, s: State, n: Name)
    requires Inv(env, s) && n in env.universe && n != ROOT && !IsSrcSpelling(n)
    requires |n| > 1 ==> Import(env, s, Parent(n)).result.Some?
    requires n !in Asked(env, s, n).modules
    requires |n| > 1 ==> env.isPackage(FileOf(Asked(env, s, n), Parent(n)))
    requires Locate(env, Asked(env, s, n), n).Some?
    ensures Import(env, s, n).result == None <==>
            && Hooked(n) && ResolvesToSrc(env, n[0])
            && Canonical(n) !in Asked(env, s, n).modules && !Reachable(env, n)
  {
    if |n| > 1 {
      ImportKeepsInv(env, s, Parent(n));
    }
    AskedThenFound(env, s, n);
    BrokenAt(env, Asked(env, s, n), n);
  }

  lemma BrokenAt(env: Env, s: State, n: Name)
    requires Inv(env, s) && n in env.universe && n !in s.modules && n != ROOT && !IsSrcSpelling(n)
    requires |n| > 1 ==> Parent(n) in s.modules && env.isPackage(FileOf(s, Parent(n)))
    requires Locate(env, s, n).Some?
    ensures FindAndLoad(env, s, n).result == None <==>
            Hooked(n) && ResolvesToSrc(env, n[0]) && Canonical(n) !in s.modules && !Reachable(env, n)
  {
    HookedWhenLoaded(env, s, n);
    if HookTarget(env, s, n).Some? {
      TakenOver(env, s, n);
    } else {
      PassedOver(env, s, n);
    }
  }

  /** A module that a package from elsewhere does not have is not found, unless the
      hook takes over. */
  lemma MissingStaysMissing(env: Env, s: State, n: Name)
    requires Ready(env, s) && n in env.universe && n !in s.modules && |n| > 1 && Parent(n) in s.modules
    requires FileOf(s, Parent(n)).Foreign? && HookTarget(env, s, n) == None
    ensures FindAndLoad(env, s, n).result.Some? ==>
              env.foreignChild(FileOf(s, Parent(n)).id, n[|n| - 1]).Some? && env.isPackage(FileOf(s, Parent(n)))
  {
  }

  const X: Name := ["x"]
  const X_Y: Name := ["x", "y"]

  /** A package x from elsewhere with a module y, and src/x.py. */
  function BrokenEnv(): Env {
    Env({ROOT, X, X_Y, Canonical(X), Canonical(X_Y)}, {X},
        (f: File) => f == Src([]) || f == Foreign(0),
        (c: string) => if c == "x" then Some(Src(X)) else None,
        (c: string) => if c == "x" then Some(Foreign(0)) else None,
        (k: nat, c: string) => if k == 0 && c == "y" then Some(1) else None,
        (f: File, n: Name) => [])
  }

  lemma BrokenNames()
    ensures !IsSrcSpelling(X) && !IsSrcSpelling(X_Y) && X != ROOT && X_Y != ROOT && X != X_Y
    ensures Hooked(X_Y) && Parent(X_Y) == X && Canonical(X_Y) != X && Canonical(X_Y) != ROOT
    ensures Parent(Canonical(X)) == ROOT && Parent(Canonical(X_Y)) == Canonical(X)
  {
    assert "x"[0] != "src"[0];
    CanonicalParent(X);
    CanonicalParent(X_Y);
    assert X[..0] == [] && X_Y[..1] == X;
  }

  /** x is loaded from elsewhere before the hook is installed; x.y would be found
      there, but its import fails. */
  lemma BrokenExample()
    ensures var env := BrokenEnv(); var s := BrokenStart();
            && PlainlyLoaded(env, s) && Inv(env, s) && Locate(env, s, X_Y) == Some(Foreign(1))
            && env.isPackage(FileOf(s, X)) && Import(env, s, X_Y).result == None
  {
    BrokenBegins();
    BrokenNames();
    BrokenFound();
    FoundDirectly(BrokenEnv(), BrokenStart(), X_Y);
    BrokenAt(BrokenEnv(), BrokenStart(), X_Y);
  }

  lemma BrokenFound()
    ensures var env := BrokenEnv(); var s := BrokenStart();
            && InRange(s) && X in s.modules && X_Y !in s.modules && Canonical(X_Y) !in s.modules
            && FileOf(s, X) == Foreign(0) && env.isPackage(Foreign(0)) && Parent(X_Y) == X
            && Locate(env, s, X_Y) == Some(Foreign(1)) && !Reachable(env, X_Y)
  {
    BrokenNames();
  }

  lemma FoundDirectly(env: Env, s: State, n: Name)
    requires Ready(env, s) && n in env.universe && n !in s.modules && (|n| > 1 ==> Parent(n) in s.modules)
    ensures Import(env, s, n) == FindAndLoad(env, s, n)
  {
  }

  function BrokenStart(): State { Created(Initial(), X, Foreign(0)) }

  lemma BrokenEnvSane()
    ensures WellFormed(BrokenEnv()) && Closed(BrokenEnv())
  {
    BrokenNames();
  }

  lemma BrokenBegins()
    ensures PlainlyLoaded(BrokenEnv(), BrokenStart()) && Inv(BrokenEnv(), BrokenStart())
  {
    BrokenNames();
    BrokenEnvSane();
    InitialInv(BrokenEnv());
    PlainLoad(BrokenEnv(), Initial(), X, Foreign(0));
    InstalledInvIff(BrokenEnv(), BrokenStart());
  }

  // ------------------------------------------------- a package that is hijacked

  const PKG: Name := ["pkg"]
  const PKG_M: Name := ["pkg", "m"]

  /** An installed package pkg with a module m, and src/pkg/m.py. */
  function HijackEnv(): Env {
    Env({ROOT, PKG, PKG_M, Canonical(PKG), Canonical(PKG_M)}, {PKG, PKG_M},
        (f: File) => f == Src([]) || f == Src(PKG) || f == Foreign(0),
        (c: string) => if c == "pkg" then Some(Foreign(0)) else None,
        (c: string) => if c == "pkg" then Some(Foreign(0)) else None,
        (k: nat, c: string) => if k == 0 && c == "m" then Some(1) else None,
        (f: File, n: Name) => [])
  }

  lemma HijackNames()
    ensures !IsSrcSpelling(PKG) && !IsSrcSpelling(PKG_M) && PKG != ROOT && Hooked(PKG) && Hooked(PKG_M)
    ensures Identifiers(PKG_M) && Parent(PKG_M) == PKG && PKG != PKG_M
    ensures Parent(Canonical(PKG)) == ROOT && Parent(Canonical(PKG_M)) == Canonical(PKG)
    ensures PKG != Canonical(PKG) && PKG_M != Canonical(PKG) && PKG != Canonical(PKG_M)
    ensures Canonical(PKG) != ROOT && Canonical(PKG_M) != ROOT && Canonical(PKG) != Canonical(PKG_M)
  {
    assert "pkg"[0] != "src"[0];
    CanonicalParent(PKG);
    CanonicalParent(PKG_M);
    assert PKG[..0] == [] && PKG_M[..1] == PKG;
  }

  lemma HijackEnvSane()
    ensures WellFormed(HijackEnv()) && Closed(HijackEnv())
  {
    HijackNames();
  }

  function HijackStart(): State { Created(Initial(), PKG, Foreign(0)) }

  function HijackMiddle(): State {
    Created(Created(HijackStart(), Canonical(PKG), Src(PKG)), Canonical(PKG_M), Src(PKG_M))
  }

  lemma HijackBegins()
    ensures Ready(HijackEnv(), HijackStart()) && Import(HijackEnv(), Initial(), PKG).state == HijackStart()
  {
    HijackEnvSane();
    HijackNames();
    LoadsEmptyFile(HijackEnv(), Initial(), PKG, Foreign(0));
  }

  lemma HijackLoadsTwin()
    ensures Ready(HijackEnv(), HijackStart()) && Ready(HijackEnv(), HijackMiddle())
    ensures Import(HijackEnv(), HijackStart(), Canonical(PKG_M)).state == HijackMiddle()
  {
    HijackBegins();
    HijackEnvSane();
    HijackNames();
    assert PKG[..0] == [] && PKG_M[..1] == PKG;
    LoadsTwins(HijackEnv(), HijackStart(), PKG, PKG_M);
  }

  /** A package below src/ and a module in it, both empty, through the module's
      src spelling. */
  lemma LoadsTwins(env: Env, s: State, q: Name, n: Name)
    requires Ready(env, s) && q != [] && |n| == |q| + 1 && n[..|q|] == q
    requires Canonical(q) in env.universe - s.modules.Keys && Canonical(n) in env.universe - s.modules.Keys
    requires Parent(Canonical(q)) in s.modules && FileOf(s, Parent(Canonical(q))) == Src(q[..|q| - 1])
    requires env.isPackage(Src(q[..|q| - 1])) && env.isPackage(Src(q)) && q in env.entries && n in env.entries
    requires (q in s.modules ==> FileOf(s, q).Foreign?) && n !in s.modules
    requires env.body(Src(q), Canonical(q)) == [] == env.body(Src(n), Canonical(n))
    requires n != Canonical(q)
    ensures var r := Created(Created(s, Canonical(q), Src(q)), Canonical(n), Src(n));
            Ready(env, r) && Import(env, s, Canonical(n)).state == r
  {
    CanonicalParent(n);
    LoadsSrcTwin(env, s, q);
    CreatedFrame(s, Canonical(q), Src(q));
    LoadsSrcTwin(env, Created(s, Canonical(q), Src(q)), n);
    LoadsAfterParent(env, s, Canonical(n));
  }

  /** Below a src package, an empty file whose bare name is not bound to it. */
  lemma LoadsSrcTwin(env: Env, s: State, p: Name)
    requires Ready(env, s) && p != [] && Canonical(p) in env.universe && Canonical(p) !in s.modules
    requires Parent(Canonical(p)) in s.modules && FileOf(s, Parent(Canonical(p))) == Src(p[..|p| - 1])
    requires env.isPackage(Src(p[..|p| - 1])) && p in env.entries
    requires p in s.modules ==> FileOf(s, p).Foreign?
    requires env.body(Src(p), Canonical(p)) == []
    ensures var r := Import(env, s, Canonical(p)); r.result.Some? && r.state == Created(s, Canonical(p), Src(p))
  {
    assert Canonical(p)[1..] == p;
    LocateSrc(env, s, p);
    LoadsEmptyFile(env, s, Canonical(p), Src(p));
    assert RunBody(env, Created(s, Canonical(p), Src(p)), []) == Created(s, Canonical(p), Src(p));
  }

  lemma LoadsAfterParent(env: Env, s: State, n: Name)
    requires Ready(env, s) && n in env.universe && n !in s.modules && |n| > 1 && Parent(n) !in s.modules
    requires var p := Import(env, s, Parent(n)); p.result.Some? && n !in p.state.modules
    ensures Import(env, s, n) == Import(env, Import(env, s, Parent(n)).state, n)
  {
  }

  /** `import pkg` takes the installed package; after `import src.pkg.m`,
      `import pkg.m` gives the file below src/ instead of the package's own m. */
  lemma HijackExample()
    ensures var env := HijackEnv();
            && WellFormed(env) && Closed(env)
            && var r := RunBody(env, Initial(), [PKG, Canonical(PKG_M), PKG_M]);
            && PKG in r.modules && FileOf(r, PKG) == Foreign(0)
            && Child(env, Foreign(0), "m") == Some(Foreign(1))
            && PKG_M in r.modules && FileOf(r, PKG_M) == Src(PKG_M)
  {
    var env := HijackEnv();
    HijackEnvSane();
    HijackBegins();
    HijackLoadsTwin();
    HijackEnds();
    RunsThree(env, Initial(), PKG, Canonical(PKG_M), PKG_M);
  }

  lemma HijackEnds()
    ensures Ready(HijackEnv(), HijackMiddle()) && PKG_M in HijackEnv().universe
    ensures var r := Import(HijackEnv(), HijackMiddle(), PKG_M).state;
            && PKG in r.modules && FileOf(r, PKG) == Foreign(0)
            && PKG_M in r.modules && FileOf(r, PKG_M) == Src(PKG_M)
  {
    HijackLoadsTwin();
    HijackNames();
    TakesTwin(HijackEnv(), HijackMiddle(), PKG_M);
  }

  /** A bare name whose src twin is loaded becomes another name of that object. */
  lemma TakesTwin(env: Env, s: State, n: Name)
    requires Ready(env, s) && n in env.universe && n !in s.modules && n != ROOT && !IsSrcSpelling(n)
    requires |n| > 1 ==> Parent(n) in s.modules && env.isPackage(FileOf(s, Parent(n)))
    requires Hooked(n) && Identifiers(n) && Canonical(n) in s.modules && FileOf(s, Canonical(n)) == Src(n)
    ensures var r := Import(env, s, n).state;
            && n in r.modules && FileOf(r, n) == Src(n)
            && forall m :: m in s.modules ==> m in r.modules && FileOf(r, m) == FileOf(s, m)
  {
    assert HookTarget(env, s, n) == Some(Canonical(n));
    AliasedFrame(s, n, s.modules[Canonical(n)]);
    assert Import(env, s, n) == FindAndLoad(env, s, n);
  }

  // ------------------------------------------------ the failure the hook prevents

  const MT5: Name := ["mt5"]
  const TERMINALS: Name := ["mt5", "terminals"]

  /** The package src/mt5 with its module terminals, and src/ on the path. */
  function Mt5Env(): Env {
    Env({ROOT, MT5, TERMINALS, Canonical(MT5), Canonical(TERMINALS)}, {MT5, TERMINALS},
        (f: File) => f == Src([]) || f == Src(MT5),
        (c: string) => if c == "mt5" then Some(Src(MT5)) else None,
        (c: string) => if c == "mt5" then Some(Src(MT5)) else None,
        (k: nat, c: string) => None,
        (f: File, n: Name) => [])
  }

  lemma Mt5Identifier()
    ensures Identifier("mt5")
  {
    var m: string := "mt";
    assert Identifier(m);
    assert NUMERALS[5] == '5';
    IdentifierLaws(m, "", '5');
    assert m + ['5'] == "mt5";
  }

  lemma TerminalsIdentifier()
    ensures Identifier("terminals")
  {
    var t: string := "terminals";
    assert forall i :: 0 <= i < |t| ==> 'a' <= t[i] <= 'z';
  }

  lemma Mt5Names()
    ensures !IsSrcSpelling(MT5) && !IsSrcSpelling(TERMINALS) && MT5 != ROOT && TERMINALS != ROOT && MT5 != TERMINALS
    ensures Hooked(MT5) && Hooked(TERMINALS) && Identifiers(MT5) && Identifiers(TERMINALS)
    ensures Parent(TERMINALS) == MT5 && MT5[..0] == [] && TERMINALS[..1] == MT5
    ensures Parent(Canonical(MT5)) == ROOT && Parent(Canonical(TERMINALS)) == Canonical(MT5)
    ensures MT5 != Canonical(MT5) && TERMINALS != Canonical(MT5) && MT5 != Canonical(TERMINALS)
    ensures Canonical(MT5) != ROOT && Canonical(TERMINALS) != ROOT && Canonical(MT5) != Canonical(TERMINALS)
  {
    assert "mt5"[0] != "src"[0];
    Mt5Identifier();
    TerminalsIdentifier();
    CanonicalParent(MT5);
    CanonicalParent(TERMINALS);
    assert MT5[..0] == [] && TERMINALS[..1] == MT5;
  }

  lemma Mt5EnvSane()
    ensures WellFormed(Mt5Env()) && Closed(Mt5Env())
  {
    Mt5Names();
  }

  function Mt5Loaded(): State {
    Created(Created(Initial(), Canonical(MT5), Src(MT5)), Canonical(TERMINALS), Src(TERMINALS))
  }

  lemma Mt5SrcFirst()
    ensures Ready(Mt5Env(), Mt5Loaded()) && Closed(Mt5Env())
    ensures Import(Mt5Env(), Initial(), Canonical(TERMINALS)).state == Mt5Loaded()
  {
    Mt5EnvSane();
    Mt5Names();
    LoadsTwins(Mt5Env(), Initial(), MT5, TERMINALS);
  }

  /** A name and its package, both bare, whose src twins are loaded. */
  lemma TakesTwins(env: Env, s: State, n: Name)
    requires Ready(env, s) && n in env.universe && |n| > 1 && Parent(n) != ROOT
    requires n !in s.modules && Parent(n) !in s.modules
    requires |n| == 2 && !IsSrcSpelling(n) && !IsSrcSpelling(Parent(n))
    requires Hooked(n) && Identifiers(n) && Hooked(Parent(n)) && Identifiers(Parent(n))
    requires Canonical(n) in s.modules && FileOf(s, Canonical(n)) == Src(n)
    requires Canonical(Parent(n)) in s.modules && FileOf(s, Canonical(Parent(n))) == Src(Parent(n))
    requires env.isPackage(Src(Parent(n)))
    ensures var r := Import(env, s, n).state;
            && r.executed == s.executed && n in r.modules && Parent(n) in r.modules
            && Canonical(n) in r.modules && Canonical(Parent(n)) in r.modules
            && r.modules[n] == r.modules[Canonical(n)] == s.modules[Canonical(n)]
            && r.modules[Parent(n)] == r.modules[Canonical(Parent(n))] == s.modules[Canonical(Parent(n))]
  {
    var q := Parent(n);
    FoundDirectly(env, s, q);
    HooksTwin(env, s, q);
    var s1 := Import(env, s, q).state;
    HooksTwin(env, s1, n);
    AskedThenFound(env, s, n);
  }

  lemma HooksTwin(env: Env, s: State, n: Name)
    requires Ready(env, s) && n in env.universe && n !in s.modules && n != ROOT && !IsSrcSpelling(n)
    requires |n| > 1 ==> Parent(n) in s.modules && env.isPackage(FileOf(s, Parent(n)))
    requires Hooked(n) && Identifiers(n) && Canonical(n) in s.modules && FileOf(s, Canonical(n)) == Src(n)
    ensures FindAndLoad(env, s, n) == Outcome(Aliased(s, n, s.modules[Canonical(n)]), Some(s.modules[Canonical(n)]))
    ensures FileOf(Aliased(s, n, s.modules[Canonical(n)]), n) == Src(n)
    ensures forall m :: m in s.modules ==>
              FileOf(Aliased(s, n, s.modules[Canonical(n)]), m) == FileOf(s, m)
  {
    assert HookTarget(env, s, n) == Some(Canonical(n));
    AliasedFrame(s, n, s.modules[Canonical(n)]);
  }

  lemma Mt5LoadedIs()
    ensures var s := Mt5Loaded();
            && InRange(s) && s.executed == [Src([]), Src(MT5), Src(TERMINALS)]
            && MT5 !in s.modules && TERMINALS !in s.modules
            && Canonical(MT5) in s.modules && s.modules[Canonical(MT5)] == 1
            && Canonical(TERMINALS) in s.modules && s.modules[Canonical(TERMINALS)] == 2
            && FileOf(s, Canonical(MT5)) == Src(MT5) && FileOf(s, Canonical(TERMINALS)) == Src(TERMINALS)
  {
    Mt5Names();
  }

  lemma Mt5BareAfter()
    ensures Ready(Mt5Env(), Mt5Loaded()) && TERMINALS in Mt5Env().universe
    ensures var s := Mt5Loaded(); var r := Import(Mt5Env(), s, TERMINALS).state;
            && r.executed == s.executed
            && MT5 in r.modules && Canonical(MT5) in r.modules && r.modules[MT5] == r.modules[Canonical(MT5)] == 1
            && TERMINALS in r.modules && Canonical(TERMINALS) in r.modules
            && r.modules[TERMINALS] == r.modules[Canonical(TERMINALS)] == 2
  {
    Mt5SrcFirst();
    Mt5Names();
    Mt5LoadedIs();
    TakesTwins(Mt5Env(), Mt5Loaded(), TERMINALS);
  }

  /** `import src.mt5.terminals` and then `import mt5.terminals`: each file has
      run once, and each is one module under both its names. */
  lemma Mt5Example()
    ensures var env := Mt5Env();
            && WellFormed(env) && Closed(env)
            && var r := RunBody(env, Initial(), [Canonical(TERMINALS), TERMINALS]);
            && r.executed == [Src([]), Src(MT5), Src(TERMINALS)]
            && MT5 in r.modules && Canonical(MT5) in r.modules && r.modules[MT5] == r.modules[Canonical(MT5)] == 1
            && TERMINALS in r.modules && Canonical(TERMINALS) in r.modules
            && r.modules[TERMINALS] == r.modules[Canonical(TERMINALS)] == 2
  {
    Mt5EnvSane();
    Mt5SrcFirst();
    Mt5LoadedIs();
    Mt5BareAfter();
    RunsTwo(Mt5Env(), Initial(), Canonical(TERMINALS), TERMINALS);
  }

  lemma RunsThree(env: Env, s: State, a: Name, b: Name, c: Name)
    requires Ready(env, s) && a in env.universe && b in env.universe && c in env.universe
    ensures RunBody(env, s, [a, b, c]) == Import(env, Import(env, Import(env, s, a).state, b).state, c).state
  {
    assert [a, b, c][1..] == [b, c];
    RunsTwo(env, Import(env, s, a).state, b, c);
  }

  // ------------------------------------------------- where one file is loaded twice

  /** The import gave n its file below src/ in an object other than its twin's. */
  ghost predicate Splits(r: Outcome, n: Name, twin: Name, path: Name)
    requires InRange(r.state) && (r.result.Some? ==> n in r.state.modules)
  {
    && r.result.Some? && FileOf(r.state, n) == Src(path)
    && twin in r.state.modules && r.result.value != r.state.modules[twin]
  }

  /** The file has run before and runs once more. */
  ghost predicate RunsAgain(s: State, r: State, path: Name) {
    Src(path) in s.executed && s.executed + [Src(path)] <= r.executed
  }

  lemma BareSplitsAt(env: Env, s: State, n: Name)
    requires Inv(env, s) && n in env.universe && n !in s.modules && n != ROOT && !IsSrcSpelling(n)
    requires (|n| > 1 ==> Parent(n) in s.modules) && Canonical(n) in s.modules
    ensures var r := FindAndLoad(env, s, n);
            && (Splits(r, n, Canonical(n), n) <==>
                  && (|n| > 1 ==> env.isPackage(FileOf(s, Parent(n))))
                  && !(Hooked(n) && (Identifiers(n) || ResolvesToSrc(env, n[0])))
                  && Locate(env, s, n) == Some(Src(n)))
            && (Splits(r, n, Canonical(n), n) ==> RunsAgain(s, r.state, n))
  {
    HookedWhenLoaded(env, s, n);
    if |n| > 1 && !env.isPackage(FileOf(s, Parent(n))) {
      assert FindAndLoad(env, s, n).result == None;
    } else if HookTarget(env, s, n).Some? {
      AliasedLoaded(env, s, n, Canonical(n));
    } else {
      PassedOver(env, s, n);
      RanBefore(env, s, Canonical(n), n);
      if Locate(env, s, n) == Some(Src(n)) {
        NewObjectSplits(env, s, FindAndLoad(env, s, n), n, Canonical(n), n);
      }
    }
  }

  /** For every bare name imported after its src spelling, private, dotted or
      neither, once its package has been imported: the file is loaded a second
      time, as a second object, exactly when the hook stays out (the top part is
      private or no identifier, or a later part is no identifier and the top is
      not found below src/) and the finders behind it do find the file. */
  lemma BareSplitsIff(env: Env, s: State, n: Name)
    requires Inv(env, s) && n in env.universe && n != ROOT && !IsSrcSpelling(n)
    requires |n| > 1 ==> Import(env, s, Parent(n)).result.Some?
    requires n !in Asked(env, s, n).modules && Canonical(n) in Asked(env, s, n).modules
    ensures var at := Asked(env, s, n); var r := Import(env, s, n);
            && (Splits(r, n, Canonical(n), n) <==>
                  && (|n| > 1 ==> env.isPackage(FileOf(at, Parent(n))))
                  && !(Hooked(n) && (Identifiers(n) || ResolvesToSrc(env, n[0])))
                  && Locate(env, at, n) == Some(Src(n)))
            && (Splits(r, n, Canonical(n), n) ==> RunsAgain(at, r.state, n))
  {
    if |n| > 1 {
      ImportKeepsInv(env, s, Parent(n));
    }
    AskedThenFound(env, s, n);
    BareSplitsAt(env, Asked(env, s, n), n);
  }

  lemma HookedSrc(env: Env, s: State, p: Name)
    requires InRange(s) && p != [] && p in s.modules && FileOf(s, p) == Src(p)
    ensures HookTarget(env, s, Canonical(p)) == if Identifiers(p) then Some(p) else None
  {
    assert Canonical(p)[1..] == p;
  }

  /** A src spelling whose bare name holds the file: aliased if the hook can tell. */
  lemma SrcUnified(env: Env, s: State, p: Name)
    requires Inv(env, s) && p != [] && Canonical(p) in env.universe && Canonical(p) !in s.modules
    requires Parent(Canonical(p)) in s.modules && env.isPackage(FileOf(s, Parent(Canonical(p))))
    requires p in s.modules && FileOf(s, p) == Src(p) && Identifiers(p)
    ensures var r := FindAndLoad(env, s, Canonical(p));
            && r.result == Some(s.modules[p]) && r.state.executed == s.executed
            && p in r.state.modules && r.state.modules[p] == s.modules[p]
  {
    HookedSrc(env, s, p);
    AliasedLoaded(env, s, Canonical(p), p);
  }

  lemma SrcAgain(env: Env, s: State, p: Name)
    requires Inv(env, s) && p != [] && Canonical(p) in env.universe && Canonical(p) !in s.modules
    requires Parent(Canonical(p)) in s.modules && env.isPackage(FileOf(s, Parent(Canonical(p))))
    requires p in s.modules && FileOf(s, p) == Src(p) && !Identifiers(p)
    ensures var r := FindAndLoad(env, s, Canonical(p));
            Splits(r, Canonical(p), p, p) && RunsAgain(s, r.state, p)
  {
    SrcPassed(env, s, p);
    PassedOver(env, s, Canonical(p));
    RanBefore(env, s, p, p);
    NewObjectSplits(env, s, FindAndLoad(env, s, Canonical(p)), Canonical(p), p, p);
  }

  lemma SrcPassed(env: Env, s: State, p: Name)
    requires Inv(env, s) && p != [] && Parent(Canonical(p)) in s.modules
    requires p in s.modules && FileOf(s, p) == Src(p) && !Identifiers(p)
    ensures HookTarget(env, s, Canonical(p)) == None && Locate(env, s, Canonical(p)) == Some(Src(p))
  {
    SrcParent(env, s, p);
    HookedSrc(env, s, p);
    LocateSrc(env, s, p);
    RanBefore(env, s, p, p);
  }

  lemma RanBefore(env: Env, s: State, twin: Name, path: Name)
    requires Inv(env, s) && twin in s.modules && FileOf(s, twin) == Src(path)
    ensures Src(path) in s.executed && (path != [] ==> path in env.entries)
  {
    assert s.executed[s.modules[twin]] == Src(path);
  }

  lemma NewObjectSplits(env: Env, s: State, r: Outcome, n: Name, twin: Name, path: Name)
    requires Extends(env, s, r.state) && twin in s.modules && r.result == Some(|s.objects|)
    requires n in r.state.modules && FileOf(r.state, n) == Src(path)
    ensures Splits(r, n, twin, path)
  {
  }

  lemma SrcSplitsAt(env: Env, s: State, p: Name, r: Outcome)
    requires Inv(env, s) && p != [] && Canonical(p) in env.universe && Canonical(p) !in s.modules
    requires Parent(Canonical(p)) in s.modules && p in s.modules && FileOf(s, p) == Src(p)
    requires r == FindAndLoad(env, s, Canonical(p))
    ensures var package := env.isPackage(Src(p[..|p| - 1]));
            && (Splits(r, Canonical(p), p, p) <==> package && !Identifiers(p))
            && (Splits(r, Canonical(p), p, p) ==> RunsAgain(s, r.state, p))
            && (package && Identifiers(p) ==> r.result == Some(s.modules[p]) && r.state.executed == s.executed)
  {
    SrcParent(env, s, p);
    if !env.isPackage(Src(p[..|p| - 1])) {
      assert r.result == None;
    } else if Identifiers(p) {
      SrcUnified(env, s, p);
    } else {
      SrcAgain(env, s, p);
    }
  }

  /** In the other order, for every src file already loaded under its bare
      spelling, once the src package has been imported: it is loaded again exactly
      when a part of the path is no identifier; private names are unified. */
  lemma SrcSplitsIff(env: Env, s: State, p: Name)
    requires Inv(env, s) && p != [] && Canonical(p) in env.universe
    requires Import(env, s, Parent(Canonical(p))).result.Some?
    requires var at := Asked(env, s, Canonical(p));
             Canonical(p) !in at.modules && p in at.modules && FileOf(at, p) == Src(p)
    ensures var at := Asked(env, s, Canonical(p)); var r := Import(env, s, Canonical(p));
            var package := env.isPackage(Src(p[..|p| - 1]));
            && (Splits(r, Canonical(p), p, p) <==> package && !Identifiers(p))
            && (Splits(r, Canonical(p), p, p) ==> RunsAgain(at, r.state, p))
            && (package && Identifiers(p) ==> r.result == Some(at.modules[p]) && r.state.executed == at.executed)
  {
    ImportKeepsInv(env, s, Parent(Canonical(p)));
    AskedThenFound(env, s, Canonical(p));
    SrcSplitsAt(env, Asked(env, s, Canonical(p)), p, Import(env, s, Canonical(p)));
  }

  // ------------------------------------------------------- a concrete instance

  /** One file below src/, without imports, and src/ on the path. */
  function OneFileEnv(top: string): Env {
    Env({ROOT, Canonical([top]), [top]}, {[top]},
        (f: File) => f == Src([]),
        (c: string) => if c == top then Some(Src([top])) else None,
        (c: string) => if c == top then Some(Src([top])) else None,
        (k: nat, c: string) => None,
        (f: File, n: Name) => [])
  }

  lemma OneFileNames(top: string)
    requires top != SRC
    ensures var bare: Name := [top]; var c := Canonical(bare);
            && c != ROOT && bare != ROOT && bare != c && !IsSrcSpelling(bare) && c[1..] == bare
            && Parent(c) == ROOT && bare[..0] == []
  {
  }

  lemma OneFileSane(top: string)
    requires top != SRC
    ensures WellFormed(OneFileEnv(top)) && Closed(OneFileEnv(top))
  {
    var env := OneFileEnv(top);
    OneFileNames(top);
    forall n {:trigger Parent(n)} | n in env.universe && |n| > 1
      ensures Parent(n) in env.universe
    {
      assert n == Canonical([top]);
    }
    forall n {:trigger Canonical(n)} | n in env.universe && n != ROOT && !IsSrcSpelling(n)
      ensures Canonical(n) in env.universe
    {
      assert n == [top];
    }
  }

  lemma LoadsEmptyFile(env: Env, s: State, n: Name, f: File)
    requires Ready(env, s) && n in env.universe && n !in s.modules
    requires |n| > 1 ==> Parent(n) in s.modules && env.isPackage(FileOf(s, Parent(n)))
    requires HookTarget(env, s, n) == None && Locate(env, s, n) == Some(f) && env.body(f, n) == []
    ensures Import(env, s, n).state == Created(s, n, f)
  {
    assert RunBody(env, Created(s, n, f), []) == Created(s, n, f);
    assert FindAndLoad(env, s, n).state == Created(s, n, f);
  }

  lemma LoadsBare(top: string, s: State)
    requires top != SRC && !Hooked([top]) && Ready(OneFileEnv(top), s) && [top] !in s.modules
    ensures Import(OneFileEnv(top), s, [top]).state == Created(s, [top], Src([top]))
  {
    OneFileNames(top);
    LoadsEmptyFile(OneFileEnv(top), s, [top], Src([top]));
  }

  /** src/_x.py, imported as src._x and then as _x, runs twice. */
  lemma PrivateExample()
    ensures var env := OneFileEnv("_x"); var bare: Name := ["_x"];
            && WellFormed(env) && Closed(env)
            && RunBody(env, Initial(), [Canonical(bare), bare]).executed == [Src([]), Src(bare), Src(bare)]
  {
    var env, s := OneFileEnv("_x"), Initial();
    var bare: Name := ["_x"];
    assert bare[0][0] == '_';
    OneFileSane("_x");
    OneFileNames("_x");
    LoadsSrcTwin(env, s, bare);
    LoadsBare("_x", Created(s, Canonical(bare), Src(bare)));
    RunsTwo(env, s, Canonical(bare), bare);
  }

  /** src/x-y.py, imported as x-y and then as src.x-y, runs twice too. */
  lemma OddNameExample()
    ensures var env := OneFileEnv("x-y"); var bare: Name := ["x-y"];
            && WellFormed(env) && Closed(env)
            && RunBody(env, Initial(), [bare, Canonical(bare)]).executed == [Src([]), Src(bare), Src(bare)]
  {
    var env, s := OneFileEnv("x-y"), Initial();
    var bare: Name := ["x-y"];
    assert bare[0][1] == '-';
    assert !Identifiers(bare);
    OneFileSane("x-y");
    OneFileNames("x-y");
    LoadsBare("x-y", s);
    var s1 := Created(s, bare, Src(bare));
    HookedSrc(env, s1, bare);
    LocateSrc(env, s1, bare);
    LoadsEmptyFile(env, s1, Canonical(bare), Src(bare));
    RunsTwo(env, s, bare, Canonical(bare));
  }

  lemma RunsTwo(env: Env, s: State, a: Name, b: Name)
    requires Ready(env, s) && a in env.universe && b in env.universe
    ensures RunBody(env, s, [a, b]) == Import(env, Import(env, s, a).state, b).state
  {
    var s1 := Import(env, s, a).state;
    assert [a, b][1..] == [b] && [b][1..] == [];
    assert RunBody(env, s1, [b]) == RunBody(env, Import(env, s1, b).state, []);
  }
}
