/** Whole `ledger_close_stale` processes, one after another, over a file that may
    stop taking appends at any point. */
module BackfillRuns {
  import opened Common
  import opened OrderLedger
  import opened Recovery
  import opened StaleSelection

  /** The positions read: verified, reported as failed, or an exception. */
  datatype BrokerRead = Verified(tickets: set<string>) | Unverified | Raised

  /** Reading the file: all of it, up to an OSError, or not decodable at all. */
  datatype Reading = Whole | BrokenAt(k: nat) | Undecodable

  /** What one process meets.  `answers(from)` is what the file system says to its
      first append, `answers(from + 1)` to the second, and so on. */
  datatype World = World(present: bool, broker: BrokerRead, reading: Reading, answers: nat -> bool, from: nat)

  datatype Exit = Exit(code: int, lines: seq<Line>, candidates: seq<Candidate>)

  /** The lines a store gets to see. */
  function Loaded(lines: seq<Line>, reading: Reading): seq<Line> {
    match reading
    case Whole => lines
    case BrokenAt(k) => lines[..Min(k, |lines|)]
    case Undecodable => []
  }

  /** A store takes appends only after a whole and clean load. */
  predicate Sound(lines: seq<Line>, reading: Reading) { reading == Whole && Healthy(lines) }

  /** How many of the records reach the file: those before the first refusal. */
  function Durable(rs: seq<Record>, answers: nat -> bool, from: nat): (d: nat)
    ensures d <= |rs|
  {
    if rs == [] then 0
    else
      var n := |rs| - 1;
      var d := Durable(rs[..n], answers, from);
      if d == n && answers(from + n) then n + 1 else d
  }

  lemma DurableNext(rs: seq<Record>, r: Record, answers: nat -> bool, from: nat)
    ensures Durable(rs + [r], answers, from) ==
            var d := Durable(rs, answers, from);
            if d == |rs| && answers(from + |rs|) then d + 1 else d
  {
    assert (rs + [r])[..|rs|] == rs;
  }

  predicate Accepts(answers: nat -> bool, from: nat, j: nat) { answers(from + j) }

  /** Nothing reaches the file exactly when the first answer is no. */
  lemma {:induction false} DurableNone(rs: seq<Record>, answers: nat -> bool, from: nat)
    ensures Durable(rs, answers, from) == 0 <==> rs == [] || !answers(from)
    decreases |rs|
  {
    if |rs| > 1 {
      DurableNone(rs[..|rs| - 1], answers, from);
    }
  }

  /** Everything does exactly when every answer is yes. */
  lemma {:induction false} DurableAll(rs: seq<Record>, answers: nat -> bool, from: nat)
    ensures Durable(rs, answers, from) == |rs| <==> forall j: nat :: j < |rs| ==> Accepts(answers, from, j)
    decreases |rs|
  {
    if rs != [] {
      DurableAll(rs[..|rs| - 1], answers, from);
      assert Accepts(answers, from, |rs| - 1) == answers(from + |rs| - 1);
    }
  }

  /** The closed records a process adds to the file. */
  function Added(lines: seq<Line>, w: World, apply: bool, filter: Option<string>): seq<Record> {
    if w.present && w.broker.Verified? && apply && Sound(lines, w.reading) then
      var rs := Backfill(Replay(lines), w.broker.tickets, filter).appended;
      rs[..Durable(rs, w.answers, w.from)]
    else []
  }

  /** One process: its exit code, the file it leaves, the candidates it listed. */
  function Process(lines: seq<Line>, w: World, apply: bool, filter: Option<string>): Exit {
    if !w.present || w.broker.Unverified? then Exit(2, lines, [])
    else if w.broker.Raised? || w.reading == Undecodable then Exit(1, lines, [])
    else
      Exit(0, lines + Entries(Added(lines, w, apply, filter)),
           Candidates(Replay(Loaded(lines, w.reading)), w.broker.tickets, filter))
  }

  /** Exit code 2 for a missing ledger or an unverified read, 1 for an exception,
      and otherwise 0; only then is anything listed or written. */
  lemma ExitCodes(lines: seq<Line>, w: World, apply: bool, filter: Option<string>)
    ensures var e := Process(lines, w, apply, filter);
            && (e.code == 2 <==> !w.present || w.broker == Unverified)
            && (e.code == 1 <==> w.present && (w.broker == Raised || (w.broker.Verified? && w.reading == Undecodable)))
            && e.code in {0, 1, 2}
            && (e.code != 0 ==> e.lines == lines && e.candidates == [])
  {
  }

  /** A reading that breaks off after k lines lists what the first k lines hold, and
      writes nothing. */
  lemma BrokenReadIgnoresRest(lines: seq<Line>, k: nat, w: World, apply: bool, filter: Option<string>)
    requires k <= |lines| && w.present && w.broker.Verified? && w.reading == BrokenAt(k)
    ensures var e := Process(lines, w, apply, filter);
            && e.candidates == Process(lines[..k], w.(reading := Whole), apply, filter).candidates
            && e.lines == lines
  {
    assert lines + Entries([]) == lines;
  }

  lemma ProcessAdds(lines: seq<Line>, w: World, apply: bool, filter: Option<string>)
    ensures Process(lines, w, apply, filter).lines == lines + Entries(Added(lines, w, apply, filter))
  {
  }

  // ---------------------------------------------------------- what a run adds

  lemma EntriesHealthy(lines: seq<Line>, rs: seq<Record>)
    ensures Healthy(lines + Entries(rs)) <==> Healthy(lines)
  {
    var all := lines + Entries(rs);
    forall i | 0 <= i < |lines| ensures all[i] == lines[i] {}
  }

  predicate Closes(o: Orders, intent: string) { Lookup(o, intent).Some? && IsOpen(Lookup(o, intent).value) }

  ghost predicate HasIntent(rs: seq<Record>, intent: string) { exists j :: 0 <= j < |rs| && rs[j].intent == intent }

  lemma HasIntentNext(rs: seq<Record>, r: Record, intent: string)
    ensures HasIntent(rs + [r], intent) <==> HasIntent(rs, intent) || r.intent == intent
  {
    var all := rs + [r];
    if HasIntent(rs, intent) {
      var j :| 0 <= j < |rs| && rs[j].intent == intent;
      assert all[j].intent == intent;
    }
    assert all[|rs|] == r;
  }

  lemma PutAllNext(o: Orders, rs: seq<Record>, r: Record)
    ensures PutAll(o, rs + [r]) == Put(PutAll(o, rs), r)
  {
    assert (rs + [r])[..|rs|] == rs;
  }

  predicate AllClosed(rs: seq<Record>) { forall j :: 0 <= j < |rs| ==> rs[j].state == "closed" }

  predicate KnownClosed(o: Orders, intent: string) {
    Lookup(o, intent).Some? && Lookup(o, intent).value.state == "closed"
  }

  /** Closing records leaves their intents closed and the others as they were. */
  lemma {:induction false} PutAllLookup(o: Orders, rs: seq<Record>, intent: string)
    requires AllClosed(rs)
    ensures if HasIntent(rs, intent) then KnownClosed(PutAll(o, rs), intent)
            else Lookup(PutAll(o, rs), intent) == Lookup(o, intent)
    decreases |rs|
  {
    if rs != [] {
      var init, r := rs[..|rs| - 1], rs[|rs| - 1];
      assert rs == init + [r];
      PutAllLookup(o, init, intent);
      PutAllNext(o, init, r);
      PutLookup(PutAll(o, init), r, intent);
      HasIntentNext(init, r, intent);
    }
  }

  lemma KnownClosedNotOpen(o: Orders, intent: string)
    requires KnownClosed(o, intent)
    ensures !Closes(o, intent)
  {
    ClosedIsNotOpen(Lookup(o, intent).value);
  }

  lemma WrittenCloses(o: Orders, cs: seq<Candidate>, a: Applied, r: Record)
    requires Unique(o) && ClosesHits(o, cs, a) && Written(o, cs, a.orders, r)
    ensures r.state == "closed" && r.reason == "stale_backfill" && Closes(o, r.intent)
  {
    var i: nat :| WrittenFor(o, cs, a.orders, r, i);
    IndexOfUnique(o, i);
  }

  /** A run appends closed records only, one per intent, each for an open one. */
  lemma BackfillAppends(o: Orders, broker: set<string>, filter: Option<string>)
    requires Unique(o)
    ensures var rs := Backfill(o, broker, filter).appended;
            && Unique(rs)
            && forall j :: 0 <= j < |rs| ==>
                 rs[j].state == "closed" && rs[j].reason == "stale_backfill" && Closes(o, rs[j].intent)
  {
    BackfillCloses(o, broker, filter);
    var cs := Candidates(o, broker, filter);
    var a := Backfill(o, broker, filter);
    forall j | 0 <= j < |a.appended|
      ensures a.appended[j].state == "closed" && a.appended[j].reason == "stale_backfill"
      ensures Closes(o, a.appended[j].intent)
    {
      WrittenCloses(o, cs, a, a.appended[j]);
    }
  }

  // -------------------------------------------------------- run after run

  datatype Run = Run(w: World, apply: bool, filter: Option<string>)

  function Runs(lines: seq<Line>, runs: seq<Run>): seq<Line> {
    if runs == [] then lines
    else
      var last := runs[|runs| - 1];
      Process(Runs(lines, runs[..|runs| - 1]), last.w, last.apply, last.filter).lines
  }

  /** Closed records, at most one per intent, each for an intent open in o. */
  ghost predicate ClosesOnce(o: Orders, rs: seq<Record>) {
    && Unique(rs) && AllClosed(rs)
    && (forall j :: 0 <= j < |rs| ==> rs[j].reason == "stale_backfill")
    && forall j :: 0 <= j < |rs| ==> Closes(o, rs[j].intent)
  }

  lemma EntriesConcat(rs: seq<Record>, more: seq<Record>)
    ensures Entries(rs + more) == Entries(rs) + Entries(more)
  {
  }

  lemma ClosesOnceMore(o: Orders, rs: seq<Record>, more: seq<Record>)
    requires ClosesOnce(o, rs) && ClosesOnce(PutAll(o, rs), more)
    ensures ClosesOnce(o, rs + more)
  {
    var all := rs + more;
    forall j | 0 <= j < |more| ensures !HasIntent(rs, more[j].intent) && Closes(o, more[j].intent) {
      assert Closes(PutAll(o, rs), more[j].intent);
      PutAllLookup(o, rs, more[j].intent);
      if HasIntent(rs, more[j].intent) {
        KnownClosedNotOpen(PutAll(o, rs), more[j].intent);
      }
    }
    forall i, j | 0 <= i < j < |all| ensures all[i].intent != all[j].intent {
      if i < |rs| <= j {
        assert !HasIntent(rs, more[j - |rs|].intent);
      }
    }
  }

  lemma AddedClosesOnce(lines: seq<Line>, w: World, apply: bool, filter: Option<string>)
    ensures ClosesOnce(Replay(lines), Added(lines, w, apply, filter))
  {
    if w.broker.Verified? {
      BackfillAppends(Replay(lines), w.broker.tickets, filter);
    }
  }

  ghost predicate Grown(lines: seq<Line>, after: seq<Line>, rs: seq<Record>) {
    after == lines + Entries(rs) && ClosesOnce(Replay(lines), rs)
  }

  lemma GrowsBy(lines: seq<Line>, before: seq<Line>, rs: seq<Record>, more: seq<Record>)
    requires Grown(lines, before, rs) && ClosesOnce(Replay(before), more)
    ensures Grown(lines, before + Entries(more), rs + more)
  {
    ReplayAppends(lines, rs);
    ClosesOnceMore(Replay(lines), rs, more);
    EntriesConcat(rs, more);
    Associative(lines, Entries(rs), Entries(more));
  }

  lemma Associative(a: seq<Line>, b: seq<Line>, c: seq<Line>)
    ensures (a + b) + c == a + (b + c)
  {
  }

  /** Any number of runs, with any broker answers, filters, failing reads and
      failing appends, only ever append to the file, and what they append are
      closed records, at most one per intent, for intents that were open at the
      start: no duplicate closed rows. */
  lemma {:induction false} NoDuplicateCloses(lines: seq<Line>, runs: seq<Run>)
    ensures exists rs :: Grown(lines, Runs(lines, runs), rs)
    decreases |runs|
  {
    if runs == [] {
      var none: seq<Record> := [];
      assert lines + Entries(none) == lines;
      assert Grown(lines, Runs(lines, runs), none);
    } else {
      var init := runs[..|runs| - 1];
      NoDuplicateCloses(lines, init);
      var rs :| Grown(lines, Runs(lines, init), rs);
      var before, last := Runs(lines, init), runs[|runs| - 1];
      var more := Added(before, last.w, last.apply, last.filter);
      ProcessAdds(before, last.w, last.apply, last.filter);
      AddedClosesOnce(before, last.w, last.apply, last.filter);
      GrowsBy(lines, before, rs, more);
      assert Grown(lines, Runs(lines, runs), rs + more);
    }
  }

  // ------------------------------------------------ where an interrupted run stops

  lemma HasIntentAt(rs: seq<Record>, j: nat)
    requires j < |rs|
    ensures HasIntent(rs, rs[j].intent)
  {
  }

  /** Writing records of known intents changes those records and no other. */
  lemma {:induction false} PutAllKnown(o: Orders, rs: seq<Record>)
    requires Unique(o) && Unique(rs) && forall j :: 0 <= j < |rs| ==> Lookup(o, rs[j].intent).Some?
    ensures var p := PutAll(o, rs);
            && |p| == |o| && Unique(p)
            && (forall i :: 0 <= i < |o| ==> p[i].intent == o[i].intent)
            && (forall i :: 0 <= i < |o| ==> p[i] == o[i] || p[i] in rs)
            && (forall i :: 0 <= i < |o| && !HasIntent(rs, o[i].intent) ==> p[i] == o[i])
    decreases |rs|
  {
    if rs != [] {
      var init, r := rs[..|rs| - 1], rs[|rs| - 1];
      assert rs == init + [r];
      PutAllKnown(o, init);
      PutAllNext(o, init, r);
      PutKnown(o, PutAll(o, init), r);
      forall i | 0 <= i < |o| && !HasIntent(rs, o[i].intent) ensures PutAll(o, rs)[i] == o[i] {
        HasIntentNext(init, r, o[i].intent);
      }
    }
  }

  lemma PutKnown(o: Orders, q: Orders, r: Record)
    requires Unique(o) && |q| == |o| && (forall i :: 0 <= i < |o| ==> q[i].intent == o[i].intent)
    requires Lookup(o, r.intent).Some?
    ensures var p := Put(q, r);
            && |p| == |o| && Unique(p)
            && forall i :: 0 <= i < |o| ==>
                 p[i].intent == o[i].intent && p[i] == if o[i].intent == r.intent then r else q[i]
  {
    var x := IndexOf(o, r.intent);
    assert q[x].intent == r.intent;
    IndexOfUnique(q, x);
  }

  /** Memory after the first k of a run's records were written. */
  function Partly(o: Orders, broker: set<string>, filter: Option<string>, k: nat): Orders
    requires k <= |Backfill(o, broker, filter).appended|
  {
    PutAll(o, Backfill(o, broker, filter).appended[..k])
  }

  ghost predicate Done(o: Orders, broker: set<string>, filter: Option<string>, k: nat, i: nat)
    requires k <= |Backfill(o, broker, filter).appended| && i < |o|
  {
    HasIntent(Backfill(o, broker, filter).appended[..k], o[i].intent)
  }

  lemma AppendedIsHit(o: Orders, broker: set<string>, filter: Option<string>, r: Record) returns (i: nat)
    requires Unique(o) && r in Backfill(o, broker, filter).appended
    ensures i < |o| && Hit(o, Candidates(o, broker, filter), i)
    ensures r.intent == o[i].intent && r.state == "closed" && KeyOf(r.ticket) == KeyOf(o[i].ticket)
  {
    var cs, a := Candidates(o, broker, filter), Backfill(o, broker, filter);
    BackfillCloses(o, broker, filter);
    assert Written(o, cs, a.orders, r);
    i :| WrittenFor(o, cs, a.orders, r, i);
  }

  lemma HitIsAppended(o: Orders, broker: set<string>, filter: Option<string>, i: nat)
    requires Unique(o) && i < |o| && Hit(o, Candidates(o, broker, filter), i)
    ensures HasIntent(Backfill(o, broker, filter).appended, o[i].intent)
  {
    BackfillCloses(o, broker, filter);
    var a := Backfill(o, broker, filter);
    assert a.orders[i] in a.appended;
  }

  lemma DoneIsHit(o: Orders, broker: set<string>, filter: Option<string>, k: nat, i: nat)
    requires Unique(o) && k <= |Backfill(o, broker, filter).appended| && i < |o| && Done(o, broker, filter, k, i)
    ensures Hit(o, Candidates(o, broker, filter), i)
  {
    var rs := Backfill(o, broker, filter).appended;
    var j :| 0 <= j < k && rs[..k][j].intent == o[i].intent;
    var x := AppendedIsHit(o, broker, filter, rs[j]);
    assert x == i;
  }

  /** Written records are closed in memory, the others are as they were. */
  lemma PartlyIs(o: Orders, broker: set<string>, filter: Option<string>, k: nat)
    requires Unique(o) && k <= |Backfill(o, broker, filter).appended|
    ensures var p := Partly(o, broker, filter, k);
            && |p| == |o| && Unique(p)
            && forall i :: 0 <= i < |o| ==>
                 && KeyOf(p[i].ticket) == KeyOf(o[i].ticket)
                 && if Done(o, broker, filter, k, i) then !IsOpen(p[i]) else p[i] == o[i]
  {
    var rs := Backfill(o, broker, filter).appended;
    var p := Partly(o, broker, filter, k);
    BackfillAppends(o, broker, filter);
    PutAllKnown(o, rs[..k]);
    forall i | 0 <= i < |o|
      ensures KeyOf(p[i].ticket) == KeyOf(o[i].ticket)
      ensures Done(o, broker, filter, k, i) ==> !IsOpen(p[i])
    {
      if p[i] in rs[..k] {
        var x := AppendedIsHit(o, broker, filter, p[i]);
        assert x == i;
      }
      if Done(o, broker, filter, k, i) {
        IndexOfUnique(p, i);
        PutAllLookup(o, rs[..k], o[i].intent);
        KnownClosedNotOpen(p, o[i].intent);
      }
    }
  }

  lemma NamedByStale(o: Orders, broker: set<string>, filter: Option<string>, key: string) returns (i: nat)
    requires Names(Candidates(o, broker, filter), key)
    ensures i < |o| && IsStale(o[i], broker, filter) && KeyOf(o[i].ticket) == key
  {
    CandidatesAreTheStale(o, broker, filter);
    var c :| c in Candidates(o, broker, filter) && KeyOf(c.ticket) == key;
    i :| 0 <= i < |o| && IsStale(o[i], broker, filter) && c == CandidateOf(o[i]);
  }

  /** A second run can close exactly what the first should have and did not. */
  lemma HitsLeft(o: Orders, broker: set<string>, filter: Option<string>, k: nat, i: nat)
    requires Unique(o) && k <= |Backfill(o, broker, filter).appended| && i < |o|
    ensures var p := Partly(o, broker, filter, k);
            Hit(p, Candidates(p, broker, filter), i) <==>
            Hit(o, Candidates(o, broker, filter), i) && !Done(o, broker, filter, k, i)
  {
    var p := Partly(o, broker, filter, k);
    PartlyIs(o, broker, filter, k);
    var key := KeyOf(o[i].ticket);
    SameKeysSameOwner(o, p, key);
    if Hit(p, Candidates(p, broker, filter), i) {
      var x := NamedByStale(p, broker, filter, key);
      StaleIsNamed(o, broker, filter, x);
    }
    if Hit(o, Candidates(o, broker, filter), i) && !Done(o, broker, filter, k, i) {
      var x := NamedByStale(o, broker, filter, key);
      if Done(o, broker, filter, k, x) {
        DoneIsHit(o, broker, filter, k, x);
      }
      StaleIsNamed(p, broker, filter, x);
    }
  }

  /** However far the first run got, a second one over the same broker book
      closes exactly the intents that are left. */
  lemma SecondRunClosesRest(o: Orders, broker: set<string>, filter: Option<string>, k: nat, intent: string)
    requires Unique(o) && k <= |Backfill(o, broker, filter).appended|
    ensures var rs := Backfill(o, broker, filter).appended; var p := Partly(o, broker, filter, k);
            HasIntent(Backfill(p, broker, filter).appended, intent) <==>
            HasIntent(rs, intent) && !HasIntent(rs[..k], intent)
  {
    var rs, p := Backfill(o, broker, filter).appended, Partly(o, broker, filter, k);
    var more := Backfill(p, broker, filter).appended;
    PartlyIs(o, broker, filter, k);
    PutAllKnownHere(o, broker, filter, k);
    if HasIntent(more, intent) {
      var j :| 0 <= j < |more| && more[j].intent == intent;
      var i := AppendedIsHit(p, broker, filter, more[j]);
      HitsLeft(o, broker, filter, k, i);
      HitIsAppended(o, broker, filter, i);
    }
    if HasIntent(rs, intent) && !HasIntent(rs[..k], intent) {
      var j :| 0 <= j < |rs| && rs[j].intent == intent;
      var i := AppendedIsHit(o, broker, filter, rs[j]);
      HitsLeft(o, broker, filter, k, i);
      HitIsAppended(p, broker, filter, i);
    }
  }

  lemma PutAllKnownHere(o: Orders, broker: set<string>, filter: Option<string>, k: nat)
    requires Unique(o) && k <= |Backfill(o, broker, filter).appended|
    ensures var p := Partly(o, broker, filter, k);
            |p| == |o| && forall i :: 0 <= i < |o| ==> p[i].intent == o[i].intent
  {
    BackfillAppends(o, broker, filter);
    PutAllKnown(o, Backfill(o, broker, filter).appended[..k]);
  }

  /** It appends nothing exactly when the first wrote everything. */
  lemma RestIsNothingIff(o: Orders, broker: set<string>, filter: Option<string>, k: nat)
    requires Unique(o) && k <= |Backfill(o, broker, filter).appended|
    ensures Backfill(Partly(o, broker, filter, k), broker, filter).appended == [] <==>
            k == |Backfill(o, broker, filter).appended|
  {
    var rs, p := Backfill(o, broker, filter).appended, Partly(o, broker, filter, k);
    var more := Backfill(p, broker, filter).appended;
    if k < |rs| {
      BackfillAppends(o, broker, filter);
      SecondRunClosesRest(o, broker, filter, k, rs[k].intent);
      assert !HasIntent(rs[..k], rs[k].intent);
      HasIntentAt(rs, k);
    } else if more != [] {
      HasIntentAt(more, 0);
      WholePrefix(rs, k, more[0].intent);
      SecondRunClosesRest(o, broker, filter, k, more[0].intent);
    }
  }

  lemma WholePrefix(rs: seq<Record>, k: nat, intent: string)
    requires k == |rs|
    ensures HasIntent(rs[..k], intent) <==> HasIntent(rs, intent)
  {
    assert rs[..k] == rs;
  }

  lemma NothingListed(o: Orders, broker: set<string>, filter: Option<string>, k: nat)
    requires Unique(o) && k <= |Backfill(o, broker, filter).appended|
    requires Candidates(Partly(o, broker, filter, k), broker, filter) == []
    ensures StaleOwnTheirTickets(o, broker, filter) && k == |Backfill(o, broker, filter).appended|
  {
    var p := Partly(o, broker, filter, k);
    PartlyIs(o, broker, filter, k);
    NoneStaleNoCandidates(p, broker, filter);
    RestIsNothingIff(o, broker, filter, k);
    forall i | 0 <= i < |o| && IsStale(o[i], broker, filter) ensures LastOwner(o, KeyOf(o[i].ticket)) == i {
      DoneIsHit(o, broker, filter, k, i);
    }
  }

  lemma StaleIsDone(o: Orders, broker: set<string>, filter: Option<string>, k: nat, i: nat)
    requires Unique(o) && k == |Backfill(o, broker, filter).appended|
    requires i < |o| && IsStale(o[i], broker, filter) && LastOwner(o, KeyOf(o[i].ticket)) == i
    ensures Done(o, broker, filter, k, i)
  {
    StaleIsNamed(o, broker, filter, i);
    HitIsAppended(o, broker, filter, i);
    WholePrefix(Backfill(o, broker, filter).appended, k, o[i].intent);
  }

  /** It lists nothing exactly when, besides, every stale record owns its ticket. */
  lemma RestListsNothingIff(o: Orders, broker: set<string>, filter: Option<string>, k: nat)
    requires Unique(o) && k <= |Backfill(o, broker, filter).appended|
    ensures Candidates(Partly(o, broker, filter, k), broker, filter) == [] <==>
            StaleOwnTheirTickets(o, broker, filter) && k == |Backfill(o, broker, filter).appended|
  {
    var p := Partly(o, broker, filter, k);
    if Candidates(p, broker, filter) == [] {
      NothingListed(o, broker, filter, k);
    }
    if StaleOwnTheirTickets(o, broker, filter) && k == |Backfill(o, broker, filter).appended| {
      PartlyIs(o, broker, filter, k);
      NoneStaleNoCandidates(p, broker, filter);
      forall i | 0 <= i < |p| ensures !IsStale(p[i], broker, filter) {
        if IsStale(o[i], broker, filter) {
          StaleIsDone(o, broker, filter, k, i);
        }
      }
    }
  }

  // ----------------------------------------------------------- the second process

  lemma FirstLeaves(lines: seq<Line>, w: World, apply: bool, broker: set<string>, filter: Option<string>)
    requires w.broker.Verified? ==> w.broker.tickets == broker
    ensures var rs := Backfill(Replay(lines), broker, filter).appended;
            var added := Added(lines, w, apply, filter); var after := Process(lines, w, apply, filter).lines;
            && |added| <= |rs| && added == rs[..|added|]
            && Replay(after) == Partly(Replay(lines), broker, filter, |added|)
            && (Healthy(after) <==> Healthy(lines))
  {
    var added := Added(lines, w, apply, filter);
    ProcessAdds(lines, w, apply, filter);
    ReplayAppends(lines, added);
    EntriesHealthy(lines, added);
  }

  lemma AddsNothingIff(lines: seq<Line>, w: World, apply: bool, filter: Option<string>)
    requires w.present && w.broker.Verified? && w.reading == Whole
    ensures Process(lines, w, apply, filter).lines == lines <==>
            || !apply || !Healthy(lines) || !w.answers(w.from)
            || Backfill(Replay(lines), w.broker.tickets, filter).appended == []
  {
    DurableNone(Backfill(Replay(lines), w.broker.tickets, filter).appended, w.answers, w.from);
    ProcessAdds(lines, w, apply, filter);
    var added := Added(lines, w, apply, filter);
    assert |lines + Entries(added)| == |lines| + |added|;
    if added == [] {
      assert lines + Entries(added) == lines;
    }
  }

  /** A process over the file another one left, with the same broker book: it
      lists no candidate exactly when the first wrote every close it made and
      every stale record owned its ticket last; and it leaves the file alone
      exactly when the first wrote every close, or the file has a corrupt line,
      or it is a dry run, or its own first append is refused. */
  lemma SecondProcessFindsNoneIff(lines: seq<Line>, w1: World, apply1: bool, w2: World, apply2: bool,
                                  broker: set<string>, filter: Option<string>)
    requires w1.broker.Verified? ==> w1.broker.tickets == broker
    requires w2.present && w2.broker == Verified(broker) && w2.reading == Whole
    ensures var first := Process(lines, w1, apply1, filter);
            var second := Process(first.lines, w2, apply2, filter);
            var allWritten := |Added(lines, w1, apply1, filter)| ==
                              |Backfill(Replay(lines), broker, filter).appended|;
            && (second.candidates == [] <==> StaleOwnTheirTickets(Replay(lines), broker, filter) && allWritten)
            && (second.lines == first.lines <==>
                  allWritten || !Healthy(lines) || !apply2 || !w2.answers(w2.from))
  {
    var first := Process(lines, w1, apply1, filter);
    var k := |Added(lines, w1, apply1, filter)|;
    FirstLeaves(lines, w1, apply1, broker, filter);
    RestListsNothingIff(Replay(lines), broker, filter, k);
    RestIsNothingIff(Replay(lines), broker, filter, k);
    AddsNothingIff(first.lines, w2, apply2, filter);
  }

  const ONE_OPEN := Record("a", "filled", IntTicket(7), "")

  lemma OneOpenIsClosed()
    ensures var o := [ONE_OPEN]; |Backfill(o, {}, None).appended| > 0 && Replay([Entry(ONE_OPEN)]) == o
  {
    var o := [ONE_OPEN];
    var lines := [Entry(ONE_OPEN)];
    assert lines[..0] == [] && Replay(lines) == o;
    assert Lower("filled") == "filled";
    assert IsStale(o[0], {}, None);
    LastOwnerUnique(o, KeyOf(ONE_OPEN.ticket), 0);
    StaleIsNamed(o, {}, None, 0);
    HitIsAppended(o, {}, None, 0);
  }

  /** The file refuses the first process's append and takes the second's: the
      second lists the record again and closes it. */
  lemma RefusedThenTakenExample()
    ensures var lines := [Entry(ONE_OPEN)];
            var w1 := World(true, Verified({}), Whole, (j: nat) => false, 0);
            var w2 := World(true, Verified({}), Whole, (j: nat) => true, 0);
            var first := Process(lines, w1, true, None); var second := Process(first.lines, w2, true, None);
            first.lines == lines && second.candidates != [] && second.lines != first.lines
  {
    var lines := [Entry(ONE_OPEN)];
    var w1 := World(true, Verified({}), Whole, (j: nat) => false, 0);
    var w2 := World(true, Verified({}), Whole, (j: nat) => true, 0);
    OneOpenIsClosed();
    AddsNothingIff(lines, w1, true, None);
    DurableNone(Backfill(Replay(lines), {}, None).appended, w1.answers, 0);
    SecondProcessFindsNoneIff(lines, w1, true, w2, true, {}, None);
  }
}
