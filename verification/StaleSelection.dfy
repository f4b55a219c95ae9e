/** Selecting stale ledger records and closing them. */
module StaleSelection {
  import opened Common
  import opened OrderLedger

  datatype Candidate = Candidate(intent: string, ticket: Ticket, state: string)

  const BACKFILL_REASON := "stale_backfill"

  /** Open, ticketed, matching the filter, and absent from the broker. */
  predicate IsStale(r: Record, broker: set<string>, filter: Option<string>) {
    && IsOpen(r) && HasTicket(r)
    && (filter.Some? ==> KeyOf(r.ticket) == filter.value)
    && KeyOf(r.ticket) !in broker
  }

  function CandidateOf(r: Record): Candidate { Candidate(r.intent, r.ticket, Lower(r.state)) }

  function Selected(o: Orders, broker: set<string>, filter: Option<string>): (cs: seq<Candidate>)
    ensures forall i :: 0 <= i < |o| && IsStale(o[i], broker, filter) ==> CandidateOf(o[i]) in cs
    ensures forall c :: c in cs ==> exists i :: 0 <= i < |o| && IsStale(o[i], broker, filter) && c == CandidateOf(o[i])
  {
    if o == [] then []
    else
      var n := |o| - 1;
      var before := Selected(o[..n], broker, filter);
      assert forall i :: 0 <= i < n ==> o[..n][i] == o[i];
      if IsStale(o[n], broker, filter) then before + [CandidateOf(o[n])] else before
  }

  function Count(o: Orders, p: Record -> bool): nat {
    if o == [] then 0 else Count(o[..|o| - 1], p) + if p(o[|o| - 1]) then 1 else 0
  }

  predicate OpenWithoutTicket(r: Record) { IsOpen(r) && !HasTicket(r) }

  predicate AlreadyClosed(r: Record) { Lower(r.state) == "closed" }

  // ------------------------------------------------------------ ordering by key

  /** Code-point order on strings. */
  predicate StrLe(a: string, b: string) {
    a == "" || (b != "" && (a[0] < b[0] || (a[0] == b[0] && StrLe(a[1..], b[1..]))))
  }

  predicate TicketLe(a: Candidate, b: Candidate) { StrLe(KeyOf(a.ticket), KeyOf(b.ticket)) }

  /** The texts agree up to k, where a ends or has the smaller character. */
  predicate FirstDifference(a: string, b: string, k: nat) {
    k <= |a| && k <= |b| && a[..k] == b[..k] && (k == |a| || (k < |b| && a[k] < b[k]))
  }

  /** The order of a dictionary: decided by the first character that differs, and
      a prefix comes first. */
  lemma {:induction false} StrLeIff(a: string, b: string)
    ensures StrLe(a, b) <==> exists k: nat :: FirstDifference(a, b, k)
    decreases |a|
  {
    if a == "" {
      assert FirstDifference(a, b, 0);
    } else if b != "" && a[0] == b[0] {
      StrLeIff(a[1..], b[1..]);
      forall k: nat | k < |a| && k < |b|
        ensures FirstDifference(a[1..], b[1..], k) <==> FirstDifference(a, b, k + 1)
      {
        assert a[..k + 1] == [a[0]] + a[1..][..k] && b[..k + 1] == [b[0]] + b[1..][..k];
      }
      if k: nat :| FirstDifference(a[1..], b[1..], k) {
        assert FirstDifference(a, b, k + 1);
      }
      if k: nat :| FirstDifference(a, b, k) {
        assert k > 0;
        assert FirstDifference(a[1..], b[1..], k - 1);
      }
    } else if b != "" {
      assert StrLe(a, b) ==> FirstDifference(a, b, 0);
    }
  }

  lemma {:induction false} StrLeTotal(a: string, b: string)
    ensures StrLe(a, b) || StrLe(b, a)
    ensures StrLe(a, b) && StrLe(b, a) ==> a == b
    decreases |a|
  {
    if a != "" && b != "" && a[0] == b[0] {
      StrLeTotal(a[1..], b[1..]);
      assert a == [a[0]] + a[1..] && b == [b[0]] + b[1..];
    }
  }

  lemma {:induction false} StrLeTransitive(a: string, b: string, c: string)
    requires StrLe(a, b) && StrLe(b, c)
    ensures StrLe(a, c)
    decreases |a|
  {
    if a != "" && a[0] == b[0] && b[0] == c[0] {
      StrLeTransitive(a[1..], b[1..], c[1..]);
    }
  }

  ghost predicate SortedByTicket(cs: seq<Candidate>) {
    forall i, j :: 0 <= i < j < |cs| ==> TicketLe(cs[i], cs[j])
  }

  /** Insert after every element that is not greater. */
  function Insert(cs: seq<Candidate>, c: Candidate): (r: seq<Candidate>)
    ensures multiset(r) == multiset(cs) + multiset{c}
  {
    if cs == [] || TicketLe(cs[|cs| - 1], c) then cs + [c]
    else
      assert cs == cs[..|cs| - 1] + [cs[|cs| - 1]];
      Insert(cs[..|cs| - 1], c) + [cs[|cs| - 1]]
  }

  /** Python's stable `list.sort(key=str(ticket))`. */
  function Sorted(cs: seq<Candidate>): (r: seq<Candidate>)
    ensures multiset(r) == multiset(cs)
  {
    if cs == [] then []
    else
      assert cs == cs[..|cs| - 1] + [cs[|cs| - 1]];
      Insert(Sorted(cs[..|cs| - 1]), cs[|cs| - 1])
  }

  lemma {:induction false} InsertSorts(cs: seq<Candidate>, c: Candidate)
    requires SortedByTicket(cs)
    ensures SortedByTicket(Insert(cs, c))
    decreases |cs|
  {
    if cs == [] {
    } else if TicketLe(cs[|cs| - 1], c) {
      forall i | 0 <= i < |cs| ensures TicketLe(cs[i], c) {
        StrLeTotal(KeyOf(cs[i].ticket), KeyOf(cs[i].ticket));
        StrLeTransitive(KeyOf(cs[i].ticket), KeyOf(cs[|cs| - 1].ticket), KeyOf(c.ticket));
      }
    } else {
      var init, last := cs[..|cs| - 1], cs[|cs| - 1];
      InsertSorts(init, c);
      var r := Insert(init, c);
      forall i | 0 <= i < |r| ensures TicketLe(r[i], last) {
        assert r[i] in multiset(r);
        assert r[i] == c || r[i] in init;
        StrLeTotal(KeyOf(c.ticket), KeyOf(last.ticket));
      }
    }
  }

  function IfKey(c: Candidate, key: string): seq<Candidate> {
    if KeyOf(c.ticket) == key then [c] else []
  }

  function WithKey(cs: seq<Candidate>, key: string): seq<Candidate> {
    if cs == [] then [] else WithKey(cs[..|cs| - 1], key) + IfKey(cs[|cs| - 1], key)
  }

  lemma WithKeyNext(cs: seq<Candidate>, c: Candidate, key: string)
    ensures WithKey(cs + [c], key) == WithKey(cs, key) + IfKey(c, key)
  {
    assert (cs + [c])[..|cs|] == cs;
  }

  lemma DifferentKeysSwap(w: seq<Candidate>, a: Candidate, b: Candidate, key: string)
    requires !TicketLe(a, b)
    ensures (w + IfKey(b, key)) + IfKey(a, key) == (w + IfKey(a, key)) + IfKey(b, key)
  {
    StrLeTotal(KeyOf(a.ticket), KeyOf(b.ticket));
    assert IfKey(a, key) == [] || IfKey(b, key) == [];
  }

  lemma {:induction false} InsertStable(cs: seq<Candidate>, c: Candidate, key: string)
    ensures WithKey(Insert(cs, c), key) == WithKey(cs, key) + IfKey(c, key)
    decreases |cs|
  {
    if cs == [] || TicketLe(cs[|cs| - 1], c) {
      WithKeyNext(cs, c, key);
    } else {
      var init, last := cs[..|cs| - 1], cs[|cs| - 1];
      InsertStable(init, c, key);
      WithKeyNext(Insert(init, c), last, key);
      DifferentKeysSwap(WithKey(init, key), last, c, key);
    }
  }

  /** The candidates come out ordered by ticket, and in log order per ticket. */
  lemma {:induction false} SortedIsStable(cs: seq<Candidate>, key: string)
    ensures SortedByTicket(Sorted(cs)) && WithKey(Sorted(cs), key) == WithKey(cs, key)
    decreases |cs|
  {
    if cs != [] {
      var init := cs[..|cs| - 1];
      SortedIsStable(init, key);
      InsertSorts(Sorted(init), cs[|cs| - 1]);
      InsertStable(Sorted(init), cs[|cs| - 1], key);
    }
  }

  function Candidates(o: Orders, broker: set<string>, filter: Option<string>): (cs: seq<Candidate>) {
    Sorted(Selected(o, broker, filter))
  }

  /** The candidates are exactly the stale records. */
  lemma CandidatesAreTheStale(o: Orders, broker: set<string>, filter: Option<string>)
    ensures var cs := Candidates(o, broker, filter);
            && SortedByTicket(cs)
            && (forall c :: c in cs <==>
                  exists i :: 0 <= i < |o| && IsStale(o[i], broker, filter) && c == CandidateOf(o[i]))
            && (forall i :: 0 <= i < |o| ==>
                  CandidateOf(o[i]) == Candidate(o[i].intent, o[i].ticket, Lower(o[i].state)))
  {
    var sel := Selected(o, broker, filter);
    SortedIsStable(sel, "");
    forall c ensures c in Sorted(sel) <==> c in sel {
      assert c in Sorted(sel) <==> c in multiset(Sorted(sel));
    }
  }

  /** A candidate determines whether its record is stale. */
  lemma ListedIffStale(o: Orders, broker: set<string>, filter: Option<string>, i: nat)
    requires i < |o|
    ensures CandidateOf(o[i]) in Candidates(o, broker, filter) <==> IsStale(o[i], broker, filter)
  {
    CandidatesAreTheStale(o, broker, filter);
  }

  /** A position the broker holds keeps its own ticket off the list and no other,
      and a ticket filter keeps only its own. */
  lemma OtherTicketsStayListed(o: Orders, broker: set<string>, m: int, i: nat)
    requires i < |o| && o[i].ticket.IntTicket?
    ensures CandidateOf(o[i]) in Candidates(o, broker + {KeyOf(IntTicket(m))}, None) <==>
            CandidateOf(o[i]) in Candidates(o, broker, None) && o[i].ticket.n != m
    ensures CandidateOf(o[i]) in Candidates(o, broker, Some(KeyOf(IntTicket(m)))) <==>
            CandidateOf(o[i]) in Candidates(o, broker, None) && o[i].ticket.n == m
  {
    IntegerKeysDiffer(o[i].ticket.n, m);
    ListedIffStale(o, broker + {KeyOf(IntTicket(m))}, None, i);
    ListedIffStale(o, broker, Some(KeyOf(IntTicket(m))), i);
    ListedIffStale(o, broker, None, i);
  }

  // ------------------------------------------------------------------- applying

  datatype Applied = Applied(orders: Orders, appended: seq<Record>)

  /** `mark_closed` for each candidate in turn. */
  function ApplyAll(o: Orders, cs: seq<Candidate>): Applied {
    if cs == [] then Applied(o, []) else ApplyOne(ApplyAll(o, cs[..|cs| - 1]), cs[|cs| - 1])
  }

  function ApplyOne(a: Applied, c: Candidate): Applied {
    match Closing(a.orders, c.ticket, BACKFILL_REASON)
    case Some(r) => Applied(Put(a.orders, r), a.appended + [r])
    case None => a
  }

  lemma ApplyAllNext(o: Orders, cs: seq<Candidate>, k: nat)
    requires k < |cs|
    ensures ApplyAll(o, cs[..k + 1]) == ApplyOne(ApplyAll(o, cs[..k]), cs[k])
  {
    assert cs[..k + 1][..k] == cs[..k];
  }

  ghost predicate Names(cs: seq<Candidate>, key: string) {
    exists c :: c in cs && KeyOf(c.ticket) == key
  }

  /** Record i is open, a candidate names its ticket, and it is the last record
      that owns this ticket. */
  ghost predicate Hit(o: Orders, cs: seq<Candidate>, i: nat) {
    i < |o| && IsOpen(o[i]) && LastOwner(o, KeyOf(o[i].ticket)) == i && Names(cs, KeyOf(o[i].ticket))
  }

  /** Exactly the hit records change, each to one closed record. */
  ghost predicate ClosesHits(o: Orders, cs: seq<Candidate>, a: Applied) {
    && |a.orders| == |o| && Unique(a.orders)
    && (forall i :: 0 <= i < |o| ==>
          if Hit(o, cs, i) then ClosedFrom(o[i], a.orders[i], BACKFILL_REASON) && a.orders[i] in a.appended
          else a.orders[i] == o[i])
    && (forall k :: 0 <= k < |a.appended| ==>
          Written(o, cs, a.orders, a.appended[k]))
    && Unique(a.appended)
  }

  ghost predicate Written(o: Orders, cs: seq<Candidate>, orders: Orders, r: Record) {
    exists i: nat :: WrittenFor(o, cs, orders, r, i)
  }

  ghost predicate WrittenFor(o: Orders, cs: seq<Candidate>, orders: Orders, r: Record, i: nat) {
    Hit(o, cs, i) && i < |orders| && r == orders[i]
  }

  lemma SameKeysSameOwner(o: Orders, p: Orders, key: string)
    requires |o| == |p| && forall i :: 0 <= i < |o| ==> KeyOf(o[i].ticket) == KeyOf(p[i].ticket)
    ensures LastOwner(o, key) == LastOwner(p, key)
  {
    if LastOwner(o, key) < |o| {
      LastOwnerUnique(p, key, LastOwner(o, key));
    }
  }

  /** Replaying the appended records reproduces what happened in memory. */
  lemma {:induction false} ApplyLog(o: Orders, cs: seq<Candidate>)
    ensures PutAll(o, ApplyAll(o, cs).appended) == ApplyAll(o, cs).orders
    decreases |cs|
  {
    if cs != [] {
      var a := ApplyAll(o, cs[..|cs| - 1]);
      ApplyLog(o, cs[..|cs| - 1]);
      var r := Closing(a.orders, cs[|cs| - 1].ticket, BACKFILL_REASON);
      if r.Some? {
        assert (a.appended + [r.value])[..|a.appended|] == a.appended;
      }
    }
  }

  lemma {:induction false} ApplyEffect(o: Orders, cs: seq<Candidate>)
    requires Unique(o) && Ticketed(cs)
    ensures ClosesHits(o, cs, ApplyAll(o, cs))
    decreases |cs|
  {
    if cs == [] {
      NothingHit(o);
    } else {
      var n := |cs| - 1;
      TicketedPrefix(cs, n);
      ApplyEffect(o, cs[..n]);
      ApplyStep(o, cs[..n], cs[n], cs, ApplyAll(o, cs[..n]));
    }
  }

  predicate Ticketed(cs: seq<Candidate>) {
    forall k :: 0 <= k < |cs| ==> !cs[k].ticket.Missing? && !cs[k].ticket.Null?
  }

  lemma TicketedPrefix(cs: seq<Candidate>, n: nat)
    requires Ticketed(cs) && n < |cs|
    ensures Ticketed(cs[..n]) && !cs[n].ticket.Missing? && !cs[n].ticket.Null?
  {
  }

  lemma NothingHit(o: Orders)
    requires Unique(o)
    ensures ClosesHits(o, [], Applied(o, []))
  {
    assert forall i: nat :: !Hit(o, [], i);
  }

  lemma NamesGrows(init: seq<Candidate>, c: Candidate, key: string)
    ensures Names(init + [c], key) <==> Names(init, key) || KeyOf(c.ticket) == key
  {
    var cs := init + [c];
    assert c in cs && forall x :: x in init ==> x in cs;
  }

  /** One more candidate adds at most the last owner of its ticket to the hits. */
  lemma HitsGrow(o: Orders, init: seq<Candidate>, c: Candidate, i: nat)
    ensures Hit(o, init + [c], i) <==>
            Hit(o, init, i) || (i < |o| && i == LastOwner(o, KeyOf(c.ticket)) && IsOpen(o[i]))
  {
    if i < |o| {
      NamesGrows(init, c, KeyOf(o[i].ticket));
    }
  }

  lemma ClosedIsNotOpen(r: Record)
    requires r.state == "closed"
    ensures !IsOpen(r)
  {
    assert Lower("closed") == "closed";
    assert "closed" !in POSITION_STATES;
  }

  lemma ApplyStep(o: Orders, init: seq<Candidate>, c: Candidate, cs: seq<Candidate>, a: Applied)
    requires cs == init + [c]
    requires Unique(o) && ClosesHits(o, init, a) && !c.ticket.Missing? && !c.ticket.Null?
    ensures ClosesHits(o, cs, ApplyOne(a, c))
  {
    var k := LastOwner(o, KeyOf(c.ticket));
    ClosingEffect(a.orders, c.ticket, BACKFILL_REASON);
    SameKeysSameOwner(o, a.orders, KeyOf(c.ticket));
    forall i: nat { HitsGrow(o, init, c, i); }
    var r := Closing(a.orders, c.ticket, BACKFILL_REASON);
    if Hit(o, init, k) {
      ClosedIsNotOpen(a.orders[k]);
    }
    if r.Some? {
      assert !Hit(o, init, k) && Hit(o, init + [c], k);
      ApplyClose(o, init, c, a, Put(a.orders, r.value), k);
    } else {
      if k < |o| && IsOpen(o[k]) {
        assert Hit(o, init, k);
      }
      ApplySkip(o, init, c, a);
    }
  }

  lemma ApplySkip(o: Orders, init: seq<Candidate>, c: Candidate, a: Applied)
    requires ClosesHits(o, init, a)
    requires forall i: nat :: Hit(o, init + [c], i) <==> Hit(o, init, i)
    ensures ClosesHits(o, init + [c], a)
  {
    forall j | 0 <= j < |a.appended|
      ensures Written(o, init + [c], a.orders, a.appended[j])
    {
      var i: nat :| WrittenFor(o, init, a.orders, a.appended[j], i);
      assert WrittenFor(o, init + [c], a.orders, a.appended[j], i);
    }
  }

  lemma ApplyClose(o: Orders, init: seq<Candidate>, c: Candidate, a: Applied, p: Orders, k: nat)
    requires ClosesHits(o, init, a) && k < |o| && Unique(p) && |p| == |o|
    requires forall i :: 0 <= i < |o| && i != k ==> p[i] == a.orders[i]
    requires ClosedFrom(o[k], p[k], BACKFILL_REASON)
    requires !Hit(o, init, k)
    requires forall i: nat :: Hit(o, init + [c], i) <==> Hit(o, init, i) || i == k
    ensures ClosesHits(o, init + [c], Applied(p, a.appended + [p[k]]))
  {
    var b := Applied(p, a.appended + [p[k]]);
    forall j | 0 <= j < |b.appended|
      ensures Written(o, init + [c], p, b.appended[j])
    {
      if j < |a.appended| {
        var i: nat :| WrittenFor(o, init, a.orders, a.appended[j], i);
        assert WrittenFor(o, init + [c], p, b.appended[j], i);
      } else {
        assert WrittenFor(o, init + [c], p, b.appended[j], k);
      }
    }
    forall j | 0 <= j < |a.appended| ensures a.appended[j].intent != p[k].intent {
      assert Written(o, init, a.orders, a.appended[j]);
      var i: nat :| WrittenFor(o, init, a.orders, a.appended[j], i);
      assert i != k && p[i] == a.orders[i];
    }
  }

  // ------------------------------------------------------------------ run after run

  lemma CandidatesTicketed(o: Orders, broker: set<string>, filter: Option<string>)
    ensures Ticketed(Candidates(o, broker, filter))
    ensures forall c :: c in Candidates(o, broker, filter) ==> KeyOf(c.ticket) !in broker
  {
    CandidatesAreTheStale(o, broker, filter);
    var cs := Candidates(o, broker, filter);
    forall k | 0 <= k < |cs| ensures !cs[k].ticket.Missing? && !cs[k].ticket.Null? {
      assert cs[k] in cs;
    }
  }

  /** What one applied backfill does to memory. */
  function Backfill(o: Orders, broker: set<string>, filter: Option<string>): Applied {
    ApplyAll(o, Candidates(o, broker, filter))
  }

  lemma BackfillCloses(o: Orders, broker: set<string>, filter: Option<string>)
    requires Unique(o)
    ensures ClosesHits(o, Candidates(o, broker, filter), Backfill(o, broker, filter))
    ensures PutAll(o, Backfill(o, broker, filter).appended) == Backfill(o, broker, filter).orders
  {
    CandidatesTicketed(o, broker, filter);
    ApplyEffect(o, Candidates(o, broker, filter));
    ApplyLog(o, Candidates(o, broker, filter));
  }

  lemma StaleIsNamed(o: Orders, broker: set<string>, filter: Option<string>, i: nat)
    requires i < |o| && IsStale(o[i], broker, filter)
    ensures Names(Candidates(o, broker, filter), KeyOf(o[i].ticket))
  {
    CandidatesAreTheStale(o, broker, filter);
    assert CandidateOf(o[i]) in Candidates(o, broker, filter);
  }

  /** No record whose ticket the broker holds is changed, and none is appended. */
  lemma BrokerTicketsUntouched(o: Orders, broker: set<string>, filter: Option<string>)
    requires Unique(o)
    ensures var a := Backfill(o, broker, filter);
            && |a.orders| == |o|
            && (forall i :: 0 <= i < |o| && KeyOf(o[i].ticket) in broker ==> a.orders[i] == o[i])
            && (forall r :: r in a.appended ==> KeyOf(r.ticket) !in broker && r.state == "closed")
  {
    BackfillCloses(o, broker, filter);
    CandidatesTicketed(o, broker, filter);
  }

  /** After an applied run the stale records are the old stale ones that were
      not the last owner of their ticket: `mark_closed` reaches only that one. */
  lemma StaleAfterBackfill(o: Orders, broker: set<string>, filter: Option<string>, i: nat)
    requires Unique(o) && i < |o|
    ensures |Backfill(o, broker, filter).orders| == |o|
    ensures IsStale(Backfill(o, broker, filter).orders[i], broker, filter) <==>
            IsStale(o[i], broker, filter) && LastOwner(o, KeyOf(o[i].ticket)) != i
  {
    BackfillCloses(o, broker, filter);
    var now := Backfill(o, broker, filter).orders[i];
    if Hit(o, Candidates(o, broker, filter), i) {
      ClosedIsNotOpen(now);
    }
    if IsStale(o[i], broker, filter) {
      StaleIsNamed(o, broker, filter, i);
    }
  }

  /** Every stale record is the last owner of its ticket. */
  predicate StaleOwnTheirTickets(o: Orders, broker: set<string>, filter: Option<string>) {
    forall i :: 0 <= i < |o| && IsStale(o[i], broker, filter) ==> LastOwner(o, KeyOf(o[i].ticket)) == i
  }

  lemma NoneStaleNoCandidates(o: Orders, broker: set<string>, filter: Option<string>)
    ensures Candidates(o, broker, filter) == [] <==> forall i :: 0 <= i < |o| ==> !IsStale(o[i], broker, filter)
  {
    CandidatesAreTheStale(o, broker, filter);
    var cs := Candidates(o, broker, filter);
    if cs != [] {
      assert cs[0] in cs;
    }
    forall i | 0 <= i < |o| && IsStale(o[i], broker, filter) ensures cs != [] {
      assert CandidateOf(o[i]) in cs;
    }
  }

  /** "A re-run reports zero candidates" holds exactly when no stale record
      shares its ticket with a later record. */
  lemma SecondRunFindsNoneIff(o: Orders, broker: set<string>, filter: Option<string>)
    requires Unique(o)
    ensures Candidates(Backfill(o, broker, filter).orders, broker, filter) == [] <==>
            StaleOwnTheirTickets(o, broker, filter)
  {
    var p := Backfill(o, broker, filter).orders;
    BackfillCloses(o, broker, filter);
    forall i: nat | i < |o| { StaleAfterBackfill(o, broker, filter, i); }
    NoneStaleNoCandidates(p, broker, filter);
  }

  /** A ticket the second run still lists was listed by the first. */
  lemma NamedAgain(o: Orders, broker: set<string>, filter: Option<string>, key: string)
    requires Unique(o)
    requires Names(Candidates(Backfill(o, broker, filter).orders, broker, filter), key)
    ensures Names(Candidates(o, broker, filter), key)
  {
    var p := Backfill(o, broker, filter).orders;
    CandidatesAreTheStale(p, broker, filter);
    var c :| c in Candidates(p, broker, filter) && KeyOf(c.ticket) == key;
    var j :| 0 <= j < |p| && IsStale(p[j], broker, filter) && c == CandidateOf(p[j]);
    BackfillCloses(o, broker, filter);
    StaleAfterBackfill(o, broker, filter, j);
    StaleIsNamed(o, broker, filter, j);
  }

  /** What the first run closed or could not reach, the second cannot close. */
  lemma NoHitLeft(o: Orders, broker: set<string>, filter: Option<string>, i: nat)
    requires Unique(o)
    ensures var p := Backfill(o, broker, filter).orders;
            !Hit(p, Candidates(p, broker, filter), i)
  {
    var cs := Candidates(o, broker, filter);
    var a := Backfill(o, broker, filter);
    var p := a.orders;
    BackfillCloses(o, broker, filter);
    if i < |p| && IsOpen(p[i]) {
      if Hit(o, cs, i) {
        ClosedIsNotOpen(p[i]);
      }
      var key := KeyOf(p[i].ticket);
      SameKeysSameOwner(o, p, key);
      if Names(Candidates(p, broker, filter), key) {
        NamedAgain(o, broker, filter, key);
      }
    }
  }

  lemma WrittenIsHit(o: Orders, cs: seq<Candidate>, orders: Orders, r: Record)
    requires Written(o, cs, orders, r)
    ensures exists i: nat :: Hit(o, cs, i)
  {
  }

  lemma NoHitNoChange(o: Orders, cs: seq<Candidate>, a: Applied)
    requires ClosesHits(o, cs, a) && forall i: nat :: !Hit(o, cs, i)
    ensures a == Applied(o, [])
  {
    assert a.orders == o;
    if |a.appended| > 0 {
      WrittenIsHit(o, cs, a.orders, a.appended[0]);
    }
  }

  /** A second applied run never appends anything, candidates or not. */
  lemma SecondRunWritesNothing(o: Orders, broker: set<string>, filter: Option<string>)
    requires Unique(o)
    ensures var p := Backfill(o, broker, filter).orders;
            Backfill(p, broker, filter) == Applied(p, [])
  {
    var p := Backfill(o, broker, filter).orders;
    BackfillCloses(o, broker, filter);
    BackfillCloses(p, broker, filter);
    forall i: nat { NoHitLeft(o, broker, filter, i); }
    NoHitNoChange(p, Candidates(p, broker, filter), Backfill(p, broker, filter));
  }

  /** Two open intents on ticket 7: the run closes one, and the other stays a
      candidate for ever. */
  lemma SharedTicketExample()
    ensures var o := [Record("a", "filled", IntTicket(7), ""), Record("b", "filled", IntTicket(7), "")];
            && Unique(o)
            && Candidates(Backfill(o, {}, None).orders, {}, None) != []
  {
    var o := [Record("a", "filled", IntTicket(7), ""), Record("b", "filled", IntTicket(7), "")];
    assert Lower("filled") == "filled";
    assert IsStale(o[0], {}, None);
    LastOwnerUnique(o, KeyOf(IntTicket(7)), 1);
    assert !StaleOwnTheirTickets(o, {}, None);
    SecondRunFindsNoneIff(o, {}, None);
  }
}
