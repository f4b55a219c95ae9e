/** Finding an order after a restart: the raw file scan made before it against
    the freshly loaded store used after it. */
module Recovery {
  import opened Common
  import opened OrderLedger

  predicate HoldsTicket(l: Line, ticket: int) { l.Entry? && l.record.ticket == IntTicket(ticket) }

  /** What `json.dumps` leaves as it is does not split a line: control characters
      are escaped, the separators beyond ASCII are not. */
  predicate Unbroken(s: string) { forall i :: 0 <= i < |s| && IsBreak(s[i]) ==> s[i] < ' ' }

  /** A text stays on one line exactly when each of its characters does; the ones
      that do not are three. */
  lemma UnbrokenLaws(s: string, t: string, c: char)
    ensures Unbroken(s + t) <==> Unbroken(s) && Unbroken(t)
    ensures Unbroken("") && (Unbroken([c]) <==> c !in "\U{85}\U{2028}\U{2029}")
  {
    var all := s + t;
    if Unbroken(all) {
      assert forall i :: 0 <= i < |s| ==> all[i] == s[i];
      assert forall i :: 0 <= i < |t| ==> all[|s| + i] == t[i];
    }
    assert [c][0] == c;
  }

  /** The raw scan reads the record: its line is not cut inside a string, which
      would leave pieces that are no records. */
  predicate OnOneLine(r: Record) {
    Unbroken(r.intent) && Unbroken(r.state) && Unbroken(r.reason) && (r.ticket.TextTicket? ==> Unbroken(r.ticket.s))
  }

  predicate Scanned(l: Line, ticket: int) { HoldsTicket(l, ticket) && OnOneLine(l.record) }

  /** `_ledger_record_for_ticket`: the last matching line of the file.  Unlike the
      store, it splits the text at every separator `splitlines` knows. */
  function FileScan(lines: seq<Line>, ticket: int): (r: Option<Record>)
    ensures r.Some? <==> exists k :: 0 <= k < |lines| && Scanned(lines[k], ticket)
    ensures r.Some? ==> exists k :: 0 <= k < |lines| && Scanned(lines[k], ticket) && r.value == lines[k].record &&
                                    forall j :: k < j < |lines| ==> !Scanned(lines[j], ticket)
  {
    if lines == [] then None
    else
      var n := |lines| - 1;
      if Scanned(lines[n], ticket) then Some(lines[n].record)
      else
        assert forall k :: 0 <= k < n ==> lines[..n][k] == lines[k];
        FileScan(lines[..n], ticket)
  }

  /** `_store_state_for_ticket`: the first matching record of the dictionary. */
  function StoreFind(o: Orders, ticket: int): (r: Option<Record>)
    ensures r.Some? <==> exists i :: 0 <= i < |o| && o[i].ticket == IntTicket(ticket)
    ensures r.Some? ==> r.value in o && r.value.ticket == IntTicket(ticket)
  {
    if o == [] then None
    else if o[0].ticket == IntTicket(ticket) then Some(o[0])
    else
      assert forall i :: 1 <= i < |o| ==> o[1..][i - 1] == o[i];
      StoreFind(o[1..], ticket)
  }

  // -------------------------------------------------- replay keeps last records

  function Lookup(o: Orders, intent: string): Option<Record> {
    var k := IndexOf(o, intent);
    if k < |o| then Some(o[k]) else None
  }

  lemma IndexIsFirst(o: Orders, intent: string, k: nat)
    requires k <= |o| && (k < |o| ==> o[k].intent == intent)
    requires forall i :: 0 <= i < k ==> o[i].intent != intent
    ensures IndexOf(o, intent) == k
  {
  }

  lemma PutLookup(o: Orders, r: Record, intent: string)
    ensures Lookup(Put(o, r), intent) == if intent == r.intent then Some(r) else Lookup(o, intent)
  {
    var k := IndexOf(o, r.intent);
    var p := Put(o, r);
    if intent == r.intent {
      IndexIsFirst(p, intent, k);
    } else {
      var j := IndexOf(o, intent);
      if j < |o| {
        IndexIsFirst(p, intent, j);
      } else {
        IndexIsFirst(p, intent, |p|);
      }
    }
  }

  predicate Latest(lines: seq<Line>, k: nat, intent: string) {
    && k < |lines| && lines[k].Entry? && lines[k].record.intent == intent
    && forall j :: k < j < |lines| && lines[j].Entry? ==> lines[j].record.intent != intent
  }

  /** The store holds, for each intent, exactly its last record in the file. */
  lemma {:induction false} ReplayIsLatest(lines: seq<Line>, intent: string, r: Record)
    ensures Lookup(Replay(lines), intent) == Some(r) <==>
            exists k: nat :: Latest(lines, k, intent) && lines[k].record == r
    decreases |lines|
  {
    if lines != [] {
      var n := |lines| - 1;
      var init, last := lines[..n], lines[n];
      ReplayIsLatest(init, intent, r);
      if last.Entry? {
        PutLookup(Replay(init), last.record, intent);
      }
      if last.Entry? && last.record.intent == intent {
        assert Latest(lines, n, intent);
        assert forall k: nat :: Latest(lines, k, intent) ==> k == n;
      } else {
        forall k: nat ensures Latest(lines, k, intent) <==> Latest(init, k, intent) {
          if Latest(init, k, intent) {
            assert forall j :: k < j < n ==> lines[j] == init[j];
          }
          if Latest(lines, k, intent) {
            assert forall j :: 0 <= j < n ==> lines[j] == init[j];
          }
        }
      }
    }
  }

  lemma LookupMember(o: Orders, r: Record)
    requires Unique(o)
    ensures r in o <==> Lookup(o, r.intent) == Some(r)
  {
    if r in o {
      var i :| 0 <= i < |o| && o[i] == r;
      IndexIsFirst(o, r.intent, i);
    }
  }

  /** The loaded store knows a ticket exactly when some intent's last record
      carries it. */
  lemma RehydratesIff(lines: seq<Line>, ticket: int)
    ensures StoreFind(Replay(lines), ticket).Some? <==>
            exists k: nat :: k < |lines| && HoldsTicket(lines[k], ticket) && Latest(lines, k, lines[k].record.intent)
  {
    var o := Replay(lines);
    if StoreFind(o, ticket).Some? {
      var r := StoreFind(o, ticket).value;
      LookupMember(o, r);
      ReplayIsLatest(lines, r.intent, r);
    }
    if k: nat :| k < |lines| && HoldsTicket(lines[k], ticket) && Latest(lines, k, lines[k].record.intent) {
      var r := lines[k].record;
      ReplayIsLatest(lines, r.intent, r);
      LookupMember(o, r);
    }
  }

  /** Success before the restart is not followed by success after it exactly when
      every intent that carried the ticket ends without it. */
  lemma ScanWithoutStoreIff(lines: seq<Line>, ticket: int)
    ensures FileScan(lines, ticket).Some? && StoreFind(Replay(lines), ticket) == None <==>
            && (exists k: nat :: k < |lines| && Scanned(lines[k], ticket))
            && (forall k: nat :: k < |lines| && lines[k].Entry? && Latest(lines, k, lines[k].record.intent) ==>
                  !HoldsTicket(lines[k], ticket))
  {
    RehydratesIff(lines, ticket);
  }

  /** Success after it was not preceded by success before it exactly when some
      intent ends on the ticket and the scan cuts every line that carries it. */
  lemma StoreWithoutScanIff(lines: seq<Line>, ticket: int)
    ensures StoreFind(Replay(lines), ticket).Some? && FileScan(lines, ticket) == None <==>
            && (exists k: nat :: k < |lines| && HoldsTicket(lines[k], ticket) &&
                                 Latest(lines, k, lines[k].record.intent))
            && (forall k :: 0 <= k < |lines| && HoldsTicket(lines[k], ticket) ==> !OnOneLine(lines[k].record))
  {
    RehydratesIff(lines, ticket);
  }

  lemma ReplayOfOne(r: Record)
    ensures Replay([Entry(r)]) == [r]
  {
    assert [Entry(r)][..0] == [];
  }

  /** A line separator in a reason hides the record from the raw scan. */
  lemma HiddenFromScanExample()
    ensures var lines := [Entry(Record("a", "filled", IntTicket(7), "x\U{2028}y"))];
            StoreFind(Replay(lines), 7).Some? && FileScan(lines, 7) == None
  {
    var r := Record("a", "filled", IntTicket(7), "x\U{2028}y");
    ReplayOfOne(r);
    assert IsBreak(r.reason[1]);
    assert [r][0].ticket == IntTicket(7);
  }

  // ----------------------------------------------- intents that keep their ticket

  /** No later record of an intent drops or changes its ticket. */
  predicate KeepsTickets(lines: seq<Line>) {
    forall i, j :: 0 <= i < j < |lines| && lines[i].Entry? && lines[j].Entry? &&
                   lines[i].record.intent == lines[j].record.intent && HasTicket(lines[i].record) ==>
      lines[j].record.ticket == lines[i].record.ticket
  }

  lemma {:induction false} LatestExists(lines: seq<Line>, i: nat) returns (k: nat)
    requires i < |lines| && lines[i].Entry?
    ensures i <= k && Latest(lines, k, lines[i].record.intent)
  {
    k := i;
    var j := i + 1;
    while j < |lines|
      invariant i <= k < j <= |lines| && lines[k].Entry? && lines[k].record.intent == lines[i].record.intent
      invariant forall m :: k < m < j && lines[m].Entry? ==> lines[m].record.intent != lines[i].record.intent
    {
      if lines[j].Entry? && lines[j].record.intent == lines[i].record.intent {
        k := j;
      }
      j := j + 1;
    }
  }

  lemma KeptIsFound(lines: seq<Line>, ticket: int, i: nat)
    requires KeepsTickets(lines) && i < |lines| && HoldsTicket(lines[i], ticket)
    ensures StoreFind(Replay(lines), ticket).Some?
  {
    RehydratesIff(lines, ticket);
    var k := LatestExists(lines, i);
    assert HoldsTicket(lines[k], ticket);
  }

  /** Then the file scan and the loaded store find the same tickets, as long as
      the scan can read some line of each. */
  lemma ScanAgreesWithStore(lines: seq<Line>, ticket: int)
    requires KeepsTickets(lines)
    ensures FileScan(lines, ticket).Some? ==> StoreFind(Replay(lines), ticket).Some?
    ensures (FileScan(lines, ticket).Some? <==> StoreFind(Replay(lines), ticket).Some?) <==>
            ((exists k :: 0 <= k < |lines| && HoldsTicket(lines[k], ticket)) ==>
               exists k :: 0 <= k < |lines| && Scanned(lines[k], ticket))
  {
    if k :| 0 <= k < |lines| && HoldsTicket(lines[k], ticket) {
      KeptIsFound(lines, ticket, k);
    } else {
      RehydratesIff(lines, ticket);
    }
  }

  // ------------------------------------------------ which owner each lookup takes

  /** The line on which the intent first appears; |lines| if none. */
  function FirstLine(lines: seq<Line>, intent: string): (k: nat)
    ensures k <= |lines|
    ensures k < |lines| ==> lines[k].Entry? && lines[k].record.intent == intent
    ensures forall i :: 0 <= i < k && lines[i].Entry? ==> lines[i].record.intent != intent
  {
    if lines == [] then 0
    else
      var n := |lines| - 1;
      var k := FirstLine(lines[..n], intent);
      if k < n || (lines[n].Entry? && lines[n].record.intent == intent) then k else |lines|
  }

  predicate SeenBefore(lines: seq<Line>, a: string, b: string) { FirstLine(lines, a) < FirstLine(lines, b) }

  predicate Knows(o: Orders, intent: string) { IndexOf(o, intent) < |o| }

  lemma PutKnows(o: Orders, r: Record, intent: string)
    ensures Knows(Put(o, r), intent) <==> Knows(o, intent) || intent == r.intent
  {
    PutLookup(o, r, intent);
  }

  lemma {:induction false} StoreKnows(lines: seq<Line>, intent: string)
    ensures Knows(Replay(lines), intent) <==> FirstLine(lines, intent) < |lines|
    decreases |lines|
  {
    if lines != [] {
      var n := |lines| - 1;
      StoreKnows(lines[..n], intent);
      if lines[n].Entry? {
        PutKnows(Replay(lines[..n]), lines[n].record, intent);
      }
    }
  }

  /** The dictionary lists intents in the order of their first lines. */
  lemma {:induction false} ReplayOrder(lines: seq<Line>, i: nat, j: nat)
    requires i < j < |Replay(lines)|
    ensures SeenBefore(lines, Replay(lines)[i].intent, Replay(lines)[j].intent)
    decreases |lines|
  {
    var n := |lines| - 1;
    var init, o := lines[..n], Replay(lines[..n]);
    StoreHasFirstLine(lines, i);
    if lines[n].Entry? && j == |o| {
      StoreHasFirstLine(init, i);
      StoreKnows(init, lines[n].record.intent);
    } else {
      StoreHasFirstLine(init, i);
      StoreHasFirstLine(init, j);
      ReplayOrder(init, i, j);
    }
  }

  lemma StoreHasFirstLine(lines: seq<Line>, i: nat)
    requires i < |Replay(lines)|
    ensures FirstLine(lines, Replay(lines)[i].intent) < |lines|
  {
    IndexOfUnique(Replay(lines), i);
    StoreKnows(lines, Replay(lines)[i].intent);
  }

  /** A line that is its intent's last record. */
  predicate Current(lines: seq<Line>, k: nat) {
    k < |lines| && lines[k].Entry? && Latest(lines, k, lines[k].record.intent)
  }

  lemma CurrentIsStored(lines: seq<Line>, k: nat) returns (i: nat)
    requires Current(lines, k)
    ensures i < |Replay(lines)| && Replay(lines)[i] == lines[k].record
  {
    ReplayIsLatest(lines, lines[k].record.intent, lines[k].record);
    i := IndexOf(Replay(lines), lines[k].record.intent);
  }

  lemma StoredIsCurrent(lines: seq<Line>, i: nat) returns (k: nat)
    requires i < |Replay(lines)|
    ensures Current(lines, k) && lines[k].record == Replay(lines)[i]
  {
    var r := Replay(lines)[i];
    LookupMember(Replay(lines), r);
    ReplayIsLatest(lines, r.intent, r);
    k :| Latest(lines, k, r.intent) && lines[k].record == r;
  }

  lemma OneCurrentLine(lines: seq<Line>, j: nat, k: nat)
    requires Current(lines, j) && Current(lines, k) && lines[j].record.intent == lines[k].record.intent
    ensures j == k
  {
  }

  lemma {:induction false} StoreFindFirst(o: Orders, ticket: int, i: nat)
    requires i < |o| && o[i].ticket == IntTicket(ticket)
    requires forall j :: 0 <= j < i ==> o[j].ticket != IntTicket(ticket)
    ensures StoreFind(o, ticket) == Some(o[i])
    decreases i
  {
    if i > 0 {
      StoreFindFirst(o[1..], ticket, i - 1);
    }
  }

  /** The ticket's last line, as far as the scan can read. */
  predicate LastHolder(lines: seq<Line>, k: nat, ticket: int) {
    k < |lines| && Scanned(lines[k], ticket) && forall j :: k < j < |lines| ==> !Scanned(lines[j], ticket)
  }

  /** Whatever the scan finds is on such a line. */
  lemma ScanIsLastHolder(lines: seq<Line>, ticket: int)
    ensures FileScan(lines, ticket).Some? <==> exists k: nat :: LastHolder(lines, k, ticket)
    ensures forall k: nat :: LastHolder(lines, k, ticket) ==> FileScan(lines, ticket) == Some(lines[k].record)
  {
    if FileScan(lines, ticket).Some? {
      var k :| 0 <= k < |lines| && Scanned(lines[k], ticket) && FileScan(lines, ticket).value == lines[k].record &&
               forall j :: k < j < |lines| ==> !Scanned(lines[j], ticket);
      assert LastHolder(lines, k, ticket);
    }
    forall k: nat | LastHolder(lines, k, ticket) ensures FileScan(lines, ticket) == Some(lines[k].record) {
      HolderIsScanned(lines, k, ticket);
    }
  }

  lemma {:induction false} HolderIsScanned(lines: seq<Line>, k: nat, ticket: int)
    requires LastHolder(lines, k, ticket)
    ensures FileScan(lines, ticket) == Some(lines[k].record)
    decreases |lines|
  {
    var n := |lines| - 1;
    if k < n {
      assert !Scanned(lines[n], ticket);
      HolderIsScanned(lines[..n], k, ticket);
    }
  }

  /** No other intent that ends on the ticket appears in the file before the
      intent of line k. */
  ghost predicate FirstOwner(lines: seq<Line>, k: nat, ticket: int)
    requires Current(lines, k)
  {
    forall j: nat :: j != k && Current(lines, j) && HoldsTicket(lines[j], ticket) ==>
      SeenBefore(lines, lines[k].record.intent, lines[j].record.intent)
  }

  lemma FirstOwnerIsFound(lines: seq<Line>, k: nat, ticket: int)
    requires LastHolder(lines, k, ticket) && Current(lines, k) && FirstOwner(lines, k, ticket)
    ensures StoreFind(Replay(lines), ticket) == Some(lines[k].record)
  {
    var o := Replay(lines);
    var at := CurrentIsStored(lines, k);
    forall j | 0 <= j < at ensures o[j].ticket != IntTicket(ticket) {
      if o[j].ticket == IntTicket(ticket) {
        var m := StoredIsCurrent(lines, j);
        ReplayOrder(lines, j, at);
      }
    }
    StoreFindFirst(o, ticket, at);
  }

  lemma FirstWithTicket(o: Orders, ticket: int) returns (i: nat)
    requires StoreFind(o, ticket).Some?
    ensures i < |o| && StoreFind(o, ticket) == Some(o[i]) && o[i].ticket == IntTicket(ticket)
    ensures forall j :: 0 <= j < i ==> o[j].ticket != IntTicket(ticket)
  {
    i := 0;
    while o[i].ticket != IntTicket(ticket)
      invariant i < |o| && forall j :: 0 <= j < i ==> o[j].ticket != IntTicket(ticket)
      decreases |o| - i
    {
      i := i + 1;
    }
    StoreFindFirst(o, ticket, i);
  }

  lemma FoundIsFirstOwner(lines: seq<Line>, k: nat, ticket: int)
    requires LastHolder(lines, k, ticket) && StoreFind(Replay(lines), ticket) == Some(lines[k].record)
    ensures Current(lines, k) && FirstOwner(lines, k, ticket)
  {
    var o := Replay(lines);
    var i := FirstWithTicket(o, ticket);
    var m := StoredIsCurrent(lines, i);
    assert m == k;
    forall j: nat | j != k && Current(lines, j) && HoldsTicket(lines[j], ticket)
      ensures SeenBefore(lines, lines[k].record.intent, lines[j].record.intent)
    {
      var at := CurrentIsStored(lines, j);
      if at == i {
        OneCurrentLine(lines, j, k);
      }
      ReplayOrder(lines, i, at);
    }
  }

  /** For every file and every ticket it mentions, the scan and the fresh store
      give the same record exactly when the ticket's last line is still its
      intent's last, and no other intent that ends on the ticket was seen first. */
  lemma LookupsAgreeIff(lines: seq<Line>, k: nat, ticket: int)
    requires LastHolder(lines, k, ticket)
    ensures FileScan(lines, ticket) == StoreFind(Replay(lines), ticket) <==>
            Current(lines, k) && FirstOwner(lines, k, ticket)
  {
    assert FileScan(lines, ticket) == Some(lines[k].record);
    if Current(lines, k) && FirstOwner(lines, k, ticket) {
      FirstOwnerIsFound(lines, k, ticket);
    }
    if FileScan(lines, ticket) == StoreFind(Replay(lines), ticket) {
      FoundIsFirstOwner(lines, k, ticket);
    }
  }

  /** No other intent that ever carried the ticket appears in the file before the
      intent of line k. */
  ghost predicate FirstHolder(lines: seq<Line>, k: nat, ticket: int)
    requires k < |lines| && lines[k].Entry?
  {
    forall j :: 0 <= j < |lines| && HoldsTicket(lines[j], ticket) &&
                lines[j].record.intent != lines[k].record.intent ==>
      SeenBefore(lines, lines[k].record.intent, lines[j].record.intent)
  }

  lemma FirstHolderOwns(lines: seq<Line>, k: nat, ticket: int)
    requires Current(lines, k) && FirstHolder(lines, k, ticket)
    ensures FirstOwner(lines, k, ticket)
  {
    forall j: nat | j != k && Current(lines, j) && HoldsTicket(lines[j], ticket)
      ensures SeenBefore(lines, lines[k].record.intent, lines[j].record.intent)
    {
      if lines[j].record.intent == lines[k].record.intent {
        OneCurrentLine(lines, j, k);
      }
    }
  }

  lemma FirstOwnerHolds(lines: seq<Line>, k: nat, ticket: int)
    requires KeepsTickets(lines) && Current(lines, k) && FirstOwner(lines, k, ticket)
    ensures FirstHolder(lines, k, ticket)
  {
    forall j | 0 <= j < |lines| && HoldsTicket(lines[j], ticket) && lines[j].record.intent != lines[k].record.intent
      ensures SeenBefore(lines, lines[k].record.intent, lines[j].record.intent)
    {
      var m := LatestExists(lines, j);
      assert Current(lines, m) && HoldsTicket(lines[m], ticket);
    }
  }

  /** When intents keep their tickets: no other intent that ever carried the
      ticket may appear before the one that wrote its last line, which must be
      that intent's last. */
  lemma LookupsAgreeWhenKept(lines: seq<Line>, k: nat, ticket: int)
    requires KeepsTickets(lines) && LastHolder(lines, k, ticket)
    ensures FileScan(lines, ticket) == StoreFind(Replay(lines), ticket) <==>
            Current(lines, k) && FirstHolder(lines, k, ticket)
    ensures (forall j :: 0 <= j < |lines| && HoldsTicket(lines[j], ticket) ==> OnOneLine(lines[j].record)) ==>
              Current(lines, k)
  {
    LookupsAgreeIff(lines, k, ticket);
    if Current(lines, k) && FirstHolder(lines, k, ticket) {
      FirstHolderOwns(lines, k, ticket);
    } else if Current(lines, k) && FirstOwner(lines, k, ticket) {
      FirstOwnerHolds(lines, k, ticket);
    }
    var last := LatestExists(lines, k);
    assert HoldsTicket(lines[last], ticket);
  }

  /** With two owners the two lookups can disagree about the state. */
  lemma TwoOwnersDisagree()
    ensures var lines := [Entry(Record("a", "filled", IntTicket(7), "")),
                          Entry(Record("b", "closed", IntTicket(7), ""))];
            && KeepsTickets(lines)
            && FileScan(lines, 7).Some? && FileScan(lines, 7).value.state == "closed"
            && StoreFind(Replay(lines), 7).Some? && StoreFind(Replay(lines), 7).value.state == "filled"
  {
    var a, b := Record("a", "filled", IntTicket(7), ""), Record("b", "closed", IntTicket(7), "");
    ReplayOfTwo(a, b);
    assert OnOneLine(b);
    ScanOfTwo(a, b, 7);
    StoreFindFirst([a, b], 7, 0);
  }

  lemma ReplayOfTwo(a: Record, b: Record)
    requires a.intent != b.intent
    ensures Replay([Entry(a), Entry(b)]) == [a, b]
  {
    assert [Entry(a), Entry(b)][..1] == [Entry(a)];
    ReplayOfOne(a);
    IndexIsFirst([a], b.intent, 1);
  }

  lemma ScanOfTwo(a: Record, b: Record, ticket: int)
    requires Scanned(Entry(b), ticket)
    ensures FileScan([Entry(a), Entry(b)], ticket) == Some(b)
  {
  }

  /** An append that respects the intent's current ticket keeps the property. */
  lemma AppendKeepsTickets(lines: seq<Line>, r: Record)
    requires KeepsTickets(lines)
    requires var was := Lookup(Replay(lines), r.intent);
             was.Some? && HasTicket(was.value) ==> r.ticket == was.value.ticket
    ensures KeepsTickets(lines + [Entry(r)])
  {
    var all := lines + [Entry(r)];
    forall i | 0 <= i < |lines| && lines[i].Entry? && lines[i].record.intent == r.intent && HasTicket(lines[i].record)
      ensures r.ticket == lines[i].record.ticket
    {
      var k := LatestExists(lines, i);
      ReplayIsLatest(lines, r.intent, lines[k].record);
    }
  }

  // ---------------------------------------------- which record mark_closed looks at

  predicate Carries(lines: seq<Line>, k: nat, key: string) {
    k < |lines| && lines[k].Entry? && KeyOf(lines[k].record.ticket) == key
  }

  /** Every other intent that ends on the ticket appears in the file before the
      intent of line k. */
  ghost predicate LastSeenOwner(lines: seq<Line>, k: nat, key: string)
    requires Current(lines, k)
  {
    forall j: nat :: j != k && Current(lines, j) && Carries(lines, j, key) ==>
      SeenBefore(lines, lines[j].record.intent, lines[k].record.intent)
  }

  lemma LastSeenIsResolved(lines: seq<Line>, k: nat, key: string)
    requires Current(lines, k) && Carries(lines, k, key) && LastSeenOwner(lines, k, key)
    ensures var o := Replay(lines); LastOwner(o, key) < |o| && o[LastOwner(o, key)] == lines[k].record
  {
    var o := Replay(lines);
    var at := CurrentIsStored(lines, k);
    forall i | at < i < |o| ensures KeyOf(o[i].ticket) != key {
      if KeyOf(o[i].ticket) == key {
        var m := StoredIsCurrent(lines, i);
        ReplayOrder(lines, at, i);
      }
    }
    LastOwnerUnique(o, key, at);
  }

  lemma ResolvedIsLastSeen(lines: seq<Line>, k: nat, key: string)
    requires Carries(lines, k, key) && forall j :: k < j < |lines| ==> !Carries(lines, j, key)
    requires var o := Replay(lines); LastOwner(o, key) < |o| && o[LastOwner(o, key)] == lines[k].record
    ensures Current(lines, k) && LastSeenOwner(lines, k, key)
  {
    var i := LastOwner(Replay(lines), key);
    var m := StoredIsCurrent(lines, i);
    assert m == k by {
      assert Carries(lines, m, key);
    }
    forall j: nat | j != k && Current(lines, j) && Carries(lines, j, key)
      ensures SeenBefore(lines, lines[j].record.intent, lines[k].record.intent)
    {
      var at := CurrentIsStored(lines, j);
      if at == i {
        OneCurrentLine(lines, j, k);
      }
      ReplayOrder(lines, at, i);
    }
  }

  /** For every file, `mark_closed` resolves a ticket to the record on the
      ticket's last line exactly when that line is still its intent's last and
      every other intent that ends on the ticket was seen earlier. */
  lemma ClosesLatestRecordIff(lines: seq<Line>, k: nat, key: string)
    requires Carries(lines, k, key) && forall j :: k < j < |lines| ==> !Carries(lines, j, key)
    ensures var o := Replay(lines);
            (LastOwner(o, key) < |o| && o[LastOwner(o, key)] == lines[k].record) <==>
            (Current(lines, k) && LastSeenOwner(lines, k, key))
  {
    var o := Replay(lines);
    if LastOwner(o, key) < |o| && o[LastOwner(o, key)] == lines[k].record {
      ResolvedIsLastSeen(lines, k, key);
    }
    if Current(lines, k) && LastSeenOwner(lines, k, key) {
      LastSeenIsResolved(lines, k, key);
    }
  }

  lemma ReplayOfThree(a: Record, b: Record, c: Record)
    requires a.intent == c.intent && a.intent != b.intent
    ensures Replay([Entry(a), Entry(b), Entry(c)]) == [c, b]
  {
    var one, two, lines := [Entry(a)], [Entry(a), Entry(b)], [Entry(a), Entry(b), Entry(c)];
    assert one[..0] == [] && two[..1] == one && lines[..2] == two;
    IndexIsFirst([a], b.intent, 1);
    IndexIsFirst([a, b], c.intent, 0);
    assert Replay(one) == [a];
    assert Replay(two) == [a, b];
  }

  /** The ticket's last record is open, but its other owner was first seen later
      and is closed: the close is refused. */
  lemma ReopenedNeverCloses()
    ensures var lines := [Entry(Record("a", "filled", IntTicket(7), "")),
                          Entry(Record("b", "closed", IntTicket(7), "")),
                          Entry(Record("a", "filled", IntTicket(7), "x"))];
            && IsOpen(lines[2].record)
            && Closing(Replay(lines), IntTicket(7), "") == None
  {
    var a, b, c := Record("a", "filled", IntTicket(7), ""), Record("b", "closed", IntTicket(7), ""),
                   Record("a", "filled", IntTicket(7), "x");
    ReplayOfThree(a, b, c);
    LastOwnerUnique([c, b], KeyOf(IntTicket(7)), 1);
    assert Lower("closed") == "closed";
    assert Lower("filled") == "filled";
  }

  // ----------------------------------------------------- ledgers the store writes

  datatype Op =
    | SetOrder(intent: string, state: string, extra: Option<Ticket>)
    | MarkClosed(ticket: Ticket, reason: string)

  datatype Ledger = Ledger(orders: Orders, lines: seq<Line>)

  /** The record `set_order` stores: the old one updated in place. */
  function SetRecord(o: Orders, intent: string, state: string, extra: Option<Ticket>): (r: Record)
    ensures r.intent == intent
  {
    var was := Lookup(o, intent);
    var base := if was.Some? then was.value else Record(intent, "", Missing, "");
    Record(intent, state, if extra.Some? then extra.value else base.ticket, base.reason)
  }

  /** After `set_order` the intent has the new state and the given ticket, or the
      one it had; every other intent keeps its record. */
  lemma SetOrderEffect(o: Orders, intent: string, state: string, extra: Option<Ticket>, other: string)
    ensures var after := Put(o, SetRecord(o, intent, state, extra));
            && Lookup(after, intent).Some? && Lookup(after, intent).value.state == state
            && Lookup(after, intent).value.ticket ==
                 (if extra.Some? then extra.value
                  else if Lookup(o, intent).Some? then Lookup(o, intent).value.ticket else Missing)
            && Lookup(after, intent).value.reason ==
                 (if Lookup(o, intent).Some? then Lookup(o, intent).value.reason else "")
            && (other != intent ==> Lookup(after, other) == Lookup(o, other))
  {
    PutLookup(o, SetRecord(o, intent, state, extra), intent);
    PutLookup(o, SetRecord(o, intent, state, extra), other);
  }

  /** What one store operation appends, if anything. */
  function Appended(o: Orders, op: Op): Option<Record> {
    match op
    case SetOrder(intent, state, extra) => Some(SetRecord(o, intent, state, extra))
    case MarkClosed(t, reason) => Closing(o, t, reason)
  }

  function Perform(l: Ledger, op: Op): Ledger {
    match Appended(l.orders, op)
    case Some(r) => Ledger(Put(l.orders, r), l.lines + [Entry(r)])
    case None => l
  }

  function PerformAll(l: Ledger, ops: seq<Op>): Ledger
    decreases |ops|
  {
    if ops == [] then l else PerformAll(Perform(l, ops[0]), ops[1..])
  }

  /** The operation does not give an intent a ticket other than the one it has. */
  predicate Respects(o: Orders, op: Op) {
    op.SetOrder? && op.extra.Some? && Lookup(o, op.intent).Some? && HasTicket(Lookup(o, op.intent).value) ==>
      op.extra.value == Lookup(o, op.intent).value.ticket
  }

  predicate AllRespect(l: Ledger, ops: seq<Op>)
    decreases |ops|
  {
    ops == [] || (Respects(l.orders, ops[0]) && AllRespect(Perform(l, ops[0]), ops[1..]))
  }

  lemma AppendReplays(lines: seq<Line>, r: Record)
    ensures Replay(lines + [Entry(r)]) == Put(Replay(lines), r)
  {
    var all := lines + [Entry(r)];
    assert all[..|all| - 1] == lines;
  }

  predicate AllOnOneLine(lines: seq<Line>) {
    forall k :: 0 <= k < |lines| && lines[k].Entry? ==> OnOneLine(lines[k].record)
  }

  /** No text given to the operation holds a separator beyond ASCII. */
  predicate Plain(op: Op) {
    match op
    case SetOrder(intent, state, extra) =>
      Unbroken(intent) && Unbroken(state) && (extra.Some? && extra.value.TextTicket? ==> Unbroken(extra.value.s))
    case MarkClosed(t, reason) => Unbroken(reason) && (t.TextTicket? ==> Unbroken(t.s))
  }

  lemma AppendedOnOneLine(lines: seq<Line>, op: Op)
    requires AllOnOneLine(lines) && Plain(op)
    ensures Appended(Replay(lines), op).Some? ==> OnOneLine(Appended(Replay(lines), op).value)
  {
    var o := Replay(lines);
    forall i | 0 <= i < |o| ensures OnOneLine(o[i]) {
      var k := StoredIsCurrent(lines, i);
    }
  }

  lemma AppendedKeepsTickets(l: Ledger, op: Op)
    requires Replay(l.lines) == l.orders && KeepsTickets(l.lines) && Respects(l.orders, op)
    requires Appended(l.orders, op).Some?
    ensures KeepsTickets(l.lines + [Entry(Appended(l.orders, op).value)])
  {
    if op.MarkClosed? {
      ClosingEffect(l.orders, op.ticket, op.reason);
      IndexOfUnique(l.orders, LastOwner(l.orders, KeyOf(op.ticket)));
    }
    AppendKeepsTickets(l.lines, Appended(l.orders, op).value);
  }

  /** After any operations the file replays to exactly what is in memory.  If no
      operation re-tickets an intent, whatever the file scan finds before a
      restart the store loaded after it finds too, and conversely if no text
      holds a separator beyond ASCII. */
  lemma {:induction false} StoreRunsSurviveRestart(l: Ledger, ops: seq<Op>, ticket: int)
    requires Replay(l.lines) == l.orders
    ensures var m := PerformAll(l, ops);
            && Replay(m.lines) == m.orders
            && (KeepsTickets(l.lines) && AllRespect(l, ops) ==>
                  && KeepsTickets(m.lines)
                  && (FileScan(m.lines, ticket).Some? ==> StoreFind(m.orders, ticket).Some?)
                  && (AllOnOneLine(l.lines) && (forall op :: op in ops ==> Plain(op)) ==>
                        (FileScan(m.lines, ticket).Some? <==> StoreFind(m.orders, ticket).Some?)))
    decreases |ops|
  {
    if ops == [] {
      if KeepsTickets(l.lines) {
        ScanAgreesWithStore(l.lines, ticket);
      }
    } else {
      var r := Appended(l.orders, ops[0]);
      if r.Some? {
        AppendReplays(l.lines, r.value);
        if KeepsTickets(l.lines) && Respects(l.orders, ops[0]) {
          AppendedKeepsTickets(l, ops[0]);
        }
        if AllOnOneLine(l.lines) && Plain(ops[0]) {
          AppendedOnOneLine(l.lines, ops[0]);
        }
      }
      StoreRunsSurviveRestart(Perform(l, ops[0]), ops[1..], ticket);
    }
  }
}
