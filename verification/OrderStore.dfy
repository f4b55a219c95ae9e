/** `OrderStateStore` and the backfill CLI as they run: a file that outlives the
    process, a dictionary that does not, and a health flag between them. */
module OrderStore {
  import opened Common
  import opened OrderLedger
  import opened Recovery
  import opened StaleSelection
  import opened BackfillRuns

  /** The JSONL file; `answers(k)` is what the file system says to the k-th append
      ever tried on it, and `tried` how many have been. */
  class LedgerFile {
    var lines: seq<Line>
    var tried: nat
    const answers: nat -> bool

    constructor (lines: seq<Line>, answers: nat -> bool)
      ensures this.lines == lines && this.tried == 0 && this.answers == answers
    {
      this.lines, this.tried := lines, 0;
      this.answers := answers;
    }

    /** One append: it reaches the file or leaves it as it was. */
    method Append(l: Line) returns (ok: bool)
      modifies this
      ensures ok == answers(old(tried)) && tried == old(tried) + 1
      ensures lines == old(lines) + if ok then [l] else []
    {
      ok := answers(tried);
      tried := tried + 1;
      if ok {
        lines := lines + [l];
      }
    }
  }

  class OrderStateStore {
    const file: LedgerFile
    var orders: Orders
    var healthy: bool

    /** While the store is healthy a restart would rebuild exactly its memory. */
    ghost predicate Valid()
      reads this, file
    {
      Unique(orders) && (healthy ==> Healthy(file.lines) && Replay(file.lines) == orders)
    }

    /** `_load`: a fresh store is the replay of the lines it could read, and
        unhealthy exactly when one was corrupt or the reading broke off. */
    constructor (file: LedgerFile, reading: Reading)
      requires reading != Undecodable
      ensures Valid() && this.file == file
      ensures orders == Replay(Loaded(file.lines, reading))
      ensures healthy == (Healthy(Loaded(file.lines, reading)) && reading == Whole)
    {
      this.file := file;
      orders := [];
      healthy := true;
      new;
      var lines := Loaded(file.lines, reading);
      for k := 0 to |lines|
        invariant orders == Replay(lines[..k])
        invariant healthy == Healthy(lines[..k])
      {
        assert lines[..k + 1][..k] == lines[..k];
        assert lines[..k + 1] == lines[..k] + [lines[k]];
        match lines[k]
        case Corrupt =>
          healthy := false;
        case NoRecord =>
        case Entry(r) =>
          orders := Put(orders, r);
      }
      assert lines[..|lines|] == lines;
      if reading != Whole {
        healthy := false;
      }
    }

    /** `_append_line`: nothing is tried once the store is unhealthy. */
    method AppendLine(r: Record) returns (durable: bool)
      modifies this`healthy, file
      ensures durable == healthy == (old(healthy) && file.answers(old(file.tried)))
      ensures file.tried == old(file.tried) + if old(healthy) then 1 else 0
      ensures file.lines == if durable then old(file.lines) + [Entry(r)] else old(file.lines)
    {
      if !healthy {
        return false;
      }
      durable := file.Append(Entry(r));
      healthy := durable;
    }

    method SetOrder(intent: string, state: string, extra: Option<Ticket>) returns (durable: bool)
      requires Valid()
      modifies this, file
      ensures Valid() && durable == healthy == (old(healthy) && file.answers(old(file.tried)))
      ensures orders == Put(old(orders), SetRecord(old(orders), intent, state, extra))
      ensures durable ==> Ledger(orders, file.lines) ==
                          Perform(Ledger(old(orders), old(file.lines)), Recovery.SetOrder(intent, state, extra))
      ensures !durable ==> file.lines == old(file.lines)
    {
      StoreEntry(SetRecord(orders, intent, state, extra));
      durable := healthy;
    }

    /** `mark_closed`: True says the record was closed in memory, whether or not
        the line reached the file. */
    method MarkClosed(ticket: Ticket, reason: string) returns (closed: bool)
      requires Valid()
      modifies this, file
      ensures Valid() && closed == Closing(old(orders), ticket, reason).Some?
      ensures orders == AfterClosing(old(orders), ticket, reason)
      ensures |orders| == |old(orders)|
      ensures forall i :: 0 <= i < |orders| && OtherInteger(old(orders)[i], ticket) ==> orders[i] == old(orders)[i]
      ensures healthy == (old(healthy) && (closed ==> file.answers(old(file.tried))))
      ensures file.tried == old(file.tried) + if closed && old(healthy) then 1 else 0
      ensures file.lines == old(file.lines) + (if closed && healthy
                                               then [Entry(Closing(old(orders), ticket, reason).value)] else [])
    {
      SparesOthers(orders, ticket, reason);
      var latest := LatestFor(ticket);
      if latest == None {
        return false;
      }
      var record := orders[latest.value];
      var current := Lower(record.state);
      if current == "closed" {
        return false;
      }
      var st := ParseState(current);
      if st == None || Closed !in NextAllowed(st.value) {
        return false;
      }
      var entry := Record(record.intent, "closed", if record.ticket.Missing? then ticket else record.ticket, reason);
      closed := true;
      StoreEntry(entry);
    }

    /** The scan for the record that decides a ticket: the last in dictionary order. */
    method LatestFor(ticket: Ticket) returns (latest: Option<nat>)
      ensures latest == if !ticket.Missing? && !ticket.Null? && LastOwner(orders, KeyOf(ticket)) < |orders|
                        then Some(LastOwner(orders, KeyOf(ticket))) else None
    {
      latest := None;
      if ticket.Missing? || ticket.Null? {
        return;
      }
      var key := KeyOf(ticket);
      for i := 0 to |orders|
        invariant latest == if LastOwner(orders[..i], key) < i then Some(LastOwner(orders[..i], key)) else None
      {
        assert orders[..i + 1][..i] == orders[..i];
        if KeyOf(orders[i].ticket) == key {
          latest := Some(i);
        }
      }
      assert orders[..|orders|] == orders;
    }

    /** Into memory, and into the file if it takes the line. */
    method StoreEntry(entry: Record)
      requires Valid()
      modifies this, file
      ensures Valid() && orders == Put(old(orders), entry)
      ensures healthy == (old(healthy) && file.answers(old(file.tried)))
      ensures file.tried == old(file.tried) + if old(healthy) then 1 else 0
      ensures file.lines == old(file.lines) + if healthy then [Entry(entry)] else []
    {
      orders := Put(orders, entry);
      AppendReplays(file.lines, entry);
      AppendHealthy(file.lines, entry);
      var _ := AppendLine(entry);
    }
  }

  /** The record has another integer ticket. */
  predicate OtherInteger(r: Record, t: Ticket) { t.IntTicket? && r.ticket.IntTicket? && r.ticket != t }

  lemma SparesOthers(o: Orders, ticket: Ticket, reason: string)
    requires Unique(o)
    ensures var o' := AfterClosing(o, ticket, reason);
            && |o'| == |o|
            && forall i :: 0 <= i < |o| && OtherInteger(o[i], ticket) ==> o'[i] == o[i]
  {
    ClosingEffect(o, ticket, reason);
    forall i | 0 <= i < |o| && OtherInteger(o[i], ticket)
      ensures AfterClosing(o, ticket, reason)[i] == o[i]
    {
      ClosesThatTicket(o, ticket.n, reason, i);
    }
  }

  lemma AppendHealthy(lines: seq<Line>, r: Record)
    ensures Healthy(lines + [Entry(r)]) <==> Healthy(lines)
  {
  }

  /** The file and the health flag after closing `appended` records. */
  ghost predicate Persisted(healthy0: bool, lines0: seq<Line>, from: nat, appended: seq<Record>, healthy: bool,
                            lines: seq<Line>, tried: nat, answers: nat -> bool)
  {
    var d := if healthy0 then Durable(appended, answers, from) else 0;
    && healthy == (healthy0 && d == |appended|)
    && lines == lines0 + Entries(appended[..d])
    && (healthy ==> tried == from + |appended|)
  }

  /** One more close: the file takes it exactly while everything before went in. */
  lemma PersistedNext(healthy0: bool, lines0: seq<Line>, from: nat, rs: seq<Record>, r: Record, healthy: bool,
                      lines: seq<Line>, tried: nat, answers: nat -> bool)
    requires Persisted(healthy0, lines0, from, rs, healthy, lines, tried, answers)
    ensures var stays := healthy && answers(tried);
            Persisted(healthy0, lines0, from, rs + [r], stays, lines + if stays then [Entry(r)] else [],
                      tried + if healthy then 1 else 0, answers)
  {
    DurableNext(rs, r, answers, from);
    var all := rs + [r];
    if healthy0 {
      var d := Durable(rs, answers, from);
      assert all[..d] == rs[..d];
      if healthy && answers(tried) {
        assert all[..d + 1] == rs[..d] + [r];
        assert Entries(rs[..d] + [r]) == Entries(rs[..d]) + [Entry(r)];
      }
    }
  }

  class StaleBackfill {
    const file: LedgerFile
    const present: bool
    const apply: bool
    const filter: Option<string>

    constructor (file: LedgerFile, present: bool, apply: bool, filter: Option<string>)
      ensures this.file == file && this.present == present && this.apply == apply && this.filter == filter
    {
      this.file, this.present, this.apply, this.filter := file, present, apply, filter;
    }

    /** `select_stale_candidates`: the candidates and the two skip counters. */
    static method SelectStaleCandidates(orders: Orders, broker: set<string>, filter: Option<string>)
      returns (candidates: seq<Candidate>, skippedNoTicket: nat, skippedClosed: nat)
      ensures candidates == Candidates(orders, broker, filter)
      ensures skippedNoTicket == Count(orders, OpenWithoutTicket)
      ensures skippedClosed == Count(orders, AlreadyClosed)
    {
      candidates, skippedNoTicket, skippedClosed := [], 0, 0;
      assert "closed" !in POSITION_STATES;
      for k := 0 to |orders|
        invariant candidates == Selected(orders[..k], broker, filter)
        invariant skippedNoTicket == Count(orders[..k], OpenWithoutTicket)
        invariant skippedClosed == Count(orders[..k], AlreadyClosed)
      {
        assert orders[..k + 1][..k] == orders[..k];
        var record := orders[k];
        var state := Lower(record.state);
        if state == "closed" {
          skippedClosed := skippedClosed + 1;
          continue;
        }
        if record.ticket.Missing? || record.ticket.Null? {
          if state in POSITION_STATES {
            skippedNoTicket := skippedNoTicket + 1;
          }
          continue;
        }
        if state !in POSITION_STATES {
          continue;
        }
        if filter.Some? && KeyOf(record.ticket) != filter.value {
          continue;
        }
        if KeyOf(record.ticket) in broker {
          continue;
        }
        candidates := candidates + [Candidate(record.intent, record.ticket, state)];
      }
      assert orders[..|orders|] == orders;
      candidates := Sorted(candidates);
    }

    /** `apply_backfill`: the count it reports is of records closed in memory; the
        file gets those before the first append it refuses. */
    static method ApplyBackfill(store: OrderStateStore, candidates: seq<Candidate>) returns (written: nat)
      requires store.Valid()
      modifies store, store.file
      ensures store.Valid()
      ensures var a := ApplyAll(old(store.orders), candidates);
              && store.orders == a.orders && written == |a.appended|
              && Persisted(old(store.healthy), old(store.file.lines), old(store.file.tried), a.appended,
                           store.healthy, store.file.lines, store.file.tried, store.file.answers)
    {
      written := 0;
      ghost var a := Applied(store.orders, []);
      assert store.file.lines + Entries([]) == store.file.lines;
      for k := 0 to |candidates|
        invariant store.Valid() && a == ApplyAll(old(store.orders), candidates[..k])
        invariant store.orders == a.orders && written == |a.appended|
        invariant Persisted(old(store.healthy), old(store.file.lines), old(store.file.tried), a.appended,
                            store.healthy, store.file.lines, store.file.tried, store.file.answers)
      {
        ApplyAllNext(old(store.orders), candidates, k);
        ghost var r := Closing(a.orders, candidates[k].ticket, BACKFILL_REASON);
        if r.Some? {
          PersistedNext(old(store.healthy), old(store.file.lines), old(store.file.tried), a.appended, r.value,
                        store.healthy, store.file.lines, store.file.tried, store.file.answers);
        }
        var closed := store.MarkClosed(candidates[k].ticket, BACKFILL_REASON);
        written := if closed then written + 1 else written;
        a := ApplyOne(a, candidates[k]);
      }
      assert candidates[..|candidates|] == candidates;
    }

    /** `run`: an abort exits with 2, any other exception with 1. */
    method Run(broker: BrokerRead, reading: Reading) returns (code: int)
      modifies file
      ensures var e := Process(old(file.lines), World(present, broker, reading, file.answers, old(file.tried)),
                               apply, filter);
              code == e.code && file.lines == e.lines
    {
      if !present {
        return 2;
      }
      if broker.Unverified? {
        return 2;
      }
      if broker.Raised? || reading == Undecodable {
        return 1;
      }
      var store := new OrderStateStore(file, reading);
      var candidates, _, _ := SelectStaleCandidates(store.orders, broker.tickets, filter);
      assert file.lines + Entries([]) == file.lines;
      if !apply {
        return 0;
      }
      var _ := ApplyBackfill(store, candidates);
      code := 0;
    }
  }
}
