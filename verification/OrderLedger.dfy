/** The append-only order ledger: its replay into one record per intent, and the
    store operations that extend both. */
module OrderLedger {
  import opened Common

  /** A record's `ticket` field; JSON distinguishes a missing key from null. */
  datatype Ticket = Missing | Null | IntTicket(n: int) | TextTicket(s: string)

  datatype Record = Record(intent: string, state: string, ticket: Ticket, reason: string)

  /** One line of the file, as `json.loads` sees it. */
  datatype Line = Corrupt | NoRecord | Entry(record: Record)

  datatype OrderState =
    | IntentCreated | RiskApproved | Submitting | Submitted | Acknowledged
    | PartiallyFilled | Filled | PositionConfirmed | Closed | Unknown

  function ParseState(s: string): Option<OrderState> {
    match s
    case "intent_created" => Some(IntentCreated)
    case "risk_approved" => Some(RiskApproved)
    case "submitting" => Some(Submitting)
    case "submitted" => Some(Submitted)
    case "acknowledged" => Some(Acknowledged)
    case "partially_filled" => Some(PartiallyFilled)
    case "filled" => Some(Filled)
    case "position_confirmed" => Some(PositionConfirmed)
    case "closed" => Some(Closed)
    case "unknown" => Some(Unknown)
    case _ => None
  }

  function NextAllowed(st: OrderState): set<OrderState> {
    match st
    case IntentCreated => {RiskApproved}
    case RiskApproved => {Submitting}
    case Submitting => {Submitted, Unknown}
    case Submitted => {Acknowledged, Unknown}
    case Acknowledged => {PartiallyFilled, Filled, Unknown}
    case PartiallyFilled => {Filled, Unknown}
    case Filled => {PositionConfirmed, Closed, Unknown}
    case PositionConfirmed => {Closed, Unknown}
    case Closed => {}
    case Unknown => {}
  }

  function LowerChar(c: char): char {
    if 'A' <= c <= 'Z' then c - 'A' + 'a' else c
  }

  function Lower(s: string): string { seq(|s|, i requires 0 <= i < |s| => LowerChar(s[i])) }

  function Digits(n: nat): string {
    if n < 10 then ['0' + n as char] else Digits(n / 10) + ['0' + (n % 10) as char]
  }

  /** Python's `str(ticket)`; a missing or null ticket reads "None". */
  function KeyOf(t: Ticket): string {
    match t
    case Missing => "None"
    case Null => "None"
    case IntTicket(n) => if n < 0 then "-" + Digits(-n) else Digits(n)
    case TextTicket(s) => s
  }

  // --------------------------------------------------------- what the keys mean

  /** The number a text of digits denotes. */
  function ValueOf(s: string): int {
    if s == "" then 0 else 10 * ValueOf(s[..|s| - 1]) + (s[|s| - 1] as int - '0' as int)
  }

  predicate DecimalText(s: string) {
    s != "" && (forall i :: 0 <= i < |s| ==> '0' <= s[i] <= '9') && (|s| > 1 ==> s[0] != '0')
  }

  /** Writing a number down and reading it gives it back, without leading zeros. */
  lemma {:induction false} DigitsDenote(n: nat)
    ensures ValueOf(Digits(n)) == n && DecimalText(Digits(n)) && (n > 0 ==> Digits(n)[0] != '0')
    decreases n
  {
    if n >= 10 {
      DigitsDenote(n / 10);
      assert Digits(n)[..|Digits(n)| - 1] == Digits(n / 10);
    }
  }

  lemma {:induction false} LeadingDigitCounts(s: string)
    requires DecimalText(s) && s[0] != '0'
    ensures ValueOf(s) > 0
    decreases |s|
  {
    if |s| > 1 {
      LeadingDigitCounts(s[..|s| - 1]);
    }
  }

  /** And a decimal text is the text of the number it denotes. */
  lemma {:induction false} DecimalIsDigits(s: string)
    requires DecimalText(s)
    ensures ValueOf(s) >= 0 && Digits(ValueOf(s)) == s
    decreases |s|
  {
    if |s| > 1 {
      var init := s[..|s| - 1];
      DecimalIsDigits(init);
      LeadingDigitCounts(init);
      assert ValueOf(s) / 10 == ValueOf(init);
      assert s == init + [s[|s| - 1]];
    }
  }

  lemma DigitsInjective(a: nat, b: nat)
    ensures Digits(a) == Digits(b) <==> a == b
    ensures Digits(a) != "" && Digits(a)[0] != '-'
  {
    DigitsDenote(a);
    DigitsDenote(b);
  }

  lemma NegativeKey(a: nat, b: nat)
    ensures "-" + Digits(a) == "-" + Digits(b) <==> a == b
    ensures "-" + Digits(a) != Digits(b)
  {
    DigitsInjective(a, b);
    DigitsInjective(b, a);
    assert ("-" + Digits(a))[1..] == Digits(a) && ("-" + Digits(b))[1..] == Digits(b);
    assert ("-" + Digits(a))[0] == '-';
  }

  /** Different integer tickets have different keys. */
  lemma IntegerKeysDiffer(m: int, n: int)
    ensures KeyOf(IntTicket(m)) == KeyOf(IntTicket(n)) <==> m == n
  {
    var a, b := if m < 0 then -m else m, if n < 0 then -n else n;
    DigitsInjective(a, b);
    NegativeKey(a, b);
    NegativeKey(b, a);
  }

  /** A text ticket meets an integer one exactly when it is its decimal text, and
      neither meets a record without a ticket, unless the text is "None". */
  lemma TextKeys(s: string, n: nat, t: Ticket)
    requires t.Missing? || t.Null?
    ensures KeyOf(TextTicket(s)) == KeyOf(IntTicket(n)) <==> DecimalText(s) && ValueOf(s) == n
    ensures KeyOf(TextTicket(s)) == KeyOf(t) <==> s == "None"
    ensures KeyOf(IntTicket(n)) != KeyOf(t)
  {
    DigitsDenote(n);
    if DecimalText(s) {
      DecimalIsDigits(s);
    }
    assert "None"[0] == 'N';
  }

  lemma LowerJoins(s: string, t: string)
    ensures Lower(s + t) == Lower(s) + Lower(t)
  {
  }

  /** Lower-casing turns the capital alphabet into the small one, letter by
      letter, and leaves every other character alone. */
  lemma LowerAlphabet(c: char)
    ensures Lower(CAPITALS) == SMALL
    ensures c !in CAPITALS ==> Lower([c]) == [c]
  {
    forall i | 0 <= i < 26 ensures Lower(CAPITALS)[i] == SMALL[i] {
      SmallAt(i);
      CapitalAt(i);
    }
    Alphabets(c);
  }

  predicate HasTicket(r: Record) { !r.ticket.Missing? && !r.ticket.Null? }

  const POSITION_STATES: set<string> := {"position_confirmed", "filled"}

  /** The engine believes a position exists. */
  predicate IsOpen(r: Record) { Lower(r.state) in POSITION_STATES }

  lemma OpenIsClosable(r: Record)
    ensures IsOpen(r) <==> (ParseState(Lower(r.state)).Some? && Closed in NextAllowed(ParseState(Lower(r.state)).value))
  {
  }

  /** No two names denote one state, and every state has a name. */
  lemma StateNames(a: string, b: string, st: OrderState)
    ensures ParseState(a).Some? && ParseState(a) == ParseState(b) ==> a == b
    ensures exists name :: ParseState(name) == Some(st)
  {
    match st
    case IntentCreated => assert ParseState("intent_created") == Some(st);
    case RiskApproved => assert ParseState("risk_approved") == Some(st);
    case Submitting => assert ParseState("submitting") == Some(st);
    case Submitted => assert ParseState("submitted") == Some(st);
    case Acknowledged => assert ParseState("acknowledged") == Some(st);
    case PartiallyFilled => assert ParseState("partially_filled") == Some(st);
    case Filled => assert ParseState("filled") == Some(st);
    case PositionConfirmed => assert ParseState("position_confirmed") == Some(st);
    case Closed => assert ParseState("closed") == Some(st);
    case Unknown => assert ParseState("unknown") == Some(st);
  }

  /** From where each state can be entered. */
  lemma EnteredFrom(st: OrderState)
    ensures NextAllowed(st) == {} <==> st in {Closed, Unknown}
    ensures IntentCreated !in NextAllowed(st)
    ensures RiskApproved in NextAllowed(st) <==> st == IntentCreated
    ensures Submitting in NextAllowed(st) <==> st == RiskApproved
    ensures Submitted in NextAllowed(st) <==> st == Submitting
    ensures Acknowledged in NextAllowed(st) <==> st == Submitted
    ensures PartiallyFilled in NextAllowed(st) <==> st == Acknowledged
    ensures Filled in NextAllowed(st) <==> st in {Acknowledged, PartiallyFilled}
    ensures PositionConfirmed in NextAllowed(st) <==> st == Filled
    ensures Closed in NextAllowed(st) <==> st in {Filled, PositionConfirmed}
    ensures Unknown in NextAllowed(st) <==> st !in {IntentCreated, RiskApproved, Closed, Unknown}
  {
  }

  // -------------------------------------------- one entry per intent, in order

  /** An insertion-ordered dictionary keyed by intent. */
  type Orders = seq<Record>

  ghost predicate Unique(o: Orders) {
    forall i, j :: 0 <= i < j < |o| ==> o[i].intent != o[j].intent
  }

  function IndexOf(o: Orders, intent: string): (k: nat)
    ensures k <= |o|
    ensures k < |o| ==> o[k].intent == intent
    ensures forall i :: 0 <= i < k ==> o[i].intent != intent
  {
    if o == [] then 0 else if o[0].intent == intent then 0 else 1 + IndexOf(o[1..], intent)
  }

  /** Overwriting keeps a key's place; a new key goes last. */
  function Put(o: Orders, r: Record): (p: Orders)
    ensures Unique(o) ==> Unique(p)
    ensures |o| <= |p|
  {
    var k := IndexOf(o, r.intent);
    if k < |o| then o[k := r] else o + [r]
  }

  /** What loading the file leaves in memory: the last record of each intent. */
  function Replay(lines: seq<Line>): (o: Orders)
    ensures Unique(o)
  {
    if lines == [] then []
    else
      var before := Replay(lines[..|lines| - 1]);
      var last := lines[|lines| - 1];
      if last.Entry? then Put(before, last.record) else before
  }

  function Entries(rs: seq<Record>): (ls: seq<Line>)
    ensures |ls| == |rs|
    ensures forall i :: 0 <= i < |rs| ==> ls[i] == Entry(rs[i])
  {
    seq(|rs|, i requires 0 <= i < |rs| => Entry(rs[i]))
  }

  function PutAll(o: Orders, rs: seq<Record>): Orders {
    if rs == [] then o else Put(PutAll(o, rs[..|rs| - 1]), rs[|rs| - 1])
  }

  /** Appending records to the file has the effect of putting them in memory. */
  lemma {:induction false} ReplayAppends(lines: seq<Line>, rs: seq<Record>)
    ensures Replay(lines + Entries(rs)) == PutAll(Replay(lines), rs)
    decreases |rs|
  {
    if rs == [] {
      assert lines + Entries(rs) == lines;
    } else {
      var init := rs[..|rs| - 1];
      var all := lines + Entries(rs);
      assert all[..|all| - 1] == lines + Entries(init);
      ReplayAppends(lines, init);
    }
  }

  predicate Healthy(lines: seq<Line>) { Corrupt !in lines }

  // --------------------------------------------------------------- mark_closed

  /** The last record, in dictionary order, whose ticket reads `key`; |o| if none. */
  function LastOwner(o: Orders, key: string): (k: nat)
    ensures k <= |o|
    ensures k < |o| ==> KeyOf(o[k].ticket) == key
    ensures forall i :: k < i < |o| ==> KeyOf(o[i].ticket) != key
    ensures k == |o| ==> forall i :: 0 <= i < |o| ==> KeyOf(o[i].ticket) != key
  {
    if o == [] then 0
    else
      var n := |o| - 1;
      if KeyOf(o[n].ticket) == key then n
      else
        var k := LastOwner(o[..n], key);
        if k == n then |o| else k
  }

  lemma LastOwnerUnique(o: Orders, key: string, k: nat)
    requires k < |o| && KeyOf(o[k].ticket) == key
    requires forall i :: k < i < |o| ==> KeyOf(o[i].ticket) != key
    ensures LastOwner(o, key) == k
  {
  }

  /** The record that closing `t` appends, if it appends one. */
  function Closing(o: Orders, t: Ticket, reason: string): Option<Record> {
    if t.Missing? || t.Null? then None
    else
      var k := LastOwner(o, KeyOf(t));
      if k == |o| then None
      else
        var st := ParseState(Lower(o[k].state));
        if Lower(o[k].state) == "closed" || st == None || Closed !in NextAllowed(st.value) then None
        else Some(Record(o[k].intent, "closed", if o[k].ticket.Missing? then t else o[k].ticket, reason))
  }

  function AfterClosing(o: Orders, t: Ticket, reason: string): Orders {
    match Closing(o, t, reason)
    case Some(r) => Put(o, r)
    case None => o
  }

  ghost predicate ClosedFrom(was: Record, now: Record, reason: string) {
    && now.intent == was.intent && now.state == "closed" && now.reason == reason
    && KeyOf(now.ticket) == KeyOf(was.ticket)
    && (!was.ticket.Missing? ==> now.ticket == was.ticket)
  }

  lemma IndexOfUnique(o: Orders, k: nat)
    requires Unique(o) && k < |o|
    ensures IndexOf(o, o[k].intent) == k
  {
  }

  /** Closing a ticket rewrites one record: the last one owning that ticket, and
      only if it is open. */
  lemma ClosingEffect(o: Orders, t: Ticket, reason: string)
    requires Unique(o)
    ensures var key := KeyOf(t); var k := LastOwner(o, key); var o' := AfterClosing(o, t, reason);
            && |o'| == |o| && Unique(o')
            && (Closing(o, t, reason).Some? <==> !t.Missing? && !t.Null? && k < |o| && IsOpen(o[k]))
            && (forall i :: 0 <= i < |o| && !(Closing(o, t, reason).Some? && i == k) ==> o'[i] == o[i])
            && (Closing(o, t, reason).Some? ==> ClosedFrom(o[k], o'[k], reason) && Closing(o, t, reason).value == o'[k])
            && (Closing(o, t, reason).Some? && o[k].ticket.Missing? ==> o'[k].ticket == t)
  {
    var k := LastOwner(o, KeyOf(t));
    if k < |o| {
      OpenIsClosable(o[k]);
      IndexOfUnique(o, k);
      assert "closed" !in POSITION_STATES;
    }
  }

  /** Closing an integer ticket leaves every record of another integer ticket as
      it was, and closes the ticket's last record if that one is open. */
  lemma ClosesThatTicket(o: Orders, m: int, reason: string, i: nat)
    requires Unique(o) && i < |o| && o[i].ticket.IntTicket?
    ensures var o' := AfterClosing(o, IntTicket(m), reason);
            && |o'| == |o|
            && (o[i].ticket.n != m ==> o'[i] == o[i])
            && (o[i].ticket.n == m && IsOpen(o[i]) &&
                (forall j :: i < j < |o| ==> KeyOf(o[j].ticket) != KeyOf(IntTicket(m))) ==>
                  o'[i] == Record(o[i].intent, "closed", IntTicket(m), reason))
  {
    ClosingEffect(o, IntTicket(m), reason);
    IntegerKeysDiffer(o[i].ticket.n, m);
    if o[i].ticket.n == m && forall j :: i < j < |o| ==> KeyOf(o[j].ticket) != KeyOf(IntTicket(m)) {
      LastOwnerUnique(o, KeyOf(IntTicket(m)), i);
    }
  }
}
