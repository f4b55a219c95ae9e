/** The market stream: what clients subscribe to and what a broadcast covers. */
module LiveStream {
  import opened Common

  const MAX_SYMBOLS := 12
  const DEFAULT_SYMBOLS: seq<string> := ["XAUUSD", "EURUSD", "GBPUSD", "USDJPY", "BTCUSD"]

  // ------------------------------------------------------------------- symbols

  /** The characters JavaScript's `trim` removes. */
  predicate IsJsSpace(c: char) {
    var n := c as int;
    || 9 <= n <= 13 || n == 32 || n == 0xA0 || n == 0x1680 || 0x2000 <= n <= 0x200A
    || n == 0x2028 || n == 0x2029 || n == 0x202F || n == 0x205F || n == 0x3000 || n == 0xFEFF
  }

  function TrimStart(s: string): string { if s != "" && IsJsSpace(s[0]) then TrimStart(s[1..]) else s }

  function TrimEnd(s: string): string {
    if s != "" && IsJsSpace(s[|s| - 1]) then TrimEnd(s[..|s| - 1]) else s
  }

  function UpperChar(c: char): char { if 'a' <= c <= 'z' then c - 'a' + 'A' else c }

  function Upper(s: string): string { seq(|s|, i requires 0 <= i < |s| => UpperChar(s[i])) }

  predicate SymbolChar(c: char) {
    'A' <= c <= 'Z' || '0' <= c <= '9' || c == '.' || c == '_' || c == '#' || c == '+' || c == '-'
  }

  predicate ValidSymbol(s: string) {
    1 <= |s| <= 32 && forall i :: 0 <= i < |s| ==> SymbolChar(s[i])
  }

  function NormaliseSymbol(raw: string): (r: Option<string>)
    ensures r.Some? ==> ValidSymbol(r.value)
  {
    var s := Upper(TrimEnd(TrimStart(raw)));
    if ValidSymbol(s) then Some(s) else None
  }

  /** Normalising is idempotent: a valid symbol is its own normal form. */
  lemma NormalStays(s: string)
    ensures NormaliseSymbol(s) == Some(s) <==> ValidSymbol(s)
  {
    if ValidSymbol(s) {
      assert !IsJsSpace(s[0]) && !IsJsSpace(s[|s| - 1]);
      assert Upper(s) == s;
    }
  }

  lemma UpperJoins(s: string, t: string)
    ensures Upper(s + t) == Upper(s) + Upper(t) && |Upper(s)| == |s|
  {
  }

  /** Upper-casing turns the small alphabet into capitals, letter by letter, and
      leaves every other character alone. */
  lemma UpperAlphabet(c: char)
    ensures Upper(SMALL) == CAPITALS
    ensures c !in SMALL ==> Upper([c]) == [c]
  {
    forall i | 0 <= i < 26 ensures Upper(SMALL)[i] == CAPITALS[i] {
      SmallAt(i);
      CapitalAt(i);
    }
    Alphabets(c);
  }

  /** The characters of a symbol, and how many of them there may be. */
  lemma SymbolTable(c: char, s: string)
    ensures SymbolChar(c) <==> c in CAPITALS || c in NUMERALS || c in "._#+-"
    ensures ValidSymbol(s) <==> s != "" && |s| < 33 && (forall x :: x in s ==> SymbolChar(x))
  {
    Alphabets(c);
  }

  lemma {:induction false} TrimEndTail(s: string, c: char)
    requires IsJsSpace(c)
    ensures TrimEnd(s + [c]) == TrimEnd(s)
  {
    assert (s + [c])[..|s|] == s;
  }

  lemma {:induction false} TrimTail(s: string, c: char)
    requires IsJsSpace(c)
    ensures TrimEnd(TrimStart(s + [c])) == TrimEnd(TrimStart(s))
    decreases |s|
  {
    if s != "" && IsJsSpace(s[0]) {
      assert (s + [c])[1..] == s[1..] + [c];
      TrimTail(s[1..], c);
    } else if s == "" {
      assert [c][1..] == "";
    } else {
      TrimEndTail(s, c);
    }
  }

  lemma {:induction false} TrimStartUpper(s: string)
    ensures TrimStart(Upper(s)) == Upper(TrimStart(s))
    decreases |s|
  {
    if s != "" {
      assert Upper(s)[1..] == Upper(s[1..]);
      TrimStartUpper(s[1..]);
    }
  }

  lemma {:induction false} TrimEndUpper(s: string)
    ensures TrimEnd(Upper(s)) == Upper(TrimEnd(s))
    decreases |s|
  {
    if s != "" {
      assert Upper(s)[..|s| - 1] == Upper(s[..|s| - 1]);
      TrimEndUpper(s[..|s| - 1]);
    }
  }

  lemma UpperTwice(s: string)
    ensures Upper(Upper(s)) == Upper(s)
  {
  }

  /** Neither case nor white space around it makes a difference to a request. */
  lemma NormaliseIgnores(s: string, c: char)
    ensures NormaliseSymbol(Upper(s)) == NormaliseSymbol(s)
    ensures IsJsSpace(c) ==> NormaliseSymbol([c] + s) == NormaliseSymbol(s) == NormaliseSymbol(s + [c])
  {
    TrimStartUpper(s);
    TrimEndUpper(TrimStart(s));
    UpperTwice(TrimEnd(TrimStart(s)));
    if IsJsSpace(c) {
      assert ([c] + s)[1..] == s;
      TrimTail(s, c);
    }
  }

  const JS_SPACES: string :=
    "\t\n\U{b}\U{c}\r \U{a0}\U{1680}\U{2000}\U{2001}\U{2002}\U{2003}\U{2004}\U{2005}\U{2006}\U{2007}\U{2008}" +
    "\U{2009}\U{200a}\U{2028}\U{2029}\U{202f}\U{205f}\U{3000}\U{feff}"

  /** The white space of JavaScript's strings, one by one. */
  lemma JsSpaceTable(c: char)
    ensures IsJsSpace(c) <==> c in JS_SPACES
  {
  }

  // ------------------------------------------------------------- subscriptions

  /** The valid symbols of a request, normalised, in request order. */
  function Wanted(raws: seq<string>): (r: seq<string>)
    ensures forall s :: s in r ==> ValidSymbol(s)
  {
    if raws == [] then []
    else
      var n := |raws| - 1;
      match NormaliseSymbol(raws[n])
      case Some(s) => Wanted(raws[..n]) + [s]
      case None => Wanted(raws[..n])
  }

  /** First occurrences only. */
  function Distinct(xs: seq<string>): seq<string> {
    if xs == [] then []
    else
      var before := Distinct(xs[..|xs| - 1]);
      if xs[|xs| - 1] in before then before else before + [xs[|xs| - 1]]
  }

  function FirstIndex(xs: seq<string>, x: string): (k: nat)
    ensures k <= |xs|
  {
    if xs == [] then 0 else if xs[0] == x then 0 else 1 + FirstIndex(xs[1..], x)
  }

  lemma {:induction false} FirstIndexIs(xs: seq<string>, x: string, k: nat)
    requires k <= |xs| && (k < |xs| ==> xs[k] == x)
    requires forall i :: 0 <= i < k ==> xs[i] != x
    ensures FirstIndex(xs, x) == k
    decreases |xs|
  {
    if k > 0 {
      FirstIndexIs(xs[1..], x, k - 1);
    }
  }

  lemma {:induction false} FirstIndexOf(xs: seq<string>, x: string)
    ensures FirstIndex(xs, x) < |xs| <==> x in xs
    ensures FirstIndex(xs, x) < |xs| ==> xs[FirstIndex(xs, x)] == x
    ensures forall i :: 0 <= i < FirstIndex(xs, x) ==> xs[i] != x
    decreases |xs|
  {
    if xs != [] && xs[0] != x {
      FirstIndexOf(xs[1..], x);
    }
  }

  lemma FirstIndexNext(xs: seq<string>, y: string, x: string)
    requires x in xs
    ensures FirstIndex(xs + [y], x) == FirstIndex(xs, x)
  {
    FirstIndexOf(xs, x);
    FirstIndexIs(xs + [y], x, FirstIndex(xs, x));
  }

  /** `Distinct` keeps every symbol once, in the order of first request. */
  lemma {:induction false} DistinctInOrder(xs: seq<string>)
    ensures var d := Distinct(xs);
            && (forall x :: x in d <==> x in xs)
            && (forall i, j :: 0 <= i < j < |d| ==> FirstIndex(xs, d[i]) < FirstIndex(xs, d[j]))
    decreases |xs|
  {
    if xs != [] {
      var init, y := xs[..|xs| - 1], xs[|xs| - 1];
      DistinctInOrder(init);
      assert xs == init + [y];
      var b := Distinct(init);
      forall x | x in init ensures FirstIndex(xs, x) == FirstIndex(init, x) && FirstIndex(init, x) < |init| {
        FirstIndexNext(init, y, x);
        FirstIndexOf(init, x);
      }
      forall i | 0 <= i < |b| ensures b[i] in init {
        assert b[i] in b;
      }
      if y !in b {
        assert forall i :: 0 <= i < |init| ==> init[i] in init;
        FirstIndexIs(xs, y, |init|);
      }
    }
  }

  lemma {:induction false} DistinctPrefix(xs: seq<string>, k: nat)
    requires k <= |xs|
    ensures Distinct(xs[..k]) <= Distinct(xs)
    decreases |xs| - k
  {
    if k == |xs| {
      assert xs[..k] == xs;
    } else {
      assert xs[..k + 1][..k] == xs[..k];
      DistinctPrefix(xs, k + 1);
    }
  }

  lemma {:induction false} WantedPrefix(raws: seq<string>, k: nat)
    requires k <= |raws|
    ensures Wanted(raws[..k]) <= Wanted(raws)
    decreases |raws| - k
  {
    if k == |raws| {
      assert raws[..k] == raws;
    } else {
      assert raws[..k + 1][..k] == raws[..k];
      WantedPrefix(raws, k + 1);
    }
  }

  /** What a subscription leaves the client with. */
  function Subscription(raws: seq<string>): seq<string> {
    var d := Distinct(Wanted(raws));
    if d == [] then DEFAULT_SYMBOLS else d[..Min(MAX_SYMBOLS, |d|)]
  }

  ghost predicate GoodList(symbols: seq<string>) {
    && 1 <= |symbols| <= MAX_SYMBOLS
    && (forall i :: 0 <= i < |symbols| ==> ValidSymbol(symbols[i]))
    && (forall i, j :: 0 <= i < j < |symbols| ==> symbols[i] != symbols[j])
  }

  lemma DefaultsGood()
    ensures GoodList(DEFAULT_SYMBOLS)
  {
    var d := DEFAULT_SYMBOLS;
    assert ValidSymbol("XAUUSD");
    assert ValidSymbol("EURUSD");
    assert ValidSymbol("GBPUSD");
    assert ValidSymbol("USDJPY");
    assert ValidSymbol("BTCUSD");
    assert d[0][0] == 'X' && d[1][0] == 'E' && d[2][0] == 'G' && d[3][0] == 'U' && d[4][0] == 'B';
  }

  ghost predicate AllValid(d: seq<string>) { forall i :: 0 <= i < |d| ==> ValidSymbol(d[i]) }

  ghost predicate NoRepeats(d: seq<string>) { forall i, j :: 0 <= i < j < |d| ==> d[i] != d[j] }

  lemma DistinctAreValid(raws: seq<string>)
    ensures AllValid(Distinct(Wanted(raws)))
  {
    var w := Wanted(raws);
    var d := Distinct(w);
    DistinctInOrder(w);
    forall i | 0 <= i < |d| ensures ValidSymbol(d[i]) {
      assert d[i] in d;
      assert d[i] in w;
    }
  }

  lemma {:induction false} DistinctNoRepeats(xs: seq<string>)
    ensures NoRepeats(Distinct(xs))
    decreases |xs|
  {
    if xs != [] {
      DistinctNoRepeats(xs[..|xs| - 1]);
      FreshNext(Distinct(xs[..|xs| - 1]), xs[|xs| - 1]);
    }
  }

  lemma FreshNext(d: seq<string>, x: string)
    requires NoRepeats(d)
    ensures x !in d ==> NoRepeats(d + [x])
  {
  }

  lemma PrefixIsGood(d: seq<string>, n: nat)
    requires AllValid(d) && NoRepeats(d) && 1 <= n <= |d| && n <= MAX_SYMBOLS
    ensures GoodList(d[..n])
  {
  }

  /** Whatever a client asks for, its list stays non-empty, bounded, valid and
      without repetition. */
  lemma SubscriptionIsGood(raws: seq<string>)
    ensures GoodList(Subscription(raws))
  {
    var w := Wanted(raws);
    var d := Distinct(w);
    if d == [] {
      DefaultsGood();
    } else {
      DistinctAreValid(raws);
      DistinctNoRepeats(w);
      PrefixIsGood(d, Min(MAX_SYMBOLS, |d|));
    }
  }

  lemma NormalEurusd()
    ensures NormaliseSymbol(" eurusd") == Some("EURUSD") == NormaliseSymbol("EURUSD")
  {
    var small: string, big: string := "eurusd", "EURUSD";
    NormaliseIgnores(small, ' ');
    assert [' '] + small == " eurusd";
    UpperEurusd();
    SymbolEurusd();
    NormalStays(big);
  }

  lemma UpperEurusd()
    ensures Upper("eurusd") == "EURUSD"
  {
  }

  lemma SymbolEurusd()
    ensures ValidSymbol("EURUSD")
  {
  }

  lemma BadSymbol()
    ensures NormaliseSymbol("bad!") == None
  {
    var u := Upper("bad!");
    assert u[3] == '!' && !SymbolChar('!');
  }

  /** " eurusd", "bad!" and "EURUSD" come to one symbol, and nothing valid to the
      five defaults. */
  lemma SubscriptionExample()
    ensures Subscription([" eurusd", "bad!", "EURUSD"]) == ["EURUSD"]
    ensures Subscription(["bad!"]) == ["XAUUSD", "EURUSD", "GBPUSD", "USDJPY", "BTCUSD"]
  {
    var r := [" eurusd", "bad!", "EURUSD"];
    NormalEurusd();
    BadSymbol();
    assert r[..3][..2] == r[..2] && r[..2][..1] == r[..1] && r[..1][..0] == [] && r[..3] == r;
    assert Wanted(r[..1]) == ["EURUSD"];
    assert Wanted(r[..2]) == ["EURUSD"];
    assert Wanted(r) == ["EURUSD", "EURUSD"];
    OneOfTwo("EURUSD");
    assert ["bad!"][..0] == [];
    assert Wanted(["bad!"]) == [];
  }

  lemma OneOfTwo(x: string)
    ensures Distinct([x, x]) == [x]
  {
    assert [x, x][..1] == [x] && [x][..0] == [];
    assert Distinct([x]) == [x];
  }

  /** A thirteenth symbol is one too many. */
  lemma TwelveAtMost(raws: seq<string>)
    ensures |Subscription(raws)| <= 12
    ensures |Distinct(Wanted(raws))| >= 12 ==> |Subscription(raws)| == 12
  {
  }

  // --------------------------------------------------------------------- quotes

  /** A finite, positive number, or nothing. */
  function Pos(v: Option<real>): (r: Option<real>)
    ensures r.Some? ==> r.value > 0.0 && r == v
  {
    if v.Some? && v.value > 0.0 then v else None
  }

  datatype Quote = Quote(bid: Option<real>, ask: Option<real>, last: Option<real>)

  function QuoteOf(bid: Option<real>, ask: Option<real>, last: Option<real>): Quote {
    var b, a, l := Pos(bid), Pos(ask), Pos(last);
    Quote(b, a, if l.Some? then l else if b.Some? then b else a)
  }

  /** No number that is not positive is broadcast, and `last` is missing only
      when the feed had no positive price at all. */
  lemma QuotesPositive(bid: Option<real>, ask: Option<real>, last: Option<real>)
    ensures var q := QuoteOf(bid, ask, last);
            && (forall p :: p in [q.bid, q.ask, q.last] ==> p == None || p.value > 0.0)
            && (q.last == None <==> Pos(bid) == None && Pos(ask) == None && Pos(last) == None)
            && (q.last.Some? ==> q.last in [bid, ask, last])
            && (bid.Some? && bid.value > 0.0 ==> q.bid == bid) && (ask.Some? && ask.value > 0.0 ==> q.ask == ask)
            && (q.bid.Some? ==> q.bid == bid) && (q.ask.Some? ==> q.ask == ask)
            && (last.Some? && last.value > 0.0 ==> q.last == last)
            && (!(last.Some? && last.value > 0.0) ==> q.last == if q.bid.Some? then q.bid else q.ask)
  {
  }

  // --------------------------------------------------------------------- server

  /** One more request: a new valid symbol goes last, anything else changes nothing. */
  lemma PickNext(raws: seq<string>, k: nat)
    requires k < |raws|
    ensures var d, sym := Distinct(Wanted(raws[..k])), NormaliseSymbol(raws[k]);
            Distinct(Wanted(raws[..k + 1])) == if sym.Some? && sym.value !in d then d + [sym.value] else d
  {
    assert raws[..k + 1][..k] == raws[..k];
    var w, sym := Wanted(raws[..k]), NormaliseSymbol(raws[k]);
    if sym.Some? {
      assert (w + [sym.value])[..|w|] == w;
    }
  }

  /** What is kept after a part of the request begins what is kept in the end. */
  lemma PickPrefix(raws: seq<string>, k: nat)
    requires k <= |raws|
    ensures Distinct(Wanted(raws[..k])) <= Distinct(Wanted(raws))
  {
    WantedPrefix(raws, k);
    var w, v := Wanted(raws), Wanted(raws[..k]);
    assert w[..|v|] == v;
    DistinctPrefix(w, |v|);
  }

  /** Twelve that begin the list are the twelve kept. */
  lemma EnoughKept(next: seq<string>, d: seq<string>)
    requires next <= d && |next| <= MAX_SYMBOLS && (|next| == MAX_SYMBOLS || next == d)
    ensures d[..Min(MAX_SYMBOLS, |d|)] == next
  {
  }

  class LiveServer {
    var clients: set<nat>                 // who a broadcast goes to
    var symbols: map<nat, seq<string>>    // each connection's list, kept by its handlers

    ghost predicate Valid()
      reads this
    {
      clients <= symbols.Keys && forall c :: c in symbols ==> GoodList(symbols[c])
    }

    constructor ()
      ensures Valid() && clients == {} && symbols == map[]
    {
      clients, symbols := {}, map[];
    }

    method OnConnection(id: nat)
      requires Valid() && id !in symbols
      modifies this
      ensures Valid() && clients == old(clients) + {id} && symbols == old(symbols)[id := DEFAULT_SYMBOLS]
    {
      DefaultsGood();
      symbols := symbols[id := DEFAULT_SYMBOLS];
      clients := clients + {id};
    }

    /** A close or an error takes the client out of the broadcast. */
    method OnGone(id: nat)
      requires Valid()
      modifies this`clients
      ensures Valid() && clients == old(clients) - {id}
    {
      clients := clients - {id};
    }

    /** The subscribe loop, stopping at the twelfth symbol. */
    static method Pick(raws: seq<string>) returns (next: seq<string>)
      ensures var d := Distinct(Wanted(raws)); next == d[..Min(MAX_SYMBOLS, |d|)]
    {
      next := [];
      var k := 0;
      while k < |raws|
        invariant 0 <= k <= |raws| && |next| < MAX_SYMBOLS
        invariant next == Distinct(Wanted(raws[..k]))
      {
        PickNext(raws, k);
        var sym := NormaliseSymbol(raws[k]);
        if sym.Some? && sym.value !in next {
          next := next + [sym.value];
        }
        k := k + 1;
        if |next| >= MAX_SYMBOLS {
          PickPrefix(raws, k);
          EnoughKept(next, Distinct(Wanted(raws)));
          return;
        }
      }
      assert raws[..|raws|] == raws;
      EnoughKept(next, Distinct(Wanted(raws)));
    }

    method OnSubscribe(id: nat, raws: seq<string>)
      requires Valid() && id in symbols
      modifies this`symbols
      ensures Valid() && symbols == old(symbols)[id := Subscription(raws)]
    {
      var next := Pick(raws);
      SubscriptionIsGood(raws);
      symbols := symbols[id := if next != [] then next else DEFAULT_SYMBOLS];
    }

    /** `watchedSymbols`: the union over the clients. */
    method WatchedSymbols() returns (watched: set<string>)
      requires Valid()
      ensures forall s :: s in watched <==> exists c :: c in clients && s in symbols[c]
    {
      watched := {};
      var todo := clients;
      while todo != {}
        invariant todo <= clients
        invariant forall s :: s in watched <==> exists c :: c in clients - todo && s in symbols[c]
        decreases todo
      {
        var c :| c in todo;
        watched := watched + set s | s in symbols[c];
        todo := todo - {c};
      }
    }

    /** `publish`: whom it addresses and which symbols it fetches for them. */
    method Publish(only: Option<nat>) returns (targets: set<nat>, fetched: set<string>)
      requires Valid() && (only.Some? ==> only.value in symbols)
      ensures targets <= symbols.Keys
      ensures clients == {} ==> targets == {}
      ensures clients != {} ==> targets == if only.Some? then {only.value} else clients
      ensures forall t, s :: t in targets && s in symbols[t] ==> s in fetched
      ensures forall s :: s in fetched ==> ValidSymbol(s) && exists t :: t in targets && s in symbols[t]
    {
      if clients == {} {
        return {}, {};
      }
      match only
      case Some(id) =>
        targets := {id};
        fetched := set s | s in symbols[id];
      case None =>
        targets := clients;
        fetched := WatchedSymbols();
    }
  }
}
