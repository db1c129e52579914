/** The position ledger: a cache of quantities per ticker, with or without a repository
    whose committed result it repeats.
  */
module PortfolioLedgers {
  import opened Common
  import opened MapSums

  type PositionMap = map<string, real>

  datatype Side = BUY | SELL

  datatype LedgerError = BlankTicker | QuantityNotPositive | ShortPosition | StoreFailure

  /** The characters that Python's `str.strip` removes. */
  predicate IsSpace(c: char) {
    var n := c as int;
    || 0x09 <= n <= 0x0D || 0x1C <= n <= 0x20 || n == 0x85 || n == 0xA0 || n == 0x1680
    || 0x2000 <= n <= 0x200A || n == 0x2028 || n == 0x2029 || n == 0x202F || n == 0x205F || n == 0x3000
  }

  predicate IsBlank(ticker: string) {
    forall i :: 0 <= i < |ticker| ==> IsSpace(ticker[i])
  }

  function Signed(side: Side, quantity: real): real {
    if side == BUY then quantity else -quantity
  }

  function Put(positions: PositionMap, ticker: string, quantity: real): PositionMap {
    if quantity == 0.0 then positions - {ticker} else positions[ticker := quantity]
  }

  /** The new quantity of a ticker, unless it would be negative. */
  function Apply(rows: PositionMap, ticker: string, delta: real): Result<real, LedgerError> {
    var quantity := Get(rows, ticker) + delta;
    if quantity < 0.0 then Err(ShortPosition) else Ok(quantity)
  }

  function Validated(ticker: string, quantity: real): Result<(), LedgerError> {
    if IsBlank(ticker) then Err(BlankTicker)
    else if quantity <= 0.0 then Err(QuantityNotPositive)
    else Ok(())
  }

  /** What the ledger takes over from the repository. */
  function Positive(rows: PositionMap): PositionMap {
    map t | t in rows && rows[t] > 0.0 :: rows[t]
  }

  /** The persistent side, by its contract: a commit either happens as a whole or, when the
      store fails or the position would be short, changes nothing. */
  class LedgerRepository {
    var rows: PositionMap

    constructor (rows: PositionMap)
      ensures this.rows == rows
    {
      this.rows := rows;
    }

    method ApplyDelta(ticker: string, delta: real, outage: bool) returns (r: Result<real, LedgerError>)
      modifies this
      ensures r == if outage then Err(StoreFailure) else Apply(old(rows), ticker, delta)
      ensures rows == if r.Ok? then Put(old(rows), ticker, r.value) else old(rows)
    {
      if outage {
        return Err(StoreFailure);
      }
      r := Apply(rows, ticker, delta);
      if r.Ok? {
        rows := Put(rows, ticker, r.value);
      }
    }
  }

  class PortfolioLedger {
    const repository: LedgerRepository?
    var positions: PositionMap
    var hydrated: bool

    constructor (repository: LedgerRepository?)
      ensures this.repository == repository && positions == map[] && !hydrated
    {
      this.repository := repository;
      positions := map[];
      hydrated := false;
    }

    method Hydrate(outage: bool) returns (r: Result<(), LedgerError>)
      modifies this
      ensures repository == null ==> r == Ok(()) && hydrated && positions == old(positions)
      ensures repository != null && outage ==> r == Err(StoreFailure) && hydrated == old(hydrated) && positions == old(positions)
      ensures repository != null && !outage ==> r == Ok(()) && hydrated && positions == Positive(repository.rows)
    {
      if repository == null {
        hydrated := true;
        return Ok(());
      }
      if outage {
        return Err(StoreFailure);
      }
      positions := Positive(repository.rows);
      hydrated := true;
      return Ok(());
    }

    method RecordFill(ticker: string, side: Side, quantity: real, outage: bool) returns (r: Result<(), LedgerError>)
      modifies this, repository
      ensures hydrated == old(hydrated)
      ensures r.Ok? && repository == null ==>
                Get(positions, ticker) == Get(old(positions), ticker) + (if side.BUY? then quantity else -quantity)
      ensures r.Ok? && repository != null ==>
                && Get(repository.rows, ticker) == Get(old(repository.rows), ticker) + (if side.BUY? then quantity else -quantity)
                && Get(positions, ticker) == Get(repository.rows, ticker)
      ensures repository == null ==>
                var after := InMemory(old(positions), Fill(ticker, side, quantity, false));
                r == after.0 && positions == after.1
      ensures repository != null ==>
                var after := Committed(Books(old(positions), old(repository.rows), []), Fill(ticker, side, quantity, outage));
                r == after.0 && positions == after.1.cache && repository.rows == after.1.rows
    {
      if IsBlank(ticker) {
        return Err(BlankTicker);
      }
      if quantity <= 0.0 {
        return Err(QuantityNotPositive);
      }
      var delta := if side == BUY then quantity else -quantity;
      var newQuantity: real;
      if repository != null {
        var committed := repository.ApplyDelta(ticker, delta, outage);
        if committed.Err? {
          return Err(committed.error);
        }
        newQuantity := committed.value;
      } else {
        newQuantity := Get(positions, ticker) + delta;
        if newQuantity < 0.0 {
          return Err(ShortPosition);
        }
      }
      if newQuantity == 0.0 {
        positions := positions - {ticker};
      } else {
        positions := positions[ticker := newQuantity];
      }
      return Ok(());
    }

    method GetPositions() returns (snapshot: PositionMap)
      ensures forall t :: Get(snapshot, t) == Get(positions, t)
      ensures forall t :: t in snapshot ==> snapshot[t] != 0.0
    {
      snapshot := map t | t in positions && positions[t] != 0.0 :: positions[t];
    }
  }

  // ---- Runs of one ledger, and of others writing to the same repository ----

  /** Cache and rows, with the deltas the repository accepted so far. */
  datatype Books = Books(cache: PositionMap, rows: PositionMap, log: seq<(string, real)>)

  datatype Op =
    | Fill(ticker: string, side: Side, quantity: real, outage: bool)
    | ForeignDelta(ticker: string, delta: real)
    | Hydrate

  /** A fill of a ledger without a repository. */
  function InMemory(cache: PositionMap, f: Op): (Result<(), LedgerError>, PositionMap)
    requires f.Fill?
  {
    var valid := Validated(f.ticker, f.quantity);
    if valid.Err? then (valid, cache)
    else
      match Apply(cache, f.ticker, Signed(f.side, f.quantity))
      case Err(e) => (Err(e), cache)
      case Ok(quantity) => (Ok(()), Put(cache, f.ticker, quantity))
  }

  /** A fill of a ledger with a repository: first the commit, then the cache. */
  function Committed(b: Books, f: Op): (Result<(), LedgerError>, Books)
    requires f.Fill?
  {
    var delta := Signed(f.side, f.quantity);
    var valid := Validated(f.ticker, f.quantity);
    if valid.Err? then (valid, b)
    else if f.outage then (Err(StoreFailure), b)
    else
      match Apply(b.rows, f.ticker, delta)
      case Err(e) => (Err(e), b)
      case Ok(quantity) =>
        (Ok(()), Books(Put(b.cache, f.ticker, quantity), Put(b.rows, f.ticker, quantity), b.log + [(f.ticker, delta)]))
  }

  function Step(b: Books, op: Op): Books {
    match op
    case Fill(_, _, _, _) => Committed(b, op).1
    case ForeignDelta(ticker, delta) =>
      var r := Apply(b.rows, ticker, delta);
      if r.Err? then b else b.(rows := Put(b.rows, ticker, r.value), log := b.log + [(ticker, delta)])
    case Hydrate => b.(cache := Positive(b.rows))
  }

  function Run(b: Books, ops: seq<Op>): Books
    decreases |ops|
  {
    if ops == [] then b else Run(Step(b, ops[0]), ops[1..])
  }

  function Net(log: seq<(string, real)>, ticker: string): real {
    if log == [] then 0.0
    else Net(log[..|log| - 1], ticker) + (if log[|log| - 1].0 == ticker then log[|log| - 1].1 else 0.0)
  }

  /** Rows are the positive net sums of the accepted deltas, and nothing else. */
  ghost predicate Balanced(b: Books) {
    forall t :: Get(b.rows, t) == Net(b.log, t) >= 0.0 && (t in b.rows <==> Net(b.log, t) > 0.0)
  }

  lemma NetOfAppended(log: seq<(string, real)>, ticker: string, delta: real, t: string)
    ensures Net(log + [(ticker, delta)], t) == Net(log, t) + (if ticker == t then delta else 0.0)
  {
    assert (log + [(ticker, delta)])[..|log|] == log;
  }

  lemma DeltaKeepsBalance(b: Books, cache: PositionMap, ticker: string, delta: real)
    requires Balanced(b) && Apply(b.rows, ticker, delta).Ok?
    ensures Balanced(Books(cache, Put(b.rows, ticker, Apply(b.rows, ticker, delta).value), b.log + [(ticker, delta)]))
  {
    forall t {
      NetOfAppended(b.log, ticker, delta, t);
    }
  }

  lemma StepKeepsBalance(b: Books, op: Op)
    requires Balanced(b)
    ensures Balanced(Step(b, op))
  {
    var b' := Step(b, op);
    if b'.log != b.log {
      var delta := if op.Fill? then Signed(op.side, op.quantity) else op.delta;
      DeltaKeepsBalance(b, b'.cache, op.ticker, delta);
    }
  }

  /** Whoever writes, every row is the sum of the accepted signed fills of its ticker, never
      negative, and absent when zero. */
  lemma {:induction false} RowsAreNetSums(b: Books, ops: seq<Op>)
    requires Balanced(b)
    ensures Balanced(Run(b, ops))
    decreases |ops|
  {
    if ops != [] {
      StepKeepsBalance(b, ops[0]);
      RowsAreNetSums(Step(b, ops[0]), ops[1..]);
    }
  }

  /** With nobody else writing, cache and repository are equal after every operation,
      refused and failed ones included. */
  lemma {:induction false} SingleWriterAgrees(b: Books, ops: seq<Op>)
    requires Balanced(b) && b.cache == b.rows
    requires forall op :: op in ops ==> !op.ForeignDelta?
    ensures Run(b, ops).cache == Run(b, ops).rows && Balanced(Run(b, ops))
    decreases |ops|
  {
    if ops != [] {
      StepKeepsBalance(b, ops[0]);
      PositiveIsAll(b);
      SingleWriterAgrees(Step(b, ops[0]), ops[1..]);
    }
  }

  /** With others writing, the cache agrees on a ticker right after an accepted fill of it,
      and everywhere after hydrating. */
  lemma AgreesWhereJustWritten(b: Books, ops: seq<Op>, last: Op)
    requires Balanced(b)
    ensures var before := Run(b, ops);
            var after := Step(before, last);
            && (last.Fill? && Committed(before, last).0.Ok? ==> Get(after.cache, last.ticker) == Get(after.rows, last.ticker))
            && (last.Hydrate? ==> after.cache == after.rows)
  {
    RowsAreNetSums(b, ops);
    var before := Run(b, ops);
    PositiveIsAll(before);
  }

  /** A fill is accepted exactly when it is well-formed, the store answers, and what was
      accepted before covers it. */
  lemma AcceptedIffCovered(b: Books, f: Op)
    requires Balanced(b) && f.Fill?
    ensures Committed(b, f).0.Ok? <==>
              !IsBlank(f.ticker) && f.quantity > 0.0 && !f.outage && Net(b.log, f.ticker) + Signed(f.side, f.quantity) >= 0.0
    ensures Committed(b, f).0.Err? ==> Committed(b, f).1 == b
  {
    assert Get(b.rows, f.ticker) == Net(b.log, f.ticker);
  }

  /** A ledger without a repository behaves as one whose repository is its own cache. */
  lemma InMemoryIsOwnRepository(cache: PositionMap, log: seq<(string, real)>, f: Op)
    requires f.Fill? && !f.outage
    ensures var (r, after) := InMemory(cache, f);
            var (r', after') := Committed(Books(cache, cache, log), f);
            r == r' && after == after'.cache == after'.rows
  {
  }

  /** Fills of a ledger without a repository, one after another. */
  function RunInMemory(cache: PositionMap, fills: seq<Op>): PositionMap
    requires forall f :: f in fills ==> f.Fill?
    decreases |fills|
  {
    if fills == [] then cache else RunInMemory(InMemory(cache, fills[0]).1, fills[1..])
  }

  lemma {:induction false} InMemoryRunIsOwnRepository(cache: PositionMap, log: seq<(string, real)>, fills: seq<Op>)
    requires forall f :: f in fills ==> f.Fill? && !f.outage
    ensures var b := Run(Books(cache, cache, log), fills);
            RunInMemory(cache, fills) == b.cache == b.rows
    decreases |fills|
  {
    if fills != [] {
      InMemoryIsOwnRepository(cache, log, fills[0]);
      var b := Step(Books(cache, cache, log), fills[0]);
      InMemoryRunIsOwnRepository(b.cache, b.log, fills[1..]);
    }
  }

  /** Without a repository, too, every position is the sum of the accepted signed fills of its
      ticker, never negative, and absent when zero. */
  lemma InMemoryIsNetSums(fills: seq<Op>, ticker: string)
    requires forall f :: f in fills ==> f.Fill? && !f.outage
    ensures var positions, log := RunInMemory(map[], fills), Run(Books(map[], map[], []), fills).log;
            && Get(positions, ticker) == Net(log, ticker) >= 0.0
            && (ticker in positions <==> Net(log, ticker) > 0.0)
  {
    InMemoryRunIsOwnRepository(map[], [], fills);
    RowsAreNetSums(Books(map[], map[], []), fills);
  }

  // ---- Others' commits between a request to the repository and the write to the cache ----

  predicate AllForeign(ops: seq<Op>) {
    forall op :: op in ops ==> op.ForeignDelta?
  }

  /** After the commit of a fill and before its cache write. */
  function OnlyCommitted(b: Books, f: Op): Books
    requires f.Fill?
  {
    Committed(b, f).1.(cache := b.cache)
  }

  /** A fill with others' commits in between. */
  function Interrupted(b: Books, f: Op, others: seq<Op>): Books
    requires f.Fill? && Committed(b, f).0.Ok?
  {
    var quantity := Get(OnlyCommitted(b, f).rows, f.ticker);
    var late := Run(OnlyCommitted(b, f), others);
    late.(cache := Put(late.cache, f.ticker, quantity))
  }

  lemma {:induction false} ForeignOnTickers(b: Books, others: seq<Op>, ticker: string)
    requires AllForeign(others)
    ensures Run(b, others).cache == b.cache
    ensures (forall op :: op in others ==> op.ticker != ticker) ==> Net(Run(b, others).log, ticker) == Net(b.log, ticker)
    decreases |others|
  {
    if others != [] {
      var op := others[0];
      NetOfAppended(b.log, op.ticker, op.delta, ticker);
      ForeignOnTickers(Step(b, op), others[1..], ticker);
    }
  }

  lemma BalancedAt(b: Books, ticker: string)
    requires Balanced(b)
    ensures Get(b.rows, ticker) == Net(b.log, ticker)
  {
  }

  lemma OnlyCommittedBalanced(b: Books, f: Op)
    requires Balanced(b) && f.Fill?
    ensures Balanced(OnlyCommitted(b, f))
  {
    StepKeepsBalance(b, f);
  }

  /** With others' commits in between, cache and repository agree on the fill's ticker right
      after it exactly if those commits leave the ticker's net as it was. */
  lemma AgreesIffNetUntouched(b: Books, f: Op, others: seq<Op>)
    requires Balanced(b) && f.Fill? && Committed(b, f).0.Ok? && AllForeign(others)
    ensures var after := Interrupted(b, f, others);
            Get(after.cache, f.ticker) == Get(after.rows, f.ticker)
            <==> Net(after.log, f.ticker) == Net(OnlyCommitted(b, f).log, f.ticker)
  {
    var mid := OnlyCommitted(b, f);
    OnlyCommittedBalanced(b, f);
    RowsAreNetSums(mid, others);
    BalancedAt(mid, f.ticker);
    BalancedAt(Run(mid, others), f.ticker);
  }

  /** In particular if none of them is a commit of that ticker. */
  lemma AgreesWithoutCommitsBetween(b: Books, f: Op, others: seq<Op>)
    requires Balanced(b) && f.Fill? && Committed(b, f).0.Ok? && AllForeign(others)
    requires forall op :: op in others ==> op.ticker != f.ticker
    ensures var after := Interrupted(b, f, others);
            Get(after.cache, f.ticker) == Get(after.rows, f.ticker)
  {
    AgreesIffNetUntouched(b, f, others);
    ForeignOnTickers(OnlyCommitted(b, f), others, f.ticker);
  }

  ghost predicate SameNets(b1: Books, b2: Books) {
    forall t :: Net(b1.log, t) == Net(b2.log, t)
  }

  lemma EqualNetsEqualRows(b1: Books, b2: Books)
    requires Balanced(b1) && Balanced(b2)
    ensures b1.rows == b2.rows <==> SameNets(b1, b2)
  {
    if b1.rows == b2.rows {
      forall t
        ensures Net(b1.log, t) == Net(b2.log, t)
      {
        assert Get(b1.rows, t) == Net(b1.log, t) && Get(b2.rows, t) == Net(b2.log, t);
      }
    }
    if SameNets(b1, b2) {
      forall t
        ensures (t in b1.rows <==> t in b2.rows) && Get(b1.rows, t) == Get(b2.rows, t)
      {
        assert Net(b1.log, t) == Net(b2.log, t);
      }
      forall t | t in b1.rows
        ensures b1.rows[t] == b2.rows[t]
      {
        assert Get(b1.rows, t) == Get(b2.rows, t);
      }
      assert b1.rows == b2.rows;
    }
  }

  lemma PositiveIsAll(b: Books)
    requires Balanced(b)
    ensures Positive(b.rows) == b.rows
  {
    forall t | t in b.rows
      ensures b.rows[t] > 0.0
    {
      assert Get(b.rows, t) == Net(b.log, t);
    }
  }

  /** A load taken over after others' commits agrees with the repository exactly if these
      leave every ticker's net as it was. */
  lemma LoadAgreesIffNetsUntouched(b: Books, others: seq<Op>)
    requires Balanced(b) && AllForeign(others)
    ensures Positive(b.rows) == Run(b, others).rows <==> SameNets(b, Run(b, others))
  {
    RowsAreNetSums(b, others);
    PositiveIsAll(b);
    EqualNetsEqualRows(b, Run(b, others));
  }

  // ---- Bought and sold ----

  /** An accepted purchase raises its ticker's quantity by what was bought, an accepted sale
      lowers it by what was sold, and no other ticker moves; a refused fill moves nothing. */
  lemma FillMovesItsTicker(b: Books, f: Op, t: string)
    requires f.Fill?
    ensures var (r, after) := Committed(b, f);
            Get(after.rows, t) - Get(b.rows, t)
            == (if r.Err? || t != f.ticker then 0.0 else if f.side.BUY? then f.quantity else -f.quantity)
    ensures var (r, after) := InMemory(b.cache, f);
            Get(after, t) - Get(b.cache, t)
            == (if r.Err? || t != f.ticker then 0.0 else if f.side.BUY? then f.quantity else -f.quantity)
  {
  }

  /** What the accepted fills of a run bought, or sold, of a ticker. */
  function Traded(b: Books, ops: seq<Op>, ticker: string, side: Side): real
    decreases |ops|
  {
    if ops == [] then 0.0
    else
      var f := ops[0];
      var counts := f.Fill? && f.ticker == ticker && f.side == side && Committed(b, f).0.Ok?;
      (if counts then f.quantity else 0.0) + Traded(Step(b, f), ops[1..], ticker, side)
  }

  /** What others' accepted commits in a run changed of a ticker. */
  function Foreign(b: Books, ops: seq<Op>, ticker: string): real
    decreases |ops|
  {
    if ops == [] then 0.0
    else
      var f := ops[0];
      var counts := f.ForeignDelta? && f.ticker == ticker && Apply(b.rows, ticker, f.delta).Ok?;
      (if counts then f.delta else 0.0) + Foreign(Step(b, f), ops[1..], ticker)
  }

  /** In any run, every row is what it was, plus what was bought, minus what was sold, plus
      what others changed. */
  lemma {:induction false} BoughtMinusSold(b: Books, ops: seq<Op>, ticker: string)
    ensures Get(Run(b, ops).rows, ticker)
         == Get(b.rows, ticker) + Traded(b, ops, ticker, BUY) - Traded(b, ops, ticker, SELL) + Foreign(b, ops, ticker)
    decreases |ops|
  {
    if ops != [] {
      if ops[0].Fill? {
        FillMovesItsTicker(b, ops[0], ticker);
      }
      BoughtMinusSold(Step(b, ops[0]), ops[1..], ticker);
    }
  }

  /** A ledger without a repository holds what it bought less what it sold. */
  lemma InMemoryBoughtMinusSold(fills: seq<Op>, ticker: string)
    requires forall f :: f in fills ==> f.Fill? && !f.outage
    ensures var b := Books(map[], map[], []);
            Get(RunInMemory(map[], fills), ticker) == Traded(b, fills, ticker, BUY) - Traded(b, fills, ticker, SELL)
  {
    var b := Books(map[], map[], []);
    InMemoryRunIsOwnRepository(map[], [], fills);
    BoughtMinusSold(b, fills, ticker);
    NothingForeign(b, fills, ticker);
  }

  lemma {:induction false} NothingForeign(b: Books, ops: seq<Op>, ticker: string)
    requires forall f :: f in ops ==> f.Fill?
    ensures Foreign(b, ops, ticker) == 0.0
    decreases |ops|
  {
    if ops != [] {
      assert ops[0] in ops && forall f :: f in ops[1..] ==> f in ops;
      NothingForeign(Step(b, ops[0]), ops[1..], ticker);
    }
  }

  /** Why a fill is refused, in the order of the checks. */
  lemma RefusedBecause(b: Books, f: Op)
    requires Balanced(b) && f.Fill?
    ensures Committed(b, f).0 == Err(BlankTicker) <==> IsBlank(f.ticker)
    ensures Committed(b, f).0 == Err(QuantityNotPositive) <==> !IsBlank(f.ticker) && f.quantity <= 0.0
    ensures Committed(b, f).0 == Err(StoreFailure) <==> !IsBlank(f.ticker) && f.quantity > 0.0 && f.outage
    ensures Committed(b, f).0 == Err(ShortPosition) <==>
              !IsBlank(f.ticker) && f.quantity > 0.0 && !f.outage && f.side.SELL? && Net(b.log, f.ticker) < f.quantity
  {
    BalancedAt(b, f.ticker);
  }
}
