/** The `HugUser` and `HeadpatUser` tables (app/models/hug_user.rb,
    app/models/headpat_user.rb): one row per user id with a `given` and a
    `received` counter, both defaulting to 0. The two fun commands share
    this update. */
module CounterTables {
  import opened Common
  import Miscellaneous

  type UserId = int

  datatype Counts = Counts(given: int, received: int)

  /** A row created by `create(id:)` holds the column defaults. */
  const Fresh := Counts(0, 0)

  function RowOf(rows: map<UserId, Counts>, id: UserId): Counts
  {
    if id in rows then rows[id] else Fresh
  }

  /** The giver's `given` and the receiver's `received` go up by one, a
      missing row being created first. */
  function Exchanged(rows: map<UserId, Counts>, giver: UserId, receiver: UserId): (r: map<UserId, Counts>)
    requires giver != receiver
    ensures r.Keys == rows.Keys + {giver, receiver}
    ensures r[giver] == RowOf(rows, giver).(given := RowOf(rows, giver).given + 1)
    ensures r[receiver] == RowOf(rows, receiver).(received := RowOf(rows, receiver).received + 1)
    ensures forall id :: id in rows && id != giver && id != receiver ==> r[id] == rows[id]
  {
    var g := RowOf(rows, giver);
    var v := RowOf(rows, receiver);
    rows[giver := g.(given := g.given + 1)][receiver := v.(received := v.received + 1)]
  }

  ghost function Pick(m: map<UserId, int>): (k: UserId)
    requires |m| != 0
    ensures k in m
  {
    assert (forall k :: k !in m.Keys) ==> m.Keys == {};
    var k :| k in m.Keys; k
  }

  /** The sum of a column over all rows. */
  ghost function Total(m: map<UserId, int>): int
    decreases |m|
  {
    if |m| == 0 then 0
    else
      var k := Pick(m);
      m[k] + Total(m - {k})
  }

  function Givens(rows: map<UserId, Counts>): (m: map<UserId, int>)
    ensures m.Keys == rows.Keys
    ensures forall id :: id in rows ==> m[id] == rows[id].given
  {
    map id | id in rows :: rows[id].given
  }

  function Receiveds(rows: map<UserId, Counts>): (m: map<UserId, int>)
    ensures m.Keys == rows.Keys
    ensures forall id :: id in rows ==> m[id] == rows[id].received
  {
    map id | id in rows :: rows[id].received
  }

  /** Any row may be taken out of the sum first. */
  lemma {:induction false} TotalRemove(m: map<UserId, int>, k: UserId)
    requires k in m
    ensures Total(m) == m[k] + Total(m - {k})
    decreases |m|
  {
    var j := Pick(m);
    if j != k {
      TotalRemove(m - {j}, k);
      TotalRemove(m - {k}, j);
      assert m - {j} - {k} == m - {k} - {j};
    }
  }

  /** Setting one entry changes the sum by the difference, a missing entry
      counting as 0. */
  lemma TotalUpdate(m: map<UserId, int>, k: UserId, v: int)
    ensures Total(m[k := v]) == Total(m) - (if k in m then m[k] else 0) + v
  {
    TotalRemove(m[k := v], k);
    assert m[k := v] - {k} == m - {k};
    if k in m {
      TotalRemove(m, k);
    } else {
      assert m - {k} == m;
    }
  }

  /** Setting two different entries changes the sum by both differences. */
  lemma TotalUpdateTwice(m: map<UserId, int>, a: UserId, va: int, b: UserId, vb: int)
    requires a != b
    ensures Total(m[a := va][b := vb]) ==
      Total(m) - (if a in m then m[a] else 0) + va - (if b in m then m[b] else 0) + vb
  {
    TotalUpdate(m, a, va);
    TotalUpdate(m[a := va], b, vb);
  }

  /** The `given` column after an exchange: the giver's entry is one higher,
      the receiver's is present. */
  lemma GivensExchanged(rows: map<UserId, Counts>, giver: UserId, receiver: UserId)
    requires giver != receiver
    ensures Givens(Exchanged(rows, giver, receiver)) ==
      Givens(rows)[giver := RowOf(rows, giver).given + 1][receiver := RowOf(rows, receiver).given]
  {
    var after := Givens(Exchanged(rows, giver, receiver));
    var want := Givens(rows)[giver := RowOf(rows, giver).given + 1][receiver := RowOf(rows, receiver).given];
    assert after.Keys == want.Keys;
    forall k | k in after
      ensures after[k] == want[k]
    {
    }
  }

  /** The `received` column after an exchange: the receiver's entry is one
      higher, the giver's is present. */
  lemma ReceivedsExchanged(rows: map<UserId, Counts>, giver: UserId, receiver: UserId)
    requires giver != receiver
    ensures Receiveds(Exchanged(rows, giver, receiver)) ==
      Receiveds(rows)[giver := RowOf(rows, giver).received][receiver := RowOf(rows, receiver).received + 1]
  {
    var after := Receiveds(Exchanged(rows, giver, receiver));
    var want := Receiveds(rows)[giver := RowOf(rows, giver).received][receiver := RowOf(rows, receiver).received + 1];
    assert after.Keys == want.Keys;
    forall k | k in after
      ensures after[k] == want[k]
    {
    }
  }

  /** Every exchange adds exactly one to the sum of the `given` column. */
  lemma ExchangeAddsOneGiven(rows: map<UserId, Counts>, giver: UserId, receiver: UserId)
    requires giver != receiver
    ensures Total(Givens(Exchanged(rows, giver, receiver))) == Total(Givens(rows)) + 1
  {
    GivensExchanged(rows, giver, receiver);
    TotalUpdateTwice(Givens(rows), giver, RowOf(rows, giver).given + 1, receiver, RowOf(rows, receiver).given);
  }

  /** Every exchange adds exactly one to the sum of the `received` column. */
  lemma ExchangeAddsOneReceived(rows: map<UserId, Counts>, giver: UserId, receiver: UserId)
    requires giver != receiver
    ensures Total(Receiveds(Exchanged(rows, giver, receiver))) == Total(Receiveds(rows)) + 1
  {
    ReceivedsExchanged(rows, giver, receiver);
    TotalUpdateTwice(Receiveds(rows), giver, RowOf(rows, giver).received, receiver, RowOf(rows, receiver).received + 1);
  }

  /** Hence the total of counters given always equals the total received,
      if it did before. */
  lemma ExchangeBalances(rows: map<UserId, Counts>, giver: UserId, receiver: UserId)
    requires giver != receiver
    requires Total(Givens(rows)) == Total(Receiveds(rows))
    ensures Total(Givens(Exchanged(rows, giver, receiver))) == Total(Receiveds(Exchanged(rows, giver, receiver)))
  {
    ExchangeAddsOneGiven(rows, giver, receiver);
    ExchangeAddsOneReceived(rows, giver, receiver);
  }

  /** The author line of the reply: the user's counters through `pl`. */
  function Tally(c: Counts, word: string, inflector: Inflector): string
  {
    Miscellaneous.Pl(c.given, word, inflector) + " given - " + Miscellaneous.Pl(c.received, word, inflector) + " received"
  }

  class CounterTable {
    var rows: map<UserId, Counts>

    constructor (initial: map<UserId, Counts>)
      ensures rows == initial
    {
      rows := initial;
    }

    /** `Model[id] || Model.create(id: id)`: the row, inserted with its
        defaults when missing. */
    method FindOrCreate(id: UserId) returns (c: Counts)
      modifies this
      ensures rows == old(rows)[id := RowOf(old(rows), id)]
      ensures c == RowOf(old(rows), id)
    {
      if id !in rows {
        rows := rows[id := Fresh];
      }
      c := rows[id];
    }

    /** Find or create both rows, add one to each counter, save both. The
        giver's updated row is returned for the reply. */
    method Exchange(giver: UserId, receiver: UserId) returns (mine: Counts)
      requires giver != receiver
      modifies this
      ensures rows == Exchanged(old(rows), giver, receiver)
      ensures mine == rows[giver]
    {
      var giving := FindOrCreate(giver);
      var receiving := FindOrCreate(receiver);
      giving := giving.(given := giving.given + 1);
      receiving := receiving.(received := receiving.received + 1);
      rows := rows[giver := giving];
      rows := rows[receiver := receiving];
      mine := giving;
    }
  }

  /** A fun command: nothing happens unless the target resolves to a user
      other than the invoker; otherwise the counters are exchanged and the
      reply shows the invoker's updated counters. */
  method Command(table: CounterTable, invoker: UserId, target: Option<UserId>, word: string, inflector: Inflector)
    returns (reply: Option<string>)
    modifies table
    ensures target.None? || target.value == invoker ==> table.rows == old(table.rows) && reply.None?
    ensures target.Some? && target.value != invoker ==>
      && table.rows == Exchanged(old(table.rows), invoker, target.value)
      && reply == Some(Tally(table.rows[invoker], word, inflector))
  {
    if target.None? || target.value == invoker {
      return None;
    }
    var mine := table.Exchange(invoker, target.value);
    reply := Some(Tally(mine, word, inflector));
  }
}
