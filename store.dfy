/** The bot's persistent store: a `users` table keyed by the platform's
    user id and an append-only `transactions` table, with the SQL semantics
    of the statements in database.py. The SQLite connection is not
    modelled; the two tables are the fields of a `Database` object. */
module Store {
  import opened Text
  import opened Timestamps

  datatype Option<T> = None | Some(value: T)

  /** A row of `users` without its key: `(lang, name, address)`. */
  datatype User = User(lang: string, name: string, address: string)

  /** What `INSERT OR REPLACE … VALUES (?, 'ru', '', '')` writes. */
  const DEFAULT_USER := User("ru", "", "")

  /** A row of `transactions`. `amount` stands for the REAL column; nothing
      here computes with it. */
  datatype Tx = Tx(id: int, userId: int, bank: string, amount: int, date: Timestamp)

  /** A row of `SELECT bank, amount, date FROM transactions`; the date column
      holds the text `Format(date)`. */
  datatype TxRow = TxRow(bank: string, amount: int, date: Timestamp)

  function Project(t: Tx): TxRow {
    TxRow(t.bank, t.amount, t.date)
  }

  /** `WHERE user_id = u`, projected, in table order. */
  function RowsOf(txs: seq<Tx>, u: int): (rows: seq<TxRow>)
    ensures |rows| <= |txs|
  {
    if txs == [] then []
    else (if txs[0].userId == u then [Project(txs[0])] else []) + RowsOf(txs[1..], u)
  }

  /** The text the `date` column holds for a row. */
  function DateText(r: TxRow): string {
    Format(r.date)
  }

  /** Rows in non-increasing order of their `key` text. */
  ghost predicate SortedDesc(rows: seq<TxRow>, key: TxRow -> string) {
    forall i, j :: 0 <= i < j < |rows| ==> LexLe(key(rows[j]), key(rows[i]))
  }

  /** `ORDER BY date DESC`: later date texts first. */
  ghost predicate SortedByDateDesc(rows: seq<TxRow>) {
    SortedDesc(rows, DateText)
  }

  /** Most recent first, in chronological terms. */
  ghost predicate NewestFirst(rows: seq<TxRow>) {
    forall i, j :: 0 <= i < j < |rows| ==> ChronoLe(rows[j].date, rows[i].date)
  }

  /** Puts `r` in front of the first row whose key is not above its own. */
  function Insert(r: TxRow, rows: seq<TxRow>, key: TxRow -> string): (out: seq<TxRow>)
    ensures |out| == |rows| + 1 && r in out
  {
    if rows == [] then [r]
    else if LexLe(key(rows[0]), key(r)) then [r] + rows
    else [rows[0]] + Insert(r, rows[1..], key)
  }

  /** Sorts by `key`, largest first (an insertion sort). */
  function SortDesc(rows: seq<TxRow>, key: TxRow -> string): (out: seq<TxRow>)
    ensures |out| == |rows|
  {
    if rows == [] then [] else Insert(rows[0], SortDesc(rows[1..], key), key)
  }

  /** The result of `get_transactions(u)` over the table `txs`. */
  function Query(txs: seq<Tx>, u: int): (rows: seq<TxRow>)
    ensures multiset(rows) == multiset(RowsOf(txs, u))
    ensures SortedByDateDesc(rows) && NewestFirst(rows)
  {
    SortPermutes(RowsOf(txs, u), DateText);
    SortSorted(RowsOf(txs, u), DateText);
    TextOrderIsChronological(SortDesc(RowsOf(txs, u), DateText));
    SortDesc(RowsOf(txs, u), DateText)
  }

  lemma {:induction false} InsertPermutes(r: TxRow, rows: seq<TxRow>, key: TxRow -> string)
    ensures multiset(Insert(r, rows, key)) == multiset(rows) + multiset{r}
  {
    if rows != [] && !LexLe(key(rows[0]), key(r)) {
      InsertPermutes(r, rows[1..], key);
      assert rows == [rows[0]] + rows[1..];
    }
  }

  lemma {:induction false} InsertSorted(r: TxRow, rows: seq<TxRow>, key: TxRow -> string)
    requires SortedDesc(rows, key)
    ensures SortedDesc(Insert(r, rows, key), key)
  {
    if rows == [] {
    } else if LexLe(key(rows[0]), key(r)) {
      var s := [r] + rows;
      forall i, j | 0 <= i < j < |s| ensures LexLe(key(s[j]), key(s[i])) {
        if i == 0 && j > 1 {
          LexLeTrans(key(rows[j - 1]), key(rows[0]), key(r));
        }
      }
    } else {
      LexLeTotal(key(rows[0]), key(r));
      var tail := Insert(r, rows[1..], key);
      InsertSorted(r, rows[1..], key);
      InsertPermutes(r, rows[1..], key);
      var s := [rows[0]] + tail;
      forall i, j | 0 <= i < j < |s| ensures LexLe(key(s[j]), key(s[i])) {
        if i == 0 {
          var x := s[j];
          assert x in multiset(tail);
          assert x == r || x in multiset(rows[1..]);
          if x != r {
            var k :| 1 <= k < |rows| && rows[k] == x;
          }
        }
      }
    }
  }

  lemma {:induction false} SortPermutes(rows: seq<TxRow>, key: TxRow -> string)
    ensures multiset(SortDesc(rows, key)) == multiset(rows)
  {
    if rows != [] {
      SortPermutes(rows[1..], key);
      InsertPermutes(rows[0], SortDesc(rows[1..], key), key);
      assert rows == [rows[0]] + rows[1..];
    }
  }

  lemma {:induction false} SortSorted(rows: seq<TxRow>, key: TxRow -> string)
    ensures SortedDesc(SortDesc(rows, key), key)
  {
    if rows != [] {
      SortSorted(rows[1..], key);
      InsertSorted(rows[0], SortDesc(rows[1..], key), key);
    }
  }

  /** Descending text order is descending chronological order. */
  lemma TextOrderIsChronological(rows: seq<TxRow>)
    requires SortedByDateDesc(rows)
    ensures NewestFirst(rows)
  {
    forall i, j | 0 <= i < j < |rows| ensures ChronoLe(rows[j].date, rows[i].date) {
      FormatOrder(rows[j].date, rows[i].date);
    }
  }

  /** A row is selected exactly when some transaction of `u` projects to it. */
  lemma {:induction false} RowsOfMembers(txs: seq<Tx>, u: int, r: TxRow)
    ensures r in RowsOf(txs, u) <==> exists i :: 0 <= i < |txs| && txs[i].userId == u && Project(txs[i]) == r
  {
    if txs != [] {
      RowsOfMembers(txs[1..], u, r);
      if r in RowsOf(txs[1..], u) {
        var i :| 0 <= i < |txs[1..]| && txs[1..][i].userId == u && Project(txs[1..][i]) == r;
        assert txs[i + 1] == txs[1..][i];
      }
      forall i | 1 <= i < |txs| && txs[i].userId == u && Project(txs[i]) == r
        ensures r in RowsOf(txs[1..], u)
      {
        assert txs[1..][i - 1] == txs[i];
      }
    }
  }

  /** One selected row per transaction of `u`. */
  lemma {:induction false} RowsOfEmpty(txs: seq<Tx>, u: int)
    ensures RowsOf(txs, u) == [] <==> forall i :: 0 <= i < |txs| ==> txs[i].userId != u
  {
    if txs != [] {
      RowsOfEmpty(txs[1..], u);
      assert forall i :: 1 <= i < |txs| ==> txs[i] == txs[1..][i - 1];
    }
  }

  /** Appending a transaction adds its row to its owner's selection and to no other. */
  lemma {:induction false} RowsOfAppend(txs: seq<Tx>, t: Tx, u: int)
    ensures RowsOf(txs + [t], u) == RowsOf(txs, u) + (if t.userId == u then [Project(t)] else [])
  {
    if txs == [] {
      assert [t][1..] == [];
    } else {
      assert (txs + [t])[1..] == txs[1..] + [t];
      RowsOfAppend(txs[1..], t, u);
    }
  }

  /** The two tables. `nextTxId` is SQLite's AUTOINCREMENT counter for `transactions.id`. */
  class Database {
    var users: map<int, User>
    var txs: seq<Tx>
    var nextTxId: int

    /** Transaction ids are positive, increase along the table and stay below the counter. */
    ghost predicate Valid()
      reads this
    {
      nextTxId >= 1 &&
      (forall i :: 0 <= i < |txs| ==> 1 <= txs[i].id < nextTxId) &&
      (forall i, j :: 0 <= i < j < |txs| ==> txs[i].id < txs[j].id)
    }

    /** `_init_db` on a fresh database file: both tables exist and are empty. */
    constructor ()
      ensures Valid()
      ensures users == map[] && txs == [] && nextTxId == 1
    {
      users := map[];
      txs := [];
      nextTxId := 1;
    }

    /** `_init_db` on an existing database file: `CREATE TABLE IF NOT EXISTS`
        keeps every row and the AUTOINCREMENT counter of the file, which is
        any state the invariant allows. */
    constructor Reopen(users0: map<int, User>, txs0: seq<Tx>, nextTxId0: int)
      requires nextTxId0 >= 1
      requires forall i :: 0 <= i < |txs0| ==> 1 <= txs0[i].id < nextTxId0
      requires forall i, j :: 0 <= i < j < |txs0| ==> txs0[i].id < txs0[j].id
      ensures Valid()
      ensures users == users0 && txs == txs0 && nextTxId == nextTxId0
    {
      users := users0;
      txs := txs0;
      nextTxId := nextTxId0;
    }

    /** `SELECT 1 FROM users WHERE user_id = ?`. */
    method UserExists(id: int) returns (b: bool)
      ensures b <==> id in users
    {
      b := id in users;
    }

    /** `INSERT OR REPLACE … VALUES (?, 'ru', '', '')`: a fresh default row,
        replacing any previous profile of that id. */
    method AddUser(id: int)
      requires Valid()
      modifies this
      ensures Valid()
      ensures users == old(users)[id := DEFAULT_USER]
      ensures txs == old(txs) && nextTxId == old(nextTxId)
    {
      users := users[id := DEFAULT_USER];
    }

    /** `SELECT lang, name, address FROM users WHERE user_id = ?`; `None` when there is no row. */
    method GetUser(id: int) returns (r: Option<User>)
      ensures r.Some? <==> id in users
      ensures r.Some? ==> r.value == users[id]
    {
      r := if id in users then Some(users[id]) else None;
    }

    /** `UPDATE users SET name = ? WHERE user_id = ?`. */
    method UpdateName(id: int, name: string)
      requires Valid()
      modifies this
      ensures Valid()
      ensures users == if id in old(users) then old(users)[id := old(users)[id].(name := name)] else old(users)
      ensures txs == old(txs) && nextTxId == old(nextTxId)
    {
      if id in users {
        users := users[id := users[id].(name := name)];
      }
    }

    /** `UPDATE users SET address = ? WHERE user_id = ?`. */
    method UpdateAddress(id: int, address: string)
      requires Valid()
      modifies this
      ensures Valid()
      ensures users == if id in old(users) then old(users)[id := old(users)[id].(address := address)] else old(users)
      ensures txs == old(txs) && nextTxId == old(nextTxId)
    {
      if id in users {
        users := users[id := users[id].(address := address)];
      }
    }

    /** `UPDATE users SET lang = ? WHERE user_id = ?`. */
    method UpdateLang(id: int, lang: string)
      requires Valid()
      modifies this
      ensures Valid()
      ensures users == if id in old(users) then old(users)[id := old(users)[id].(lang := lang)] else old(users)
      ensures txs == old(txs) && nextTxId == old(nextTxId)
    {
      if id in users {
        users := users[id := users[id].(lang := lang)];
      }
    }

    /** `INSERT INTO transactions (user_id, bank, amount, date)`, with `now`
        standing for `datetime.now()`. No check that the user exists. */
    method AddTransaction(userId: int, bank: string, amount: int, now: Timestamp)
      requires Valid()
      modifies this
      ensures Valid()
      ensures txs == old(txs) + [Tx(old(nextTxId), userId, bank, amount, now)]
      ensures nextTxId == old(nextTxId) + 1
      ensures users == old(users)
    {
      txs := txs + [Tx(nextTxId, userId, bank, amount, now)];
      nextTxId := nextTxId + 1;
    }

    /** `SELECT bank, amount, date FROM transactions WHERE user_id = ? ORDER BY date DESC`. */
    method GetTransactions(userId: int) returns (rows: seq<TxRow>)
      ensures multiset(rows) == multiset(RowsOf(txs, userId))
      ensures forall r :: r in rows <==>
        exists i :: 0 <= i < |txs| && txs[i].userId == userId && Project(txs[i]) == r
      ensures SortedByDateDesc(rows) && NewestFirst(rows)
      ensures rows == [] <==> forall i :: 0 <= i < |txs| ==> txs[i].userId != userId
    {
      rows := Query(txs, userId);
      SortPermutes(RowsOf(txs, userId), DateText);
      SortSorted(RowsOf(txs, userId), DateText);
      TextOrderIsChronological(rows);
      RowsOfEmpty(txs, userId);
      forall r ensures r in rows <==> r in RowsOf(txs, userId) {
        assert r in rows <==> r in multiset(rows);
      }
      forall r ensures r in RowsOf(txs, userId) <==>
        exists i :: 0 <= i < |txs| && txs[i].userId == userId && Project(txs[i]) == r
      {
        RowsOfMembers(txs, userId, r);
      }
    }
  }

  /** `user_exists(id)` and `get_user(id) is not None` agree, and neither changes the tables. */
  method ExistsAgreesWithGet(db: Database, id: int) returns (present: bool, found: bool)
    ensures present == found
  {
    present := db.UserExists(id);
    var r := db.GetUser(id);
    found := r.Some?;
  }

  /** `add_transaction(u, …)` then `get_transactions(u)` returns the new row
      among the old ones; the other users' results do not change. */
  lemma AddThenQuery(txs: seq<Tx>, t: Tx, u: int)
    ensures multiset(Query(txs + [t], u)) ==
      multiset(Query(txs, u)) + (if t.userId == u then multiset{Project(t)} else multiset{})
  {
    RowsOfAppend(txs, t, u);
    SortPermutes(RowsOf(txs + [t], u), DateText);
    SortPermutes(RowsOf(txs, u), DateText);
  }
}
