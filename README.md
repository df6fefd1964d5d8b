# Profile bot: store and conversation model

This is a Dafny model of the core of a Telegram bot that keeps user
profiles and payment records. The model has two parts.

- **The store** (`database.py`). It has two tables. `users` maps a platform
  user id to `(lang, name, address)`. `transactions` is an append-only list
  of rows `(id, user_id, bank, amount, date)`. `Store.Database` holds the
  tables as a `map` field and a `seq` field. Its methods follow the SQL
  statements exactly:
  - `INSERT OR REPLACE` resets a profile to the defaults.
  - Each `UPDATE … WHERE` changes one column of one row. It does nothing
    when the row is missing.
  - `SELECT … WHERE … ORDER BY date DESC` filters the rows and sorts them by
    the date text.
- **The conversation** (`main.py`). `Conversation.Bot` keeps each user's
  waiting state: waiting for a name, an address or a tracking item. Callback
  data from inline buttons is routed the way `callback_handler`'s
  `if`/`elif` chain routes it. A callback can:
  - put the user into one of the waiting states;
  - change the user's language;
  - ask for an item to be removed from tracking.

  The next text message is stripped and checked against the rule for the
  state the user is in:
  - name: at most 50 characters;
  - address: at most 200 characters;
  - tracking item: at most 50 characters, and alphanumeric.

  A reply that passes is committed and the wait ends. A reply that fails
  changes nothing, so the user is asked again.

Supporting modules:
- `Text` (text.dfy) has Python's `strip`, `split(sep)`, `split(sep, 1)` and
  `startswith`. It also has SQLite's text comparison for `ORDER BY` on a TEXT
  column.
- `Timestamps` (timestamps.dfy) has the `"%Y-%m-%d %H:%M:%S"` date format.
  It proves that sorting these texts gives chronological order.

Three things the proofs bring out about the code as written:
- The data of a `track_<item>` button is routed to a `remove_tracking_item`
  call for exactly `<item>`, even when the item contains underscores, because
  the handler splits only at the first `_` (`Conversation.TrackRoundTrip`).
  This is the routing only: as written, that call itself raises (see
  "## Left out").
- The main keyboard's language button sends `change_lang` (main.py:49). No
  branch of `callback_handler` handles it, so the user gets the "in
  development" answer (`Conversation.ChangeLangUnhandled`). The language
  keyboard `get_lang_kb` is never shown.
- `/start` registers a user only when the id is unknown, so it keeps an
  existing profile. An `add_user` call on a known id still wipes it, because
  `INSERT OR REPLACE` replaces the row (`Store.Database.AddUser`).

Not in this code:
- a rate limiter;
- confirmation steps;
- name-shape and minimum-length validators;
- bank usage counters and receipts;
- updates that create a missing user.

The model follows the code, so none of these is modelled.

## Model

| member | source | states |
|---|---|---|
| `Store.Database.constructor` | database.py:9-32 | on a fresh file, both tables are empty and the AUTOINCREMENT counter is at 1 |
| `Store.Database.Reopen` | database.py:9-32 | on an existing file, `CREATE TABLE IF NOT EXISTS` keeps every row and the counter as they were: any tables whose ids are positive, increasing and below the counter are taken over unchanged |
| `Store.Database.UserExists` | database.py:38-44 | true exactly when a row with that id exists; no modifies clause, so nothing changes |
| `Store.Database.AddUser` | database.py:46-55 | the row becomes lang `ru`, empty name, empty address, even if it existed before; the other rows and the transactions are unchanged |
| `Store.Database.GetUser` | database.py:57-63 | `None` exactly when there is no row, else that row's `(lang, name, address)`; changes nothing |
| `Store.ExistsAgreesWithGet` | database.py:38-63 | `user_exists(id)` and `get_user(id) is not None` give the same answer |
| `Store.Database.UpdateName` | database.py:65-71 | an existing row gets the new name and keeps its lang and address; other rows and the transactions are unchanged; an absent id leaves everything unchanged |
| `Store.Database.UpdateAddress` | database.py:73-79 | the same as UpdateName, for the address column only |
| `Store.Database.UpdateLang` | database.py:81-87 | the same as UpdateName, for the lang column only |
| `Store.Database.AddTransaction` | database.py:89-99 | appends exactly one row `(next id, user, bank, amount, now)`; users unchanged; no check that the user exists; ids stay increasing |
| `Store.Database.GetTransactions` | database.py:101-107 | the result is the user's rows as a multiset; a row appears exactly when some transaction of that user projects to it; sorted by date text and chronologically, newest first; empty exactly when the user has no transactions |
| `Store.RowsOf` | database.py:104 | `WHERE user_id = u` in table order; never selects more rows than the table has (membership: `RowsOfMembers`, emptiness: `RowsOfEmpty`) |
| `Store.Insert` | database.py:104 | one step of the `ORDER BY … DESC` sort: the result holds the new row and is one longer (contents: `InsertPermutes`, order: `InsertSorted`) |
| `Store.SortDesc` | database.py:104 | `ORDER BY key DESC`, as an insertion sort; keeps the number of rows (permutation: `SortPermutes`, order: `SortSorted`) |
| `Store.Query` | database.py:104-107 | the rows `get_transactions(u)` returns: exactly the selected rows as a multiset, in non-increasing date text and newest first |
| `Store.RowsOfMembers` | database.py:104 | a row is selected by `WHERE user_id = u` exactly when a transaction of `u` projects to it |
| `Store.RowsOfEmpty` | database.py:104-107 | the selection is empty exactly when no transaction belongs to `u` |
| `Store.RowsOfAppend` | database.py:93-96 | an appended transaction adds its row to its owner's selection and to no other user's |
| `Store.AddThenQuery` | database.py:89-107 | after `add_transaction`, `get_transactions` of the owner gains exactly the new row; every other user's result is unchanged |
| `Store.InsertPermutes` | database.py:104 | inserting a row into the ordered result adds exactly that row |
| `Store.InsertSorted` | database.py:104 | inserting into a result sorted descending by key keeps it sorted |
| `Store.SortPermutes` | database.py:104 | `ORDER BY` returns a permutation of the selected rows |
| `Store.SortSorted` | database.py:104 | `ORDER BY … DESC` returns the rows in non-increasing key order |
| `Store.TextOrderIsChronological` | database.py:104 | rows sorted by date text descending are sorted newest first |
| `Timestamps.Format` | database.py:92 | `strftime("%Y-%m-%d %H:%M:%S")` text is 19 characters long |
| `Timestamps.Pad2` | database.py:92 | a two-digit zero-padded field (`%m`, `%d`, `%H`, `%M`, `%S`) is two characters wide (order and injectivity: `Pad2Order`) |
| `Timestamps.Pad4` | database.py:92 | the four-digit `%Y` field is four characters wide (order and injectivity: `Pad4Order`) |
| `Timestamps.ChronoLe` | database.py:92 | time order on readings: year, then month, day, hour, minute, second; the order `FormatOrder` compares text order with |
| `Timestamps.Pad2Order` | database.py:92 | two-digit zero-padded fields compare as text exactly as they compare as numbers, and the text fixes the number |
| `Timestamps.Pad4Order` | database.py:92 | the same for the four-digit year |
| `Timestamps.DigitOrder` | database.py:92 | one decimal digit compares as text exactly as it compares as a number |
| `Timestamps.FormatOrder` | database.py:104 | comparing two formatted dates as text is exactly comparing them chronologically |
| `Timestamps.FormatInjective` | database.py:92 | two timestamps have the same text exactly when they are equal |
| `Text.LexLe` | database.py:104 | SQLite's BINARY collation on the `date` TEXT column: the first differing character decides, and a proper prefix sorts first (order laws: `LexLeRefl` to `LexLeConcat`) |
| `Text.LexLeRefl` | database.py:104 | SQLite text comparison is reflexive |
| `Text.LexLeAntisym` | database.py:104 | it is antisymmetric |
| `Text.LexLeTrans` | database.py:104 | it is transitive |
| `Text.LexLeTotal` | database.py:104 | it is total |
| `Text.LexLeConcat` | database.py:104 | texts that start with prefixes of equal width compare by the prefix first, and by the rest only on a tie |
| `Text.IsSpace` | main.py:174 | the characters `str.strip()` removes: exactly the code points Python's `str.isspace()` accepts |
| `Text.TrimStart` | main.py:174 | `lstrip()`, the first half of `strip()` (its contract: `TrimStartSpec`) |
| `Text.TrimEnd` | main.py:174 | `rstrip()`, the second half of `strip()` (its contract: `TrimEndSpec`) |
| `Text.Strip` | main.py:174 | `str.strip()`, used on every text reply (its contract: `StripSpec`, `StripIdempotent`, `StripBlank`) |
| `Text.TrimStartSpec` | main.py:174 | leading strip removes a prefix that is all whitespace, and all of it |
| `Text.TrimEndSpec` | main.py:174 | trailing strip removes a suffix that is all whitespace, and all of it |
| `Text.StripSpec` | main.py:174 | `strip()` returns a slice of the text with only whitespace outside it and no whitespace at either end |
| `Text.StripUnpadded` | main.py:174 | text without whitespace at either end strips to itself |
| `Text.StripIdempotent` | main.py:174 | stripping twice is stripping once |
| `Text.StripBlank` | main.py:198 | all-whitespace text strips to the empty string |
| `Text.StartsWith` | main.py:131 | `str.startswith`, as in the `lang_` and `track_` tests (main.py:131, main.py:155): the text begins with the prefix |
| `Text.Split` | main.py:132 | `split("_")` yields at least one field, and no field contains the separator |
| `Text.JoinSplit` | main.py:132 | joining the fields of a split with the separator gives back the text |
| `Text.SplitJoin` | main.py:132 | splitting the join of separator-free fields gives back the fields |
| `Text.SplitAfter` | main.py:132 | the split of `p + "_" + q`, where `p` has no separator, is `p` followed by the split of `q` |
| `Text.SplitNone` | main.py:132 | text without the separator splits into itself |
| `Text.IndexOf` | main.py:156 | the position found holds the separator and nothing before it does |
| `Text.SplitOnce` | main.py:156 | `split("_", 1)` gives two fields exactly when the separator occurs; the first field has no separator; joining gives back the text |
| `Text.IndexOfAfter` | main.py:156 | in `p + "_" + q` with no separator in `p`, the first separator is right after `p` |
| `Text.SplitOnceAfter` | main.py:156 | `split("_", 1)` of `p + "_" + q` is `[p, q]` whatever `q` contains |
| `Conversation.Classify` | main.py:110-169 | the `if`/`elif` chain of `callback_handler`: the first test that holds, in the source's order, picks the branch; `lang_` carries the second `_`-field and `track_` everything after the first `_` (routing facts: `TrackRoundTrip`, `LangCode`, `AddTrackingRoute`, `ChangeLangUnhandled`) |
| `Conversation.TrackButton` | main.py:147 | the callback data `f"track_{item}"` of an item's button (routed back by `TrackRoundTrip`) |
| `Conversation.Awaited` | main.py:116-122 | the waiting state `set_name`, `set_address` and `add_tracking` (main.py:151-153) enter; every other branch enters none (used by `Bot.HandleCallback`) |
| `Conversation.IsAlnum` | main.py:200 | `str.isalnum()`: non-empty, and every character alphanumeric under the bot's per-character classification |
| `Conversation.Accepts` | main.py:176 | the three reply rules: a name of at most 50 characters, an address of at most 200 (main.py:188), a tracking item of at most 50 that is alphanumeric (main.py:200) (consequences: `BlankItemRejected`, `AcceptedIsTrimmed`) |
| `Conversation.TrackRoundTrip` | main.py:146-157 | the callback data built for an item's button is routed to removing exactly that item |
| `Conversation.TrackingMenuRoutes` | main.py:146-147 | every item button of the tracking menu removes its own item |
| `Conversation.AddTrackingRoute` | main.py:148-153 | the menu's last button asks for a new tracking item |
| `Conversation.LangCode` | main.py:131-133 | `lang_<code>` selects the second `_`-separated field; with no further underscore that field is all of `<code>` |
| `Conversation.ChangeLangUnhandled` | main.py:49 | the main keyboard's `change_lang` data reaches no branch, so it gets the "in development" answer |
| `Conversation.BlankItemRejected` | main.py:198-201 | an empty or all-whitespace reply is never accepted as a tracking item, because `isalnum` is false on `""` |
| `Conversation.AcceptedIsTrimmed` | main.py:174-176 | an accepted reply has no whitespace at its ends, stays within its state's length limit, and is unchanged by a second strip |
| `Conversation.TrackingButtons` | main.py:142-149 | one `track_<item>` button per tracked item, in order, then the `add_tracking` button |
| `Conversation.Bot.constructor` | main.py:19-23 | no user is waiting for input and no tracking call has been made |
| `Conversation.Bot.Start` | main.py:73-98 | an unknown id gets the default profile; a known profile is kept unchanged; the greeting is in the user's language |
| `Conversation.Bot.HandleCallback` | main.py:100-169 | an unknown user changes nothing and gets "user not found"; `set_name`, `set_address` and `add_tracking` set the matching waiting state without touching the store; `lang_<x>` sets that user's lang to the selected field and nothing else; `track_<item>` issues one removal of that item; the other branches change nothing; assumes the tracking calls return (see "## Left out") |
| `Conversation.Bot.SetName` | main.py:171-181 | a stripped reply longer than 50 characters leaves the state and the store unchanged; otherwise the stripped text becomes the name and the wait ends; a user with no row changes nothing |
| `Conversation.Bot.SetAddress` | main.py:183-193 | the same rule with a limit of 200, on the address |
| `Conversation.Bot.SetTrackingItem` | main.py:195-205 | a reply is taken exactly when its stripped text is at most 50 characters and alphanumeric; then one `add_tracking_item` call is made and the wait ends, assuming that call returns (see "## Left out"); otherwise nothing changes |
| `Conversation.Bot.HandleText` | main.py:171-205 | text from a user in no waiting state is ignored; otherwise the rule of the user's state decides: on rejection the state and everything else stay; on acceptance only the field of that state is written and the wait ends; only registered users ever wait |

## Left out

- SQLite connections, commits, `close()` and the `[DEBUG]` prints (database.py:34-36, database.py:109-111) are I/O plumbing. The tables are fields of the `Database` object.
- `amount` is a REAL column. It is an `int` here, and nothing computes with it.
- `datetime.now()` is the parameter `now` of `AddTransaction`. A reading is a valid date and time with a four-digit year (1000 to 9999). For years below 1000, `%Y` may not be zero-padded.
- Store.Database.AddTransaction: assumes that the clock returns a valid reading. Nothing is claimed about clocks that go backwards: the order proved is the order of the stored dates.
- SQLite leaves rows with equal dates in no fixed order. The model uses one particular order, an insertion sort. Every claim about `GetTransactions` is a property any conforming order has: it is a permutation of the selected rows, sorted newest first.
- `add_tracking_item`, `get_tracking_items` and `remove_tracking_item` are called by main.py but are not defined in database.py. The bot records each call it makes instead (`trackingCalls`). The list that `get_tracking_items` returns is a parameter of `HandleCallback`.
- Conversation.Bot.HandleCallback: assumes `get_tracking_items` and `remove_tracking_item` return normally. As written, `Database` (database.py:4-111) has no such methods, so main.py:143 and main.py:157 raise AttributeError: the `tracking` callback sends no menu and `track_<item>` sends no answer.
- Conversation.Bot.SetTrackingItem: assumes `add_tracking_item` returns normally. As written, main.py:203 raises AttributeError, so `delete_state` (main.py:204) is never reached and the user stays in `waiting_for_tracking_item` after an accepted item.
- Conversation.Bot.HandleText: inherits the assumption of `SetTrackingItem` for the tracking-item state.
- Python's Unicode-aware `str.isalnum()` is a parameter of the bot (`isAlnum`, one character at a time). `str.isspace()` is written out as Python's set of whitespace code points. `len` is the sequence length, since strings are sequences of code points.
- main.py:23 passes a file path to `Database`, whose constructor (database.py:5) takes none. So the call raises TypeError, which main.py:25-27 logs and re-raises, and the bot as written stops before it starts polling. The model's constructor takes no path and models the store as if construction succeeded.
- Locale files, message texts, profile formatting, keyboard layout (main.py:36-70, keyboards.py) and all transport calls are left out. Each handler returns a `Reply` naming the message it would send. The model keeps only the callback data of the tracking menu's buttons.
- Command routing is left out. The caller chooses `Start` for `/start` and `HandleText` for other text.
- Store.Database.constructor: covers a fresh `users.db` only. A reopened file keeps its rows and its counter; that case is `Store.Database.Reopen`, which takes any state allowed by `Valid()`, and every method is specified for any such state.
- Concurrency is left out. `telebot.TeleBot(token)` (main.py:19) runs handlers on worker threads by default, so two updates of one user can interleave: a `set_name` reply still in flight can run its `delete_state` (main.py:180) after a `set_address` tap has set the address wait, and clear it. The model runs every handler as one atomic step.
- Integer width is left out. SQLite INTEGER ids are 64-bit, and Python's sqlite3 raises OverflowError for larger values. Ids and the transaction counter are unbounded `int` here.
- Telebot also keys the waiting state by chat. The model keys it by user only, as in a private chat.
- main.py never registers telebot's state filter (`add_custom_filter`), which the library needs before `state=` handlers fire. The model assumes the state routing works as the handlers intend.
- The `raise` after `get_user` in `/start` (main.py:82-83) cannot happen, because the user was just added. The model has no branch for it.
- In the text handlers, a user with no row raises on `None["lang"]` (main.py:175). This is the reply `Crashed`, with no state change. Under the bot's invariant it cannot happen through `HandleText`.
- Telegram's 64-byte limit on callback data is left out. It can reject `track_<item>` buttons for long non-ASCII items.
- Errors caught in `/start` (main.py:96-98) and missing locale keys are left out.
