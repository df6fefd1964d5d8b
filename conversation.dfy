/** The bot's conversation logic of main.py: the per-user waiting states,
    the routing of inline-button callback data, and the three free-text
    handlers that validate a reply and commit it to the store. Transport
    calls (sending and editing messages) are left out; each handler returns
    a `Reply` that says which message it would send. */
module Conversation {
  import opened Text
  import opened Store

  /** `ProfileStates`: what the next free-text message of a user is taken as. */
  datatype WaitState = WaitingForName | WaitingForAddress | WaitingForTrackingItem

  /** The branch of `callback_handler` a callback data string selects. */
  datatype Callback =
    | EditProfile                   // "edit_profile"
    | AskName                       // "set_name"
    | AskAddress                    // "set_address"
    | ShowAddress                   // "show_address"
    | Instruction                   // "instruction"
    | ChooseLang(code: string)      // "lang_<code>"
    | ListTracking                  // "tracking"
    | AskTrackingItem               // "add_tracking"
    | RemoveTracking(item: string)  // "track_<item>"
    | ViewProfile                   // "view_profile"
    | Unknown                       // anything else

  /** The `if`/`elif` chain of `callback_handler`, with its conditions in the source's order. */
  function Classify(data: string): Callback {
    if data == "edit_profile" then EditProfile
    else if data == "set_name" then AskName
    else if data == "set_address" then AskAddress
    else if data == "show_address" then ShowAddress
    else if data == "instruction" then Instruction
    else if StartsWith(data, "lang_") then
      // data.split("_")[1]
      assert data == "lang" + ['_'] + data[5..];
      SplitAfter("lang", data[5..], '_');
      ChooseLang(Split(data, '_')[1])
    else if data == "tracking" then ListTracking
    else if data == "add_tracking" then AskTrackingItem
    else if StartsWith(data, "track_") then
      // data.split("_", 1)[1]
      assert data[5] == '_';
      RemoveTracking(SplitOnce(data, '_')[1])
    else if data == "view_profile" then ViewProfile
    else Unknown
  }

  /** The callback data of the button that removes `item` from tracking. */
  function TrackButton(item: string): string {
    "track_" + item
  }

  /** Pressing the button built for `item` removes exactly `item`, whatever it contains. */
  lemma TrackRoundTrip(item: string)
    ensures Classify(TrackButton(item)) == RemoveTracking(item)
  {
    var data := TrackButton(item);
    assert data[0] == 't' && data[5] == '_';
    assert "tracking"[5] == 'i';
    assert data == "track" + ['_'] + item;
    SplitOnceAfter("track", item, '_');
  }

  /** A `lang_` callback selects the text up to the next underscore; with
      none, everything after `lang_`. */
  lemma LangCode(code: string)
    ensures Classify("lang_" + code) == ChooseLang(Split(code, '_')[0])
    ensures '_' !in code ==> Classify("lang_" + code) == ChooseLang(code)
  {
    var data := "lang_" + code;
    assert data[0] == 'l';
    assert data != "edit_profile" && data != "set_name" && data != "set_address" &&
           data != "show_address" && data != "instruction" by {
      assert "edit_profile"[0] == 'e' && "set_name"[0] == 's' && "set_address"[0] == 's' &&
             "show_address"[0] == 's' && "instruction"[0] == 'i';
    }
    assert StartsWith(data, "lang_");
    assert data == "lang" + ['_'] + code;
    SplitAfter("lang", code, '_');
    if '_' !in code {
      SplitNone(code, '_');
    }
  }

  /** Every item button of the tracking menu removes its own item. */
  lemma TrackingMenuRoutes(items: seq<string>)
    ensures forall i :: 0 <= i < |items| ==> Classify(TrackButton(items[i])) == RemoveTracking(items[i])
  {
    forall i | 0 <= i < |items| ensures Classify(TrackButton(items[i])) == RemoveTracking(items[i]) {
      TrackRoundTrip(items[i]);
    }
  }

  /** The last button of the tracking menu asks for a new item. */
  lemma AddTrackingRoute()
    ensures Classify("add_tracking") == AskTrackingItem
  {
    var data := "add_tracking";
    assert data[0] == 'a';
    assert data != "edit_profile" && data != "set_name" && data != "set_address" &&
           data != "show_address" && data != "instruction" by {
      assert "edit_profile"[0] == 'e' && "set_name"[0] == 's' && "set_address"[0] == 's' &&
             "show_address"[0] == 's' && "instruction"[0] == 'i';
    }
    assert !StartsWith(data, "lang_") by { assert data[..5][0] == 'a'; }
    assert data != "tracking" by { assert |"tracking"| == 8; }
  }

  /** The main keyboard's language button sends `change_lang`, which no branch handles. */
  lemma ChangeLangUnhandled()
    ensures Classify("change_lang") == Unknown
  {
    assert "change_lang"[0] == 'c';
    assert !StartsWith("change_lang", "lang_") by { assert "change_lang"[..5] != "lang_"; }
    assert !StartsWith("change_lang", "track_") by { assert "change_lang"[..6] != "track_"; }
  }

  /** The waiting state a callback puts its user into, if any. */
  function Awaited(cb: Callback): Option<WaitState> {
    match cb
    case AskName => Some(WaitingForName)
    case AskAddress => Some(WaitingForAddress)
    case AskTrackingItem => Some(WaitingForTrackingItem)
    case _ => None
  }

  const MAX_NAME_LENGTH := 50
  const MAX_ADDRESS_LENGTH := 200
  const MAX_TRACKING_ITEM_LENGTH := 50

  /** Python's `str.isalnum()`, given the per-character classification
      `alnum`: true for a non-empty string of alphanumeric characters. */
  predicate IsAlnum(s: string, alnum: char -> bool) {
    |s| > 0 && forall k :: 0 <= k < |s| ==> alnum(s[k])
  }

  /** Whether the (already stripped) reply `t` is taken in waiting state `w`. */
  predicate Accepts(w: WaitState, t: string, alnum: char -> bool) {
    match w
    case WaitingForName => |t| <= MAX_NAME_LENGTH
    case WaitingForAddress => |t| <= MAX_ADDRESS_LENGTH
    case WaitingForTrackingItem => |t| <= MAX_TRACKING_ITEM_LENGTH && IsAlnum(t, alnum)
  }

  /** A blank reply is never a tracking item, whatever counts as alphanumeric. */
  lemma BlankItemRejected(text: string, alnum: char -> bool)
    requires forall k :: 0 <= k < |text| ==> IsSpace(text[k])
    ensures !Accepts(WaitingForTrackingItem, Strip(text), alnum)
  {
    StripBlank(text);
  }

  /** Every accepted reply is trimmed and within the state's length limit. */
  lemma AcceptedIsTrimmed(w: WaitState, text: string, alnum: char -> bool)
    requires Accepts(w, Strip(text), alnum)
    ensures Strip(text) != [] ==> !IsSpace(Strip(text)[0]) && !IsSpace(Strip(text)[|Strip(text)| - 1])
    ensures |Strip(text)| <= MAX_ADDRESS_LENGTH
    ensures w != WaitingForAddress ==> |Strip(text)| <= MAX_NAME_LENGTH
    ensures Strip(Strip(text)) == Strip(text)
  {
    StripSpec(text);
    StripIdempotent(text);
  }

  /** A call into the tracking-item functions of the store, which are not
      part of this model; the bot records each call it makes and carries on
      as if the call returned. */
  datatype TrackingCall = AddTrackingItem(user: int, item: string) | RemoveTrackingItem(user: int, item: string)

  /** The message a handler sends. */
  datatype Reply =
    | Welcome(lang: string)              // /start: greeting in the user's language
    | UserNotFound                       // callback from an id with no row
    | EditMenu                           // "change name" / "change address" buttons
    | Prompt(awaits: WaitState)          // "enter name" / "enter address" / "enter tracking item"
    | AddressCard                        // the fixed warehouse address
    | InstructionText
    | LangChanged(lang: string)
    | TrackingMenu(buttons: seq<string>) // callback data of the buttons, in order
    | ItemRemoved(item: string)
    | Profile(user: User)
    | NotImplemented                     // "this function is in development"
    | Rejected(awaits: WaitState)        // reply failed the rule; asked again
    | Saved(field: WaitState)
    | Crashed                            // text handler whose user has no row (None["lang"])
    | Ignored                            // text from a user in no waiting state

  /** The buttons of the tracking menu: one per tracked item, then "add". */
  method TrackingButtons(items: seq<string>) returns (data: seq<string>)
    ensures |data| == |items| + 1
    ensures forall i :: 0 <= i < |items| ==> data[i] == TrackButton(items[i])
    ensures data[|items|] == "add_tracking"
  {
    data := [];
    var k := 0;
    while k < |items|
      invariant 0 <= k <= |items| && |data| == k
      invariant forall i :: 0 <= i < k ==> data[i] == TrackButton(items[i])
    {
      data := data + [TrackButton(items[k])];
      k := k + 1;
    }
    data := data + ["add_tracking"];
  }

  /** The bot: its per-user waiting states (telebot's state storage), the
      store it writes to, and the tracking-item calls it has made. */
  class Bot {
    const db: Database
    /** `str.isalnum()` on one character, Unicode-aware in Python. */
    const isAlnum: char -> bool
    var state: map<int, WaitState>
    var trackingCalls: seq<TrackingCall>

    /** Only registered users are ever waiting for input. */
    ghost predicate Valid()
      reads this, db
    {
      db.Valid() && state.Keys <= db.users.Keys
    }

    constructor (db: Database, isAlnum: char -> bool)
      requires db.Valid()
      ensures Valid()
      ensures this.db == db && this.isAlnum == isAlnum
      ensures state == map[] && trackingCalls == []
    {
      this.db := db;
      this.isAlnum := isAlnum;
      state := map[];
      trackingCalls := [];
    }

    /** `/start`: registers an unknown user with the default profile and
        greets in the user's language; a known profile is kept as it is. */
    method Start(uid: int) returns (reply: Reply)
      requires Valid()
      modifies db
      ensures Valid()
      ensures db.users == if uid in old(db.users) then old(db.users) else old(db.users)[uid := DEFAULT_USER]
      ensures db.txs == old(db.txs) && db.nextTxId == old(db.nextTxId)
      ensures reply == Welcome(db.users[uid].lang)
    {
      var known := db.UserExists(uid);
      if !known {
        db.AddUser(uid);
      }
      var user := db.GetUser(uid);
      reply := Welcome(user.value.lang);
    }

    /** `callback_handler`. `tracked` stands for what `get_tracking_items`
        returns for the user. */
    method HandleCallback(uid: int, data: string, tracked: seq<string>) returns (reply: Reply)
      requires Valid()
      modifies this, db
      ensures Valid()
      ensures db.txs == old(db.txs) && db.nextTxId == old(db.nextTxId)
      // unknown user: nothing happens
      ensures uid !in old(db.users) ==>
        reply == UserNotFound && state == old(state) && db.users == old(db.users) &&
        trackingCalls == old(trackingCalls)
      // set_name / set_address / add_tracking: enter a waiting state, store untouched
      ensures uid in old(db.users) ==>
        state == (if Awaited(Classify(data)).Some? then old(state)[uid := Awaited(Classify(data)).value] else old(state))
      ensures uid in old(db.users) && Awaited(Classify(data)).Some? ==>
        reply == Prompt(Awaited(Classify(data)).value) && db.users == old(db.users)
      // lang_<code>: the user's language becomes code
      ensures uid in old(db.users) && Classify(data).ChooseLang? ==>
        db.users == old(db.users)[uid := old(db.users)[uid].(lang := Classify(data).code)] &&
        reply == LangChanged(Classify(data).code)
      ensures uid in old(db.users) && !Classify(data).ChooseLang? ==> db.users == old(db.users)
      // track_<item>: remove that item
      ensures trackingCalls ==
        if uid in old(db.users) && Classify(data).RemoveTracking?
        then old(trackingCalls) + [RemoveTrackingItem(uid, Classify(data).item)]
        else old(trackingCalls)
      ensures uid in old(db.users) && Classify(data).RemoveTracking? ==> reply == ItemRemoved(Classify(data).item)
      // tracking: the menu of item buttons
      ensures uid in old(db.users) && Classify(data) == ListTracking ==>
        reply.TrackingMenu? && |reply.buttons| == |tracked| + 1 &&
        (forall i :: 0 <= i < |tracked| ==> reply.buttons[i] == TrackButton(tracked[i])) &&
        reply.buttons[|tracked|] == "add_tracking"
      // the remaining branches only send text
      ensures uid in old(db.users) ==>
        (Classify(data) == EditProfile ==> reply == EditMenu) &&
        (Classify(data) == ShowAddress ==> reply == AddressCard) &&
        (Classify(data) == Instruction ==> reply == InstructionText) &&
        (Classify(data) == ViewProfile ==> reply == Profile(old(db.users)[uid])) &&
        (Classify(data) == Unknown ==> reply == NotImplemented)
    {
      var user := db.GetUser(uid);
      if user.None? {
        return UserNotFound;
      }
      var cb := Classify(data);
      match cb {
        case EditProfile =>
          reply := EditMenu;
        case AskName =>
          state := state[uid := WaitingForName];
          reply := Prompt(WaitingForName);
        case AskAddress =>
          state := state[uid := WaitingForAddress];
          reply := Prompt(WaitingForAddress);
        case ShowAddress =>
          reply := AddressCard;
        case Instruction =>
          reply := InstructionText;
        case ChooseLang(code) =>
          db.UpdateLang(uid, code);
          reply := LangChanged(code);
        case ListTracking =>
          var buttons := TrackingButtons(tracked);
          reply := TrackingMenu(buttons);
        case AskTrackingItem =>
          state := state[uid := WaitingForTrackingItem];
          reply := Prompt(WaitingForTrackingItem);
        case RemoveTracking(item) =>
          trackingCalls := trackingCalls + [RemoveTrackingItem(uid, item)];
          reply := ItemRemoved(item);
        case ViewProfile =>
          reply := Profile(user.value);
        case Unknown =>
          reply := NotImplemented;
      }
    }

    /** `set_name`: a stripped reply of at most 50 characters becomes the
        user's name and ends the wait; a longer one is refused and the
        wait goes on. */
    method SetName(uid: int, text: string) returns (reply: Reply)
      requires Valid()
      modifies this, db
      ensures Valid()
      ensures db.txs == old(db.txs) && db.nextTxId == old(db.nextTxId) && trackingCalls == old(trackingCalls)
      ensures uid !in old(db.users) ==> reply == Crashed && state == old(state) && db.users == old(db.users)
      ensures uid in old(db.users) && |Strip(text)| > MAX_NAME_LENGTH ==>
        reply == Rejected(WaitingForName) && state == old(state) && db.users == old(db.users)
      ensures uid in old(db.users) && |Strip(text)| <= MAX_NAME_LENGTH ==>
        reply == Saved(WaitingForName) && state == old(state) - {uid} &&
        db.users == old(db.users)[uid := old(db.users)[uid].(name := Strip(text))]
    {
      var name := Strip(text);
      var user := db.GetUser(uid);
      if user.None? {
        return Crashed;
      }
      if |name| > MAX_NAME_LENGTH {
        return Rejected(WaitingForName);
      }
      db.UpdateName(uid, name);
      state := state - {uid};
      reply := Saved(WaitingForName);
    }

    /** `set_address`: the same rule as `set_name` with a limit of 200. */
    method SetAddress(uid: int, text: string) returns (reply: Reply)
      requires Valid()
      modifies this, db
      ensures Valid()
      ensures db.txs == old(db.txs) && db.nextTxId == old(db.nextTxId) && trackingCalls == old(trackingCalls)
      ensures uid !in old(db.users) ==> reply == Crashed && state == old(state) && db.users == old(db.users)
      ensures uid in old(db.users) && |Strip(text)| > MAX_ADDRESS_LENGTH ==>
        reply == Rejected(WaitingForAddress) && state == old(state) && db.users == old(db.users)
      ensures uid in old(db.users) && |Strip(text)| <= MAX_ADDRESS_LENGTH ==>
        reply == Saved(WaitingForAddress) && state == old(state) - {uid} &&
        db.users == old(db.users)[uid := old(db.users)[uid].(address := Strip(text))]
    {
      var address := Strip(text);
      var user := db.GetUser(uid);
      if user.None? {
        return Crashed;
      }
      if |address| > MAX_ADDRESS_LENGTH {
        return Rejected(WaitingForAddress);
      }
      db.UpdateAddress(uid, address);
      state := state - {uid};
      reply := Saved(WaitingForAddress);
    }

    /** `set_tracking_item`: a stripped, alphanumeric reply of at most 50
        characters is added to the user's tracked items and ends the wait;
        anything else (the empty reply included) is refused. */
    method SetTrackingItem(uid: int, text: string) returns (reply: Reply)
      requires Valid()
      modifies this, db
      ensures Valid()
      ensures db.users == old(db.users) && db.txs == old(db.txs) && db.nextTxId == old(db.nextTxId)
      ensures uid !in old(db.users) ==> reply == Crashed && state == old(state) && trackingCalls == old(trackingCalls)
      ensures uid in old(db.users) && !(|Strip(text)| <= MAX_TRACKING_ITEM_LENGTH && IsAlnum(Strip(text), isAlnum)) ==>
        reply == Rejected(WaitingForTrackingItem) && state == old(state) && trackingCalls == old(trackingCalls)
      ensures uid in old(db.users) && |Strip(text)| <= MAX_TRACKING_ITEM_LENGTH && IsAlnum(Strip(text), isAlnum) ==>
        reply == Saved(WaitingForTrackingItem) && state == old(state) - {uid} &&
        trackingCalls == old(trackingCalls) + [AddTrackingItem(uid, Strip(text))]
    {
      var item := Strip(text);
      var user := db.GetUser(uid);
      if user.None? {
        return Crashed;
      }
      if |item| > MAX_TRACKING_ITEM_LENGTH || !IsAlnum(item, isAlnum) {
        return Rejected(WaitingForTrackingItem);
      }
      trackingCalls := trackingCalls + [AddTrackingItem(uid, item)];
      state := state - {uid};
      reply := Saved(WaitingForTrackingItem);
    }

    /** A free-text message, routed by the user's waiting state as telebot's
        `state=` filters do. A refused reply keeps the state, so the next
        message is tried against the same rule. */
    method HandleText(uid: int, text: string) returns (reply: Reply)
      requires Valid()
      modifies this, db
      ensures Valid()
      ensures db.txs == old(db.txs) && db.nextTxId == old(db.nextTxId)
      ensures uid !in old(state) ==>
        reply == Ignored && state == old(state) && db.users == old(db.users) && trackingCalls == old(trackingCalls)
      ensures uid in old(state) && !Accepts(old(state)[uid], Strip(text), isAlnum) ==>
        reply == Rejected(old(state)[uid]) && state == old(state) &&
        db.users == old(db.users) && trackingCalls == old(trackingCalls)
      ensures uid in old(state) && Accepts(old(state)[uid], Strip(text), isAlnum) ==>
        reply == Saved(old(state)[uid]) && state == old(state) - {uid}
      ensures uid in old(state) && Accepts(old(state)[uid], Strip(text), isAlnum) ==>
        match old(state)[uid]
        case WaitingForName =>
          db.users == old(db.users)[uid := old(db.users)[uid].(name := Strip(text))] &&
          trackingCalls == old(trackingCalls)
        case WaitingForAddress =>
          db.users == old(db.users)[uid := old(db.users)[uid].(address := Strip(text))] &&
          trackingCalls == old(trackingCalls)
        case WaitingForTrackingItem =>
          db.users == old(db.users) &&
          trackingCalls == old(trackingCalls) + [AddTrackingItem(uid, Strip(text))]
    {
      if uid !in state {
        return Ignored;
      }
      match state[uid] {
        case WaitingForName =>
          reply := SetName(uid, text);
        case WaitingForAddress =>
          reply := SetAddress(uid, text);
        case WaitingForTrackingItem =>
          reply := SetTrackingItem(uid, text);
      }
    }
  }
}
