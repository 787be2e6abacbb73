/** The chat progress message (`TelegramStatusMessage` and `sync_done` in
    utils.py): a table from category key to "done" flag, the text rendered
    from it, and the edit sent whenever a category completes.  Sending and
    editing are not performed; an edit is returned as a value. */
module Status {
  import opened Wrappers
  import opened Text
  import opened Config

  /** One `done_what` item; Python keeps the items in insertion order. */
  datatype Entry = Entry(key: string, done: bool)

  datatype Message = Message(doneWhat: seq<Entry>, latestSync: string, messageId: Option<int>)

  /** The part of the chat API's answer to the first post that the
      constructor inspects: HTTP status, the `ok` field, and
      `result.message_id` when present. */
  datatype ChatReply = ChatReply(status: int, ok: bool, messageId: Option<int>)

  /** An `editMessageText` request. */
  datatype Edit = Edit(chatId: string, messageId: int, text: string)

  const Bird: string := "\U{1F426}"
  const SuccessPrefix: string := Bird + "\U{1F44C}"
  const DoneGlyph: string := "\U{2705}"
  const PendingGlyph: string := "\U{1F550}"
  const SkippedGlyph: string := "\U{274C}"

  function Keys(entries: seq<Entry>): (r: seq<string>)
    ensures |r| == |entries| && forall i :: 0 <= i < |r| ==> r[i] == entries[i].key
  {
    seq(|entries|, i requires 0 <= i < |entries| => entries[i].key)
  }

  /** The keys a fresh message starts with, in this order. */
  const InitialKeys: seq<string> := ["replays", "avatars", "screenshots", "profile_backgrounds", "database"]

  /** The initial keys are exactly the category keys, in category order. */
  lemma InitialKeysAreCategoryKeys()
    ensures |InitialKeys| == |Categories|
    ensures forall i :: 0 <= i < |Categories| ==> InitialKeys[i] == Key(Categories[i])
  {
  }

  /** A table holding one item per category, in category order; it is what
      `New` builds and what marking a known key keeps. */
  predicate Standard(entries: seq<Entry>)
  {
    |entries| == |Categories| && forall i :: 0 <= i < |entries| ==> entries[i].key == Key(Categories[i])
  }

  /** `TelegramStatusMessage(latest_sync)`: every key not done; the message
      id is kept only from a 200 answer whose `ok` is set and which names one. */
  function New(latestSync: string, reply: Option<ChatReply>): (m: Message)
    ensures Keys(m.doneWhat) == InitialKeys && Standard(m.doneWhat)
    ensures forall i :: 0 <= i < |m.doneWhat| ==> !m.doneWhat[i].done
    ensures m.latestSync == latestSync
    ensures m.messageId.Some? <==>
              reply.Some? && reply.value.status == 200 && reply.value.ok && reply.value.messageId.Some?
    ensures m.messageId.Some? ==> m.messageId == reply.value.messageId
  {
    var entries := seq(|InitialKeys|, i requires 0 <= i < |InitialKeys| => Entry(InitialKeys[i], false));
    var id := match reply
      case Some(rep) => if rep.status == 200 && rep.ok then rep.messageId else None
      case None => None;
    InitialKeysAreCategoryKeys();
    Message(entries, latestSync, id)
  }

  /** Every key of the table names a flag that config.py defines; otherwise
      rendering the message raises `KeyError`. */
  predicate KnownKeys(entries: seq<Entry>)
  {
    forall i :: 0 <= i < |entries| ==> SyncFlag(Defaults, "SYNC_" + Upper(entries[i].key)).Some?
  }

  lemma StandardKnown(entries: seq<Entry>)
    requires Standard(entries)
    ensures KnownKeys(entries)
  {
    forall i | 0 <= i < |entries|
      ensures SyncFlag(Defaults, "SYNC_" + Upper(entries[i].key)).Some?
    {
      assert FlagName(Categories[i]) == "SYNC_" + Upper(entries[i].key);
    }
  }

  /** In a standard table, an item is enabled exactly when its category is. */
  lemma StandardEnabled(entries: seq<Entry>, cfg: Settings, i: nat)
    requires Standard(entries) && i < |entries|
    ensures KnownKeys(entries)
    ensures Enabled(cfg, entries[i].key) <==> Categories[i] in cfg.enabled
  {
    StandardKnown(entries);
    assert FlagName(Categories[i]) == "SYNC_" + Upper(entries[i].key);
  }

  /** The key of every category is in a standard table. */
  lemma StandardHasKey(entries: seq<Entry>, c: Category)
    requires Standard(entries)
    ensures Key(c) in Keys(entries)
  {
    assert Keys(entries)[Index(c)] == entries[Index(c)].key;
  }

  /** `Config()["SYNC_{}".format(key.upper())]` */
  function Enabled(cfg: Settings, key: string): bool
    requires SyncFlag(Defaults, "SYNC_" + Upper(key)).Some?
  {
    SyncFlag(cfg, "SYNC_" + Upper(key)).value
  }

  /** The `done` property as written: `all(True for ... if ...)` yields only
      `True`, so it holds whatever the table says. */
  function DoneAsWritten(entries: seq<Entry>, cfg: Settings): (r: bool)
    requires KnownKeys(entries)
    ensures r
  {
    AllOf(Yielded(entries, cfg))
  }

  /** The generator of `done`: one `True` per item the filter keeps. */
  function Yielded(entries: seq<Entry>, cfg: Settings): (r: seq<bool>)
    requires KnownKeys(entries)
    ensures forall i :: 0 <= i < |r| ==> r[i]
    decreases |entries|
  {
    if entries == [] then []
    else
      var rest := Yielded(entries[1..], cfg);
      if !Enabled(cfg, entries[0].key) || entries[0].done then [true] + rest else rest
  }

  function AllOf(bs: seq<bool>): bool
  {
    forall i :: 0 <= i < |bs| ==> bs[i]
  }

  /** The evidently intended `done`: `all(not enabled or v for k, v in ...)`. */
  function Done(entries: seq<Entry>, cfg: Settings): (r: bool)
    requires KnownKeys(entries)
    ensures r <==> forall i :: 0 <= i < |entries| && Enabled(cfg, entries[i].key) ==> entries[i].done
    decreases |entries|
  {
    if entries == [] then true
    else
      (!Enabled(cfg, entries[0].key) || entries[0].done) && Done(entries[1..], cfg)
  }

  /** ✅ done, 🕐 waiting for an enabled category, ❌ category switched off. */
  function Glyph(done: bool, enabled: bool): (r: string)
    ensures r == DoneGlyph <==> done
    ensures r == PendingGlyph <==> !done && enabled
    ensures r == SkippedGlyph <==> !done && !enabled
  {
    if done then DoneGlyph else if enabled then PendingGlyph else SkippedGlyph
  }

  /** The glyph tells the reader the category's state: whether it is done,
      and if not, whether it is enabled. */
  lemma GlyphInjective(d1: bool, e1: bool, d2: bool, e2: bool)
    requires Glyph(d1, e1) == Glyph(d2, e2)
    ensures d1 == d2 && (!d1 ==> e1 == e2)
  {
  }

  /** `key.replace("_", " ").capitalize()` */
  function Label(key: string): (r: string)
    ensures |r| == |key|
    ensures |key| > 0 ==> r[0] == UpperChar(if key[0] == '_' then ' ' else key[0])
    ensures forall i :: 0 < i < |key| ==> (r[i] == ' ' <==> key[i] == '_' || key[i] == ' ')
    ensures forall i :: 0 < i < |key| && key[i] != '_' ==> r[i] == LowerChar(key[i])
  {
    Capitalize(ReplaceChar(key, '_', ' '))
  }

  function Lines(entries: seq<Entry>, cfg: Settings): (r: seq<string>)
    requires KnownKeys(entries)
    ensures |r| == |entries|
    ensures forall i :: 0 <= i < |r| ==>
              r[i] == Glyph(entries[i].done, Enabled(cfg, entries[i].key)) + " " + Label(entries[i].key)
  {
    seq(|entries|, i requires 0 <= i < |entries| =>
      Glyph(entries[i].done, Enabled(cfg, entries[i].key)) + " " + Label(entries[i].key))
  }

  /** The header line: the bird, plus 👌 when done, and the state in bold. */
  function Header(done: bool): string
  {
    (if done then SuccessPrefix else Bird)
    + "<b>C14 backup " + (if done then "done!" else "in progress") + "</b>\n\n"
  }

  /** One line per category, then the time of the latest sync. */
  function Body(m: Message, cfg: Settings): string
    requires KnownKeys(m.doneWhat)
  {
    Join("\n", Lines(m.doneWhat, cfg)) + "\n\nLatest sync: <code>" + m.latestSync + "</code>"
  }

  function Compose(done: bool, m: Message, cfg: Settings): string
    requires KnownKeys(m.doneWhat)
  {
    Header(done) + Body(m, cfg)
  }

  /** The `telegram_message` text, with the intended `done`. */
  function Render(m: Message, cfg: Settings): (r: string)
    requires KnownKeys(m.doneWhat)
    ensures Header(Done(m.doneWhat, cfg)) <= r
  {
    Compose(Done(m.doneWhat, cfg), m, cfg)
  }

  /** The `telegram_message` text as written, with `done` always true. */
  function RenderAsWritten(m: Message, cfg: Settings): (r: string)
    requires KnownKeys(m.doneWhat)
    ensures Header(true) <= r
  {
    Compose(DoneAsWritten(m.doneWhat, cfg), m, cfg)
  }

  /** The rendered message reports success exactly when every enabled
      category is done. */
  lemma RenderReportsDone(m: Message, cfg: Settings)
    requires KnownKeys(m.doneWhat)
    ensures Header(true) <= Render(m, cfg) <==> Done(m.doneWhat, cfg)
  {
    var r := Render(m, cfg);
    if !Done(m.doneWhat, cfg) {
      HeadersDiffer();
      assert r[1] == Header(false)[1];
    }
  }

  /** The two headers differ in their second character. */
  lemma HeadersDiffer()
    ensures |Header(false)| > 1 && |Header(true)| > 1 && Header(false)[1] != Header(true)[1]
  {
    assert Header(false)[1] == '<';
    assert Header(true)[1] == SuccessPrefix[1];
  }

  /** As written, a fresh message with every category enabled already
      announces "done!" although nothing has been synced. */
  lemma RenderAsWrittenClaimsDone(latestSync: string, cfg: Settings)
    requires cfg.enabled == Defaults.enabled
    ensures var m := New(latestSync, None);
            Header(true) <= RenderAsWritten(m, cfg) && !Done(m.doneWhat, cfg)
  {
    var m := New(latestSync, None);
    StandardKnown(m.doneWhat);
    assert m.doneWhat[0] == Entry("replays", false);
    assert Enabled(cfg, "replays") by {
      assert "SYNC_" + Upper(m.doneWhat[0].key) == FlagName(Replays);
    }
  }

  /** `dict.get(key)` */
  function Lookup(entries: seq<Entry>, key: string): Option<bool>
  {
    if entries == [] then None
    else if entries[0].key == key then Some(entries[0].done)
    else Lookup(entries[1..], key)
  }

  /** `Lookup` finds an item whose key no earlier item carries. */
  lemma {:induction false} LookupAt(entries: seq<Entry>, i: nat)
    requires i < |entries|
    requires forall j :: 0 <= j < i ==> entries[j].key != entries[i].key
    ensures Lookup(entries, entries[i].key) == Some(entries[i].done)
    decreases i
  {
    if i > 0 {
      LookupAt(entries[1..], i - 1);
    }
  }

  /** In a table with the initial keys, the key of category `c` sits at `Index(c)`. */
  lemma LookupCategory(entries: seq<Entry>, c: Category)
    requires Standard(entries)
    ensures entries[Index(c)].key == Key(c)
    ensures Lookup(entries, Key(c)) == Some(entries[Index(c)].done)
  {
    CategoriesDistinct();
    forall j | 0 <= j < Index(c) ensures entries[j].key != entries[Index(c)].key {
      if entries[j].key == entries[Index(c)].key {
        KeyInjective(Categories[j], c);
      }
    }
    LookupAt(entries, Index(c));
  }

  /** `done_what[key] = True`: the item is updated in place, or appended
      when the key is new. */
  function SetDone(entries: seq<Entry>, key: string): (r: seq<Entry>)
    ensures key in Keys(entries) ==> Keys(r) == Keys(entries)
    ensures key !in Keys(entries) ==> r == entries + [Entry(key, true)]
    ensures forall i :: 0 <= i < |entries| && entries[i].key != key ==> r[i] == entries[i]
    ensures forall i :: 0 <= i < |entries| && entries[i].done ==> r[i].done
    ensures Lookup(r, key) == Some(true)
  {
    if key in Keys(entries) then
      var r := seq(|entries|, i requires 0 <= i < |entries| =>
                 if entries[i].key == key then Entry(key, true) else entries[i]);
      LookupMarked(entries, r, key);
      r
    else
      LookupAppended(entries, key);
      entries + [Entry(key, true)]
  }

  lemma {:induction false} LookupMarked(entries: seq<Entry>, r: seq<Entry>, key: string)
    requires key in Keys(entries) && |r| == |entries|
    requires forall i :: 0 <= i < |entries| ==>
               r[i] == if entries[i].key == key then Entry(key, true) else entries[i]
    ensures Lookup(r, key) == Some(true)
    decreases |entries|
  {
    if entries[0].key != key {
      assert Keys(entries) == [entries[0].key] + Keys(entries[1..]);
      LookupMarked(entries[1..], r[1..], key);
    }
  }

  lemma {:induction false} LookupAppended(entries: seq<Entry>, key: string)
    requires key !in Keys(entries)
    ensures Lookup(entries + [Entry(key, true)], key) == Some(true)
    decreases |entries|
  {
    if entries != [] {
      assert Keys(entries) == [entries[0].key] + Keys(entries[1..]);
      assert (entries + [Entry(key, true)])[1..] == entries[1..] + [Entry(key, true)];
      LookupAppended(entries[1..], key);
    }
  }

  /** `update_telegram_message`: an edit carrying the current text as
      written, sent only when the first post produced a message id. */
  function Update(m: Message, cfg: Settings): (r: Option<Edit>)
    requires KnownKeys(m.doneWhat)
    ensures r.Some? <==> m.messageId.Some?
    ensures r.Some? ==> r.value.messageId == m.messageId.value && r.value.text == RenderAsWritten(m, cfg)
  {
    match m.messageId
    case None => None
    case Some(id) => Some(Edit(cfg.telegramChatId, id, RenderAsWritten(m, cfg)))
  }

  /** The first half of `sync_done`: mark `what.lower()` done when a
      category is named. */
  function Marked(what: Option<string>, m: Message): (r: Message)
    ensures what.None? ==> r == m
    ensures |r.doneWhat| >= |m.doneWhat|
    ensures what.Some? && Lower(what.value) in Keys(m.doneWhat) ==>
              |r.doneWhat| == |m.doneWhat| && forall i :: 0 <= i < |m.doneWhat| ==> r.doneWhat[i].key == m.doneWhat[i].key
    ensures what.Some? ==> Lookup(r.doneWhat, Lower(what.value)) == Some(true)
    ensures what.Some? ==> forall i :: 0 <= i < |m.doneWhat| && m.doneWhat[i].key != Lower(what.value)
                                       ==> r.doneWhat[i] == m.doneWhat[i]
    ensures forall i :: 0 <= i < |m.doneWhat| && m.doneWhat[i].done ==> r.doneWhat[i].done
    ensures r.latestSync == m.latestSync && r.messageId == m.messageId
  {
    match what
    case None => m
    case Some(w) => m.(doneWhat := SetDone(m.doneWhat, Lower(w)))
  }

  /** `sync_done(what, status_message)`: mark, then refresh the message
      with the marked table. */
  function SyncDone(what: Option<string>, m: Message, cfg: Settings): (r: (Message, Option<Edit>))
    requires KnownKeys(m.doneWhat)
    requires what.Some? ==> Lower(what.value) in Keys(m.doneWhat)
    ensures r.0 == Marked(what, m)
    ensures KnownKeys(r.0.doneWhat)
    ensures r.1.Some? <==> m.messageId.Some?
    ensures r.1.Some? ==> r.1.value.messageId == m.messageId.value && r.1.value.text == RenderAsWritten(r.0, cfg)
  {
    var m' := Marked(what, m);
    (m', Update(m', cfg))
  }
}
