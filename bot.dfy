/** The update loop of `main` (main.go:39-58): for each incoming update, the
    replies the bot sends. The Telegram client is replaced by the list of
    sends the loop performs, in order. */
module Bot {
  import opened Wrappers
  import opened GoStrings
  import opened Keywords

  /** Go's `int64`, the type of chat IDs. */
  newtype int64 = x: int | -0x8000_0000_0000_0000 <= x < 0x8000_0000_0000_0000

  datatype Chat = Chat(id: int64, title: string)

  datatype Message = Message(messageId: int, chat: Chat, text: string)

  /** An update whose `Message` may be nil. */
  datatype Update = Update(message: Option<Message>)

  /** The configuration the loop reads: `chat.title`, `chat.id`,
      `alt.file.id`, and the list and text views of `alt.keywords`. */
  datatype Settings = Settings(
    chatTitle: string,
    chatId: int64,
    fileId: string,
    keywordList: seq<string>,
    keywordText: string)

  /** One `bot.Send`: a sticker or a text message, each sent to a chat as a
      reply to a message there. */
  datatype Action =
    | SendSticker(chatId: int64, replyTo: int, fileId: string)
    | SendText(chatId: int64, replyTo: int, text: string)

  /** The configured group: its title starts with the configured title and
      its ID is the configured ID. */
  predicate InTargetChat(chat: Chat, s: Settings)
    ensures InTargetChat(chat, s) <==> s.chatTitle <= chat.title && chat.id == s.chatId
    ensures s.chatTitle == "" ==> (InTargetChat(chat, s) <==> chat.id == s.chatId)
  {
    HasPrefix(chat.title, s.chatTitle) && chat.id == s.chatId
  }

  /** The lower-cased text of the message mentions a keyword. */
  ghost predicate Mentions(m: Message, s: Settings) {
    IsForgotten(ToLower(m.text), s.keywordList, s.keywordText)
  }

  /** The configured sticker, in reply to `m`. */
  function StickerReply(m: Message, s: Settings): Action {
    SendSticker(m.chat.id, m.messageId, s.fileId)
  }

  /** The text of `m`, as received, in reply to `m`. */
  function Echo(m: Message): Action {
    SendText(m.chat.id, m.messageId, m.text)
  }

  /** The sends for one update, in order. */
  ghost function Decide(u: Update, s: Settings): (actions: seq<Action>)
    ensures u.message.None? ==> actions == []
    ensures u.message.Some? ==>
      var m := u.message.value;
      && (Echo(m) in actions <==> !InTargetChat(m.chat, s) || Mentions(m, s))
      && (StickerReply(m, s) in actions <==> InTargetChat(m.chat, s) && Mentions(m, s))
      && (forall i :: 0 <= i < |actions| ==> actions[i] == StickerReply(m, s) || actions[i] == Echo(m))
      && (|actions| == 2 ==> actions == [StickerReply(m, s), Echo(m)])
    ensures |actions| <= 2
  {
    match u.message
    case None => []
    case Some(m) =>
      if InTargetChat(m.chat, s) then
        if !Mentions(m, s) then [] else [StickerReply(m, s), Echo(m)]
      else
        [Echo(m)]
  }

  /** The sends for a stream of updates: each update's in turn. */
  ghost function Replies(updates: seq<Update>, s: Settings): seq<Action>
    decreases |updates|
  {
    if updates == [] then []
    else Replies(updates[..|updates| - 1], s) + Decide(updates[|updates| - 1], s)
  }

  /** The loop of `main` over the updates received: skip updates without a
      message; in the configured group, stay silent unless the lower-cased
      text mentions a keyword, and then send the sticker; everywhere that was
      not skipped, echo the text. Returns the sends in order. */
  method Serve(updates: seq<Update>, s: Settings) returns (sent: seq<Action>)
    ensures sent == Replies(updates, s)
  {
    sent := [];
    for k := 0 to |updates|
      invariant sent == Replies(updates[..k], s)
    {
      assert updates[..k + 1][..k] == updates[..k];
      var u := updates[k];
      if u.message.None? {
        continue;
      }
      var m := u.message.value;
      if HasPrefix(m.chat.title, s.chatTitle) && m.chat.id == s.chatId {
        var found := Forgotten(ToLower(m.text), s.keywordList, s.keywordText);
        if !found {
          continue;
        }
        sent := sent + [SendSticker(m.chat.id, m.messageId, s.fileId)];
      }
      sent := sent + [SendText(m.chat.id, m.messageId, m.text)];
    }
    assert updates[..|updates|] == updates;
  }

  /** Concatenation is associative; stated apart from any send so that the
      proof sees nothing else. */
  lemma AppendAssociative<T>(a: seq<T>, b: seq<T>, c: seq<T>)
    ensures (a + b) + c == a + (b + c)
  {
  }

  /** One more update adds its own sends at the end. */
  lemma RepliesSnoc(updates: seq<Update>, u: Update, s: Settings)
    ensures Replies(updates + [u], s) == Replies(updates, s) + Decide(u, s)
  {
    var all := updates + [u];
    assert all[..|all| - 1] == updates;
    assert all[|all| - 1] == u;
  }

  /** Updates are handled independently: the sends for two streams one
      after the other are the sends for each. */
  lemma {:induction false} RepliesAppend(first: seq<Update>, second: seq<Update>, s: Settings)
    ensures Replies(first + second, s) == Replies(first, s) + Replies(second, s)
    decreases |second|
  {
    if second == [] {
      assert first + second == first;
    } else {
      var init := second[..|second| - 1];
      var last := second[|second| - 1];
      assert second == init + [last];
      assert first + second == (first + init) + [last];
      RepliesSnoc(init, last, s);
      RepliesSnoc(first + init, last, s);
      RepliesAppend(first, init, s);
      AppendAssociative(Replies(first, s), Replies(init, s), Decide(last, s));
    }
  }

  /** Every send replies to a message of some update, in that message's
      chat; stickers go only to the configured group and are the configured
      sticker; texts repeat the received text unchanged. */
  lemma {:induction false} EveryReplyAnswersAnUpdate(updates: seq<Update>, s: Settings, i: nat)
    requires i < |Replies(updates, s)|
    ensures var a := Replies(updates, s)[i];
      exists k :: 0 <= k < |updates| && updates[k].message.Some? &&
        var m := updates[k].message.value;
        && a.chatId == m.chat.id && a.replyTo == m.messageId
        && (a.SendSticker? ==> InTargetChat(m.chat, s) && a.fileId == s.fileId)
        && (a.SendText? ==> a.text == m.text)
    decreases |updates|
  {
    var n := |updates| - 1;
    var earlier := Replies(updates[..n], s);
    var a := Replies(updates, s)[i];
    if i < |earlier| {
      EveryReplyAnswersAnUpdate(updates[..n], s, i);
      var k :| 0 <= k < n && updates[..n][k].message.Some? &&
        var m := updates[..n][k].message.value;
        && a.chatId == m.chat.id && a.replyTo == m.messageId
        && (a.SendSticker? ==> InTargetChat(m.chat, s) && a.fileId == s.fileId)
        && (a.SendText? ==> a.text == m.text);
      assert updates[..n][k] == updates[k];
    } else {
      assert a == Decide(updates[n], s)[i - |earlier|];
    }
  }

  /** The keyword test sees the lower-cased text, so a keyword holding an
      upper-case letter can never fire. */
  lemma UpperCaseKeywordNeverMatches(text: string, keyword: string, p: nat)
    requires p < |keyword| && IsUpper(keyword[p])
    ensures forall w :: w in Split(ToLower(text), ' ') ==> !HasPrefix(w, keyword)
  {
    var lowered := ToLower(text);
    var words := Split(lowered, ' ');
    forall w | w in words
      ensures !HasPrefix(w, keyword)
    {
      var i :| 0 <= i < |words| && words[i] == w;
      if p < |w| {
        assert w[p] in lowered;
      }
    }
  }

  /** If every configured keyword holds an upper-case ASCII letter, no
      keyword ever fires, so the configured group gets no reply at all. */
  lemma UpperCaseKeywordsSilenceGroup(u: Update, s: Settings)
    requires var keywords := Keywords.Keywords(s.keywordList, s.keywordText);
      forall j :: 0 <= j < |keywords| ==> exists p :: 0 <= p < |keywords[j]| && IsUpper(keywords[j][p])
    requires u.message.Some? && InTargetChat(u.message.value.chat, s)
    ensures Decide(u, s) == []
  {
    var m := u.message.value;
    var keywords := Keywords.Keywords(s.keywordList, s.keywordText);
    var words := Split(ToLower(m.text), ' ');
    forall i, j | 0 <= i < |words| && 0 <= j < |keywords|
      ensures !HasPrefix(words[i], keywords[j])
    {
      var p :| 0 <= p < |keywords[j]| && IsUpper(keywords[j][p]);
      UpperCaseKeywordNeverMatches(m.text, keywords[j], p);
      assert words[i] in words;
    }
    assert !Mentions(m, s);
  }
}
