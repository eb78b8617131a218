/**
 * The webhook handler (`TarotHandler`): classify the first event's text into a
 * command, build the reply body from the card store (or the help text), and
 * decide whether a reply is sent. The POST itself is left out; `Handle` returns
 * the reply it would send, if any, and the webhook's response.
 */
module Handler {
  import opened Wrappers
  import Usize
  import Messages
  import TarotInfo

  /** Phrases that draw a random card. */
  const DRAW: seq<string> := [
    "抽卡",
    "抽一張牌",
    "抽一張卡",
    "抽塔羅牌",
    "抽塔羅",
    "抽一張塔羅牌",
    "抽一張塔羅",
    "抽一張"
  ]
  /** Phrases that ask for the help text. */
  const HELP: seq<string> := ["幫助", "說明", "指令", "指令說明"]
  /** Phrases that ask for the list of all cards. */
  const ALL_CARDS: seq<string> := ["所有卡片"]
  /** The reply to an event that carries no text. */
  const TEXT_ONLY_NOTICE := "目前僅支援文字指令喔！"
  /** The webhook's response body, whatever happened. */
  const ACK := "OK"
  /** The largest card number a user may type. */
  const MAX_CARD_NUMBER: nat := 77

  /** What an event asks for. */
  datatype Command =
    | DrawCard
    | ListAllCards
    | ShowHelp
    | ShowCard(index: nat)
    | NotText

  /** The fields of `events[0]` the handler reads; each is `None` when missing or not a string. */
  datatype Event = Event(replyToken: Option<string>, text: Option<string>)

  /** The handler's state: the card store and the help text it replies with. */
  datatype TarotHandler = TarotHandler(store: TarotInfo.TarotStore, helpText: string)

  /** A reply to post: the reply token and the body, which carries that token. */
  datatype ReplyIntent = ReplyIntent(token: string, body: Messages.Body)

  /** What one webhook call does: respond (with at most one reply sent before), or
      panic on an `unwrap()` of the card store. */
  datatype Outcome =
    | Responded(response: string, reply: Option<ReplyIntent>)
    | Panicked

  /** The classification `match` of `handle`: the first matching arm wins. */
  function Classify(text: Option<string>): (c: Command)
    ensures c == NotText <==> text.None?
    ensures c.ShowCard? ==> c.index <= MAX_CARD_NUMBER && Usize.Parse(text.value) == Some(c.index)
  {
    match text
    case None => NotText
    case Some(msg) =>
      if msg in DRAW then DrawCard
      else if msg in ALL_CARDS then ListAllCards
      else if msg in HELP then ShowHelp
      else match Usize.Parse(msg)
        case Some(index) => if index <= MAX_CARD_NUMBER then ShowCard(index) else ShowHelp
        case None => ShowHelp
  }

  /** The precondition on the injected random pick: a position among the loaded ids. */
  predicate PickInRange(h: TarotHandler, pick: nat) {
    h.store.cards != map[] ==> pick < |h.store.cards|
  }

  /** The reply body for a command; `None` when the card store panics. */
  function BodyFor(h: TarotHandler, command: Command, pick: nat, coin: bool): (r: Option<Messages.Body>)
    requires PickInRange(h, pick)
    ensures r.None? <==> (command.DrawCard? && h.store.cards == map[])
                         || (command.ShowCard? && command.index !in h.store.cards)
  {
    match command
    case DrawCard => TarotInfo.GetTarotInfo(h.store, TarotInfo.Random, pick, coin)
    case ListAllCards => TarotInfo.GetTarotInfo(h.store, TarotInfo.AllTitles, pick, coin)
    case ShowHelp => Some(Messages.MsgBody(h.helpText))
    case ShowCard(index) => TarotInfo.GetTarotInfo(h.store, TarotInfo.Single(index), pick, coin)
    case NotText => Some(Messages.MsgBody(TEXT_ONLY_NOTICE))
  }

  /**
   * `handle`: only `events[0]` is looked at (`events` is `None` when missing or
   * not an array). Its body is built first; a reply carrying the token is sent
   * only when the event has a reply token. The response is always "OK", unless
   * building the body panicked.
   */
  function Handle(h: TarotHandler, events: Option<seq<Event>>, pick: nat, coin: bool): (o: Outcome)
    requires PickInRange(h, pick)
    ensures events.None? || events.value == [] ==> o == Responded(ACK, None)
    ensures o.Responded? ==> o.response == ACK
    ensures o.Responded? && o.reply.Some? ==>
              events.Some? && events.value != []
              && events.value[0].replyToken == Some(o.reply.value.token)
              && o.reply.value.body.replyToken == Some(o.reply.value.token)
  {
    if events.None? || events.value == [] then Responded(ACK, None)
    else
      var event := events.value[0];
      match BodyFor(h, Classify(event.text), pick, coin)
      case None => Panicked
      case Some(body) =>
        match event.replyToken
        case Some(token) => Responded(ACK, Some(ReplyIntent(token, Messages.WithReplyToken(body, token))))
        case None => Responded(ACK, None)
  }

  // ---------------------------------------------------------------------------
  // Classification

  /** No phrase of the three tables reads as a number. */
  lemma PhrasesAreNotNumbers(phrase: string)
    requires phrase in DRAW + ALL_CARDS + HELP
    ensures Usize.Parse(phrase) == None
  {
    assert !Usize.IsDigit(phrase[0]) && phrase[0] != '+';
  }

  /** No phrase of the three tables starts with a digit or a sign. */
  lemma SignedNumberNotPhrase(text: string)
    requires |text| > 0 && (Usize.IsDigit(text[0]) || text[0] == '+' || text[0] == '-')
    ensures text !in DRAW && text !in ALL_CARDS && text !in HELP
  {
    forall phrase | phrase in DRAW + ALL_CARDS + HELP ensures phrase[0] != text[0] {
      assert !Usize.IsDigit(phrase[0]) && phrase[0] != '+' && phrase[0] != '-';
    }
  }

  /** A text is a draw exactly when it is one of the draw phrases; this arm is tried first. */
  lemma ClassifyDraw(text: string)
    ensures Classify(Some(text)) == DrawCard <==> text in DRAW
  {
  }

  /** A text lists all cards exactly when it is the all-cards phrase. */
  lemma ClassifyAllCards(text: string)
    ensures Classify(Some(text)) == ListAllCards <==> text == "所有卡片"
  {
    assert "所有卡片" !in DRAW;
  }

  /** A text shows card `n` exactly when it reads as the `usize` `n` and `n` is at most 77. */
  lemma ClassifyCard(text: string, n: nat)
    ensures Classify(Some(text)) == ShowCard(n) <==> Usize.Parse(text) == Some(n) && n <= MAX_CARD_NUMBER
  {
    if text in DRAW + ALL_CARDS + HELP {
      PhrasesAreNotNumbers(text);
    } else {
      assert text !in DRAW && text !in ALL_CARDS && text !in HELP;
    }
  }

  /** A text gets the help text exactly when it is a help phrase, or no phrase at all
      and not a number from 0 to 77 (not a number, negative, above 77, or overflowing). */
  lemma ClassifyHelp(text: string)
    ensures Classify(Some(text)) == ShowHelp <==>
              text !in DRAW && text !in ALL_CARDS
              && (text in HELP || Usize.Parse(text).None? || Usize.Parse(text).value > MAX_CARD_NUMBER)
  {
  }

  /** A text that is no draw or all-cards phrase and holds a character other than a
      digit (after an optional leading `+`), such as `"abc"`, gets the help text. */
  lemma ClassifyNonNumeric(text: string, i: nat)
    requires text !in DRAW && text !in ALL_CARDS
    requires (if |text| > 0 && text[0] == '+' then 1 else 0) <= i < |text| && !Usize.IsDigit(text[i])
    ensures Classify(Some(text)) == ShowHelp
  {
    Usize.ParseRejectsNonDigit(text, i);
  }

  /** The decimal text of a number shows that card when it is at most 77, and the help text otherwise. */
  lemma ClassifyNumber(n: nat)
    ensures Classify(Some(Usize.Format(n))) == if n <= MAX_CARD_NUMBER then ShowCard(n) else ShowHelp
    ensures Classify(Some("+" + Usize.Format(n))) == if n <= MAX_CARD_NUMBER then ShowCard(n) else ShowHelp
    ensures Classify(Some("-" + Usize.Format(n))) == ShowHelp
  {
    var f := Usize.Format(n);
    SignedNumberNotPhrase(f);
    SignedNumberNotPhrase("+" + f);
    SignedNumberNotPhrase("-" + f);
    if n <= Usize.USIZE_MAX {
      Usize.ParseFormat(n);
    } else {
      Usize.ParseOverflow(n);
    }
    assert Usize.Parse("-" + f) == None;
  }

  /** An event without text gets the text-only notice, never the help text. */
  lemma ClassifyNoText(h: TarotHandler, pick: nat, coin: bool)
    requires PickInRange(h, pick)
    ensures Classify(None) == NotText != ShowHelp
    ensures BodyFor(h, NotText, pick, coin) == Some(Messages.MsgBody(TEXT_ONLY_NOTICE))
    ensures h.helpText != TEXT_ONLY_NOTICE ==> BodyFor(h, NotText, pick, coin) != BodyFor(h, ShowHelp, pick, coin)
  {
  }

  // ---------------------------------------------------------------------------
  // The webhook step

  /** Only the first event counts: the events after it change nothing. */
  lemma OnlyFirstEvent(h: TarotHandler, first: Event, rest: seq<Event>, pick: nat, coin: bool)
    requires PickInRange(h, pick)
    ensures Handle(h, Some([first] + rest), pick, coin) == Handle(h, Some([first]), pick, coin)
  {
  }

  /** A reply is sent exactly when the first event has a reply token and its body
      could be built; the reply then holds that body with the token added. */
  lemma ReplyWhenTokenPresent(h: TarotHandler, events: seq<Event>, pick: nat, coin: bool)
    requires PickInRange(h, pick) && events != []
    requires BodyFor(h, Classify(events[0].text), pick, coin).Some?
    ensures var o := Handle(h, Some(events), pick, coin);
            var body := BodyFor(h, Classify(events[0].text), pick, coin).value;
            o.Responded?
            && (o.reply.Some? <==> events[0].replyToken.Some?)
            && (o.reply.Some? ==> o.reply.value.body.messages == body.messages)
  {
  }

  /** The handler panics exactly when the first event asks for a random card from an
      empty store, or for a card number that was not loaded. */
  lemma PanicsOnlyOnMissingCard(h: TarotHandler, events: seq<Event>, pick: nat, coin: bool)
    requires PickInRange(h, pick) && events != []
    ensures Handle(h, Some(events), pick, coin).Panicked? <==>
              (events[0].text.Some? && events[0].text.value in DRAW && h.store.cards == map[])
              || (exists n :: Classify(events[0].text) == ShowCard(n) && n !in h.store.cards)
  {
    if events[0].text.Some? && events[0].text.value in DRAW {
      ClassifyDraw(events[0].text.value);
    }
  }

  /** With every card from 0 to 77 loaded, the webhook always answers "OK". */
  lemma CompleteStoreNeverPanics(h: TarotHandler, events: Option<seq<Event>>, pick: nat, coin: bool)
    requires forall n :: n <= MAX_CARD_NUMBER ==> n in h.store.cards
    requires PickInRange(h, pick)
    ensures Handle(h, events, pick, coin).Responded?
    ensures Handle(h, events, pick, coin).response == ACK
  {
    assert 0 in h.store.cards;
  }

  /** A draw with a reply token sends one reply to that token with a text message
      followed by one image. */
  lemma DrawReplies(h: TarotHandler, token: string, pick: nat, coin: bool)
    requires h.store.cards != map[] && pick < |h.store.cards|
    ensures var o := Handle(h, Some([Event(Some(token), Some("抽卡"))]), pick, coin);
            o.Responded? && o.response == ACK && o.reply.Some?
            && o.reply.value.token == token
            && o.reply.value.body.replyToken == Some(token)
            && |o.reply.value.body.messages| == 2
            && o.reply.value.body.messages[0].Text?
            && o.reply.value.body.messages[1].Image?
  {
    assert "抽卡" in DRAW;
  }

  /** The all-cards phrase with a reply token sends one reply holding only the listing. */
  lemma AllCardsReplies(h: TarotHandler, token: string, pick: nat, coin: bool)
    requires PickInRange(h, pick)
    ensures var o := Handle(h, Some([Event(Some(token), Some("所有卡片"))]), pick, coin);
            o.Responded? && o.response == ACK && o.reply.Some?
            && o.reply.value.token == token
            && o.reply.value.body.messages == [Messages.Text(TarotInfo.AllTitlesText(h.store))]
  {
    assert "所有卡片" !in DRAW;
  }
}
