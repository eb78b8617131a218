/**
 * The card store (`TarotStore`): the map from card id to card record built at
 * start-up from a directory of JSON files, and the three queries the handler
 * asks of it (all titles, one card by id, a random card).
 *
 * The directory walk is given as the sequence of entries it yields, each with
 * its file name and what reading and decoding the file gave. Randomness is
 * injected: the position of the drawn id among the loaded ids, and the coin
 * that picks the reversed image.
 */
module TarotInfo {
  import opened Wrappers
  import Text
  import Usize
  import OrderedKeys
  import Messages
  import Inserts

  /** Placeholder for a missing title in the all-titles listing. */
  const NO_TITLE := "無法獲得卡片"
  /** Placeholder for a missing title in a single card's text. */
  const UNKNOWN_CARD := "未知卡片"

  /**
   * A decoded card file. A field is `Some` when the JSON document is an object
   * holding that key with a string value; a document that is not an object,
   * a missing key and a non-string value all read as `None`.
   */
  datatype CardRecord = CardRecord(
    title: Option<string>,
    shortDescription: Option<string>,
    sourceUrl: Option<string>,
    uprightPath: Option<string>,
    reversedPath: Option<string>)

  /** What reading a directory entry gives: nothing, text that is not JSON, or a card. */
  datatype FileContent = Unreadable | NotJson | Json(record: CardRecord)

  datatype DirEntry = DirEntry(fileName: string, content: FileContent)

  datatype TarotEvent = AllTitles | Random | Single(index: nat)

  datatype TarotStore = TarotStore(cards: map<nat, CardRecord>, baseUrl: string)

  /** The ids of a store fit in a `usize`, as those of every loaded store do. */
  predicate Valid(store: TarotStore) {
    forall id :: id in store.cards ==> id <= Usize.USIZE_MAX
  }

  // ---------------------------------------------------------------------------
  // Loading

  /** The id under which the load loop stores an entry, or `None` when it skips it:
      the extension must be `json`, the file must read and decode, and the file
      name's text before the first `_` must parse as a `usize`. */
  function StoredId(e: DirEntry): (r: Option<nat>)
    ensures r.Some? ==> Text.Extension(e.fileName) == Some("json") && e.content.Json?
    ensures r.Some? ==> r.value <= Usize.USIZE_MAX
  {
    if Text.Extension(e.fileName) != Some("json") || !e.content.Json? then None
    else Usize.Parse(Text.FirstSegment(e.fileName, '_'))
  }

  /** The insert one entry makes (its id and card), or `None` when the loop skips it. */
  function Stored(e: DirEntry): Option<(nat, CardRecord)>
  {
    match StoredId(e)
    case None => None
    case Some(id) => Some((id, e.content.record))
  }

  /** The inserts the load loop makes, one per entry, in walk order. */
  function LoadOps(entries: seq<DirEntry>): seq<Option<(nat, CardRecord)>>
  {
    seq(|entries|, i requires 0 <= i < |entries| => Stored(entries[i]))
  }

  /** The card map after loading `entries` in order into an empty map. */
  function Loaded(entries: seq<DirEntry>): (cards: map<nat, CardRecord>)
    ensures |cards| <= |entries|
  {
    Inserts.Applied(LoadOps(entries))
  }

  /**
   * `TarotStore::new`: walk the entries, skipping every one that is not a
   * `.json` file, cannot be read, has no `usize` before its first `_` or does
   * not decode, and insert the rest under their id; the base URL for images is
   * the `GITHUB_URL` setting, empty when unset.
   */
  method Load(entries: seq<DirEntry>, githubUrl: Option<string>) returns (store: TarotStore)
    ensures store.cards == Loaded(entries)
    ensures store.baseUrl == githubUrl.GetOr("")
    ensures Valid(store)
  {
    var cards: map<nat, CardRecord> := map[];
    for i := 0 to |entries|
      invariant cards == Loaded(entries[..i])
    {
      LoadedSnoc(entries[..i], entries[i]);
      assert entries[..i] + [entries[i]] == entries[..i + 1];
      var entry := entries[i];
      if Text.Extension(entry.fileName) != Some("json") {
        continue;
      }
      if !entry.content.Unreadable? {
        var index := Usize.Parse(Text.FirstSegment(entry.fileName, '_'));
        if index.Some? && entry.content.Json? {
          cards := cards[index.value := entry.content.record];
        }
      }
    }
    assert entries[..|entries|] == entries;
    LoadedFits(entries);
    store := TarotStore(cards, githubUrl.GetOr(""));
  }

  lemma LoadedSnoc(entries: seq<DirEntry>, e: DirEntry)
    ensures Loaded(entries + [e])
            == if StoredId(e).Some? then Loaded(entries)[StoredId(e).value := e.content.record] else Loaded(entries)
  {
    assert LoadOps(entries + [e]) == LoadOps(entries) + [Stored(e)];
    Inserts.AppliedSnoc(LoadOps(entries), Stored(e));
  }

  lemma LoadOpsAppend(a: seq<DirEntry>, b: seq<DirEntry>)
    ensures LoadOps(a + b) == LoadOps(a) + LoadOps(b)
  {
    var whole, left, right := LoadOps(a + b), LoadOps(a), LoadOps(b);
    forall i | 0 <= i < |a| + |b| ensures whole[i] == (left + right)[i] {
      if i < |a| {
        assert (a + b)[i] == a[i];
      } else {
        assert (a + b)[i] == b[i - |a|];
      }
    }
  }

  /** Every loaded id fits in a `usize`. */
  lemma LoadedFits(entries: seq<DirEntry>)
    ensures Valid(TarotStore(Loaded(entries), ""))
  {
    forall id | id in Loaded(entries) ensures id <= Usize.USIZE_MAX {
      LoadedKeys(entries, id);
    }
  }

  /**
   * An entry the loop skips (wrong extension, unreadable, no `usize` prefix, or
   * not decodable) changes nothing, wherever it stands in the walk.
   */
  lemma SkippedEntryIgnored(before: seq<DirEntry>, e: DirEntry, after: seq<DirEntry>)
    requires Text.Extension(e.fileName) != Some("json") || !e.content.Json?
             || Usize.Parse(Text.FirstSegment(e.fileName, '_')).None?
    ensures Loaded(before + [e] + after) == Loaded(before + after)
  {
    var pre, post := LoadOps(before), LoadOps(after);
    assert LoadOps([e]) == [None];
    LoadOpsAppend(before, [e]);
    LoadOpsAppend(before + [e], after);
    LoadOpsAppend(before, after);
    assert LoadOps(before + [e] + after) == pre + [None] + post;
    Inserts.SkipIgnored(pre, post);
  }

  /** Entry `i` is the last of `entries` stored under `id`. */
  predicate LastStoredAt(entries: seq<DirEntry>, id: nat, i: int) {
    0 <= i < |entries| && StoredId(entries[i]) == Some(id)
    && forall j :: i < j < |entries| ==> StoredId(entries[j]) != Some(id)
  }

  /** The loaded map holds exactly the ids under which some entry is stored. */
  lemma LoadedKeys(entries: seq<DirEntry>, id: nat)
    ensures id in Loaded(entries) <==> exists i :: 0 <= i < |entries| && StoredId(entries[i]) == Some(id)
  {
    var ops := LoadOps(entries);
    assert Loaded(entries) == Inserts.Applied(ops);
    Inserts.AppliedKeys(ops, id);
    if exists i :: 0 <= i < |entries| && StoredId(entries[i]) == Some(id) {
      var i :| 0 <= i < |entries| && StoredId(entries[i]) == Some(id);
      assert ops[i] == Stored(entries[i]);
      assert Inserts.InsertsAt(ops, id, i);
    }
    if exists i :: Inserts.InsertsAt(ops, id, i) {
      var i :| Inserts.InsertsAt(ops, id, i);
      assert ops[i] == Stored(entries[i]);
      assert StoredId(entries[i]) == Some(id);
    }
  }

  /** Under each loaded id lies the card of the last entry stored with it: a later
      file with the same id overwrites an earlier one. */
  lemma LoadedValue(entries: seq<DirEntry>, id: nat, i: nat)
    requires LastStoredAt(entries, id, i)
    ensures id in Loaded(entries) && Loaded(entries)[id] == entries[i].content.record
  {
    var ops := LoadOps(entries);
    forall j | i < j < |ops| ensures !Inserts.InsertsAt(ops, id, j) {
      assert StoredId(entries[j]) != Some(id);
    }
    Inserts.AppliedValue(ops, id, i);
  }

  /** Loading a second file with an id already loaded puts its card under that id
      and leaves every other id as it was. */
  lemma DuplicateOverwrites(entries: seq<DirEntry>, e: DirEntry, id: nat)
    requires id in Loaded(entries) && StoredId(e) == Some(id)
    ensures Loaded(entries + [e])[id] == e.content.record
    ensures Loaded(entries + [e]).Keys == Loaded(entries).Keys
    ensures forall k :: k in Loaded(entries) && k != id ==> Loaded(entries + [e])[k] == Loaded(entries)[k]
  {
    var m, m' := Loaded(entries), Loaded(entries + [e]);
    LoadedSnoc(entries, e);
    assert m' == m[id := e.content.record];
  }

  /** A data file named `<id>_<anything>.json` that decodes is stored under its id. */
  lemma CardFileStored(id: nat, rest: string, card: CardRecord)
    requires id <= Usize.USIZE_MAX
    ensures StoredId(DirEntry(Usize.Format(id) + "_" + rest + ".json", Json(card))) == Some(id)
  {
    var f := Usize.Format(id);
    var name := f + "_" + rest + ".json";
    assert Text.Extension(name) == Some("json") by {
      assert name == (f + "_" + rest) + "." + "json";
      Text.ExtensionOf(f + "_" + rest, "json");
    }
    assert Text.FirstSegment(name, '_') == f by {
      assert name == f + ['_'] + (rest + ".json");
      assert '_' !in f by {
        forall i | 0 <= i < |f| ensures f[i] != '_' {
          assert Usize.IsDigit(f[i]);
        }
      }
      Text.FirstSegmentOf(f, '_', rest + ".json");
    }
    Usize.ParseFormat(id);
  }

  // ---------------------------------------------------------------------------
  // Queries

  /** One line of the all-titles listing: `"<id>: <title>"`. */
  function TitleLine(id: nat, card: CardRecord): (line: string)
    ensures Text.FirstSegment(line, ':') == Usize.Format(id)
    ensures var title := card.title.GetOr(NO_TITLE);
            |line| == |Usize.Format(id)| + 2 + |title| && line[|line| - |title| - 2..] == ": " + title
  {
    var f := Usize.Format(id);
    var title := card.title.GetOr(NO_TITLE);
    assert forall i :: 0 <= i < |f| ==> Usize.IsDigit(f[i]);
    assert f + ": " + title == f + [':'] + (" " + title);
    Text.FirstSegmentOf(f, ':', " " + title);
    f + ": " + title
  }

  /** The listing lines, one per stored id, in ascending id order. */
  function TitleLines(store: TarotStore): (lines: seq<string>)
    ensures |lines| == |store.cards|
    ensures forall i :: 0 <= i < |lines| ==>
              OrderedKeys.Sorted(store.cards.Keys)[i] in store.cards
              && lines[i] == TitleLine(OrderedKeys.Sorted(store.cards.Keys)[i],
                                       store.cards[OrderedKeys.Sorted(store.cards.Keys)[i]])
  {
    var ids := OrderedKeys.Sorted(store.cards.Keys);
    seq(|ids|, i requires 0 <= i < |ids| => TitleLine(ids[i], store.cards[ids[i]]))
  }

  /** The listing lines joined by newlines. */
  function AllTitlesText(store: TarotStore): string
  {
    Text.Join(TitleLines(store), '\n')
  }

  /** `get_all_tarot_title`: the listing as one text message. */
  function AllTitlesBody(store: TarotStore): (b: Messages.Body)
    ensures Messages.TextOf(b) == Some(AllTitlesText(store))
    ensures Messages.ImageUrlOf(b) == None
    ensures |b.messages| == 1 && b.replyToken == None
  {
    Messages.MsgBody(AllTitlesText(store))
  }

  /** The text of a card: title, blank line, description, blank line, source URL. */
  function CardText(card: CardRecord): (msg: string)
    ensures var t, u := card.title.GetOr(UNKNOWN_CARD), card.sourceUrl.GetOr("");
            |msg| >= |t| + |u| + 4 && msg[..|t| + 2] == t + "\n\n" && msg[|msg| - |u| - 2..] == "\n\n" + u
  {
    card.title.GetOr(UNKNOWN_CARD) + "\n\n" + card.shortDescription.GetOr("") + "\n\n" + card.sourceUrl.GetOr("")
  }

  /** The image path of a card: the reversed one when asked for, else the upright one. */
  function ImagePath(card: CardRecord, reversed: bool): (path: string)
    ensures reversed && card.reversedPath.Some? ==> path == card.reversedPath.value
    ensures !reversed && card.uprightPath.Some? ==> path == card.uprightPath.value
    ensures (if reversed then card.reversedPath else card.uprightPath).None? ==> path == ""
  {
    (if reversed then card.reversedPath else card.uprightPath).GetOr("")
  }

  /**
   * `get_single_tarot_info`: the card's text and its image at `baseUrl + "/" +
   * path`. The reversed image is used only when the draw is random and the coin
   * shows true. `None` stands for the panic of `unwrap()` on an id that is not loaded.
   */
  function SingleInfo(store: TarotStore, index: nat, isRandomReverse: bool, coin: bool): (r: Option<Messages.Body>)
    ensures r.Some? <==> index in store.cards
    ensures r.Some? ==> Messages.TextOf(r.value) == Some(CardText(store.cards[index]))
    ensures r.Some? ==> Messages.ImageUrlOf(r.value)
                        == Some(store.baseUrl + "/" + ImagePath(store.cards[index], isRandomReverse && coin))
  {
    if index !in store.cards then None
    else
      var card := store.cards[index];
      var imagePath := ImagePath(card, isRandomReverse && coin);
      Some(Messages.ImageBody(CardText(card), store.baseUrl + "/" + imagePath))
  }

  /** The id a random draw picks: the `pick`-th loaded id in ascending order.
      `None` stands for the panic of `unwrap()` when nothing is loaded. */
  function RandomIndex(store: TarotStore, pick: nat): (r: Option<nat>)
    requires store.cards != map[] ==> pick < |store.cards|
    ensures r.None? <==> store.cards == map[]
    ensures r.Some? ==> r.value in store.cards
  {
    var ids := OrderedKeys.Sorted(store.cards.Keys);
    if ids == [] then None else Some(ids[pick])
  }

  /** `get_random_tarot_info`: the drawn card, its image chosen by the coin. */
  function RandomInfo(store: TarotStore, pick: nat, coin: bool): (r: Option<Messages.Body>)
    requires store.cards != map[] ==> pick < |store.cards|
    ensures r.Some? <==> store.cards != map[]
    ensures r.Some? ==> exists id :: id in store.cards && r == SingleInfo(store, id, true, coin)
  {
    match RandomIndex(store, pick)
    case None => None
    case Some(id) => SingleInfo(store, id, true, coin)
  }

  /** `get_tarot_info`: answer one query. */
  function GetTarotInfo(store: TarotStore, event: TarotEvent, pick: nat, coin: bool): (r: Option<Messages.Body>)
    requires store.cards != map[] ==> pick < |store.cards|
    ensures r.None? <==> (event.Random? && store.cards == map[]) || (event.Single? && event.index !in store.cards)
  {
    match event
    case AllTitles => Some(AllTitlesBody(store))
    case Random => RandomInfo(store, pick, coin)
    case Single(index) => SingleInfo(store, index, false, coin)
  }

  // ---------------------------------------------------------------------------
  // Properties of the queries

  /** The text of a card shows its title (or the placeholder), its description
      and its source URL verbatim, in that order, separated by blank lines. */
  lemma CardTextFields(card: CardRecord)
    ensures var t, d, u := card.title.GetOr(UNKNOWN_CARD), card.shortDescription.GetOr(""), card.sourceUrl.GetOr("");
            var msg := CardText(card);
            |msg| == |t| + |d| + |u| + 4
            && msg[..|t|] == t
            && msg[|t|..|t| + 2] == "\n\n"
            && msg[|t| + 2..|t| + 2 + |d|] == d
            && msg[|t| + 2 + |d|..|t| + 4 + |d|] == "\n\n"
            && msg[|t| + 4 + |d|..] == u
  {
  }

  /** A title without line breaks is the first line of the card's text. */
  lemma CardTextFirstLine(card: CardRecord)
    requires '\n' !in card.title.GetOr(UNKNOWN_CARD)
    ensures Text.FirstSegment(CardText(card), '\n') == card.title.GetOr(UNKNOWN_CARD)
  {
    var t := card.title.GetOr(UNKNOWN_CARD);
    assert CardText(card) == t + ['\n'] + ("\n" + card.shortDescription.GetOr("") + "\n\n" + card.sourceUrl.GetOr(""));
    Text.FirstSegmentOf(t, '\n', "\n" + card.shortDescription.GetOr("") + "\n\n" + card.sourceUrl.GetOr(""));
  }

  /** A lookup by id always shows the upright image, whatever the coin. */
  lemma SingleIsUpright(store: TarotStore, index: nat, pick: nat, coin: bool)
    requires store.cards != map[] ==> pick < |store.cards|
    requires index in store.cards
    ensures GetTarotInfo(store, Single(index), pick, coin) == GetTarotInfo(store, Single(index), pick, !coin)
    ensures Messages.ImageUrlOf(GetTarotInfo(store, Single(index), pick, coin).value)
            == Some(store.baseUrl + "/" + ImagePath(store.cards[index], false))
  {
  }

  /** A random draw shows the reversed image exactly when the coin is true. */
  lemma RandomImageFollowsCoin(store: TarotStore, pick: nat, coin: bool)
    requires store.cards != map[] && pick < |store.cards|
    ensures var id := RandomIndex(store, pick).value;
            Messages.ImageUrlOf(GetTarotInfo(store, Random, pick, coin).value)
            == Some(store.baseUrl + "/" + ImagePath(store.cards[id], coin))
  {
  }

  /** Every loaded id can be drawn: some pick selects it. */
  lemma RandomReachesEveryCard(store: TarotStore, id: nat)
    requires id in store.cards
    ensures exists pick: nat :: pick < |store.cards| && RandomIndex(store, pick) == Some(id)
  {
    var ids := OrderedKeys.Sorted(store.cards.Keys);
    assert id in ids;
    var pick :| 0 <= pick < |ids| && ids[pick] == id;
    assert RandomIndex(store, pick) == Some(id);
  }

  /** Different picks draw different ids, so picks and loaded ids correspond one to one
      and a uniform pick is a uniform draw over the loaded ids. */
  lemma RandomPicksDistinct(store: TarotStore, p1: nat, p2: nat)
    requires p1 < |store.cards| && p2 < |store.cards| && p1 != p2
    ensures RandomIndex(store, p1) != RandomIndex(store, p2)
  {
    var ids := OrderedKeys.Sorted(store.cards.Keys);
    assert ids[p1] != ids[p2];
  }

  /** Titles in `store` contain no line break. */
  predicate SingleLineTitles(store: TarotStore) {
    forall id :: id in store.cards ==> '\n' !in store.cards[id].title.GetOr(NO_TITLE)
  }

  /**
   * The all-titles text of an empty store is empty. Read back line by line, the
   * text of a non-empty store gives the listing lines again (one per loaded id,
   * in ascending id order), and it does not end with a newline.
   */
  lemma AllTitlesListing(store: TarotStore)
    requires SingleLineTitles(store)
    ensures store.cards == map[] ==> AllTitlesText(store) == ""
    ensures store.cards != map[] ==> Text.Split(AllTitlesText(store), '\n') == TitleLines(store)
    ensures store.cards != map[] ==> AllTitlesText(store)[|AllTitlesText(store)| - 1] != '\n'
  {
    if store.cards == map[] {
      return;
    }
    var ids := OrderedKeys.Sorted(store.cards.Keys);
    var lines := TitleLines(store);
    forall i | 0 <= i < |lines| ensures '\n' !in lines[i] {
      TitleLineFields(ids[i], store.cards[ids[i]]);
    }
    Text.SplitJoin(lines, '\n');
    Text.JoinEndsWithLast(lines, '\n');
    var last := lines[|lines| - 1];
    TitleLineFields(ids[|lines| - 1], store.cards[ids[|lines| - 1]]);
    var text := Text.Join(lines, '\n');
    assert text[|text| - 1] == text[|text| - |last|..][|last| - 1];
  }

  /** Each listing line names its id: the text before its `:` parses back to the
      `i`-th loaded id in ascending order. */
  lemma ListingIds(store: TarotStore, i: nat)
    requires Valid(store) && i < |store.cards|
    ensures Usize.Parse(Text.FirstSegment(TitleLines(store)[i], ':'))
            == Some(OrderedKeys.Sorted(store.cards.Keys)[i])
  {
    var id := OrderedKeys.Sorted(store.cards.Keys)[i];
    TitleLineId(id, store.cards[id]);
  }

  /** The text before the `:` of a listing line is its id. */
  lemma TitleLineId(id: nat, card: CardRecord)
    requires id <= Usize.USIZE_MAX
    ensures Usize.Parse(Text.FirstSegment(TitleLine(id, card), ':')) == Some(id)
  {
    var f := Usize.Format(id);
    var title := card.title.GetOr(NO_TITLE);
    assert forall i :: 0 <= i < |f| ==> Usize.IsDigit(f[i]);
    assert TitleLine(id, card) == f + [':'] + (" " + title);
    Text.FirstSegmentOf(f, ':', " " + title);
    Usize.ParseFormat(id);
  }

  /** A listing line is non-empty and has no line break when its title has none. */
  lemma TitleLineFields(id: nat, card: CardRecord)
    requires '\n' !in card.title.GetOr(NO_TITLE)
    ensures var line := TitleLine(id, card);
            '\n' !in line && |line| > 0
  {
    var f := Usize.Format(id);
    assert forall i :: 0 <= i < |f| ==> Usize.IsDigit(f[i]);
  }
}
