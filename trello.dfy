/**
 * The Trello board as the reconcilers see it, kept in memory: cards with
 * their list, labels, due date, custom fields, comments and attachments; the
 * board's search; and the card operations of the Trello client library that
 * the reconcilers call (add a card, set a custom field, comment, attach,
 * remove an attachment, set the due date, mark the due date complete).
 */
module Trello {

  datatype Option<T> = None | Some(value: T)

  /** The Python exceptions that escape from the reconcilers. */
  datatype Error =
    | KeyError(key: string)   // a name missing from a cached dict
    | StopIteration           // `next` over a generator that yields nothing
    | IndexError              // `[0]` of an empty search result
    | ValueError              // several cards for one calendar event
    | TypeError               // `list.append` given other than one argument

  datatype Result<T> = Ok(value: T) | Err(error: Error)

  /** How a call that returns nothing ends: normally, or by raising. */
  datatype Outcome = Pass | Raise(error: Error)

  datatype Label = Label(id: string, name: string)

  datatype Attachment = Attachment(name: string, url: string)

  /**
   * A custom-field value. The "Time (h)" field holds `str(seconds / 3600)`,
   * a float rendering; it is kept here as the number of seconds it is
   * computed from.
   */
  datatype FieldValue = Text(text: string) | Hours(seconds: nat)

  datatype Card = Card(
    id: nat,
    list: string,                       // id of the list holding the card
    name: string,
    labels: seq<Label>,
    due: Option<string>,                // ISO 8601 text, as sent to Trello
    dueComplete: bool,
    fields: map<string, FieldValue>,    // custom field name -> value
    comments: seq<string>,
    attachments: seq<Attachment>,
    open: bool)

  /** A sprint task as the scrum board delivers it; `remaining` in seconds. */
  datatype Task = Task(id: string, title: string, remaining: nat, due: string, url: string)

  datatype CalendarEvent = CalendarEvent(id: string, name: string, start: string)

  /** The cards and the next fresh card id: the part of the board the core changes. */
  datatype Snapshot = Snapshot(cards: seq<Card>, nextId: nat)

  /**
   * What a personal board reads once from Trello when it is built: list
   * name -> list id, the board's labels, and the names of its custom fields.
   */
  datatype Caches = Caches(lists: map<string, string>, labels: seq<Label>, fields: set<string>)

  /**
   * A search query. `Comment(t)` is the `comment:<t>` query, read as "the
   * card has a comment equal to t"; `Raw(t)` is free text, whose meaning is
   * the search relation of the board, left unspecified.
   */
  datatype Query = Comment(text: string) | Raw(text: string)

  /** Whether an open-card search for `q` returns card `c`. */
  predicate Answers(search: (nat, string) -> bool, c: Card, q: Query)
  {
    c.open &&
    match q
    case Comment(text) => text in c.comments
    case Raw(text) => search(c.id, text)
  }

  /** The positions, in board order, of the open cards a search for `q` returns. */
  function Hits(cards: seq<Card>, search: (nat, string) -> bool, q: Query): (r: seq<nat>)
    ensures forall k :: 0 <= k < |r| ==> r[k] < |cards| && Answers(search, cards[r[k]], q)
    ensures forall i :: 0 <= i < |cards| && Answers(search, cards[i], q) ==> i in r
    ensures forall k, l :: 0 <= k < l < |r| ==> r[k] < r[l]
  {
    if cards == [] then []
    else
      var n := |cards| - 1;
      Hits(cards[..n], search, q) + (if Answers(search, cards[n], q) then [n] else [])
  }

  /** Two boards whose cards answer `q` alike give the same search result. */
  lemma {:induction false} HitsAgree(a: seq<Card>, b: seq<Card>, search: (nat, string) -> bool, q: Query)
    requires |a| == |b|
    requires forall i :: 0 <= i < |a| ==> (Answers(search, a[i], q) <==> Answers(search, b[i], q))
    ensures Hits(a, search, q) == Hits(b, search, q)
  {
    if a != [] {
      var n := |a| - 1;
      HitsAgree(a[..n], b[..n], search, q);
    }
  }

  /**
   * `next(label for label in labels if label.name == name)`: the first
   * label with that name, or StopIteration.
   */
  function FirstLabel(labels: seq<Label>, name: string): (r: Result<Label>)
    ensures r.Ok? ==> r.value in labels && r.value.name == name
    ensures r.Ok? ==> exists k :: 0 <= k < |labels| && labels[k] == r.value &&
                                  forall j :: 0 <= j < k ==> labels[j].name != name
    ensures r.Err? <==> forall l :: l in labels ==> l.name != name
    ensures r.Err? ==> r.error == StopIteration
  {
    if labels == [] then Err(StopIteration)
    else if labels[0].name == name then Ok(labels[0])
    else
      var rest := FirstLabel(labels[1..], name);
      if rest.Ok? then
        ghost var k :| 0 <= k < |labels[1..]| && labels[1..][k] == rest.value &&
                       forall j :: 0 <= j < k ==> labels[1..][j].name != name;
        assert labels[k + 1] == rest.value;
        rest
      else
        assert forall l :: l in labels ==> l == labels[0] || l in labels[1..];
        rest
  }

  /** `d[key]` on a dict of strings: the value, or KeyError. */
  function Lookup(d: map<string, string>, key: string): (r: Result<string>)
    ensures r.Ok? <==> key in d
    ensures r.Ok? ==> r.value == d[key]
    ensures r.Err? ==> r.error == KeyError(key)
  {
    if key in d then Ok(d[key]) else Err(KeyError(key))
  }

  /** The attachments whose URL is not `url`, in their order. */
  function WithoutUrl(atts: seq<Attachment>, url: string): (r: seq<Attachment>)
    ensures |r| <= |atts|
    ensures forall a :: a in r <==> a in atts && a.url != url
  {
    if atts == [] then []
    else (if atts[0].url == url then [] else [atts[0]]) + WithoutUrl(atts[1..], url)
  }

  /** How many attachments point at `url`. */
  function CountUrl(atts: seq<Attachment>, url: string): (n: nat)
    ensures n <= |atts|
    ensures n == 0 <==> forall a :: a in atts ==> a.url != url
  {
    if atts == [] then 0
    else (if atts[0].url == url then 1 else 0) + CountUrl(atts[1..], url)
  }

  lemma {:induction false} WithoutUrlAppend(a: seq<Attachment>, b: seq<Attachment>, url: string)
    ensures WithoutUrl(a + b, url) == WithoutUrl(a, url) + WithoutUrl(b, url)
  {
    if a != [] {
      assert (a + b)[1..] == a[1..] + b;
      WithoutUrlAppend(a[1..], b, url);
    } else {
      assert a + b == b;
    }
  }

  lemma {:induction false} CountUrlAppend(a: seq<Attachment>, b: seq<Attachment>, url: string)
    ensures CountUrl(a + b, url) == CountUrl(a, url) + CountUrl(b, url)
  {
    if a != [] {
      assert (a + b)[1..] == a[1..] + b;
      CountUrlAppend(a[1..], b, url);
    } else {
      assert a + b == b;
    }
  }

  /**
   * One step of removing, from the back, the attachments to `url`: position
   * `k` is dropped when it points at `url` and kept otherwise.
   */
  lemma WithoutUrlStep(atts: seq<Attachment>, k: nat, url: string, now: seq<Attachment>)
    requires k < |atts| && now == atts[..k + 1] + WithoutUrl(atts[k + 1..], url)
    ensures k < |now| && now[k] == atts[k]
    ensures atts[k].url == url ==> now[..k] + now[k + 1..] == atts[..k] + WithoutUrl(atts[k..], url)
    ensures atts[k].url != url ==> now == atts[..k] + WithoutUrl(atts[k..], url)
  {
    var rest := WithoutUrl(atts[k + 1..], url);
    WithoutUrlAt(atts, k, url);
    PrefixStep(atts, k, rest);
    assert now == atts[..k] + [atts[k]] + rest;
    assert now[..k] == atts[..k] && now[k + 1..] == rest;
  }

  /** `WithoutUrl` from position `k` on, one step unfolded. */
  lemma WithoutUrlAt(atts: seq<Attachment>, k: nat, url: string)
    requires k < |atts|
    ensures WithoutUrl(atts[k..], url) ==
            (if atts[k].url == url then [] else [atts[k]]) + WithoutUrl(atts[k + 1..], url)
  {
    assert atts[k..][0] == atts[k] && atts[k..][1..] == atts[k + 1..];
  }

  lemma PrefixStep<T>(xs: seq<T>, k: nat, rest: seq<T>)
    requires k < |xs|
    ensures xs[..k + 1] + rest == xs[..k] + [xs[k]] + rest
    ensures xs[..k] + ([xs[k]] + rest) == xs[..k + 1] + rest
  {
    assert xs[..k + 1] == xs[..k] + [xs[k]];
  }

  /** Nothing to drop when no attachment points at `url`. */
  lemma {:induction false} WithoutUrlNone(atts: seq<Attachment>, url: string)
    requires forall a :: a in atts ==> a.url != url
    ensures WithoutUrl(atts, url) == atts
  {
    if atts != [] {
      assert forall a :: a in atts[1..] ==> a in atts;
      WithoutUrlNone(atts[1..], url);
    }
  }

  /** The attachments kept plus the attachments dropped are all of them. */
  lemma {:induction false} CountUrlSplit(atts: seq<Attachment>, url: string)
    ensures |WithoutUrl(atts, url)| + CountUrl(atts, url) == |atts|
  {
    if atts != [] {
      CountUrlSplit(atts[1..], url);
    }
  }

  /** A search no card answers returns nothing. */
  lemma {:induction false} HitsNone(cards: seq<Card>, search: (nat, string) -> bool, q: Query)
    requires forall i :: 0 <= i < |cards| ==> !Answers(search, cards[i], q)
    ensures Hits(cards, search, q) == []
  {
    if cards != [] {
      HitsNone(cards[..|cards| - 1], search, q);
    }
  }

  /** A search whose only answer is the first card returns just that card. */
  lemma HitsOnlyFirst(cards: seq<Card>, search: (nat, string) -> bool, q: Query)
    requires |cards| > 0 && Answers(search, cards[0], q)
    requires forall i :: 1 <= i < |cards| ==> !Answers(search, cards[i], q)
    ensures Hits(cards, search, q) == [0]
  {
    var r := Hits(cards, search, q);
    assert 0 in r;
    assert forall k :: 0 <= k < |r| ==> r[k] == 0;
  }

  /** A card put on top of a board where nothing answers `q` is the only answer, if it answers. */
  lemma HitsOnTop(c: Card, cards: seq<Card>, search: (nat, string) -> bool, q: Query)
    requires Hits(cards, search, q) == []
    ensures Hits([c] + cards, search, q) == if Answers(search, c, q) then [0] else []
  {
    var all := [c] + cards;
    forall i | 1 <= i < |all|
      ensures !Answers(search, all[i], q)
    {
      assert all[i] == cards[i - 1];
    }
    if Answers(search, c, q) {
      HitsOnlyFirst(all, search, q);
    } else {
      HitsNone(all, search, q);
    }
  }

  /** A board that answers `q` still does with a card put on top. */
  lemma HitsUnderTop(c: Card, cards: seq<Card>, search: (nat, string) -> bool, q: Query)
    requires Hits(cards, search, q) != []
    ensures Hits([c] + cards, search, q) != []
  {
    var i := Hits(cards, search, q)[0];
    assert ([c] + cards)[i + 1] == cards[i];
    assert i + 1 in Hits([c] + cards, search, q);
  }

  /** A fresh card as `add_card` makes it: no fields, comments or attachments. */
  function NewCard(id: nat, list: string, name: string, labels: seq<Label>, due: Option<string>): Card
  {
    Card(id, list, name, labels, due, false, map[], [], [], true)
  }

  /** Names the reconcilers look up on the board. */
  const BacklogList := "[Backlog] On Hold"
  const DoneList := "Done"
  const SprintLabel := "task:sprint"
  const TaskField := "Task"
  const TimeField := "Time (h)"
  const CalendarField := "CalendarId"
  const TaskUrlName := "Task URL"
  const MeetingTemplate := "Meeting"

  /** How an operation ended and the board it left behind. */
  datatype Step = Step(outcome: Outcome, after: Snapshot)

  /*
   * The done pass, the same in both reconcilers (`update_done` and
   * `_validate_done`): every card of the "Done" list that has a due date is
   * marked due-complete.
   */

  /** `List.list_cards()` returns the open cards of the list. */
  predicate ListedIn(c: Card, listId: string)
  {
    c.open && c.list == listId
  }

  /** A card after the done pass: due-complete if it is in the list and has a due date. */
  function Closed(c: Card, listId: string): Card
  {
    if ListedIn(c, listId) && c.due.Some? then c.(dueComplete := true) else c
  }

  function CloseDue(cards: seq<Card>, listId: string): seq<Card>
  {
    seq(|cards|, i requires 0 <= i < |cards| => Closed(cards[i], listId))
  }

  /** `update_done`: mark due-complete every due-dated card of the "Done" list. */
  function MarkDone(caches: Caches, s: Snapshot): Step
  {
    if DoneList !in caches.lists then Step(Raise(KeyError(DoneList)), s)
    else Step(Pass, s.(cards := CloseDue(s.cards, caches.lists[DoneList])))
  }

  /**
   * The done pass marks due-complete exactly the open cards of the "Done"
   * list that have a due date; every other card, and every other attribute,
   * stays as it was. Without a "Done" list it raises KeyError and changes
   * nothing.
   */
  lemma MarkDoneExact(caches: Caches, s: Snapshot)
    ensures DoneList !in caches.lists ==> MarkDone(caches, s) == Step(Raise(KeyError(DoneList)), s)
    ensures DoneList in caches.lists ==>
              var r := MarkDone(caches, s);
              r.outcome == Pass && r.after.nextId == s.nextId && |r.after.cards| == |s.cards| &&
              forall i :: 0 <= i < |s.cards| ==>
                r.after.cards[i].dueComplete ==
                  (s.cards[i].dueComplete || (ListedIn(s.cards[i], caches.lists[DoneList]) && s.cards[i].due.Some?)) &&
                r.after.cards[i].(dueComplete := s.cards[i].dueComplete) == s.cards[i]
  {
  }

  /** A second done pass changes nothing further. */
  lemma MarkDoneIdempotent(caches: Caches, s: Snapshot)
    ensures var r := MarkDone(caches, s);
      MarkDone(caches, r.after) == r
  {
    if DoneList in caches.lists {
      var r := MarkDone(caches, s);
      assert CloseDue(r.after.cards, caches.lists[DoneList]) == r.after.cards;
    }
  }

  /**
   * A board reached through the Trello client: its cards in board order,
   * the next id Trello hands out, and the board's search relation between
   * card ids and free-text queries.
   */
  class Board {
    var cards: seq<Card>
    var nextId: nat
    const search: (nat, string) -> bool

    /** Every card id was handed out before `nextId`. */
    ghost predicate Valid()
      reads this
    {
      forall i :: 0 <= i < |cards| ==> cards[i].id < nextId
    }

    function View(): Snapshot
      reads this
    {
      Snapshot(cards, nextId)
    }

    constructor (cards: seq<Card>, nextId: nat, search: (nat, string) -> bool)
      requires forall i :: 0 <= i < |cards| ==> cards[i].id < nextId
      ensures Valid()
      ensures this.cards == cards && this.nextId == nextId && this.search == search
    {
      this.cards := cards;
      this.nextId := nextId;
      this.search := search;
    }

    /** `List.add_card(name, labels=..., due=..., position=0)`: a new card on top. */
    method AddCardOnTop(list: string, name: string, labels: seq<Label>, due: Option<string>)
      requires Valid()
      modifies this
      ensures Valid()
      ensures cards == [NewCard(old(nextId), list, name, labels, due)] + old(cards)
      ensures nextId == old(nextId) + 1
      ensures forall j :: 1 <= j < |cards| ==> cards[j].id != cards[0].id
    {
      cards := [NewCard(nextId, list, name, labels, due)] + cards;
      nextId := nextId + 1;
    }

    /**
     * `List.add_card(name, source=template)`: a copy of `source` (everything
     * kept) with a new id, list and name, at the bottom.
     */
    method CopyCard(list: string, name: string, source: Card)
      requires Valid()
      modifies this
      ensures Valid()
      ensures cards == old(cards) + [source.(id := old(nextId), list := list, name := name, open := true)]
      ensures nextId == old(nextId) + 1
      ensures forall j :: 0 <= j < |cards| - 1 ==> cards[j].id != cards[|cards| - 1].id
    {
      cards := cards + [source.(id := nextId, list := list, name := name, open := true)];
      nextId := nextId + 1;
    }

    method SetCustomField(i: nat, field: string, value: FieldValue)
      requires Valid() && i < |cards|
      modifies this
      ensures Valid()
      ensures cards == old(cards)[i := old(cards[i]).(fields := old(cards[i]).fields[field := value])]
      ensures nextId == old(nextId)
    {
      cards := cards[i := cards[i].(fields := cards[i].fields[field := value])];
    }

    method AddComment(i: nat, text: string)
      requires Valid() && i < |cards|
      modifies this
      ensures Valid()
      ensures cards == old(cards)[i := old(cards[i]).(comments := old(cards[i]).comments + [text])]
      ensures nextId == old(nextId)
    {
      cards := cards[i := cards[i].(comments := cards[i].comments + [text])];
    }

    method Attach(i: nat, name: string, url: string)
      requires Valid() && i < |cards|
      modifies this
      ensures Valid()
      ensures cards == old(cards)[i := old(cards[i]).(attachments := old(cards[i]).attachments + [Attachment(name, url)])]
      ensures nextId == old(nextId)
    {
      cards := cards[i := cards[i].(attachments := cards[i].attachments + [Attachment(name, url)])];
    }

    /** `Card.remove_attachment`: drops the `k`-th attachment of card `i`. */
    method RemoveAttachment(i: nat, k: nat)
      requires Valid() && i < |cards| && k < |cards[i].attachments|
      modifies this
      ensures Valid()
      ensures cards == old(cards)[i := old(cards[i]).(attachments :=
                old(cards[i]).attachments[..k] + old(cards[i]).attachments[k + 1..])]
      ensures nextId == old(nextId)
    {
      var atts := cards[i].attachments;
      cards := cards[i := cards[i].(attachments := atts[..k] + atts[k + 1..])];
    }

    method SetDue(i: nat, due: string)
      requires Valid() && i < |cards|
      modifies this
      ensures Valid()
      ensures cards == old(cards)[i := old(cards[i]).(due := Some(due))]
      ensures nextId == old(nextId)
    {
      cards := cards[i := cards[i].(due := Some(due))];
    }

    method SetDueComplete(i: nat)
      requires Valid() && i < |cards|
      modifies this
      ensures Valid()
      ensures cards == old(cards)[i := old(cards[i]).(dueComplete := true)]
      ensures nextId == old(nextId)
    {
      cards := cards[i := cards[i].(dueComplete := true)];
    }
  }
}
