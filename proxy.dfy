/**
 * `TrelloProxy` of `jotfiles/trello/trello_hooks.py`, the older board
 * reconciler. It finds cards by the raw task or event id, writes no marker
 * comment, and syncs a card only by attaching the task URL again, so
 * repeated upserts pile up attachments. Its calendar upsert only checks
 * for conflicts. Its done pass is `Trello.MarkDone`.
 */
module Proxy {
  import opened Trello

  /** `_update_card`: one more "Task URL" attachment; nothing is removed. */
  function AttachTask(c: Card, t: Task): Card
  {
    c.(attachments := c.attachments + [Attachment(TaskUrlName, t.url)])
  }

  function AttachAt(cards: seq<Card>, hits: seq<nat>, t: Task): seq<Card>
  {
    seq(|cards|, i requires 0 <= i < |cards| => if i in hits then AttachTask(cards[i], t) else cards[i])
  }

  /** `TrelloProxy.upsert_task_card` */
  function UpsertTask(caches: Caches, search: (nat, string) -> bool, s: Snapshot, t: Task): Step
  {
    var hits := Hits(s.cards, search, Raw(t.id));
    if |hits| != 0 then Step(Pass, s.(cards := AttachAt(s.cards, hits, t)))
    else if BacklogList !in caches.lists then Step(Raise(KeyError(BacklogList)), s)
    else
      var lbl := FirstLabel(caches.labels, SprintLabel);
      if lbl.Err? then Step(Raise(lbl.error), s)
      else
        var card := NewCard(s.nextId, caches.lists[BacklogList], t.title, [lbl.value], Some(t.due));
        if TaskField !in caches.fields then
          Step(Raise(KeyError(TaskField)), Snapshot([card] + s.cards, s.nextId + 1))
        else
          var keyed := card.(fields := card.fields[TaskField := Text(t.id)]);
          Step(Pass, Snapshot(AttachAt([keyed] + s.cards, [0], t), s.nextId + 1))
  }

  /** `TrelloProxy.upsert_calendar_card`: only the conflict check. */
  function UpsertCalendar(search: (nat, string) -> bool, s: Snapshot, e: CalendarEvent): Step
  {
    if |Hits(s.cards, search, Raw(e.id))| > 1 then Step(Raise(ValueError), s) else Step(Pass, s)
  }

  class TrelloProxy {
    const board: Board
    const trelloLists: map<string, string>
    const labels: seq<Label>
    const customFields: set<string>

    ghost predicate Valid()
      reads this, board
    {
      board.Valid()
    }

    function Cached(): Caches
    {
      Caches(trelloLists, labels, customFields)
    }

    constructor (board: Board, trelloLists: map<string, string>, labels: seq<Label>, customFields: set<string>)
      requires board.Valid()
      ensures Valid()
      ensures this.board == board && this.trelloLists == trelloLists
      ensures this.labels == labels && this.customFields == customFields
    {
      this.board := board;
      this.trelloLists := trelloLists;
      this.labels := labels;
      this.customFields := customFields;
    }

    /** `_label`: the first cached label with that name, or StopIteration. */
    function LabelNamed(name: string): (r: Result<Label>)
      ensures r.Ok? ==> r.value in labels && r.value.name == name
      ensures r.Ok? ==> exists k :: 0 <= k < |labels| && labels[k] == r.value &&
                                    forall j :: 0 <= j < k ==> labels[j].name != name
      ensures r.Err? <==> forall l :: l in labels ==> l.name != name
      ensures r.Err? ==> r.error == StopIteration
    {
      FirstLabel(labels, name)
    }

    /** `upsert_task_card` */
    method UpsertTaskCard(task: Task) returns (outcome: Outcome)
      requires Valid()
      modifies board
      ensures Valid()
      ensures Step(outcome, board.View()) == UpsertTask(Cached(), board.search, old(board.View()), task)
    {
      ghost var s := board.View();
      ghost var spec := UpsertTask(Cached(), board.search, s, task);
      var key := task.id;
      var cards2update := Hits(board.cards, board.search, Raw(key));
      if |cards2update| != 0 {
        // more than one card matches: the source logs a warning and updates them all
        assert spec == Step(Pass, s.(cards := AttachAt(s.cards, cards2update, task)));
        UpdateCards(cards2update, task);
        return Pass;
      }
      if BacklogList !in trelloLists {
        assert spec == Step(Raise(KeyError(BacklogList)), s);
        return Raise(KeyError(BacklogList));
      }
      var backlog := trelloLists[BacklogList];
      var lbl := LabelNamed(SprintLabel);
      if lbl.Err? {
        assert spec == Step(Raise(lbl.error), s);
        return Raise(lbl.error);
      }
      ghost var card := NewCard(s.nextId, backlog, task.title, [lbl.value], Some(task.due));
      board.AddCardOnTop(backlog, task.title, [lbl.value], Some(task.due));
      if TaskField !in customFields {
        assert spec == Step(Raise(KeyError(TaskField)), Snapshot([card] + s.cards, s.nextId + 1));
        return Raise(KeyError(TaskField));
      }
      board.SetCustomField(0, TaskField, Text(key));
      ghost var keyed := card.(fields := card.fields[TaskField := Text(key)]);
      assert board.cards == [keyed] + s.cards;
      assert spec == Step(Pass, Snapshot(AttachAt(board.cards, [0], task), board.nextId));
      // the new card is the only one to update
      UpdateCards([0], task);
      return Pass;
    }

    /** The loop `for card in cards2update: self._update_card(card, task)`. */
    method UpdateCards(cards2update: seq<nat>, task: Task)
      requires Valid()
      requires forall k :: 0 <= k < |cards2update| ==> cards2update[k] < |board.cards|
      requires forall k, l :: 0 <= k < l < |cards2update| ==> cards2update[k] < cards2update[l]
      modifies board
      ensures Valid()
      ensures board.cards == AttachAt(old(board.cards), cards2update, task)
      ensures board.nextId == old(board.nextId)
    {
      ghost var start := board.cards;
      var j := 0;
      while j < |cards2update|
        invariant 0 <= j <= |cards2update|
        invariant board.Valid() && board.nextId == old(board.nextId)
        invariant board.cards == AttachAt(start, cards2update[..j], task)
      {
        var h := cards2update[j];
        assert cards2update[..j + 1] == cards2update[..j] + [h];
        assert h !in cards2update[..j];
        ghost var before := board.cards;
        UpdateCard(h, task);
        assert board.cards == AttachAt(start, cards2update[..j + 1], task) by {
          assert before[h] == start[h];
        }
        j := j + 1;
      }
      assert cards2update[..j] == cards2update;
    }

    /** `_update_card`: attach the task URL once more. */
    method UpdateCard(i: nat, task: Task)
      requires Valid() && i < |board.cards|
      modifies board
      ensures Valid()
      ensures board.cards == old(board.cards)[i := AttachTask(old(board.cards[i]), task)]
      ensures board.nextId == old(board.nextId)
    {
      board.Attach(i, TaskUrlName, task.url);
    }

    /** `upsert_calendar_card` */
    method UpsertCalendarCard(event: CalendarEvent) returns (outcome: Outcome)
      requires Valid()
      ensures outcome == UpsertCalendar(board.search, board.View(), event).outcome
    {
      var eventId := event.id;
      var cards2update := Hits(board.cards, board.search, Raw(eventId));
      if |cards2update| > 1 {
        return Raise(ValueError);
      }
      return Pass;
    }

    /** `validate` */
    method Validate() returns (outcome: Outcome)
      requires Valid()
      modifies board
      ensures Valid()
      ensures Step(outcome, board.View()) == MarkDone(Cached(), old(board.View()))
    {
      outcome := ValidateDone();
    }

    /** `_validate_done` */
    method ValidateDone() returns (outcome: Outcome)
      requires Valid()
      modifies board
      ensures Valid()
      ensures Step(outcome, board.View()) == MarkDone(Cached(), old(board.View()))
    {
      if DoneList !in trelloLists {
        return Raise(KeyError(DoneList));
      }
      var doneList := trelloLists[DoneList];
      ghost var start := board.cards;
      var i := 0;
      while i < |board.cards|
        invariant 0 <= i <= |board.cards| == |start|
        invariant board.Valid() && board.nextId == old(board.nextId)
        invariant forall k :: 0 <= k < i ==> board.cards[k] == Closed(start[k], doneList)
        invariant forall k :: i <= k < |start| ==> board.cards[k] == start[k]
      {
        var card := board.cards[i];
        if ListedIn(card, doneList) && card.due.Some? {
          board.SetDueComplete(i);
        }
        i := i + 1;
      }
      assert board.cards == CloseDue(start, doneList);
      return Pass;
    }
  }

  /**
   * No card answers the task id: one card is created on top in the backlog
   * list, with the sprint label, the due date, the "Task" field and one
   * "Task URL" attachment, but no marker comment and no "Time (h)".
   */
  lemma UpsertTaskCreates(caches: Caches, search: (nat, string) -> bool, s: Snapshot, t: Task)
    requires Hits(s.cards, search, Raw(t.id)) == []
    requires BacklogList in caches.lists && FirstLabel(caches.labels, SprintLabel).Ok?
    requires TaskField in caches.fields
    ensures var r := UpsertTask(caches, search, s, t);
      r.outcome == Pass && r.after.nextId == s.nextId + 1 &&
      |r.after.cards| == |s.cards| + 1 && r.after.cards[1..] == s.cards &&
      r.after.cards[0] == Card(s.nextId, caches.lists[BacklogList], t.title,
                               [FirstLabel(caches.labels, SprintLabel).value], Some(t.due), false,
                               map[TaskField := Text(t.id)], [], [Attachment(TaskUrlName, t.url)], true)
  {
    var lbl := FirstLabel(caches.labels, SprintLabel).value;
    var card := NewCard(s.nextId, caches.lists[BacklogList], t.title, [lbl], Some(t.due));
    var keyed := card.(fields := card.fields[TaskField := Text(t.id)]);
    assert UpsertTask(caches, search, s, t) == Step(Pass, Snapshot(AttachAt([keyed] + s.cards, [0], t), s.nextId + 1));
    AttachAtTop(keyed, s.cards, t);
    assert keyed.fields == map[TaskField := Text(t.id)];
  }

  /** Updating the card on top of a board leaves the rest as it was. */
  lemma AttachAtTop(c: Card, cards: seq<Card>, t: Task)
    ensures AttachAt([c] + cards, [0], t) == [AttachTask(c, t)] + cards
  {
  }

  /**
   * Cards answer the task id: no card is created, every answering card gets
   * exactly one more attachment to the task URL at the end, and nothing
   * else changes.
   */
  lemma UpsertTaskAppends(caches: Caches, search: (nat, string) -> bool, s: Snapshot, t: Task)
    requires Hits(s.cards, search, Raw(t.id)) != []
    ensures var r := UpsertTask(caches, search, s, t);
      r.outcome == Pass && r.after.nextId == s.nextId && |r.after.cards| == |s.cards| &&
      forall i :: 0 <= i < |s.cards| ==>
        if Answers(search, s.cards[i], Raw(t.id)) then
          r.after.cards[i].attachments == s.cards[i].attachments + [Attachment(TaskUrlName, t.url)] &&
          CountUrl(r.after.cards[i].attachments, t.url) == CountUrl(s.cards[i].attachments, t.url) + 1 &&
          r.after.cards[i].(attachments := s.cards[i].attachments) == s.cards[i]
        else r.after.cards[i] == s.cards[i]
  {
    var r := UpsertTask(caches, search, s, t);
    forall i | 0 <= i < |s.cards| && Answers(search, s.cards[i], Raw(t.id))
      ensures CountUrl(r.after.cards[i].attachments, t.url) == CountUrl(s.cards[i].attachments, t.url) + 1
    {
      CountUrlAppend(s.cards[i].attachments, [Attachment(TaskUrlName, t.url)], t.url);
      assert CountUrl([Attachment(TaskUrlName, t.url)], t.url) == 1;
    }
  }

  /**
   * Not idempotent: when cards answer the task id, a second upsert with the
   * same task adds a second attachment to the task URL on each of them, so
   * the board after two calls differs from the board after one.
   */
  lemma {:induction false} UpsertTaskAccumulates(caches: Caches, search: (nat, string) -> bool, s: Snapshot, t: Task)
    requires Hits(s.cards, search, Raw(t.id)) != []
    ensures var once := UpsertTask(caches, search, s, t).after;
      var twice := UpsertTask(caches, search, once, t);
      twice.outcome == Pass && twice.after != once &&
      forall i :: 0 <= i < |s.cards| && Answers(search, s.cards[i], Raw(t.id)) ==>
        CountUrl(twice.after.cards[i].attachments, t.url) == CountUrl(s.cards[i].attachments, t.url) + 2
  {
    var once := UpsertTask(caches, search, s, t).after;
    UpsertTaskAppends(caches, search, s, t);
    HitsAgree(once.cards, s.cards, search, Raw(t.id));
    UpsertTaskAppends(caches, search, once, t);
    var twice := UpsertTask(caches, search, once, t).after;
    var h := Hits(s.cards, search, Raw(t.id))[0];
    assert |twice.cards[h].attachments| == |once.cards[h].attachments| + 1;
  }

  /**
   * Nor does a created card stop a second one: when the search does not
   * return the new card under the task id, a second upsert creates another.
   */
  lemma UpsertTaskMayDuplicate(caches: Caches, search: (nat, string) -> bool, s: Snapshot, t: Task)
    requires Hits(s.cards, search, Raw(t.id)) == []
    requires BacklogList in caches.lists && FirstLabel(caches.labels, SprintLabel).Ok?
    requires TaskField in caches.fields
    requires !search(s.nextId, t.id)
    ensures var once := UpsertTask(caches, search, s, t).after;
      var twice := UpsertTask(caches, search, once, t);
      twice.outcome == Pass && |twice.after.cards| == |s.cards| + 2
  {
    var once := UpsertTask(caches, search, s, t).after;
    UpsertTaskCreates(caches, search, s, t);
    forall i | 0 <= i < |once.cards|
      ensures !Answers(search, once.cards[i], Raw(t.id))
    {
      if i > 0 {
        assert once.cards[i] == s.cards[i - 1];
      }
    }
    HitsNone(once.cards, search, Raw(t.id));
    UpsertTaskCreates(caches, search, once, t);
  }

  /** The calendar upsert raises ValueError on several matches and never changes the board. */
  lemma UpsertCalendarOnlyChecks(search: (nat, string) -> bool, s: Snapshot, e: CalendarEvent)
    ensures UpsertCalendar(search, s, e).after == s
    ensures UpsertCalendar(search, s, e).outcome == Raise(ValueError) <==> |Hits(s.cards, search, Raw(e.id))| > 1
    ensures UpsertCalendar(search, s, e).outcome.Raise? ==> UpsertCalendar(search, s, e).outcome == Raise(ValueError)
  {
  }
}
