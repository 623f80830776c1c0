/**
 * The personal board of `jotfiles/trello_m`: the reconciler that writes
 * sprint tasks and calendar events onto a Trello board and closes the due
 * dates of finished cards, and the pool that reads scheduled messages off
 * the board.
 *
 * Each operation is a method of `TrelloPersonalBoard` that changes the
 * board's cards in place; each method is proved equal to a function over
 * snapshots of the board (`UpsertTask`, `UpsertCalendar`, `Trello.MarkDone`), and
 * the properties of those functions are proved in `PersonalBoardProps`.
 */
module PersonalBoard {
  import opened Trello

  /** The comment that ties a card to a task: `task_id_<id>`. */
  function TaskMarker(key: string): string
  {
    "task_id_" + key
  }

  /** The query `_template(name)` sends: `list:Templates <name>`. */
  function TemplateQuery(name: string): string
  {
    "list:Templates " + name
  }

  /**
   * `_update_task_card` on a card when "Time (h)" is a known field: the
   * field gets the remaining time, every attachment to the task URL goes,
   * and one "Task URL" attachment to it is added at the end.
   */
  function SyncTask(c: Card, t: Task): Card
  {
    c.(fields := c.fields[TimeField := Hours(t.remaining)],
       attachments := WithoutUrl(c.attachments, t.url) + [Attachment(TaskUrlName, t.url)])
  }

  /** The cards with those at the positions `hits` synced with `t`. */
  function SyncAt(cards: seq<Card>, hits: seq<nat>, t: Task): seq<Card>
  {
    seq(|cards|, i requires 0 <= i < |cards| => if i in hits then SyncTask(cards[i], t) else cards[i])
  }

  /**
   * `for card in cards2update: self._update_task_card(card, task)`. The
   * KeyError for a missing "Time (h)" field comes from the first card,
   * before anything on it is changed.
   */
  function SyncHits(caches: Caches, s: Snapshot, hits: seq<nat>, t: Task): Step
  {
    if hits != [] && TimeField !in caches.fields then Step(Raise(KeyError(TimeField)), s)
    else Step(Pass, s.(cards := SyncAt(s.cards, hits, t)))
  }

  /** `upsert_task_card`: create the task's card if no open card carries its marker, then sync. */
  function UpsertTask(caches: Caches, search: (nat, string) -> bool, s: Snapshot, t: Task): Step
  {
    var marker := TaskMarker(t.id);
    var hits := Hits(s.cards, search, Comment(marker));
    if |hits| != 0 then SyncHits(caches, s, hits, t)
    else if BacklogList !in caches.lists then Step(Raise(KeyError(BacklogList)), s)
    else
      var lbl := FirstLabel(caches.labels, SprintLabel);
      if lbl.Err? then Step(Raise(lbl.error), s)
      else
        var card := NewCard(s.nextId, caches.lists[BacklogList], t.title, [lbl.value], Some(t.due));
        if TaskField !in caches.fields then
          // the card exists; setting its "Task" field raises
          Step(Raise(KeyError(TaskField)), Snapshot([card] + s.cards, s.nextId + 1))
        else
          var marked := card.(fields := card.fields[TaskField := Text(t.id)],
                              comments := card.comments + [marker]);
          SyncHits(caches, Snapshot([marked] + s.cards, s.nextId + 1), [0], t)
  }

  /**
   * `_template(name)`: the first open card the template search returns, or
   * IndexError.
   */
  function Template(search: (nat, string) -> bool, cards: seq<Card>, name: string): (r: Result<Card>)
    ensures r.Err? <==> forall i :: 0 <= i < |cards| ==> !Answers(search, cards[i], Raw(TemplateQuery(name)))
    ensures r.Err? ==> r.error == IndexError
    ensures r.Ok? ==> exists k :: 0 <= k < |cards| && cards[k] == r.value &&
                                  Answers(search, cards[k], Raw(TemplateQuery(name))) &&
                                  forall j :: 0 <= j < k ==> !Answers(search, cards[j], Raw(TemplateQuery(name)))
  {
    var hits := Hits(cards, search, Raw(TemplateQuery(name)));
    if hits == [] then Err(IndexError)
    else
      assert forall j :: 0 <= j < hits[0] && Answers(search, cards[j], Raw(TemplateQuery(name))) ==> j in hits;
      Ok(cards[hits[0]])
  }

  /**
   * `_update_calendar_card`: the due date becomes the event start, then the
   * "CalendarId" field the event id; a missing field raises after the due
   * date is set.
   */
  function UpdateCalendarAt(caches: Caches, s: Snapshot, i: nat, e: CalendarEvent): Step
    requires i < |s.cards|
  {
    var dated := s.cards[i].(due := Some(e.start));
    if CalendarField !in caches.fields then
      Step(Raise(KeyError(CalendarField)), s.(cards := s.cards[i := dated]))
    else
      Step(Pass, s.(cards := s.cards[i := dated.(fields := dated.fields[CalendarField := Text(e.id)])]))
  }

  /**
   * `upsert_calendar_card`: several matching cards raise ValueError; none
   * copies the meeting template into the backlog; then the one card is
   * updated.
   */
  function UpsertCalendar(caches: Caches, search: (nat, string) -> bool, s: Snapshot, e: CalendarEvent): Step
  {
    var hits := Hits(s.cards, search, Raw(e.id));
    if |hits| > 1 then Step(Raise(ValueError), s)
    else if |hits| == 1 then UpdateCalendarAt(caches, s, hits[0], e)
    else if BacklogList !in caches.lists then Step(Raise(KeyError(BacklogList)), s)
    else
      match Template(search, s.cards, MeetingTemplate)
      case Err(err) => Step(Raise(err), s)
      case Ok(source) =>
        var copy := source.(id := s.nextId, list := caches.lists[BacklogList], name := e.name, open := true);
        UpdateCalendarAt(caches, Snapshot(s.cards + [copy], s.nextId + 1), |s.cards|, e)
  }

  /**
   * `TrelloPersonalBoard`: a Trello board with the lists, labels and custom
   * fields read from it when the object was built.
   */
  class TrelloPersonalBoard {
    const board: Board
    const trelloLists: map<string, string>
    const labels: seq<Label>
    const customFields: set<string>

    ghost predicate Valid()
      reads this, board
    {
      board.Valid()
    }

    function Cached(): Caches
    {
      Caches(trelloLists, labels, customFields)
    }

    constructor (board: Board, trelloLists: map<string, string>, labels: seq<Label>, customFields: set<string>)
      requires board.Valid()
      ensures Valid()
      ensures this.board == board && this.trelloLists == trelloLists
      ensures this.labels == labels && this.customFields == customFields
    {
      this.board := board;
      this.trelloLists := trelloLists;
      this.labels := labels;
      this.customFields := customFields;
    }

    /** `_backlog`: the id of the "[Backlog] On Hold" list, or KeyError. */
    function Backlog(): (r: Result<string>)
      ensures r.Ok? <==> BacklogList in trelloLists
      ensures r.Ok? ==> r.value == trelloLists[BacklogList]
      ensures r.Err? ==> r.error == KeyError(BacklogList)
    {
      Lookup(trelloLists, BacklogList)
    }

    /** `_label`: the first cached label with that name, or StopIteration. */
    function LabelNamed(name: string): (r: Result<Label>)
      ensures r.Ok? ==> r.value in labels && r.value.name == name
      ensures r.Ok? ==> exists k :: 0 <= k < |labels| && labels[k] == r.value &&
                                    forall j :: 0 <= j < k ==> labels[j].name != name
      ensures r.Err? <==> forall l :: l in labels ==> l.name != name
      ensures r.Err? ==> r.error == StopIteration
    {
      FirstLabel(labels, name)
    }

    /** `upsert_task_card` */
    method UpsertTaskCard(task: Task) returns (outcome: Outcome)
      requires Valid()
      modifies board
      ensures Valid()
      ensures Step(outcome, board.View()) == UpsertTask(Cached(), board.search, old(board.View()), task)
    {
      ghost var s := board.View();
      ghost var spec := UpsertTask(Cached(), board.search, s, task);
      var key := task.id;
      var taskComment := TaskMarker(key);
      var cards2update := Hits(board.cards, board.search, Comment(taskComment));
      if |cards2update| != 0 {
        // more than one card carries the marker: the source logs a warning and syncs them all
        assert spec == SyncHits(Cached(), s, cards2update, task);
        outcome := SyncTaskCards(cards2update, task);
        return;
      }
      var backlog := Backlog();
      if backlog.Err? {
        assert spec == Step(Raise(backlog.error), s);
        return Raise(backlog.error);
      }
      var lbl := LabelNamed(SprintLabel);
      if lbl.Err? {
        assert spec == Step(Raise(lbl.error), s);
        return Raise(lbl.error);
      }
      ghost var card := NewCard(s.nextId, backlog.value, task.title, [lbl.value], Some(task.due));
      board.AddCardOnTop(backlog.value, task.title, [lbl.value], Some(task.due));
      if TaskField !in customFields {
        assert spec == Step(Raise(KeyError(TaskField)), Snapshot([card] + s.cards, s.nextId + 1));
        return Raise(KeyError(TaskField));
      }
      board.SetCustomField(0, TaskField, Text(key));
      board.AddComment(0, taskComment);
      ghost var marked := card.(fields := card.fields[TaskField := Text(key)], comments := card.comments + [taskComment]);
      assert board.cards == [marked] + s.cards;
      assert spec == SyncHits(Cached(), board.View(), [0], task);
      outcome := SyncTaskCards([0], task);
    }

    /** The loop `for card in cards2update: self._update_task_card(card, task)`. */
    method SyncTaskCards(cards2update: seq<nat>, task: Task) returns (outcome: Outcome)
      requires Valid()
      requires forall k :: 0 <= k < |cards2update| ==> cards2update[k] < |board.cards|
      requires forall k, l :: 0 <= k < l < |cards2update| ==> cards2update[k] < cards2update[l]
      modifies board
      ensures Valid()
      ensures Step(outcome, board.View()) == SyncHits(Cached(), old(board.View()), cards2update, task)
    {
      ghost var start := board.cards;
      var j := 0;
      while j < |cards2update|
        invariant 0 <= j <= |cards2update|
        invariant board.Valid() && board.nextId == old(board.nextId)
        invariant j > 0 ==> TimeField in customFields
        invariant board.cards == SyncAt(start, cards2update[..j], task)
      {
        var h := cards2update[j];
        assert cards2update[..j + 1] == cards2update[..j] + [h];
        assert h !in cards2update[..j];
        ghost var before := board.cards;
        outcome := UpdateTaskCard(h, task);
        if outcome.Raise? {
          assert board.cards == start;
          return;
        }
        assert board.cards == SyncAt(start, cards2update[..j + 1], task) by {
          assert before[h] == start[h];
        }
        j := j + 1;
      }
      assert cards2update[..j] == cards2update;
      return Pass;
    }

    /** `_update_task_card`: set "Time (h)", drop the task URL's attachments, attach it once. */
    method UpdateTaskCard(i: nat, task: Task) returns (outcome: Outcome)
      requires Valid() && i < |board.cards|
      modifies board
      ensures Valid()
      ensures outcome == if TimeField in customFields then Pass else Raise(KeyError(TimeField))
      ensures board.cards == if outcome.Pass? then old(board.cards)[i := SyncTask(old(board.cards[i]), task)]
                             else old(board.cards)
      ensures board.nextId == old(board.nextId)
    {
      outcome := UpdateRemaining(task, i);
      if outcome.Raise? {
        return;
      }
      RemoveUrl(i, task.url);
      board.Attach(i, TaskUrlName, task.url);
    }

    /**
     * The loop of `_update_task_card` over the card's attachments: every
     * attachment to `url` is removed, from the back so that the positions
     * still to visit stay put.
     */
    method RemoveUrl(i: nat, urlStr: string)
      requires Valid() && i < |board.cards|
      modifies board
      ensures Valid() && board.nextId == old(board.nextId)
      ensures board.cards == old(board.cards)[i := old(board.cards[i]).(attachments := WithoutUrl(old(board.cards[i]).attachments, urlStr))]
    {
      ghost var mid := board.cards;
      ghost var atts := mid[i].attachments;
      var k := |board.cards[i].attachments|;
      assert atts[..k] + WithoutUrl(atts[k..], urlStr) == atts;
      while k > 0
        invariant 0 <= k <= |atts|
        invariant board.Valid() && board.nextId == old(board.nextId)
        invariant |board.cards| == |mid|
        invariant forall j :: 0 <= j < |mid| && j != i ==> board.cards[j] == mid[j]
        invariant board.cards[i] == mid[i].(attachments := atts[..k] + WithoutUrl(atts[k..], urlStr))
      {
        k := k - 1;
        WithoutUrlStep(atts, k, urlStr, board.cards[i].attachments);
        if board.cards[i].attachments[k].url == urlStr {
          board.RemoveAttachment(i, k);
        }
      }
      assert atts[..0] + WithoutUrl(atts[0..], urlStr) == WithoutUrl(atts, urlStr);
    }

    /** `_update_remaining`: "Time (h)" gets the task's remaining time, or KeyError. */
    method UpdateRemaining(task: Task, i: nat) returns (outcome: Outcome)
      requires Valid() && i < |board.cards|
      modifies board
      ensures Valid()
      ensures outcome == if TimeField in customFields then Pass else Raise(KeyError(TimeField))
      ensures board.cards == if outcome.Pass?
                             then old(board.cards)[i := old(board.cards[i]).(fields :=
                                    old(board.cards[i]).fields[TimeField := Hours(task.remaining)])]
                             else old(board.cards)
      ensures board.nextId == old(board.nextId)
    {
      if TimeField !in customFields {
        return Raise(KeyError(TimeField));
      }
      board.SetCustomField(i, TimeField, Hours(task.remaining));
      return Pass;
    }

    /** `_template`: the first open card the template search returns, or IndexError. */
    function TemplateCard(name: string): (r: Result<Card>)
      reads board
      ensures r.Err? <==> forall i :: 0 <= i < |board.cards| ==> !Answers(board.search, board.cards[i], Raw(TemplateQuery(name)))
      ensures r.Err? ==> r.error == IndexError
      ensures r.Ok? ==> exists k :: 0 <= k < |board.cards| && board.cards[k] == r.value &&
                                    Answers(board.search, board.cards[k], Raw(TemplateQuery(name))) &&
                                    forall j :: 0 <= j < k ==> !Answers(board.search, board.cards[j], Raw(TemplateQuery(name)))
    {
      Template(board.search, board.cards, name)
    }

    /** `upsert_calendar_card` */
    method UpsertCalendarCard(event: CalendarEvent) returns (outcome: Outcome)
      requires Valid()
      modifies board
      ensures Valid()
      ensures Step(outcome, board.View()) == UpsertCalendar(Cached(), board.search, old(board.View()), event)
    {
      var eventId := event.id;
      var cards2update := Hits(board.cards, board.search, Raw(eventId));
      if |cards2update| > 1 {
        return Raise(ValueError);
      } else if |cards2update| == 0 {
        var backlog := Backlog();
        if backlog.Err? {
          return Raise(backlog.error);
        }
        var template := TemplateCard(MeetingTemplate);
        if template.Err? {
          return Raise(template.error);
        }
        board.CopyCard(backlog.value, event.name, template.value);
        cards2update := [|board.cards| - 1];
      }
      // the source loops over `cards2update`, which holds exactly one card here
      outcome := UpdateCalendarCard(cards2update[0], event);
    }

    /** `_update_calendar_card`: set the due date, then the "CalendarId" field. */
    method UpdateCalendarCard(i: nat, event: CalendarEvent) returns (outcome: Outcome)
      requires Valid() && i < |board.cards|
      modifies board
      ensures Valid()
      ensures Step(outcome, board.View()) == UpdateCalendarAt(Cached(), old(board.View()), i, event)
    {
      board.SetDue(i, event.start);
      if CalendarField !in customFields {
        return Raise(KeyError(CalendarField));
      }
      board.SetCustomField(i, CalendarField, Text(event.id));
      return Pass;
    }

    /** `update_done` */
    method UpdateDone() returns (outcome: Outcome)
      requires Valid()
      modifies board
      ensures Valid()
      ensures Step(outcome, board.View()) == MarkDone(Cached(), old(board.View()))
    {
      if DoneList !in trelloLists {
        return Raise(KeyError(DoneList));
      }
      var doneList := trelloLists[DoneList];
      ghost var start := board.cards;
      // walking the board in order and skipping the other lists' cards visits
      // the cards of `done_list.list_cards()` in their order
      var i := 0;
      while i < |board.cards|
        invariant 0 <= i <= |board.cards| == |start|
        invariant board.Valid() && board.nextId == old(board.nextId)
        invariant forall k :: 0 <= k < i ==> board.cards[k] == Closed(start[k], doneList)
        invariant forall k :: i <= k < |start| ==> board.cards[k] == start[k]
      {
        var card := board.cards[i];
        if ListedIn(card, doneList) && card.due.Some? {
          board.SetDueComplete(i);
        }
        i := i + 1;
      }
      assert board.cards == CloseDue(start, doneList);
      return Pass;
    }
  }

  /** `_bot_comment`: the text a bot writes, "BOT " before the message. */
  function BotComment(message: string): (r: string)
    ensures |r| == |message| + 4
    ensures r[..4] == "BOT " && r[4..] == message
  {
    "BOT " + message
  }

  /**
   * What `list_messages` collects from the cards its search returns:
   * `messages.append(*card.comments)` takes the card's one comment, and
   * raises TypeError for a card with none or with several.
   */
  function Collected(found: seq<Card>): Result<seq<string>>
  {
    if found == [] then Ok([])
    else if |found[0].comments| != 1 then Err(TypeError)
    else
      match Collected(found[1..])
      case Err(e) => Err(e)
      case Ok(rest) => Ok(found[0].comments + rest)
  }

  /** `Collected` succeeds exactly when every card found has one comment, and then lists them. */
  lemma {:induction false} CollectedOneEach(found: seq<Card>)
    ensures Collected(found).Ok? <==> forall i :: 0 <= i < |found| ==> |found[i].comments| == 1
    ensures Collected(found).Err? ==> Collected(found).error == TypeError
    ensures Collected(found).Ok? ==>
              |Collected(found).value| == |found| &&
              forall i :: 0 <= i < |found| ==> Collected(found).value[i] == found[i].comments[0]
  {
    if found != [] {
      CollectedOneEach(found[1..]);
      assert forall i :: 1 <= i < |found| ==> found[i] == found[1..][i - 1];
    }
  }

  /** `TrelloScheduledMessagesPool.list_messages`, given the cards the search returns. */
  method ListMessages(found: seq<Card>) returns (r: Result<seq<string>>)
    ensures r == Collected(found)
    ensures r.Ok? <==> forall i :: 0 <= i < |found| ==> |found[i].comments| == 1
    ensures r.Ok? ==> |r.value| == |found| &&
                      forall i :: 0 <= i < |found| ==> r.value[i] == found[i].comments[0]
  {
    CollectedOneEach(found);
    var messages: seq<string> := [];
    var i := 0;
    while i < |found|
      invariant 0 <= i <= |found|
      invariant forall k :: 0 <= k < i ==> |found[k].comments| == 1
      invariant |messages| == i && forall k :: 0 <= k < i ==> messages[k] == found[k].comments[0]
    {
      if |found[i].comments| != 1 {
        return Err(TypeError);
      }
      messages := messages + found[i].comments;
      i := i + 1;
    }
    assert messages == Collected(found).value;
    return Ok(messages);
  }

  /** Every comment of every card found, in order: what `extend` would collect. */
  function AllComments(found: seq<Card>): seq<string>
  {
    if found == [] then [] else found[0].comments + AllComments(found[1..])
  }

  /** `list_messages` with `messages.extend(card.comments)`: never raises. */
  method ListAllMessages(found: seq<Card>) returns (messages: seq<string>)
    ensures messages == AllComments(found)
    ensures forall i, m :: 0 <= i < |found| && m in found[i].comments ==> m in messages
  {
    messages := [];
    var i := 0;
    while i < |found|
      invariant 0 <= i <= |found|
      invariant AllComments(found) == messages + AllComments(found[i..])
      invariant forall k, m :: 0 <= k < i && m in found[k].comments ==> m in messages
    {
      assert found[i..][1..] == found[i + 1..];
      messages := messages + found[i].comments;
      i := i + 1;
    }
    assert found[i..] == [];
  }
}
