/**
 * What the `trello_m` reconciler guarantees, proved about the functions
 * that specify `TrelloPersonalBoard`'s methods: the create / update-all
 * decision of the task upsert and its idempotence, the conflict rule of the
 * calendar upsert, and what `list_messages` collects.
 */
module PersonalBoardProps {
  import opened Trello
  import opened PersonalBoard

  /**
   * Syncing a card sets "Time (h)" to the remaining time, leaves exactly one
   * attachment to the task URL (the last one, named "Task URL"), keeps every
   * other attachment in its order and changes nothing else.
   */
  lemma SyncTaskEffect(c: Card, t: Task)
    ensures TimeField in SyncTask(c, t).fields && SyncTask(c, t).fields[TimeField] == Hours(t.remaining)
    ensures forall f :: f != TimeField ==>
              (f in SyncTask(c, t).fields <==> f in c.fields) &&
              (f in c.fields ==> SyncTask(c, t).fields[f] == c.fields[f])
    ensures CountUrl(SyncTask(c, t).attachments, t.url) == 1
    ensures SyncTask(c, t).attachments[|SyncTask(c, t).attachments| - 1] == Attachment(TaskUrlName, t.url)
    ensures WithoutUrl(SyncTask(c, t).attachments, t.url) == WithoutUrl(c.attachments, t.url)
    ensures SyncTask(c, t).(fields := c.fields, attachments := c.attachments) == c
  {
    var kept := WithoutUrl(c.attachments, t.url);
    var link := Attachment(TaskUrlName, t.url);
    CountUrlAppend(kept, [link], t.url);
    WithoutUrlAppend(kept, [link], t.url);
    WithoutUrlNone(kept, t.url);
    assert WithoutUrl([link], t.url) == [];
    assert CountUrl([link], t.url) == 1;
  }

  /** Syncing a card twice with one task is syncing it once. */
  lemma SyncTaskIdempotent(c: Card, t: Task)
    ensures SyncTask(SyncTask(c, t), t) == SyncTask(c, t)
  {
    SyncTaskEffect(c, t);
    var d := SyncTask(c, t);
    WithoutUrlNone(WithoutUrl(c.attachments, t.url), t.url);
    assert d.fields[TimeField := Hours(t.remaining)] == d.fields;
  }

  /** Syncing never changes which searches return a card. */
  lemma SyncAtKeepsHits(cards: seq<Card>, hits: seq<nat>, t: Task, search: (nat, string) -> bool, q: Query)
    ensures Hits(SyncAt(cards, hits, t), search, q) == Hits(cards, search, q)
  {
    HitsAgree(SyncAt(cards, hits, t), cards, search, q);
  }

  /**
   * No open card carries `task_id_<id>` and the backlog list, the
   * "task:sprint" label and both custom fields exist: exactly one card is
   * created, on top, in the backlog list, with the label, the due date, the
   * "Task" field, the marker comment, the remaining time and the one
   * "Task URL" attachment; the other cards stay as they were; afterwards
   * exactly that card carries the marker.
   */
  lemma UpsertTaskCreates(caches: Caches, search: (nat, string) -> bool, s: Snapshot, t: Task)
    requires Hits(s.cards, search, Comment(TaskMarker(t.id))) == []
    requires BacklogList in caches.lists && FirstLabel(caches.labels, SprintLabel).Ok?
    requires TaskField in caches.fields && TimeField in caches.fields
    ensures UpsertTask(caches, search, s, t).outcome == Pass
    ensures var after := UpsertTask(caches, search, s, t).after;
      |after.cards| == |s.cards| + 1 && after.cards[1..] == s.cards && after.nextId == s.nextId + 1 &&
      after.cards[0] == Card(s.nextId, caches.lists[BacklogList], t.title,
                             [FirstLabel(caches.labels, SprintLabel).value], Some(t.due), false,
                             map[TaskField := Text(t.id), TimeField := Hours(t.remaining)],
                             [TaskMarker(t.id)], [Attachment(TaskUrlName, t.url)], true) &&
      Hits(after.cards, search, Comment(TaskMarker(t.id))) == [0]
  {
    var marker := TaskMarker(t.id);
    var lbl := FirstLabel(caches.labels, SprintLabel).value;
    var card := NewCard(s.nextId, caches.lists[BacklogList], t.title, [lbl], Some(t.due));
    var marked := card.(fields := card.fields[TaskField := Text(t.id)], comments := card.comments + [marker]);
    assert UpsertTask(caches, search, s, t) == Step(Pass, Snapshot(SyncAt([marked] + s.cards, [0], t), s.nextId + 1));
    SyncAtTop(marked, s.cards, t);
    CreatedCard(s.nextId, caches.lists[BacklogList], lbl, t);
    HitsOnTop(SyncTask(marked, t), s.cards, search, Comment(marker));
  }

  /** The card a task upsert creates, once marked and synced. */
  lemma CreatedCard(id: nat, list: string, lbl: Label, t: Task)
    ensures var card := NewCard(id, list, t.title, [lbl], Some(t.due));
      var marked := card.(fields := card.fields[TaskField := Text(t.id)], comments := card.comments + [TaskMarker(t.id)]);
      SyncTask(marked, t) == Card(id, list, t.title, [lbl], Some(t.due), false,
                                  map[TaskField := Text(t.id), TimeField := Hours(t.remaining)],
                                  [TaskMarker(t.id)], [Attachment(TaskUrlName, t.url)], true)
  {
    assert WithoutUrl([], t.url) == [];
  }

  /** Syncing the card on top of a board leaves the rest as it was. */
  lemma SyncAtTop(c: Card, cards: seq<Card>, t: Task)
    ensures SyncAt([c] + cards, [0], t) == [SyncTask(c, t)] + cards
  {
  }

  /**
   * When one or more open cards carry the marker, no card is created: with
   * "Time (h)" defined every matching card is synced and every other card
   * is left alone; without it the first sync raises KeyError and nothing
   * changes. The same cards carry the marker afterwards.
   */
  lemma UpsertTaskSyncsMatches(caches: Caches, search: (nat, string) -> bool, s: Snapshot, t: Task)
    requires Hits(s.cards, search, Comment(TaskMarker(t.id))) != []
    ensures var r := UpsertTask(caches, search, s, t);
      |r.after.cards| == |s.cards| && r.after.nextId == s.nextId &&
      (r.outcome == Pass <==> TimeField in caches.fields) &&
      (r.outcome.Raise? ==> r.outcome.error == KeyError(TimeField) && r.after == s) &&
      (r.outcome == Pass ==> forall i :: 0 <= i < |s.cards| ==>
         r.after.cards[i] == if Answers(search, s.cards[i], Comment(TaskMarker(t.id)))
                             then SyncTask(s.cards[i], t) else s.cards[i]) &&
      Hits(r.after.cards, search, Comment(TaskMarker(t.id))) == Hits(s.cards, search, Comment(TaskMarker(t.id)))
  {
    var hits := Hits(s.cards, search, Comment(TaskMarker(t.id)));
    SyncAtKeepsHits(s.cards, hits, t, search, Comment(TaskMarker(t.id)));
  }

  /**
   * The error paths when no card carries the marker: a missing backlog list
   * (KeyError) or sprint label (StopIteration) changes nothing; a missing
   * "Task" field raises KeyError after the card was added, so the board
   * keeps a card with no "Task" field and no marker.
   */
  lemma UpsertTaskFailures(caches: Caches, search: (nat, string) -> bool, s: Snapshot, t: Task)
    requires Hits(s.cards, search, Comment(TaskMarker(t.id))) == []
    ensures BacklogList !in caches.lists ==>
              UpsertTask(caches, search, s, t) == Step(Raise(KeyError(BacklogList)), s)
    ensures BacklogList in caches.lists && (forall l :: l in caches.labels ==> l.name != SprintLabel) ==>
              UpsertTask(caches, search, s, t) == Step(Raise(StopIteration), s)
    ensures BacklogList in caches.lists && FirstLabel(caches.labels, SprintLabel).Ok? && TaskField !in caches.fields ==>
              var r := UpsertTask(caches, search, s, t);
              r.outcome == Raise(KeyError(TaskField)) &&
              |r.after.cards| == |s.cards| + 1 && r.after.cards[1..] == s.cards &&
              r.after.cards[0].fields == map[] && r.after.cards[0].comments == [] &&
              Hits(r.after.cards, search, Comment(TaskMarker(t.id))) == []
    ensures BacklogList in caches.lists && FirstLabel(caches.labels, SprintLabel).Ok? &&
            TaskField in caches.fields && TimeField !in caches.fields ==>
              var r := UpsertTask(caches, search, s, t);
              r.outcome == Raise(KeyError(TimeField)) && r.after.nextId == s.nextId + 1 &&
              |r.after.cards| == |s.cards| + 1 && r.after.cards[1..] == s.cards &&
              r.after.cards[0] == Card(s.nextId, caches.lists[BacklogList], t.title,
                                       [FirstLabel(caches.labels, SprintLabel).value], Some(t.due), false,
                                       map[TaskField := Text(t.id)], [TaskMarker(t.id)], [], true) &&
              Hits(r.after.cards, search, Comment(TaskMarker(t.id))) == [0]
  {
    if BacklogList in caches.lists && FirstLabel(caches.labels, SprintLabel).Ok? &&
       TaskField in caches.fields && TimeField !in caches.fields {
      MarkedNoTime(caches, search, s, t);
    }
    if BacklogList in caches.lists && FirstLabel(caches.labels, SprintLabel).Ok? && TaskField !in caches.fields {
      var r := UpsertTask(caches, search, s, t);
      assert r.after.cards[1..] == s.cards;
      forall i | 0 <= i < |r.after.cards|
        ensures !Answers(search, r.after.cards[i], Comment(TaskMarker(t.id)))
      {
        if i > 0 {
          assert r.after.cards[i] == s.cards[i - 1];
        }
      }
      HitsNone(r.after.cards, search, Comment(TaskMarker(t.id)));
    }
  }

  /**
   * The create path without a "Time (h)" field: the marked card is added,
   * then syncing it raises KeyError, so the card keeps its marker but has no
   * remaining time and no "Task URL" attachment.
   */
  lemma MarkedNoTime(caches: Caches, search: (nat, string) -> bool, s: Snapshot, t: Task)
    requires Hits(s.cards, search, Comment(TaskMarker(t.id))) == []
    requires BacklogList in caches.lists && FirstLabel(caches.labels, SprintLabel).Ok?
    requires TaskField in caches.fields && TimeField !in caches.fields
    ensures var r := UpsertTask(caches, search, s, t);
      r.outcome == Raise(KeyError(TimeField)) && r.after.nextId == s.nextId + 1 &&
      |r.after.cards| == |s.cards| + 1 && r.after.cards[1..] == s.cards &&
      r.after.cards[0] == Card(s.nextId, caches.lists[BacklogList], t.title,
                               [FirstLabel(caches.labels, SprintLabel).value], Some(t.due), false,
                               map[TaskField := Text(t.id)], [TaskMarker(t.id)], [], true) &&
      Hits(r.after.cards, search, Comment(TaskMarker(t.id))) == [0]
  {
    var marker := TaskMarker(t.id);
    var lbl := FirstLabel(caches.labels, SprintLabel).value;
    var card := NewCard(s.nextId, caches.lists[BacklogList], t.title, [lbl], Some(t.due));
    var marked := card.(fields := card.fields[TaskField := Text(t.id)], comments := card.comments + [marker]);
    assert UpsertTask(caches, search, s, t) == Step(Raise(KeyError(TimeField)), Snapshot([marked] + s.cards, s.nextId + 1));
    assert marked.comments == [marker];
    HitsOnTop(marked, s.cards, search, Comment(marker));
  }

  /**
   * Idempotence: once an upsert has gone through, the same upsert again
   * goes through and leaves the board exactly as it is (same cards, one
   * attachment to the task URL on each synced card, no new card).
   */
  lemma {:induction false} UpsertTaskIdempotent(caches: Caches, search: (nat, string) -> bool, s: Snapshot, t: Task)
    requires UpsertTask(caches, search, s, t).outcome == Pass
    ensures var after := UpsertTask(caches, search, s, t).after;
      UpsertTask(caches, search, after, t) == Step(Pass, after)
  {
    var marker := TaskMarker(t.id);
    var after := UpsertTask(caches, search, s, t).after;
    var hits := Hits(s.cards, search, Comment(marker));
    if |hits| != 0 {
      UpsertTaskResyncs(caches, search, s, t);
    } else {
      UpsertTaskCreates(caches, search, s, t);
      var lbl := FirstLabel(caches.labels, SprintLabel).value;
      var card := NewCard(s.nextId, caches.lists[BacklogList], t.title, [lbl], Some(t.due));
      var marked := card.(fields := card.fields[TaskField := Text(t.id)], comments := card.comments + [marker]);
      assert after.cards == SyncAt([marked] + s.cards, [0], t);
      SyncAtTop(marked, s.cards, t);
      SyncTaskIdempotent(marked, t);
      SyncAtSynced(after.cards, [0], t);
    }
  }

  /** An upsert that synced the matching cards finds them again and syncs them to what they are. */
  lemma UpsertTaskResyncs(caches: Caches, search: (nat, string) -> bool, s: Snapshot, t: Task)
    requires Hits(s.cards, search, Comment(TaskMarker(t.id))) != []
    requires UpsertTask(caches, search, s, t).outcome == Pass
    ensures var after := UpsertTask(caches, search, s, t).after;
      UpsertTask(caches, search, after, t) == Step(Pass, after)
  {
    var marker := TaskMarker(t.id);
    var hits := Hits(s.cards, search, Comment(marker));
    var after := UpsertTask(caches, search, s, t).after;
    assert after.cards == SyncAt(s.cards, hits, t);
    SyncAtKeepsHits(s.cards, hits, t, search, Comment(marker));
    forall i | 0 <= i < |after.cards| && i in hits
      ensures SyncTask(after.cards[i], t) == after.cards[i]
    {
      SyncTaskIdempotent(s.cards[i], t);
    }
    SyncAtSynced(after.cards, hits, t);
  }

  /** Syncing cards already synced changes nothing. */
  lemma SyncAtSynced(cards: seq<Card>, hits: seq<nat>, t: Task)
    requires forall i :: 0 <= i < |cards| && i in hits ==> SyncTask(cards[i], t) == cards[i]
    ensures SyncAt(cards, hits, t) == cards
  {
  }

  /**
   * An upsert never takes a marker away: a card carrying any marker before
   * leaves a card carrying it after, and no card is ever removed.
   */
  lemma UpsertTaskKeepsMarked(caches: Caches, search: (nat, string) -> bool, s: Snapshot, t: Task, m: string)
    requires Hits(s.cards, search, Comment(m)) != []
    ensures |UpsertTask(caches, search, s, t).after.cards| >= |s.cards|
    ensures Hits(UpsertTask(caches, search, s, t).after.cards, search, Comment(m)) != []
  {
    var marker := TaskMarker(t.id);
    var hits := Hits(s.cards, search, Comment(marker));
    if |hits| != 0 {
      SyncAtKeepsHits(s.cards, hits, t, search, Comment(m));
    } else if BacklogList in caches.lists && FirstLabel(caches.labels, SprintLabel).Ok? {
      var lbl := FirstLabel(caches.labels, SprintLabel).value;
      var card := NewCard(s.nextId, caches.lists[BacklogList], t.title, [lbl], Some(t.due));
      if TaskField !in caches.fields {
        HitsUnderTop(card, s.cards, search, Comment(m));
      } else {
        var marked := card.(fields := card.fields[TaskField := Text(t.id)], comments := card.comments + [marker]);
        HitsUnderTop(marked, s.cards, search, Comment(m));
        SyncAtKeepsHits([marked] + s.cards, [0], t, search, Comment(m));
      }
    }
  }

  /** An upsert that goes through leaves a card carrying the task's marker. */
  lemma UpsertTaskMarks(caches: Caches, search: (nat, string) -> bool, s: Snapshot, t: Task)
    requires UpsertTask(caches, search, s, t).outcome == Pass
    ensures Hits(UpsertTask(caches, search, s, t).after.cards, search, Comment(TaskMarker(t.id))) != []
  {
    if Hits(s.cards, search, Comment(TaskMarker(t.id))) != [] {
      UpsertTaskKeepsMarked(caches, search, s, t, TaskMarker(t.id));
    } else {
      UpsertTaskCreates(caches, search, s, t);
    }
  }

  /** More than one open card for the event: ValueError, and nothing changes. */
  lemma UpsertCalendarConflict(caches: Caches, search: (nat, string) -> bool, s: Snapshot, e: CalendarEvent)
    requires |Hits(s.cards, search, Raw(e.id))| > 1
    ensures UpsertCalendar(caches, search, s, e) == Step(Raise(ValueError), s)
  {
  }

  /**
   * Exactly one open card for the event: that card gets the event start as
   * due date; with "CalendarId" defined it also gets the event id there and
   * nothing else on the board changes. Without "CalendarId" the upsert
   * raises KeyError after the due date was set, so the card keeps the new
   * due date and its fields as they were.
   */
  lemma UpsertCalendarUpdates(caches: Caches, search: (nat, string) -> bool, s: Snapshot, e: CalendarEvent)
    requires |Hits(s.cards, search, Raw(e.id))| == 1
    ensures CalendarField in caches.fields ==>
      var r := UpsertCalendar(caches, search, s, e);
      var h := Hits(s.cards, search, Raw(e.id))[0];
      r.outcome == Pass && r.after.nextId == s.nextId && |r.after.cards| == |s.cards| &&
      (forall i :: 0 <= i < |s.cards| && i != h ==> r.after.cards[i] == s.cards[i]) &&
      r.after.cards[h].due == Some(e.start) &&
      CalendarField in r.after.cards[h].fields && r.after.cards[h].fields[CalendarField] == Text(e.id) &&
      (forall f :: f != CalendarField ==>
         (f in r.after.cards[h].fields <==> f in s.cards[h].fields) &&
         (f in s.cards[h].fields ==> r.after.cards[h].fields[f] == s.cards[h].fields[f])) &&
      r.after.cards[h].(due := s.cards[h].due, fields := s.cards[h].fields) == s.cards[h]
    ensures CalendarField !in caches.fields ==>
      var r := UpsertCalendar(caches, search, s, e);
      var h := Hits(s.cards, search, Raw(e.id))[0];
      r.outcome == Raise(KeyError(CalendarField)) && r.after.nextId == s.nextId &&
      |r.after.cards| == |s.cards| &&
      (forall i :: 0 <= i < |s.cards| && i != h ==> r.after.cards[i] == s.cards[i]) &&
      r.after.cards[h] == s.cards[h].(due := Some(e.start))
  {
  }

  /**
   * No open card for the event: with the backlog list, a meeting template
   * and "CalendarId" present, one card is added at the bottom: a copy of
   * the first template hit, renamed after the event, in the backlog list,
   * with the event start as due date and the event id in "CalendarId".
   * Without "CalendarId" the copy is added and dated, then KeyError is
   * raised, so the dated copy stays on the board without "CalendarId". No
   * template is IndexError, no backlog KeyError, and nothing changes.
   */
  lemma UpsertCalendarCreates(caches: Caches, search: (nat, string) -> bool, s: Snapshot, e: CalendarEvent)
    requires Hits(s.cards, search, Raw(e.id)) == []
    ensures BacklogList !in caches.lists ==>
              UpsertCalendar(caches, search, s, e) == Step(Raise(KeyError(BacklogList)), s)
    ensures BacklogList in caches.lists &&
            (forall i :: 0 <= i < |s.cards| ==> !Answers(search, s.cards[i], Raw(TemplateQuery(MeetingTemplate)))) ==>
              UpsertCalendar(caches, search, s, e) == Step(Raise(IndexError), s)
    ensures BacklogList in caches.lists && Template(search, s.cards, MeetingTemplate).Ok? &&
            CalendarField in caches.fields ==>
              var r := UpsertCalendar(caches, search, s, e);
              var source := Template(search, s.cards, MeetingTemplate).value;
              r.outcome == Pass && r.after.nextId == s.nextId + 1 &&
              |r.after.cards| == |s.cards| + 1 && r.after.cards[..|s.cards|] == s.cards &&
              r.after.cards[|s.cards|] ==
                source.(id := s.nextId, list := caches.lists[BacklogList], name := e.name, open := true,
                        due := Some(e.start), fields := source.fields[CalendarField := Text(e.id)])
    ensures BacklogList in caches.lists && Template(search, s.cards, MeetingTemplate).Ok? &&
            CalendarField !in caches.fields ==>
              var r := UpsertCalendar(caches, search, s, e);
              var source := Template(search, s.cards, MeetingTemplate).value;
              r.outcome == Raise(KeyError(CalendarField)) && r.after.nextId == s.nextId + 1 &&
              r.after.cards == s.cards + [source.(id := s.nextId, list := caches.lists[BacklogList], name := e.name,
                                                  open := true, due := Some(e.start))]
  {
    if BacklogList in caches.lists && Template(search, s.cards, MeetingTemplate).Ok? {
      var source := Template(search, s.cards, MeetingTemplate).value;
      var copy := source.(id := s.nextId, list := caches.lists[BacklogList], name := e.name, open := true);
      var made := s.cards + [copy];
      CalendarCopied(caches, search, s, e);
      var dated := copy.(due := Some(e.start));
      if CalendarField in caches.fields {
        assert made[|s.cards| := dated.(fields := dated.fields[CalendarField := Text(e.id)])] ==
               s.cards + [dated.(fields := dated.fields[CalendarField := Text(e.id)])];
      } else {
        assert made[|s.cards| := dated] == s.cards + [dated];
      }
    }
  }

  /** With no card for the event, the upsert updates a copy of the template added at the bottom. */
  lemma CalendarCopied(caches: Caches, search: (nat, string) -> bool, s: Snapshot, e: CalendarEvent)
    requires Hits(s.cards, search, Raw(e.id)) == []
    requires BacklogList in caches.lists && Template(search, s.cards, MeetingTemplate).Ok?
    ensures var source := Template(search, s.cards, MeetingTemplate).value;
      var copy := source.(id := s.nextId, list := caches.lists[BacklogList], name := e.name, open := true);
      UpsertCalendar(caches, search, s, e) == UpdateCalendarAt(caches, Snapshot(s.cards + [copy], s.nextId + 1), |s.cards|, e)
  {
  }

  /**
   * `list_messages` as written raises TypeError on a card with two
   * comments, where collecting every comment gives both.
   */
  lemma ListMessagesRejectsTwoComments(c: Card)
    requires c.comments == ["lunch at 12", "standup moved"]
    ensures Collected([c]) == Err(TypeError)
    ensures AllComments([c]) == ["lunch at 12", "standup moved"]
  {
  }

  /** Wherever the written `list_messages` succeeds, collecting every comment gives the same list. */
  lemma {:induction false} AllCommentsExtendsCollected(found: seq<Card>)
    requires Collected(found).Ok?
    ensures AllComments(found) == Collected(found).value
  {
    if found != [] {
      AllCommentsExtendsCollected(found[1..]);
    }
  }
}
