/**
 * `LocalWorkflow` of `jotfiles/workflow_hooks.py`: the sprint sync that
 * upserts every task of the current sprint onto the personal board, in
 * order, stopping at the first exception.
 *
 * The scrum board that lists the sprint's tasks is not part of this model:
 * the tasks come in as the argument of `UpdateSprintIssues`.
 */
module Workflow {
  import opened Trello
  import opened PersonalBoard
  import PersonalBoardProps

  /**
   * The loop of `update_sprint_issues`: upsert each task in turn on the
   * board left by the one before; the first raise ends the loop and is the
   * outcome, with the board as that upsert left it.
   */
  function UpsertAll(caches: Caches, search: (nat, string) -> bool, s: Snapshot, tasks: seq<Task>): Step
    decreases |tasks|
  {
    if tasks == [] then Step(Pass, s)
    else
      var r := UpsertTask(caches, search, s, tasks[0]);
      if r.outcome.Raise? then r else UpsertAll(caches, search, r.after, tasks[1..])
  }

  class LocalWorkflow {
    const pSpace: TrelloPersonalBoard

    ghost predicate Valid()
      reads this, pSpace, pSpace.board
    {
      pSpace.Valid()
    }

    constructor (pSpace: TrelloPersonalBoard)
      requires pSpace.Valid()
      ensures Valid() && this.pSpace == pSpace
    {
      this.pSpace := pSpace;
    }

    /** `update_sprint_issues` */
    method UpdateSprintIssues(tasks: seq<Task>) returns (outcome: Outcome)
      requires Valid()
      modifies pSpace.board
      ensures Valid()
      ensures Step(outcome, pSpace.board.View()) ==
              UpsertAll(pSpace.Cached(), pSpace.board.search, old(pSpace.board.View()), tasks)
    {
      ghost var start := pSpace.board.View();
      var j := 0;
      while j < |tasks|
        invariant 0 <= j <= |tasks|
        invariant pSpace.Valid()
        invariant UpsertAll(pSpace.Cached(), pSpace.board.search, start, tasks) ==
                  UpsertAll(pSpace.Cached(), pSpace.board.search, pSpace.board.View(), tasks[j..])
      {
        assert tasks[j..][0] == tasks[j] && tasks[j..][1..] == tasks[j + 1..];
        outcome := pSpace.UpsertTaskCard(tasks[j]);
        if outcome.Raise? {
          return;
        }
        j := j + 1;
      }
      assert tasks[j..] == [];
      return Pass;
    }
  }

  /** Any upsert that passes has found the "Time (h)" field: both of its paths sync a card. */
  lemma UpsertTaskNeedsTime(caches: Caches, search: (nat, string) -> bool, s: Snapshot, t: Task)
    requires UpsertTask(caches, search, s, t).outcome == Pass
    ensures TimeField in caches.fields
  {
    if Hits(s.cards, search, Comment(TaskMarker(t.id))) == [] {
      assert BacklogList in caches.lists && FirstLabel(caches.labels, SprintLabel).Ok?;
    }
  }

  /** A card that carries a marker still does after the whole sync, whatever it raised. */
  lemma {:induction false} UpsertAllKeepsMarked(caches: Caches, search: (nat, string) -> bool, s: Snapshot,
                                                tasks: seq<Task>, m: string)
    requires Hits(s.cards, search, Comment(m)) != []
    ensures Hits(UpsertAll(caches, search, s, tasks).after.cards, search, Comment(m)) != []
    decreases |tasks|
  {
    if tasks != [] {
      var r := UpsertTask(caches, search, s, tasks[0]);
      PersonalBoardProps.UpsertTaskKeepsMarked(caches, search, s, tasks[0], m);
      if r.outcome.Pass? {
        UpsertAllKeepsMarked(caches, search, r.after, tasks[1..], m);
      }
    }
  }

  /**
   * When the sync passes, every task of the sprint has an open card
   * carrying its marker on the board.
   */
  lemma {:induction false} UpsertAllMarksEvery(caches: Caches, search: (nat, string) -> bool, s: Snapshot, tasks: seq<Task>)
    requires UpsertAll(caches, search, s, tasks).outcome == Pass
    ensures forall k :: 0 <= k < |tasks| ==>
      Hits(UpsertAll(caches, search, s, tasks).after.cards, search, Comment(TaskMarker(tasks[k].id))) != []
    decreases |tasks|
  {
    if tasks != [] {
      var r := UpsertTask(caches, search, s, tasks[0]);
      var rest := tasks[1..];
      UpsertAllMarksEvery(caches, search, r.after, rest);
      PersonalBoardProps.UpsertTaskMarks(caches, search, s, tasks[0]);
      UpsertAllKeepsMarked(caches, search, r.after, rest, TaskMarker(tasks[0].id));
      forall k | 0 <= k < |tasks|
        ensures Hits(UpsertAll(caches, search, s, tasks).after.cards, search, Comment(TaskMarker(tasks[k].id))) != []
      {
        if k > 0 {
          assert tasks[k] == rest[k - 1];
        }
      }
    }
  }

  /**
   * A sync on a board where every task already has its card, with the
   * "Time (h)" field known, passes and creates no card.
   */
  lemma {:induction false} UpsertAllSyncsOnly(caches: Caches, search: (nat, string) -> bool, s: Snapshot, tasks: seq<Task>)
    requires tasks != [] ==> TimeField in caches.fields
    requires forall k :: 0 <= k < |tasks| ==> Hits(s.cards, search, Comment(TaskMarker(tasks[k].id))) != []
    ensures var r := UpsertAll(caches, search, s, tasks);
      r.outcome == Pass && |r.after.cards| == |s.cards| && r.after.nextId == s.nextId
    decreases |tasks|
  {
    if tasks != [] {
      var r := UpsertTask(caches, search, s, tasks[0]);
      var rest := tasks[1..];
      assert r == Step(Pass, s.(cards := SyncAt(s.cards, Hits(s.cards, search, Comment(TaskMarker(tasks[0].id))), tasks[0])));
      forall k | 0 <= k < |rest|
        ensures Hits(r.after.cards, search, Comment(TaskMarker(rest[k].id))) != []
      {
        assert rest[k] == tasks[k + 1];
        PersonalBoardProps.UpsertTaskKeepsMarked(caches, search, s, tasks[0], TaskMarker(rest[k].id));
      }
      UpsertAllSyncsOnly(caches, search, r.after, rest);
    }
  }

  /**
   * Running the sprint sync again after one that passed passes too and
   * creates no second card for any task.
   */
  lemma UpsertAllRerunCreatesNothing(caches: Caches, search: (nat, string) -> bool, s: Snapshot, tasks: seq<Task>)
    requires UpsertAll(caches, search, s, tasks).outcome == Pass
    ensures var once := UpsertAll(caches, search, s, tasks).after;
      var twice := UpsertAll(caches, search, once, tasks);
      twice.outcome == Pass && |twice.after.cards| == |once.cards| && twice.after.nextId == once.nextId
  {
    var once := UpsertAll(caches, search, s, tasks).after;
    UpsertAllMarksEvery(caches, search, s, tasks);
    if tasks != [] {
      assert UpsertTask(caches, search, s, tasks[0]).outcome == Pass;
      UpsertTaskNeedsTime(caches, search, s, tasks[0]);
    }
    UpsertAllSyncsOnly(caches, search, once, tasks);
  }

  /**
   * A sync that raises ran the tasks before the failing one to completion,
   * and its outcome and board are those of the failing upsert.
   */
  lemma {:induction false} UpsertAllStopsAtFirstRaise(caches: Caches, search: (nat, string) -> bool, s: Snapshot, tasks: seq<Task>)
    requires UpsertAll(caches, search, s, tasks).outcome.Raise?
    ensures exists k :: 0 <= k < |tasks| &&
                        UpsertAll(caches, search, s, tasks[..k]).outcome == Pass &&
                        UpsertAll(caches, search, s, tasks) ==
                        UpsertTask(caches, search, UpsertAll(caches, search, s, tasks[..k]).after, tasks[k])
    decreases |tasks|
  {
    var r := UpsertTask(caches, search, s, tasks[0]);
    if r.outcome.Raise? {
      assert tasks[..0] == [];
      assert UpsertAll(caches, search, s, tasks[..0]) == Step(Pass, s);
    } else {
      var rest := tasks[1..];
      UpsertAllStopsAtFirstRaise(caches, search, r.after, rest);
      var k :| 0 <= k < |rest| &&
        UpsertAll(caches, search, r.after, rest[..k]).outcome == Pass &&
        UpsertAll(caches, search, r.after, rest) == UpsertTask(caches, search, UpsertAll(caches, search, r.after, rest[..k]).after, rest[k]);
      assert tasks[..k + 1][0] == tasks[0] && tasks[..k + 1][1..] == rest[..k];
      assert UpsertAll(caches, search, s, tasks[..k + 1]) == UpsertAll(caches, search, r.after, rest[..k]);
      assert tasks[k + 1] == rest[k];
    }
  }
}
