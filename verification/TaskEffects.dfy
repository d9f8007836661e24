/** What each task verb does to every state, told from the tasks and the index alone. */
module TaskEffects {
  import opened Options
  import opened Lines
  import opened TaskIds
  import opened Tasks
  import opened TaskRuns
  import Seqs

  // ---- mark-task ----

  /** No earlier task has this id. */
  predicate FirstWith(tasks: seq<Task>, id: Id, n: nat) {
    n < |tasks| && tasks[n].id == id && forall i :: 0 <= i < n ==> tasks[i].id != id
  }

  /** When mark-task goes through, for the id it coerced. */
  predicate CanMark(s: State, id: Id, status: Status, reason: Option<string>, force: bool) {
    && status != Waived
    && (exists i :: 0 <= i < |s.tasks| && s.tasks[i].id == id)
    && (status == Blocked ==> reason.Some? && Trim(reason.value) != "")
    && (status == Blocked && !force ==> s.active.None? || Key(s.active.value) != Key(id))
  }

  /** mark-task goes through under exactly these conditions. Then the first task with the id has the status
      asked for, a block reason exactly if it is blocked, and no waive reason; all other tasks are as they
      were; and a forced block is audited, unless the bundle is archived. Otherwise nothing changes. */
  lemma MarksExactly(s: State, given: Id, status: Status, reason: Option<string>, force: bool, n: nat)
    ensures var (after, ok) := Mark(s, given, status, reason, force);
            && (ok <==> CanMark(s, Coerce(given), status, reason, force))
            && (!ok ==> after == s)
            && (ok && FirstWith(s.tasks, Coerce(given), n) ==>
                  && |after.tasks| == |s.tasks|
                  && after.tasks[n] == Task(s.tasks[n].id, status, s.tasks[n].wave, s.tasks[n].files,
                                            if status == Blocked then reason else None, None)
                  && (forall i :: 0 <= i < |s.tasks| && i != n ==> after.tasks[i] == s.tasks[i])
                  && after.active == s.active && after.archived == s.archived
                  && after.log == s.log + if status == Blocked && force && !s.archived
                                          then [MarkedUnderRun(Coerce(given))] else [])
  {
    var id := Coerce(given);
    var m := IndexOfId(s.tasks, id);
    if m == |s.tasks| { assert forall i :: 0 <= i < |s.tasks| ==> s.tasks[i].id != id; }
    if FirstWith(s.tasks, id, n) { assert m == n; }
    assert s.log + [] == s.log;
  }

  // ---- waive-task ----

  /** How many of the tasks are blocked. */
  function BlockedCount(tasks: seq<Task>): nat {
    if tasks == [] then 0 else BlockedCount(tasks[..|tasks| - 1]) + if tasks[|tasks| - 1].status == Blocked then 1
      else 0
  }

  lemma {:induction false} BlockedSnoc(tasks: seq<Task>, task: Task)
    ensures BlockedIds(tasks + [task]) == BlockedIds(tasks) + if task.status == Blocked then [task.id] else []
  {
    if tasks == [] {
      assert [] + [task] == [task];
      assert [task][1..] == [];
    } else {
      assert (tasks + [task])[1..] == tasks[1..] + [task];
      BlockedSnoc(tasks[1..], task);
    }
  }

  /** waive-task --all takes the blocked tasks in their order. */
  lemma {:induction false} BlockedAt(tasks: seq<Task>, i: nat)
    requires i < |tasks| && tasks[i].status == Blocked
    ensures BlockedCount(tasks[..i]) < |BlockedIds(tasks)| == BlockedCount(tasks)
    ensures BlockedIds(tasks)[BlockedCount(tasks[..i])] == tasks[i].id
  {
    var n := |tasks| - 1;
    BlockedSnoc(tasks[..n], tasks[n]);
    Seqs.Init(tasks);
    BlockedSize(tasks[..n]);
    if i < n {
      BlockedAt(tasks[..n], i);
      assert tasks[..n][..i] == tasks[..i];
    }
  }

  lemma {:induction false} BlockedSize(tasks: seq<Task>)
    ensures |BlockedIds(tasks)| == BlockedCount(tasks)
  {
    if tasks != [] {
      var n := |tasks| - 1;
      BlockedSnoc(tasks[..n], tasks[n]);
      Seqs.Init(tasks);
      BlockedSize(tasks[..n]);
    }
  }

  /** The events of a waiver: one per target in order, each after its audit event if it was forced under
      the live run. */
  lemma {:induction false} WaiveEventAt(active: Option<Id>, ids: seq<Id>, reason: string, force: bool, k: nat)
    requires k < |ids|
    ensures var before, all := WaiveEvents(active, ids[..k], reason, force), WaiveEvents(active, ids, reason, force);
            var audit := force && active.Some? && Key(active.value) == Key(ids[k]);
            var at := |before| + if audit then 1 else 0;
            && at < |all| && all[..|before|] == before && all[at] == TaskWaived(ids[k], reason)
            && (audit ==> all[|before|] == MarkedUnderRun(ids[k]))
            && |WaiveEvents(active, ids[..k + 1], reason, force)| == at + 1
  {
    if k == 0 {
      assert ids[..1][0] == ids[0] && ids[..1][1..] == [] && ids[..0] == [];
    } else {
      assert ids[..k][1..] == ids[1..][..k - 1];
      assert ids[..k + 1][1..] == ids[1..][..k];
      WaiveEventAt(active, ids[1..], reason, force, k - 1);
    }
  }

  /** The targets of waive-task, in order. */
  ghost predicate TargetList(s: State, target: Target, ids: seq<Id>) {
    match target
    case One(given) => ids == [Coerce(given)]
    case All =>
      && |ids| == BlockedCount(s.tasks)
      && forall i :: 0 <= i < |s.tasks| && s.tasks[i].status == Blocked ==>
           BlockedCount(s.tasks[..i]) < |ids| && ids[BlockedCount(s.tasks[..i])] == s.tasks[i].id
  }

  /** The verb succeeds if it writes and can log, or has nothing to do; it logs the waivers exactly then. */
  lemma WaiveLogs(s: State, target: Target, reason: Option<string>, force: bool) returns (ids: seq<Id>)
    ensures TargetList(s, target, ids)
    ensures var (after, ok) := Waive(s, target, reason, force);
            && (ok <==> Writes(s, target, reason, force) && (s.archived ==> ids == []))
            && after.active == s.active && after.archived == s.archived
            && after.log == s.log + if ok then WaiveEvents(s.active, ids, Trim(reason.value), force) else []
  {
    match target {
      case One(given) => ids := [Coerce(given)];
      case All =>
        ids := BlockedIds(s.tasks);
        BlockedSize(s.tasks);
        forall i | 0 <= i < |s.tasks| && s.tasks[i].status == Blocked
          ensures BlockedCount(s.tasks[..i]) < |ids| && ids[BlockedCount(s.tasks[..i])] == s.tasks[i].id
        {
          BlockedAt(s.tasks, i);
        }
    }
    if Targets(s, target).Some? { RunTarget(s, target); }
    assert s.log + [] == s.log;
  }

  // ---- amend-tasks ----

  /** The index has an entry with the task's text. */
  predicate Listed(task: Task, items: seq<Item>) {
    exists j :: 0 <= j < |items| && Key(items[j].id) == Key(task.id)
  }

  /** How many of the tasks stay. */
  function Staying(tasks: seq<Task>, items: seq<Item>, prune: bool): nat {
    if tasks == [] then 0
    else Staying(tasks[..|tasks| - 1], items, prune) + if !prune || Listed(tasks[|tasks| - 1], items) then 1 else 0
  }

  /** How many of the entries are new. */
  function Arriving(tasks: seq<Task>, items: seq<Item>): nat {
    if items == [] then 0
    else Arriving(tasks, items[..|items| - 1]) + if Key(items[|items| - 1].id) in Keys(tasks) then 0 else 1
  }

  lemma {:induction false} LookupIs(items: seq<Item>, j: nat)
    requires Seqs.Distinct(ItemKeys(items)) && j < |items|
    ensures Lookup(items, Key(items[j].id)) == Some(items[j])
  {
    ItemKeysTail(items);
    if j > 0 {
      assert ItemKeys(items)[j] == Key(items[j].id) && ItemKeys(items)[0] == Key(items[0].id);
      LookupIs(items[1..], j - 1);
    }
  }

  lemma {:induction false} LookupNone(items: seq<Item>, key: string)
    ensures Lookup(items, key).None? <==> forall j :: 0 <= j < |items| ==> Key(items[j].id) != key
  {
    if items != [] {
      LookupNone(items[1..], key);
      assert forall j :: 1 <= j < |items| ==> items[j] == items[1..][j - 1];
    }
  }

  lemma {:induction false} KeptSnoc(tasks: seq<Task>, task: Task, items: seq<Item>, prune: bool)
    ensures KeptTasks(tasks + [task], items, prune) == KeptTasks(tasks, items, prune) + KeptOne(task, items, prune)
  {
    if tasks == [] {
      assert [] + [task] == [task];
      assert [task][1..] == [];
    } else {
      assert (tasks + [task])[1..] == tasks[1..] + [task];
      KeptSnoc(tasks[1..], task, items, prune);
      Seqs.Assoc(KeptOne(tasks[0], items, prune), KeptTasks(tasks[1..], items, prune), KeptOne(task, items, prune));
    }
  }

  lemma {:induction false} KeptSize(tasks: seq<Task>, items: seq<Item>, prune: bool)
    ensures |KeptTasks(tasks, items, prune)| == Staying(tasks, items, prune)
  {
    if tasks != [] {
      var n := |tasks| - 1;
      Seqs.Init(tasks);
      KeptSnoc(tasks[..n], tasks[n], items, prune);
      KeptSize(tasks[..n], items, prune);
      LookupNone(items, Key(tasks[n].id));
    }
  }

  /** A task that stays keeps its place among those that stay. */
  lemma {:induction false} KeptAt(tasks: seq<Task>, items: seq<Item>, prune: bool, i: nat)
    requires i < |tasks| && (!prune || Listed(tasks[i], items))
    ensures Staying(tasks[..i], items, prune) < |KeptTasks(tasks, items, prune)|
    ensures [KeptTasks(tasks, items, prune)[Staying(tasks[..i], items, prune)]] == KeptOne(tasks[i], items, prune)
  {
    var n := |tasks| - 1;
    Seqs.Init(tasks);
    KeptSnoc(tasks[..n], tasks[n], items, prune);
    KeptSize(tasks[..n], items, prune);
    LookupNone(items, Key(tasks[i].id));
    if i < n {
      KeptAt(tasks[..n], items, prune, i);
      assert tasks[..n][..i] == tasks[..i];
    }
  }

  lemma {:induction false} NewSnoc(tasks: seq<Task>, items: seq<Item>, item: Item)
    ensures NewTasks(tasks, items + [item]) == NewTasks(tasks, items) + NewOne(tasks, item)
  {
    if items == [] {
      assert [] + [item] == [item];
      assert [item][1..] == [];
    } else {
      assert (items + [item])[1..] == items[1..] + [item];
      NewSnoc(tasks, items[1..], item);
      Seqs.Assoc(NewOne(tasks, items[0]), NewTasks(tasks, items[1..]), NewOne(tasks, item));
    }
  }

  lemma {:induction false} NewSize(tasks: seq<Task>, items: seq<Item>)
    ensures |NewTasks(tasks, items)| == Arriving(tasks, items)
  {
    if items != [] {
      var n := |items| - 1;
      Seqs.Init(items);
      NewSnoc(tasks, items[..n], items[n]);
      NewSize(tasks, items[..n]);
    }
  }

  lemma {:induction false} NewAt(tasks: seq<Task>, items: seq<Item>, j: nat)
    requires j < |items| && Key(items[j].id) !in Keys(tasks)
    ensures Arriving(tasks, items[..j]) < |NewTasks(tasks, items)|
    ensures [NewTasks(tasks, items)[Arriving(tasks, items[..j])]] == NewOne(tasks, items[j])
  {
    var n := |items| - 1;
    Seqs.Init(items);
    NewSnoc(tasks, items[..n], items[n]);
    NewSize(tasks, items[..n]);
    if j < n {
      NewAt(tasks, items[..n], j);
      assert items[..n][..j] == items[..j];
    }
  }

  /** When amend-tasks goes through, given the list it would leave. */
  ghost predicate CanAmend(tasks: seq<Task>, items: seq<Item>, prune: bool, pruneNonPending: bool, after: seq<Task>) {
    && (forall j, k :: 0 <= j < k < |items| ==> Key(items[j].id) != Key(items[k].id))
    && (prune && !pruneNonPending ==>
          forall i :: 0 <= i < |tasks| && !Listed(tasks[i], items) ==>
            tasks[i].status == Pending && tasks[i].blockReason.None? && tasks[i].waiveReason.None?)
    && (forall j :: 0 <= j < |after| ==> after[j].status == Completed || after[j].wave.Integer?)
  }

  /** A task that stays: its id, status and reasons, and the entry's wave and files as far as it gives them. */
  function Merged(task: Task, item: Item): Task {
    Task(task.id, task.status, if item.wave.NoWave? then task.wave else item.wave,
         if item.files.Some? then item.files.value else task.files, task.blockReason, task.waiveReason)
  }

  /** A new task: pending, under the coerced id. */
  function Created(item: Item): Task {
    Task(Coerce(item.id), Pending, item.wave, if item.files.Some? then item.files.value else [], None, None)
  }

  /** The list begins with the tasks that stay, each in its place among them. */
  ghost predicate StartsKept(tasks: seq<Task>, items: seq<Item>, prune: bool, after: seq<Task>) {
    && (forall i, j :: 0 <= i < |tasks| && 0 <= j < |items| && Key(items[j].id) == Key(tasks[i].id) ==>
          && Staying(tasks[..i], items, prune) < |after|
          && after[Staying(tasks[..i], items, prune)] == Merged(tasks[i], items[j]))
    && (forall i :: 0 <= i < |tasks| && !prune && !Listed(tasks[i], items) ==>
          && Staying(tasks[..i], items, prune) < |after|
          && after[Staying(tasks[..i], items, prune)] == tasks[i])
  }

  /** From position k on it holds the new entries' tasks. */
  ghost predicate EndsNew(tasks: seq<Task>, items: seq<Item>, k: nat, after: seq<Task>) {
    forall j :: 0 <= j < |items| && (forall i :: 0 <= i < |tasks| ==> Key(tasks[i].id) != Key(items[j].id)) ==>
      && k + Arriving(tasks, items[..j]) < |after|
      && after[k + Arriving(tasks, items[..j])] == Created(items[j])
  }

  /** The list amend-tasks is to leave, task by task. */
  ghost predicate AmendedList(tasks: seq<Task>, items: seq<Item>, prune: bool, after: seq<Task>) {
    var k := Staying(tasks, items, prune);
    && |after| == k + Arriving(tasks, items)
    && StartsKept(tasks, items, prune, after) && EndsNew(tasks, items, k, after)
  }

  lemma ListedAt(tasks: seq<Task>, items: seq<Item>, prune: bool, i: nat, j: nat)
    requires Seqs.Distinct(ItemKeys(items))
    requires i < |tasks| && j < |items| && Key(items[j].id) == Key(tasks[i].id)
    ensures var kept, at := KeptTasks(tasks, items, prune), Staying(tasks[..i], items, prune);
            at < |kept| && kept[at] == Merged(tasks[i], items[j])
  {
    LookupIs(items, j);
    KeptAt(tasks, items, prune, i);
  }

  lemma UnlistedAt(tasks: seq<Task>, items: seq<Item>, i: nat)
    requires i < |tasks| && !Listed(tasks[i], items)
    ensures var kept, at := KeptTasks(tasks, items, false), Staying(tasks[..i], items, false);
            at < |kept| && kept[at] == tasks[i]
  {
    LookupNone(items, Key(tasks[i].id));
    KeptAt(tasks, items, false, i);
  }

  lemma KeptStart(tasks: seq<Task>, items: seq<Item>, prune: bool, more: seq<Task>)
    requires Seqs.Distinct(ItemKeys(items))
    ensures StartsKept(tasks, items, prune, KeptTasks(tasks, items, prune) + more)
  {
    forall i, j | 0 <= i < |tasks| && 0 <= j < |items| && Key(items[j].id) == Key(tasks[i].id)
      ensures var kept, at := KeptTasks(tasks, items, prune), Staying(tasks[..i], items, prune);
              at < |kept| && kept[at] == Merged(tasks[i], items[j])
    {
      ListedAt(tasks, items, prune, i, j);
    }
    forall i | 0 <= i < |tasks| && !prune && !Listed(tasks[i], items)
      ensures var kept, at := KeptTasks(tasks, items, prune), Staying(tasks[..i], items, prune);
              at < |kept| && kept[at] == tasks[i]
    {
      UnlistedAt(tasks, items, i);
    }
  }

  lemma NewEnd(tasks: seq<Task>, items: seq<Item>, kept: seq<Task>)
    ensures EndsNew(tasks, items, |kept|, kept + NewTasks(tasks, items))
  {
    var added := NewTasks(tasks, items);
    forall j | 0 <= j < |items| && forall i :: 0 <= i < |tasks| ==> Key(tasks[i].id) != Key(items[j].id)
      ensures var at := Arriving(tasks, items[..j]); at < |added| && added[at] == Created(items[j])
    {
      NewAt(tasks, items, j);
    }
  }

  lemma ListIsAmended(tasks: seq<Task>, items: seq<Item>, prune: bool)
    requires Seqs.Distinct(ItemKeys(items))
    ensures AmendedList(tasks, items, prune, KeptTasks(tasks, items, prune) + NewTasks(tasks, items))
  {
    KeptSize(tasks, items, prune);
    NewSize(tasks, items);
    KeptStart(tasks, items, prune, NewTasks(tasks, items));
    NewEnd(tasks, items, KeptTasks(tasks, items, prune));
  }

  lemma DistinctTexts(items: seq<Item>)
    ensures Seqs.Distinct(ItemKeys(items)) <==>
              forall j, k :: 0 <= j < k < |items| ==> Key(items[j].id) != Key(items[k].id)
  {
    var ks := ItemKeys(items);
    assert forall j :: 0 <= j < |items| ==> ks[j] == Key(items[j].id);
  }

  lemma LosesNothing(tasks: seq<Task>, items: seq<Item>)
    ensures !Loses(tasks, items) <==>
              forall i :: 0 <= i < |tasks| && !Listed(tasks[i], items) ==>
                tasks[i].status == Pending && tasks[i].blockReason.None? && tasks[i].waiveReason.None?
  {
    forall i | 0 <= i < |tasks| ensures Lookup(items, Key(tasks[i].id)).None? <==> !Listed(tasks[i], items) {
      LookupNone(items, Key(tasks[i].id));
    }
  }

  /** amend-tasks goes through exactly if the texts of the index are distinct, no task with state is dropped
      without consent and every unfinished task of the new list has a wave; and then leaves that list. */
  lemma AmendsExactly(s: State, items: seq<Item>, prune: bool, pruneNonPending: bool) returns (list: seq<Task>)
    ensures Seqs.Distinct(ItemKeys(items)) ==> AmendedList(s.tasks, items, prune, list)
    ensures Amend(s, items, prune, pruneNonPending)
         == if CanAmend(s.tasks, items, prune, pruneNonPending, list) then (s.(tasks := list), true) else (s, false)
  {
    list := KeptTasks(s.tasks, items, prune) + NewTasks(s.tasks, items);
    DistinctTexts(items);
    LosesNothing(s.tasks, items);
    if Seqs.Distinct(ItemKeys(items)) { ListIsAmended(s.tasks, items, prune); }
  }
}
