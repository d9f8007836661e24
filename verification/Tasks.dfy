/** Tasks of a run: marking, waiving and amending. */
module Tasks {
  import opened Options
  import opened Lines
  import opened TaskIds
  import Seqs

  datatype Status = Pending | InProgress | Completed | Blocked | Waived

  /** A wave number, something else, or nothing. */
  datatype Wave = NoWave | Integer(n: int) | NotInteger

  datatype Task = Task(
    id: Id, status: Status, wave: Wave, files: seq<string>, blockReason: Option<string>, waiveReason: Option<string>)

  datatype Event = TaskWaived(id: Id, reason: string) | MarkedUnderRun(id: Id)

  /** The tasks, the task of the live run, whether the bundle is archived, and what these verbs logged. */
  datatype State = State(tasks: seq<Task>, active: Option<Id>, archived: bool, log: seq<Event>)

  /** A plan index entry. */
  datatype Item = Item(id: Id, wave: Wave, files: Option<seq<string>>)

  function Keys(tasks: seq<Task>): (ks: seq<string>)
    ensures |ks| == |tasks| && forall i :: 0 <= i < |tasks| ==> ks[i] == Key(tasks[i].id)
  {
    seq(|tasks|, i requires 0 <= i < |tasks| => Key(tasks[i].id))
  }

  predicate Filled(reason: Option<string>) { reason.Some? && Trim(reason.value) != "" }

  /** The live run is on this task. */
  predicate UnderRun(active: Option<Id>, id: Id) { active.Some? && Key(active.value) == Key(id) }

  function Logged(s: State, e: Event): State { if s.archived then s else s.(log := s.log + [e]) }

  /** The first task with this very id, or the number of tasks. */
  function IndexOfId(tasks: seq<Task>, id: Id): (n: nat)
    ensures n <= |tasks|
    ensures n < |tasks| ==> tasks[n].id == id
    ensures forall i :: 0 <= i < n ==> tasks[i].id != id
  {
    if tasks == [] || tasks[0].id == id then 0 else 1 + IndexOfId(tasks[1..], id)
  }

  /** The first task whose id has this text, or the number of tasks. */
  function IndexOfKey(tasks: seq<Task>, key: string): (n: nat)
    ensures n <= |tasks|
    ensures n < |tasks| ==> Key(tasks[n].id) == key
    ensures forall i :: 0 <= i < n ==> Key(tasks[i].id) != key
  {
    if tasks == [] || Key(tasks[0].id) == key then 0 else 1 + IndexOfKey(tasks[1..], key)
  }

  function Marked(task: Task, status: Status, reason: Option<string>): Task {
    task.(status := status,
          blockReason := if status != Blocked then None else if Filled(reason) then reason else task.blockReason,
          waiveReason := None)
  }

  /** mark-task: never to waived, never to blocked without a reason or, unforced, under a live run. */
  function Mark(s: State, given: Id, status: Status, reason: Option<string>, force: bool): (State, bool) {
    var id := Coerce(given);
    var n := IndexOfId(s.tasks, id);
    if status == Waived || n == |s.tasks|
       || (status == Blocked && (!Filled(reason) || (UnderRun(s.active, id) && !force))) then (s, false)
    else
      var next := s.(tasks := s.tasks[n := Marked(s.tasks[n], status, reason)]);
      (if status == Blocked && force then Logged(next, MarkedUnderRun(id)) else next, true)
  }

  // ---- waiving ----

  datatype Target = All | One(id: Id)

  /** The ids to waive: every blocked task's, or the one given if the first task with its text is blocked. */
  function Targets(s: State, target: Target): Option<seq<Id>> {
    match target
    case All => Some(BlockedIds(s.tasks))
    case One(given) =>
      var id := Coerce(given);
      var n := IndexOfKey(s.tasks, Key(id));
      if n < |s.tasks| && s.tasks[n].status == Blocked then Some([id]) else None
  }

  function BlockedIds(tasks: seq<Task>): (ids: seq<Id>)
    ensures |ids| <= |tasks|
  {
    if tasks == [] then []
    else (if tasks[0].status == Blocked then [tasks[0].id] else []) + BlockedIds(tasks[1..])
  }

  predicate Hits(ids: seq<Id>, id: Id) { exists i :: 0 <= i < |ids| && Key(ids[i]) == Key(id) }

  function WaiveOne(task: Task, ids: seq<Id>, reason: string): Task {
    if Hits(ids, task.id) then task.(status := Waived, waiveReason := Some(reason), blockReason := None) else task
  }

  function WaiveHit(tasks: seq<Task>, ids: seq<Id>, reason: string): (r: seq<Task>)
    ensures |r| == |tasks| && forall i :: 0 <= i < |tasks| ==> r[i] == WaiveOne(tasks[i], ids, reason)
  {
    seq(|tasks|, i requires 0 <= i < |tasks| => WaiveOne(tasks[i], ids, reason))
  }

  /** A waiver event, after an audit event if it was forced under the live run. */
  function WaiveEvent(active: Option<Id>, id: Id, reason: string, force: bool): seq<Event> {
    if UnderRun(active, id) && force then [MarkedUnderRun(id), TaskWaived(id, reason)] else [TaskWaived(id, reason)]
  }

  function WaiveEvents(active: Option<Id>, ids: seq<Id>, reason: string, force: bool): seq<Event> {
    if ids == [] then [] else WaiveEvent(active, ids[0], reason, force) + WaiveEvents(active, ids[1..], reason, force)
  }

  /** waive-task: unforced it refuses to touch the live run's task; an archived bundle takes the new
      states but not the events, and the verb then fails. */
  function Waive(s: State, target: Target, reason: Option<string>, force: bool): (State, bool) {
    if !Filled(reason) || Targets(s, target).None? then (s, false)
    else
      var ids := Targets(s, target).value;
      if ids == [] then (s, true)
      else if !force && exists i :: 0 <= i < |ids| && UnderRun(s.active, ids[i]) then (s, false)
      else
        var text := Trim(reason.value);
        var next := s.(tasks := WaiveHit(s.tasks, ids, text));
        if s.archived then (next, false) else (next.(log := s.log + WaiveEvents(s.active, ids, text, force)), true)
  }

  // ---- amending ----

  function ItemKeys(items: seq<Item>): (ks: seq<string>)
    ensures |ks| == |items| && forall i :: 0 <= i < |items| ==> ks[i] == Key(items[i].id)
  {
    seq(|items|, i requires 0 <= i < |items| => Key(items[i].id))
  }

  function Lookup(items: seq<Item>, key: string): Option<Item> {
    if items == [] then None else if Key(items[0].id) == key then Some(items[0]) else Lookup(items[1..], key)
  }

  function Refreshed(task: Task, item: Item): Task {
    task.(wave := if item.wave.NoWave? then task.wave else item.wave,
          files := if item.files.Some? then item.files.value else task.files)
  }

  predicate Bare(task: Task) { task.status == Pending && task.blockReason.None? && task.waiveReason.None? }

  function KeptOne(task: Task, items: seq<Item>, prune: bool): (r: seq<Task>)
    ensures |r| <= 1
  {
    var found := Lookup(items, Key(task.id));
    if found.Some? then [Refreshed(task, found.value)] else if prune then [] else [task]
  }

  /** The tasks that stay, refreshed from the index. */
  function KeptTasks(tasks: seq<Task>, items: seq<Item>, prune: bool): (r: seq<Task>)
    ensures |r| <= |tasks|
  {
    if tasks == [] then [] else KeptOne(tasks[0], items, prune) + KeptTasks(tasks[1..], items, prune)
  }

  function NewOne(tasks: seq<Task>, item: Item): (r: seq<Task>)
    ensures |r| <= 1
  {
    if Key(item.id) in Keys(tasks) then []
    else [Task(Coerce(item.id), Pending, item.wave, if item.files.Some? then item.files.value else [], None, None)]
  }

  /** Entries of tasks that are not there yet, as pending tasks with coerced ids. */
  function NewTasks(tasks: seq<Task>, items: seq<Item>): (r: seq<Task>)
    ensures |r| <= |items|
  {
    if items == [] then [] else NewOne(tasks, items[0]) + NewTasks(tasks, items[1..])
  }

  /** A task with state is missing from the index. */
  predicate Loses(tasks: seq<Task>, items: seq<Item>) {
    exists i :: 0 <= i < |tasks| && Lookup(items, Key(tasks[i].id)).None? && !Bare(tasks[i])
  }

  /** A task that is not done has no integer wave. */
  predicate AnyStuck(tasks: seq<Task>) {
    exists i :: 0 <= i < |tasks| && tasks[i].status != Completed && !tasks[i].wave.Integer?
  }

  /** amend-tasks: new tasks are added, others refreshed without touching their state; with prune, tasks
      missing from the index go, but ones with state only on explicit consent. */
  function Amend(s: State, items: seq<Item>, prune: bool, pruneNonPending: bool): (State, bool) {
    var tasks := KeptTasks(s.tasks, items, prune) + NewTasks(s.tasks, items);
    if !Seqs.Distinct(ItemKeys(items)) || (prune && !pruneNonPending && Loses(s.tasks, items)) || AnyStuck(tasks)
      then (s, false)
    else (s.(tasks := tasks), true)
  }

  /** The run's state file and its log. */
  class Run {
    var s: State

    constructor (state: State)
      ensures s == state
    {
      s := state;
    }

    method Append(e: Event) returns (ok: bool)
      modifies this
      ensures s == Logged(old(s), e) && ok == !old(s).archived
    {
      ok := !s.archived;
      if ok { s := s.(log := s.log + [e]); }
    }

    method MarkTask(given: Id, status: Status, reason: Option<string>, force: bool) returns (ok: bool)
      modifies this
      ensures (s, ok) == Mark(old(s), given, status, reason, force)
    {
      var id := Coerce(given);
      if status == Blocked && !Filled(reason) { return false; }
      if status == Blocked && UnderRun(s.active, id) && !force { return false; }
      var n := IndexOfId(s.tasks, id);
      if status == Waived || n == |s.tasks| { return false; }
      s := s.(tasks := s.tasks[n := Marked(s.tasks[n], status, reason)]);
      if status == Blocked && force { var audited := Append(MarkedUnderRun(id)); }
      return true;
    }

    method WaiveTask(target: Target, reason: Option<string>, force: bool) returns (ok: bool)
      modifies this
      ensures (s, ok) == Waive(old(s), target, reason, force)
    {
      if !Filled(reason) { return false; }
      var found := Targets(s, target);
      if found.None? { return false; }
      var ids := found.value;
      if ids == [] { return true; }
      for i := 0 to |ids|
        invariant force || forall j :: 0 <= j < i ==> !UnderRun(s.active, ids[j])
      {
        if UnderRun(s.active, ids[i]) && !force { return false; }
      }
      s := s.(tasks := WaiveHit(s.tasks, ids, Trim(reason.value)));
      ok := LogWaived(ids, Trim(reason.value), force);
    }

    method LogOne(id: Id, reason: string, force: bool) returns (ok: bool)
      modifies this
      ensures ok == !old(s).archived
      ensures s == if ok then old(s).(log := old(s).log + WaiveEvent(old(s).active, id, reason, force)) else old(s)
    {
      if UnderRun(s.active, id) && force { var audited := Append(MarkedUnderRun(id)); }
      ok := Append(TaskWaived(id, reason));
    }

    /** The events of every id in turn; the first refusal ends it. */
    method LogWaived(ids: seq<Id>, reason: string, force: bool) returns (ok: bool)
      requires ids != []
      modifies this
      ensures ok == !old(s).archived
      ensures s == if ok then old(s).(log := old(s).log + WaiveEvents(old(s).active, ids, reason, force)) else old(s)
    {
      ghost var all := s.log + WaiveEvents(s.active, ids, reason, force);
      var i := 0;
      while i < |ids|
        invariant 0 <= i <= |ids|
        invariant s == old(s).(log := s.log)
        invariant s.archived ==> i == 0 && s == old(s)
        invariant s.log + WaiveEvents(s.active, ids[i..], reason, force) == all
      {
        assert ids[i..][0] == ids[i] && ids[i..][1..] == ids[i + 1..];
        Seqs.Assoc(s.log, WaiveEvent(s.active, ids[i], reason, force),
          WaiveEvents(s.active, ids[i + 1..], reason, force));
        ok := LogOne(ids[i], reason, force);
        if !ok { return; }
        i := i + 1;
      }
      assert s.log + [] == s.log;
      ok := true;
    }

    /** amend-tasks: the list is kept, refreshed or pruned, then new tasks are added; nothing is written
        unless every task ends with a wave. */
    method AmendTasks(items: seq<Item>, prune: bool, pruneNonPending: bool) returns (ok: bool)
      modifies this
      ensures (s, ok) == Amend(old(s), items, prune, pruneNonPending)
    {
      if !Seqs.Distinct(ItemKeys(items)) { return false; }
      var kept, refused := Keep(s.tasks, items, prune, pruneNonPending);
      if refused { return false; }
      var appended := AppendNew(s.tasks, items);
      if AnyStuck(kept + appended) { return false; }
      s := s.(tasks := kept + appended);
      return true;
    }
  }

  method Keep(tasks: seq<Task>, items: seq<Item>, prune: bool, pruneNonPending: bool)
    returns (kept: seq<Task>, refused: bool)
    ensures kept == KeptTasks(tasks, items, prune)
    ensures refused == (prune && !pruneNonPending && Loses(tasks, items))
  {
    kept, refused := [], false;
    var i := 0;
    while i < |tasks|
      invariant 0 <= i <= |tasks|
      invariant kept + KeptTasks(tasks[i..], items, prune) == KeptTasks(tasks, items, prune)
      invariant refused == (prune && !pruneNonPending && Loses(tasks[..i], items))
    {
      LosesStep(tasks, i, items);
      assert tasks[i..][0] == tasks[i] && tasks[i..][1..] == tasks[i + 1..];
      Seqs.Assoc(kept, KeptOne(tasks[i], items, prune), KeptTasks(tasks[i + 1..], items, prune));
      if Lookup(items, Key(tasks[i].id)).None? && prune && !Bare(tasks[i]) && !pruneNonPending { refused := true; }
      kept := kept + KeptOne(tasks[i], items, prune);
      i := i + 1;
    }
    assert kept + [] == kept;
    assert tasks[..i] == tasks;
  }

  lemma LosesStep(tasks: seq<Task>, i: nat, items: seq<Item>)
    requires i < |tasks|
    ensures Loses(tasks[..i + 1], items) <==>
              Loses(tasks[..i], items) || (Lookup(items, Key(tasks[i].id)).None? && !Bare(tasks[i]))
  {
    Seqs.Prefix(tasks, i);
    if Loses(tasks[..i], items) {
      var j :| 0 <= j < i && Lookup(items, Key(tasks[..i][j].id)).None? && !Bare(tasks[..i][j]);
      assert tasks[..i + 1][j] == tasks[..i][j];
    }
    if Loses(tasks[..i + 1], items) {
      var j :| 0 <= j <= i && Lookup(items, Key(tasks[..i + 1][j].id)).None? && !Bare(tasks[..i + 1][j]);
      if j < i { assert tasks[..i][j] == tasks[..i + 1][j]; }
    }
  }

  method AppendNew(tasks: seq<Task>, items: seq<Item>) returns (appended: seq<Task>)
    ensures appended == NewTasks(tasks, items)
  {
    appended := [];
    var i := 0;
    while i < |items|
      invariant 0 <= i <= |items|
      invariant appended + NewTasks(tasks, items[i..]) == NewTasks(tasks, items)
    {
      assert items[i..][0] == items[i] && items[i..][1..] == items[i + 1..];
      Seqs.Assoc(appended, NewOne(tasks, items[i]), NewTasks(tasks, items[i + 1..]));
      appended := appended + NewOne(tasks, items[i]);
      i := i + 1;
    }
    assert appended + [] == appended;
  }
}
