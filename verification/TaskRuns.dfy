/** What every run of marking, waiving and amending keeps. */
module TaskRuns {
  import opened Options
  import opened Lines
  import opened TaskIds
  import opened Tasks
  import Seqs

  /** Waived tasks say why they were waived, blocked ones why they are blocked, and no other does. */
  predicate Sound(task: Task) {
    && (if task.status == Waived then Filled(task.waiveReason) else task.waiveReason.None?)
    && (if task.status == Blocked then Filled(task.blockReason) else task.blockReason.None?)
  }

  predicate AllSound(tasks: seq<Task>) { forall i :: 0 <= i < |tasks| ==> Sound(tasks[i]) }

  /** No two tasks whose ids have the same text. */
  predicate Addressable(s: State) { Seqs.Distinct(Keys(s.tasks)) }

  datatype Step =
    | MarkStep(given: Id, status: Status, reason: Option<string>, force: bool)
    | WaiveStep(target: Target, reason: Option<string>, force: bool)
    | AmendStep(items: seq<Item>, prune: bool, pruneNonPending: bool)
    | Launch(active: Option<Id>)
    | Archive(archived: bool)

  function Do(s: State, step: Step): State {
    match step
    case MarkStep(given, status, reason, force) => Mark(s, given, status, reason, force).0
    case WaiveStep(target, reason, force) => Waive(s, target, reason, force).0
    case AmendStep(items, prune, pruneNonPending) => Amend(s, items, prune, pruneNonPending).0
    case Launch(active) => s.(active := active)
    case Archive(archived) => s.(archived := archived)
  }

  function Run(s: State, steps: seq<Step>): State
    decreases |steps|
  {
    if steps == [] then s else Run(Do(s, steps[0]), steps[1..])
  }

  // ---- soundness ----

  lemma {:induction false} KeptSound(tasks: seq<Task>, items: seq<Item>, prune: bool)
    requires AllSound(tasks)
    ensures AllSound(KeptTasks(tasks, items, prune))
  {
    if tasks != [] {
      KeptSound(tasks[1..], items, prune);
      SoundConcat(KeptOne(tasks[0], items, prune), KeptTasks(tasks[1..], items, prune));
    }
  }

  lemma SoundConcat(a: seq<Task>, b: seq<Task>)
    requires AllSound(a) && AllSound(b)
    ensures AllSound(a + b)
  {
  }

  lemma {:induction false} NewSound(tasks: seq<Task>, items: seq<Item>)
    ensures AllSound(NewTasks(tasks, items))
  {
    if items != [] {
      NewSound(tasks, items[1..]);
      SoundConcat(NewOne(tasks, items[0]), NewTasks(tasks, items[1..]));
    }
  }

  lemma WaivedReason(reason: Option<string>)
    requires Filled(reason)
    ensures Filled(Some(Trim(reason.value)))
  {
    var t := Trim(reason.value);
    TrimEnds(reason.value);
    TrimClean(t);
  }

  lemma SoundStep(s: State, step: Step)
    requires AllSound(s.tasks)
    ensures AllSound(Do(s, step).tasks)
  {
    match step
    case WaiveStep(_, reason, _) => if Filled(reason) { WaivedReason(reason); }
    case AmendStep(items, prune, _) =>
      KeptSound(s.tasks, items, prune);
      NewSound(s.tasks, items);
      SoundConcat(KeptTasks(s.tasks, items, prune), NewTasks(s.tasks, items));
    case _ =>
  }

  /** In every run, every waived task has a waive reason and no block reason, every blocked task a block
      reason, and no other task has either. */
  lemma {:induction false} SoundRun(s: State, steps: seq<Step>)
    requires AllSound(s.tasks)
    ensures AllSound(Run(s, steps).tasks)
    decreases |steps|
  {
    if steps != [] {
      SoundStep(s, steps[0]);
      SoundRun(Do(s, steps[0]), steps[1..]);
    }
  }

  // ---- only blocked tasks are waived ----

  predicate IsWaived(tasks: seq<Task>, key: string) {
    exists i :: 0 <= i < |tasks| && Key(tasks[i].id) == key && tasks[i].status == Waived
  }

  predicate IsBlocked(tasks: seq<Task>, key: string) {
    exists i :: 0 <= i < |tasks| && Key(tasks[i].id) == key && tasks[i].status == Blocked
  }

  lemma {:induction false} BlockedIdsSpec(tasks: seq<Task>, id: Id)
    requires id in BlockedIds(tasks)
    ensures exists i :: 0 <= i < |tasks| && tasks[i].id == id && tasks[i].status == Blocked
  {
    if tasks != [] {
      if tasks[0].status == Blocked && tasks[0].id == id {
      } else {
        assert id in BlockedIds(tasks[1..]);
        BlockedIdsSpec(tasks[1..], id);
        var i :| 0 <= i < |tasks[1..]| && tasks[1..][i].id == id && tasks[1..][i].status == Blocked;
        assert tasks[i + 1].id == id;
      }
    }
  }

  /** Whatever is hit has a blocked task's text. */
  lemma TargetsBlocked(s: State, target: Target, ids: seq<Id>, id: Id)
    requires Targets(s, target) == Some(ids) && Hits(ids, id)
    ensures IsBlocked(s.tasks, Key(id))
  {
    var i :| 0 <= i < |ids| && Key(ids[i]) == Key(id);
    match target
    case All =>
      assert ids[i] in BlockedIds(s.tasks);
      BlockedIdsSpec(s.tasks, ids[i]);
    case One(given) =>
      var n := IndexOfKey(s.tasks, Key(Coerce(given)));
      assert s.tasks[n].status == Blocked;
  }

  lemma {:induction false} KeptFrom(tasks: seq<Task>, items: seq<Item>, prune: bool, j: nat)
    requires j < |KeptTasks(tasks, items, prune)|
    ensures exists i :: 0 <= i < |tasks| && tasks[i].id == KeptTasks(tasks, items, prune)[j].id
                     && tasks[i].status == KeptTasks(tasks, items, prune)[j].status
  {
    var one := KeptOne(tasks[0], items, prune);
    if j < |one| {
      assert tasks[0].id == one[0].id && tasks[0].status == one[0].status;
    } else {
      KeptFrom(tasks[1..], items, prune, j - |one|);
      var i :| 0 <= i < |tasks[1..]| && tasks[1..][i].id == KeptTasks(tasks[1..], items, prune)[j - |one|].id
               && tasks[1..][i].status == KeptTasks(tasks[1..], items, prune)[j - |one|].status;
      assert tasks[i + 1].id == KeptTasks(tasks, items, prune)[j].id;
    }
  }

  lemma {:induction false} NewPending(tasks: seq<Task>, items: seq<Item>)
    ensures forall j :: 0 <= j < |NewTasks(tasks, items)| ==> NewTasks(tasks, items)[j].status == Pending
  {
    if items != [] {
      NewPending(tasks, items[1..]);
    }
  }

  lemma AmendNeverWaives(s: State, items: seq<Item>, prune: bool, pruneNonPending: bool, key: string)
    requires IsWaived(Amend(s, items, prune, pruneNonPending).0.tasks, key)
    ensures IsWaived(s.tasks, key)
  {
    if Amend(s, items, prune, pruneNonPending).1 {
      var kept, added := KeptTasks(s.tasks, items, prune), NewTasks(s.tasks, items);
      var all := kept + added;
      var j :| 0 <= j < |all| && Key(all[j].id) == key && all[j].status == Waived;
      NewPending(s.tasks, items);
      assert forall i :: |kept| <= i < |all| ==> all[i].status == Pending;
      KeptFrom(s.tasks, items, prune, j);
    }
  }

  /** A task id becomes waived only by waive-task, and only if a task with that id's text was blocked. */
  lemma OnlyBlockedWaived(s: State, step: Step, key: string)
    requires IsWaived(Do(s, step).tasks, key) && !IsWaived(s.tasks, key)
    ensures step.WaiveStep? && IsBlocked(s.tasks, key)
  {
    match step
    case MarkStep(given, status, reason, force) => MarkNeverWaives(s, given, status, reason, force, key);
    case AmendStep(items, prune, pruneNonPending) => AmendNeverWaives(s, items, prune, pruneNonPending, key);
    case WaiveStep(target, reason, force) =>
      var after := Do(s, step).tasks;
      var i :| 0 <= i < |after| && Key(after[i].id) == key && after[i].status == Waived;
      assert s.tasks[i].status == Waived ==> IsWaived(s.tasks, key);
      TargetsBlocked(s, target, Targets(s, target).value, s.tasks[i].id);
    case _ =>
  }

  lemma MarkNeverWaives(s: State, given: Id, status: Status, reason: Option<string>, force: bool, key: string)
    requires IsWaived(Mark(s, given, status, reason, force).0.tasks, key)
    ensures IsWaived(s.tasks, key)
  {
    var after := Mark(s, given, status, reason, force).0.tasks;
    var i :| 0 <= i < |after| && Key(after[i].id) == key && after[i].status == Waived;
    assert s.tasks[i] == after[i];
  }

  lemma KeysDistinct(tasks: seq<Task>, i: nat, j: nat)
    requires Seqs.Distinct(Keys(tasks)) && i < |tasks| && j < |tasks| && Key(tasks[i].id) == Key(tasks[j].id)
    ensures i == j
  {
    assert Keys(tasks)[i] == Keys(tasks)[j];
  }

  /** Whether waive-task is meant for a task with this text. */
  predicate Meant(s: State, target: Target, key: string) {
    match target
    case All => IsBlocked(s.tasks, key)
    case One(given) => key == Key(Coerce(given))
  }

  /** Whether waive-task gets as far as writing the tasks. */
  predicate Writes(s: State, target: Target, reason: Option<string>, force: bool) {
    && Filled(reason)
    && (target.One? ==>
         var n := IndexOfKey(s.tasks, Key(Coerce(target.id))); n < |s.tasks| && s.tasks[n].status == Blocked)
    && (force || !(exists i :: 0 <= i < |s.tasks| && s.tasks[i].status == Blocked
                               && Meant(s, target, Key(s.tasks[i].id)) && UnderRun(s.active, s.tasks[i].id)))
  }

  /** Every task that shares a text with a target is blocked or waived already. */
  predicate Alike(s: State, target: Target) {
    forall i :: 0 <= i < |s.tasks| && Meant(s, target, Key(s.tasks[i].id)) ==>
      s.tasks[i].status == Blocked || s.tasks[i].status == Waived
  }

  lemma HitsIffMeant(s: State, target: Target, id: Id)
    requires Targets(s, target).Some?
    ensures Hits(Targets(s, target).value, id) <==> Meant(s, target, Key(id))
  {
    var ids := Targets(s, target).value;
    if Hits(ids, id) { TargetsBlocked(s, target, ids, id); }
    match target
    case All =>
      if i :| 0 <= i < |s.tasks| && Key(s.tasks[i].id) == Key(id) && s.tasks[i].status == Blocked {
        BlockedListed(s.tasks, i);
        var j :| 0 <= j < |ids| && ids[j] == s.tasks[i].id;
      }
    case One(given) =>
      assert ids[0] == Coerce(given);
  }

  lemma RunTarget(s: State, target: Target)
    requires Targets(s, target).Some?
    ensures var ids := Targets(s, target).value;
            (exists j :: 0 <= j < |ids| && UnderRun(s.active, ids[j])) <==>
              (exists i :: 0 <= i < |s.tasks| && s.tasks[i].status == Blocked
                           && Meant(s, target, Key(s.tasks[i].id)) && UnderRun(s.active, s.tasks[i].id))
  {
    var ids := Targets(s, target).value;
    if j :| 0 <= j < |ids| && UnderRun(s.active, ids[j]) {
      assert Hits(ids, ids[j]);
      TargetsBlocked(s, target, ids, ids[j]);
      var i :| 0 <= i < |s.tasks| && Key(s.tasks[i].id) == Key(ids[j]) && s.tasks[i].status == Blocked;
      HitsIffMeant(s, target, ids[j]);
    }
    if i :| 0 <= i < |s.tasks| && s.tasks[i].status == Blocked
            && Meant(s, target, Key(s.tasks[i].id)) && UnderRun(s.active, s.tasks[i].id) {
      HitsIffMeant(s, target, s.tasks[i].id);
      var j :| 0 <= j < |ids| && Key(ids[j]) == Key(s.tasks[i].id);
      assert UnderRun(s.active, ids[j]);
    }
  }

  function WaiveRecord(task: Task, reason: string): Task {
    task.(status := Waived, waiveReason := Some(Trim(reason)), blockReason := None)
  }

  /** waive-task leaves every task as it was, or waives exactly the tasks it is meant for. */
  lemma WaivesMeant(s: State, target: Target, reason: Option<string>, force: bool, i: nat)
    requires i < |s.tasks|
    ensures var after := Waive(s, target, reason, force).0.tasks;
            && |after| == |s.tasks|
            && after[i] == if Writes(s, target, reason, force) && Meant(s, target, Key(s.tasks[i].id))
                           then WaiveRecord(s.tasks[i], reason.value)
                           else s.tasks[i]
  {
    if Targets(s, target).Some? {
      HitsIffMeant(s, target, s.tasks[i].id);
      RunTarget(s, target);
    }
  }

  /** It turns only tasks waived that were blocked themselves exactly when it is refused, or every task
      that shares a text with a target is blocked or waived already. */
  lemma WaivesBlockedIff(s: State, target: Target, reason: Option<string>, force: bool)
    ensures var after := Waive(s, target, reason, force).0.tasks;
            && |after| == |s.tasks|
            && ((forall i :: 0 <= i < |after| && after[i].status != s.tasks[i].status ==> s.tasks[i].status == Blocked)
                <==> (Writes(s, target, reason, force) ==> Alike(s, target)))
  {
    forall i | 0 <= i < |s.tasks|
      ensures var after := Waive(s, target, reason, force).0.tasks;
              && |after| == |s.tasks|
              && after[i] == if Writes(s, target, reason, force) && Meant(s, target, Key(s.tasks[i].id))
                             then WaiveRecord(s.tasks[i], reason.value)
                             else s.tasks[i]
    {
      WaivesMeant(s, target, reason, force, i);
    }
  }

  /** With addressable tasks, every task that waive-task changes was blocked itself. */
  lemma WaivesBlocked(s: State, target: Target, reason: Option<string>, force: bool, i: nat)
    requires Addressable(s) && i < |s.tasks|
    ensures |Waive(s, target, reason, force).0.tasks| == |s.tasks|
    ensures Waive(s, target, reason, force).0.tasks[i] != s.tasks[i] ==> s.tasks[i].status == Blocked
  {
    if Waive(s, target, reason, force).0.tasks[i] != s.tasks[i] {
      TargetsBlocked(s, target, Targets(s, target).value, s.tasks[i].id);
      var j :| 0 <= j < |s.tasks| && Key(s.tasks[j].id) == Key(s.tasks[i].id) && s.tasks[j].status == Blocked;
      KeysDistinct(s.tasks, i, j);
    }
  }

  /** Two tasks whose ids are the number 1 and the text 1: waiving the blocked one waives the other too. */
  lemma SameTextWaivesBoth(reason: string, waves: Wave)
    requires Trim(reason) != ""
    ensures var blocked := Task(Number(1), Blocked, waves, [], Some(reason), None);
            var finished := Task(Name("1"), Completed, waves, [], None, None);
            var s := State([blocked, finished], None, false, []);
            Waive(s, One(Number(1)), Some(reason), false).0.tasks[1].status == Waived
  {
    NumberCanonical(1);
    assert Key(Number(1)) == "1";
    assert Hits([Number(1)], Name("1")) by { assert Key([Number(1)][0]) == Key(Name("1")); }
  }

  // ---- the live run ----

  lemma {:induction false} BlockedListed(tasks: seq<Task>, i: nat)
    requires i < |tasks| && tasks[i].status == Blocked
    ensures tasks[i].id in BlockedIds(tasks)
  {
    if i > 0 {
      BlockedListed(tasks[1..], i - 1);
    }
  }

  /** Unforced, waive-task --all waives nothing at all if one blocked task is the live run's. */
  lemma LiveRunStopsAll(s: State, reason: Option<string>, i: nat)
    requires i < |s.tasks| && s.tasks[i].status == Blocked && UnderRun(s.active, s.tasks[i].id)
    ensures Waive(s, All, reason, false) == (s, false)
  {
    BlockedListed(s.tasks, i);
    var ids := BlockedIds(s.tasks);
    var j :| 0 <= j < |ids| && ids[j] == s.tasks[i].id;
    assert UnderRun(s.active, ids[j]);
  }

  /** Neither refused for want of a reason nor, unforced, because of the live run. */
  predicate AllGoes(s: State, reason: Option<string>, force: bool) {
    && Filled(reason)
    && (force || forall j :: 0 <= j < |s.tasks| && s.tasks[j].status == Blocked ==> !UnderRun(s.active, s.tasks[j].id))
  }

  /** ... and otherwise it waives the tasks that share a text with a blocked one: exactly the blocked tasks
      if and only if no other task shares a text with one of them. */
  lemma AllWaivesBlocked(s: State, reason: Option<string>, force: bool)
    requires AllGoes(s, reason, force)
    ensures var after := Waive(s, All, reason, force).0.tasks;
            && |after| == |s.tasks|
            && (forall i :: 0 <= i < |after| ==>
                  after[i] == if IsBlocked(s.tasks, Key(s.tasks[i].id)) then WaiveRecord(s.tasks[i], reason.value)
                    else s.tasks[i])
            && ((forall i :: 0 <= i < |after| ==>
                   (after[i].status == Waived <==> s.tasks[i].status in {Blocked, Waived}))
                <==> Alike(s, All))
  {
    forall i | 0 <= i < |s.tasks|
      ensures var after := Waive(s, All, reason, force).0.tasks;
              && |after| == |s.tasks|
              && after[i] == if IsBlocked(s.tasks, Key(s.tasks[i].id)) then WaiveRecord(s.tasks[i], reason.value)
                   else s.tasks[i]
    {
      WaivesMeant(s, All, reason, force, i);
    }
  }

  /** On an archived bundle waive-task changes the tasks and then fails. */
  lemma ArchivedWaiveFails(s: State, reason: Option<string>, force: bool, i: nat)
    requires AllGoes(s, reason, force) && i < |s.tasks| && s.tasks[i].status == Blocked && s.archived
    ensures var (after, ok) := Waive(s, All, reason, force);
            !ok && after.log == s.log && |after.tasks| == |s.tasks| && after.tasks[i].status == Waived
  {
    AllWaivesBlocked(s, reason, force);
    BlockedListed(s.tasks, i);
    var ids := BlockedIds(s.tasks);
    forall j | 0 <= j < |ids| ensures force || !UnderRun(s.active, ids[j]) {
      BlockedIdsSpec(s.tasks, ids[j]);
    }
  }

  // ---- amending ----

  lemma KeysConcat(a: seq<Task>, b: seq<Task>)
    ensures Keys(a + b) == Keys(a) + Keys(b)
  {
  }

  lemma DistinctConcat(a: seq<string>, b: seq<string>)
    requires Seqs.Distinct(a) && Seqs.Distinct(b) && forall k :: k in a ==> k !in b
    ensures Seqs.Distinct(a + b)
  {
    forall i, j | 0 <= i < |a| && 0 <= j < |b| ensures a[i] != b[j] {
      assert a[i] in a && b[j] in b;
    }
  }

  lemma KeysTail(tasks: seq<Task>)
    requires tasks != []
    ensures Keys(tasks) == [Key(tasks[0].id)] + Keys(tasks[1..])
    ensures Seqs.Distinct(Keys(tasks)) ==> Seqs.Distinct(Keys(tasks[1..])) && Key(tasks[0].id) !in Keys(tasks[1..])
  {
    assert Keys(tasks[1..]) == Keys(tasks)[1..];
  }

  lemma KeptOneKeys(task: Task, items: seq<Item>, prune: bool, k: string)
    ensures k in Keys(KeptOne(task, items, prune)) ==> k == Key(task.id)
    ensures Seqs.Distinct(Keys(KeptOne(task, items, prune)))
  {
  }

  lemma {:induction false} KeptKeys(tasks: seq<Task>, items: seq<Item>, prune: bool, k: string)
    requires k in Keys(KeptTasks(tasks, items, prune))
    ensures k in Keys(tasks)
  {
    KeysTail(tasks);
    KeysConcat(KeptOne(tasks[0], items, prune), KeptTasks(tasks[1..], items, prune));
    if k in Keys(KeptOne(tasks[0], items, prune)) {
      KeptOneKeys(tasks[0], items, prune, k);
    } else {
      KeptKeys(tasks[1..], items, prune, k);
    }
  }

  /** The tasks that stay keep distinct texts distinct. */
  lemma {:induction false} KeptDistinct(tasks: seq<Task>, items: seq<Item>, prune: bool)
    requires Seqs.Distinct(Keys(tasks))
    ensures Seqs.Distinct(Keys(KeptTasks(tasks, items, prune)))
  {
    if tasks != [] {
      var one, rest := KeptOne(tasks[0], items, prune), KeptTasks(tasks[1..], items, prune);
      KeysTail(tasks);
      KeptDistinct(tasks[1..], items, prune);
      KeysConcat(one, rest);
      forall k | k in Keys(one) ensures k !in Keys(rest) {
        KeptOneKeys(tasks[0], items, prune, k);
        if k in Keys(rest) { KeptKeys(tasks[1..], items, prune, k); }
      }
      KeptOneKeys(tasks[0], items, prune, "");
      DistinctConcat(Keys(one), Keys(rest));
    }
  }

  predicate AllCanonical(items: seq<Item>) { forall i :: 0 <= i < |items| ==> Canonical(items[i].id) }

  lemma ItemKeysTail(items: seq<Item>)
    requires items != []
    ensures ItemKeys(items) == [Key(items[0].id)] + ItemKeys(items[1..])
    ensures Seqs.Distinct(ItemKeys(items)) ==>
              Seqs.Distinct(ItemKeys(items[1..])) && Key(items[0].id) !in ItemKeys(items[1..])
  {
    assert ItemKeys(items[1..]) == ItemKeys(items)[1..];
  }

  lemma {:induction false} NewKeys(tasks: seq<Task>, items: seq<Item>)
    requires AllCanonical(items) && Seqs.Distinct(ItemKeys(items))
    ensures forall k :: k in Keys(NewTasks(tasks, items)) ==> k in ItemKeys(items) && k !in Keys(tasks)
    ensures Seqs.Distinct(Keys(NewTasks(tasks, items)))
  {
    if items != [] {
      var one, rest := NewOne(tasks, items[0]), NewTasks(tasks, items[1..]);
      ItemKeysTail(items);
      NewKeys(tasks, items[1..]);
      KeysConcat(one, rest);
      DistinctConcat(Keys(one), Keys(rest));
    }
  }

  /** Amending from an index whose ids are all canonical keeps tasks addressable. */
  lemma AmendKeepsAddressable(s: State, items: seq<Item>, prune: bool, pruneNonPending: bool)
    requires Addressable(s) && AllCanonical(items)
    ensures Addressable(Amend(s, items, prune, pruneNonPending).0)
  {
    if Amend(s, items, prune, pruneNonPending).1 {
      KeptDistinct(s.tasks, items, prune);
      forall k | k in Keys(KeptTasks(s.tasks, items, prune)) ensures k in Keys(s.tasks) {
        KeptKeys(s.tasks, items, prune, k);
      }
      NewKeys(s.tasks, items);
      KeysConcat(KeptTasks(s.tasks, items, prune), NewTasks(s.tasks, items));
      DistinctConcat(Keys(KeptTasks(s.tasks, items, prune)), Keys(NewTasks(s.tasks, items)));
    }
  }

  lemma {:induction false} NewHas(tasks: seq<Task>, items: seq<Item>, i: nat)
    requires i < |items| && Key(items[i].id) !in Keys(tasks)
    ensures Key(Coerce(items[i].id)) in Keys(NewTasks(tasks, items))
  {
    var one, rest := NewOne(tasks, items[0]), NewTasks(tasks, items[1..]);
    KeysConcat(one, rest);
    if i == 0 {
      assert Keys(one)[0] == Key(Coerce(items[0].id));
    } else {
      NewHas(tasks, items[1..], i - 1);
    }
  }

  lemma {:induction false} NewNotStuck(tasks: seq<Task>, items: seq<Item>)
    requires forall i :: 0 <= i < |items| ==> items[i].wave.Integer?
    ensures !AnyStuck(NewTasks(tasks, items))
  {
    if items != [] {
      NewNotStuck(tasks, items[1..]);
    }
  }

  /** A done task under the number an index id stands for, but not under its text. */
  lemma NonCanonicalBreaks(items: seq<Item>, i: nat) returns (s: State)
    requires Seqs.Distinct(ItemKeys(items)) && i < |items| && !Canonical(items[i].id)
    requires forall j :: 0 <= j < |items| ==> items[j].wave.Integer?
    ensures Addressable(s) && !Addressable(Amend(s, items, false, false).0)
  {
    var task := Task(Coerce(items[i].id), Completed, NoWave, [], None, None);
    s := State([task], None, false, []);
    var kept, added := KeptTasks(s.tasks, items, false), NewTasks(s.tasks, items);
    var k := Key(task.id);
    assert Keys(s.tasks) == [k];
    assert KeptTasks(s.tasks[1..], items, false) == [];
    assert kept == KeptOne(task, items, false);
    NewHas(s.tasks, items, i);
    NewNotStuck(s.tasks, items);
    KeysConcat(kept, added);
    assert Keys(kept)[0] == k;
    SharedKey(Keys(kept), Keys(added), k);
    assert !AnyStuck(kept + added);
  }

  lemma SharedKey(a: seq<string>, b: seq<string>, k: string)
    requires k in a && k in b
    ensures !Seqs.Distinct(a + b)
  {
    var i :| 0 <= i < |a| && a[i] == k;
    var j :| 0 <= j < |b| && b[j] == k;
    assert (a + b)[i] == (a + b)[|a| + j];
  }

  /** An index keeps every addressable task list addressable exactly when its ids are all canonical:
      an id like 01 is appended as the number 1 next to a task 1 that it does not match. */
  lemma AddressableIff(items: seq<Item>)
    requires Seqs.Distinct(ItemKeys(items)) && forall j :: 0 <= j < |items| ==> items[j].wave.Integer?
    ensures AllCanonical(items) <==> forall s | Addressable(s) :: Addressable(Amend(s, items, false, false).0)
  {
    if AllCanonical(items) {
      forall s | Addressable(s) ensures Addressable(Amend(s, items, false, false).0) {
        AmendKeepsAddressable(s, items, false, false);
      }
    } else {
      var i :| 0 <= i < |items| && !Canonical(items[i].id);
      var s := NonCanonicalBreaks(items, i);
    }
  }

  predicate SameState(a: Task, b: Task) {
    a.id == b.id && a.status == b.status && a.blockReason == b.blockReason && a.waiveReason == b.waiveReason
  }

  lemma {:induction false} KeptHas(tasks: seq<Task>, items: seq<Item>, prune: bool, i: nat)
    requires i < |tasks| && (prune ==> Lookup(items, Key(tasks[i].id)).Some?)
    ensures exists j :: 0 <= j < |KeptTasks(tasks, items, prune)|
              && SameState(KeptTasks(tasks, items, prune)[j], tasks[i])
  {
    var one, rest := KeptOne(tasks[0], items, prune), KeptTasks(tasks[1..], items, prune);
    assert KeptTasks(tasks, items, prune) == one + rest;
    if i == 0 {
      assert (one + rest)[0] == one[0] && SameState(one[0], tasks[0]);
    } else {
      KeptHas(tasks[1..], items, prune, i - 1);
      var j :| 0 <= j < |rest| && SameState(rest[j], tasks[i]);
      assert (one + rest)[|one| + j] == rest[j];
    }
  }

  /** An amendment leaves every task's status and reasons alone; a task can only go missing by pruning,
      and one with state only on explicit consent. */
  lemma AmendKeepsState(s: State, items: seq<Item>, prune: bool, pruneNonPending: bool, i: nat)
    requires i < |s.tasks|
    ensures var after := Amend(s, items, prune, pruneNonPending).0.tasks;
            || (exists j :: 0 <= j < |after| && SameState(after[j], s.tasks[i]))
            || (prune && Lookup(items, Key(s.tasks[i].id)).None? && (Bare(s.tasks[i]) || pruneNonPending))
  {
    var after := Amend(s, items, prune, pruneNonPending).0.tasks;
    if !Amend(s, items, prune, pruneNonPending).1 {
      assert SameState(after[i], s.tasks[i]);
    } else if prune && Lookup(items, Key(s.tasks[i].id)).None? {
      assert Bare(s.tasks[i]) || pruneNonPending || Loses(s.tasks, items);
    } else {
      KeptHas(s.tasks, items, prune, i);
      var kept := KeptTasks(s.tasks, items, prune);
      var j :| 0 <= j < |kept| && SameState(kept[j], s.tasks[i]);
      assert after[j] == kept[j];
    }
  }

  lemma {:induction false} LookupFinds(items: seq<Item>, i: nat)
    requires i < |items|
    ensures Lookup(items, Key(items[i].id)).Some?
  {
    if i > 0 {
      LookupFinds(items[1..], i - 1);
    }
  }

  lemma KeyAt(tasks: seq<Task>, j: nat)
    requires j < |tasks|
    ensures Key(tasks[j].id) in Keys(tasks)
  {
    assert Keys(tasks)[j] == Key(tasks[j].id);
  }

  /** After an amendment that succeeds, every canonical index entry has a task with its text, and every
      task that is not done has a wave. */
  lemma AmendCovers(s: State, items: seq<Item>, prune: bool, pruneNonPending: bool, i: nat)
    requires i < |items| && Canonical(items[i].id) && Amend(s, items, prune, pruneNonPending).1
    ensures var after := Amend(s, items, prune, pruneNonPending).0.tasks;
            && Key(items[i].id) in Keys(after)
            && forall j :: 0 <= j < |after| ==> after[j].status == Completed || after[j].wave.Integer?
  {
    var kept, added, k := KeptTasks(s.tasks, items, prune), NewTasks(s.tasks, items), Key(items[i].id);
    KeysConcat(kept, added);
    if k in Keys(s.tasks) {
      var j :| 0 <= j < |s.tasks| && Keys(s.tasks)[j] == k;
      LookupFinds(items, i);
      KeptHas(s.tasks, items, prune, j);
      var n :| 0 <= n < |kept| && SameState(kept[n], s.tasks[j]);
      KeyAt(kept, n);
    } else {
      NewHas(s.tasks, items, i);
    }
  }

  predicate CanonicalSteps(steps: seq<Step>) {
    forall i :: 0 <= i < |steps| && steps[i].AmendStep? ==> AllCanonical(steps[i].items)
  }

  lemma AddressableStep(s: State, step: Step)
    requires Addressable(s) && (step.AmendStep? ==> AllCanonical(step.items))
    ensures Addressable(Do(s, step))
  {
    match step
    case MarkStep(_, _, _, _) => assert Keys(Do(s, step).tasks) == Keys(s.tasks);
    case WaiveStep(_, _, _) => assert Keys(Do(s, step).tasks) == Keys(s.tasks);
    case AmendStep(items, prune, pruneNonPending) => AmendKeepsAddressable(s, items, prune, pruneNonPending);
    case _ =>
  }

  /** In every run over canonical indexes tasks stay addressable, so waiving only ever changes blocked tasks. */
  lemma {:induction false} AddressableRun(s: State, steps: seq<Step>)
    requires Addressable(s) && CanonicalSteps(steps)
    ensures Addressable(Run(s, steps))
    decreases |steps|
  {
    if steps != [] {
      AddressableStep(s, steps[0]);
      AddressableRun(Do(s, steps[0]), steps[1..]);
    }
  }

  /** A task id that is waived after a run and was not before it was waived by a waive-task step, at a
      moment when a task with that id's text was blocked. */
  lemma {:induction false} WaivedByWaive(s: State, steps: seq<Step>, key: string) returns (n: nat)
    requires IsWaived(Run(s, steps).tasks, key) && !IsWaived(s.tasks, key)
    ensures n < |steps| && steps[n].WaiveStep? && IsBlocked(Run(s, steps[..n]).tasks, key)
    decreases |steps|
  {
    var next := Do(s, steps[0]);
    if IsWaived(next.tasks, key) {
      OnlyBlockedWaived(s, steps[0], key);
      n := 0;
      assert steps[..0] == [];
    } else {
      n := WaivedByWaive(next, steps[1..], key);
      assert steps[..n + 1][1..] == steps[1..][..n];
      n := n + 1;
    }
  }
}
