/** Multi-file tmp-then-rename commits with backups and rollback. */
module AtomicWrite {
  import opened Common
  import opened DurableDisk

  datatype Plan<+T, +B> = Plan(path: T, contents: B, expected: Option<Digest<B>>, mustBeAbsent: bool)

  datatype WriteResult<+T> =
    | Written
    | Conflict(path: T)
    | Busy
    | Failed(rollbackComplete: bool)

  datatype Staged<+T> = Staged(path: T, tmp: Scratch<T>, ownsTmp: bool, bak: Option<Scratch<T>>, hadOriginal: bool)

  function Targets<T, B>(plans: seq<Plan<T, B>>): set<T> {
    set i | 0 <= i < |plans| :: plans[i].path
  }

  ghost function LocksOf<T, B>(plans: seq<Plan<T, B>>): set<Lock<T>> {
    set i | 0 <= i < |plans| :: Of(plans[i].path)
  }

  predicate Distinct<T(==), B>(plans: seq<Plan<T, B>>) {
    forall i, j | 0 <= i < j < |plans| :: plans[i].path != plans[j].path
  }

  predicate Satisfied<T, B(==)>(plan: Plan<T, B>, files: map<T, Cell<B>>) {
    && (plan.mustBeAbsent ==> plan.path !in files)
    && (plan.expected.Some? ==> plan.path in files && ContentHash(files[plan.path]) == plan.expected.value)
  }

  predicate AllSatisfied<T, B(==)>(plans: seq<Plan<T, B>>, files: map<T, Cell<B>>) {
    forall i | 0 <= i < |plans| :: Satisfied(plans[i], files)
  }

  /** `before` with every plan carried out. */
  function Overlay<T, B>(before: map<T, Cell<B>>, plans: seq<Plan<T, B>>): map<T, Cell<B>> {
    if plans == [] then before
    else
      var last := plans[|plans| - 1];
      Overlay(before, plans[..|plans| - 1])[last.path := Whole(last.contents)]
  }

  /** Every path is wholly as in `before`, or is a target that wholly holds its plan's bytes. */
  ghost predicate Between<T(!new), B>(before: map<T, Cell<B>>, plans: seq<Plan<T, B>>, now: map<T, Cell<B>>) {
    forall t :: SameAt(before, now, t) || HoldsPlan(plans, now, t)
  }

  ghost predicate HoldsPlan<T, B>(plans: seq<Plan<T, B>>, now: map<T, Cell<B>>, t: T) {
    exists i :: 0 <= i < |plans| && plans[i].path == t && t in now && now[t] == Whole(plans[i].contents)
  }

  lemma {:induction false} OverlayAt<T, B>(before: map<T, Cell<B>>, plans: seq<Plan<T, B>>, t: T)
    requires Distinct(plans)
    ensures forall i | 0 <= i < |plans| && plans[i].path == t ::
              t in Overlay(before, plans) && Overlay(before, plans)[t] == Whole(plans[i].contents)
    ensures t !in Targets(plans) ==> SameAt(before, Overlay(before, plans), t)
  {
    if plans != [] {
      var init := plans[..|plans| - 1];
      OverlayAt(before, init, t);
      assert t in Targets(init) ==> t in Targets(plans);
      assert forall i | 0 <= i < |init| :: init[i] == plans[i];
    }
  }

  lemma OverlayBetween<T(!new), B>(before: map<T, Cell<B>>, plans: seq<Plan<T, B>>, k: nat)
    requires Distinct(plans) && k <= |plans|
    ensures Between(before, plans, Overlay(before, plans[..k]))
  {
    var now := Overlay(before, plans[..k]);
    forall t ensures SameAt(before, now, t) || HoldsPlan(plans, now, t) {
      OverlayAt(before, plans[..k], t);
      if t in Targets(plans[..k]) {
        var i :| 0 <= i < k && plans[..k][i].path == t;
        assert plans[i].path == t && now[t] == Whole(plans[i].contents);
      }
    }
  }

  // ---- staging -----------------------------------------------------------------------------

  /** The scratch names of an item are this call's own. */
  predicate Owned<T(==)>(item: Staged<T>, token: nat) {
    && item.tmp == Tmp(token, item.path)
    && (item.bak.Some? ==> item.bak == Some(Bak(token, item.path)))
  }

  /** The plan's bytes are complete in the temporary file, the original's in the backup. */
  ghost predicate Ready<T, B>(item: Staged<T>, plan: Plan<T, B>, before: map<T, Cell<B>>, scratch: map<Scratch<T>, Cell<B>>)
  {
    && item.tmp in scratch && scratch[item.tmp] == Whole(plan.contents)
    && BackedUp(item, plan, before, scratch)
  }

  ghost predicate BackedUp<T, B>(item: Staged<T>, plan: Plan<T, B>, before: map<T, Cell<B>>, scratch: map<Scratch<T>, Cell<B>>)
  {
    && item.path == plan.path
    && item.hadOriginal == (plan.path in before)
    && item.bak.Some? == item.hadOriginal
    && match item.bak
       case Some(bak) => plan.path in before && bak in scratch && scratch[bak] == before[plan.path]
       case None => Bak(item.tmp.token, item.path) !in scratch
  }

  ghost predicate KeptExcept<T, B>(before: map<Scratch<T>, Cell<B>>, now: map<Scratch<T>, Cell<B>>, own: set<Scratch<T>>) {
    && (forall s | s in before && s !in own :: s in now && now[s] == before[s])
    && (forall s | s in now && s !in own :: s in before)
  }

  /** Scratch files of other calls are as they were. */
  ghost predicate OthersKept<T(!new), B>(before: map<Scratch<T>, Cell<B>>, now: map<Scratch<T>, Cell<B>>, token: nat) {
    && (forall s | s in before && s.token != token :: s in now && now[s] == before[s])
    && (forall s | s in now && s.token != token :: s in before)
  }

  /** Whatever is new is of this call. */
  ghost predicate OwnOnly<T(!new)>(before: set<Scratch<T>>, now: set<Scratch<T>>, token: nat) {
    forall s | s in now && s !in before :: s.token == token
  }

  /** Exclusive creation, then the bytes, then fsync; `created` is known before the bytes are. */
  method WriteDurableFile<T(==,!new), B(==)>(disk: Disk<T, B>, s: Scratch<T>, contents: Cell<B>)
    returns (created: bool, ok: bool)
    modifies disk`scratch, disk`buffer, disk`made, disk`schedule, disk`alive, disk`failed
    ensures !created ==> disk.scratch == old(disk.scratch) && !ok
    ensures created ==> s !in old(disk.scratch)
    ensures created ==> disk.scratch == old(disk.scratch)[s := Partial] || disk.scratch == old(disk.scratch)[s := contents]
    ensures ok ==> disk.scratch == old(disk.scratch)[s := contents]
    ensures !old(disk.alive) ==> !disk.alive
    ensures disk.buffer.Keys <= old(disk.buffer).Keys + {s} && disk.made <= old(disk.made) + {s}
    ensures disk.failed >= old(disk.failed) && (ok ==> disk.failed == old(disk.failed))
    ensures disk.failed == old(disk.failed) && s !in old(disk.scratch) ==> ok
    ensures old(disk.Calm()) ==> disk.Calm() && disk.failed == old(disk.failed)
  {
    created := disk.Create(s);
    ok := created;
    if ok {
      ok := disk.Write(s, contents);
    }
    if ok {
      ok := disk.Sync(s);
    }
  }

  method StageOne<T(==,!new), B(==)>(disk: Disk<T, B>, plan: Plan<T, B>, token: nat)
    returns (item: Staged<T>, ok: bool)
    requires Unstaged(plan, token, disk.scratch)
    modifies disk`scratch, disk`buffer, disk`made, disk`moved, disk`schedule, disk`alive, disk`failed
    ensures Owned(item, token) && item.path == plan.path
    ensures KeptExcept(old(disk.scratch), disk.scratch, {Tmp(token, plan.path), Bak(token, plan.path)})
    ensures ok ==> item.ownsTmp && Ready(item, plan, disk.files, disk.scratch)
    ensures forall s | s in disk.scratch && s !in old(disk.scratch) :: (item.ownsTmp && s == item.tmp) || item.bak == Some(s)
    ensures !old(disk.alive) ==> !disk.alive
    ensures disk.buffer.Keys <= old(disk.buffer).Keys + {Tmp(token, plan.path), Bak(token, plan.path)}
    ensures disk.made <= old(disk.made) + if ok then {} else {Tmp(token, plan.path), Bak(token, plan.path)}
    ensures disk.moved <= old(disk.moved)
    ensures disk.failed >= old(disk.failed) && (disk.failed == old(disk.failed) <==> ok)
    ensures old(disk.Calm()) ==> disk.Calm() && disk.failed == old(disk.failed)
  {
    var hadOriginal := plan.path in disk.files;
    item := Staged(plan.path, Tmp(token, plan.path), false, None, hadOriginal);
    ok := disk.Step();
    if !ok {
      return;
    }
    var created;
    created, ok := WriteDurableFile(disk, item.tmp, Whole(plan.contents));
    item := item.(ownsTmp := created);
    if ok && hadOriginal {
      var backup := Bak(token, plan.path);
      created, ok := WriteDurableFile(disk, backup, disk.files[plan.path]);
      item := item.(bak := if created then Some(backup) else None);
    }
    if ok {
      ok := disk.SyncDirectories({plan.path});
    }
  }

  /** The plans before `k` are staged and the later ones own no scratch file yet. */
  ghost predicate StagedTo<T, B>(staged: seq<Staged<T>>, plans: seq<Plan<T, B>>, k: nat, token: nat,
                                 before: map<T, Cell<B>>, scratch: map<Scratch<T>, Cell<B>>)
    requires k <= |staged| && k <= |plans|
  {
    && (forall i | 0 <= i < k :: Owned(staged[i], token) && staged[i].ownsTmp && Ready(staged[i], plans[i], before, scratch))
    && (forall i | k <= i < |plans| :: Unstaged(plans[i], token, scratch))
  }

  ghost predicate Unstaged<T, B>(plan: Plan<T, B>, token: nat, scratch: map<Scratch<T>, Cell<B>>) {
    Tmp(token, plan.path) !in scratch && Bak(token, plan.path) !in scratch
  }

  lemma StageStep<T, B>(staged: seq<Staged<T>>, item: Staged<T>, plans: seq<Plan<T, B>>, k: nat, token: nat,
                        before: map<T, Cell<B>>, was: map<Scratch<T>, Cell<B>>, now: map<Scratch<T>, Cell<B>>)
    requires k == |staged| < |plans| && Distinct(plans)
    requires StagedTo(staged, plans, k, token, before, was)
    requires Owned(item, token) && item.ownsTmp && Ready(item, plans[k], before, now)
    requires KeptExcept(was, now, {Tmp(token, plans[k].path), Bak(token, plans[k].path)})
    ensures StagedTo(staged + [item], plans, k + 1, token, before, now)
  {
    var next := staged + [item];
    forall i | 0 <= i < k
      ensures Owned(next[i], token) && next[i].ownsTmp && Ready(next[i], plans[i], before, now)
    {
      assert next[i] == staged[i] && Ready(staged[i], plans[i], before, was);
      assert plans[i].path != plans[k].path;
    }
    forall i | k + 1 <= i < |plans|
      ensures Unstaged(plans[i], token, now)
    {
      assert Unstaged(plans[i], token, was) && plans[i].path != plans[k].path;
    }
  }

  /** Every scratch file of this call is one that some item will clear away. */
  ghost predicate Accounted<T(!new), B>(staged: seq<Staged<T>>, token: nat, scratch: map<Scratch<T>, Cell<B>>) {
    forall s | s in scratch && s.token == token :: exists i :: 0 <= i < |staged| && Has(staged[i], s)
  }

  predicate Has<T(==)>(item: Staged<T>, s: Scratch<T>) { (item.ownsTmp && s == item.tmp) || item.bak == Some(s) }

  lemma AccountedNext<T(!new), B>(staged: seq<Staged<T>>, item: Staged<T>, token: nat, was: map<Scratch<T>, Cell<B>>, now: map<Scratch<T>, Cell<B>>)
    requires Accounted(staged, token, was) && forall s | s in now && s !in was :: Has(item, s)
    ensures Accounted(staged + [item], token, now)
  {
    var next := staged + [item];
    forall s | s in now && s.token == token ensures exists i :: 0 <= i < |next| && Has(next[i], s) {
      if s in was {
        var i :| 0 <= i < |staged| && Has(staged[i], s);
        assert Has(next[i], s);
      } else {
        assert Has(next[|staged|], s);
      }
    }
  }

  lemma NothingStaged<T(!new), B>(plans: seq<Plan<T, B>>, token: nat, before: map<T, Cell<B>>, scratch: map<Scratch<T>, Cell<B>>)
    requires forall s :: s in scratch ==> s.token != token
    ensures StagedTo([], plans, 0, token, before, scratch) && Accounted([], token, scratch)
  {
  }

  lemma NextToStage<T, B>(staged: seq<Staged<T>>, plans: seq<Plan<T, B>>, k: nat, token: nat,
                          before: map<T, Cell<B>>, scratch: map<Scratch<T>, Cell<B>>)
    requires k == |staged| < |plans| && StagedTo(staged, plans, k, token, before, scratch)
    ensures Unstaged(plans[k], token, scratch)
  {
  }

  /** Staging one plan touches scratch files of this call only. */
  lemma StagedOthers<T(!new), B>(plans: seq<Plan<T, B>>, k: nat, token: nat, before: map<Scratch<T>, Cell<B>>,
                                 was: map<Scratch<T>, Cell<B>>, now: map<Scratch<T>, Cell<B>>)
    requires k < |plans| && KeptExcept(was, now, {Tmp(token, plans[k].path), Bak(token, plans[k].path)})
    requires OthersKept(before, was, token) && forall s :: s in was && s.token == token ==> s.target in Targets(plans)
    ensures OthersKept(before, now, token)
    ensures forall s :: s in now && s.token == token ==> s.target in Targets(plans)
  {
    assert plans[k].path in Targets(plans);
  }

  method StageAll<T(==,!new), B(==)>(disk: Disk<T, B>, plans: seq<Plan<T, B>>, token: nat)
    returns (staged: seq<Staged<T>>, ok: bool)
    requires Distinct(plans)
    requires forall s :: s in disk.scratch ==> s.token != token
    modifies disk`scratch, disk`buffer, disk`made, disk`moved, disk`schedule, disk`alive, disk`failed
    ensures |staged| <= |plans|
    ensures forall i | 0 <= i < |staged| :: Owned(staged[i], token) && staged[i].path == plans[i].path
    ensures ok ==> |staged| == |plans| && StagedTo(staged, plans, |plans|, token, disk.files, disk.scratch)
    ensures OthersKept(old(disk.scratch), disk.scratch, token)
    ensures forall s :: s in disk.scratch && s.token == token ==> s.target in Targets(plans)
    ensures Accounted(staged, token, disk.scratch)
    ensures !old(disk.alive) ==> !disk.alive
    ensures OwnOnly(old(disk.buffer).Keys, disk.buffer.Keys, token) && OwnOnly(old(disk.made), disk.made, token)
    // temporary files and backups are on the disk for good before anything is committed
    ensures ok ==> disk.made <= old(disk.made)
    ensures disk.moved <= old(disk.moved)
    ensures disk.failed >= old(disk.failed) && (disk.failed == old(disk.failed) <==> ok)
    ensures old(disk.Calm()) ==> disk.Calm() && disk.failed == old(disk.failed)
  {
    hide StagedTo, Ready, Distinct, Accounted, KeptExcept, Owned, BackedUp;
    staged := [];
    NothingStaged(plans, token, disk.files, disk.scratch);
    for k := 0 to |plans|
      invariant |staged| == k
      invariant forall i | 0 <= i < k :: Owned(staged[i], token) && staged[i].path == plans[i].path
      invariant StagedTo(staged, plans, k, token, disk.files, disk.scratch)
      invariant OthersKept(old(disk.scratch), disk.scratch, token)
      invariant forall s :: s in disk.scratch && s.token == token ==> s.target in Targets(plans)
      invariant Accounted(staged, token, disk.scratch)
      invariant !old(disk.alive) ==> !disk.alive
      invariant OwnOnly(old(disk.buffer).Keys, disk.buffer.Keys, token) && disk.made <= old(disk.made)
      invariant disk.moved <= old(disk.moved)
      invariant disk.failed == old(disk.failed)
      invariant old(disk.Calm()) ==> disk.Calm() && disk.failed == old(disk.failed)
    {
      ghost var was := disk.scratch;
      NextToStage(staged, plans, k, token, disk.files, was);
      var item;
      item, ok := StageOne(disk, plans[k], token);
      AccountedNext(staged, item, token, was, disk.scratch);
      StagedOthers(plans, k, token, old(disk.scratch), was, disk.scratch);
      if !ok {
        staged := staged + [item];
        return;
      }
      StageStep(staged, item, plans, k, token, disk.files, was, disk.scratch);
      staged := staged + [item];
    }
    ok := true;
  }

  // ---- committing --------------------------------------------------------------------------

  /** The first `k` plans are in place, the rest still wait in their temporary files. */
  ghost predicate CommittedTo<T, B>(staged: seq<Staged<T>>, plans: seq<Plan<T, B>>, k: nat, token: nat,
                                    before: map<T, Cell<B>>, files: map<T, Cell<B>>, scratch: map<Scratch<T>, Cell<B>>)
    requires k <= |plans| == |staged|
  {
    && files == Overlay(before, plans[..k])
    && (forall i | 0 <= i < |plans| :: Owned(staged[i], token) && BackedUp(staged[i], plans[i], before, scratch))
    && (forall i | 0 <= i < k :: staged[i].tmp !in scratch)
    && (forall i | k <= i < |plans| :: staged[i].tmp in scratch && scratch[staged[i].tmp] == Whole(plans[i].contents))
  }

  lemma CommitStep<T, B>(staged: seq<Staged<T>>, plans: seq<Plan<T, B>>, k: nat, token: nat,
                         before: map<T, Cell<B>>, files: map<T, Cell<B>>, scratch: map<Scratch<T>, Cell<B>>)
    requires k < |plans| == |staged| && Distinct(plans)
    requires CommittedTo(staged, plans, k, token, before, files, scratch)
    ensures CommittedTo(staged, plans, k + 1, token, before,
                        files[staged[k].path := scratch[staged[k].tmp]], scratch - {staged[k].tmp})
  {
    assert plans[..k + 1][..k] == plans[..k];
    assert staged[k].path == plans[k].path;
    var left := scratch - {staged[k].tmp};
    forall i | 0 <= i < |plans|
      ensures BackedUp(staged[i], plans[i], before, left)
      ensures i != k && staged[i].tmp in scratch ==> staged[i].tmp in left
    {
      assert Owned(staged[i], token) && Owned(staged[k], token);
      assert i != k ==> plans[i].path != plans[k].path;
    }
  }

  lemma NothingCommitted<T, B>(staged: seq<Staged<T>>, plans: seq<Plan<T, B>>, token: nat,
                               before: map<T, Cell<B>>, scratch: map<Scratch<T>, Cell<B>>)
    requires |staged| == |plans| && StagedTo(staged, plans, |plans|, token, before, scratch)
    ensures CommittedTo(staged, plans, 0, token, before, before, scratch)
  {
    assert plans[..0] == [];
  }

  lemma NextToCommit<T, B>(staged: seq<Staged<T>>, plans: seq<Plan<T, B>>, k: nat, token: nat,
                           before: map<T, Cell<B>>, files: map<T, Cell<B>>, scratch: map<Scratch<T>, Cell<B>>)
    requires k < |plans| == |staged| && CommittedTo(staged, plans, k, token, before, files, scratch)
    ensures staged[k].tmp in scratch && staged[k].tmp.token == token && staged[k].path == plans[k].path
  {
    assert Owned(staged[k], token);
  }

  method CommitAll<T(==,!new), B(==)>(disk: Disk<T, B>, staged: seq<Staged<T>>, plans: seq<Plan<T, B>>, ghost token: nat)
    returns (committed: nat, ok: bool)
    requires |staged| == |plans| && Distinct(plans)
    requires StagedTo(staged, plans, |plans|, token, disk.files, disk.scratch)
    requires forall s :: s in disk.scratch && s.token == token ==> s.target in Targets(plans)
    requires LocksOf(plans) <= disk.held
    modifies disk`files, disk`scratch, disk`made, disk`moved, disk`schedule, disk`alive, disk`failed
    ensures committed <= |plans| && (ok ==> committed == |plans|)
    ensures CommittedTo(staged, plans, committed, token, old(disk.files), disk.files, disk.scratch)
    ensures OthersKept(old(disk.scratch), disk.scratch, token)
    ensures forall s :: s in disk.scratch && s.token == token ==> s.target in Targets(plans)
    ensures disk.scratch.Keys <= old(disk.scratch).Keys
    ensures !old(disk.alive) ==> !disk.alive && disk.files == old(disk.files)
    ensures disk.made <= old(disk.made)
    // nothing but committed targets waits for its directory to be synced, and after success not even those
    ensures disk.moved <= old(disk.moved) + Targets(plans[..committed])
    ensures ok ==> disk.moved <= old(disk.moved) - Targets(plans)
    ensures disk.failed >= old(disk.failed) && (disk.failed == old(disk.failed) <==> ok)
    ensures old(disk.Calm()) ==> disk.Calm() && disk.failed == old(disk.failed)
  {
    hide StagedTo, CommittedTo, Distinct, Targets, LocksOf;
    committed := 0;
    NoTargets(plans);
    NothingCommitted(staged, plans, token, disk.files, disk.scratch);
    while committed < |plans|
      invariant committed <= |plans|
      invariant CommittedTo(staged, plans, committed, token, old(disk.files), disk.files, disk.scratch)
      invariant OthersKept(old(disk.scratch), disk.scratch, token)
      invariant forall s :: s in disk.scratch && s.token == token ==> s.target in Targets(plans)
      invariant disk.scratch.Keys <= old(disk.scratch).Keys
      invariant !old(disk.alive) ==> !disk.alive && disk.files == old(disk.files)
      invariant disk.made <= old(disk.made) && disk.moved <= old(disk.moved) + Targets(plans[..committed])
      invariant disk.failed == old(disk.failed)
      invariant old(disk.Calm()) ==> disk.Calm() && disk.failed == old(disk.failed)
    {
      NextToCommit(staged, plans, committed, token, old(disk.files), disk.files, disk.scratch);
      MoreTargets(plans, committed);
      CommitStep(staged, plans, committed, token, old(disk.files), disk.files, disk.scratch);
      ok := disk.Rename(staged[committed].tmp, staged[committed].path);
      if !ok {
        return;
      }
      committed := committed + 1;
    }
    assert plans[..|plans|] == plans;
    ok := disk.SyncDirectories(Targets(plans));
  }

  lemma TargetsWithin<T, B>(plans: seq<Plan<T, B>>, k: nat)
    requires k <= |plans|
    ensures Targets(plans[..k]) <= Targets(plans)
  {
    if k == |plans| {
      assert plans[..k] == plans;
    } else {
      MoreTargets(plans, k);
    }
  }

  lemma NoTargets<T, B>(plans: seq<Plan<T, B>>)
    ensures Targets(plans[..0]) == {}
  {
  }

  lemma MoreTargets<T, B>(plans: seq<Plan<T, B>>, k: nat)
    requires k < |plans|
    ensures Targets(plans[..k + 1]) == Targets(plans[..k]) + {plans[k].path}
    ensures Targets(plans[..k]) <= Targets(plans) && plans[k].path in Targets(plans) && Of(plans[k].path) in LocksOf(plans)
  {
    assert plans[..k + 1] == plans[..k] + [plans[k]];
    forall t | t in Targets(plans[..k + 1]) ensures t in Targets(plans[..k]) + {plans[k].path} {
      var i :| 0 <= i < k + 1 && plans[..k + 1][i].path == t;
      assert i < k ==> plans[..k][i].path == t;
    }
    forall t | t in Targets(plans[..k]) ensures t in Targets(plans[..k + 1]) && t in Targets(plans) {
      var i :| 0 <= i < k && plans[..k][i].path == t;
      assert plans[..k + 1][i].path == t && plans[i].path == t;
    }
    assert plans[..k + 1][k].path == plans[k].path;
  }

  // ---- clearing up -------------------------------------------------------------------------

  /** After success: drop each backup, then the temporary file; a failure skips to the next item. */
  method CleanUp<T(==,!new), B(==)>(disk: Disk<T, B>, staged: seq<Staged<T>>, ghost token: nat)
    requires forall i | 0 <= i < |staged| :: Owned(staged[i], token)
    modifies disk`scratch, disk`schedule, disk`alive, disk`failed
    ensures OthersKept(old(disk.scratch), disk.scratch, token)
    ensures disk.scratch.Keys <= old(disk.scratch).Keys
    ensures disk.failed >= old(disk.failed)
    ensures disk.failed == old(disk.failed) ==> forall i | 0 <= i < |staged| :: Gone(staged[i], disk.scratch)
    ensures !old(disk.alive) ==> !disk.alive
    ensures old(disk.Calm()) ==> disk.Calm() && disk.failed == old(disk.failed)
  {
    for k := 0 to |staged|
      invariant OthersKept(old(disk.scratch), disk.scratch, token)
      invariant disk.scratch.Keys <= old(disk.scratch).Keys
      invariant disk.failed >= old(disk.failed)
      invariant disk.failed == old(disk.failed) ==> forall i | 0 <= i < k :: Gone(staged[i], disk.scratch)
      invariant !old(disk.alive) ==> !disk.alive
      invariant old(disk.Calm()) ==> disk.Calm() && disk.failed == old(disk.failed)
    {
      var item := staged[k];
      assert Owned(item, token);
      var ok := true;
      if item.bak.Some? && item.bak.value in disk.scratch {
        ok := disk.UnlinkScratch(item.bak.value);
      }
      if ok && item.ownsTmp && item.tmp in disk.scratch {
        ok := disk.UnlinkScratch(item.tmp);
      }
    }
  }

  ghost predicate Gone<T, B>(item: Staged<T>, scratch: map<Scratch<T>, Cell<B>>) {
    && (item.ownsTmp ==> item.tmp !in scratch)
    && (item.bak.Some? ==> item.bak.value !in scratch)
  }

  /** After a rollback: drop the temporary files, and the backups only when nothing needs them any more. */
  method CleanUpFailed<T(==,!new), B(==)>(disk: Disk<T, B>, staged: seq<Staged<T>>, rollbackComplete: bool, ghost token: nat)
    requires forall i | 0 <= i < |staged| :: Owned(staged[i], token)
    modifies disk`scratch, disk`schedule, disk`alive, disk`failed
    ensures OthersKept(old(disk.scratch), disk.scratch, token)
    ensures disk.scratch.Keys <= old(disk.scratch).Keys
    ensures !rollbackComplete ==> forall s | s in old(disk.scratch) && s.Bak? :: s in disk.scratch && disk.scratch[s] == old(disk.scratch)[s]
    ensures disk.failed >= old(disk.failed)
    ensures disk.failed == old(disk.failed) ==>
              forall i | 0 <= i < |staged| :: if rollbackComplete then Gone(staged[i], disk.scratch) else staged[i].ownsTmp ==> staged[i].tmp !in disk.scratch
    ensures !old(disk.alive) ==> !disk.alive
  {
    for k := 0 to |staged|
      invariant OthersKept(old(disk.scratch), disk.scratch, token)
      invariant disk.scratch.Keys <= old(disk.scratch).Keys
      invariant !rollbackComplete ==> forall s | s in old(disk.scratch) && s.Bak? :: s in disk.scratch && disk.scratch[s] == old(disk.scratch)[s]
      invariant disk.failed >= old(disk.failed)
      invariant disk.failed == old(disk.failed) ==>
                  forall i | 0 <= i < k :: if rollbackComplete then Gone(staged[i], disk.scratch) else staged[i].ownsTmp ==> staged[i].tmp !in disk.scratch
      invariant !old(disk.alive) ==> !disk.alive
    {
      var item := staged[k];
      assert Owned(item, token);
      var ok := true;
      if item.ownsTmp && item.tmp in disk.scratch {
        ok := disk.UnlinkScratch(item.tmp);
      }
      if ok && rollbackComplete && item.bak.Some? && item.bak.value in disk.scratch {
        ok := disk.UnlinkScratch(item.bak.value);
      }
    }
  }

  // ---- rolling back ------------------------------------------------------------------------

  /** The plans before `k` are still in place with their backups; `complete` says all later ones are undone. */
  ghost predicate RolledBackTo<T(!new), B>(staged: seq<Staged<T>>, plans: seq<Plan<T, B>>, k: nat, complete: bool,
                                           before: map<T, Cell<B>>, files: map<T, Cell<B>>, scratch: map<Scratch<T>, Cell<B>>)
    requires k <= |plans| == |staged|
  {
    && (forall i | 0 <= i < k :: BackedUp(staged[i], plans[i], before, scratch))
    && (forall i | 0 <= i < k :: plans[i].path in files && files[plans[i].path] == Whole(plans[i].contents))
    && Between(before, plans, files)
    && (complete ==> files == Overlay(before, plans[..k]))
  }

  /** What one rollback step may leave: the target restored, or everything as it was and the rollback incomplete. */
  ghost predicate Restored<T, B>(item: Staged<T>, was: map<T, Cell<B>>, now: map<T, Cell<B>>, scratch: map<Scratch<T>, Cell<B>>,
                                 nowScratch: map<Scratch<T>, Cell<B>>)
  {
    || (item.bak.Some? && item.bak.value in scratch && now == was[item.path := scratch[item.bak.value]] && nowScratch == scratch - {item.bak.value})
    || (item.bak.None? && !item.hadOriginal && now == was - {item.path} && nowScratch == scratch)
  }

  lemma RollBackStep<T(!new), B>(staged: seq<Staged<T>>, plans: seq<Plan<T, B>>, k: nat, complete: bool, token: nat,
                                 before: map<T, Cell<B>>, files: map<T, Cell<B>>, scratch: map<Scratch<T>, Cell<B>>,
                                 now: map<T, Cell<B>>, nowScratch: map<Scratch<T>, Cell<B>>)
    requires k < |plans| == |staged| && Distinct(plans)
    requires forall i | 0 <= i < |plans| :: Owned(staged[i], token)
    requires RolledBackTo(staged, plans, k + 1, complete, before, files, scratch)
    requires Restored(staged[k], files, now, scratch, nowScratch)
    ensures RolledBackTo(staged, plans, k, complete, before, now, nowScratch)
  {
    var path := plans[k].path;
    assert BackedUp(staged[k], plans[k], before, scratch);
    assert SameAt(before, now, path);
    forall i | 0 <= i < k
      ensures BackedUp(staged[i], plans[i], before, nowScratch)
      ensures plans[i].path in now && now[plans[i].path] == Whole(plans[i].contents)
    {
      assert BackedUp(staged[i], plans[i], before, scratch);
      assert Owned(staged[i], token) && Owned(staged[k], token);
      assert plans[i].path != path;
    }
    forall t ensures SameAt(before, now, t) || HoldsPlan(plans, now, t) {
      if t != path && !SameAt(before, files, t) {
        assert HoldsPlan(plans, files, t);
        var i :| 0 <= i < |plans| && plans[i].path == t && t in files && files[t] == Whole(plans[i].contents);
        assert plans[i].path == t && t in now && now[t] == Whole(plans[i].contents);
      }
    }
    if complete {
      assert plans[..k + 1][..k] == plans[..k];
      OverlayAt(before, plans[..k], path);
      assert now == Overlay(before, plans[..k]);
    }
  }

  method RollBack<T(==,!new), B(==)>(disk: Disk<T, B>, staged: seq<Staged<T>>, plans: seq<Plan<T, B>>, committed: nat,
                                     ghost token: nat, ghost before: map<T, Cell<B>>, ghost settled: set<T>)
    returns (complete: bool)
    requires committed <= |plans| == |staged| && Distinct(plans)
    requires forall i | 0 <= i < |plans| :: Owned(staged[i], token)
    requires RolledBackTo(staged, plans, committed, true, before, disk.files, disk.scratch)
    requires LocksOf(plans) <= disk.held && disk.moved <= settled + Targets(plans[..committed])
    modifies disk`files, disk`scratch, disk`made, disk`moved, disk`schedule, disk`alive, disk`failed
    ensures Between(before, plans, disk.files)
    ensures complete ==> disk.files == before
    ensures disk.failed >= old(disk.failed) && (disk.failed == old(disk.failed) ==> complete)
    ensures disk.made <= old(disk.made)
    ensures disk.moved <= settled + if complete then {} else Targets(plans)
    ensures OthersKept(old(disk.scratch), disk.scratch, token)
    ensures disk.scratch.Keys <= old(disk.scratch).Keys
    ensures !old(disk.alive) ==> !disk.alive && disk.files == old(disk.files)
  {
    hide Between, Overlay, Distinct, Targets, LocksOf;
    complete := true;
    var index := committed;
    TargetsWithin(plans, committed);
    while index > 0
      invariant 0 <= index <= committed
      invariant RolledBackTo(staged, plans, index, complete, before, disk.files, disk.scratch)
      invariant disk.failed >= old(disk.failed) && (disk.failed == old(disk.failed) ==> complete)
      invariant disk.made <= old(disk.made)
      invariant disk.moved <= settled + if complete then Targets(plans[..index]) else Targets(plans)
      invariant OthersKept(old(disk.scratch), disk.scratch, token)
      invariant disk.scratch.Keys <= old(disk.scratch).Keys
      invariant !old(disk.alive) ==> !disk.alive && disk.files == old(disk.files)
    {
      index := index - 1;
      MoreTargets(plans, index);
      var item := staged[index];
      assert Owned(item, token);
      ghost var was, wasScratch := disk.files, disk.scratch;
      assert BackedUp(staged[index], plans[index], before, wasScratch);
      var ok := true;
      if item.bak.Some? && item.bak.value in disk.scratch {
        ok := disk.Rename(item.bak.value, item.path);
      } else if !item.hadOriginal && item.path in disk.files {
        ok := disk.Unlink(item.path);
      } else {
        complete := false;
      }
      if ok {
        RollBackStep(staged, plans, index, complete, token, before, was, wasScratch, disk.files, disk.scratch);
        ok := disk.SyncDirectories({item.path});
      }
      if !ok {
        complete := false;
      }
    }
    NoTargets(plans);
    NothingLeftToRollBack(staged, plans, complete, before, disk.files, disk.scratch);
  }

  lemma NothingLeftToRollBack<T(!new), B>(staged: seq<Staged<T>>, plans: seq<Plan<T, B>>, complete: bool,
                                          before: map<T, Cell<B>>, files: map<T, Cell<B>>, scratch: map<Scratch<T>, Cell<B>>)
    requires |plans| == |staged| && RolledBackTo(staged, plans, 0, complete, before, files, scratch)
    ensures Between(before, plans, files) && (complete ==> files == before)
  {
    assert plans[..0] == [];
  }

  // ---- the whole write ---------------------------------------------------------------------

  /** Re-check lock ownership, then every precondition, in plan order. */
  method VerifyPreconditions<T(==,!new), B(==)>(disk: Disk<T, B>, plans: seq<Plan<T, B>>) returns (r: WriteResult<T>)
    requires LocksOf(plans) <= disk.held
    modifies disk`schedule, disk`alive, disk`failed
    ensures r.Written? || r.Busy? || r.Conflict?
    ensures r.Written? ==> AllSatisfied(plans, disk.files)
    ensures r.Conflict? ==> FirstConflict(plans, disk.files, r.path) && !AllSatisfied(plans, disk.files)
    ensures !old(disk.alive) ==> !disk.alive
    ensures disk.failed == old(disk.failed) + if r.Busy? then 1 else 0
    ensures old(disk.Calm()) ==> disk.Calm() && !r.Busy?
  {
    var owned := disk.Step();
    if !owned {
      return Busy;
    }
    for i := 0 to |plans|
      invariant AllSatisfied(plans[..i], disk.files)
    {
      var plan := plans[i];
      var actual := if plan.path in disk.files then Some(ContentHash(disk.files[plan.path])) else None;
      if plan.mustBeAbsent && actual.Some? {
        return Conflict(plan.path);
      }
      if plan.expected.Some? && actual != plan.expected {
        return Conflict(plan.path);
      }
    }
    assert plans[..|plans|] == plans;
    return Written;
  }

  /** `path` is the target of the first plan whose precondition does not hold. */
  predicate FirstConflict<T(==), B(==)>(plans: seq<Plan<T, B>>, files: map<T, Cell<B>>, path: T) {
    exists i :: 0 <= i < |plans| && path == plans[i].path && !Satisfied(plans[i], files) && AllSatisfied(plans[..i], files)
  }

  /** No canonical path is left waiting for a sync, unless a rollback was incomplete; written targets are synced in any case. */
  ghost predicate Lasting<T(!new), B>(r: WriteResult<T>, plans: seq<Plan<T, B>>, before: set<T>, now: set<T>) {
    && now <= before + Targets(plans)
    && (r != Failed(false) ==> now <= before)
    && (r.Written? ==> now <= before - Targets(plans))
  }

  /** How many steps must not have happened for `AtomicWriteAll` to give this answer. */
  function Failures<T>(r: WriteResult<T>): nat {
    match r
    case Written => 0
    case Conflict(_) => 0
    case Busy => 1
    case Failed(rollbackComplete) => if rollbackComplete then 1 else 2
  }

  /** When every item's scratch files are gone, only those of other calls are left. */
  lemma NothingLeft<T(!new), B>(staged: seq<Staged<T>>, token: nat, before: map<Scratch<T>, Cell<B>>, staging: map<Scratch<T>, Cell<B>>,
                                now: map<Scratch<T>, Cell<B>>)
    requires Accounted(staged, token, staging) && now.Keys <= staging.Keys && OthersKept(before, now, token)
    requires forall i | 0 <= i < |staged| :: Gone(staged[i], now)
    requires forall s :: s in before ==> s.token != token
    ensures now == before
  {
    forall s | s in now ensures s.token != token {
    }
  }

  lemma BetweenItself<T(!new), B>(files: map<T, Cell<B>>, plans: seq<Plan<T, B>>)
    ensures Between(files, plans, files)
  {
  }

  lemma StagedOwns<T, B>(staged: seq<Staged<T>>, plans: seq<Plan<T, B>>, token: nat,
                         before: map<T, Cell<B>>, scratch: map<Scratch<T>, Cell<B>>, ok: bool)
    requires ok ==> |staged| == |plans| && StagedTo(staged, plans, |plans|, token, before, scratch)
    ensures ok ==> forall i | 0 <= i < |plans| :: staged[i].ownsTmp
  {
  }

  /** What has been committed so far can be rolled back. */
  lemma CommittedRollsBack<T(!new), B>(staged: seq<Staged<T>>, plans: seq<Plan<T, B>>, k: nat, token: nat,
                                       before: map<T, Cell<B>>, files: map<T, Cell<B>>, scratch: map<Scratch<T>, Cell<B>>)
    requires k <= |plans| == |staged| && Distinct(plans) && CommittedTo(staged, plans, k, token, before, files, scratch)
    ensures RolledBackTo(staged, plans, k, true, before, files, scratch)
    ensures Between(before, plans, files) && (k == 0 ==> files == before)
    ensures k == |plans| ==> files == Overlay(before, plans)
    ensures forall i | 0 <= i < |plans| :: Owned(staged[i], token) && staged[i].path == plans[i].path
    ensures forall i | 0 <= i < |plans| :: staged[i].bak.None? ==> Bak(token, staged[i].path) !in scratch
  {
    OverlayBetween(before, plans, k);
    assert k == |plans| ==> plans[..k] == plans;
    assert plans[..0] == [];
    forall i | 0 <= i < k ensures plans[i].path in files && files[plans[i].path] == Whole(plans[i].contents) {
      assert plans[..k][i] == plans[i];
      OverlayAt(before, plans[..k], plans[i].path);
    }
    forall i | 0 <= i < |plans| ensures Owned(staged[i], token) && BackedUp(staged[i], plans[i], before, scratch) {
    }
  }

  /** The staging, commit and rollback of `AtomicWriteAll`, under its locks. */
  method WriteLocked<T(==,!new), B(==)>(disk: Disk<T, B>, plans: seq<Plan<T, B>>, token: nat) returns (r: WriteResult<T>)
    requires Distinct(plans) && plans != []
    requires forall s :: s in disk.scratch ==> s.token != token
    requires LocksOf(plans) <= disk.held
    modifies disk`files, disk`scratch, disk`buffer, disk`made, disk`moved, disk`schedule, disk`alive, disk`failed
    ensures Between(old(disk.files), plans, disk.files)
    ensures OthersKept(old(disk.scratch), disk.scratch, token)
    ensures !old(disk.alive) ==> !disk.alive && disk.files == old(disk.files)
    ensures r.Written? ==> disk.files == Overlay(old(disk.files), plans)
    ensures !r.Written? && r != Failed(false) ==> disk.files == old(disk.files)
    ensures r.Written? || r.Failed? ==> AllSatisfied(plans, old(disk.files))
    ensures r.Conflict? ==> FirstConflict(plans, old(disk.files), r.path) && !AllSatisfied(plans, old(disk.files))
    // what has been synced
    ensures OwnOnly(old(disk.buffer).Keys, disk.buffer.Keys, token) && OwnOnly(old(disk.made), disk.made, token)
    ensures Lasting(r, plans, old(disk.moved), disk.moved)
    // what must have gone wrong
    ensures disk.failed >= old(disk.failed) + Failures(r)
    ensures r.Conflict? || disk.failed == old(disk.failed) || (!r.Written? && disk.failed == old(disk.failed) + 1) ==>
              disk.scratch == old(disk.scratch)
    ensures old(disk.Calm()) ==> disk.Calm() && disk.failed == old(disk.failed)
  {
    hide Overlay, BackedUp, CommittedTo, RolledBackTo, AllSatisfied, Distinct, Between, StagedTo, Accounted, Gone, FirstConflict, Targets, LocksOf, Owned;
    BetweenItself(disk.files, plans);
    r := VerifyPreconditions(disk, plans);
    if !r.Written? {
      return;
    }
    ghost var before := disk.files;
    var staged, ok := StageAll(disk, plans, token);
    ghost var staging := disk.scratch;
    StagedOwns(staged, plans, token, before, disk.scratch, ok);
    var committed: nat := 0;
    if ok {
      committed, ok := CommitAll(disk, staged, plans, token);
      CommittedRollsBack(staged, plans, committed, token, before, disk.files, disk.scratch);
    }
    if ok {
      CleanUp(disk, staged, token);
      if disk.failed == old(disk.failed) {
        NothingLeft(staged, token, old(disk.scratch), staging, disk.scratch);
      }
      return Written;
    }
    var rollbackComplete := true;
    NoTargets(plans);
    if committed > 0 {
      rollbackComplete := RollBack(disk, staged, plans, committed, token, before, old(disk.moved));
    }
    CleanUpFailed(disk, staged, rollbackComplete, token);
    if disk.failed == old(disk.failed) + 1 {
      NothingLeft(staged, token, old(disk.scratch), staging, disk.scratch);
    }
    return Failed(rollbackComplete);
  }

  /**
   Write every plan or none. `lockHeld` says the caller passes a live lock set over the targets;
   otherwise the locks are taken here, which may fail, and are given back at the end.
   */
  method AtomicWriteAll<T(==,!new), B(==)>(disk: Disk<T, B>, plans: seq<Plan<T, B>>, lockHeld: bool) returns (r: WriteResult<T>)
    requires disk.Valid()
    requires if lockHeld then LocksOf(plans) <= disk.held else LocksOf(plans) !! disk.held
    modifies disk
    ensures disk.Valid() && disk.held == old(disk.held) && StillOpen(old(disk.denied), disk.denied)
    // at return, and at whatever point the process died
    ensures Between(old(disk.files), plans, disk.files)
    ensures OthersKept(old(disk.scratch), disk.scratch, old(disk.nextToken))
    ensures !old(disk.alive) ==> !disk.alive && disk.files == old(disk.files)
    // the answer
    ensures r.Written? ==> Distinct(plans) && disk.files == Overlay(old(disk.files), plans)
    ensures !r.Written? && r != Failed(false) ==> disk.files == old(disk.files)
    ensures !Distinct(plans) ==> r == Failed(true) && disk.scratch == old(disk.scratch)
    ensures Distinct(plans) && (r.Written? || r.Failed?) ==> AllSatisfied(plans, old(disk.files))
    ensures r.Conflict? ==> FirstConflict(plans, old(disk.files), r.path) && !AllSatisfied(plans, old(disk.files))
    ensures Lasting(r, plans, old(disk.moved), disk.moved)
    // what must have gone wrong for it, and what is then left behind
    ensures Distinct(plans) ==> disk.failed >= old(disk.failed) + Failures(r)
    ensures disk.failed >= old(disk.failed)
    ensures r.Conflict? || disk.failed == old(disk.failed) || (!r.Written? && disk.failed == old(disk.failed) + 1) ==>
              disk.scratch == old(disk.scratch)
    ensures old(disk.Calm()) ==> disk.Calm() && disk.failed == old(disk.failed)
  {
    if plans == [] {
      return Written;
    }
    var targets := {};
    for i := 0 to |plans|
      invariant targets == Targets(plans[..i]) && Distinct(plans[..i])
    {
      if plans[i].path in targets {
        return Failed(true);
      }
      assert plans[..i + 1] == plans[..i] + [plans[i]];
      targets := targets + {plans[i].path};
    }
    assert plans[..|plans|] == plans;
    var token := disk.FreshToken();
    if !lockHeld {
      var acquired := disk.Acquire(LocksOf(plans));
      if !acquired {
        return Busy;
      }
    }
    r := WriteLocked(disk, plans, token);
    if !lockHeld {
      var released := disk.Release(LocksOf(plans));
    }
  }

  // ---- one file ----------------------------------------------------------------------------

  lemma SinglePlan<T(!new), B>(before: map<T, Cell<B>>, plan: Plan<T, B>, now: map<T, Cell<B>>)
    requires Between(before, [plan], now)
    ensures now == before || now == before[plan.path := Whole(plan.contents)]
    ensures Overlay(before, [plan]) == before[plan.path := Whole(plan.contents)]
  {
    assert [plan][..0] == [];
    var written := before[plan.path := Whole(plan.contents)];
    assert SameAt(before, now, plan.path) || HoldsPlan([plan], now, plan.path);
    var same := if SameAt(before, now, plan.path) then before else written;
    forall t ensures SameAt(same, now, t) {
      assert SameAt(before, now, t) || HoldsPlan([plan], now, t);
    }
    SameEverywhere(same, now);
  }

  lemma OnePlan<T(!new), B>(plan: Plan<T, B>, files: map<T, Cell<B>>)
    ensures LocksOf([plan]) == {Of(plan.path)} && Targets([plan]) == {plan.path} && Distinct([plan])
    ensures AllSatisfied([plan], files) <==> Satisfied(plan, files)
    ensures forall t :: FirstConflict([plan], files, t) ==> t == plan.path && !Satisfied(plan, files)
  {
    assert [plan][0] == plan;
  }

  /** A write of one file: it is as it was or holds the new bytes, which is known unless two steps failed. */
  method AtomicWriteFile<T(==,!new), B(==)>(disk: Disk<T, B>, plan: Plan<T, B>, lockHeld: bool) returns (r: WriteResult<T>)
    requires disk.Valid() && (lockHeld <==> Of(plan.path) in disk.held)
    modifies disk
    ensures disk.Valid() && disk.held == old(disk.held) && StillOpen(old(disk.denied), disk.denied)
    ensures disk.files == old(disk.files) || disk.files == old(disk.files)[plan.path := Whole(plan.contents)]
    ensures r.Written? ==> disk.files == old(disk.files)[plan.path := Whole(plan.contents)] && disk.moved <= old(disk.moved) - {plan.path}
    ensures r.Written? || r.Failed? ==> Satisfied(plan, old(disk.files))
    ensures r.Conflict? ==> r.path == plan.path && !Satisfied(plan, old(disk.files))
    ensures !old(disk.alive) ==> !disk.alive && disk.files == old(disk.files)
    ensures r.Conflict? || r.Busy? ==> disk.files == old(disk.files)
    ensures disk.failed >= old(disk.failed) + if r.Written? || r.Conflict? then 0 else if disk.files == old(disk.files) then 1 else 2
    ensures disk.failed == old(disk.failed) ==> disk.scratch == old(disk.scratch)
    ensures old(disk.Calm()) ==> disk.Calm() && disk.failed == old(disk.failed)
  {
    OnePlan(plan, disk.files);
    hide Between, Overlay, AllSatisfied, Satisfied, FirstConflict, Distinct, LocksOf, Targets, OthersKept;
    r := AtomicWriteAll(disk, [plan], lockHeld);
    SinglePlan(old(disk.files), plan, disk.files);
  }
}
