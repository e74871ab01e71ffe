/** Concrete runs of the lock protocol after which two live lock sets share a target. */
module LockExamples {
  import opened Common
  import opened Locks

  const T := "scene.json"

  // ---- a set kept active by a failed checked release ---------------------------------------

  const TWO := Fresh({1, 2})
  const LOCK := File(1, 0, T)

  /** Process 1 holds the target. */
  const HOLDING := TWO.(lock := map[T := LOCK], sets := map[0 := LockSet(1, [T])], held := {LOCK}, drawn := map[0 := 1], nextToken := 1)

  /** It has unlinked the lock, the directory sync has failed, and its set stays active. */
  const KEPT := HOLDING.(lock := map[], held := {}, attempted := {0})

  lemma ReachesHolding()
    ensures Reaches(TWO, HOLDING)
  {
    ReachesItself(TWO);
    ReachesLinking(TWO, TWO, 1, [T]);
    var s := Started(TWO, 1, [T]);
    ReachesLinked(TWO, s, 1);
    var v := Linked(s, 1, s.acquiring[1], true);
    assert v.acquiring == map[] && v.lock == HOLDING.lock && v.held == HOLDING.held && v.sets == HOLDING.sets && v.drawn == HOLDING.drawn;
    assert v == HOLDING;
  }

  const UNLINKING := HOLDING.(attempted := {0}, checking := map[1 := Check(0, {T}, false, false)])
  const SYNCING := KEPT.(checking := map[1 := Check(0, {}, false, false)])
  const LOOKING := KEPT.(checking := map[1 := Check(0, {T}, true, true)])
  const ENDING := KEPT.(checking := map[1 := Check(0, {}, true, true)])

  lemma ReachesUnlinking()
    ensures Reaches(TWO, UNLINKING)
  {
    ReachesHolding();
    hide Reaches;
    assert (set t | t in HOLDING.sets[0].targets) == {T} && HOLDING.attempted + {0} == {0};
    assert HOLDING.checking[1 := Check(0, {T}, false, false)] == UNLINKING.checking;
    ReachesNext(TWO, HOLDING, 1, CheckedBegin(0), UNLINKING);
  }

  lemma ReachesSyncing()
    ensures Reaches(TWO, SYNCING)
  {
    ReachesUnlinking();
    hide Reaches;
    var none := {T} - {T};
    assert none == {} && UNLINKING.lock - {T} == map[] && UNLINKING.held - {LOCK} == {};
    assert UNLINKING.checking[1 := Check(0, none, false, false)] == SYNCING.checking;
    ReachesNext(TWO, UNLINKING, 1, CheckedUnlink(T, true, true), SYNCING);
  }

  lemma ReachesLooking()
    ensures Reaches(TWO, LOOKING)
  {
    ReachesSyncing();
    hide Reaches;
    assert (set t | t in SYNCING.sets[0].targets) == {T};
    assert SYNCING.checking[1 := Check(0, {T}, true, true)] == LOOKING.checking;
    ReachesNext(TWO, SYNCING, 1, CheckedSync(false), LOOKING);
  }

  lemma ReachesKept()
    ensures Reaches(TWO, KEPT)
  {
    ReachesLooking();
    hide Reaches;
    var none := {T} - {T};
    assert none == {} && LOOKING.checking[1 := Check(0, none, true, true)] == ENDING.checking;
    ReachesNext(TWO, LOOKING, 1, CheckedLook(T), ENDING);
    assert ENDING.checking - {1} == map[];
    ReachesNext(TWO, ENDING, 1, CheckedEnd, KEPT);
  }

  /** A checked release whose directory sync fails keeps its set active with the lock gone; another process then takes the target. */
  lemma CheckedReleaseBreaksExclusion()
    ensures exists u :: Reaches(TWO, u) && Shared(u, 0, 1, T) && u.attempted == {0}
  {
    hide Do, Reaches;
    ReachesKept();
    ReachesLinking(TWO, KEPT, 2, [T]);
    var s := Started(KEPT, 2, [T]);
    ReachesLinked(TWO, s, 2);
    var u := Linked(s, 2, s.acquiring[2], true);
    assert u.sets == KEPT.sets[1 := LockSet(2, [T])];
    assert Shared(u, 0, 1, T);
  }

  // ---- a reclaim taken apart ---------------------------------------------------------------

  const FOUR := Fresh({0, 1, 2, 3})
  const DEAD_LOCK := File(0, 0, T)
  const NEW_LOCK := File(3, 1, T)
  const W1 := Work(T, 1, 0)
  const W2 := Work(T, 2, 0)

  /** Process 0 took the lock and died. */
  const ABANDONED := Fresh({1, 2, 3}).(lock := map[T := DEAD_LOCK], sets := map[0 := LockSet(0, [T])], held := {DEAD_LOCK},
                                       drawn := map[0 := 0], nextToken := 1)

  const LINKING3 := Acquisition(1, [T], 0, 0, Linking)

  /** All four tokens drawn, nothing released and no claim standing. */
  function Scene(lock: map<Target, File>, works: map<Work, File>, acquiring: map<Pid, Acquisition>, sets: map<nat, LockSet>, held: set<File>): State {
    State({1, 2, 3}, lock, map[], works, acquiring, map[], sets, held, {}, {}, {}, map[0 := 0, 1 := 3, 2 := 1, 3 := 2], 4)
  }

  const DEAD_SET := map[0 := LockSet(0, [T])]
  const BOTH_WORKS := map[W1 := DEAD_LOCK, W2 := DEAD_LOCK]

  /** Processes 1 and 2 on their way to the claim, process 3 about to link. */
  const CLAIMING := Scene(map[T := DEAD_LOCK], map[],
                          map[3 := LINKING3,
                              1 := Acquisition(2, [T], 0, 0, ReclaimClaiming(ThenRetry)),
                              2 := Acquisition(3, [T], 0, 0, ReclaimClaiming(ThenRetry))], DEAD_SET, {DEAD_LOCK})

  /** Both have claimed the dead lock and are about to judge it. */
  const JUDGING := Scene(map[T := DEAD_LOCK], BOTH_WORKS,
                         map[3 := LINKING3,
                             1 := Acquisition(2, [T], 0, 0, ReclaimJudging(ThenRetry, W1)),
                             2 := Acquisition(3, [T], 0, 0, ReclaimJudging(ThenRetry, W2))], DEAD_SET, {DEAD_LOCK})

  /** Both have judged the lock. */
  const JUDGED := Scene(map[T := DEAD_LOCK], BOTH_WORKS,
                        map[3 := LINKING3,
                            1 := Acquisition(2, [T], 0, 0, ReclaimUnlinking(ThenRetry, W1)),
                            2 := Acquisition(3, [T], 0, 0, ReclaimUnlinking(ThenRetry, W2))], DEAD_SET, {DEAD_LOCK})

  /** Process 2 has unlinked it. */
  const CLEARED := Scene(map[], BOTH_WORKS,
                         map[3 := LINKING3,
                             1 := Acquisition(2, [T], 0, 0, ReclaimUnlinking(ThenRetry, W1)),
                             2 := Acquisition(3, [T], 0, 0, ReclaimDropping(ThenRetry, W2, true))], DEAD_SET, {DEAD_LOCK})

  const TWO_SETS := map[0 := LockSet(0, [T]), 1 := LockSet(3, [T])]

  /** Process 3 has linked its own lock, while 1 is still about to unlink what it judged. */
  const OVERTAKEN := Scene(map[T := NEW_LOCK], BOTH_WORKS,
                           map[1 := Acquisition(2, [T], 0, 0, ReclaimUnlinking(ThenRetry, W1)),
                               2 := Acquisition(3, [T], 0, 0, ReclaimDropping(ThenRetry, W2, true))], TWO_SETS, {DEAD_LOCK, NEW_LOCK})

  /** Process 1 has unlinked the new lock. */
  const LOST := Scene(map[], BOTH_WORKS,
                      map[1 := Acquisition(2, [T], 0, 0, ReclaimDropping(ThenRetry, W1, true)),
                          2 := Acquisition(3, [T], 0, 0, ReclaimDropping(ThenRetry, W2, true))], TWO_SETS, {DEAD_LOCK, NEW_LOCK})

  /** Process 2 has dropped its work name. */
  const FREED := Scene(map[], map[W1 := DEAD_LOCK],
                       map[1 := Acquisition(2, [T], 0, 0, ReclaimDropping(ThenRetry, W1, true)),
                           2 := Acquisition(3, [T], 0, 1, Clearing)], TWO_SETS, {DEAD_LOCK, NEW_LOCK})

  /** From a failed link to the point where the claim is made. */
  lemma ReachesClaiming(s: State, u: State, p: Pid)
    requires Reaches(s, u) && p in u.live && p in u.acquiring && u.acquiring[p].phase == Linking
    requires var a := u.acquiring[p]; a.done < |a.targets| && a.targets[a.done] in u.lock && WorksOn(u, a.targets[a.done]) == {}
    ensures Reaches(s, At(u, p, ReclaimClaiming(ThenRetry)))
  {
    var t := u.acquiring[p].targets[u.acquiring[p].done];
    var s1 := At(u, p, ReclaimClearing(ThenRetry));
    ReachesNext(s, u, p, LinkCandidate(true), s1);
    var s2 := At(u, p, ReclaimClaiming(ThenRetry));
    assert WorksOn(s1, t) == {};
    assert s1.works - {} == s1.works;
    assert s2 == At(s1, p, ReclaimClaiming(ThenRetry));
    ReachesNext(s, s1, p, ClearWork, s2);
  }

  lemma ClaimStep(u: State, p: Pid, t: Target)
    requires p in u.live && p in u.acquiring && u.acquiring[p].phase == ReclaimClaiming(ThenRetry)
    requires var a := u.acquiring[p]; a.done < |a.targets| && a.targets[a.done] == t && t in u.lock && t !in u.claim
    ensures Do(u, p, LinkClaim) == Some(At(u.(claim := u.claim[t := u.lock[t]]), p, ReclaimTaking(ThenRetry)))
  {
  }

  lemma TakeStep(u: State, p: Pid, t: Target)
    requires p in u.live && p in u.acquiring && u.acquiring[p].phase == ReclaimTaking(ThenRetry)
    requires var a := u.acquiring[p]; a.done < |a.targets| && a.targets[a.done] == t && t in u.claim && Work(t, p, 0) !in u.works
    ensures Do(u, p, TakeClaim(0)) ==
            Some(At(u.(claim := u.claim - {t}, works := u.works[Work(t, p, 0) := u.claim[t]]), p, ReclaimJudging(ThenRetry, Work(t, p, 0))))
  {
  }

  /** Claim the lock and move the claim to a private name. */
  lemma ReachesJudging(s: State, u: State, p: Pid)
    requires Reaches(s, u) && p in u.live && p in u.acquiring && u.acquiring[p].phase == ReclaimClaiming(ThenRetry)
    requires var a := u.acquiring[p]; a.done < |a.targets| && a.targets[a.done] in u.lock && a.targets[a.done] !in u.claim
                                      && Work(a.targets[a.done], p, 0) !in u.works
    ensures var t := u.acquiring[p].targets[u.acquiring[p].done];
            Reaches(s, At(u.(works := u.works[Work(t, p, 0) := u.lock[t]]), p, ReclaimJudging(ThenRetry, Work(t, p, 0))))
  {
    hide Do, Reaches;
    var t := u.acquiring[p].targets[u.acquiring[p].done];
    var s1 := At(u.(claim := u.claim[t := u.lock[t]]), p, ReclaimTaking(ThenRetry));
    ClaimStep(u, p, t);
    ReachesNext(s, u, p, LinkClaim, s1);
    TakeStep(s1, p, t);
    assert s1.claim - {t} == u.claim;
    var judging := u.acquiring[p].(phase := ReclaimJudging(ThenRetry, Work(t, p, 0)));
    assert s1.acquiring[p := judging] == u.acquiring[p := judging];
    ReachesNext(s, s1, p, TakeClaim(0), At(u.(works := u.works[Work(t, p, 0) := u.lock[t]]), p, ReclaimJudging(ThenRetry, Work(t, p, 0))));
  }

  lemma ReachesAbandoned()
    ensures Reaches(FOUR, ABANDONED)
  {
    ReachesItself(FOUR);
    ReachesLinking(FOUR, FOUR, 0, [T]);
    var s := Started(FOUR, 0, [T]);
    ReachesLinked(FOUR, s, 0);
    var v := Linked(s, 0, s.acquiring[0], true);
    assert v.lock == ABANDONED.lock && v.held == ABANDONED.held && v.sets == ABANDONED.sets && v.drawn == ABANDONED.drawn;
    assert v.acquiring == map[] && v.live - {0} == {1, 2, 3};
    ReachesNext(FOUR, v, 0, Crash, ABANDONED);
  }

  /** Process 1 on its way to the claim. */
  const CLAIMING1 := ABANDONED.(acquiring := map[3 := LINKING3, 1 := Acquisition(2, [T], 0, 0, ReclaimClaiming(ThenRetry))],
                                drawn := map[0 := 0, 1 := 3, 2 := 1], nextToken := 3)

  lemma ReachesClaimingOne()
    ensures Reaches(FOUR, CLAIMING1)
  {
    hide Reaches, Do;
    ReachesAbandoned();
    ReachesLinking(FOUR, ABANDONED, 3, [T]);
    var s1 := Started(ABANDONED, 3, [T]);
    ReachesLinking(FOUR, s1, 1, [T]);
    var s2 := Started(s1, 1, [T]);
    ReachesClaiming(FOUR, s2, 1);
    var s3 := At(s2, 1, ReclaimClaiming(ThenRetry));
    assert s3.acquiring == CLAIMING1.acquiring && s3.drawn == CLAIMING1.drawn;
  }

  lemma ReachesClaimingBoth()
    ensures Reaches(FOUR, CLAIMING)
  {
    hide Reaches, Do;
    ReachesClaimingOne();
    ReachesLinking(FOUR, CLAIMING1, 2, [T]);
    var s4 := Started(CLAIMING1, 2, [T]);
    ReachesClaiming(FOUR, s4, 2);
    var s5 := At(s4, 2, ReclaimClaiming(ThenRetry));
    assert s5.acquiring == CLAIMING.acquiring && s5.drawn == CLAIMING.drawn;
  }

  lemma ReachesJudgingBoth()
    ensures Reaches(FOUR, JUDGING)
  {
    hide Reaches, Do;
    ReachesClaimingBoth();
    ReachesJudging(FOUR, CLAIMING, 1);
    var s1 := At(CLAIMING.(works := map[W1 := DEAD_LOCK]), 1, ReclaimJudging(ThenRetry, W1));
    assert CLAIMING.works[W1 := DEAD_LOCK] == map[W1 := DEAD_LOCK];
    ReachesJudging(FOUR, s1, 2);
    var s2 := At(s1.(works := s1.works[W2 := DEAD_LOCK]), 2, ReclaimJudging(ThenRetry, W2));
    assert s2.acquiring == JUDGING.acquiring && s2.works == JUDGING.works;
  }

  /** Compared and judged stale. */
  lemma ReachesJudged(s: State, u: State, p: Pid, w: Work)
    requires Reaches(s, u) && p in u.live && p in u.acquiring && u.acquiring[p].phase == ReclaimJudging(ThenRetry, w)
    requires var a := u.acquiring[p]; a.done < |a.targets| && a.targets[a.done] in u.lock && w in u.works && u.lock[a.targets[a.done]] == u.works[w]
    requires u.works[w].owner !in u.live
    ensures Reaches(s, At(u, p, ReclaimUnlinking(ThenRetry, w)))
  {
    ReachesNext(s, u, p, JudgeOnly(true), At(u, p, ReclaimUnlinking(ThenRetry, w)));
  }

  lemma ReachesUnlinked(s: State, u: State, p: Pid, w: Work)
    requires Reaches(s, u) && p in u.live && p in u.acquiring && u.acquiring[p].phase == ReclaimUnlinking(ThenRetry, w)
    requires u.acquiring[p].done < |u.acquiring[p].targets|
    ensures Reaches(s, At(u.(lock := u.lock - {u.acquiring[p].targets[u.acquiring[p].done]}), p, ReclaimDropping(ThenRetry, w, true)))
  {
    ReachesNext(s, u, p, UnlinkJudged,
                At(u.(lock := u.lock - {u.acquiring[p].targets[u.acquiring[p].done]}), p, ReclaimDropping(ThenRetry, w, true)));
  }

  lemma ReachesJudgedBoth()
    ensures Reaches(FOUR, JUDGED)
  {
    hide Reaches, Do;
    ReachesJudgingBoth();
    ReachesJudged(FOUR, JUDGING, 1, W1);
    var s1 := At(JUDGING, 1, ReclaimUnlinking(ThenRetry, W1));
    ReachesJudged(FOUR, s1, 2, W2);
    assert At(s1, 2, ReclaimUnlinking(ThenRetry, W2)).acquiring == JUDGED.acquiring;
  }

  lemma ReachesCleared()
    ensures Reaches(FOUR, CLEARED)
  {
    hide Reaches, Do;
    ReachesJudgedBoth();
    ReachesUnlinked(FOUR, JUDGED, 2, W2);
    var s := At(JUDGED.(lock := JUDGED.lock - {T}), 2, ReclaimDropping(ThenRetry, W2, true));
    assert s.lock == map[] && s.acquiring == CLEARED.acquiring;
  }

  lemma LinkingOvertakes()
    ensures Linked(CLEARED, 3, CLEARED.acquiring[3], true) == OVERTAKEN
  {
    assert CLEARED.acquiring[3] == LINKING3 && Candidate(3, LINKING3) == NEW_LOCK;
    assert CLEARED.acquiring - {3} == OVERTAKEN.acquiring;
    assert CLEARED.lock[T := NEW_LOCK] == OVERTAKEN.lock && CLEARED.held + {NEW_LOCK} == OVERTAKEN.held;
    assert CLEARED.sets[1 := LockSet(3, [T])] == OVERTAKEN.sets;
  }

  lemma ReachesOvertaken()
    ensures Reaches(FOUR, OVERTAKEN)
  {
    hide Reaches, Do, Linked;
    ReachesCleared();
    LinkingOvertakes();
    ReachesLinked(FOUR, CLEARED, 3);
  }

  lemma DropStep(u: State, p: Pid, next: Then, w: Work, ok: bool)
    requires p in u.live && p in u.acquiring && u.acquiring[p].phase == ReclaimDropping(next, w, ok)
    requires u.acquiring[p].done < |u.acquiring[p].targets|
    ensures Do(u, p, DropWork(true)) == Some(Reclaimed(u.(works := u.works - {w}), p, next, ok))
  {
  }

  /** A second attempt, with no work name left in the way. */
  lemma ReachesSecondLink(s: State, u: State, p: Pid, w: Work)
    requires Reaches(s, u) && p in u.live && p in u.acquiring && u.acquiring[p].phase == ReclaimDropping(ThenRetry, w, true)
    requires var a := u.acquiring[p]; a.done + 1 == |a.targets| && a.attempt == 0 && a.targets[a.done] !in u.claim && a.targets[a.done] !in u.lock
                                      && WorksOn(u, a.targets[a.done]) <= {w}
    ensures var a := u.acquiring[p];
            exists v :: Reaches(s, v) && v.sets == u.sets[a.token := LockSet(p, a.targets)] && v.live == u.live && v.attempted == u.attempted
  {
    hide Do, Reaches, Acquire, Linked, Reclaimed;
    var a := u.acquiring[p];
    var t := a.targets[a.done];
    var v := u.(works := u.works - {w}, acquiring := u.acquiring[p := a.(attempt := 1, phase := Linking)]);
    SecondAttempt(u, p, w);
    DropStep(u, p, ThenRetry, w, true);
    ReachesNext(s, u, p, DropWork(true), At(v, p, Clearing));
    assert WorksOn(v, t) <= WorksOn(u, t) - {w};
    ClearSteps(v, p, t);
    ReachesNext(s, At(v, p, Clearing), p, ClearWork, At(v, p, Claiming));
    ReachesNext(s, At(v, p, Claiming), p, LookForClaim, At(v, p, Linking));
    assert At(v, p, Linking) == v;
    ReachesLinked(s, v, p);
    LastLinked(v, p);
  }

  lemma SecondAttempt(u: State, p: Pid, w: Work)
    requires p in u.acquiring && u.acquiring[p].attempt == 0
    ensures var a := u.acquiring[p];
            var v := u.(works := u.works - {w}, acquiring := u.acquiring[p := a.(attempt := 1, phase := Linking)]);
            Reclaimed(u.(works := u.works - {w}), p, ThenRetry, true) == At(v, p, Clearing)
  {
    var a := u.acquiring[p];
    assert u.acquiring[p := a.(attempt := 1, phase := Linking)][p := a.(attempt := 1, phase := Clearing)]
        == u.acquiring[p := a.(attempt := 1, phase := Clearing)];
  }

  lemma LastLinked(v: State, p: Pid)
    requires p in v.acquiring && v.acquiring[p].done + 1 == |v.acquiring[p].targets|
    ensures var a := v.acquiring[p]; var r := Linked(v, p, a, true);
            r.sets == v.sets[a.token := LockSet(p, a.targets)] && r.live == v.live && r.attempted == v.attempted
  {
  }

  lemma ReachesLost()
    ensures Reaches(FOUR, LOST)
  {
    hide Reaches, Do, Acquire;
    ReachesOvertaken();
    ReachesUnlinked(FOUR, OVERTAKEN, 1, W1);
    var s := At(OVERTAKEN.(lock := OVERTAKEN.lock - {T}), 1, ReclaimDropping(ThenRetry, W1, true));
    assert s.lock == LOST.lock && s.acquiring == LOST.acquiring;
  }

  lemma ReachesFreed()
    ensures Reaches(FOUR, FREED)
  {
    hide Reaches, Do, Acquire;
    ReachesLost();
    DropStep(LOST, 2, ThenRetry, W2, true);
    assert LOST.works - {W2} == FREED.works && LOST.acquiring[2 := Acquisition(3, [T], 0, 1, Clearing)] == FREED.acquiring;
    ReachesNext(FOUR, LOST, 2, DropWork(true), FREED);
  }

  /** With comparing, judging and unlinking taken apart and no second look, two live lock sets can come to share a target. */
  lemma SplitReclaimBreaksExclusion()
    ensures exists u :: Reaches(FOUR, u) && !Excluded(u)
  {
    hide Reaches;
    ReachesFreed();
    ReachesSecondLink(FOUR, FREED, 1, W1);
    var u :| Reaches(FOUR, u) && u.sets == FREED.sets[2 := LockSet(1, [T])] && u.live == FREED.live && u.attempted == FREED.attempted;
    assert Shared(u, 1, 2, T);
  }
}
