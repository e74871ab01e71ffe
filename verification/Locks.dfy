/**
 The hard-link lock protocol between processes: candidates linked to lock names, stale locks reclaimed
 through a claim link and a private work name, two ways of giving a lock set back, owners that die
 anywhere. One action is one file-system step of one process, so a run is any interleaving.
 */
module Locks {
  import opened Common

  type Pid = nat
  type Target = string

  /** A lock file's inode. Its contents name the process and the acquisition that made it, and never change. */
  datatype File = File(owner: Pid, token: nat, target: Target)

  /** A private name under which one process holds a claimed lock while it judges it. */
  datatype Work = Work(target: Target, pid: Pid, nonce: nat)

  datatype Then = ThenLink | ThenRetry

  datatype Phase =
    | Clearing
    | Claiming
    | Linking
    | ReclaimClearing(next: Then)
    | ReclaimClaiming(next: Then)
    | ReclaimTaking(next: Then)
    | ReclaimJudging(next: Then, work: Work)
    | ReclaimUnlinking(next: Then, work: Work)
    | ReclaimDropping(next: Then, work: Work, ok: bool)

  /** One call in progress: the first `done` targets, in sorted order, are locked. */
  datatype Acquisition = Acquisition(token: nat, targets: seq<Target>, done: nat, attempt: nat, phase: Phase)

  datatype LockSet = LockSet(owner: Pid, targets: seq<Target>)

  /** A checked release in progress: first each lock is unlinked, then, directories synced, each name is looked at. */
  datatype Check = Check(token: nat, left: set<Target>, looking: bool, failed: bool)

  /**
   `lock`, `claim` and `works` are the directory; `sets` the lock sets handed out and still active;
   `held` the files in place for some owner, `due` those a plain release or a failed call has yet to
   look at, `leaked` those it failed to unlink; `attempted` the sets on which a checked release was
   tried; `drawn` who drew each token.
   */
  datatype State = State(
    live: set<Pid>,
    lock: map<Target, File>, claim: map<Target, File>, works: map<Work, File>,
    acquiring: map<Pid, Acquisition>, checking: map<Pid, Check>, sets: map<nat, LockSet>,
    held: set<File>, due: set<File>, leaked: set<File>, attempted: set<nat>,
    drawn: map<nat, Pid>, nextToken: nat)

  datatype Action =
    | Begin(targets: seq<Target>)
    | ClearWork
    | LookForClaim
    | LinkCandidate(synced: bool)
    | LinkClaim
    | TakeClaim(nonce: nat)
    | JudgeAndUnlink(stale: bool)
    | JudgeOnly(stale: bool)
    | UnlinkJudged
    | DropWork(removed: bool)
    | GiveUp
    | Release(token: nat)
    | UnlinkHeld(file: File, readable: bool, ok: bool)
    | CheckedBegin(token: nat)
    | CheckedUnlink(target: Target, readable: bool, ok: bool)
    | CheckedSync(ok: bool)
    | CheckedLook(target: Target)
    | CheckedEnd
    | Crash

  predicate DistinctTargets(targets: seq<Target>) {
    forall i, j | 0 <= i < j < |targets| :: targets[i] != targets[j]
  }

  function WorksOn(s: State, t: Target): set<Work> { set w | w in s.works && w.target == t }

  /** The process is in no call. */
  predicate Idle(s: State, p: Pid) { p !in s.acquiring && p !in s.checking }

  function FilesOf(token: nat, k: LockSet): set<File> { set t | t in k.targets :: File(k.owner, token, t) }

  function At(s: State, p: Pid, phase: Phase): State
    requires p in s.acquiring
  {
    s.(acquiring := s.acquiring[p := s.acquiring[p].(phase := phase)])
  }

  /** A call that fails releases what it had locked. */
  function Stopped(s: State, p: Pid): State
    requires p in s.acquiring
  {
    s.(acquiring := s.acquiring - {p}, due := s.due + set f | f in s.held && f.owner == p && f.token == s.acquiring[p].token)
  }

  /** The file the acquisition would link next. */
  function Candidate(p: Pid, a: Acquisition): File
    requires a.done < |a.targets|
  {
    File(p, a.token, a.targets[a.done])
  }

  function Linked(s: State, p: Pid, a: Acquisition, synced: bool): State
    requires p in s.acquiring && a == s.acquiring[p] && a.done < |a.targets|
  {
    var f := Candidate(p, a);
    var s' := s.(lock := s.lock[f.target := f], held := s.held + {f});
    if !synced then Stopped(s', p)
    else if a.done + 1 == |a.targets| then s'.(acquiring := s.acquiring - {p}, sets := s.sets[a.token := LockSet(p, a.targets)])
    else s'.(acquiring := s.acquiring[p := Acquisition(a.token, a.targets, a.done + 1, 0, Clearing)])
  }

  /** Back from a reclaim: on to the link, to the second attempt, or out. */
  function Reclaimed(s: State, p: Pid, next: Then, ok: bool): State
    requires p in s.acquiring
  {
    var a := s.acquiring[p];
    if !ok then Stopped(s, p)
    else if next == ThenLink then At(s, p, Linking)
    else if a.attempt + 1 < 2 then s.(acquiring := s.acquiring[p := a.(attempt := a.attempt + 1, phase := Clearing)])
    else Stopped(s, p)
  }

  /** A lock may be judged stale only when its owner is dead. */
  predicate MayJudge(s: State, f: File, stale: bool) { stale ==> f.owner !in s.live }

  /** One action of process `p`; none when the process cannot take it. */
  function Do(s: State, p: Pid, action: Action): Option<State> {
    if p !in s.live then None
    else
      match action
      case Crash => Some(s.(live := s.live - {p}, acquiring := s.acquiring - {p}, checking := s.checking - {p}))
      case Begin(targets) =>
        if !Idle(s, p) || targets == [] || !DistinctTargets(targets) then None
        else Some(s.(acquiring := s.acquiring[p := Acquisition(s.nextToken, targets, 0, 0, Clearing)],
                     drawn := s.drawn[s.nextToken := p], nextToken := s.nextToken + 1))
      case Release(token) =>
        if token in s.sets && s.sets[token].owner == p && Idle(s, p)
        then Some(s.(sets := s.sets - {token}, due := s.due + FilesOf(token, s.sets[token]))) else None
      case UnlinkHeld(f, readable, ok) =>
        if f in s.due && f.owner == p && Idle(s, p) then Some(Unlinked(s, f, readable, ok)) else None
      case CheckedBegin(token) =>
        if token in s.sets && s.sets[token].owner == p && Idle(s, p)
        then Some(s.(checking := s.checking[p := Check(token, set t | t in s.sets[token].targets, false, false)],
                     attempted := s.attempted + {token}))
        else None
      case CheckedUnlink(_, _, _) => if p in s.checking then CheckedStep(s, p, s.checking[p], action) else None
      case CheckedSync(_) => if p in s.checking then CheckedStep(s, p, s.checking[p], action) else None
      case CheckedLook(_) => if p in s.checking then CheckedStep(s, p, s.checking[p], action) else None
      case CheckedEnd => if p in s.checking then CheckedStep(s, p, s.checking[p], action) else None
      case _ => if p in s.acquiring then Acquire(s, p, s.acquiring[p], action) else None
  }

  /** The plain release of one lock: by token if it can be read, and blindly if it cannot. */
  function Unlinked(s: State, f: File, readable: bool, ok: bool): State {
    var (due, held) := (s.due - {f}, s.held - {f});
    if f.target !in s.lock || (readable && s.lock[f.target].token != f.token) then s.(due := due, held := held)
    else if !ok then s.(due := due, held := held, leaked := s.leaked + ({f} * s.held))
    else s.(due := due, held := held, lock := s.lock - {f.target})
  }

  /**
   The checked release: only a lock read and found its own is unlinked, while the set stays active; it is
   deactivated at the end, unless a read, an unlink or a sync failed or some name is still there.
   */
  function CheckedStep(s: State, p: Pid, c: Check, action: Action): Option<State>
    requires p in s.checking
  {
    match action
    case CheckedUnlink(t, readable, ok) =>
      if c.looking || t !in c.left then None
      else
        var c' := c.(left := c.left - {t});
        if t !in s.lock then Some(s.(checking := s.checking[p := c']))
        else if !readable || s.lock[t].token != c.token || !ok then Some(s.(checking := s.checking[p := c'.(failed := true)]))
        else Some(s.(lock := s.lock - {t}, held := s.held - {File(p, c.token, t)}, checking := s.checking[p := c']))
    case CheckedSync(ok) =>
      if c.looking || c.left != {} || c.token !in s.sets then None
      else Some(s.(checking := s.checking[p := Check(c.token, set t | t in s.sets[c.token].targets, true, c.failed || !ok)]))
    case CheckedLook(t) =>
      if !c.looking || t !in c.left then None
      else Some(s.(checking := s.checking[p := c.(left := c.left - {t}, failed := c.failed || t in s.lock)]))
    case CheckedEnd =>
      if !c.looking || c.left != {} then None
      else if c.failed then Some(s.(checking := s.checking - {p}))
      else Some(s.(checking := s.checking - {p}, sets := s.sets - {c.token}))
    case _ => None
  }

  /** One step of acquireLocks and of the removeStaleLock it calls. */
  function Acquire(s: State, p: Pid, a: Acquisition, action: Action): Option<State>
    requires p in s.acquiring && a == s.acquiring[p]
  {
    if a.done >= |a.targets| then None
    else
      var t := a.targets[a.done];
      match (action, a.phase)
      case (GiveUp, _) => Some(Stopped(s, p))
      case (ClearWork, Clearing) =>
        if forall w | w in WorksOn(s, t) :: w.pid !in s.live
        then Some(At(s.(works := s.works - WorksOn(s, t)), p, Claiming)) else Some(Stopped(s, p))
      case (ClearWork, ReclaimClearing(next)) =>
        if forall w | w in WorksOn(s, t) :: w.pid !in s.live
        then Some(At(s.(works := s.works - WorksOn(s, t)), p, ReclaimClaiming(next))) else Some(Stopped(s, p))
      case (LookForClaim, Claiming) =>
        Some(At(s, p, if t in s.claim then ReclaimClearing(ThenLink) else Linking))
      case (LinkCandidate(synced), Linking) =>
        if t in s.lock then Some(At(s, p, ReclaimClearing(ThenRetry))) else Some(Linked(s, p, a, synced))
      case (LinkClaim, ReclaimClaiming(next)) =>
        if t in s.claim then Some(At(s, p, ReclaimTaking(next)))
        else if t in s.lock then Some(At(s.(claim := s.claim[t := s.lock[t]]), p, ReclaimTaking(next)))
        else Some(Stopped(s, p))
      case (TakeClaim(nonce), ReclaimTaking(next)) =>
        var w := Work(t, p, nonce);
        if w in s.works then None
        else if t in s.claim then Some(At(s.(claim := s.claim - {t}, works := s.works[w := s.claim[t]]), p, ReclaimJudging(next, w)))
        else Some(Stopped(s, p))
      case (JudgeAndUnlink(stale), ReclaimJudging(next, w)) =>
        if w !in s.works then Some(At(s, p, ReclaimDropping(next, w, false)))
        else if t !in s.lock || s.lock[t] != s.works[w] then Some(At(s, p, ReclaimDropping(next, w, true)))
        else if !MayJudge(s, s.works[w], stale) then None
        else if stale then Some(At(s.(lock := s.lock - {t}), p, ReclaimDropping(next, w, true)))
        else Some(At(s, p, ReclaimDropping(next, w, false)))
      case (JudgeOnly(stale), ReclaimJudging(next, w)) =>
        if w !in s.works then Some(At(s, p, ReclaimDropping(next, w, false)))
        else if t !in s.lock || s.lock[t] != s.works[w] then Some(At(s, p, ReclaimDropping(next, w, true)))
        else if !MayJudge(s, s.works[w], stale) then None
        else Some(At(s, p, if stale then ReclaimUnlinking(next, w) else ReclaimDropping(next, w, false)))
      case (UnlinkJudged, ReclaimUnlinking(next, w)) =>
        Some(At(s.(lock := s.lock - {t}), p, ReclaimDropping(next, w, true)))
      case (DropWork(removed), ReclaimDropping(next, w, ok)) =>
        Some(Reclaimed(if removed then s.(works := s.works - {w}) else s, p, next, ok))
      case _ => None
  }

  // ---- the invariant -----------------------------------------------------------------------

  /** What a live owner holds is in place. */
  predicate Owned(s: State) {
    forall f | f in s.held && f.owner in s.live :: f.target in s.lock && s.lock[f.target] == f
  }

  /** Every lock of a live owner is accounted for. */
  predicate Accounted(s: State) {
    forall t | t in s.lock && s.lock[t].owner in s.live :: s.lock[t].target == t && s.lock[t] in s.held + s.leaked
  }

  predicate Holds(s: State, k: nat, t: Target) { k in s.sets && File(s.sets[k].owner, k, t) in s.held }

  /** A lock set on which no checked release was tried has all its targets. */
  predicate WholeSets(s: State) {
    forall k | k in s.sets && s.sets[k].owner in s.live && k !in s.attempted :: forall t | t in s.sets[k].targets :: Holds(s, k, t)
  }

  predicate CallOf(s: State, p: Pid) {
    p in s.acquiring ==>
      var a := s.acquiring[p];
      && p in s.live && a.done < |a.targets| && DistinctTargets(a.targets) && p !in s.checking
      && a.token !in s.sets && a.token !in s.attempted
      && forall i | 0 <= i < a.done :: File(p, a.token, a.targets[i]) in s.held
  }

  ghost predicate Calls(s: State) { forall p :: CallOf(s, p) }

  predicate DrawnBy(s: State, f: File) { f.token in s.drawn && s.drawn[f.token] == f.owner }

  /** Every token was drawn once, by one process. */
  predicate Tokens(s: State) {
    && (forall k | k in s.drawn :: k < s.nextToken)
    && (forall k | k in s.sets :: k in s.drawn && s.drawn[k] == s.sets[k].owner)
    && (forall k | k in s.attempted :: k in s.drawn)
    && (forall f | f in s.held + s.due + s.leaked :: DrawnBy(s, f))
    && (forall t | t in s.lock :: DrawnBy(s, s.lock[t]))
    && (forall p | p in s.acquiring :: s.acquiring[p].token in s.drawn && s.drawn[s.acquiring[p].token] == p)
  }

  predicate NoCall(s: State, token: nat) { forall p | p in s.acquiring :: s.acquiring[p].token != token }

  /** What is being released belongs to no active set and no call in progress, and is in place unless a checked release was tried. */
  predicate Released(s: State) {
    && (forall f | f in s.due + s.leaked :: f.token !in s.sets && NoCall(s, f.token))
    && (forall f | f in s.due && f.owner in s.live && f.token !in s.attempted :: f in s.held)
  }

  /** Somebody is still to unlink the file: its lock set, a release under way, or the call that locked it. */
  predicate OwedBy(s: State, f: File) {
    || (f.token in s.sets && f.target in s.sets[f.token].targets)
    || f in s.due
    || (f.owner in s.acquiring && s.acquiring[f.owner].token == f.token && f.target in s.acquiring[f.owner].targets)
  }

  predicate Owed(s: State) { forall f | f in s.held && f.owner in s.live :: OwedBy(s, f) }

  predicate CheckOf(s: State, p: Pid) {
    p in s.checking ==>
      var c := s.checking[p];
      && p in s.live && c.token in s.sets && s.sets[c.token].owner == p && c.token in s.attempted
      && (c.looking && !c.failed ==> forall t | t in s.sets[c.token].targets && t !in c.left :: !Holds(s, c.token, t))
  }

  ghost predicate Checks(s: State) { forall p :: CheckOf(s, p) }

  /** A work name is its process's own, and what a process is about to unlink was judged with its owner dead. */
  predicate JudgedOf(s: State, p: Pid) {
    p in s.acquiring ==>
      match s.acquiring[p].phase
      case ReclaimJudging(_, w) => w.pid == p
      case ReclaimUnlinking(_, w) => w.pid == p && w in s.works && s.works[w].owner !in s.live
      case ReclaimDropping(_, w, _) => w.pid == p
      case _ => true
  }

  ghost predicate Judged(s: State) { forall p :: JudgedOf(s, p) }

  ghost predicate Inv(s: State) {
    && Owned(s) && Accounted(s) && WholeSets(s) && Calls(s) && Tokens(s) && Released(s) && Owed(s) && Checks(s) && Judged(s)
  }

  /**
   Between judging and unlinking, the name is looked at again: it is free, or still the file judged.
   And a lock that cannot be read is not unlinked blindly once a checked release was tried on its set.
   */
  predicate Careful(s: State, p: Pid, action: Action) {
    match action
    case UnlinkJudged => p in s.acquiring ==> Retested(s, s.acquiring[p])
    case UnlinkHeld(f, readable, ok) => readable || !ok || f.token !in s.attempted
    case _ => true
  }

  predicate Retested(s: State, a: Acquisition) {
    a.phase.ReclaimUnlinking? && a.done < |a.targets| ==>
      || a.targets[a.done] !in s.lock
      || (a.phase.work in s.works && s.lock[a.targets[a.done]] == s.works[a.phase.work])
  }

  // ---- every step keeps it -----------------------------------------------------------------

  /** A step that at most moves one call on, or ends it. */
  ghost predicate Quiet(s: State, p: Pid, s': State) {
    && p in s.acquiring
    && s' == s.(claim := s'.claim, works := s'.works, acquiring := s'.acquiring, due := s'.due)
    && (forall w | w in s.works && w.pid != p && w.pid in s.live :: w in s'.works && s'.works[w] == s.works[w])
    && (s' == Stopped(s.(claim := s'.claim, works := s'.works), p) || (s'.due == s.due && Advanced(s, p, s')))
  }

  ghost predicate Advanced(s: State, p: Pid, s': State)
    requires p in s.acquiring
  {
    && p in s'.acquiring && s'.acquiring == s.acquiring[p := s'.acquiring[p]] && JudgedOf(s', p)
    && var a, a' := s.acquiring[p], s'.acquiring[p];
       a'.token == a.token && a'.targets == a.targets && a'.done == a.done
  }

  /** Nothing new is drawn, held or locked, and no call has another token. */
  ghost predicate Shrinks(s: State, s': State) {
    && s'.drawn == s.drawn && s'.nextToken == s.nextToken && s'.live <= s.live
    && (forall k | k in s'.sets :: k in s.sets && s'.sets[k] == s.sets[k])
    && s'.attempted <= s.attempted + s.sets.Keys
    && (forall f | f in s'.held + s'.due + s'.leaked :: f in s.held + s.due + s.leaked || (f.token in s.sets && s.sets[f.token].owner == f.owner))
    && (forall t | t in s'.lock :: t in s.lock && s'.lock[t] == s.lock[t])
    && (forall p | p in s'.acquiring :: p in s.acquiring && s'.acquiring[p].token == s.acquiring[p].token)
  }

  lemma ShrinkingKeepsTokens(s: State, s': State)
    requires Tokens(s) && Shrinks(s, s')
    ensures Tokens(s')
  {
  }

  lemma QuietKeeps(s: State, p: Pid, s': State)
    requires Inv(s) && Quiet(s, p, s')
    ensures Inv(s')
  {
    hide Owned, Accounted, WholeSets, Calls, Tokens, Released, Owed, Checks, Judged, Quiet, Stopped;
    QuietKeepsFiles(s, p, s');
    QuietKeepsOwed(s, p, s');
    QuietKeepsTokens(s, p, s');
    QuietKeepsCalls(s, p, s');
  }

  lemma QuietKeepsFiles(s: State, p: Pid, s': State)
    requires Quiet(s, p, s')
    ensures Owned(s) ==> Owned(s')
    ensures Accounted(s) ==> Accounted(s')
    ensures WholeSets(s) ==> WholeSets(s')
  {
  }

  /** A call that fails leaves every lock it took to a release. */
  lemma QuietKeepsOwed(s: State, p: Pid, s': State)
    requires Quiet(s, p, s') && Owed(s)
    ensures Owed(s')
  {
    forall f | f in s'.held && f.owner in s'.live ensures OwedBy(s', f) {
      assert OwedBy(s, f);
    }
  }

  lemma QuietKeepsTokens(s: State, p: Pid, s': State)
    requires Quiet(s, p, s') && Tokens(s) && Released(s) && Calls(s)
    ensures Tokens(s') && Released(s')
  {
    hide Judged;
    ShrinkingKeepsTokens(s, s');
    assert CallOf(s, p);
    forall f | f in s'.due + s'.leaked ensures f.token !in s'.sets && NoCall(s', f.token) {
    }
  }

  lemma QuietKeepsCalls(s: State, p: Pid, s': State)
    requires Quiet(s, p, s') && Calls(s) && Checks(s) && Judged(s)
    ensures Calls(s') && Checks(s') && Judged(s')
  {
    forall q ensures CallOf(s', q) && CheckOf(s', q) && JudgedOf(s', q) {
      assert CallOf(s, q) && CheckOf(s, q) && JudgedOf(s, q);
      assert p != q ==> (q in s'.acquiring <==> q in s.acquiring);
    }
  }

  lemma CrashKeeps(s: State, p: Pid)
    requires Inv(s)
    ensures Inv(s.(live := s.live - {p}, acquiring := s.acquiring - {p}, checking := s.checking - {p}))
  {
    var s' := s.(live := s.live - {p}, acquiring := s.acquiring - {p}, checking := s.checking - {p});
    assert forall f | f in s.held && f.owner in s.live :: OwedBy(s, f);
    forall q ensures CallOf(s', q) && CheckOf(s', q) && JudgedOf(s', q) {
      assert CallOf(s, q) && CheckOf(s, q) && JudgedOf(s, q);
    }
  }

  lemma BeginKeeps(s: State, p: Pid, targets: seq<Target>, s': State)
    requires Inv(s) && p in s.live && Do(s, p, Begin(targets)) == Some(s')
    ensures Inv(s')
  {
    hide Tokens, Released, Accounted, Owned, WholeSets, Owed;
    BeginKeepsTokens(s, p, targets, s');
    MoreOwed(s, s');
    SameFiles(s, s');
    forall q ensures CallOf(s', q) && CheckOf(s', q) && JudgedOf(s', q) {
      assert CallOf(s, q) && CheckOf(s, q) && JudgedOf(s, q);
      NewToken(s, s.nextToken);
    }
  }

  /** What is owed stays owed while nothing new is held and no set, release or call goes. */
  lemma MoreOwed(s: State, s': State)
    requires Owed(s) && s'.held <= s.held && s'.live == s.live && s.due <= s'.due
    requires forall k | k in s.sets :: k in s'.sets && s'.sets[k] == s.sets[k]
    requires forall p | p in s.acquiring ::
               p in s'.acquiring && s'.acquiring[p].token == s.acquiring[p].token && s'.acquiring[p].targets == s.acquiring[p].targets
    ensures Owed(s')
  {
    forall f | f in s'.held && f.owner in s'.live ensures OwedBy(s', f) {
      assert OwedBy(s, f);
    }
  }

  lemma SameFiles(s: State, s': State)
    requires s'.live == s.live && s'.lock == s.lock && s'.held == s.held && s'.leaked == s.leaked
    ensures Owned(s) ==> Owned(s')
    ensures Accounted(s) ==> Accounted(s')
    ensures s'.sets == s.sets && s.attempted <= s'.attempted && WholeSets(s) ==> WholeSets(s')
  {
  }

  lemma NewToken(s: State, k: nat)
    requires Tokens(s) && k >= s.nextToken
    ensures k !in s.drawn && k !in s.sets && k !in s.attempted
  {
  }

  lemma BeginKeepsTokens(s: State, p: Pid, targets: seq<Target>, s': State)
    requires Tokens(s) && Released(s) && Idle(s, p)
    requires s' == s.(acquiring := s.acquiring[p := Acquisition(s.nextToken, targets, 0, 0, Clearing)],
                      drawn := s.drawn[s.nextToken := p], nextToken := s.nextToken + 1)
    ensures Tokens(s') && Released(s')
  {
    NewToken(s, s.nextToken);
    BeginKeepsReleased(s, p, s');
    hide Released;
    forall f | f in s'.held + s'.due + s'.leaked ensures DrawnBy(s', f) {
      assert DrawnBy(s, f);
    }
  }

  lemma BeginKeepsReleased(s: State, p: Pid, s': State)
    requires Tokens(s) && Released(s) && p in s'.acquiring && s'.acquiring[p].token !in s.drawn
    requires s' == s.(acquiring := s'.acquiring, drawn := s'.drawn, nextToken := s'.nextToken)
    requires s'.acquiring == s.acquiring[p := s'.acquiring[p]]
    ensures Released(s')
  {
    forall f | f in s'.due + s'.leaked ensures f.token !in s'.sets && NoCall(s', f.token) {
      assert f in s.held + s.due + s.leaked && DrawnBy(s, f);
    }
  }

  lemma ReleaseKeeps(s: State, p: Pid, token: nat, s': State)
    requires Inv(s) && Do(s, p, Release(token)) == Some(s')
    ensures Inv(s')
  {
    hide Tokens, Released, Accounted, Owned, Owed;
    ReleaseKeepsTokens(s, token, s');
    ReleaseKeepsOwed(s, token, s');
    SameFiles(s, s');
    forall q ensures CallOf(s', q) && CheckOf(s', q) && JudgedOf(s', q) {
      assert CallOf(s, q) && CheckOf(s, q) && JudgedOf(s, q);
      assert q in s.checking ==> s.sets[s.checking[q].token].owner == q;
    }
  }

  /** A set that is given up leaves every lock of its own to the release. */
  lemma ReleaseKeepsOwed(s: State, token: nat, s': State)
    requires Owed(s) && Tokens(s) && token in s.sets
    requires s' == s.(sets := s.sets - {token}, due := s.due + FilesOf(token, s.sets[token]))
    ensures Owed(s')
  {
    forall f | f in s'.held && f.owner in s'.live ensures OwedBy(s', f) {
      assert OwedBy(s, f) && f in s.held + s.due + s.leaked && DrawnBy(s, f);
      if f.token == token && f.target in s.sets[token].targets {
        assert f == File(s.sets[token].owner, token, f.target);
      }
    }
  }

  lemma ReleaseKeepsTokens(s: State, token: nat, s': State)
    requires Tokens(s) && Released(s) && Calls(s) && WholeSets(s) && token in s.sets
    requires s' == s.(sets := s.sets - {token}, due := s.due + FilesOf(token, s.sets[token]))
    ensures Tokens(s') && Released(s')
  {
    ShrinkingKeepsTokens(s, s');
    forall q | q in s.acquiring ensures s.acquiring[q].token != token {
      assert CallOf(s, q);
    }
    forall f | f in s'.due && f.owner in s'.live && f.token !in s'.attempted ensures f in s'.held {
      assert f !in s.due ==> Holds(s, token, f.target);
    }
  }

  /** What happens to the directory when a release unlinks a lock or leaves it. */
  ghost predicate Loses(s: State, f: File, s': State) {
    && s' == s.(lock := s'.lock, held := s.held - {f}, due := s'.due, leaked := s'.leaked, checking := s'.checking)
    && (s'.lock == s.lock || (s'.lock == s.lock - {f.target} && Expendable(s, f)))
    && s.leaked <= s'.leaked <= s.leaked + {f}
    && (f in s.held && f.owner in s.live && s'.lock == s.lock ==> f in s'.leaked)
  }

  /** The lock under the file's name is that file, or one that no live process holds. */
  predicate Expendable(s: State, f: File) {
    f.target in s.lock ==> s.lock[f.target] == f || s.lock[f.target] !in s.held || s.lock[f.target].owner !in s.live
  }

  lemma LosingKeepsOwned(s: State, f: File, s': State)
    requires Owned(s) && Accounted(s) && Loses(s, f, s')
    ensures Owned(s') && Accounted(s')
  {
    forall g | g in s'.held && g.owner in s'.live ensures g.target in s'.lock && s'.lock[g.target] == g {
      assert g in s.held && g != f && s.lock[g.target] == g;
    }
  }

  lemma LosingKeepsOwed(s: State, f: File, s': State)
    requires Owed(s) && Loses(s, f, s') && s'.due >= s.due - {f}
    ensures Owed(s')
  {
    forall g | g in s'.held && g.owner in s'.live ensures OwedBy(s', g) {
      assert OwedBy(s, g);
    }
  }

  lemma LosingKeepsTokens(s: State, f: File, s': State)
    requires Tokens(s) && Released(s) && Loses(s, f, s') && s'.due <= s.due && (f in s.due || s'.leaked == s.leaked)
    requires f in s'.due ==> f.token in s.attempted
    ensures Tokens(s') && Released(s')
  {
    ShrinkingKeepsTokens(s, s');
  }

  /** A lock lost by a file that is being released is of no call and of no active set. */
  lemma LosingKeepsCalls(s: State, f: File, s': State)
    requires WholeSets(s) && Calls(s) && Released(s) && Checks(s) && Judged(s)
    requires Loses(s, f, s') && f in s.due && s'.checking == s.checking
    ensures WholeSets(s') && Calls(s') && Checks(s') && Judged(s')
  {
    assert f.token !in s.sets && NoCall(s, f.token);
    forall q ensures CallOf(s', q) && CheckOf(s', q) && JudgedOf(s', q) {
      assert CallOf(s, q) && CheckOf(s, q) && JudgedOf(s, q);
    }
  }

  lemma LosingKeeps(s: State, f: File, s': State)
    requires Inv(s) && Loses(s, f, s') && f in s.due && s'.due == s.due - {f} && s'.checking == s.checking
    ensures Inv(s')
  {
    hide Owned, Accounted, WholeSets, Calls, Tokens, Released, Owed, Checks, Judged, Loses;
    LosingKeepsOwned(s, f, s');
    LosingKeepsOwed(s, f, s');
    LosingKeepsTokens(s, f, s');
    LosingKeepsCalls(s, f, s');
  }

  lemma UnlinkHeldKeeps(s: State, p: Pid, f: File, readable: bool, ok: bool, s': State)
    requires Inv(s) && Do(s, p, UnlinkHeld(f, readable, ok)) == Some(s')
    requires Careful(s, p, UnlinkHeld(f, readable, ok))
    ensures Inv(s')
    ensures f in s.held && ok ==> f.target !in s'.lock && s'.leaked == s.leaked
    ensures s'.lock == s.lock || (f.target in s.lock && s.lock[f.target] == f)
  {
    hide Inv, Unlinked, Loses;
    DueIsDrawn(s, f);
    TokenIsFile(s, f.target, f);
    UnlinkedLoses(s, f, readable, ok);
    LosingKeeps(s, f, s');
  }

  lemma UnlinkedLoses(s: State, f: File, readable: bool, ok: bool)
    requires f.target in s.lock && s.lock[f.target].token == f.token ==> s.lock[f.target] == f
    requires f in s.held ==> f.target in s.lock && s.lock[f.target] == f
    requires readable || !ok || Expendable(s, f)
    ensures Loses(s, f, Unlinked(s, f, readable, ok)) && Unlinked(s, f, readable, ok).due == s.due - {f}
    ensures Unlinked(s, f, readable, ok).checking == s.checking
    ensures f in s.held && ok ==> f.target !in Unlinked(s, f, readable, ok).lock && Unlinked(s, f, readable, ok).leaked == s.leaked
    ensures Unlinked(s, f, readable, ok).lock == s.lock || Unlinked(s, f, readable, ok).lock == s.lock - {f.target}
    ensures readable ==> Unlinked(s, f, readable, ok).lock == s.lock || (f.target in s.lock && s.lock[f.target] == f)
    ensures f.target !in s.lock || !ok ==> Unlinked(s, f, readable, ok).lock == s.lock
  {
  }

  lemma DueIsDrawn(s: State, f: File)
    requires Inv(s) && f in s.due
    ensures DrawnBy(s, f)
    ensures f.owner in s.live && f.token !in s.attempted ==> f in s.held
  {
    assert f in s.held + s.due + s.leaked;
  }

  /** A live process that finds its token under a name has found its own lock. */
  lemma TokenIsFile(s: State, t: Target, f: File)
    requires Inv(s) && DrawnBy(s, f) && f.owner in s.live && f.target == t
    ensures t in s.lock && s.lock[t].token == f.token ==> s.lock[t] == f && f in s.held + s.leaked
    ensures f in s.held ==> t in s.lock && s.lock[t] == f
  {
  }

  lemma LinkedKeeps(s: State, p: Pid, a: Acquisition, synced: bool)
    requires Inv(s) && p in s.acquiring && a == s.acquiring[p] && a.done < |a.targets| && a.targets[a.done] !in s.lock
    ensures Inv(Linked(s, p, a, synced))
  {
    var f := Candidate(p, a);
    var u := s.(lock := s.lock[f.target := f], held := s.held + {f});
    assert CallOf(s, p);
    CandidateIsNew(s, p, f, u);
    if !synced {
      QuietKeeps(u, p, Stopped(u, p));
    } else if a.done + 1 == |a.targets| {
      SetKeeps(u, p, a, Linked(s, p, a, synced));
    } else {
      NextKeeps(u, p, a, Linked(s, p, a, synced));
    }
  }

  lemma CandidateIsNew(s: State, p: Pid, f: File, u: State)
    requires Inv(s) && p in s.acquiring && f.owner == p && f.token == s.acquiring[p].token && f.target !in s.lock
    requires f.target in s.acquiring[p].targets
    requires u == s.(lock := s.lock[f.target := f], held := s.held + {f})
    ensures Inv(u)
  {
    hide Calls, Tokens, Released, Owed, Checks, Judged;
    CandidateOwed(s, p, f, u);
    CandidateTokens(s, p, f, u);
    CandidateCalls(s, p, f, u);
  }

  lemma CandidateOwed(s: State, p: Pid, f: File, u: State)
    requires Owed(s) && p in s.acquiring && f.owner == p && f.token == s.acquiring[p].token && f.target in s.acquiring[p].targets
    requires u == s.(lock := s.lock[f.target := f], held := s.held + {f})
    ensures Owed(u)
  {
    forall g | g in u.held && g.owner in u.live ensures OwedBy(u, g) {
      assert g != f ==> OwedBy(s, g);
    }
  }

  lemma CandidateTokens(s: State, p: Pid, f: File, u: State)
    requires Tokens(s) && Released(s) && p in s.acquiring && f.owner == p && f.token == s.acquiring[p].token
    requires u == s.(lock := s.lock[f.target := f], held := s.held + {f})
    ensures Tokens(u) && Released(u)
  {
    assert DrawnBy(u, f);
    forall g | g in u.held + u.due + u.leaked ensures DrawnBy(u, g) {
      assert g != f ==> g in s.held + s.due + s.leaked;
    }
  }

  lemma CandidateCalls(s: State, p: Pid, f: File, u: State)
    requires Calls(s) && Checks(s) && Judged(s) && p in s.acquiring && f.token == s.acquiring[p].token
    requires u == s.(lock := s.lock[f.target := f], held := s.held + {f})
    ensures Calls(u) && Checks(u) && Judged(u)
  {
    assert CallOf(s, p);
    forall q ensures CallOf(u, q) && CheckOf(u, q) && JudgedOf(u, q) {
      assert CallOf(s, q) && CheckOf(s, q) && JudgedOf(s, q);
    }
  }

  /** The last target is locked: the call returns a lock set with all of them. */
  lemma SetKeeps(u: State, p: Pid, a: Acquisition, s': State)
    requires Inv(u) && p in u.acquiring && a == u.acquiring[p] && a.done + 1 == |a.targets| && Candidate(p, a) in u.held
    requires s' == u.(acquiring := u.acquiring - {p}, sets := u.sets[a.token := LockSet(p, a.targets)])
    ensures Inv(s')
  {
    hide Tokens, Released, Owed, Owned, Accounted;
    assert CallOf(u, p);
    SetOwed(u, p, a, s');
    SetTokens(u, p, a, s');
    SameFiles(u, s');
    forall t | t in a.targets ensures File(p, a.token, t) in u.held {
      var i :| 0 <= i < |a.targets| && a.targets[i] == t;
      assert i < a.done || i == a.done;
    }
    SetCalls(u, p, a, s');
  }

  lemma SetOwed(u: State, p: Pid, a: Acquisition, s': State)
    requires Owed(u) && p in u.acquiring && a == u.acquiring[p] && a.token !in u.sets
    requires s' == u.(acquiring := u.acquiring - {p}, sets := u.sets[a.token := LockSet(p, a.targets)])
    ensures Owed(s')
  {
    forall f | f in s'.held && f.owner in s'.live ensures OwedBy(s', f) {
      assert OwedBy(u, f);
    }
  }

  lemma SetTokens(u: State, p: Pid, a: Acquisition, s': State)
    requires Tokens(u) && Released(u) && p in u.acquiring && a == u.acquiring[p]
    requires s' == u.(acquiring := u.acquiring - {p}, sets := u.sets[a.token := LockSet(p, a.targets)])
    ensures Tokens(s') && Released(s')
  {
    forall f | f in s'.due + s'.leaked ensures f.token !in s'.sets && NoCall(s', f.token) {
      assert f.token !in u.sets && NoCall(u, f.token);
    }
  }

  lemma SetCalls(u: State, p: Pid, a: Acquisition, s': State)
    requires Calls(u) && Checks(u) && Judged(u) && Tokens(u) && p in u.acquiring && a == u.acquiring[p]
    requires s' == u.(acquiring := u.acquiring - {p}, sets := u.sets[a.token := LockSet(p, a.targets)])
    ensures Calls(s') && Checks(s') && Judged(s')
  {
    assert CallOf(u, p);
    forall q ensures CallOf(s', q) && CheckOf(s', q) && JudgedOf(s', q) {
      assert CallOf(u, q) && CheckOf(u, q) && JudgedOf(u, q);
    }
  }

  lemma NextKeeps(u: State, p: Pid, a: Acquisition, s': State)
    requires Inv(u) && p in u.acquiring && a == u.acquiring[p] && a.done + 1 < |a.targets| && Candidate(p, a) in u.held
    requires s' == u.(acquiring := u.acquiring[p := Acquisition(a.token, a.targets, a.done + 1, 0, Clearing)])
    ensures Inv(s')
  {
    hide Tokens, Released, Owed, Owned, Accounted;
    MoreOwed(u, s');
    SameFiles(u, s');
    NextTokens(u, p, a, s');
    forall q ensures CallOf(s', q) && CheckOf(s', q) && JudgedOf(s', q) {
      assert CallOf(u, q) && CheckOf(u, q) && JudgedOf(u, q);
    }
  }

  lemma NextTokens(u: State, p: Pid, a: Acquisition, s': State)
    requires Tokens(u) && Released(u) && p in u.acquiring && a == u.acquiring[p]
    requires s' == u.(acquiring := u.acquiring[p := Acquisition(a.token, a.targets, a.done + 1, 0, Clearing)])
    ensures Tokens(s') && Released(s')
  {
    ShrinkingKeepsTokens(u, s');
    forall f | f in s'.due + s'.leaked ensures f.token !in s'.sets && NoCall(s', f.token) {
      assert f.token !in u.sets && NoCall(u, f.token);
    }
  }

  /** Unlinking a lock whose owner is dead, or that nobody holds, is harmless. */
  lemma UnlinkKeeps(s: State, p: Pid, t: Target, phase: Phase)
    requires Inv(s) && p in s.acquiring && (t in s.lock ==> s.lock[t] !in s.held || s.lock[t].owner !in s.live)
    requires phase.ReclaimDropping? && phase.work.pid == p
    ensures Inv(At(s.(lock := s.lock - {t}), p, phase))
  {
    var u := s.(lock := s.lock - {t});
    FreedKeeps(s, t, u);
    QuietKeeps(u, p, At(u, p, phase));
  }

  lemma FreedKeeps(s: State, t: Target, u: State)
    requires Inv(s) && u == s.(lock := s.lock - {t}) && (t in s.lock ==> s.lock[t] !in s.held || s.lock[t].owner !in s.live)
    ensures Inv(u)
  {
    forall f | f in u.held && f.owner in u.live ensures f.target in u.lock && u.lock[f.target] == f {
      assert f.target in s.lock && s.lock[f.target] == f;
    }
    MoreOwed(s, u);
    hide Owed;
    forall q ensures CallOf(u, q) && CheckOf(u, q) && JudgedOf(u, q) {
      assert CallOf(s, q) && CheckOf(s, q) && JudgedOf(s, q);
    }
  }

  predicate OwnWork(phase: Phase, p: Pid) {
    match phase
    case ReclaimJudging(_, w) => w.pid == p
    case ReclaimDropping(_, w, _) => w.pid == p
    case ReclaimUnlinking(_, _) => false
    case _ => true
  }

  /** Works of other live processes stay as they are. */
  predicate OthersWork(s: State, p: Pid, u: State) {
    forall w | w in s.works && w.pid != p && w.pid in s.live :: w in u.works && u.works[w] == s.works[w]
  }

  /** Moving one call to another phase, whatever happens to claims and to its own work names. */
  lemma MoveKeeps(s: State, u: State, p: Pid, phase: Phase)
    requires Inv(s) && p in s.acquiring && u == s.(claim := u.claim, works := u.works) && OthersWork(s, p, u) && OwnWork(phase, p)
    ensures Inv(At(u, p, phase))
  {
    hide Inv;
    QuietKeeps(s, p, At(u, p, phase));
  }

  lemma StopKeeps(s: State, p: Pid)
    requires Inv(s) && p in s.acquiring
    ensures Inv(Stopped(s, p))
  {
    hide Inv;
    QuietKeeps(s, p, Stopped(s, p));
  }

  lemma ReclaimedKeeps(s: State, u: State, p: Pid, next: Then, ok: bool)
    requires Inv(s) && p in s.acquiring && u == s.(works := u.works) && OthersWork(s, p, u)
    ensures Inv(Reclaimed(u, p, next, ok))
  {
    hide Inv, Quiet;
    ReclaimedIsQuiet(s, u, p, next, ok);
    QuietKeeps(s, p, Reclaimed(u, p, next, ok));
  }

  lemma ReclaimedIsQuiet(s: State, u: State, p: Pid, next: Then, ok: bool)
    requires p in s.acquiring && u == s.(works := u.works) && OthersWork(s, p, u)
    ensures Quiet(s, p, Reclaimed(u, p, next, ok))
  {
    hide Quiet, OthersWork, Stopped;
    var a := s.acquiring[p];
    StoppingIsQuiet(s, u, p);
    MovingIsQuiet(s, u, p, a.(phase := Linking));
    MovingIsQuiet(s, u, p, a.(attempt := a.attempt + 1, phase := Clearing));
  }

  lemma StoppingIsQuiet(s: State, u: State, p: Pid)
    requires p in s.acquiring && u == s.(works := u.works) && OthersWork(s, p, u)
    ensures Quiet(s, p, Stopped(u, p))
  {
    assert u == s.(claim := u.claim, works := u.works);
  }

  lemma MovingIsQuiet(s: State, u: State, p: Pid, a: Acquisition)
    requires p in s.acquiring && u == s.(works := u.works) && OthersWork(s, p, u) && OwnWork(a.phase, p)
    requires a == s.acquiring[p].(attempt := a.attempt, phase := a.phase)
    ensures Quiet(s, p, u.(acquiring := s.acquiring[p := a]))
  {
  }

  lemma JudgingKeeps(s: State, p: Pid, next: Then, w: Work)
    requires Inv(s) && p in s.acquiring && s.acquiring[p].phase == ReclaimJudging(next, w) && w in s.works && s.works[w].owner !in s.live
    ensures Inv(At(s, p, ReclaimUnlinking(next, w)))
  {
    assert JudgedOf(s, p);
    QuietKeeps(s, p, At(s, p, ReclaimUnlinking(next, w)));
  }

  lemma PhaseIsOwn(s: State, p: Pid)
    requires Inv(s) && p in s.acquiring
    ensures JudgedOf(s, p)
  {
  }

  /** However the judgement ends, in one step or in two. */
  lemma JudgeKeeps(s: State, p: Pid, t: Target, next: Then, w: Work, stale: bool)
    requires Inv(s) && p in s.acquiring && s.acquiring[p].phase == ReclaimJudging(next, w)
    ensures Inv(At(s, p, ReclaimDropping(next, w, false))) && Inv(At(s, p, ReclaimDropping(next, w, true)))
    ensures w in s.works && stale && MayJudge(s, s.works[w], stale) ==>
              && Inv(At(s, p, ReclaimUnlinking(next, w)))
              && (t in s.lock && s.lock[t] == s.works[w] ==> Inv(At(s.(lock := s.lock - {t}), p, ReclaimDropping(next, w, true))))
  {
    hide Inv, At;
    PhaseIsOwn(s, p);
    MoveKeeps(s, s, p, ReclaimDropping(next, w, false));
    MoveKeeps(s, s, p, ReclaimDropping(next, w, true));
    if w in s.works && stale && MayJudge(s, s.works[w], stale) {
      JudgingKeeps(s, p, next, w);
      if t in s.lock && s.lock[t] == s.works[w] {
        UnlinkKeeps(s, p, t, ReclaimDropping(next, w, true));
      }
    }
  }

  /** The file judged has a dead owner, so unlinking it, if it still is the lock, is harmless. */
  lemma UnlinkJudgedKeeps(s: State, p: Pid, t: Target, next: Then, w: Work)
    requires Inv(s) && p in s.acquiring && s.acquiring[p].phase == ReclaimUnlinking(next, w)
    requires t !in s.lock || (w in s.works && s.lock[t] == s.works[w])
    ensures Inv(At(s.(lock := s.lock - {t}), p, ReclaimDropping(next, w, true)))
  {
    hide Inv, At;
    PhaseIsOwn(s, p);
    UnlinkKeeps(s, p, t, ReclaimDropping(next, w, true));
  }

  lemma DropKeeps(s: State, p: Pid, next: Then, w: Work, ok: bool)
    requires Inv(s) && p in s.acquiring && s.acquiring[p].phase == ReclaimDropping(next, w, ok)
    ensures Inv(Reclaimed(s, p, next, ok)) && Inv(Reclaimed(s.(works := s.works - {w}), p, next, ok))
  {
    hide Inv, Reclaimed;
    PhaseIsOwn(s, p);
    ReclaimedKeeps(s, s, p, next, ok);
    ReclaimedKeeps(s, s.(works := s.works - {w}), p, next, ok);
  }

  lemma ClearKeeps(s: State, p: Pid, t: Target, phase: Phase)
    requires Inv(s) && p in s.acquiring && OwnWork(phase, p)
    ensures Inv(Stopped(s, p))
    ensures (forall w | w in WorksOn(s, t) :: w.pid !in s.live) ==> Inv(At(s.(works := s.works - WorksOn(s, t)), p, phase))
  {
    hide Inv, At, Stopped;
    StopKeeps(s, p);
    if forall w | w in WorksOn(s, t) :: w.pid !in s.live {
      MoveKeeps(s, s.(works := s.works - WorksOn(s, t)), p, phase);
    }
  }

  lemma AcquireKeeps(s: State, p: Pid, action: Action, s': State)
    requires Inv(s) && p in s.acquiring && Acquire(s, p, s.acquiring[p], action) == Some(s')
    requires Careful(s, p, action)
    ensures Inv(s')
  {
    hide Inv, At, Stopped, Reclaimed, Linked, WorksOn, JudgedOf;
    var a := s.acquiring[p];
    var t := a.targets[a.done];
    PhaseIsOwn(s, p);
    match (action, a.phase)
    case (GiveUp, _) => StopKeeps(s, p);
    case (ClearWork, Clearing) => ClearKeeps(s, p, t, Claiming);
    case (ClearWork, ReclaimClearing(next)) => ClearKeeps(s, p, t, ReclaimClaiming(next));
    case (LookForClaim, Claiming) => MoveKeeps(s, s, p, if t in s.claim then ReclaimClearing(ThenLink) else Linking);
    case (LinkCandidate(synced), Linking) =>
      if t in s.lock {
        MoveKeeps(s, s, p, ReclaimClearing(ThenRetry));
      } else {
        LinkedKeeps(s, p, a, synced);
      }
    case (LinkClaim, ReclaimClaiming(next)) =>
      StopKeeps(s, p);
      MoveKeeps(s, s, p, ReclaimTaking(next));
      if t in s.lock {
        MoveKeeps(s, s.(claim := s.claim[t := s.lock[t]]), p, ReclaimTaking(next));
      }
    case (TakeClaim(nonce), ReclaimTaking(next)) =>
      StopKeeps(s, p);
      var w := Work(t, p, nonce);
      if t in s.claim {
        MoveKeeps(s, s.(claim := s.claim - {t}, works := s.works[w := s.claim[t]]), p, ReclaimJudging(next, w));
      }
    case (JudgeAndUnlink(stale), ReclaimJudging(next, w)) => JudgeKeeps(s, p, t, next, w, stale);
    case (JudgeOnly(stale), ReclaimJudging(next, w)) => JudgeKeeps(s, p, t, next, w, stale);
    case (UnlinkJudged, ReclaimUnlinking(next, w)) => UnlinkJudgedKeeps(s, p, t, next, w);
    case (DropWork(removed), ReclaimDropping(next, w, ok)) => DropKeeps(s, p, next, w, ok);
    case _ =>
  }

  // ---- the checked release -----------------------------------------------------------------

  lemma CheckedBeginKeeps(s: State, p: Pid, token: nat, s': State)
    requires Inv(s) && Do(s, p, CheckedBegin(token)) == Some(s')
    ensures Inv(s')
  {
    hide Owned, Accounted, Owed;
    SameFiles(s, s');
    MoreOwed(s, s');
    forall q ensures CallOf(s', q) && CheckOf(s', q) && JudgedOf(s', q) {
      assert CallOf(s, q) && CheckOf(s, q) && JudgedOf(s, q);
    }
  }

  /** A checked unlink takes a lock of its own set away, or nothing. */
  lemma CheckedUnlinkKeeps(s: State, p: Pid, t: Target, readable: bool, ok: bool, s': State)
    requires Inv(s) && Do(s, p, CheckedUnlink(t, readable, ok)) == Some(s')
    ensures Inv(s')
    ensures s'.lock != s.lock ==> Holds(s, s.checking[p].token, t)
  {
    hide Owned, Accounted, WholeSets, Calls, Tokens, Released, Owed, Checks, Judged;
    CheckIsOwn(s, p);
    var f := File(p, s.checking[p].token, t);
    CheckedFile(s, p, f);
    if s'.lock == s.lock && s'.held == s.held {
      CheckMoves(s, p, s');
    } else {
      LosingKeepsOwned(s, f, s');
      LosingKeepsOwed(s, f, s');
      LosingKeepsTokens(s, f, s');
      CheckedUnlinkKeepsCalls(s, p, f, s');
    }
  }

  lemma CheckIsOwn(s: State, p: Pid)
    requires Inv(s) && p in s.checking
    ensures CheckOf(s, p)
  {
  }

  lemma CheckedFile(s: State, p: Pid, f: File)
    requires Inv(s) && p in s.checking && f.owner == p && f.token == s.checking[p].token
    ensures f.target in s.lock && s.lock[f.target].token == f.token ==> s.lock[f.target] == f && f in s.held
    ensures f in s.held ==> f.target in s.lock && s.lock[f.target] == f
  {
    hide WholeSets, Judged;
    assert CheckOf(s, p);
    TokenIsFile(s, f.target, f);
    ReleasedIsNotHeld(s, f);
  }

  /** Only the checking process's own view moves on. */
  lemma CheckMoves(s: State, p: Pid, s': State)
    requires Inv(s) && p in s.checking && s' == s.(checking := s'.checking) && p in s'.checking
    requires s'.checking == s.checking[p := s'.checking[p]] && s'.checking[p].token == s.checking[p].token && CheckOf(s', p)
    ensures Inv(s')
  {
    hide Owned, Accounted, WholeSets, Tokens, Released, Owed;
    SameFiles(s, s');
    SameTokens(s, s');
    MoreOwed(s, s');
    forall q ensures CallOf(s', q) && CheckOf(s', q) && JudgedOf(s', q) {
      assert CallOf(s, q) && CheckOf(s, q) && JudgedOf(s, q);
    }
  }

  lemma SameTokens(s: State, s': State)
    requires s' == s.(checking := s'.checking) && Tokens(s) && Released(s)
    ensures Tokens(s') && Released(s')
  {
    ShrinkingKeepsTokens(s, s');
  }

  lemma CheckedUnlinkKeepsCalls(s: State, p: Pid, f: File, s': State)
    requires WholeSets(s) && Calls(s) && Checks(s) && Judged(s) && Loses(s, f, s') && p in s.checking
    requires f.owner == p && f.token == s.checking[p].token && !s.checking[p].looking
    requires s'.checking == s.checking[p := s.checking[p].(left := s.checking[p].left - {f.target})]
    ensures WholeSets(s') && Calls(s') && Checks(s') && Judged(s')
  {
    assert CheckOf(s, p);
    forall q ensures CallOf(s', q) && CheckOf(s', q) && JudgedOf(s', q) {
      assert CallOf(s, q) && CheckOf(s, q) && JudgedOf(s, q);
    }
  }

  lemma ReleasedIsNotHeld(s: State, f: File)
    requires Inv(s) && f.token in s.sets
    ensures f !in s.leaked && f !in s.due
  {
  }

  lemma CheckedMoveKeeps(s: State, p: Pid, action: Action, s': State)
    requires Inv(s) && p in s.checking && (action.CheckedSync? || action.CheckedLook?) && Do(s, p, action) == Some(s')
    ensures Inv(s')
  {
    hide Inv;
    CheckIsOwn(s, p);
    if action.CheckedLook? {
      CheckedFile(s, p, File(p, s.checking[p].token, action.target));
    }
    CheckMoves(s, p, s');
  }

  lemma CheckedEndKeeps(s: State, p: Pid, s': State)
    requires Inv(s) && Do(s, p, CheckedEnd) == Some(s')
    ensures Inv(s')
  {
    hide Owned, Accounted, WholeSets, Calls, Tokens, Released, Owed, Checks, Judged;
    CheckIsOwn(s, p);
    SameFiles(s, s');
    EndKeepsTokens(s, s');
    EndKeepsOwed(s, p, s');
    EndKeepsCalls(s, p, s.checking[p].token, s');
  }

  /** A checked release that deactivates its set has seen each of the set's names free. */
  lemma EndKeepsOwed(s: State, p: Pid, s': State)
    requires Owed(s) && Tokens(s) && p in s.checking && CheckOf(s, p) && s.checking[p].looking && s.checking[p].left == {}
    requires var c := s.checking[p];
             s' == s.(checking := s.checking - {p}, sets := if c.failed then s.sets else s.sets - {c.token})
    ensures Owed(s')
  {
    var k := s.checking[p].token;
    forall f | f in s'.held && f.owner in s'.live ensures OwedBy(s', f) {
      assert OwedBy(s, f) && f in s.held + s.due + s.leaked && DrawnBy(s, f);
      if !s.checking[p].failed && f.token == k && f.target in s.sets[k].targets {
        assert f == File(s.sets[k].owner, k, f.target);
        assert Holds(s, k, f.target);
      }
    }
  }

  lemma EndKeepsCalls(s: State, p: Pid, k: nat, s': State)
    requires WholeSets(s) && Calls(s) && Checks(s) && Judged(s) && k in s.sets && s.sets[k].owner == p
    requires s' == s.(checking := s.checking - {p}, sets := s'.sets) && (s'.sets == s.sets || s'.sets == s.sets - {k})
    ensures WholeSets(s') && Calls(s') && Checks(s') && Judged(s')
  {
    forall q ensures CallOf(s', q) && CheckOf(s', q) && JudgedOf(s', q) {
      assert CallOf(s, q) && CheckOf(s, q) && JudgedOf(s, q);
    }
  }

  /** A checked release deactivates its set exactly if nothing failed, and then none of the set's locks is left. */
  lemma CheckedReleaseFrees(s: State, p: Pid, s': State)
    requires Inv(s) && Do(s, p, CheckedEnd) == Some(s')
    ensures var k := s.checking[p].token;
            && k in s.sets && (k in s'.sets <==> s.checking[p].failed)
            && (k !in s'.sets ==> forall t | t in s.sets[k].targets && t in s'.lock :: s'.lock[t].token != k)
  {
    hide Owned, Accounted, Tokens, Released, WholeSets;
    assert CheckOf(s, p);
    var k := s.checking[p].token;
    if !s.checking[p].failed {
      forall t | t in s.sets[k].targets && t in s.lock ensures s.lock[t].token != k {
        CheckedFile(s, p, File(p, k, t));
        assert !Holds(s, k, t);
      }
    }
  }

  lemma EndKeepsTokens(s: State, s': State)
    requires s' == s.(checking := s'.checking, sets := s'.sets) && Tokens(s) && Released(s)
    requires forall k | k in s'.sets :: k in s.sets && s'.sets[k] == s.sets[k]
    ensures Tokens(s') && Released(s')
  {
    ShrinkingKeepsTokens(s, s');
  }

  lemma StepKeeps(s: State, p: Pid, action: Action, s': State)
    requires Inv(s) && Do(s, p, action) == Some(s') && Careful(s, p, action)
    ensures Inv(s')
  {
    hide Inv, Acquire, CheckedStep, Unlinked;
    match action
    case Crash => CrashKeeps(s, p);
    case Begin(targets) => BeginKeeps(s, p, targets, s');
    case Release(token) => ReleaseKeeps(s, p, token, s');
    case UnlinkHeld(f, readable, ok) => UnlinkHeldKeeps(s, p, f, readable, ok, s');
    case CheckedBegin(token) => CheckedBeginKeeps(s, p, token, s');
    case CheckedUnlink(t, readable, ok) => CheckedUnlinkKeeps(s, p, t, readable, ok, s');
    case CheckedSync(_) => CheckedMoveKeeps(s, p, action, s');
    case CheckedLook(_) => CheckedMoveKeeps(s, p, action, s');
    case CheckedEnd => CheckedEndKeeps(s, p, s');
    case _ => AcquireKeeps(s, p, action, s');
  }

  // ---- exclusion ---------------------------------------------------------------------------

  /** An active set of a process that is alive. */
  predicate LiveSet(s: State, token: nat) { token in s.sets && s.sets[token].owner in s.live }

  ghost predicate Shared(s: State, k: nat, l: nat, t: Target) {
    LiveSet(s, k) && LiveSet(s, l) && k != l && t in s.sets[k].targets && t in s.sets[l].targets
  }

  /** No two live sets on which no checked release was tried share a target. */
  ghost predicate Excluded(s: State) {
    forall k, l, t | Shared(s, k, l, t) :: k in s.attempted || l in s.attempted
  }

  /** Of two live sets that share a target at most one still holds it; the other lost it to a checked release of its own. */
  lemma SharersLost(s: State, k: nat, l: nat, t: Target)
    requires Inv(s) && Shared(s, k, l, t)
    ensures (!Holds(s, k, t) && k in s.attempted) || (!Holds(s, l, t) && l in s.attempted)
  {
  }

  lemma InvExcludes(s: State)
    requires Inv(s)
    ensures Excluded(s)
  {
    forall k, l, t | Shared(s, k, l, t) ensures k in s.attempted || l in s.attempted {
      SharersLost(s, k, l, t);
    }
  }

  /**
   The ownership check finds the set's token under the name exactly while the set still holds that
   target, and then the file there is its own; a set never tried for a checked release always passes.
   */
  lemma OwnershipHolds(s: State, k: nat, t: Target)
    requires Inv(s) && LiveSet(s, k) && t in s.sets[k].targets
    ensures t in s.lock && s.lock[t].token == k <==> Holds(s, k, t)
    ensures Holds(s, k, t) ==> s.lock[t] == File(s.sets[k].owner, k, t)
    ensures k !in s.attempted ==> Holds(s, k, t)
  {
    var f := File(s.sets[k].owner, k, t);
    TokenIsFile(s, t, f);
    ReleasedIsNotHeld(s, f);
  }

  /**
   Acquiring is all or nothing. When the call that drew the token is over and gave no lock set, or the set
   has been given back, every lock it took is one a release still has to look at or failed to unlink; with
   neither left it owns no lock. When it gave a lock set, and no checked release was tried on that, it owns
   the lock of every target.
   */
  lemma AllOrNothing(s: State, p: Pid, k: nat)
    requires Inv(s) && p in s.live && NoCall(s, k)
    ensures k !in s.sets ==> forall t | t in s.lock && s.lock[t].owner == p && s.lock[t].token == k :: s.lock[t] in s.due + s.leaked
    ensures k !in s.sets && (forall f | f in s.due + s.leaked :: f.owner != p || f.token != k) ==>
              forall t | t in s.lock :: s.lock[t].owner != p || s.lock[t].token != k
    ensures k in s.sets && s.sets[k].owner == p && k !in s.attempted ==>
              forall t | t in s.sets[k].targets :: t in s.lock && s.lock[t] == File(p, k, t)
  {
    forall t | k !in s.sets && t in s.lock && s.lock[t].owner == p && s.lock[t].token == k ensures s.lock[t] in s.due + s.leaked {
      if s.lock[t] in s.held {
        assert OwedBy(s, s.lock[t]);
      }
    }
    if k in s.sets && s.sets[k].owner == p && k !in s.attempted {
      forall t | t in s.sets[k].targets ensures t in s.lock && s.lock[t] == File(p, k, t) {
        assert Holds(s, k, t);
      }
    }
  }

  /** What a failed call leaves to its release is all it had locked, and nothing of anybody else's. */
  lemma FailedCallReleases(s: State, p: Pid)
    requires Inv(s) && p in s.acquiring
    ensures var k := s.acquiring[p].token;
            var s' := Stopped(s, p);
            && NoCall(s', k) && k !in s'.sets
            && (forall t | t in s.lock && s.lock[t].owner == p && s.lock[t].token == k :: s.lock[t] in s'.due)
            && (forall f | f in s'.due - s.due :: f.owner == p && f.token == k && f.target in s.lock && s.lock[f.target] == f)
  {
    hide WholeSets, Checks, Judged;
    assert CallOf(s, p);
    forall q | q in s.acquiring && q != p ensures s.acquiring[q].token != s.acquiring[p].token {
      assert s.drawn[s.acquiring[q].token] == q && s.drawn[s.acquiring[p].token] == p;
    }
    forall t | t in s.lock && s.lock[t].owner == p && s.lock[t].token == s.acquiring[p].token ensures s.lock[t] in Stopped(s, p).due {
      assert s.lock[t] !in s.leaked;
    }
  }

  /** Any processes, none of which has done anything yet. */
  function Fresh(live: set<Pid>): State {
    State(live, map[], map[], map[], map[], map[], map[], {}, {}, {}, {}, map[], 0)
  }

  datatype Event = Event(pid: Pid, action: Action)

  function Replay(s: State, events: seq<Event>): Option<State> {
    if events == [] then Some(s)
    else
      match Replay(s, events[..|events| - 1])
      case Some(u) => Do(u, events[|events| - 1].pid, events[|events| - 1].action)
      case None => None
  }

  /** Every unlink of the run looked again, and none was blind. */
  ghost predicate CarefulRun(s: State, events: seq<Event>) {
    events == [] ||
    var init, last := events[..|events| - 1], events[|events| - 1];
    CarefulRun(s, init) && (Replay(s, init).Some? ==> Careful(Replay(s, init).value, last.pid, last.action))
  }

  /**
   In every interleaving of acquiring, reclaiming, releasing in either way and dying, no two live lock
   sets share a target unless a checked release was tried on one of them. Comparing, judging and
   unlinking may be one step, or separate steps with a second look before the unlink.
   */
  lemma {:induction false} NoTwoLiveSetsShare(live: set<Pid>, events: seq<Event>)
    requires Replay(Fresh(live), events).Some? && CarefulRun(Fresh(live), events)
    ensures Inv(Replay(Fresh(live), events).value) && Excluded(Replay(Fresh(live), events).value)
  {
    hide Inv, Do, Excluded, Careful;
    if events == [] {
      FreshInv(live);
    } else {
      var init := events[..|events| - 1];
      NoTwoLiveSetsShare(live, init);
      StepKeeps(Replay(Fresh(live), init).value, events[|events| - 1].pid, events[|events| - 1].action, Replay(Fresh(live), events).value);
    }
    InvExcludes(Replay(Fresh(live), events).value);
  }

  /** In every interleaving, a token whose call is over and of which nothing is due or failed to go has a whole lock set or no lock. */
  lemma EveryCallIsAllOrNothing(live: set<Pid>, events: seq<Event>, p: Pid, k: nat)
    requires Replay(Fresh(live), events).Some? && CarefulRun(Fresh(live), events)
    requires var s := Replay(Fresh(live), events).value;
             p in s.live && NoCall(s, k) && (forall f | f in s.due + s.leaked :: f.owner != p || f.token != k)
    ensures var s := Replay(Fresh(live), events).value;
            if k in s.sets && s.sets[k].owner == p
            then k in s.attempted || forall t | t in s.sets[k].targets :: t in s.lock && s.lock[t] == File(p, k, t)
            else forall t | t in s.lock :: s.lock[t].owner != p || s.lock[t].token != k
  {
    hide Inv, Do;
    NoTwoLiveSetsShare(live, events);
    var s := Replay(Fresh(live), events).value;
    AllOrNothing(s, p, k);
    if k in s.sets && s.sets[k].owner != p {
      OthersToken(s, p, k);
    }
  }

  lemma OthersToken(s: State, p: Pid, k: nat)
    requires Inv(s) && k in s.sets && s.sets[k].owner != p
    ensures forall t | t in s.lock :: s.lock[t].owner != p || s.lock[t].token != k
  {
    assert forall t | t in s.lock :: DrawnBy(s, s.lock[t]);
  }

  lemma FreshInv(live: set<Pid>)
    ensures Inv(Fresh(live))
  {
  }

  // ---- unlinking without looking -----------------------------------------------------------

  /**
   When the unlink comes as a step of its own, it keeps every live lock in place exactly when the lock
   then under that name is not one a live process holds.
   */
  lemma SplitUnlinkSafeIff(s: State, p: Pid, s': State)
    requires Inv(s) && Do(s, p, UnlinkJudged) == Some(s')
    ensures Inv(s') <==>
            var t := s.acquiring[p].targets[s.acquiring[p].done];
            t in s.lock ==> s.lock[t] !in s.held || s.lock[t].owner !in s.live
  {
    var a := s.acquiring[p];
    var t := a.targets[a.done];
    PhaseIsOwn(s, p);
    if t in s.lock && s.lock[t] in s.held && s.lock[t].owner in s.live {
      LostIsNotOwned(s, t, s');
    } else {
      UnlinkKeeps(s, p, t, ReclaimDropping(a.phase.next, a.phase.work, true));
    }
  }

  lemma LostIsNotOwned(s: State, t: Target, s': State)
    requires Inv(s) && t in s.lock && s.lock[t] in s.held && s.lock[t].owner in s.live
    requires t !in s'.lock && s.lock[t] in s'.held && s'.live == s.live
    ensures !Inv(s')
  {
    assert s.lock[t].target == t;
    assert !Owned(s');
  }

  /** A plain release that unlinks a lock it cannot read is safe exactly when that lock is its own or one no live process holds. */
  lemma BlindUnlinkSafeIff(s: State, p: Pid, f: File, s': State)
    requires Inv(s) && Do(s, p, UnlinkHeld(f, false, true)) == Some(s')
    ensures Inv(s') <==> Expendable(s, f)
  {
    hide Inv, Loses, Do;
    DueIsReleased(s, p, f, s');
    DueIsDrawn(s, f);
    TokenIsFile(s, f.target, f);
    if Expendable(s, f) {
      UnlinkedLoses(s, f, false, true);
      LosingKeeps(s, f, s');
    } else {
      LostIsNotOwned(s, f.target, s');
    }
  }

  lemma DueIsReleased(s: State, p: Pid, f: File, s': State)
    requires Do(s, p, UnlinkHeld(f, false, true)) == Some(s')
    ensures p in s.live && f in s.due && f.owner == p && s' == Unlinked(s, f, false, true)
  {
  }

  // ---- what a failed checked release allows ------------------------------------------------

  ghost predicate Reaches(s: State, u: State) { exists events :: Replay(s, events) == Some(u) }

  lemma ReachesItself(s: State)
    ensures Reaches(s, s)
  {
    assert Replay(s, []) == Some(s);
  }

  lemma ReachesNext(s: State, u: State, p: Pid, action: Action, v: State)
    requires Reaches(s, u) && Do(u, p, action) == Some(v)
    ensures Reaches(s, v)
  {
    var events :| Replay(s, events) == Some(u);
    var more := events + [Event(p, action)];
    assert more[..|events|] == events;
    assert Replay(s, more) == Some(v);
  }

  // ---- a failed call can be cleared --------------------------------------------------------

  /** What releases still have to look at of one token. */
  function DueOf(s: State, p: Pid, k: nat): set<File> { set f | f in s.due && f.owner == p && f.token == k }

  lemma ReleaseStep(s: State, p: Pid, f: File)
    requires Inv(s) && p in s.live && Idle(s, p) && f in s.due && f.owner == p
    ensures var u := Unlinked(s, f, true, true);
            Do(s, p, UnlinkHeld(f, true, true)) == Some(u) && Inv(u) && OnlyReleased(s, f, u)
  {
    hide Inv, Unlinked, OnlyReleased;
    UnlinkedOnly(s, f);
    UnlinkHeldKeeps(s, p, f, true, true, Unlinked(s, f, true, true));
  }

  predicate OnlyReleased(s: State, f: File, u: State) {
    u == s.(due := s.due - {f}, held := u.held, lock := u.lock)
  }

  lemma UnlinkedOnly(s: State, f: File)
    ensures OnlyReleased(s, f, Unlinked(s, f, true, true))
  {
  }

  /** From any state in which it is idle, a process can get rid of every lock that a call of its own left behind. */
  lemma {:induction false} LeftoversCanBeReleased(s: State, u: State, p: Pid, k: nat)
    requires Reaches(s, u) && Inv(u) && p in u.live && Idle(u, p) && k !in u.sets && NoCall(u, k)
    requires forall f | f in u.leaked :: f.owner != p || f.token != k
    ensures exists v :: Reaches(s, v) && v.sets == u.sets && forall t | t in v.lock :: v.lock[t].owner != p || v.lock[t].token != k
    decreases |DueOf(u, p, k)|
  {
    hide Inv, Do, Reaches, Unlinked;
    if DueOf(u, p, k) == {} {
      AllOrNothing(u, p, k);
      assert forall f | f in u.due && f.owner == p && f.token == k :: f in DueOf(u, p, k);
    } else {
      var f :| f in DueOf(u, p, k);
      ReleaseStep(u, p, f);
      var v := Unlinked(u, f, true, true);
      assert DueOf(v, p, k) == DueOf(u, p, k) - {f};
      ReachesNext(s, u, p, UnlinkHeld(f, true, true), v);
      LeftoversCanBeReleased(s, v, p, k);
    }
  }

  // ---- a target that was lost --------------------------------------------------------------

  /** A call that has begun and finds no claim. */
  function Started(u: State, p: Pid, targets: seq<Target>): State {
    u.(acquiring := u.acquiring[p := Acquisition(u.nextToken, targets, 0, 0, Linking)],
       drawn := u.drawn[u.nextToken := p], nextToken := u.nextToken + 1)
  }

  lemma BeginStep(u: State, p: Pid, targets: seq<Target>)
    requires p in u.live && Idle(u, p) && targets != [] && DistinctTargets(targets)
    ensures Do(u, p, Begin(targets)) == Some(At(Started(u, p, targets), p, Clearing))
  {
    var begun := Acquisition(u.nextToken, targets, 0, 0, Clearing);
    assert At(Started(u, p, targets), p, Clearing).acquiring == u.acquiring[p := begun];
  }

  /** No work name is in the way, and no claim. */
  lemma ClearSteps(u: State, p: Pid, t: Target)
    requires p in u.live && p in u.acquiring && WorksOn(u, t) == {} && t !in u.claim
    requires var a := u.acquiring[p]; a.done < |a.targets| && a.targets[a.done] == t
    ensures Do(At(u, p, Clearing), p, ClearWork) == Some(At(u, p, Claiming))
    ensures Do(At(u, p, Claiming), p, LookForClaim) == Some(At(u, p, Linking))
  {
    var s1, s2, s3 := At(u, p, Clearing), At(u, p, Claiming), At(u, p, Linking);
    assert WorksOn(s1, t) == {};
    assert s1.works - {} == s1.works;
    assert s2.acquiring == At(s1, p, Claiming).acquiring && s3.acquiring == At(s2, p, Linking).acquiring;
  }

  /** The first three steps of such a call. */
  lemma ReachesLinking(s: State, u: State, p: Pid, targets: seq<Target>)
    requires Reaches(s, u) && p in u.live && Idle(u, p) && targets != [] && DistinctTargets(targets)
    requires targets[0] !in u.claim && WorksOn(u, targets[0]) == {}
    ensures Reaches(s, Started(u, p, targets))
  {
    hide Do, Reaches;
    var v := Started(u, p, targets);
    BeginStep(u, p, targets);
    ReachesNext(s, u, p, Begin(targets), At(v, p, Clearing));
    ClearSteps(v, p, targets[0]);
    ReachesNext(s, At(v, p, Clearing), p, ClearWork, At(v, p, Claiming));
    ReachesNext(s, At(v, p, Claiming), p, LookForClaim, At(v, p, Linking));
    assert At(v, p, Linking) == v;
  }

  lemma ReachesLinked(s: State, u: State, p: Pid)
    requires Reaches(s, u) && p in u.live && p in u.acquiring && u.acquiring[p].phase == Linking
    requires var a := u.acquiring[p]; a.done < |a.targets| && a.targets[a.done] !in u.lock
    ensures Reaches(s, Linked(u, p, u.acquiring[p], true))
  {
    ReachesNext(s, u, p, LinkCandidate(true), Linked(u, p, u.acquiring[p], true));
  }

  /**
   Once a live set has lost a target it was to hold, and the name is free, any other process that is
   idle can lock it: the two sets then share the target. So a set that stays active after a checked
   release no longer excludes anybody.
   */
  lemma LostTargetCanBeShared(s: State, k: nat, t: Target, q: Pid)
    requires Inv(s) && LiveSet(s, k) && t in s.sets[k].targets && !Holds(s, k, t)
    requires q in s.live && Idle(s, q) && t !in s.lock && t !in s.claim && WorksOn(s, t) == {}
    ensures k in s.attempted
    ensures exists u :: Reaches(s, u) && Shared(u, k, s.nextToken, t)
  {
    hide Reaches, Do;
    ReachesItself(s);
    ReachesLinking(s, s, q, [t]);
    var u := Started(s, q, [t]);
    ReachesLinked(s, u, q);
    var v := Linked(u, q, u.acquiring[q], true);
    assert v.sets == s.sets[s.nextToken := LockSet(q, [t])] && v.live == s.live;
    assert Shared(v, k, s.nextToken, t);
  }
}
