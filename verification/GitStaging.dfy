/**
 Staging project paths in the Git index: a private index is prepared and checked against the exact
 selection, then put in place of the live one under index.lock, and taken back if anything goes wrong.
 Other writers honour index.lock and may act between any two steps.
 */
module GitStaging {
  import opened Common

  // ---- the index ---------------------------------------------------------------------------

  datatype Key = Key(path: string, stage: int)

  /** A blob's name, taken to be injective in its bytes. */
  datatype ObjectId = BlobId(bytes: string)

  datatype Record = Record(mode: string, blob: ObjectId)

  type Index = map<Key, Record>

  datatype Snapshot = Missing | Present(entries: Index, mode: int)

  function EntriesOf(s: Snapshot): Index { if s.Present? then s.entries else map[] }

  // ---- the repository and its other writers ------------------------------------------------

  /** index.lock: ours is open while we write it, and renamed or unlinked only once it is synced and closed. */
  datatype Lock = Free | Ours(contents: Option<Index>, open: bool) | Theirs

  datatype Move = TakeLock | WriteIndex(next: Snapshot) | DropLock

  /** What these moves make of the index and its lock; they write only under their own lock. */
  function Acted(index: Snapshot, lock: Lock, moves: seq<Move>): (Snapshot, Lock) {
    if moves == [] then (index, lock)
    else
      var (i, l) := Acted(index, lock, moves[..|moves| - 1]);
      match moves[|moves| - 1]
      case TakeLock => (i, if l.Free? then Theirs else l)
      case DropLock => (i, if l.Theirs? then Free else l)
      case WriteIndex(next) => (if l.Theirs? then next else i, l)
  }

  /** What the others do before our next step, and whether that step then happens. */
  datatype Turn = Turn(moves: seq<Move>, happens: bool)

  datatype Write = OurWrite(before: Snapshot, next: Snapshot) | TheirWrite(next: Snapshot)

  function OurWrites(writes: seq<Write>): seq<Write> {
    if writes == [] then []
    else
      var rest := OurWrites(writes[..|writes| - 1]);
      var last := writes[|writes| - 1];
      if last.OurWrite? then rest + [last] else rest
  }

  /** Nobody else wrote. */
  predicate Undisturbed(writes: seq<Write>) { forall i | 0 <= i < |writes| :: writes[i].OurWrite? }

  /** What is in place once these writes are made on top of `s`. */
  function After(s: Snapshot, writes: seq<Write>): Snapshot {
    if writes == [] then s else writes[|writes| - 1].next
  }

  lemma {:induction false} OursConcat(a: seq<Write>, b: seq<Write>)
    ensures OurWrites(a + b) == OurWrites(a) + OurWrites(b)
  {
    if b == [] {
      assert a + b == a;
    } else {
      assert (a + b)[..|a + b| - 1] == a + b[..|b| - 1];
      OursConcat(a, b[..|b| - 1]);
    }
  }

  /** Between `w0` and `w1` our own writes were `ours`, and they and the others' took the index from `from` to `now`. */
  ghost predicate Wrote(from: Snapshot, w0: seq<Write>, now: Snapshot, w1: seq<Write>, ours: seq<Write>) {
    w0 <= w1 && now == After(from, w1[|w0|..]) && OurWrites(w1[|w0|..]) == ours
  }

  lemma WroteNothing(s: Snapshot, w: seq<Write>)
    ensures Wrote(s, w, s, w, [])
  {
    assert w[|w|..] == [];
  }

  lemma WroteOne(before: Snapshot, next: Snapshot, w: seq<Write>)
    ensures Wrote(before, w, next, w + [OurWrite(before, next)], [OurWrite(before, next)])
  {
    assert (w + [OurWrite(before, next)])[|w|..] == [OurWrite(before, next)];
    assert [OurWrite(before, next)][..0] == [];
  }

  lemma TheyWrote(s: Snapshot, w: seq<Write>, now: Snapshot, w': seq<Write>, next: Snapshot)
    requires Wrote(s, w, now, w', [])
    ensures Wrote(s, w, next, w' + [TheirWrite(next)], [])
  {
    var more := (w' + [TheirWrite(next)])[|w|..];
    assert more == w'[|w|..] + [TheirWrite(next)];
    assert more[..|more| - 1] == w'[|w|..];
  }

  /** Two stretches of writing are one. */
  lemma WroteOn(from: Snapshot, w0: seq<Write>, mid: Snapshot, w1: seq<Write>, now: Snapshot, w2: seq<Write>, a: seq<Write>, b: seq<Write>)
    requires Wrote(from, w0, mid, w1, a) && Wrote(mid, w1, now, w2, b)
    ensures Wrote(from, w0, now, w2, a + b)
  {
    assert w2[|w0|..] == w1[|w0|..] + w2[|w1|..];
    OursConcat(w1[|w0|..], w2[|w1|..]);
  }

  /** With nobody else about, our writes are all there is. */
  lemma {:induction false} AloneWrote(from: Snapshot, w0: seq<Write>, now: Snapshot, w1: seq<Write>, ours: seq<Write>)
    requires Wrote(from, w0, now, w1, ours) && Undisturbed(w1[|w0|..])
    ensures now == After(from, ours)
  {
    UndisturbedAreOurs(w1[|w0|..]);
  }

  lemma {:induction false} UndisturbedAreOurs(writes: seq<Write>)
    requires Undisturbed(writes)
    ensures OurWrites(writes) == writes
  {
    if writes != [] {
      var init := writes[..|writes| - 1];
      assert forall i | 0 <= i < |init| :: init[i] == writes[i];
      UndisturbedAreOurs(init);
    }
  }

  lemma Units(w: Write)
    ensures [] + [w] == [w] == [w] + []
  {
  }

  class Repository {
    var index: Snapshot
    var lock: Lock
    var schedule: seq<Turn>
    /** The private index and its objects exist; the authoring operation lock is held. */
    var temporary: bool
    var guarded: bool
    /** Every change of the live index so far. */
    ghost var writes: seq<Write>
    /** How many of our steps failed; and that, together with before how many of them the others acted. */
    ghost var failed: nat
    ghost var troubles: nat
    /** We have removed an index.lock that was not ours. */
    ghost var trespassed: bool

    constructor (index: Snapshot, schedule: seq<Turn>)
      ensures this.index == index && lock == Free && this.schedule == schedule && writes == [] && !trespassed
      ensures failed == troubles == 0 && !temporary && guarded
    {
      this.temporary := false;
      this.guarded := true;
      this.index := index;
      this.lock := Free;
      this.schedule := schedule;
      this.writes := [];
      this.failed := 0;
      this.troubles := 0;
      this.trespassed := false;
    }

    /** Nobody else acts any more, and nothing fails. */
    predicate Calm()
      reads this
    {
      schedule == []
    }

    method Others(moves: seq<Move>)
      modifies this`index, this`lock, this`writes
      ensures old(lock).Ours? ==> lock == old(lock) && index == old(index) && writes == old(writes)
      ensures !old(lock).Ours? ==> !lock.Ours?
      ensures (index, lock) == Acted(old(index), old(lock), moves)
      ensures Wrote(old(index), old(writes), index, writes, [])
    {
      WroteNothing(index, writes);
      for i := 0 to |moves|
        invariant old(lock).Ours? ==> lock == old(lock) && index == old(index) && writes == old(writes)
        invariant !old(lock).Ours? ==> !lock.Ours?
        invariant (index, lock) == Acted(old(index), old(lock), moves[..i])
        invariant Wrote(old(index), old(writes), index, writes, [])
      {
        assert moves[..i + 1][..i] == moves[..i];
        match moves[i]
        case TakeLock => lock := if lock.Free? then Theirs else lock;
        case DropLock => lock := if lock.Theirs? then Free else lock;
        case WriteIndex(next) =>
          if lock.Theirs? {
            TheyWrote(old(index), old(writes), index, writes, next);
            index := next;
            writes := writes + [TheirWrite(next)];
          }
      }
      assert moves[..|moves|] == moves;
    }

    method Step() returns (ok: bool)
      modifies this`index, this`lock, this`writes, this`schedule, this`failed, this`troubles
      ensures old(lock).Ours? ==> lock == old(lock) && index == old(index) && writes == old(writes)
      ensures !old(lock).Ours? ==> !lock.Ours?
      ensures Wrote(old(index), old(writes), index, writes, [])
      ensures old(schedule) != [] ==>
                && (index, lock) == Acted(old(index), old(lock), old(schedule)[0].moves)
                && ok == old(schedule)[0].happens && schedule == old(schedule)[1..]
      ensures failed == old(failed) + if ok then 0 else 1
      ensures troubles >= old(troubles) + (if ok then 0 else 1) + (if lock == old(lock) && index == old(index) then 0 else 1)
      ensures old(Calm()) ==> Calm() && troubles == old(troubles)
    {
      WroteNothing(index, writes);
      if schedule == [] {
        return true;
      }
      var turn := schedule[0];
      schedule := schedule[1..];
      Others(turn.moves);
      ok := turn.happens;
      failed := failed + if ok then 0 else 1;
      troubles := troubles + (if ok then 0 else 1) + if turn.moves == [] then 0 else 1;
    }

    /** Create index.lock, which only succeeds when there is none. */
    method OpenLock() returns (ok: bool)
      requires !lock.Ours?
      modifies this`index, this`lock, this`writes, this`schedule, this`failed, this`troubles
      ensures if ok then lock == Ours(None, true) else !lock.Ours?
      ensures failed >= old(failed)
      ensures ok ==> failed == old(failed) && (old(lock).Free? || troubles > old(troubles))
      ensures Wrote(old(index), old(writes), index, writes, [])
      ensures troubles >= old(troubles) + if index == old(index) then 0 else 1
      ensures !ok && old(lock).Free? ==> troubles > old(troubles)
      ensures old(Calm()) ==> Calm() && troubles == old(troubles)
    {
      ok := Step();
      ok := ok && lock.Free?;
      if ok {
        lock := Ours(None, true);
      }
    }

    method WriteLock(contents: Index) returns (ok: bool)
      requires lock.Ours? && lock.open
      modifies this`index, this`lock, this`writes, this`schedule, this`failed, this`troubles
      ensures lock == (if ok then Ours(Some(contents), true) else old(lock)) && index == old(index) && writes == old(writes)
      ensures failed == old(failed) + if ok then 0 else 1
      ensures troubles >= old(troubles) + if ok then 0 else 1
      ensures old(Calm()) ==> Calm() && troubles == old(troubles)
    {
      ok := Step();
      if ok {
        lock := Ours(Some(contents), true);
      }
    }

    /** Sync what was written to our lock, and close it. */
    method CloseLock() returns (ok: bool)
      requires lock.Ours? && lock.open
      modifies this`index, this`lock, this`writes, this`schedule, this`failed, this`troubles
      ensures lock == (if ok then Ours(old(lock).contents, false) else old(lock)) && index == old(index) && writes == old(writes)
      ensures failed == old(failed) + if ok then 0 else 1
      ensures troubles >= old(troubles) + if ok then 0 else 1
      ensures old(Calm()) ==> Calm() && troubles == old(troubles)
    {
      ok := Step();
      if ok {
        lock := Ours(lock.contents, false);
      }
    }

    /** Move index.lock over the index. */
    method RenameLock(mode: int) returns (ok: bool)
      requires lock.Ours? ==> !lock.open && lock.contents.Some?
      modifies this`index, this`lock, this`writes, this`schedule, this`failed, this`troubles, this`trespassed
      ensures !old(lock).Ours? ==> !ok
      ensures ok ==> failed == old(failed)
      ensures failed >= old(failed) + if ok || !old(lock).Ours? then 0 else 1
      ensures old(lock).Ours? && !ok ==> lock == old(lock) && index == old(index) && writes == old(writes) && trespassed == old(trespassed)
      ensures ok ==>
                && lock == Free && index == Present(old(lock).contents.value, mode) && trespassed == old(trespassed)
                && writes == old(writes) + [OurWrite(old(index), index)]
      ensures troubles >= old(troubles) + if ok || !old(lock).Ours? then 0 else 1
      ensures old(Calm()) ==> Calm() && troubles == old(troubles)
    {
      ok := Step();
      ok := ok && lock.Ours?;
      if ok {
        writes := writes + [OurWrite(index, Present(lock.contents.value, mode))];
        index := Present(lock.contents.value, mode);
        lock := Free;
      }
    }

    method UnlinkIndex() returns (ok: bool)
      requires lock.Ours?
      modifies this`index, this`lock, this`writes, this`schedule, this`failed, this`troubles
      ensures lock == old(lock)
      ensures !ok ==> index == old(index) && writes == old(writes)
      ensures ok ==> index == Missing && writes == old(writes) + [OurWrite(old(index), Missing)]
      ensures failed == old(failed) + if ok then 0 else 1
      ensures troubles >= old(troubles) + if ok then 0 else 1
      ensures old(Calm()) ==> Calm() && troubles == old(troubles)
    {
      ok := Step();
      if ok {
        writes := writes + [OurWrite(index, Missing)];
        index := Missing;
      }
    }

    /** Remove whatever index.lock there is. */
    method UnlinkLock() returns (ok: bool)
      requires lock.Ours? ==> !lock.open
      modifies this`index, this`lock, this`writes, this`schedule, this`failed, this`troubles, this`trespassed
      ensures old(lock).Ours? ==> index == old(index) && writes == old(writes) && trespassed == old(trespassed)
      ensures old(lock).Ours? ==> lock == if ok then Free else old(lock)
      ensures ok && old(lock).Theirs? ==> trespassed || troubles > old(troubles)
      ensures failed == old(failed) + if ok then 0 else 1
      ensures troubles >= old(troubles) + if ok then 0 else 1
      ensures old(Calm()) ==> Calm() && troubles == old(troubles)
    {
      ok := Step();
      if ok {
        trespassed := trespassed || lock.Theirs?;
        lock := Free;
      }
    }

    method IndexMatches(s: Snapshot) returns (matches: bool)
      modifies this`index, this`lock, this`writes, this`schedule, this`failed, this`troubles
      ensures old(lock).Ours? ==> lock == old(lock) && index == old(index) && writes == old(writes)
      ensures !old(lock).Ours? ==> !lock.Ours?
      ensures Wrote(old(index), old(writes), index, writes, [])
      ensures matches ==> index == s && failed == old(failed)
      ensures failed >= old(failed)
      ensures troubles >= old(troubles) + (if matches || index != s then 0 else 1) + (if lock == old(lock) && index == old(index) then 0 else 1)
      ensures old(Calm()) ==> Calm() && troubles == old(troubles)
    {
      var read := Step();
      matches := read && index == s;
    }

    method RemoveTemporary() returns (removed: bool)
      modifies this`index, this`lock, this`writes, this`schedule, this`failed, this`troubles, this`temporary
      ensures old(lock).Ours? ==> lock == old(lock) && index == old(index) && writes == old(writes)
      ensures !old(lock).Ours? ==> !lock.Ours?
      ensures Wrote(old(index), old(writes), index, writes, [])
      ensures temporary == (old(temporary) && !removed)
      ensures failed == old(failed) + if removed then 0 else 1
      ensures troubles >= old(troubles) + (if removed then 0 else 1) + (if lock == old(lock) && index == old(index) then 0 else 1)
      ensures old(Calm()) ==> Calm() && troubles == old(troubles)
    {
      removed := Step();
      temporary := temporary && !removed;
    }

    method ReleaseGuard() returns (released: bool)
      modifies this`index, this`lock, this`writes, this`schedule, this`failed, this`troubles, this`guarded
      ensures old(lock).Ours? ==> lock == old(lock) && index == old(index) && writes == old(writes)
      ensures !old(lock).Ours? ==> !lock.Ours?
      ensures Wrote(old(index), old(writes), index, writes, [])
      ensures guarded == (old(guarded) && !released)
      ensures failed == old(failed) + if released then 0 else 1
      ensures troubles >= old(troubles) + (if released then 0 else 1) + (if lock == old(lock) && index == old(index) then 0 else 1)
      ensures old(Calm()) ==> Calm() && troubles == old(troubles)
    {
      released := Step();
      guarded := guarded && !released;
    }

    /** Discard our lock after a failure: close it if it is open, then unlink it. */
    method Discard() returns (safe: bool)
      requires lock.Ours?
      modifies this`index, this`lock, this`writes, this`schedule, this`failed, this`troubles, this`trespassed
      ensures index == old(index) && writes == old(writes) && trespassed == old(trespassed)
      ensures safe <==> !lock.Ours?
      ensures failed == old(failed) + if safe then 0 else 1
      ensures troubles >= old(troubles) + if safe then 0 else 1
      ensures old(Calm()) ==> Calm() && troubles == old(troubles)
    {
      if lock.open {
        var closed := CloseLock();
        if !closed {
          return false;
        }
      }
      safe := UnlinkLock();
    }

    /** The index is not what was expected: give the lock up, and try once more if that fails. */
    method Abandon() returns (safe: bool)
      requires lock.Ours? && lock.open
      modifies this`index, this`lock, this`writes, this`schedule, this`failed, this`troubles, this`trespassed
      ensures index == old(index) && writes == old(writes) && trespassed == old(trespassed)
      ensures safe <==> !lock.Ours?
      ensures if safe then failed <= old(failed) + 1 else failed == old(failed) + 2
      ensures troubles >= old(troubles) + if safe then 0 else 2
      ensures old(Calm()) ==> Calm() && troubles == old(troubles)
    {
      var closed := CloseLock();
      if closed {
        safe := UnlinkLock();
        if safe {
          return;
        }
      }
      safe := Discard();
    }

    /** Put `next` in place of the index, provided the index still is `original`. */
    method Publish(original: Snapshot, next: Index, mode: int) returns (published: bool, safe: bool)
      requires !lock.Ours?
      modifies this`index, this`lock, this`writes, this`schedule, this`failed, this`troubles, this`trespassed
      ensures trespassed == old(trespassed)
      ensures Wrote(old(index), old(writes), index, writes, if published then [OurWrite(original, Present(next, mode))] else [])
      ensures published || safe ==> !lock.Ours?
      ensures published && safe ==> failed == old(failed)
      ensures lock.Ours? ==> failed >= old(failed) + 2
      // what must have gone wrong for it to fail, or to leave anything else in place
      ensures troubles >= old(troubles) + if safe then 0 else if published then 1 else 2
      ensures published ==>
                troubles >= old(troubles) + (if safe then 0 else 1) + (if lock.Free? && index == Present(next, mode) then 0 else 1)
      ensures old(lock.Free? && index == original) && !published ==> troubles > old(troubles)
      ensures old(Calm()) ==> Calm() && troubles == old(troubles)
    {
      hide Wrote, Acted;
      ghost var s0, w0 := index, writes;
      var created := OpenLock();
      if !created {
        return false, true;
      }
      ghost var w1 := writes;
      var matches := IndexMatches(original);
      if !matches {
        safe := Abandon();
        return false, safe;
      }
      var ok := WriteLock(next);
      if ok {
        ok := CloseLock();
      }
      if ok {
        ok := RenameLock(mode);
      }
      if !ok {
        safe := Discard();
        return false, safe;
      }
      ghost var s2, w2 := index, writes;
      WroteOne(original, s2, w1);
      WroteOn(s0, w0, original, w1, s2, w2, [], [OurWrite(original, s2)]);
      var synced := Step();
      WroteOn(s0, w0, s2, w2, index, writes, [OurWrite(original, s2)], []);
      Units(OurWrite(original, s2));
      return true, synced;
    }

    /** Put `original` back, provided the index still is what was published. */
    method RollBackPublished(original: Snapshot, published: Index, mode: int) returns (ok: bool, ghost restored: bool)
      requires !lock.Ours? && (original.Present? ==> original.mode == mode)
      modifies this`index, this`lock, this`writes, this`schedule, this`failed, this`troubles, this`trespassed
      ensures trespassed == old(trespassed)
      ensures Wrote(old(index), old(writes), index, writes, if restored then [OurWrite(Present(published, mode), original)] else [])
      ensures ok ==> restored && index == original && failed == old(failed)
      ensures lock.Ours? ==> failed >= old(failed) + 2
      ensures troubles >= old(troubles)
      ensures old(lock.Free? && index == Present(published, mode)) && !(ok && lock.Free?) ==> troubles > old(troubles)
      ensures old(Calm()) ==> Calm() && troubles == old(troubles)
    {
      hide Wrote, Acted;
      restored := false;
      ghost var s0, w0 := index, writes;
      var created := OpenLock();
      if !created {
        return false, false;
      }
      ghost var s1, w1 := Present(published, mode), writes;
      var matches := IndexMatches(Present(published, mode));
      if !matches {
        var abandoned := Abandon();
        return false, false;
      }
      if original.Present? {
        ok := WriteLock(original.entries);
        if ok {
          ok := CloseLock();
        }
        if ok {
          ok := RenameLock(mode);
        }
        if !ok {
          var discarded := Discard();
          return false, false;
        }
      } else {
        ok := CloseLock();
        if ok {
          ok := UnlinkIndex();
        }
        if !ok {
          var discarded := Discard();
          return false, false;
        }
      }
      WroteOne(s1, original, w1);
      ghost var w2 := writes;
      WroteOn(s0, w0, s1, w1, original, w2, [], [OurWrite(s1, original)]);
      Units(OurWrite(s1, original));
      if original.Missing? {
        ok := UnlinkLock();
        if !ok {
          var discarded := Discard();
          return false, true;
        }
      }
      ok := Step();
      WroteOn(s0, w0, original, w2, index, writes, [OurWrite(s1, original)], []);
      if ok {
        ghost var s3, w3 := index, writes;
        ok := IndexMatches(original);
        WroteOn(s0, w0, s3, w3, index, writes, [OurWrite(s1, original)], []);
      }
      restored := true;
    }
  }

  // ---- what is to be staged ----------------------------------------------------------------

  /** One line of repository evidence; a rename or copy also has a source. */
  datatype Entry = Entry(path: string, source: Option<string>, index: char, worktree: char)

  datatype Evidence = Evidence(head: string, detached: bool, conflicts: bool, entries: seq<Entry>)

  /** A selected path as captured before staging. */
  datatype PathSnapshot = Deleted | Concrete(mode: string, bytes: string)

  function PathsOf(e: Entry): set<string> { if e.source.Some? then {e.path, e.source.value} else {e.path} }

  function ChangedPaths(entries: seq<Entry>): set<string> {
    set i, p | 0 <= i < |entries| && p in PathsOf(entries[i]) :: p
  }

  /** Both sides of every rename or copy are selected, or neither. */
  predicate WholeRenames(entries: seq<Entry>, selected: set<string>) {
    forall i | 0 <= i < |entries| && entries[i].source.Some? :: (entries[i].path in selected <==> entries[i].source.value in selected)
  }

  predicate ToStage(e: Entry, selected: set<string>) { e.worktree != ' ' && PathsOf(e) * selected != {} }

  function PathsToStage(entries: seq<Entry>, selected: set<string>): set<string> {
    set i, p | 0 <= i < |entries| && ToStage(entries[i], selected) && p in PathsOf(entries[i]) :: p
  }

  /** Everything staged was selected, so a snapshot of it was captured. */
  lemma StagedWithinSelection(entries: seq<Entry>, selected: set<string>)
    requires WholeRenames(entries, selected)
    ensures PathsToStage(entries, selected) <= selected
    ensures forall i | 0 <= i < |entries| && entries[i].worktree != ' ' && entries[i].path in selected ::
              PathsOf(entries[i]) <= PathsToStage(entries, selected)
  {
    forall i | 0 <= i < |entries| && entries[i].worktree != ' ' && entries[i].path in selected
      ensures PathsOf(entries[i]) <= PathsToStage(entries, selected)
    {
      assert entries[i].path in PathsOf(entries[i]) * selected;
    }
    forall p | p in PathsToStage(entries, selected) ensures p in selected {
      var i :| 0 <= i < |entries| && ToStage(entries[i], selected) && p in PathsOf(entries[i]);
      var q :| q in PathsOf(entries[i]) * selected;
      assert entries[i].source.Some? ==> (entries[i].path in selected <==> entries[i].source.value in selected);
    }
  }

  // ---- staging in the private index --------------------------------------------------------

  /** `update-index --force-remove`: the path goes, at every stage. */
  function Removed(m: Index, path: string): Index { map k | k in m && k.path != path :: m[k] }

  /** `update-index --add --cacheinfo`: the path is bound at stage 0 and nowhere else. */
  function Added(m: Index, path: string, mode: string, blob: ObjectId): Index {
    Removed(m, path)[Key(path, 0) := Record(mode, blob)]
  }

  function StagedOne(m: Index, path: string, s: PathSnapshot): Index {
    match s
    case Deleted => Removed(m, path)
    case Concrete(mode, bytes) => Added(m, path, mode, BlobId(bytes))
  }

  /** The path is bound to what was captured of it, or gone if it was deleted. */
  predicate BoundTo(m: Index, path: string, s: PathSnapshot) {
    match s
    case Deleted => forall k | k in m :: k.path != path
    case Concrete(mode, bytes) =>
      Key(path, 0) in m && m[Key(path, 0)] == Record(mode, BlobId(bytes)) && forall k | k in m && k.path == path :: k.stage == 0
  }

  /** Records of paths outside `selected` are the same, at every stage. */
  predicate Framed(before: Index, after: Index, selected: set<string>) {
    forall k | k in before.Keys + after.Keys && k.path !in selected :: k in before && k in after && before[k] == after[k]
  }

  lemma StagedOneBinds(m: Index, path: string, s: PathSnapshot, other: string, o: PathSnapshot)
    ensures BoundTo(StagedOne(m, path, s), path, s)
    ensures Framed(m, StagedOne(m, path, s), {path})
    ensures other != path && BoundTo(m, other, o) ==> BoundTo(StagedOne(m, path, s), other, o)
  {
  }

  lemma StagedOneFrames(before: Index, m: Index, selected: set<string>, path: string, s: PathSnapshot)
    requires Framed(before, m, selected) && path in selected
    ensures Framed(before, StagedOne(m, path, s), selected)
  {
    StagedOneBinds(m, path, s, path, s);
  }

  lemma NothingStaged(m: Index, selected: set<string>)
    ensures Framed(m, m, selected)
  {
  }

  /** The private index once every one of `paths` is bound to what was captured of it. */
  function StagedIndex(m: Index, paths: set<string>, snapshots: map<string, PathSnapshot>): Index {
    (map k | k in m && k.path !in paths :: m[k])
    + (map p | p in paths && p in snapshots && snapshots[p].Concrete? :: Key(p, 0) := Record(snapshots[p].mode, BlobId(snapshots[p].bytes)))
  }

  function Elements(list: seq<string>): set<string> { set p | p in list }

  function BlobsOf(paths: set<string>, snapshots: map<string, PathSnapshot>): set<ObjectId> {
    set p | p in paths && p in snapshots && snapshots[p].Concrete? :: BlobId(snapshots[p].bytes)
  }

  /** Binding every path and leaving all others alone fixes the index. */
  lemma BoundIsStaged(m: Index, next: Index, paths: set<string>, snapshots: map<string, PathSnapshot>)
    requires Framed(m, next, paths) && forall p | p in paths :: p in snapshots && BoundTo(next, p, snapshots[p])
    ensures next == StagedIndex(m, paths, snapshots)
  {
    var staged := StagedIndex(m, paths, snapshots);
    forall k ensures k in next <==> k in staged
      ensures k in next ==> next[k] == staged[k] {
      if k.path in paths {
        assert BoundTo(next, k.path, snapshots[k.path]);
        assert k in next ==> k == Key(k.path, 0);
      }
    }
  }

  /** Bind each path to its snapshot, with Git commands that may fail; the live repository is not involved. */
  method StageCaptured(captured: Index, paths: seq<string>, snapshots: map<string, PathSnapshot>, outcomes: seq<bool>)
    returns (ok: bool, next: Index, objects: set<ObjectId>)
    ensures Framed(captured, next, Elements(paths))
    ensures ok ==> forall i | 0 <= i < |paths| :: paths[i] in snapshots && BoundTo(next, paths[i], snapshots[paths[i]])
    ensures ok ==> next == StagedIndex(captured, Elements(paths), snapshots)
    ensures ok ==> objects == BlobsOf(Elements(paths), snapshots)
    ensures ok <==> (forall p | p in paths :: p in snapshots) && forall i | 0 <= i < |paths| && i < |outcomes| :: outcomes[i]
  {
    hide Framed, BoundTo, StagedOne, StagedIndex, BlobsOf;
    next, objects := captured, {};
    NoBlobs(snapshots);
    assert Elements(paths[..0]) == {};
    ghost var selected := Elements(paths);
    NothingStaged(captured, selected);
    var commands := outcomes;
    for i := 0 to |paths|
      invariant Framed(captured, next, selected)
      invariant forall j | 0 <= j < i :: paths[j] in snapshots && BoundTo(next, paths[j], snapshots[paths[j]])
      invariant objects == BlobsOf(Elements(paths[..i]), snapshots)
      invariant commands == if i <= |outcomes| then outcomes[i..] else []
      invariant forall j | 0 <= j < i && j < |outcomes| :: outcomes[j]
    {
      var path := paths[i];
      assert paths[..i + 1] == paths[..i] + [path];
      assert Elements(paths[..i + 1]) == Elements(paths[..i]) + {path};
      if path !in snapshots {
        return false, next, objects;
      }
      var happens := commands == [] || commands[0];
      commands := if commands == [] then [] else commands[1..];
      if !happens {
        return false, next, objects;
      }
      var s := snapshots[path];
      forall j | 0 <= j < i ensures BoundTo(StagedOne(next, path, s), paths[j], snapshots[paths[j]]) {
        StagedOneBinds(next, path, s, paths[j], snapshots[paths[j]]);
      }
      StagedOneBinds(next, path, s, path, s);
      StagedOneFrames(captured, next, selected, path, s);
      if s.Concrete? {
        objects := objects + {BlobId(s.bytes)};
      }
      MoreBlobs(Elements(paths[..i]), path, snapshots);
      next := StagedOne(next, path, s);
    }
    assert paths[..|paths|] == paths;
    BoundIsStaged(captured, next, selected, snapshots);
    ok := true;
  }

  lemma NoBlobs(snapshots: map<string, PathSnapshot>)
    ensures BlobsOf({}, snapshots) == {}
  {
  }

  lemma MoreBlobs(paths: set<string>, path: string, snapshots: map<string, PathSnapshot>)
    requires path in snapshots
    ensures BlobsOf(paths + {path}, snapshots) ==
            BlobsOf(paths, snapshots) + if snapshots[path].Concrete? then {BlobId(snapshots[path].bytes)} else {}
  {
  }

  // ---- the exact selection check -----------------------------------------------------------

  /** Renames whose both sides are selected are still paired in the prospective evidence. */
  predicate RenamesKept(before: seq<Entry>, prospective: seq<Entry>, selected: set<string>) {
    forall i | 0 <= i < |before| && before[i].source.Some? && before[i].path in selected && before[i].source.value in selected ::
      exists j :: 0 <= j < |prospective| && prospective[j].path == before[i].path && prospective[j].source == before[i].source
  }

  function StagedPaths(entries: seq<Entry>): set<string> {
    set i, p | 0 <= i < |entries| && entries[i].index !in {' ', '?'} && p in PathsOf(entries[i]) :: p
  }

  /** The one record of a selected path that was not deleted, and the blob it names. */
  predicate Captures(m: Index, objects: set<ObjectId>, path: string, s: PathSnapshot) {
    s.Concrete? ==> BoundTo(m, path, s) && BlobId(s.bytes) in objects
  }

  predicate SelectionHolds(before: Index, next: Index, selected: set<string>, snapshots: map<string, PathSnapshot>,
                           evidence: seq<Entry>, prospective: seq<Entry>, objects: set<ObjectId>, worktree: map<string, PathSnapshot>)
  {
    && Framed(before, next, selected)
    && RenamesKept(evidence, prospective, selected)
    && (forall p | p in selected :: p in StagedPaths(prospective) && (p in snapshots ==> Captures(next, objects, p, snapshots[p])))
    && (forall p | p in snapshots :: if snapshots[p].Deleted? then p !in worktree else p in worktree && worktree[p] == snapshots[p])
  }

  method CheckFrame(before: Index, next: Index, selected: set<string>) returns (ok: bool)
    ensures ok <==> Framed(before, next, selected)
  {
    var keys := before.Keys + next.Keys;
    ghost var seen: set<Key> := {};
    while keys != {}
      invariant keys + seen == before.Keys + next.Keys
      invariant forall k | k in seen && k.path !in selected :: k in before && k in next && before[k] == next[k]
      decreases keys
    {
      var k :| k in keys;
      if k.path !in selected && (k !in before || k !in next || before[k] != next[k]) {
        return false;
      }
      keys := keys - {k};
      seen := seen + {k};
    }
    ok := true;
  }

  method CheckSelected(next: Index, selected: set<string>, snapshots: map<string, PathSnapshot>, staged: set<string>, objects: set<ObjectId>)
    returns (ok: bool)
    ensures ok <==> forall p | p in selected :: p in staged && (p in snapshots ==> Captures(next, objects, p, snapshots[p]))
  {
    var paths := selected;
    while paths != {}
      invariant paths <= selected
      invariant forall p | p in selected - paths :: p in staged && (p in snapshots ==> Captures(next, objects, p, snapshots[p]))
      decreases paths
    {
      var p :| p in paths;
      if p !in staged {
        return false;
      }
      if p in snapshots && snapshots[p].Concrete? {
        var records := set k | k in next && k.path == p;
        if records != {Key(p, 0)} || next[Key(p, 0)].mode != snapshots[p].mode {
          if Key(p, 0) in records {
            assert records != {Key(p, 0)} ==> exists k :: k in records && k != Key(p, 0);
          } else {
            assert Key(p, 0) !in next;
          }
          return false;
        }
        var blob := next[Key(p, 0)].blob;
        assert Key(p, 0) in records;
        assert forall k | k in next && k.path == p :: k in records;
        if blob !in objects || blob.bytes != snapshots[p].bytes {
          return false;
        }
      }
      paths := paths - {p};
    }
    ok := true;
  }

  /** No path changed on disk since it was captured. */
  method CheckWorktree(snapshots: map<string, PathSnapshot>, worktree: map<string, PathSnapshot>) returns (ok: bool)
    ensures ok <==> forall p | p in snapshots :: if snapshots[p].Deleted? then p !in worktree else p in worktree && worktree[p] == snapshots[p]
  {
    var paths := snapshots.Keys;
    while paths != {}
      invariant paths <= snapshots.Keys
      invariant forall p | p in snapshots.Keys - paths :: if snapshots[p].Deleted? then p !in worktree else p in worktree && worktree[p] == snapshots[p]
      decreases paths
    {
      var p :| p in paths;
      if snapshots[p].Deleted? {
        if p in worktree {
          return false;
        }
      } else if p !in worktree || worktree[p] != snapshots[p] {
        return false;
      }
      paths := paths - {p};
    }
    ok := true;
  }

  method CheckSelection(before: Index, next: Index, selected: set<string>, snapshots: map<string, PathSnapshot>,
                        evidence: seq<Entry>, prospective: seq<Entry>, objects: set<ObjectId>, worktree: map<string, PathSnapshot>)
    returns (ok: bool)
    ensures ok <==> SelectionHolds(before, next, selected, snapshots, evidence, prospective, objects, worktree)
  {
    ok := CheckFrame(before, next, selected);
    if ok {
      ok := RenamesKept(evidence, prospective, selected);
    }
    if ok {
      ok := CheckSelected(next, selected, snapshots, StagedPaths(prospective), objects);
    }
    if ok {
      ok := CheckWorktree(snapshots, worktree);
    }
  }

  // ---- the whole call ----------------------------------------------------------------------

  datatype Result = Staged | NothingToStage | Refused | RolledBack | RollbackFailed

  /** What reading the repository again after publishing showed. */
  datatype Recheck = Unmoved | Moved | Threw

  /** What Git and the working tree answer along the way. */
  datatype Answers = Answers(
    before: Option<Evidence>,
    snapshots: Option<map<string, PathSnapshot>>,
    created: bool,
    commands: seq<bool>,
    prospective: Option<Evidence>,
    worktree: map<string, PathSnapshot>,
    recheck: Recheck)

  /** The snapshots are of the selected paths, each of them. */
  predicate SnapshotsFit(a: Answers, selected: set<string>) {
    a.snapshots.Some? ==> a.snapshots.value.Keys == selected
  }

  /** The checks that stand between a private index and the live one have passed. */
  predicate Checked(captured: Snapshot, next: Index, objects: set<ObjectId>, selected: set<string>, a: Answers) {
    && a.before.Some? && a.prospective.Some? && a.snapshots.Some?
    && !a.before.value.detached && !a.before.value.conflicts
    && selected <= ChangedPaths(a.before.value.entries) && WholeRenames(a.before.value.entries, selected)
    && SelectionHolds(EntriesOf(captured), next, selected, a.snapshots.value, a.before.value.entries, a.prospective.value.entries, objects, a.worktree)
  }

  /** The checked index in place of exactly the captured one; then the captured one back. */
  function OutAndBack(captured: Snapshot, next: Index, mode: int): seq<Write> {
    [OurWrite(captured, Present(next, mode)), OurWrite(Present(next, mode), captured)]
  }

  method InSomeOrder(paths: set<string>) returns (list: seq<string>)
    ensures forall p :: p in list <==> p in paths
    ensures Elements(list) == paths
  {
    list := [];
    var rest := paths;
    while rest != {}
      invariant rest <= paths && forall p :: p in list <==> p in paths - rest
      decreases rest
    {
      var p :| p in rest;
      list, rest := list + [p], rest - {p};
    }
  }

  /** What the private index will hold, and the objects made for it. */
  function Prospect(captured: Snapshot, selected: set<string>, a: Answers): (Index, set<ObjectId>)
    requires a.before.Some? && a.snapshots.Some?
  {
    var paths := PathsToStage(a.before.value.entries, selected);
    (StagedIndex(EntriesOf(captured), paths, a.snapshots.value), BlobsOf(paths, a.snapshots.value))
  }

  /** Git and the working tree raise no objection to this selection. */
  predicate Stageable(captured: Snapshot, selected: set<string>, a: Answers) {
    && a.before.Some? && a.snapshots.Some? && a.created && a.commands == []
    && PathsToStage(a.before.value.entries, selected) != {}
    && Checked(captured, Prospect(captured, selected, a).0, Prospect(captured, selected, a).1, selected, a)
  }

  /** The selection is sound and already staged. */
  predicate NothingToDo(selected: set<string>, a: Answers) {
    && a.before.Some? && !a.before.value.detached && !a.before.value.conflicts
    && selected <= ChangedPaths(a.before.value.entries) && WholeRenames(a.before.value.entries, selected)
    && PathsToStage(a.before.value.entries, selected) == {}
  }

  /** What the checks before publication came to. */
  datatype Preparation = Ready(next: Index, objects: set<ObjectId>) | Nothing | Stopped(result: Result, attempted: bool)

  /** Stage in a private index and check the result; the live index is only looked at. */
  method Prepare(repo: Repository, captured: Snapshot, selected: set<string>, a: Answers) returns (r: Preparation)
    requires !repo.lock.Ours? && SnapshotsFit(a, selected)
    modifies repo`index, repo`lock, repo`writes, repo`schedule, repo`failed, repo`troubles, repo`temporary
    ensures repo.temporary ==> old(repo.temporary) || r.Ready? || (r.Stopped? && r.attempted)
    ensures !repo.lock.Ours? && Wrote(old(repo.index), old(repo.writes), repo.index, repo.writes, [])
    ensures r.Ready? ==> Checked(captured, r.next, r.objects, selected, a)
    ensures r.Nothing? ==> a.before.Some? && PathsToStage(a.before.value.entries, selected) == {}
    ensures r.Stopped? ==> r.result == Refused || (r.result == RolledBack && r.attempted)
    ensures r.Ready? || (r.Stopped? && r.attempted) ==> a.created && a.snapshots.Some?
    ensures !r.Stopped? || r.attempted ==> repo.failed == old(repo.failed)
    ensures r.Stopped? && r.attempted ==> if r.result == RolledBack then a.commands != [] || a.prospective.None? else a.prospective.Some?
    ensures !r.Stopped? || r.attempted ==> repo.index == captured
    ensures r.Ready? || (r.Stopped? && r.attempted) ==> repo.temporary
    ensures r.Ready? ==> (r.next, r.objects) == Prospect(captured, selected, a)
    ensures repo.troubles >= old(repo.troubles) + if repo.lock == old(repo.lock) && repo.index == old(repo.index) then 0 else 1
    ensures old(repo.index) == captured && repo.troubles == old(repo.troubles) && Stageable(captured, selected, a) ==> r.Ready?
    ensures old(repo.index) == captured && repo.troubles == old(repo.troubles) && NothingToDo(selected, a) ==> r.Nothing?
    ensures old(repo.Calm()) ==> repo.Calm() && repo.troubles == old(repo.troubles)
  {
    hide SelectionHolds, Wrote, StagedIndex, BlobsOf, PathsToStage, ChangedPaths;
    WroteNothing(repo.index, repo.writes);
    if a.before.None? {
      return Stopped(Refused, false);
    }
    var matches := repo.IndexMatches(captured);
    if !matches || a.before.value.detached || a.before.value.conflicts {
      return Stopped(Refused, false);
    }
    var entries := a.before.value.entries;
    if !(selected <= ChangedPaths(entries)) || !WholeRenames(entries, selected) {
      return Stopped(Refused, false);
    }
    var paths := PathsToStage(entries, selected);
    if paths == {} {
      return Nothing;
    }
    if a.snapshots.None? || !a.created {
      return Stopped(Refused, false);
    }
    repo.temporary := true;
    StagedWithinSelection(entries, selected);
    var list := InSomeOrder(paths);
    var ok, next, objects := StageCaptured(EntriesOf(captured), list, a.snapshots.value, a.commands);
    if !ok || a.prospective.None? {
      return Stopped(RolledBack, true);
    }
    ok := CheckSelection(EntriesOf(captured), next, selected, a.snapshots.value, entries, a.prospective.value.entries, objects, a.worktree);
    return if ok then Ready(next, objects) else Stopped(Refused, true);
  }

  /** The answer the look after publishing calls for. */
  function Verdict(recheck: Recheck): Result {
    match recheck case Unmoved => Staged case Moved => RolledBack case Threw => Refused
  }

  /** Publish, look again, and take the publication back when the look says so. */
  method Replace(repo: Repository, captured: Snapshot, next: Index, mode: int, recheck: Recheck)
    returns (r: Result, published: bool, ghost length: nat, ghost safely: bool)
    requires !repo.lock.Ours? && (captured.Present? ==> captured.mode == mode)
    modifies repo`index, repo`lock, repo`writes, repo`schedule, repo`failed, repo`troubles, repo`trespassed
    ensures repo.trespassed == old(repo.trespassed)
    ensures length <= 2 && Wrote(old(repo.index), old(repo.writes), repo.index, repo.writes, OutAndBack(captured, next, mode)[..length])
    ensures published ==> length == 1 && (r == Staged || r == Refused)
    ensures !published ==> r == RollbackFailed || (r == RolledBack && length != 1)
    // `safely`: the index was published and its directory synced
    ensures r == Staged <==> safely && recheck == Unmoved
    ensures r == Refused <==> safely && recheck == Threw
    ensures published <==> r in {Staged, Refused}
    ensures r != RollbackFailed ==> !repo.lock.Ours?
    ensures r == RolledBack && length == 2 ==> repo.index == captured
    ensures safely ==> published || recheck == Moved
    ensures old(repo.schedule) != [] && !old(repo.schedule)[0].happens ==> r == RollbackFailed
    ensures published ==> repo.failed == old(repo.failed)
    // what must have gone wrong: a publication that is not kept is taken back unless something further fails
    ensures repo.troubles >= old(repo.troubles) + if r == RollbackFailed then (if length > 0 && !safely then 2 else 1) else 0
    ensures published ==> repo.troubles >= old(repo.troubles) + if repo.lock.Free? && repo.index == Present(next, mode) then 0 else 1
    ensures old(repo.lock.Free? && repo.index == captured) && repo.troubles == old(repo.troubles) ==>
              && safely && r == Verdict(recheck)
              && repo.lock.Free? && repo.index == if r == RolledBack then captured else Present(next, mode)
    ensures old(repo.Calm()) ==> repo.Calm() && repo.troubles == old(repo.troubles)
  {
    hide Wrote;
    var both := OutAndBack(captured, next, mode);
    assert both[..0] == [] && both[..1] == [both[0]] && both[..2] == [both[0]] + [both[1]];
    ghost var s0, w0 := repo.index, repo.writes;
    var ok := repo.Step();
    ghost var s1, w1 := repo.index, repo.writes;
    if !ok {
      return RollbackFailed, false, 0, false;
    }
    var out, safe := repo.Publish(captured, next, mode);
    ghost var s2, w2 := repo.index, repo.writes;
    WroteOn(s0, w0, s1, w1, s2, w2, [], if out then both[..1] else []);
    Units(both[0]);
    if !out {
      return if safe then RolledBack else RollbackFailed, false, 0, false;
    }
    if safe && recheck != Moved {
      return if recheck == Unmoved then Staged else Refused, true, 1, true;
    }
    ghost var restored;
    ok, restored := repo.RollBackPublished(captured, next, mode);
    WroteOn(s0, w0, s2, w2, repo.index, repo.writes, both[..1], if restored then [both[1]] else []);
    length := if restored then 2 else 1;
    return if ok then RolledBack else RollbackFailed, false, length, safe;
  }

  /** Clear up: remove the private index and give the operation lock back; take a publication back if either fails. */
  method Finish(repo: Repository, captured: Snapshot, out: Index, mode: int, published: bool, attempted: bool, result: Result, ghost before: nat)
    returns (r: Result, ghost length: nat)
    requires published ==> before == 1 && !repo.lock.Ours?
    requires before <= 2 && (captured.Present? ==> captured.mode == mode)
    modifies repo`index, repo`lock, repo`writes, repo`schedule, repo`failed, repo`troubles, repo`trespassed, repo`temporary, repo`guarded
    requires repo.guarded && repo.temporary == attempted && (published ==> attempted && result in {Staged, Refused})
    ensures repo.trespassed == old(repo.trespassed)
    ensures r in {Staged, NothingToStage} ==> !repo.temporary && !repo.guarded
    ensures r == RolledBack ==> !repo.temporary
    ensures before <= length <= 2 && (!published ==> length == before)
    ensures Wrote(old(repo.index), old(repo.writes), repo.index, repo.writes, OutAndBack(captured, out, mode)[before..length])
    ensures r == Staged || r == NothingToStage ==> r == result && length == before
    ensures r == RolledBack ==> (r == result && length == before) || (published && length == 2)
    ensures published ==> (r == result && length == 1 <==> !repo.temporary && !repo.guarded) && (r == result ==> length == 1)
    ensures r == Refused && length == 1 ==> r == result || !attempted
    ensures published && length == 2 ==> (r == RolledBack || r == RollbackFailed) && (r == RolledBack ==> repo.index == captured)
    ensures !attempted && !published && r != result ==> r == Refused
    ensures published && repo.troubles <= old(repo.troubles) + 1 && !repo.temporary && old(repo.lock.Free? && repo.index == Present(out, mode)) ==>
              r == result || r == RolledBack
    ensures r in {Staged, NothingToStage} ==> repo.failed == old(repo.failed)
    // what must have gone wrong: a publication is taken back with the clearing up that fails, unless something further does
    ensures repo.troubles >= old(repo.troubles) + if r == result then 0 else 1
    ensures published && length == 1 && r != result ==>
              repo.troubles >= old(repo.troubles) + 1 + if old(repo.lock.Free? && repo.index == Present(out, mode)) then 1 else 0
    ensures repo.troubles == old(repo.troubles) ==> r == result && repo.index == old(repo.index) && !repo.temporary && !repo.guarded
    ensures old(repo.Calm()) ==> repo.Calm() && repo.troubles == old(repo.troubles)
  {
    hide Wrote;
    r, length := result, before;
    ghost var both := OutAndBack(captured, out, mode);
    assert both[before..before] == [] && both[1..2] == [both[1]];
    ghost var s0, w0 := repo.index, repo.writes;
    WroteNothing(s0, w0);
    var live, removed := published, true;
    if attempted {
      removed := repo.RemoveTemporary();
    }
    ghost var s1, w1 := repo.index, repo.writes;
    var released := repo.ReleaseGuard();
    ghost var s2, w2 := repo.index, repo.writes;
    WroteNothing(s1, w1);
    Settle(s0, w0, s1, w1, s2, w2);
    if live && (!removed || !released) {
      var ok;
      ghost var restored;
      ok, restored := repo.RollBackPublished(captured, out, mode);
      live := false;
      WroteOn(s0, w0, s2, w2, repo.index, repo.writes, [], if restored then [both[1]] else []);
      Units(both[1]);
      length := if restored then 2 else before;
      r := if ok && removed then RolledBack else RollbackFailed;
    } else if !removed {
      r := RollbackFailed;
    } else if !released {
      r := if attempted then RollbackFailed else Refused;
    }
  }

  lemma Settle(s0: Snapshot, w0: seq<Write>, s1: Snapshot, w1: seq<Write>, s2: Snapshot, w2: seq<Write>)
    requires Wrote(s0, w0, s1, w1, []) && Wrote(s1, w1, s2, w2, [])
    ensures Wrote(s0, w0, s2, w2, [])
  {
    WroteOn(s0, w0, s1, w1, s2, w2, [], []);
    var none: seq<Write> := [];
    assert none + none == none;
  }

  /** With nobody else about, the captured index was live when we began and our writes say what is live now. */
  lemma Alone(s0: Snapshot, w0: seq<Write>, captured: Snapshot, w1: seq<Write>, s2: Snapshot, w2: seq<Write>, now: Snapshot, w: seq<Write>,
              a: seq<Write>, b: seq<Write>, next: Index, mode: int, length: nat)
    requires length <= 2 && Wrote(s0, w0, captured, w1, []) && Wrote(captured, w1, s2, w2, a) && Wrote(s2, w2, now, w, b)
    requires Undisturbed(w[|w0|..])
    requires Wrote(s0, w0, now, w, OutAndBack(captured, next, mode)[..length])
    ensures s0 == captured && now == if length == 1 then Present(next, mode) else captured
  {
    assert w1[|w0|..] == w[|w0|..][..|w1| - |w0|];
    AloneWrote(s0, w0, captured, w1, []);
    AloneWrote(s0, w0, now, w, OutAndBack(captured, next, mode)[..length]);
  }

  /** Prepare, replace, finish. `next` and `objects` are what was checked, `length` how many of our two writes were made. */
  method Stage(repo: Repository, captured: Snapshot, mode: int, selected: set<string>, a: Answers)
    returns (r: Result, ghost next: Index, ghost objects: set<ObjectId>, ghost length: nat, ghost safely: bool)
    requires !repo.lock.Ours? && (captured.Present? ==> captured.mode == mode) && SnapshotsFit(a, selected)
    requires !repo.temporary && repo.guarded
    modifies repo
    ensures repo.trespassed == old(repo.trespassed)
    ensures old(repo.writes) <= repo.writes
    // all we ever write: the checked index in place of exactly the captured one, and the captured one back
    ensures length <= 2 && Wrote(old(repo.index), old(repo.writes), repo.index, repo.writes, OutAndBack(captured, next, mode)[..length])
    ensures length > 0 ==> Checked(captured, next, objects, selected, a) && (next, objects) == Prospect(captured, selected, a)
    // what the answer says of it
    ensures r == Staged ==> length == 1 && a.recheck == Unmoved
    ensures r in {Staged, NothingToStage} ==> !repo.temporary && !repo.guarded
    ensures r in {Staged, NothingToStage} ==> repo.failed == old(repo.failed)
    ensures r == NothingToStage ==> length == 0 && a.before.Some? && PathsToStage(a.before.value.entries, selected) == {}
    ensures r == RolledBack ==> length != 1
    // `safely`: published with its directory synced; a refusal leaves the new index live in this one case
    ensures r == Refused && length == 1 <==> safely && a.recheck == Threw && !repo.temporary && !repo.guarded
    ensures (r in {Staged, NothingToStage, RolledBack} || length == 1) && Undisturbed(repo.writes[|old(repo.writes)|..]) ==>
              old(repo.index) == captured && repo.index == if length == 1 then Present(next, mode) else captured
    // what must have gone wrong: a publication is only left behind when taking it back failed as well
    ensures r == RollbackFailed ==> repo.troubles > old(repo.troubles)
    ensures length == 1 && r != Verdict(a.recheck) ==> repo.troubles >= old(repo.troubles) + if safely && a.recheck == Moved then 1 else 2
    ensures repo.troubles >= old(repo.troubles)
    ensures old(repo.Calm()) ==> repo.Calm() && repo.troubles == old(repo.troubles)
    // nothing going wrong and nobody else about
    ensures old(repo.index) == captured && repo.troubles == old(repo.troubles) && NothingToDo(selected, a) ==> r == NothingToStage
    ensures old(repo.lock.Free? && repo.index == captured) && repo.troubles == old(repo.troubles) && Stageable(captured, selected, a) ==>
              && r == Verdict(a.recheck)
              && safely && !repo.temporary && !repo.guarded
              && repo.index == if r == RolledBack then captured else Present(Prospect(captured, selected, a).0, mode)
  {
    hide SelectionHolds, Wrote, Prospect, Stageable, Checked, NothingToDo, SnapshotsFit, Undisturbed;
    next, objects, length, safely := map[], {}, 0, false;
    ghost var s0, w0 := repo.index, repo.writes;
    var prepared := Prepare(repo, captured, selected, a);
    ghost var s1, w1 := repo.index, repo.writes;
    var published := false;
    var attempted := prepared.Ready? || (prepared.Stopped? && prepared.attempted);
    var out := map[];
    match prepared {
      case Nothing =>
        r := NothingToStage;
        WroteNothing(s1, w1);
      case Stopped(result, _) =>
        r := result;
        WroteNothing(s1, w1);
      case Ready(staged, blobs) =>
        next, objects, out := staged, blobs, staged;
        r, published, length, safely := Replace(repo, captured, staged, mode, a.recheck);
    }
    ghost var s2, w2 := repo.index, repo.writes;
    ghost var both := OutAndBack(captured, next, mode);
    assert both[..0] == [];
    WroteOn(s0, w0, s1, w1, s2, w2, [], both[..length]);
    assert [] + both[..length] == both[..length];
    ghost var before := length;
    r, length := Finish(repo, captured, out, mode, published, attempted, r, length);
    WroteOn(s0, w0, s2, w2, repo.index, repo.writes, both[..before], both[before..length]);
    assert both[..before] + both[before..length] == both[..length];
    Longer(s0, w0, repo.index, repo.writes, both[..length]);
    if (r in {Staged, NothingToStage, RolledBack} || length == 1) && Undisturbed(repo.writes[|w0|..]) {
      Alone(s0, w0, captured, w1, s2, w2, repo.index, repo.writes, both[..before], both[before..length], next, mode, length);
    }
  }

  lemma Longer(s0: Snapshot, w0: seq<Write>, s1: Snapshot, w1: seq<Write>, ours: seq<Write>)
    requires Wrote(s0, w0, s1, w1, ours)
    ensures w0 <= w1
  {
  }

  // ---- a refusal that leaves the new index live --------------------------------------------

  const FILE := Key("scene.json", 0)
  const OLD_INDEX := map[FILE := Record("100644", BlobId("old"))]
  const NEW_INDEX := map[FILE := Record("100644", BlobId("new"))]
  const CAPTURED := Present(OLD_INDEX, 420)
  const SELECTED := {"scene.json"}
  const CHANGED := Entry("scene.json", None, ' ', 'M')
  const CHOSEN := Entry("scene.json", None, 'M', ' ')
  const SNAPSHOTS := map["scene.json" := Concrete("100644", "new")]

  /** One changed file, and a look after publishing that throws. */
  const THROWING := Answers(Some(Evidence("head", false, false, [CHANGED])), Some(SNAPSHOTS), true, [],
                            Some(Evidence("head", false, false, [CHOSEN])), SNAPSHOTS, Threw)

  lemma OneEntry(e: Entry, selected: set<string>)
    ensures ChangedPaths([e]) == PathsOf(e)
    ensures PathsToStage([e], selected) == if ToStage(e, selected) then PathsOf(e) else {}
    ensures StagedPaths([e]) == if e.index in {' ', '?'} then {} else PathsOf(e)
  {
    assert [e][0] == e;
  }

  lemma NewIsStaged()
    ensures StagedIndex(OLD_INDEX, SELECTED, SNAPSHOTS) == NEW_INDEX
    ensures BlobsOf(SELECTED, SNAPSHOTS) == {BlobId("new")}
  {
    assert "scene.json" in SELECTED;
  }

  lemma NewIsSelected()
    ensures SelectionHolds(OLD_INDEX, NEW_INDEX, SELECTED, SNAPSHOTS, [CHANGED], [CHOSEN], {BlobId("new")}, SNAPSHOTS)
  {
    OneEntry(CHOSEN, SELECTED);
    hide StagedPaths;
  }

  lemma ChangedIsChosen()
    ensures PathsToStage([CHANGED], SELECTED) == SELECTED && ChangedPaths([CHANGED]) == SELECTED && WholeRenames([CHANGED], SELECTED)
  {
    OneEntry(CHANGED, SELECTED);
    assert "scene.json" in PathsOf(CHANGED) * SELECTED;
    hide ChangedPaths, PathsToStage;
  }

  lemma ThrowingIsStageable()
    ensures SnapshotsFit(THROWING, SELECTED) && Stageable(CAPTURED, SELECTED, THROWING)
    ensures Prospect(CAPTURED, SELECTED, THROWING).0 == NEW_INDEX
  {
    hide StagedPaths, ChangedPaths, PathsToStage, StagedIndex, BlobsOf, SelectionHolds, WholeRenames;
    ChangedIsChosen();
    NewIsStaged();
    NewIsSelected();
  }

  /** Nothing fails but the second look: the answer is a refusal, and the new index is live. */
  method RefusalLeavesNewIndex() returns (r: Result, index: Snapshot)
    ensures r == Refused && index == Present(NEW_INDEX, 420) && index != CAPTURED
  {
    hide Stageable, Prospect, SnapshotsFit, Checked, Wrote;
    var repo := new Repository(CAPTURED, []);
    ThrowingIsStageable();
    ghost var next, objects, length, safely;
    r, next, objects, length, safely := Stage(repo, CAPTURED, 420, SELECTED, THROWING);
    index := repo.index;
    assert OLD_INDEX[FILE].blob != NEW_INDEX[FILE].blob;
  }
}
