/**
 The disk as the authoring store sees it, together with everything that can go wrong with it.

 A run of the program takes the outcome of each primitive step from `schedule`: the step happens,
 it fails and changes nothing, or the process dies before it. A dead process takes no further steps,
 so whatever a method leaves behind when `alive` is false is what a crash leaves behind. When the
 schedule is used up every further step happens. Bytes and directory entries are on the disk for good
 once they have been synced.
 */
module DurableDisk {
  import opened Common

  datatype Fault = Happens | Fails | Dies

  /** What one directory entry holds: a complete file, or one whose writing was cut short. */
  datatype Cell<+B> = Whole(value: B) | Partial

  /** SHA-256 of a file, taken to be injective. */
  datatype Digest<+B> = Sha256(of: Cell<B>)

  function ContentHash<B>(cell: Cell<B>): Digest<B> { Sha256(cell) }

  /** A call's own scratch names, made unique by a random token. */
  datatype Scratch<+T> = Tmp(token: nat, target: T) | Bak(token: nat, target: T)

  /** A lock a process can hold: one for each target, and one for the whole store. */
  datatype Lock<+T> = Operation | Of(target: T)

  /** The store's own lock has not been denied since. */
  predicate StillOpen<T(==)>(before: set<Lock<T>>, now: set<Lock<T>>) { Operation in now ==> Operation in before }

  /** What one step takes from the schedule, and how it comes out. */
  predicate ComesOut(alive: bool, schedule: seq<Fault>, ok: bool, alive': bool, schedule': seq<Fault>) {
    if !alive then !ok && !alive' && schedule' == schedule
    else if schedule == [] then ok && alive' && schedule' == []
    else ok == (schedule[0] == Happens) && alive' == (schedule[0] != Dies) && schedule' == schedule[1..]
  }

  class Disk<T(==,!new), B(==)> {
    var files: map<T, Cell<B>>
    var scratch: map<Scratch<T>, Cell<B>>
    /** Bytes written to scratch files and not synced: the disk does not have them yet. */
    var buffer: map<Scratch<T>, Cell<B>>
    var schedule: seq<Fault>
    var alive: bool
    var nextToken: nat
    /** How many steps have not happened: failed, or not taken because the process was dead. */
    ghost var failed: nat
    /** The locks this process holds, and those it asked for and did not get. */
    ghost var held: set<Lock<T>>
    ghost var denied: set<Lock<T>>
    /** Canonical paths and scratch files whose directory entries have changed since they were last synced. */
    ghost var moved: set<T>
    ghost var made: set<Scratch<T>>

    constructor (files: map<T, Cell<B>>, schedule: seq<Fault>)
      ensures this.files == files && this.schedule == schedule
      ensures scratch == buffer == map[] && alive && Valid()
      ensures failed == 0 && held == denied == {} && moved == {} && made == {}
    {
      this.files := files;
      this.scratch := map[];
      this.buffer := map[];
      this.schedule := schedule;
      this.alive := true;
      this.nextToken := 0;
      this.failed := 0;
      this.held := {};
      this.denied := {};
      this.moved := {};
      this.made := {};
    }

    /** Tokens not yet drawn name no file. */
    ghost predicate Valid()
      reads this
    {
      && (forall s :: s in scratch ==> s.token < nextToken)
      && (forall s :: s in buffer ==> s.token < nextToken)
      && (forall s :: s in made ==> s.token < nextToken)
    }

    /** Nothing goes wrong from here on. */
    predicate Calm()
      reads this
    {
      alive && schedule == []
    }

    /** The outcome of the next step. */
    method Step() returns (ok: bool)
      modifies this`schedule, this`alive, this`failed
      ensures ComesOut(old(alive), old(schedule), ok, alive, schedule)
      ensures ok ==> old(alive) && alive
      ensures !old(alive) ==> !alive
      ensures failed == old(failed) + if ok then 0 else 1
      ensures old(Calm()) ==> ok && Calm()
    {
      if !alive {
        failed := failed + 1;
        return false;
      }
      if schedule == [] {
        return true;
      }
      var fault := schedule[0];
      schedule := schedule[1..];
      alive := fault != Dies;
      ok := fault == Happens;
      if !ok {
        failed := failed + 1;
      }
    }

    /** A new process starts on what the last one left; a dead owner's locks are reclaimed. */
    method Restart(schedule: seq<Fault>)
      modifies this`schedule, this`alive, this`held
      ensures alive && this.schedule == schedule && held == {}
    {
      alive := true;
      this.schedule := schedule;
      held := {};
    }

    method FreshToken() returns (token: nat)
      requires Valid()
      modifies this`nextToken
      ensures token == old(nextToken) && nextToken == token + 1 && Valid()
    {
      token := nextToken;
      nextToken := nextToken + 1;
    }

    // ---- locks -----------------------------------------------------------------------------

    /** A process that asks for a lock it holds would wait for itself. */
    method Acquire(ghost locks: set<Lock<T>>) returns (ok: bool)
      requires locks !! held
      modifies this`held, this`denied, this`schedule, this`alive, this`failed
      ensures held == old(held) + if ok then locks else {}
      ensures denied == old(denied) + if ok then {} else locks
      ensures ok ==> old(alive) && alive
      ensures !old(alive) ==> !alive
      ensures failed == old(failed) + if ok then 0 else 1
      ensures old(Calm()) ==> ok && Calm()
    {
      ok := Step();
      if ok {
        held := held + locks;
      } else {
        denied := denied + locks;
      }
    }

    /** The lock set is given up whether or not its files could be removed; `ok` says they were. */
    method Release(ghost locks: set<Lock<T>>) returns (ok: bool)
      requires locks <= held
      modifies this`held, this`schedule, this`alive, this`failed
      ensures held == old(held) - locks
      ensures !old(alive) ==> !alive
      ensures failed == old(failed) + if ok then 0 else 1
      ensures old(Calm()) ==> ok && Calm()
    {
      ok := Step();
      held := held - locks;
    }

    // ---- scratch files ---------------------------------------------------------------------

    /** Open a scratch file for exclusive creation. */
    method Create(s: Scratch<T>) returns (ok: bool)
      modifies this`scratch, this`made, this`schedule, this`alive, this`failed
      ensures ok ==> old(alive) && s !in old(scratch) && scratch == old(scratch)[s := Partial] && made == old(made) + {s}
      ensures !ok ==> scratch == old(scratch) && made == old(made)
      ensures !old(alive) ==> !alive
      ensures old(failed) <= failed <= old(failed) + 1
      ensures failed == old(failed) ==> (ok <==> s !in old(scratch))
      ensures ok ==> failed == old(failed)
      ensures old(Calm()) ==> failed == old(failed) && Calm()
    {
      ok := Step();
      ok := ok && s !in scratch;
      if ok {
        scratch := scratch[s := Partial];
        made := made + {s};
      }
    }

    /** Until it is synced the file is no more than begun. */
    method Write(s: Scratch<T>, contents: Cell<B>) returns (ok: bool)
      modifies this`buffer, this`schedule, this`alive, this`failed
      ensures buffer == if ok then old(buffer)[s := contents] else old(buffer)
      ensures !old(alive) ==> !alive
      ensures failed == old(failed) + if ok then 0 else 1
      ensures old(Calm()) ==> ok && Calm()
    {
      ok := Step();
      if ok {
        buffer := buffer[s := contents];
      }
    }

    /** Force the bytes written to a scratch file to the disk. */
    method Sync(s: Scratch<T>) returns (ok: bool)
      requires s in buffer
      modifies this`scratch, this`buffer, this`schedule, this`alive, this`failed
      ensures scratch == if ok then old(scratch)[s := old(buffer)[s]] else old(scratch)
      ensures buffer == if ok then old(buffer) - {s} else old(buffer)
      ensures ok ==> old(alive)
      ensures !old(alive) ==> !alive
      ensures failed == old(failed) + if ok then 0 else 1
      ensures old(Calm()) ==> ok && Calm()
    {
      ok := Step();
      if ok {
        scratch := scratch[s := buffer[s]];
        buffer := buffer - {s};
      }
    }

    method UnlinkScratch(s: Scratch<T>) returns (ok: bool)
      modifies this`scratch, this`schedule, this`alive, this`failed
      ensures ok ==> old(alive) && scratch == old(scratch) - {s}
      ensures !ok ==> scratch == old(scratch)
      ensures !old(alive) ==> !alive
      ensures failed == old(failed) + if ok then 0 else 1
      ensures old(Calm()) ==> ok && Calm()
    {
      ok := Step();
      if ok {
        scratch := scratch - {s};
      }
    }

    // ---- canonical paths -------------------------------------------------------------------

    /** Move a scratch file over a canonical path in one step, holding the lock of the path. */
    method Rename(s: Scratch<T>, t: T) returns (ok: bool)
      requires Of(t) in held
      modifies this`files, this`scratch, this`moved, this`schedule, this`alive, this`failed
      ensures ok ==> old(alive) && s in old(scratch)
      ensures ok ==> files == old(files)[t := old(scratch)[s]] && scratch == old(scratch) - {s} && moved == old(moved) + {t}
      ensures !ok ==> files == old(files) && scratch == old(scratch) && moved == old(moved)
      ensures !old(alive) ==> !alive
      ensures old(failed) <= failed <= old(failed) + 1
      ensures failed == old(failed) ==> (ok <==> s in old(scratch))
      ensures ok ==> failed == old(failed)
      ensures old(Calm()) ==> failed == old(failed) && Calm()
    {
      ok := Step();
      ok := ok && s in scratch;
      if ok {
        files := files[t := scratch[s]];
        scratch := scratch - {s};
        moved := moved + {t};
      }
    }

    method Unlink(t: T) returns (ok: bool)
      requires Of(t) in held
      modifies this`files, this`moved, this`schedule, this`alive, this`failed
      ensures ok ==> old(alive) && files == old(files) - {t} && moved == old(moved) + {t}
      ensures !ok ==> files == old(files) && moved == old(moved)
      ensures !old(alive) ==> !alive
      ensures failed == old(failed) + if ok then 0 else 1
      ensures old(Calm()) ==> ok && Calm()
    {
      ok := Step();
      if ok {
        files := files - {t};
        moved := moved + {t};
      }
    }

    /** Force the directory entries at these targets, and of the scratch files beside them, to the disk. */
    method SyncDirectories(ghost targets: set<T>) returns (ok: bool)
      modifies this`moved, this`made, this`schedule, this`alive, this`failed
      ensures moved == if ok then old(moved) - targets else old(moved)
      ensures made == if ok then set s | s in old(made) && s.target !in targets else old(made)
      ensures !old(alive) ==> !alive
      ensures failed == old(failed) + if ok then 0 else 1
      ensures old(Calm()) ==> ok && Calm()
    {
      ok := Step();
      if ok {
        moved := moved - targets;
        made := set s | s in made && s.target !in targets;
      }
    }
  }
}
