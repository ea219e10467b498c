/**
 * The durable state file of rpc-src/store.ts: a transaction copies the state, lets its callback
 * write the copy, asserts the lock, and replaces the file by write, sync, rename and directory sync.
 */
module Store {
  import opened Wrappers
  import opened Addresses
  import opened ChainState
  import opened ChainDraft

  type ChainId = nat

  type FileState = map<ChainId, Chain>

  function ChainOf(state: FileState, key: ChainId): Chain {
    if key in state then state[key] else EmptyChain()
  }

  // ---- The disk ----

  /** A file being written is torn until the whole state is in it. */
  datatype Contents = Whole(state: FileState) | Torn

  datatype Data = Data(contents: Contents, synced: bool)

  /**
   * The state file, the earlier state files that a crash may bring back while the directory is not
   * synced, and the temporary file. A missing file is `None`.
   */
  datatype Disk = Disk(target: Option<Data>, shadows: set<Option<Data>>, temporary: Option<Data>)

  /** Surviving a crash needs the file's bytes synced; a missing file stands for the empty state. */
  predicate Survives(d: Option<Data>) {
    d.None? || (d.value.synced && d.value.contents.Whole?)
  }

  function Held(d: Option<Data>): FileState
    requires Survives(d)
  {
    if d.None? then map[] else d.value.contents.state
  }

  predicate CrashSafe(disk: Disk) {
    Survives(disk.target) && forall d :: d in disk.shadows ==> Survives(d)
  }

  /** The states a crash at this moment may leave to the next start. */
  function AfterCrash(disk: Disk): (images: set<FileState>)
    requires CrashSafe(disk)
    ensures Held(disk.target) in images
  {
    {Held(disk.target)} + set d | d in disk.shadows :: Held(d)
  }

  // ---- What the environment does to one write ----

  datatype Phase = MakeDirectory | OpenTemporary | WriteTemporary | SyncTemporary | CloseTemporary | Rename

  datatype DirectorySync = DirectorySynced | DirectoryUnsupported | DirectoryFails

  /** The first phase that fails, if one does, and how the directory sync goes. */
  datatype Script = Script(fails: Option<Phase>, directory: DirectorySync)

  datatype Commit = Committed | CommittedWithError(code: Code) | NotCommitted(code: Code)

  function ErrorOf(commit: Commit): Option<Code> {
    if commit.Committed? then None else Some(commit.code)
  }

  /** What a transaction's commit comes to, under this lock and this environment. */
  function CommitOf(lockHeld: bool, script: Script): Commit {
    if !lockHeld then NotCommitted(LockLost)
    else if script.fails.Some? then NotCommitted(WriteFailed)
    else if script.directory.DirectoryFails? then CommittedWithError(WriteFailed)
    else Committed
  }

  /** Every disk a stretch of work goes through is crash-safe and can only come back as one of these states. */
  ghost predicate Passes(disks: seq<Disk>, states: set<FileState>) {
    forall k :: 0 <= k < |disks| ==> CrashSafe(disks[k]) && AfterCrash(disks[k]) <= states
  }

  lemma AllPhases(p: Option<Phase>)
    ensures p in {None, Some(MakeDirectory), Some(OpenTemporary), Some(WriteTemporary), Some(SyncTemporary),
                  Some(CloseTemporary), Some(Rename)}
  {
    match p
    case None =>
    case Some(MakeDirectory) =>
    case Some(OpenTemporary) =>
    case Some(WriteTemporary) =>
    case Some(SyncTemporary) =>
    case Some(CloseTemporary) =>
    case Some(Rename) =>
  }

  lemma PassesNothing(disks: seq<Disk>, states: set<FileState>)
    ensures Passes(disks[|disks|..], states)
  {
  }

  lemma PassesInTurn(before: seq<Disk>, between: seq<Disk>, after: seq<Disk>, few: set<FileState>, many: set<FileState>)
    requires |before| <= |between| <= |after| && between[..|before|] == before && after[..|between|] == between
    requires Passes(between[|before|..], few) && Passes(after[|between|..], many) && few <= many
    ensures after[..|before|] == before && Passes(after[|before|..], many)
  {
    forall k | 0 <= k < |after| - |before|
      ensures CrashSafe(after[|before|..][k]) && AfterCrash(after[|before|..][k]) <= many
    {
      var i := |before| + k;
      if i < |between| {
        assert after[i] == between[i] == between[|before|..][k];
      } else {
        assert after[i] == after[|between|..][i - |between|];
      }
    }
  }

  class JsonStore {
    const createIfMissing: bool
    var target: Option<Data>
    var shadows: set<Option<Data>>
    var temporary: Option<Data>
    /** Every disk state so far, so that a crash can be placed at any of them. */
    var trace: seq<Disk>

    function CurrentDisk(): Disk
      reads this
    {
      Disk(target, shadows, temporary)
    }

    predicate Valid()
      reads this
    {
      CrashSafe(CurrentDisk())
    }

    function Current(): FileState
      reads this
      requires Valid()
    {
      Held(target)
    }

    constructor (found: Option<FileState>, createIfMissing: bool)
      ensures Valid() && this.createIfMissing == createIfMissing && trace == []
      ensures AfterCrash(CurrentDisk()) == {if found.Some? then found.value else map[]}
    {
      this.createIfMissing := createIfMissing;
      target := if found.Some? then Some(Data(Whole(found.value), true)) else None;
      shadows, temporary, trace := {}, None, [];
    }

    method Read() returns (r: Result<FileState, Code>)
      requires Valid()
      ensures match r
              case Ok(state) => state == Current() && (target.Some? || createIfMissing)
              case Err(e) => target.None? && !createIfMissing && e == StateUnreadable
    {
      if target.None? {
        return if createIfMissing then Ok(map[]) else Err(StateUnreadable);
      }
      return Ok(target.value.contents.state);
    }

    /** The start of a transaction: a private copy of one chain, and of the state around it. */
    method Begin(key: ChainId) returns (e: Option<Code>, state: FileState, draft: ChainDraft)
      requires Valid()
      ensures fresh(draft)
      ensures e.None? ==> state == Current() && draft.Model() == ChainOf(state, key)
      ensures e.Some? ==> target.None? && !createIfMissing
    {
      var r := Read();
      if r.Err? {
        e, state := Some(r.error), map[];
        draft := new ChainDraft(EmptyChain());
        return;
      }
      e, state := None, r.value;
      draft := new ChainDraft(ChainOf(state, key));
    }

    /** The end of a transaction: the lock is asserted immediately before the file is replaced. */
    method End(key: ChainId, state: FileState, chain: Chain, lockHeld: bool, script: Script) returns (e: Option<Code>)
      requires Valid()
      modifies this`target, this`shadows, this`temporary, this`trace
      ensures Valid()
      ensures e == ErrorOf(CommitOf(lockHeld, script))
      ensures target == if CommitOf(lockHeld, script).NotCommitted? then old(target)
                        else Some(Data(Whole(state[key := chain]), true))
      ensures |old(trace)| <= |trace| && trace[..|old(trace)|] == old(trace)
      ensures Passes(trace[|old(trace)|..], AfterCrash(old(CurrentDisk())) + {state[key := chain]})
      ensures AfterCrash(CurrentDisk()) <= AfterCrash(old(CurrentDisk())) + {state[key := chain]}
      ensures e.None? && script.directory.DirectorySynced? ==> AfterCrash(CurrentDisk()) == {state[key := chain]}
    {
      if !lockHeld {
        return Some(LockLost);
      }
      var ok := WriteState(state[key := chain], script);
      e := if ok then None else Some(WriteFailed);
    }

    /** Write, sync, close, rename, sync the directory; on an error remove the temporary file and give up. */
    method WriteState(state: FileState, script: Script) returns (ok: bool)
      requires Valid()
      modifies this`target, this`shadows, this`temporary, this`trace
      ensures Valid()
      ensures ok <==> script.fails.None? && !script.directory.DirectoryFails?
      ensures target == if script.fails.None? then Some(Data(Whole(state), true)) else old(target)
      ensures |old(trace)| <= |trace| && trace[..|old(trace)|] == old(trace)
      ensures Passes(trace[|old(trace)|..], AfterCrash(old(CurrentDisk())) + {state})
      ensures AfterCrash(CurrentDisk()) <= AfterCrash(old(CurrentDisk())) + {state}
      ensures ok && script.directory.DirectorySynced? ==> AfterCrash(CurrentDisk()) == {state}
    {
      if script.fails == Some(MakeDirectory) || script.fails == Some(OpenTemporary) {
        return false;
      }
      var written := WriteTemporaryFile(state, script);
      if !written || script.fails == Some(Rename) {
        temporary := None;
        Note();
        return false;
      }
      AllPhases(script.fails);
      target, shadows, temporary := temporary, shadows + {target}, None;
      Note();
      if script.directory.DirectorySynced? {
        shadows := {};
        Note();
      }
      return !script.directory.DirectoryFails?;
    }

    /** The phases up to the rename; none of them touches the state file. */
    method WriteTemporaryFile(state: FileState, script: Script) returns (ok: bool)
      requires Valid()
      modifies this`temporary, this`trace
      ensures ok <==> script.fails != Some(WriteTemporary) && script.fails != Some(SyncTemporary)
                      && script.fails != Some(CloseTemporary)
      ensures ok ==> temporary == Some(Data(Whole(state), true))
      ensures |old(trace)| <= |trace| && trace[..|old(trace)|] == old(trace)
      ensures Passes(trace[|old(trace)|..], AfterCrash(old(CurrentDisk())))
    {
      temporary := Some(Data(Torn, false));
      Note();
      if script.fails == Some(WriteTemporary) {
        return false;
      }
      temporary := Some(Data(Whole(state), false));
      Note();
      if script.fails == Some(SyncTemporary) {
        return false;
      }
      temporary := Some(Data(Whole(state), true));
      Note();
      return script.fails != Some(CloseTemporary);
    }

    method Note()
      modifies this`trace
      ensures trace == old(trace) + [CurrentDisk()]
    {
      trace := trace + [CurrentDisk()];
    }
  }
}
