/**
 Allocation of the output directory.

 The parent directory is modelled by the names it already holds and by the
 names whose creation fails for a reason other than "already exists"
 (permissions, an invalid name). The allocator first tries `base`; if that
 fails for ANY reason it tries `base1`, `base2`, ... built with a single
 decimal digit, stopping at the first created name, returning an error on
 the first failure that is not "already exists", and panicking when the
 digit conversion runs out at 10.
 */
module TargetFolder {
  import opened Common

  /** Why a directory could not be created. */
  datatype IoError = AlreadyExists | OtherError

  /** The parent directory: names present, and names that cannot be created. */
  datatype Fs = Fs(existing: set<string>, failing: set<string>)

  /** The result of creating one directory. */
  datatype DirResult = DirOk(after: Fs) | DirErr(kind: IoError)

  /** What the allocator returns: a created name, an error message, or a panic. */
  datatype Outcome = Created(name: string) | Failed(message: string) | Panicked

  /** An outcome together with the parent directory afterwards. */
  datatype Allocation = Allocation(outcome: Outcome, after: Fs)

  /** The error message of a non-"already exists" failure inside the loop. */
  const FailureMessage: string := "Failed to create directory"

  /** Creating one directory: "already exists" takes precedence over other errors. */
  function CreateDir(fs: Fs, name: string): (r: DirResult)
    ensures r == DirErr(AlreadyExists) <==> name in fs.existing
    ensures r.DirOk? <==> name !in fs.existing && name !in fs.failing
    ensures r.DirOk? ==> r.after.existing == fs.existing + {name} && r.after.failing == fs.failing
  {
    if name in fs.existing then DirErr(AlreadyExists)
    else if name in fs.failing then DirErr(OtherError)
    else DirOk(fs.(existing := fs.existing + {name}))
  }

  /** Conversion of a number to a single decimal digit, `None` from 10 on. */
  function FromDigit(i: nat): (r: Option<char>)
    ensures r.Some? <==> i < 10
    ensures r.Some? ==> '0' <= r.value <= '9' && r.value as int - '0' as int == i
  {
    if i < 10 then Some(('0' as int + i) as char) else None
  }

  /** The name tried on the `i`-th retry, for `i` in 1..9. */
  function Numbered(base: string, i: nat): string
    requires 1 <= i <= 9
  {
    base + [FromDigit(i).value]
  }

  /** Numbered names differ from the base name and from each other. */
  lemma NumberedDistinct(base: string, i: nat, j: nat)
    requires 1 <= i <= 9 && 1 <= j <= 9
    ensures Numbered(base, i) != base
    ensures Numbered(base, i) == Numbered(base, j) <==> i == j
  {
    if Numbered(base, i) == Numbered(base, j) {
      assert Numbered(base, i)[|base|] == Numbered(base, j)[|base|];
    }
  }

  /** `base` cannot be created, for either reason. */
  predicate BaseBlocked(base: string, fs: Fs) {
    base in fs.existing || base in fs.failing
  }

  /** `base<i>` is the first numbered name, from `base1`, that is not present. */
  predicate FirstAbsent(base: string, existing: set<string>, i: nat) {
    && 1 <= i <= 9
    && Numbered(base, i) !in existing
    && forall k :: 1 <= k < i ==> Numbered(base, k) in existing
  }

  /** All of `base1` to `base9` are present. */
  predicate AllNumberedPresent(base: string, existing: set<string>) {
    forall k :: 1 <= k <= 9 ==> Numbered(base, k) in existing
  }

  /** The retry loop from digit `i` on: it creates the first absent numbered
      name, fails on the first non-"already exists" error, and panics once
      the digit reaches 10. */
  function Retry(base: string, fs: Fs, i: nat): (r: Allocation)
    requires 1 <= i <= 10
    requires forall k :: 1 <= k < i ==> Numbered(base, k) in fs.existing
    ensures r.outcome.Panicked? <==> forall k :: i <= k <= 9 ==> Numbered(base, k) in fs.existing
    ensures r.outcome.Created? ==>
      exists j :: FirstAbsent(base, fs.existing, j) && i <= j && Numbered(base, j) !in fs.failing && r.outcome.name == Numbered(base, j)
    ensures r.outcome.Failed? ==>
      && r.outcome.message == FailureMessage
      && exists j :: FirstAbsent(base, fs.existing, j) && i <= j && Numbered(base, j) in fs.failing
    ensures r.outcome.Created? ==> r.after == fs.(existing := fs.existing + {r.outcome.name})
    ensures !r.outcome.Created? ==> r.after == fs
    decreases 10 - i
  {
    match FromDigit(i)
    case None => Allocation(Panicked, fs)
    case Some(d) =>
      var name := base + [d];
      assert name == Numbered(base, i);
      match CreateDir(fs, name)
      case DirOk(after) => Allocation(Created(name), after)
      case DirErr(AlreadyExists) => Retry(base, fs, i + 1)
      case DirErr(OtherError) => Allocation(Failed(FailureMessage), fs)
  }

  /** The allocator: `base` if it can be created, otherwise the retry loop. */
  function CreateTargetFolder(base: string, fs: Fs): (r: Allocation)
    ensures !BaseBlocked(base, fs) ==> r == Allocation(Created(base), fs.(existing := fs.existing + {base}))
    ensures BaseBlocked(base, fs) && r.outcome.Created? ==>
      exists i :: FirstAbsent(base, fs.existing, i) && Numbered(base, i) !in fs.failing && r.outcome.name == Numbered(base, i)
    ensures r.outcome.Failed? ==>
      && BaseBlocked(base, fs)
      && r.outcome.message == FailureMessage
      && exists i :: FirstAbsent(base, fs.existing, i) && Numbered(base, i) in fs.failing
    ensures r.outcome.Panicked? <==> BaseBlocked(base, fs) && AllNumberedPresent(base, fs.existing)
    ensures r.outcome.Created? ==> r.outcome.name !in fs.existing
    ensures r.outcome.Created? ==> r.after == fs.(existing := fs.existing + {r.outcome.name})
    ensures !r.outcome.Created? ==> r.after == fs
  {
    match CreateDir(fs, base)
    case DirOk(after) => Allocation(Created(base), after)
    case DirErr(_) => Retry(base, fs, 1)
  }

  /** The converse direction: when `base` is blocked, the first absent
      numbered name is created if it can be, and reported as an error if
      it cannot. */
  lemma CreateTargetFolderFirstAbsent(base: string, fs: Fs, i: nat)
    requires BaseBlocked(base, fs) && FirstAbsent(base, fs.existing, i)
    ensures Numbered(base, i) !in fs.failing ==> CreateTargetFolder(base, fs).outcome == Created(Numbered(base, i))
    ensures Numbered(base, i) in fs.failing ==> CreateTargetFolder(base, fs).outcome == Failed(FailureMessage)
  {
  }

  /** Three allocations in a parent lacking `base`, `base1` and `base2`
      create exactly those three names, in that order. */
  lemma ThreeAllocations(base: string, fs: Fs)
    requires base !in fs.existing && base !in fs.failing
    requires Numbered(base, 1) !in fs.existing && Numbered(base, 1) !in fs.failing
    requires Numbered(base, 2) !in fs.existing && Numbered(base, 2) !in fs.failing
    ensures
      var a1 := CreateTargetFolder(base, fs);
      var a2 := CreateTargetFolder(base, a1.after);
      var a3 := CreateTargetFolder(base, a2.after);
      && a1.outcome == Created(base)
      && a2.outcome == Created(Numbered(base, 1))
      && a3.outcome == Created(Numbered(base, 2))
      && a3.after.existing == fs.existing + {base, Numbered(base, 1), Numbered(base, 2)}
  {
    NumberedDistinct(base, 1, 2);
    NumberedDistinct(base, 2, 1);
    var a1 := CreateTargetFolder(base, fs);
    var a2 := CreateTargetFolder(base, a1.after);
    assert FirstAbsent(base, a1.after.existing, 1);
    CreateTargetFolderFirstAbsent(base, a1.after, 1);
    assert FirstAbsent(base, a2.after.existing, 2);
    CreateTargetFolderFirstAbsent(base, a2.after, 2);
  }

  /** A failure of `base` for a reason other than "already exists" is not
      reported: the loop still runs and may create `base1`. */
  lemma FirstErrorFallsThrough(base: string, fs: Fs)
    requires base !in fs.existing && base in fs.failing
    requires Numbered(base, 1) !in fs.existing && Numbered(base, 1) !in fs.failing
    ensures CreateTargetFolder(base, fs).outcome == Created(Numbered(base, 1))
  {
  }

  /** The allocator's contract, as one predicate over a candidate result. */
  ghost predicate AllocatorContract(base: string, fs: Fs, r: Allocation) {
    && (!BaseBlocked(base, fs) ==> r == Allocation(Created(base), fs.(existing := fs.existing + {base})))
    && (BaseBlocked(base, fs) && r.outcome.Created? ==>
          exists i :: FirstAbsent(base, fs.existing, i) && Numbered(base, i) !in fs.failing && r.outcome.name == Numbered(base, i))
    && (r.outcome.Failed? ==>
          && BaseBlocked(base, fs)
          && r.outcome.message == FailureMessage
          && exists i :: FirstAbsent(base, fs.existing, i) && Numbered(base, i) in fs.failing)
    && (r.outcome.Panicked? <==> BaseBlocked(base, fs) && AllNumberedPresent(base, fs.existing))
    && (r.outcome.Created? ==> r.after == fs.(existing := fs.existing + {r.outcome.name}))
    && (!r.outcome.Created? ==> r.after == fs)
  }

  /** The contract leaves no freedom: any result meeting it is the
      allocator's result, outcome and resulting directory alike. */
  lemma AllocatorContractDetermines(base: string, fs: Fs, r: Allocation)
    requires AllocatorContract(base, fs, r)
    ensures r == CreateTargetFolder(base, fs)
  {
  }
}
