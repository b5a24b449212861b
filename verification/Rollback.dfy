/** The versioned configuration store of mgmt/Rollback.cc.  The directory is a map from version
    number to contents; number 0 is the active file.  Every system call may fail. */
module VersionedStore {

  const ACTIVE_VERSION := 0

  /** `Aborted` is the ink_release_assert of internalUpdate (line 454). */
  datatype Code = Ok | FileNotFound | VersionNotCurrent | SysCallError | InvalidVersion | Aborted

  /** The outcome of each system call an update may make: true is success, where success is
      possible.  `partial` is what is left of the new file when the write or close fails. */
  datatype UpdateCalls = UpdateCalls(
    open: bool, write: bool, partial: string, link: bool, rename: bool,
    statOldest: bool, unlinkOldest: bool, unlinkCurrent: bool, unlinkNew: bool) {

    /** The new contents get to the active file. */
    predicate Work() {
      open && write && link && rename
    }

    /** The oldest backup can be removed. */
    predicate Evict() {
      statOldest && unlinkOldest
    }
  }

  /** The outcome of opening, stating and reading a file that is there. */
  datatype ReadCalls = ReadCalls(open: bool, fstat: bool, read: bool) {
    predicate Works() {
      open && fstat && read
    }
  }

  /** What a client, or somebody editing the directory, does next. */
  datatype Op =
    | Update(buf: string, basedOn: int, newVersion: int, calls: UpdateCalls)
    | Force(buf: string, newVersion: int, calls: UpdateCalls)
    | Revert(version: int, fetch: ReadCalls, calls: UpdateCalls)
    | Remove(version: int, stat: bool, unlink: bool)
    | Check(stat: bool, modified: bool, roll: bool, fetch: ReadCalls, calls: UpdateCalls)
    | EditActive(buf: string)
    | LoseActive

  /** Every removal the update makes works. */
  predicate Removing(calls: UpdateCalls) {
    calls.Evict() && calls.unlinkCurrent && calls.unlinkNew
  }

  /** The active file is not lost and removing files works. */
  predicate Orderly(op: Op) {
    match op
    case Update(_, _, _, calls) => Removing(calls)
    case Force(_, _, calls) => Removing(calls)
    case Revert(_, _, calls) => Removing(calls)
    case Remove(version, _, _) => version != ACTIVE_VERSION
    case Check(_, _, _, _, calls) => Removing(calls)
    case EditActive(_) => true
    case LoseActive => false
  }

  /** The step does not take the active file away. */
  predicate KeepsActive(op: Op) {
    op != LoseActive && !(op.Remove? && op.version == ACTIVE_VERSION)
  }

  function Max(a: int, b: int): int {
    if a < b then b else a
  }

  ghost predicate Increasing(q: seq<int>) {
    forall i, j :: 0 <= i < j < |q| ==> q[i] < q[j]
  }

  lemma IncreasingAppend(q: seq<int>, v: int)
    requires Increasing(q) && forall w :: w in q ==> w < v
    ensures Increasing(q + [v])
  {
    assert forall i :: 0 <= i < |q| ==> q[i] in q;
  }

  /** Taking one element out of an increasing list. */
  lemma IncreasingWithout(q: seq<int>, i: nat)
    requires Increasing(q) && i < |q|
    ensures var rest := q[..i] + q[i + 1..];
      Increasing(rest) && forall v :: v in rest <==> v in q && v != q[i]
  {
    var rest := q[..i] + q[i + 1..];
    forall v ensures v in rest <==> v in q && v != q[i] {
      if v in q && v != q[i] {
        var j :| 0 <= j < |q| && q[j] == v;
        assert rest[if j < i then j else j - 1] == v;
      }
      if v in rest {
        var j :| 0 <= j < |rest| && rest[j] == v;
        assert q[if j < i then j else j + 1] == v;
      }
    }
  }

  /** The versions found in the directory, sorted as findVersions_ml sorts them. */
  method Sorted(listing: seq<int>) returns (q: seq<int>)
    requires forall i, j :: 0 <= i < j < |listing| ==> listing[i] != listing[j]
    ensures Increasing(q) && |q| == |listing| && (forall v :: v in q <==> v in listing)
  {
    q := [];
    for n := 0 to |listing|
      invariant Increasing(q) && |q| == n && (forall v :: v in q <==> v in listing[..n])
    {
      assert listing[n] !in listing[..n];
      q := Inserted(q, listing[n]);
    }
    assert listing[..|listing|] == listing;
  }

  method Inserted(q: seq<int>, v: int) returns (r: seq<int>)
    requires Increasing(q) && v !in q
    ensures Increasing(r) && |r| == |q| + 1 && (forall w :: w in r <==> w in q || w == v)
  {
    var i := Position(q, v);
    assert q == q[..i] + q[i..];
    InsertedMembers(q[..i], v, q[i..]);
    InsertedIncreasing(q, i, v);
    r := q[..i] + [v] + q[i..];
  }

  /** The number of elements less than v. */
  method Position(q: seq<int>, v: int) returns (i: nat)
    requires Increasing(q) && v !in q
    ensures i <= |q| && (forall j :: 0 <= j < i ==> q[j] < v) && (forall j :: i <= j < |q| ==> v < q[j])
  {
    i := 0;
    while i < |q| && q[i] < v
      invariant i <= |q| && forall j :: 0 <= j < i ==> q[j] < v
    {
      i := i + 1;
    }
    if i < |q| {
      assert q[i] in q;
    }
  }

  lemma InsertedIncreasing(q: seq<int>, i: nat, v: int)
    requires i <= |q| && Increasing(q)
    requires (forall j :: 0 <= j < i ==> q[j] < v) && (forall j :: i <= j < |q| ==> v < q[j])
    ensures Increasing(q[..i] + [v] + q[i..])
  {
    var r := q[..i] + [v] + q[i..];
    forall a, b | 0 <= a < b < |r|
      ensures r[a] < r[b]
    {
      assert r[a] == if a < i then q[a] else if a == i then v else q[a - 1];
      assert r[b] == if b < i then q[b] else if b == i then v else q[b - 1];
    }
  }

  lemma InsertedMembers(front: seq<int>, v: int, back: seq<int>)
    ensures forall w :: w in front + [v] + back <==> w in front + back || w == v
  {
    forall w
      ensures w in front + [v] + back <==> w in front + back || w == v
    {
      assert w in front + [v] <==> w in front || w == v;
    }
  }

  class Rollback {
    var files: map<int, string>
    var currentVersion: int
    var numVersions: int
    const numberBackups: int
    var versionQ: seq<int>
    ghost var history: map<int, string>  // what was active when each version was superseded
    ghost var accepted: seq<int>         // the bases of the checked updates that succeeded

    /** The state the manager starts with.  `directory` holds what is there, `listing` the version
        numbers in the order readdir finds them; `listed` is false if opendir fails.  A missing
        active file is replaced by the highest backup (numVersions keeps counting it) or by an
        empty file, and an active file without a backup gets one. */
    constructor (numBak: int, directory: map<int, string>, listed: bool, listing: seq<int>, rename: bool,
        fetch: ReadCalls, calls: UpdateCalls)
      requires forall i, j :: 0 <= i < j < |listing| ==> listing[i] != listing[j]
      requires forall v :: v in listing <==> v in directory && v != 0
      requires forall v :: v in directory ==> v >= 0
      ensures Valid() && accepted == [] && numberBackups == Max(numBak, 1)
      // the directory cannot be listed
      ensures !listed ==> currentVersion == 0 && numVersions == 0 && versionQ == []
      // there is an active file, and a backup
      ensures listed && 0 in directory && listing != [] ==> Tidy() && files == directory
      // there is an active file and no backup
      ensures 0 in directory ==> 0 in files && files[0] == directory[0]
      ensures listed && 0 in directory && listing == [] && fetch.Works() && calls.Work() ==>
        Tidy() && versionQ == [1] && 1 in files && files[1] == directory[0]
      // the active file is missing
      ensures 0 !in directory ==> 0 in files
      ensures listed && 0 !in directory && listing != [] && rename ==>
        && currentVersion in directory && currentVersion in listing && (forall v :: v in listing ==> v <= currentVersion)
        && files[0] == directory[currentVersion] && currentVersion !in files
        && numVersions == |versionQ| + 1 == |listing|
      ensures 0 !in directory && !(listed && listing != [] && rename) ==>
        files[0] == "" && (listed ==> Tidy())
    {
      numberBackups := if numBak > 1 then numBak else 1;
      files := directory;
      currentVersion, numVersions, versionQ := 0, 0, [];
      history, accepted := map[], [];
      new;
      var highest := FindVersions(listed, listing);
      if ACTIVE_VERSION !in files {
        Restore(highest, rename);
      } else {
        Adopt(highest, fetch, calls);
      }
    }

    /** What FindVersions leaves to start from. */
    ghost predicate Found(highest: int)
      reads this
    {
      && numberBackups >= 1 && accepted == [] && Increasing(versionQ) && numVersions == |versionQ|
      && (if versionQ == [] then highest in {-1, 0} else highest == versionQ[|versionQ| - 1] && highest > 0)
      && (forall v :: v in versionQ <==> v in history)
      && (forall v :: v in versionQ ==> v > 0 && v in files && files[v] == history[v])
    }

    /** Starts with the active file that is there. */
    method Adopt(highest: int, fetch: ReadCalls, calls: UpdateCalls)
      requires 0 in files && Found(highest)
      requires highest == 0 ==> forall v :: v in files ==> v == 0
      modifies this`files, this`currentVersion, this`numVersions, this`versionQ, this`history
      ensures Valid() && accepted == old(accepted)
      ensures 0 in files && files[0] == old(files)[0]
      ensures highest != 0 ==>
        currentVersion == highest + 1 && files == old(files) && versionQ == old(versionQ) && numVersions == old(numVersions)
      ensures highest == 0 && fetch.Works() && calls.Work() ==>
        Tidy() && versionQ == [1] && 1 in files && files[1] == files[0]
    {
      currentVersion := highest + 1;
      if highest == 0 {
        FirstBackup(fetch, calls);
      }
    }

    /** Backs up an active file that has no backup. */
    method FirstBackup(fetch: ReadCalls, calls: UpdateCalls)
      requires Valid() && 0 in files && currentVersion == 1 && versionQ == [] && numVersions == 0
      requires forall v :: v in files ==> v == 0
      modifies this`files, this`currentVersion, this`numVersions, this`versionQ, this`history
      ensures Valid() && accepted == old(accepted)
      ensures 0 in files && files[0] == old(files)[0]
      ensures fetch.Works() && calls.Work() ==>
        Tidy() && versionQ == [1] && 1 in files && files[1] == files[0]
    {
      var code, version0 := GetVersion(ACTIVE_VERSION, fetch);
      if code == Ok {
        code := InternalUpdate(version0, -1, calls);
      }
    }

    /** findVersions_ml: the highest version in the directory, 0 if there is none, and -1 if the
        directory cannot be opened. */
    method FindVersions(listed: bool, listing: seq<int>) returns (highest: int)
      requires versionQ == [] && numVersions == 0 && history == map[] && numberBackups >= 1 && accepted == []
      requires forall i, j :: 0 <= i < j < |listing| ==> listing[i] != listing[j]
      requires forall v :: v in listing ==> v > 0 && v in files
      modifies this`numVersions, this`versionQ, this`history
      ensures Found(highest)
      ensures !listed ==> highest == -1 && versionQ == []
      ensures listed ==> |versionQ| == |listing| && (forall v :: v in versionQ <==> v in listing)
      ensures listed && listing == [] ==> highest == 0
    {
      if !listed {
        return -1;
      }
      versionQ := Sorted(listing);
      numVersions := |listing|;
      history := map v | v in listing :: files[v];
      highest := 0;
      if versionQ != [] {
        highest := versionQ[|versionQ| - 1];
        assert highest in versionQ;
      }
      assert listing != [] ==> listing[0] in versionQ;
    }

    /** Replaces a missing active file by the highest backup, or by an empty file. */
    method Restore(highest: int, rename: bool)
      requires 0 !in files && Found(highest)
      modifies this`files, this`currentVersion, this`versionQ, this`history
      ensures Valid() && 0 in files
      ensures !rename || old(versionQ) == [] ==>
        currentVersion == highest + 1 && versionQ == old(versionQ) && files == old(files)[0 := ""]
      ensures old(versionQ) != [] && rename ==>
        && currentVersion == highest && versionQ == old(versionQ)[..|old(versionQ)| - 1]
        && files == (old(files) - {highest})[0 := old(files)[highest]]
    {
      if highest > 0 && rename {
        ActivateHighest(highest);
      } else {
        files := files[ACTIVE_VERSION := ""];
        currentVersion := highest + 1;
      }
    }

    /** The highest backup becomes the active file, and is taken off the queue. */
    method ActivateHighest(highest: int)
      requires 0 !in files && Found(highest) && highest > 0 && versionQ != []
      modifies this`files, this`currentVersion, this`versionQ, this`history
      ensures Valid() && currentVersion == highest && versionQ == old(versionQ)[..|old(versionQ)| - 1]
      ensures files == (old(files) - {highest})[0 := old(files)[highest]]
    {
      assert highest in versionQ;
      files := (files - {highest})[ACTIVE_VERSION := files[highest]];
      versionQ := versionQ[..|versionQ| - 1];
      currentVersion := highest;
      history := history - {highest};
      forall v | v in versionQ
        ensures Retained(v)
      {
        var i :| 0 <= i < |versionQ| && versionQ[i] == v;
        assert v == old(versionQ)[i] && v in old(versionQ) && v < highest;
      }
    }

    ghost predicate Valid()
      reads this
    {
      && numberBackups >= 1 && currentVersion >= 0
      && Increasing(versionQ)
      && (forall v :: v in versionQ ==> Retained(v))
      && (forall v :: v in history ==> v < currentVersion)
      && Increasing(accepted) && (forall v :: v in accepted ==> v < currentVersion)
    }

    /** Version v can be read, and is what was active when it was superseded. */
    ghost predicate Retained(v: int)
      reads this
    {
      0 < v < currentVersion && v in files && v in history && files[v] == history[v]
    }

    /** There is an active file, the queue lists exactly the backups, and the counter counts them. */
    ghost predicate Tidy()
      reads this
    {
      && currentVersion > 0 && 0 in files
      && numVersions == |versionQ|
      && (forall v :: v in files && v != 0 ==> v in versionQ)
    }

    /** There is an active file, and the counter counts no more than the queue holds. */
    predicate Backed()
      reads this
    {
      currentVersion > 0 && 0 in files && numVersions <= |versionQ|
    }

    function Next(newVersion: int): int
      reads this
    {
      if newVersion < 0 then currentVersion + 1 else newVersion
    }

    /** All but the directory is as before. */
    twostate predicate Untouched()
      reads this
    {
      && currentVersion == old(currentVersion) && numVersions == old(numVersions) && versionQ == old(versionQ)
      && history == old(history) && accepted == old(accepted)
    }

    /** The files whose number is not in `but` are as before. */
    twostate predicate SameBut(new but: set<int>)
      reads this
    {
      forall v :: v !in but ==> (v in files <==> v in old(files)) && (v in files ==> files[v] == old(files)[v])
    }

    /** Touching the active file, the current number and newer ones keeps the backups. */
    twostate lemma BackupsKept(next: int)
      requires old(Valid()) && Untouched()
      requires SameBut({0, currentVersion, next}) && next > currentVersion
      ensures Valid()
    {
      forall v | v in versionQ
        ensures Retained(v)
      {
        assert old(Retained(v));
      }
    }

    /** Opens, writes and closes the file of the new version. */
    method WriteNew(buf: string, next: int, calls: UpdateCalls) returns (ok: bool)
      modifies this`files
      ensures ok == (calls.open && calls.write)
      ensures SameBut({next})
      ensures files == if calls.open then old(files)[next := if calls.write then buf else calls.partial] else old(files)
    {
      ok := false;
      if calls.open {
        files := files[next := if calls.write then buf else calls.partial];
        ok := calls.write;
      }
    }

    /** Links the active file under the current number.  A lost active file is not a failure. */
    method LinkActive(call: bool) returns (ok: bool, failedLink: bool)
      modifies this`files
      ensures ok == (call && (0 in old(files) ==> currentVersion !in old(files)))
      ensures failedLink == (0 !in old(files))
      ensures ok && !failedLink ==> files == old(files)[currentVersion := old(files)[0]]
      ensures !(ok && !failedLink) ==> files == old(files)
    {
      failedLink := ACTIVE_VERSION !in files;
      ok := call && (failedLink || currentVersion !in files);
      if ok && !failedLink {
        files := files[currentVersion := files[ACTIVE_VERSION]];
      }
    }

    /** Renames the new file to the active one. */
    method Activate(next: int, call: bool)
      requires next in files && next != 0
      modifies this`files
      ensures !call ==> files == old(files)
      ensures call ==> next !in files && 0 in files && files[0] == old(files)[next] && SameBut({0, next})
    {
      if call {
        files := (files - {next})[ACTIVE_VERSION := files[next]];
      }
    }

    /** When the update gets as far as replacing the active file. */
    predicate Replaces(calls: UpdateCalls)
      reads this
    {
      calls.Work() && (0 in files ==> currentVersion !in files)
    }

    /** The file operations of an update, up to the rename. */
    method Attempt(buf: string, next: int, calls: UpdateCalls) returns (ok: bool, failedLink: bool)
      requires next > currentVersion >= 0
      modifies this`files
      ensures ok == old(Replaces(calls))
      ensures ok ==> failedLink == (0 !in old(files))
      ensures ok ==> next !in files && 0 in files && files[0] == buf
      ensures ok && !failedLink ==> currentVersion in files && files[currentVersion] == old(files)[0]
      ensures !ok ==> SameBut({currentVersion, next}) && (currentVersion == 0 ==> SameBut({next}))
      ensures SameBut({0, currentVersion, next})
      ensures ok && failedLink && currentVersion != 0 ==> SameBut({0, next})
    {
      failedLink := false;
      ok := WriteNew(buf, next, calls);
      if ok {
        ok, failedLink := LinkActive(calls.link);
        if ok {
          Activate(next, calls.rename);
          ok := calls.rename;
        }
      }
    }

    /** Unlinks what a failed update may have left behind. */
    method CleanUp(next: int, calls: UpdateCalls)
      modifies this`files
      ensures files == old(files) - (if calls.unlinkCurrent then {currentVersion} else {})
                                  - (if calls.unlinkNew then {next} else {})
    {
      if calls.unlinkCurrent {
        files := files - {currentVersion};
      }
      if calls.unlinkNew {
        files := files - {next};
      }
    }

    /** The directory after a failed update.  With a current version of 0 the name of the backup
        to be made is that of the active file, and cleaning up removes the active file. */
    twostate predicate Failed(next: int, new calls: UpdateCalls)
      reads this
    {
      && SameBut({currentVersion, next})
      && (currentVersion == 0 && !calls.unlinkCurrent ==> SameBut({next}))
      && (calls.unlinkCurrent ==> currentVersion !in files)
      && (calls.unlinkNew ==> next !in files)
    }

    /** internalUpdate up to the rename, with its cleaning up. */
    method Install(buf: string, next: int, calls: UpdateCalls) returns (ok: bool, failedLink: bool)
      requires Valid() && next > currentVersion
      modifies this`files
      ensures Valid()
      ensures ok == old(Replaces(calls))
      ensures !ok ==> Failed(next, calls)
      ensures ok ==> failedLink == (0 !in old(files))
      ensures ok ==> next !in files && 0 in files && files[0] == buf
      ensures ok && !failedLink ==> currentVersion in files && files[currentVersion] == old(files)[0]
      ensures SameBut({0, currentVersion, next})
      ensures ok && failedLink && currentVersion != 0 ==> SameBut({0, next})
    {
      ok, failedLink := Attempt(buf, next, calls);
      if !ok {
        CleanUp(next, calls);
      }
      BackupsKept(next);
    }

    /** removeVersion_ml.  The current version is looked for under the active file's name but
        removed under its own number. */
    method RemoveVersion(version: int, stat: bool, unlink: bool) returns (code: Code)
      requires Valid()
      modifies this`files, this`numVersions, this`versionQ
      ensures Valid()
      ensures code == Ok <==>
        stat && unlink && version in old(files) && (version == currentVersion ==> 0 in old(files))
      ensures code in {Ok, FileNotFound, SysCallError}
      ensures code == FileNotFound <==> !stat || (if version == currentVersion then 0 else version) !in old(files)
      ensures code != Ok ==> files == old(files) && numVersions == old(numVersions) && versionQ == old(versionQ)
      ensures code == Ok ==> version !in files && SameBut({version}) && numVersions == old(numVersions) - 1
      ensures code == Ok ==> forall v :: v in versionQ <==> v in old(versionQ) && v != version
      ensures code == Ok && version !in old(versionQ) ==> versionQ == old(versionQ)
      ensures code == Ok && version in old(versionQ) ==> |versionQ| == |old(versionQ)| - 1
      ensures code == Ok && old(versionQ) != [] && version == old(versionQ)[0] ==> versionQ == old(versionQ)[1..]
    {
      var probe := if version == currentVersion then ACTIVE_VERSION else version;
      if probe !in files || !stat {
        return FileNotFound;
      }
      if version !in files || !unlink {
        return SysCallError;
      }
      files := files - {version};
      var i := 0;
      while i < |versionQ| && versionQ[i] != version
        invariant i <= |versionQ| && version !in versionQ[..i]
      {
        i := i + 1;
      }
      if i < |versionQ| {
        IncreasingWithout(versionQ, i);
        versionQ := versionQ[..i] + versionQ[i + 1..];
      }
      numVersions := numVersions - 1;
      code := Ok;
      forall v | v in versionQ
        ensures Retained(v)
      {
        assert old(Retained(v));
      }
    }

    /** The assertion of line 454 fails: there is no backup to evict. */
    predicate NothingToEvict()
      reads this
    {
      0 in files && numVersions >= numberBackups && versionQ == []
    }

    /** Evicts the oldest backup when there are enough of them; the eviction itself may fail. */
    method Evict(failedLink: bool, calls: UpdateCalls) returns (aborted: bool)
      requires Valid()
      modifies this`files, this`numVersions, this`versionQ
      ensures Valid()
      ensures aborted == (old(numVersions) >= numberBackups && !failedLink && old(versionQ) == [])
      ensures old(numVersions) < numberBackups || failedLink || aborted || !calls.Evict() ==>
        files == old(files) && numVersions == old(numVersions) && versionQ == old(versionQ)
      ensures old(numVersions) >= numberBackups && !failedLink && !aborted ==>
        SameBut({old(versionQ)[0]})
      ensures old(numVersions) >= numberBackups && !failedLink && !aborted && calls.Evict() ==>
        && old(versionQ)[0] !in files
        && versionQ == old(versionQ)[1..] && numVersions == old(numVersions) - 1
      ensures versionQ == old(versionQ) || (old(versionQ) != [] && versionQ == old(versionQ)[1..])
      ensures |versionQ| - numVersions == old(|versionQ| - numVersions)
    {
      aborted := false;
      if numVersions >= numberBackups && !failedLink {
        if versionQ == [] {
          return true;
        }
        assert Retained(versionQ[0]);
        var code := RemoveVersion(versionQ[0], calls.statOldest, calls.unlinkOldest);
      }
    }

    /** The bookkeeping of an update. */
    method Commit(failedLink: bool, next: int)
      requires Valid() && next > currentVersion
      requires !failedLink ==> currentVersion > 0 && currentVersion in files
      modifies this`currentVersion, this`numVersions, this`versionQ, this`history
      ensures Valid()
      ensures currentVersion == next && numVersions == old(numVersions) + 1
      ensures versionQ == old(versionQ) + if failedLink then [] else [old(currentVersion)]
      ensures history == if failedLink then old(history) else old(history)[old(currentVersion) := files[old(currentVersion)]]
    {
      if !failedLink {
        history := history[currentVersion := files[currentVersion]];
        IncreasingAppend(versionQ, currentVersion);
        versionQ := versionQ + [currentVersion];
      }
      numVersions := numVersions + 1;
      currentVersion := next;
      forall v | v in versionQ
        ensures Retained(v)
      {
        assert v != old(currentVersion) ==> old(Retained(v));
      }
    }

    /** The state after a successful update to version `next`: the new contents are active, the
        old ones are kept under the old number, and nothing else but an evicted backup changed. */
    twostate predicate Rolled(buf: string, new next: int)
      reads this
    {
      && 0 in files && files[0] == buf && currentVersion == next && next !in files
      && (0 in old(files) ==>
            && old(currentVersion) in files && files[old(currentVersion)] == old(files)[0]
            && history == old(history)[old(currentVersion) := old(files)[0]]
            && old(currentVersion) in versionQ)
      && (0 !in old(files) ==> history == old(history) && versionQ == old(versionQ) && numVersions == old(numVersions) + 1)
      && SameBut({0, old(currentVersion), next} + if old(versionQ) == [] then {} else {old(versionQ)[0]})
    }

    /** The queue after an update whose eviction, if one was due, succeeded. */
    twostate predicate Evicted()
      reads this
    {
      if old(numVersions) >= numberBackups then
        && old(versionQ) != [] && versionQ == old(versionQ)[1..] + [old(currentVersion)]
        && old(versionQ)[0] !in files && numVersions == old(numVersions)
      else
        versionQ == old(versionQ) + [old(currentVersion)] && numVersions == old(numVersions) + 1
    }

    /** The eviction and the bookkeeping of an update whose new file is active. */
    method Finish(failedLink: bool, next: int, calls: UpdateCalls) returns (code: Code)
      requires Valid() && next > currentVersion
      requires !failedLink ==> currentVersion > 0 && currentVersion in files
      modifies this`files, this`currentVersion, this`numVersions, this`versionQ, this`history
      ensures Valid()
      ensures code == if !failedLink && old(numVersions) >= numberBackups && old(versionQ) == [] then Aborted else Ok
      ensures code == Aborted ==> files == old(files) && Untouched()
      ensures code == Ok ==> currentVersion == next
      ensures code == Ok && failedLink ==>
        files == old(files) && history == old(history) && versionQ == old(versionQ) && numVersions == old(numVersions) + 1
      ensures code == Ok && !failedLink ==>
        && SameBut(if old(versionQ) == [] then {} else {old(versionQ)[0]})
        && history == old(history)[old(currentVersion) := old(files)[old(currentVersion)]]
        && old(currentVersion) in versionQ
      ensures code == Ok && !failedLink && (old(numVersions) < numberBackups || calls.Evict()) ==> Evicted()
      ensures code == Ok && !failedLink ==> |versionQ| - numVersions == old(|versionQ| - numVersions)
    {
      ghost var head := if versionQ == [] then -1 else versionQ[0];
      assert versionQ != [] ==> Retained(head);
      var aborted := Evict(failedLink, calls);
      if aborted {
        return Aborted;
      }
      Commit(failedLink, next);
      code := Ok;
    }

    /** Nothing that was known is forgotten, and what a new version supersedes is recorded. */
    twostate predicate Advanced()
      reads this
    {
      && old(currentVersion) <= currentVersion
      && old(accepted) <= accepted
      && (forall v :: v in old(history) ==> v in history && history[v] == old(history)[v])
      && (currentVersion != old(currentVersion) && 0 in old(files) ==>
            old(currentVersion) in history && history[old(currentVersion)] == old(files)[0])
    }

    /** An orderly step keeps the directory tidy and the number of backups bounded. */
    twostate predicate KeptTidy()
      reads this
    {
      Tidy() && numVersions <= Max(old(numVersions), numberBackups)
    }

    /** An update of a tidy directory never meets the failing assertion. */
    twostate lemma UpdateKeepsTidy(code: Code, new buf: string, new next: int, new calls: UpdateCalls)
      requires old(Valid() && Tidy()) && next > old(currentVersion) && Removing(calls)
      requires code == Ok ==> Rolled(buf, next) && Evicted()
      requires code != Ok ==> Untouched() && Failed(next, calls)
      ensures KeptTidy()
    {
      if code == Ok {
        assert old(currentVersion) == versionQ[|versionQ| - 1];
        forall v | v in files && v != 0
          ensures v in versionQ
        {
          if v != old(currentVersion) {
            var i :| 0 <= i < |old(versionQ)| && old(versionQ)[i] == v;
            assert old(numVersions) >= numberBackups && i > 0 ==> versionQ[i - 1] == v;
            assert old(numVersions) < numberBackups ==> versionQ[i] == v;
          }
        }
      }
    }

    /** A failed update keeps the active contents exactly if the current version is not 0 or the
        file could not be unlinked. */
    twostate lemma FailureKeepsActive(next: int, new calls: UpdateCalls)
      requires old(Valid()) && 0 in old(files) && Untouched() && next > currentVersion && Failed(next, calls)
      ensures 0 in files && files[0] == old(files)[0] <==> currentVersion != 0 || !calls.unlinkCurrent
      ensures forall v :: v in versionQ ==> v in files && files[v] == old(files)[v]
    {
      forall v | v in versionQ
        ensures v in files && files[v] == old(files)[v]
      {
        assert old(Retained(v));
      }
    }

    /** internalUpdate once the number of the new version is known to be good. */
    method Replace(buf: string, next: int, calls: UpdateCalls) returns (code: Code)
      requires Valid() && next > currentVersion
      modifies this`files, this`currentVersion, this`numVersions, this`versionQ, this`history
      ensures Valid()
      ensures code == if !old(Replaces(calls)) then SysCallError else if old(NothingToEvict()) then Aborted else Ok
      ensures code != Ok ==> Untouched()
      ensures code == SysCallError ==> Failed(next, calls)
      ensures code == Ok ==> Rolled(buf, next)
      ensures code == Ok && 0 in old(files) && (old(numVersions) < numberBackups || calls.Evict()) ==> Evicted()
      ensures old(Backed()) ==> code != Aborted && Backed()
    {
      var ok, failedLink := Install(buf, next, calls);
      if !ok {
        return SysCallError;
      }
      assert versionQ != [] ==> Retained(versionQ[0]);
      code := Finish(failedLink, next, calls);
    }

    method InternalUpdate(buf: string, newVersion: int, calls: UpdateCalls) returns (code: Code)
      requires Valid()
      modifies this`files, this`currentVersion, this`numVersions, this`versionQ, this`history
      ensures Valid()
      // exactly when it succeeds
      ensures code ==
        if 0 <= newVersion <= old(currentVersion) then InvalidVersion
        else if !old(Replaces(calls)) then SysCallError
        else if old(NothingToEvict()) then Aborted
        else Ok
      // a failure changes nothing but what cleaning up leaves
      ensures code == InvalidVersion ==> files == old(files)
      ensures code != Ok ==> Untouched()
      ensures code == SysCallError ==> Failed(old(Next(newVersion)), calls)
      // a success rolls the version
      ensures code == Ok ==> Rolled(buf, old(Next(newVersion)))
      ensures code == Ok && 0 in old(files) && (old(numVersions) < numberBackups || calls.Evict()) ==> Evicted()
      // over runs
      ensures Advanced()
      ensures old(Backed()) ==> code != Aborted && Backed()
      ensures old(Tidy()) && Removing(calls) ==> code != Aborted && KeptTidy()
    {
      if 0 <= newVersion <= currentVersion {
        return InvalidVersion;
      }
      code := Replace(buf, Next(newVersion), calls);
      if old(Tidy()) && Removing(calls) {
        UpdateKeepsTidy(code, buf, old(Next(newVersion)), calls);
      }
    }

    /** The file that holds a version. */
    function Location(version: int): int
      reads this
    {
      if version == currentVersion then ACTIVE_VERSION else version
    }

    predicate Readable(version: int, fetch: ReadCalls)
      reads this
    {
      Location(version) in files && fetch.Works()
    }

    /** getVersion_ml: a retained version reads as what was active when it was superseded. */
    method GetVersion(version: int, fetch: ReadCalls) returns (code: Code, buf: string)
      requires Valid()
      ensures code == Ok <==> Readable(version, fetch)
      ensures code ==
        if (if version == currentVersion then 0 else version) !in files || !fetch.open || !fetch.fstat then FileNotFound
        else if !fetch.read then SysCallError
        else Ok
      ensures code == Ok && version == currentVersion ==> buf == files[0]
      ensures code == Ok && version != currentVersion ==> buf == files[version]
      ensures code == Ok && version in versionQ ==> version in history && buf == history[version]
    {
      assert version in versionQ ==> Retained(version);
      buf := "";
      var location := if version == currentVersion then ACTIVE_VERSION else version;
      if location !in files || !fetch.open || !fetch.fstat {
        return FileNotFound, buf;
      }
      if !fetch.read {
        return SysCallError, buf;
      }
      return Ok, files[location];
    }

    /** updateVersion_ml: of the updates based on one version at most one succeeds, since the
        bases of the successful ones strictly increase (`accepted`, in Valid). */
    method UpdateVersion(buf: string, basedOn: int, newVersion: int, calls: UpdateCalls) returns (code: Code)
      requires Valid()
      modifies this`files, this`currentVersion, this`numVersions, this`versionQ, this`history, this`accepted
      ensures Valid() && Advanced()
      // exactly when it succeeds
      ensures code ==
        if basedOn != old(currentVersion) then VersionNotCurrent
        else if 0 <= newVersion <= old(currentVersion) then InvalidVersion
        else if !old(Replaces(calls)) then SysCallError
        else if old(NothingToEvict()) then Aborted
        else Ok
      ensures code == Ok ==> accepted == old(accepted) + [basedOn] && Rolled(buf, old(Next(newVersion)))
      ensures code == Ok ==> currentVersion == if newVersion < 0 then old(currentVersion) + 1 else newVersion
      ensures code == Ok && 0 in old(files) && (old(numVersions) < numberBackups || calls.Evict()) ==> Evicted()
      ensures code != Ok ==> Untouched()
      ensures code == SysCallError ==> Failed(old(Next(newVersion)), calls)
      ensures code in {VersionNotCurrent, InvalidVersion} ==> files == old(files)
      ensures old(Backed()) ==> code != Aborted && Backed()
      ensures old(Tidy()) && Removing(calls) ==> code != Aborted && KeptTidy()
    {
      if basedOn != currentVersion {
        return VersionNotCurrent;
      }
      code := InternalUpdate(buf, newVersion, calls);
      if code == Ok {
        IncreasingAppend(accepted, basedOn);
        accepted := accepted + [basedOn];
      }
    }

    /** revertToVersion_ml.  It reports success whatever the update inside it did. */
    method RevertToVersion(version: int, fetch: ReadCalls, calls: UpdateCalls) returns (code: Code, inner: Code)
      requires Valid()
      modifies this`files, this`currentVersion, this`numVersions, this`versionQ, this`history
      ensures Valid() && Advanced() && accepted == old(accepted)
      ensures code == Ok || code == Aborted <==> old(Readable(version, fetch))
      ensures code == Aborted <==> old(Readable(version, fetch) && Replaces(calls) && NothingToEvict())
      ensures code == SysCallError <==> old(Location(version) in files) && fetch.open && fetch.fstat && !fetch.read
      ensures code in {Ok, Aborted, FileNotFound, SysCallError}
      ensures code in {FileNotFound, SysCallError} ==> files == old(files) && Untouched() && inner == code
      ensures inner == Ok <==> code == Ok && old(Replaces(calls))
      ensures inner == Ok ==> Rolled(old(files[Location(version)]), old(currentVersion) + 1)
      ensures code == Ok && inner != Ok ==> inner == SysCallError && Untouched() && Failed(old(currentVersion) + 1, calls)
      ensures old(Backed()) ==> code != Aborted && Backed()
      ensures old(Tidy()) && Removing(calls) ==> code != Aborted && KeptTidy()
    {
      var buf;
      code, buf := GetVersion(version, fetch);
      inner := code;
      if code == Ok {
        inner := InternalUpdate(buf, -1, calls);
        code := if inner == Aborted then Aborted else Ok;
      }
    }

    /** checkForUserUpdate: an outside edit is rolled into a new version with the same contents
        as its predecessor. */
    method CheckForUserUpdate(stat: bool, modified: bool, roll: bool, fetch: ReadCalls, calls: UpdateCalls)
      returns (result: bool, code: Code)
      requires Valid()
      modifies this`files, this`currentVersion, this`numVersions, this`versionQ, this`history, this`accepted
      ensures Valid() && Advanced()
      ensures result == (0 in old(files) && stat && modified)
      // exactly when the edit is rolled
      ensures code ==
        if !(result && roll && fetch.open && fetch.fstat) then FileNotFound
        else if !(fetch.read && old(Replaces(calls))) then SysCallError
        else if old(NothingToEvict()) then Aborted
        else Ok
      ensures code == Ok ==>
        && 0 in old(files) && Rolled(old(files)[0], old(currentVersion) + 1)
        && old(currentVersion) in files && files[old(currentVersion)] == files[0]
      ensures code != Ok ==> Untouched()
      ensures !(result && roll) ==> files == old(files) && Untouched()
      ensures code != Ok && code != Aborted ==> files == old(files) || Failed(old(currentVersion) + 1, calls)
      ensures old(Backed()) ==> code != Aborted && Backed()
      ensures old(Tidy()) && Removing(calls) ==> code != Aborted && KeptTidy()
    {
      result, code := 0 in files && stat && modified, FileNotFound;
      if result && roll {
        var buf;
        code, buf := GetVersion(currentVersion, fetch);
        if code == Ok {
          code := UpdateVersion(buf, currentVersion, -1, calls);
        }
      }
    }

    /** Somebody changes or loses the active file outside the program. */
    method Outside(buf: string, lose: bool)
      requires Valid()
      modifies this`files
      ensures Valid() && Advanced() && SameBut({0})
      ensures lose ==> 0 !in files
      ensures !lose ==> 0 in files && files[0] == buf
      ensures old(Backed()) && !lose ==> Backed()
      ensures old(Tidy()) && !lose ==> KeptTidy()
    {
      files := if lose then files - {ACTIVE_VERSION} else files[ACTIVE_VERSION := buf];
      forall v | v in versionQ
        ensures Retained(v)
      {
        assert old(Retained(v));
      }
    }

    method Remove(version: int, stat: bool, unlink: bool) returns (code: Code)
      requires Valid()
      modifies this`files, this`numVersions, this`versionQ
      ensures Valid() && Advanced()
      ensures code == Ok ==> version !in files && SameBut({version})
      ensures code == Ok <==> stat && unlink && version in old(files) && (version == currentVersion ==> 0 in old(files))
      ensures old(Backed()) && version != ACTIVE_VERSION ==> code != Aborted && Backed()
      ensures old(Tidy()) && version != ACTIVE_VERSION ==> code != Aborted && KeptTidy()
    {
      code := RemoveVersion(version, stat, unlink);
    }

    /** When an update works, and what an operation that works has done. */
    predicate Updates(newVersion: int, calls: UpdateCalls)
      reads this
    {
      !(0 <= newVersion <= currentVersion) && Replaces(calls) && !NothingToEvict()
    }

    twostate predicate Did(op: Op)
      reads this
    {
      match op
      case Update(buf, basedOn, newVersion, calls) =>
        basedOn == old(currentVersion) && old(Updates(newVersion, calls)) ==> Rolled(buf, old(Next(newVersion)))
      case Force(buf, newVersion, calls) =>
        old(Updates(newVersion, calls)) ==> Rolled(buf, old(Next(newVersion)))
      case Revert(version, fetch, calls) =>
        old(Readable(version, fetch) && Updates(-1, calls)) ==> Rolled(old(files[Location(version)]), old(currentVersion) + 1)
      case Remove(version, stat, unlink) =>
        stat && unlink && 0 in old(files) && version in old(files) ==> version !in files && SameBut({version})
      case Check(stat, modified, roll, fetch, calls) =>
        stat && modified && roll && 0 in old(files) && fetch.Works() && old(Updates(-1, calls)) ==>
          Rolled(old(files)[0], old(currentVersion) + 1)
      case EditActive(buf) => 0 in files && files[0] == buf && SameBut({0})
      case LoseActive => 0 !in files && SameBut({0})
    }

    method Step(op: Op) returns (code: Code)
      requires Valid()
      modifies this`files, this`currentVersion, this`numVersions, this`versionQ, this`history, this`accepted
      ensures Valid() && Advanced() && Did(op)
      ensures old(Backed()) && KeepsActive(op) ==> code != Aborted && Backed()
      ensures old(Tidy()) && Orderly(op) ==> code != Aborted && KeptTidy()
    {
      match op {
        case Update(buf, basedOn, newVersion, calls) =>
          code := UpdateVersion(buf, basedOn, newVersion, calls);
        case Force(buf, newVersion, calls) =>
          code := InternalUpdate(buf, newVersion, calls);
        case Revert(version, fetch, calls) =>
          var inner;
          code, inner := RevertToVersion(version, fetch, calls);
        case Remove(version, stat, unlink) =>
          code := Remove(version, stat, unlink);
        case Check(stat, modified, roll, fetch, calls) =>
          var result;
          result, code := CheckForUserUpdate(stat, modified, roll, fetch, calls);
        case EditActive(buf) =>
          Outside(buf, false);
          code := Ok;
        case LoseActive =>
          Outside("", true);
          code := Ok;
      }
    }

    /** Any run of operations and outside edits.  Valid says that every queued backup still reads as
        what was active when it was superseded, and that no base was updated twice.  As long as nothing
        takes the active file away the assertion of line 454 never fails, whichever calls do.  If
        removals work too, the queue lists exactly the backups, and their number stays bounded. */
    method Run(ops: seq<Op>) returns (aborted: bool)
      requires Valid()
      modifies this`files, this`currentVersion, this`numVersions, this`versionQ, this`history, this`accepted
      ensures Valid()
      ensures old(currentVersion) <= currentVersion && old(accepted) <= accepted
      ensures forall v :: v in old(history) ==> v in history && history[v] == old(history)[v]
      ensures old(Backed()) && (forall op :: op in ops ==> KeepsActive(op)) ==> !aborted && Backed()
      ensures old(Tidy()) && (forall op :: op in ops ==> Orderly(op)) ==> !aborted && KeptTidy()
    {
      aborted := false;
      for n := 0 to |ops|
        invariant Valid()
        invariant old(currentVersion) <= currentVersion && old(accepted) <= accepted
        invariant forall v :: v in old(history) ==> v in history && history[v] == old(history)[v]
        invariant old(Backed()) && (forall op :: op in ops ==> KeepsActive(op)) ==> Backed()
        invariant old(Tidy()) && (forall op :: op in ops ==> Orderly(op)) ==> KeptTidy()
      {
        assert ops[n] in ops;
        var code := Step(ops[n]);
        if code == Aborted {
          return true;
        }
      }
    }

    /** Going to version v and back: the contents are those of before, even if v, or the version
        gone back to, is evicted on the way. */
    method RevertAndBack(version: int, fetch: ReadCalls, there: UpdateCalls, back: UpdateCalls) returns (restored: bool)
      requires Valid() && 0 in files
      modifies this`files, this`currentVersion, this`numVersions, this`versionQ, this`history
      ensures Valid() && Advanced()
      ensures restored ==> 0 in files && files[0] == old(files)[0] && currentVersion == old(currentVersion) + 2
      ensures old(
          Readable(version, fetch) && Replaces(there) && !NothingToEvict() && back.Work()) ==>
        restored
    {
      var start := currentVersion;
      restored := false;
      var code, inner := RevertToVersion(version, fetch, there);
      if inner == Ok {
        assert start in versionQ && files[start] == old(files)[0];
        var code', inner' := RevertToVersion(start, fetch, back);
        restored := inner' == Ok;
      }
    }
  }

  const ALL_WORK := UpdateCalls(true, true, "", true, true, true, true, true, true)

  /** A directory that could not be listed at the start: the first update fails, though every later
      call works, and takes the active file with it. */
  method UnlistedLosesActive(contents: string, buf: string) returns (r: Rollback, code: Code)
    ensures code == SysCallError && 0 !in r.files
  {
    r := new Rollback(2, map[0 := contents], false, [], true, ReadCalls(true, true, true), ALL_WORK);
    assert r.currentVersion == 0;
    code := r.InternalUpdate(buf, -1, ALL_WORK);
  }

  /** One backup, none allowed beyond it, and no active file at the start: the first update
      meets the failing assertion. */
  method MissingActiveAborts(contents: string, buf: string) returns (r: Rollback, code: Code)
    ensures code == Aborted
  {
    r := new Rollback(1, map[1 := contents], true, [1], true, ReadCalls(true, true, true), ALL_WORK);
    assert r.versionQ == [] && r.numVersions == 1;
    code := r.InternalUpdate(buf, -1, ALL_WORK);
  }

  /** A revert that reports success though the rename of the update inside it failed. */
  method RevertReportsSuccess(active: string, backup: string) returns (r: Rollback, code: Code, inner: Code)
    ensures code == Ok && inner == SysCallError && 0 in r.files && r.files[0] == active
  {
    var works := ReadCalls(true, true, true);
    r := new Rollback(2, map[0 := active, 1 := backup], true, [1], true, works, ALL_WORK);
    code, inner := r.RevertToVersion(1, works, ALL_WORK.(rename := false));
  }
}
