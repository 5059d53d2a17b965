/** Atomic upload over SFTP (src/infrastructure/sftp.rs). */
module Upload {
  // Write a temporary file, check its size, rename it over the target, or remove the target first where
  // the server refuses to overwrite. Every reply of the server is a parameter, so the contracts hold for
  // every way the steps can fail.

  import opened Bytes

  type Files = map<string, seq<byte>>

  /** `Refused` is SSH_FX_FAILURE: the server did nothing. Any other error may come although the server
  has done it, when the connection is lost before the reply. */
  datatype Reply = Ok | Refused | Error(applied: bool)

  predicate Applied(r: Reply) {
    r == Ok || r == Error(true)
  }

  function Renamed(files: Files, from: string, to: string): Files {
    if from in files then (files - {from})[to := files[from]] else files
  }

  /** The path is as it was before: the same content, or no file both times. */
  predicate SameAt(before: Files, now: Files, path: string) {
    if path in before then path in now && now[path] == before[path] else path !in now
  }

  /** Outside those paths, nothing differs. */
  ghost predicate SameBut(before: Files, now: Files, paths: set<string>) {
    forall p: string :: p !in paths ==> SameAt(before, now, p)
  }

  predicate TargetIs(now: Files, target: string, content: seq<byte>) {
    target in now && now[target] == content
  }

  /** The remote file system; `trace` is every state it has been in. */
  class RemoteFiles {
    var files: Files
    ghost var trace: seq<Files>

    constructor (files: Files)
      ensures this.files == files && trace == [files]
    {
      this.files := files;
      trace := [files];
    }

    /** Creates the file, or truncates it. */
    method Create(path: string, r: Reply)
      modifies this
      ensures files == if Applied(r) then old(files)[path := []] else old(files)
      ensures trace == old(trace) + [files]
    {
      if Applied(r) {
        files := files[path := []];
      }
      trace := trace + [files];
    }

    method Append(path: string, data: seq<byte>)
      modifies this
      ensures files == if path in old(files) then old(files)[path := old(files)[path] + data] else old(files)
      ensures trace == old(trace) + [files]
    {
      if path in files {
        files := files[path := files[path] + data];
      }
      trace := trace + [files];
    }

    /** The server loses the end of what it was sent. */
    method Truncate(path: string, length: nat)
      modifies this
      ensures files == if path in old(files) && length <= |old(files)[path]|
                       then old(files)[path := old(files)[path][..length]] else old(files)
      ensures trace == old(trace) + [files]
    {
      if path in files && length <= |files[path]| {
        files := files[path := files[path][..length]];
      }
      trace := trace + [files];
    }

    method Rename(from: string, to: string, r: Reply)
      modifies this
      ensures files == if Applied(r) then Renamed(old(files), from, to) else old(files)
      ensures trace == old(trace) + [files]
    {
      if Applied(r) && from in files {
        files := (files - {from})[to := files[from]];
      }
      trace := trace + [files];
    }

    method Remove(path: string, r: Reply)
      modifies this
      ensures files == if Applied(r) then old(files) - {path} else old(files)
      ensures trace == old(trace) + [files]
    {
      if Applied(r) {
        files := files - {path};
      }
      trace := trace + [files];
    }
  }

  /** Everything the server and the network decide. `accepted` are the sizes of the writes that succeed
  before one fails; `kept` is how much of the temporary file survives its closing. */
  datatype Replies = Replies(
    create: Reply, accepted: seq<nat>, kept: nat, closed: bool, stat: bool,
    rename: Reply, remove: Reply, renameAgain: Reply, cleanup: Reply)

  function TempPath(remote: string, stamp: string): string {
    remote + ".termbridge-tmp-" + stamp
  }

  /** From `from` on, only the temporary file differs. */
  ghost predicate TraceKeepsTarget(before: Files, trace: seq<Files>, from: nat, tmp: string)
    requires from <= |trace|
  {
    forall i :: from <= i < |trace| ==> SameBut(before, trace[i], {tmp})
  }

  function Total(sizes: seq<nat>): nat {
    if sizes == [] then 0 else Total(sizes[..|sizes| - 1]) + sizes[|sizes| - 1]
  }

  lemma {:induction false} TotalGrows(sizes: seq<nat>, i: nat)
    requires i <= |sizes|
    ensures Total(sizes[..i]) <= Total(sizes)
  {
    if i < |sizes| {
      TotalGrows(sizes[..|sizes| - 1], i);
      assert sizes[..|sizes| - 1][..i] == sizes[..i];
    } else {
      assert sizes[..i] == sizes;
    }
  }

  /** The streaming copy into the temporary file: all of `data`, or a prefix when a write fails. */
  method CopyInto(fs: RemoteFiles, tmp: string, data: seq<byte>, accepted: seq<nat>) returns (ok: bool)
    requires tmp in fs.files && fs.files[tmp] == []
    modifies fs
    ensures ok <==> Total(accepted) >= |data|
    ensures tmp in fs.files && fs.files[tmp] <= data && (ok ==> fs.files[tmp] == data)
    ensures old(fs.trace) <= fs.trace
    ensures SameBut(old(fs.files), fs.files, {tmp})
    ensures TraceKeepsTarget(old(fs.files), fs.trace, |old(fs.trace)|, tmp)
  {
    ghost var before := fs.files;
    ghost var first := fs.trace;
    var sent := 0;
    var i := 0;
    while sent < |data| && i < |accepted|
      invariant 0 <= sent <= |data| && 0 <= i <= |accepted|
      invariant sent == Min(Total(accepted[..i]), |data|)
      invariant tmp in fs.files && fs.files[tmp] == data[..sent]
      invariant first <= fs.trace
      invariant SameBut(before, fs.files, {tmp})
      invariant TraceKeepsTarget(before, fs.trace, |first|, tmp)
    {
      var n := Min(accepted[i], |data| - sent);
      assert data[..sent + n] == data[..sent] + data[sent..sent + n];
      fs.Append(tmp, data[sent..sent + n]);
      sent := sent + n;
      assert accepted[..i + 1][..i] == accepted[..i];
      i := i + 1;
    }
    TotalGrows(accepted, i);
    ok := sent == |data|;
    assert i == |accepted| ==> accepted[..i] == accepted;
    assert ok ==> data[..sent] == data;
  }

  /** The temporary file is created, takes all the data, is closed and looked at, and has the size it should
  have: exactly then it is renamed. */
  predicate IsStored(localSize: nat, data: seq<byte>, r: Replies) {
    && r.create == Ok && Total(r.accepted) >= |data| && r.closed && r.stat
    && (if r.kept < |data| then r.kept else |data|) == localSize
  }

  /** The rename succeeds, or the fallback: nothing else puts the file in its place and says so. */
  predicate IsPlaced(r: Replies) {
    r.rename == Ok || (r.rename == Refused && r.remove == Ok && r.renameAgain == Ok)
  }

  /** Steps 1 to 3: the target is not touched, and success means that the temporary file holds the first
  `localSize` bytes of the data. */
  method StoreTemp(fs: RemoteFiles, tmp: string, localSize: nat, data: seq<byte>, r: Replies) returns (ok: bool)
    modifies fs
    ensures old(fs.trace) <= fs.trace
    ensures SameBut(old(fs.files), fs.files, {tmp})
    ensures TraceKeepsTarget(old(fs.files), fs.trace, |old(fs.trace)|, tmp)
    ensures ok <==> IsStored(localSize, data, r)
    ensures ok ==> localSize <= |data| && tmp in fs.files && fs.files[tmp] == data[..localSize]
  {
    fs.Create(tmp, r.create);
    if r.create != Ok {
      return false;
    }
    ghost var created := fs.trace;
    var copied := CopyInto(fs, tmp, data, r.accepted);
    if !copied {
      return false;
    }
    fs.Truncate(tmp, r.kept);
    if !r.closed || !r.stat {
      return false;
    }
    ok := |fs.files[tmp]| == localSize;
  }

  /** What the target may be while and after it is replaced: old, new, or missing once it was removed. */
  ghost predicate Replacing(before: Files, now: Files, tmp: string, target: string, content: seq<byte>, removed: bool) {
    && SameBut(before, now, {tmp, target})
    && (SameAt(before, now, target) || TargetIs(now, target, content) || (removed && target !in now))
  }

  /** `replace_remote_file`. */
  method ReplaceRemoteFile(fs: RemoteFiles, tmp: string, target: string, r: Replies) returns (ok: bool)
    requires tmp != target && tmp in fs.files
    modifies fs
    ensures old(fs.trace) <= fs.trace
    ensures var before, content := old(fs.files), old(fs.files)[tmp];
            var removed := r.rename == Refused && Applied(r.remove);
            && Replacing(before, fs.files, tmp, target, content, removed)
            && (forall i :: |old(fs.trace)| <= i < |fs.trace| ==>
                  Replacing(before, fs.trace[i], tmp, target, content, removed && i > |old(fs.trace)|))
    ensures r.rename == Refused ==>
              && |old(fs.trace)| + 1 < |fs.trace|
              && fs.trace[|old(fs.trace)|] == old(fs.files)
              && (Applied(r.remove) ==> fs.trace[|old(fs.trace)| + 1] == old(fs.files) - {target})
    ensures ok ==> TargetIs(fs.files, target, old(fs.files)[tmp]) && tmp !in fs.files
    ensures ok <==> IsPlaced(r)
    ensures !ok ==>
              var placed := r.rename == Error(true)
                            || (r.rename == Refused && r.remove == Ok && r.renameAgain == Error(true));
              if placed then TargetIs(fs.files, target, old(fs.files)[tmp]) && tmp !in fs.files
              else if r.rename == Refused && Applied(r.remove) then target !in fs.files
              else SameAt(old(fs.files), fs.files, target)
  {
    fs.Rename(tmp, target, r.rename);
    if r.rename == Ok {
      return true;
    }
    if r.rename != Refused {
      return false;
    }
    fs.Remove(target, r.remove);
    if r.remove != Ok {
      return false;
    }
    fs.Rename(tmp, target, r.renameAgain);
    ok := r.renameAgain == Ok;
  }

  /** What a reader of the target can see: the complete old content, the complete new content of the size
  that was checked, or, only after the fallback has removed it, no file. */
  ghost predicate TargetIntact(
    before: Files, now: Files, tmp: string, target: string, data: seq<byte>, localSize: nat, removed: bool)
  {
    && SameBut(before, now, {tmp, target})
    && (|| SameAt(before, now, target)
        || (localSize <= |data| && TargetIs(now, target, data[..localSize]))
        || (removed && target !in now))
  }

  lemma IntactWhileReplacing(
    before: Files, stored: Files, now: Files, tmp: string, target: string, data: seq<byte>, localSize: nat,
    removed: bool)
    requires tmp != target && tmp in stored && localSize <= |data| && stored[tmp] == data[..localSize]
    requires SameBut(before, stored, {tmp}) && Replacing(stored, now, tmp, target, stored[tmp], removed)
    ensures TargetIntact(before, now, tmp, target, data, localSize, removed)
    ensures SameAt(stored, now, target) ==> SameAt(before, now, target)
  {
    assert SameAt(before, stored, target);
    forall p: string | p !in {tmp, target}
      ensures SameAt(before, now, p)
    {
      assert SameAt(before, stored, p) && SameAt(stored, now, p);
    }
  }

  /** State `removeAt`, if there is one, is the one right after the remove of the fallback; the temporary file
  was complete by then. */
  ghost predicate RemovedAt(
    trace: seq<Files>, first: nat, removeAt: nat, tmp: string, target: string, content: seq<byte>, removed: bool)
  {
    && removeAt <= |trace|
    && (removeAt < |trace| <==> removed)
    && (removed ==>
          && removeAt > first
          && trace[removeAt] == trace[removeAt - 1] - {target}
          && TargetIs(trace[removeAt - 1], tmp, content))
  }

  /** Replacing, seen from before the temporary file was written. */
  method ReplaceStored(
    fs: RemoteFiles, tmp: string, target: string, localSize: nat, data: seq<byte>, r: Replies, ghost before: Files)
    returns (ok: bool, ghost removeAt: nat)
    requires tmp != target && tmp in fs.files && localSize <= |data| && fs.files[tmp] == data[..localSize]
    requires SameBut(before, fs.files, {tmp})
    modifies fs
    ensures old(fs.trace) <= fs.trace
    ensures RemovedAt(
              fs.trace, |old(fs.trace)|, removeAt, tmp, target, data[..localSize],
              r.rename == Refused && Applied(r.remove))
    ensures forall i :: |old(fs.trace)| <= i < |fs.trace| ==>
              TargetIntact(before, fs.trace[i], tmp, target, data, localSize, i >= removeAt)
    ensures SameBut(before, fs.files, {tmp, target})
    ensures ok <==> IsPlaced(r)
    ensures if ok || RenameHidden(r) then TargetIs(fs.files, target, data[..localSize]) && tmp !in fs.files
            else if r.rename == Refused && Applied(r.remove) then target !in fs.files
            else SameAt(before, fs.files, target)
  {
    ghost var stored := fs.files;
    ghost var first := |fs.trace|;
    ok := ReplaceRemoteFile(fs, tmp, target, r);
    ghost var removed := r.rename == Refused && Applied(r.remove);
    removeAt := if removed then first + 1 else |fs.trace|;
    IntactWhileReplacing(before, stored, fs.files, tmp, target, data, localSize, removed);
    forall i | first <= i < |fs.trace|
      ensures TargetIntact(before, fs.trace[i], tmp, target, data, localSize, i >= removeAt)
    {
      IntactWhileReplacing(before, stored, fs.trace[i], tmp, target, data, localSize, removed && i > first);
    }
  }

  /** An error came back for a rename that was done. */
  predicate RenameHidden(r: Replies) {
    r.rename == Error(true) || (r.rename == Refused && r.remove == Ok && r.renameAgain == Error(true))
  }

  /** The whole upload. In every state the remote side goes through the target is intact, and it is never
  missing before the fallback has removed it, which happens only once the new content is complete.
  Success leaves the new content and no temporary file. Failure leaves the old content, except when
  the target had been removed (then it is missing) or when an error hid a rename that was done; once
  the cleanup is done too, no temporary file is left. */
  method Upload(fs: RemoteFiles, remote: string, stamp: string, localSize: nat, data: seq<byte>, r: Replies)
    returns (ok: bool, ghost replacing: bool, ghost removeAt: nat)
    modifies fs
    ensures old(fs.trace) <= fs.trace
    ensures forall i :: |old(fs.trace)| <= i < |fs.trace| ==>
              TargetIntact(old(fs.files), fs.trace[i], TempPath(remote, stamp), remote, data, localSize, i >= removeAt)
    ensures replacing <==> IsStored(localSize, data, r)
    ensures ok <==> IsStored(localSize, data, r) && IsPlaced(r)
    ensures replacing ==> localSize <= |data|
    ensures var removed := replacing && r.rename == Refused && Applied(r.remove);
            && (!removed ==> removeAt == |fs.trace|)
            && (removed ==>
                  RemovedAt(
                    fs.trace, |old(fs.trace)|, removeAt, TempPath(remote, stamp), remote, data[..localSize], true))
    ensures if !replacing then SameAt(old(fs.files), fs.files, remote)
            else if ok || RenameHidden(r) then TargetIs(fs.files, remote, data[..localSize])
            else if r.rename == Refused && Applied(r.remove) then remote !in fs.files
            else SameAt(old(fs.files), fs.files, remote)
    ensures ok || Applied(r.cleanup) ==> TempPath(remote, stamp) !in fs.files
  {
    var tmp := TempPath(remote, stamp);
    assert |tmp| > |remote|;
    ghost var before := fs.files;
    ok := StoreTemp(fs, tmp, localSize, data, r);
    replacing := ok;
    assert SameAt(before, fs.files, remote);
    if ok {
      ok, removeAt := ReplaceStored(fs, tmp, remote, localSize, data, r, before);
    }
    if !ok {
      fs.Remove(tmp, r.cleanup);
    }
    if !(replacing && r.rename == Refused && Applied(r.remove)) {
      removeAt := |fs.trace|;
    }
  }
}
