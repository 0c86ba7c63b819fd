/** The operating-system seam behind the protected objects: every call may answer
    anything (success, any status, a C++ exception), and hands out a fresh handle when
    it hands out one at all. What the calls do to the disk when they do report success
    is the contract the production seam implements. */
module ObjectSeam {
  type Byte = b: int | 0 <= b < 256 witness 0
  type Bytes = seq<Byte>
  type Sid = Bytes

  // Status codes of the C ABI.
  const OK := 0
  const INVALID_INPUT := 1
  const ABI_MISMATCH := 2
  const RESOURCE_LIMIT := 3
  const UNAVAILABLE := 4
  const DATA_CORRUPT := 5
  const MISSING := 6
  const COMMIT_UNKNOWN := 7

  const APP := 1
  const BRIDGE := 2
  const MAX_BYTES := 65536
  const INT64_MAX := 0x7FFF_FFFF_FFFF_FFFF

  /** How a call into the seam ends: with a status code, or with an exception. */
  datatype Outcome = Code(code: int) | Threw(badAlloc: bool) {
    predicate Good() { this == Code(OK) }

    /** The handlers around every operation: bad_alloc or anything else. */
    function Caught(): int {
      if Code? then code else if badAlloc then RESOURCE_LIMIT else UNAVAILABLE
    }
  }

  /** A HANDLE: null, INVALID_HANDLE_VALUE, or the n-th handle the seam handed out. */
  datatype Handle = Null | Invalid | Live(id: nat)

  /** 1 if h is the handle number k, otherwise 0. */
  ghost function Is(h: Handle, k: nat): nat {
    if h == Live(k) then 1 else 0
  }

  /** Volume serial and file index: the identity the code compares. */
  datatype FileId = FileId(volume: nat, file: nat)

  /** The names the code can open or bind; temporaries are never looked up by name. */
  datatype Name = Association | Credential(kind: int) | Discovery(kind: int) | Exchange(kind: int, id: Bytes)

  type ExchangeName = n: Name | n.Exchange? witness Exchange(0, [])

  datatype Ace = Ace(kind: int, flags: int, mask: int, sid: Sid)
  datatype ObjectInfo = ObjectInfo(id: FileId, directory: bool, reparse: bool, fixedDrive: bool, ntfs: bool,
                                   links: nat, owner: Sid, daclPresent: bool, daclProtected: bool, aces: seq<Ace>)

  const ALLOWED_ACE := 0
  const INHERIT_FLAGS := 3
  const FILE_ALL_ACCESS := 0x1F01FF

  /** A zeroed ObjectInfo, as the code default-initialises its locals. */
  const NO_INFO := ObjectInfo(FileId(0, 0), false, false, false, false, 0, [], false, false, [])

  predicate ObjectValid(i: ObjectInfo, sid: Sid, directory: bool, checkOwner: bool, checkDacl: bool) {
    && sid != [] && i.ntfs && i.fixedDrive && i.id.file != 0 && !i.reparse
    && i.directory == directory
    && (directory || i.links == 1)
    && (checkOwner ==> i.owner == sid)
    && (checkDacl ==>
          && i.daclPresent && i.daclProtected && |i.aces| == 1
          && i.aces[0] == Ace(ALLOWED_ACE, if directory then INHERIT_FLAGS else 0, FILE_ALL_ACCESS, sid))
  }

  predicate SafeComponent(name: string) {
    && 0 < |name| <= 64 && name != "." && name != ".."
    && (forall i | 0 <= i < |name| ::
          name[i] >= ' ' && name[i] !in {'\\', '/', ':', '*', '?', '\"', '<', '>', '|'})
    && name[|name| - 1] != '.' && name[|name| - 1] != ' '
  }

  predicate Hex(s: string, n: nat) {
    |s| == n && forall i | 0 <= i < n :: '0' <= s[i] <= '9' || 'a' <= s[i] <= 'f'
  }

  /** What the seam was asked to look at, and its answer: the user, or one object. */
  datatype Look = Who(outcome: Outcome, sid: Sid) | At(outcome: Outcome, handle: Handle, info: ObjectInfo)

  /** A delete request as it reached the seam: on whose serial, through which handle, and
      the bytes that the last successful read through that handle returned. */
  datatype DeleteRequest = DeleteRequest(serial: nat, handle: Handle, seen: Bytes)

  /** Handles 0 .. next-1 were handed out; attempts counts the close (or unlock)
      attempts per handle; refers says which file a handle is open on. */
  datatype HandleTable = HandleTable(next: nat, attempts: multiset<nat>, refers: map<nat, FileId>)

  /** Handed out, minus close attempts: 1 for an open handle, 0 once it was attempted. */
  ghost function Owed(t: HandleTable, k: nat): int {
    var handedOut: int := if k < t.next then 1 else 0;
    handedOut - t.attempts[k]
  }

  /** Files that handles are open on stay what they are. */
  ghost predicate Keeps(t: HandleTable, u: HandleTable) {
    forall k :: k in t.refers ==> k in u.refers && u.refers[k] == t.refers[k]
  }

  /** The handle h (if any) was handed out. */
  ghost predicate Opens(t: HandleTable, u: HandleTable, h: Handle) {
    && (h.Live? ==> h.id == t.next)
    && u.next == t.next + (if h.Live? then 1 else 0)
    && u.attempts == t.attempts
    && Keeps(t, u)
  }

  /** h is an open handle on file f. */
  ghost predicate OpenOn(t: HandleTable, h: Handle, f: FileId) {
    h.Live? && h.id in t.refers && t.refers[h.id] == f
  }

  /** The disk: what each name is bound to, what each file holds, and how many file
      writes were asked for. */
  datatype Disk = Disk(names: map<Name, FileId>, content: map<FileId, Bytes>, writes: nat)

  /** No name moved, and every file of d but f keeps its bytes. */
  ghost predicate Extends(d: Disk, e: Disk, f: FileId) {
    && e.names == d.names
    && (forall g :: g in d.content && g != f ==> g in e.content && e.content[g] == d.content[g])
  }

  /** No name moved, and every file keeps its bytes. */
  ghost predicate Kept(d: Disk, e: Disk) {
    && e.names == d.names
    && (forall g :: g in d.content ==> g in e.content && e.content[g] == d.content[g])
  }

  /** A file that d has never heard of. */
  ghost predicate Unknown(d: Disk, f: FileId) {
    f !in d.content && f !in d.names.Values
  }

  /** The name is bound to a file holding exactly these bytes; nothing else moved. */
  ghost predicate Published(d: Disk, e: Disk, name: Name, bytes: Bytes) {
    && name in e.names && e.names[name] in e.content && e.content[e.names[name]] == bytes
    && Unknown(d, e.names[name])
    && e.names == d.names[name := e.names[name]]
    && (forall g :: g in d.content ==> g in e.content && e.content[g] == d.content[g])
  }

  /** The name is bound, and if its file is on record these are its bytes. */
  ghost predicate Holds(d: Disk, name: Name, bytes: Bytes) {
    name in d.names && (d.names[name] in d.content ==> d.content[d.names[name]] == bytes)
  }

  /** The name is bound to a file holding exactly these bytes. */
  ghost predicate Stores(d: Disk, name: Name, bytes: Bytes) {
    name in d.names && d.names[name] in d.content && d.content[d.names[name]] == bytes
  }

  /** The fixed discovery names and their files are untouched. */
  ghost predicate KeepsDiscovery(d: Disk, e: Disk) {
    forall kind :: Name.Discovery(kind) in d.names ==>
      && Name.Discovery(kind) in e.names && e.names[Name.Discovery(kind)] == d.names[Name.Discovery(kind)]
      && (var f := d.names[Name.Discovery(kind)]; f in d.content ==> f in e.content && e.content[f] == d.content[f])
  }

  class Os {
    /** No other process touches the disk. */
    const quiet: bool
    /** No call but a rename ever reports COMMIT_UNKNOWN. */
    const honest: bool
    var handles: HandleTable
    var disk: Disk
    /** The delete requests, and the entry count each exchange creation was asked on. */
    ghost var deletes: seq<DeleteRequest>
    /** What the last successful read through each handle returned. */
    ghost var seen: map<nat, Bytes>
    /** Every look, in order. */
    ghost var looks: seq<Look>
    ghost var creations: seq<nat>

    constructor (quiet: bool, honest: bool, disk: Disk)
      ensures this.quiet == quiet && this.honest == honest && this.disk == disk
      ensures handles == HandleTable(0, multiset{}, map[]) && deletes == [] && creations == [] && seen == map[]
          && looks == []
    {
      this.quiet, this.honest := quiet, honest;
      handles, this.disk := HandleTable(0, multiset{}, map[]), disk;
      deletes, creations, seen, looks := [], [], map[], [];
    }

    predicate Honest(r: Outcome) { honest ==> r != Code(COMMIT_UNKNOWN) }

    /** The call changed nothing on the disk (another process may have). */
    twostate predicate Still()
      reads this`disk
    {
      (quiet ==> disk == old(disk)) && disk.writes == old(disk.writes)
    }

    /** Any status or exception. Meanwhile another process, if there is one, may have
        rebound names and rewritten files. */
    method Answer() returns (r: Outcome)
      modifies `disk
      ensures Still() && Honest(r)
    {
      if !quiet {
        var names: map<Name, FileId>, content: map<FileId, Bytes> := *, *;
        disk := disk.(names := names, content := content);
      }
      r := *;
      if honest && r == Code(COMMIT_UNKNOWN) { r := Code(UNAVAILABLE); }
    }

    /** Hands out a fresh handle, or not. */
    method Issue() returns (h: Handle)
      modifies `handles
      ensures Opens(old(handles), handles, h) && handles.refers == old(handles.refers)
      ensures h.Live? ==> h.id !in handles.refers
    {
      var which: nat := *;
      if which == 0 || handles.next in handles.refers { return Null; }
      if which == 1 { return Invalid; }
      h := Live(handles.next);
      handles := handles.(next := handles.next + 1);
    }

    // ----- calls that hand out no handle

    method UserSid() returns (r: Outcome, sid: Sid)
      modifies `disk, `looks
      ensures Still() && Honest(r) && looks == old(looks) + [Who(r, sid)]
    {
      sid := *;
      r := Answer();
      looks := looks + [Who(r, sid)];
    }

    /** A success reports the identity of the file the handle is open on. */
    method Inspect(h: Handle) returns (r: Outcome, info: ObjectInfo)
      modifies `disk, `looks
      ensures Still() && Honest(r) && looks == old(looks) + [At(r, h, info)]
      ensures r.Good() && h.Live? && h.id in handles.refers ==> info.id == handles.refers[h.id]
    {
      info := *;
      r := Answer();
      if r.Good() && h.Live? && h.id in handles.refers { info := info.(id := handles.refers[h.id]); }
      looks := looks + [At(r, h, info)];
    }

    /** A success returns the file's bytes as they are at that moment. */
    method ReadFile(h: Handle) returns (r: Outcome, bytes: Bytes)
      modifies `disk, `seen
      ensures seen == if r.Good() && h.Live? then old(seen)[h.id := bytes] else old(seen)
      ensures Still() && Honest(r)
      ensures r.Good() && h.Live? && h.id in handles.refers && handles.refers[h.id] in disk.content
        ==> bytes == disk.content[handles.refers[h.id]]
    {
      bytes := *;
      r := Answer();
      if r.Good() && h.Live? && h.id in handles.refers && handles.refers[h.id] in disk.content {
        bytes := disk.content[handles.refers[h.id]];
      }
      if r.Good() && h.Live? { seen := seen[h.id := bytes]; }
    }

    /** What was last read through the handle; nothing if it never was. */
    ghost function LastRead(h: Handle): Bytes
      reads `seen
    {
      if h.Live? && h.id in seen then seen[h.id] else []
    }

    method FlushFile(h: Handle) returns (r: Outcome)
      modifies `disk
      ensures Still() && Honest(r)
    {
      r := Answer();
    }

    method CountEntries(directory: Handle) returns (r: Outcome, count: nat)
      modifies `disk
      ensures Still() && Honest(r)
    {
      count := *;
      r := Answer();
    }

    method RandomName() returns (r: Outcome, runtime: string, random: string)
      modifies `disk
      ensures Still() && Honest(r)
    {
      runtime, random := *, *;
      r := Answer();
    }

    method ExchangeNonce() returns (r: Outcome, nonce: Bytes)
      modifies `disk
      ensures Still()
      ensures |nonce| == 16
    {
      nonce := *;
      if |nonce| != 16 { nonce := [0, 0, 0, 0, 0, 0, 0, 0, 0, 0, 0, 0, 0, 0, 0, 0]; }
      r := Answer();
    }

    // ----- calls that hand out a handle; an error or an exception may come with one too

    method OpenDirectory() returns (r: Outcome, h: Handle)
      modifies `disk, `handles
      ensures Still()
      ensures Opens(old(handles), handles, h)
    {
      r := Answer();
      h := Issue();
    }

    method Child(parent: Handle, component: string, directory: bool, create: bool, sid: Sid)
        returns (r: Outcome, h: Handle)
      modifies `disk, `handles
      ensures Still()
      ensures Opens(old(handles), handles, h)
    {
      r := Answer();
      h := Issue();
    }

    method ExchangeLock(directory: ObjectInfo, sid: Sid) returns (r: Outcome, h: Handle)
      modifies `disk, `handles
      ensures Still()
      ensures Opens(old(handles), handles, h)
    {
      r := Answer();
      h := Issue();
    }

    /** Opens an existing name: a success is a handle on the file bound to it, MISSING
        says that nothing is bound to it. */
    method OpenName(directory: Handle, name: Name, sid: Sid) returns (r: Outcome, h: Handle)
      modifies `disk, `handles
      ensures Still() && Honest(r)
      ensures Opens(old(handles), handles, h)
      ensures r == Code(MISSING) ==> name !in disk.names
      ensures r.Good() && h.Live? ==> name in disk.names && OpenOn(handles, h, disk.names[name])
    {
      r := Answer();
      if r == Code(MISSING) && name in disk.names { r := Code(UNAVAILABLE); }
      if r.Good() && name !in disk.names { r := Code(UNAVAILABLE); }
      h := Issue();
      if r.Good() && h.Live? {
        handles := handles.(refers := handles.refers[h.id := disk.names[name]]);
      }
    }

    /** Opens an exchange file: mode 1 reads, 2 pins the identity, 3 deletes for its
        creator, 4 reads and deletes for its consumer. */
    method ExchangeOpen(directory: Handle, name: ExchangeName, mode: nat, sid: Sid) returns (r: Outcome, h: Handle)
      modifies `disk, `handles
      ensures Still()
      ensures Opens(old(handles), handles, h)
      ensures r.Good() && h.Live? ==> name in disk.names && OpenOn(handles, h, disk.names[name])
    {
      r, h := OpenName(directory, name, sid);
    }

    /** Creates a new, empty file for the transaction; no name is bound to it yet. */
    method TemporaryCreate(directory: Handle, component: string, sid: Sid) returns (r: Outcome, h: Handle)
      modifies `disk, `handles
      ensures Honest(r)
      ensures Opens(old(handles), handles, h) && disk.writes == old(disk.writes)
      ensures quiet ==> disk == old(disk) || (r.Good() && h.Live? && h.id in handles.refers
                                             && disk == old(disk).(content :=
                                                  old(disk).content[handles.refers[h.id] := []]))
      ensures r.Good() && h.Live? ==>
        h.id in handles.refers && (quiet ==>
            handles.refers[h.id] !in old(disk).content
            && handles.refers[h.id] !in old(disk).names.Values)
    {
      r := Answer();
      h := Issue();
      var f: FileId := *;
      if r.Good() && h.Live? {
        if f in disk.content || f in disk.names.Values { return Code(UNAVAILABLE), h; }
        disk := disk.(content := disk.content[f := []]);
        handles := handles.(refers := handles.refers[h.id := f]);
      }
    }

    /** Creates and binds a new exchange file (mode 0); entries is what the directory
        held when it was counted. */
    method ExchangeCreate(directory: Handle, name: ExchangeName, sid: Sid, ghost entries: nat)
        returns (r: Outcome, h: Handle)
      modifies `disk, `handles, `creations
      ensures Opens(old(handles), handles, h) && disk.writes == old(disk.writes)
      ensures creations == old(creations) + [entries]
      ensures quiet ==> disk == old(disk) || (r.Good() && h.Live? && h.id in handles.refers && name !in old(disk).names
                                             && disk.content == old(disk).content[handles.refers[h.id] := []]
                                             && disk.names == old(disk).names[name := handles.refers[h.id]])
      ensures r.Good() && h.Live? ==>
        h.id in handles.refers && (quiet ==>
            handles.refers[h.id] !in old(disk).content
            && handles.refers[h.id] !in old(disk).names.Values)
      ensures r.Good() && h.Live? ==> name in disk.names && disk.names[name] == handles.refers[h.id]
    {
      r := Answer();
      h := Issue();
      creations := creations + [entries];
      var f: FileId := *;
      if r.Good() && h.Live? {
        if name in disk.names || f in disk.content || f in disk.names.Values { return Code(UNAVAILABLE), h; }
        disk := disk.(names := disk.names[name := f], content := disk.content[f := []]);
        handles := handles.(refers := handles.refers[h.id := f]);
      }
    }

    /** Writes a file from its start; a failure may leave any bytes behind. */
    method WriteFile(h: Handle, input: Bytes) returns (r: Outcome)
      modifies `disk
      ensures Honest(r)
      ensures disk.writes == old(disk.writes) + 1
      ensures quiet ==> disk.names == old(disk).names
      ensures quiet ==>
        disk.content == old(disk).content
        || (h.Live? && h.id in handles.refers && disk.content.Keys == old(disk).content.Keys + {handles.refers[h.id]}
            && disk.content == old(disk).content[handles.refers[h.id] := disk.content[handles.refers[h.id]]])
      ensures r.Good() && h.Live? && h.id in handles.refers ==>
        handles.refers[h.id] in disk.content && disk.content[handles.refers[h.id]] == input
    {
      r := Answer();
      var bytes: Bytes := *;
      if r.Good() { bytes := input; }
      disk := disk.(writes := disk.writes + 1);
      if h.Live? && h.id in handles.refers {
        disk := disk.(content := disk.content[handles.refers[h.id] := bytes]);
      }
    }

    /** Renames an open temporary over the fixed name. A success has bound the name to
        it; any other end may have. Without replacing, only an unbound name is bound. */
    method Replace(temporary: Handle, directory: Handle, name: Name, replacing: bool) returns (r: Outcome)
      modifies `disk
      ensures quiet ==>
        disk == old(disk)
        || (&& temporary.Live? && temporary.id in handles.refers && (replacing || name !in old(disk).names)
            && disk == old(disk).(names := old(disk).names[name := handles.refers[temporary.id]]))
      ensures r.Good() && temporary.Live? && temporary.id in handles.refers
        ==> name in disk.names && disk.names[name] == handles.refers[temporary.id]
    {
      r := Answer();
      var bound: bool := *;
      if temporary.Live? && temporary.id in handles.refers {
        if !replacing && name in disk.names {
          if r.Good() { r := Code(COMMIT_UNKNOWN); }
        } else if bound || r.Good() {
          disk := disk.(names := disk.names[name := handles.refers[temporary.id]]);
        }
      }
    }

    /** Asks for the deletion of the file behind an open handle, on one serial: the name
        the handle was opened by may go, and on a success it has gone. */
    method ExchangeDelete(h: Handle, name: ExchangeName, ghost serial: nat) returns (r: Outcome)
      modifies `disk, `deletes
      ensures deletes == old(deletes) + [DeleteRequest(serial, h, LastRead(h))]
      ensures disk.writes == old(disk.writes)
      ensures quiet ==> disk == old(disk) || disk == old(disk).(names := old(disk).names - {name})
      ensures r.Good() ==> name !in disk.names
    {
      r := Answer();
      deletes := deletes + [DeleteRequest(serial, h, LastRead(h))];
      var gone: bool := *;
      if gone || r.Good() { disk := disk.(names := disk.names - {name}); }
    }

    /** One close attempt; false leaves it unknown whether the handle is still open. */
    method Close(h: Handle) returns (ok: bool)
      modifies `disk, `handles
      ensures Still()
      ensures Closes(old(handles), handles, h)
    {
      var r := Answer();
      ok := r.Good();
      if h.Live? { handles := handles.(attempts := handles.attempts + multiset{h.id}); }
    }
  }

  /** The effect of one close attempt on h, or of none if h is no handle. */
  ghost predicate Closes(t: HandleTable, u: HandleTable, h: Handle) {
    && u.next == t.next && u.refers == t.refers
    && u.attempts == t.attempts + (if h.Live? then multiset{h.id} else multiset{})
  }
}
