/**
 The mounted file pool: members, names, free members and the next sequence number in memory, each
 operation's header writes on disk, and what a crash at any point of one leaves for the next mount.
 A header write may fail; from then on the pool answers no call, and only a new mount helps.
 */
module FilePool {
  import opened Wrappers
  import opened PoolDisk

  /** A member in memory; `copy` is its newer header copy. */
  datatype Member = Member(names: seq<Name>, ino: nat, birth: nat, sequence: nat, copy: nat, opens: nat, anonymous: bool)

  datatype PoolError = EIO | EEXIST | EISDIR | ENOTDIR | ENOENT | ENOSPC | EINVAL

  /** How a storage call goes: it succeeds, or it fails having left the disk as it was, torn, or
      written. */
  datatype Fault = Fine | Untouched | Midway | Reached

  const FREE := Member([], 0, 0, 0, 1, 0, false)

  /** A crash leaves the names before or the names after, and every named file's data. */
  ghost predicate Survives(was: Disk, d: Disk, before: map<Name, Id>, after: map<Name, Id>) {
    DiskOk(d) && (Recovers(d, before) || Recovers(d, after)) && KeepsData(was, d)
  }

  ghost predicate AllSurvive(was: Disk, crashes: seq<Disk>, before: map<Name, Id>, after: map<Name, Id>) {
    forall d :: d in crashes ==> Survives(was, d, before, after)
  }

  function NamesOn(o: OnDisk): seq<Name> {
    match Newest(o)
    case None => []
    case Some(h) => h.names
  }

  /** A member as a mount reads it. */
  function ReadMember(o: OnDisk): Member {
    match Newest(o)
    case None => FREE
    case Some(h) => Member(h.names, h.ino, h.birth, h.sequence, NewerCopy(o), 0, false)
  }

  /** A member in memory is its newest header. */
  ghost predicate Matches(o: OnDisk, m: Member) {
    match Newest(o)
    case None => m.names == [] && m.copy == 1
    case Some(h) => h.names == m.names && h.ino == m.ino && h.birth == m.birth && h.sequence == m.sequence && m.copy == NewerCopy(o)
  }

  lemma MatchedCopy(o: OnDisk, m: Member)
    requires Matches(o, m)
    ensures OlderCopy(o) == 1 - m.copy
  {
  }

  ghost predicate MembersOk(disk: Disk, members: map<Id, Member>, next: nat) {
    && disk.Keys == members.Keys && Sequenced(disk, next)
    && forall id :: id in members ==> Matches(disk[id], members[id])
  }

  /** The names are the members' names, each of one member. */
  ghost predicate NamesOk(members: map<Id, Member>, names: map<Name, Id>) {
    forall n, id: Id :: Maps(names, n, id) <==> id in members && n in members[id].names
  }

  predicate IsFree(o: OnDisk, m: Member) {
    m.names == [] && m.opens == 0 && o.data == [] && Newest(o).None?
  }

  /** A free member is empty on disk and nobody's. */
  ghost predicate FreeOk(disk: Disk, members: map<Id, Member>, free: seq<Id>) {
    && (forall i, j :: 0 <= i < j < |free| ==> free[i] != free[j])
    && forall id :: id in free ==> id in members && id in disk && IsFree(disk[id], members[id])
  }

  lemma PoolClaims(disk: Disk, members: map<Id, Member>, names: map<Name, Id>, next: nat)
    requires MembersOk(disk, members, next) && NamesOk(members, names)
    ensures ClaimsAre(disk, names)
  {
    forall n, m: Id
      ensures Claims(disk, m, n) <==> Maps(names, n, m)
    {
      if m in disk {
        assert Matches(disk[m], members[m]);
      }
    }
  }

  /** A header's names taken into memory. */
  lemma NamesTaken(members: map<Id, Member>, names: map<Name, Id>, id: Id, m: Member, after: map<Name, Id>)
    requires NamesOk(members, names) && id in members && Renamed(names, id, m.names, after)
    requires forall n :: n in m.names && n in names ==> names[n] == id
    ensures NamesOk(members[id := m], after)
  {
    forall n, k: Id
      ensures Maps(after, n, k) <==> k in members[id := m] && n in members[id := m][k].names
    {
      assert Maps(after, n, k) <==> if n in m.names then k == id else Maps(names, n, k) && k != id;
      assert Maps(names, n, k) <==> k in members && n in members[k].names;
    }
  }

  /** What stands apart from the free members does not disturb them. */
  lemma FreeApart(disk: Disk, members: map<Id, Member>, free: seq<Id>, id: Id, o: OnDisk, m: Member)
    requires FreeOk(disk, members, free) && id !in free
    ensures FreeOk(disk[id := o], members[id := m], free)
  {
  }

  lemma NamedIsNotFree(disk: Disk, members: map<Id, Member>, names: map<Name, Id>, free: seq<Id>, name: Name)
    requires FreeOk(disk, members, free) && NamesOk(members, names) && name in names
    ensures names[name] in members && name in members[names[name]].names && names[name] !in free
  {
    assert Maps(names, name, names[name]);
  }

  lemma FreeTaken(disk: Disk, members: map<Id, Member>, free: seq<Id>)
    requires FreeOk(disk, members, free) && |free| > 0
    ensures var n := |free| - 1; FreeOk(disk, members, free[..n]) && free[n] !in free[..n] && free[n] in members && free[n] in disk && members[free[n]].names == []
  {
    var n := |free| - 1;
    assert free[n] in free;
  }

  lemma FreeReturned(disk: Disk, members: map<Id, Member>, free: seq<Id>, id: Id)
    requires FreeOk(disk, members, free) && id !in free && id in members && id in disk
    ensures FreeOk(Emptied(disk, id), members[id := FREE], free + [id])
  {
  }

  lemma NamesEmptied(members: map<Id, Member>, names: map<Name, Id>, id: Id, after: map<Name, Id>)
    requires NamesOk(members, names) && id in members && forall n, m: Id :: Maps(after, n, m) <==> Maps(names, n, m) && m != id
    ensures NamesOk(members[id := FREE], after)
  {
  }

  /** A member without a header takes any identity. */
  lemma IdentityTaken(disk: Disk, members: map<Id, Member>, next: nat, id: Id, ino: nat, birth: nat)
    requires MembersOk(disk, members, next) && id in members && members[id].names == [] && Newest(disk[id]).None?
    ensures MembersOk(disk, members[id := members[id].(ino := ino, birth := birth)], next)
  {
    hide Sequenced, Newest;
    assert Matches(disk[id], members[id]);
  }

  lemma MemberAdded(disk: Disk, members: map<Id, Member>, next: nat, id: Id)
    requires MembersOk(disk, members, next) && id !in disk
    ensures MembersOk(disk[id := OnDisk(None, None, [])], members[id := FREE], next)
  {
    var e := disk[id := OnDisk(None, None, [])];
    forall m, c: nat | m in e && CopyAt(e[m], c).Some?
      ensures m in disk && CopyAt(e[m], c) == CopyAt(disk[m], c)
    {
    }
  }

  lemma NamesAdded(disk: Disk, members: map<Id, Member>, names: map<Name, Id>, free: seq<Id>, id: Id)
    requires id !in members && id !in disk && NamesOk(members, names) && FreeOk(disk, members, free)
    ensures NamesOk(members[id := FREE], names) && FreeOk(disk[id := OnDisk(None, None, [])], members[id := FREE], free + [id])
  {
  }

  // ----- Directories

  /** A path's directory: what stands before its last slash, the root for a name in it. */
  function DirName(path: Name): Name {
    if path == [] then "/"
    else if path[|path| - 1] == '/' then (if |path| == 1 then "/" else path[..|path| - 1])
    else DirName(path[..|path| - 1])
  }

  function AsPrefix(name: Name): Name {
    if name == "/" then "/" else name + "/"
  }

  /** Directories are not stored: some file is under the name, or it was made since the mount. */
  predicate IsDirectory(names: map<Name, Id>, directories: set<Name>, name: Name) {
    name in directories || (name !in names && exists file :: file in names && AsPrefix(name) <= file)
  }

  function ParentProblem(names: map<Name, Id>, directories: set<Name>, name: Name): Option<PoolError> {
    if DirName(name) in names then Some(ENOTDIR)
    else if !IsDirectory(names, directories, DirName(name)) then Some(ENOENT)
    else None
  }

  // ----- Lists of names

  function Without(names: seq<Name>, name: Name): (rest: seq<Name>)
    ensures forall n :: n in rest <==> n in names && n != name
  {
    if names == [] then []
    else
      var last := names[|names| - 1];
      Without(names[..|names| - 1], name) + if last == name then [] else [last]
  }

  /** `source` replaced by `target` in a list. */
  function Moved(names: seq<Name>, source: Name, target: Name): (moved: seq<Name>)
    ensures |moved| == |names|
    ensures forall n :: n in moved <==> (n in names && n != source) || (n == target && source in names)
  {
    if names == [] then []
    else
      var last := names[|names| - 1];
      Moved(names[..|names| - 1], source, target) + [if last == source then target else last]
  }

  function Unnamed(names: map<Name, Id>, name: Name): map<Name, Id> {
    names - {name}
  }

  function RenamedTo(names: map<Name, Id>, source: Name, target: Name, id: Id): map<Name, Id> {
    (names - {source})[target := id]
  }

  // ----- Refusals, in their order

  /** Why no file is made at a name that no file has. */
  function CreateRefusal(names: map<Name, Id>, directories: set<Name>, free: seq<Id>, name: Name, sized: bool): Option<PoolError> {
    if IsDirectory(names, directories, name) then Some(EISDIR)
    else if ParentProblem(names, directories, name).Some? then ParentProblem(names, directories, name)
    else if |free| == 0 then Some(ENOSPC)
    else if !sized then Some(EIO)
    else if !Encodable([name]) then Some(EINVAL)
    else None
  }

  function HeldNames(members: map<Id, Member>, id: Id): seq<Name> {
    if id in members then members[id].names else []
  }

  /** Why a file gets no second name. */
  function LinkRefusal(names: map<Name, Id>, directories: set<Name>, members: map<Id, Member>, source: Name, target: Name): Option<PoolError> {
    if source !in names then Some(ENOENT)
    else if target in names || IsDirectory(names, directories, target) then Some(EEXIST)
    else if ParentProblem(names, directories, target).Some? then ParentProblem(names, directories, target)
    else if !Encodable(HeldNames(members, names[source]) + [target]) then Some(EINVAL)
    else None
  }

  /** Two names of one file, or one name: a rename changes nothing. */
  predicate OneFile(names: map<Name, Id>, source: Name, target: Name) {
    source == target || (source in names && target in names && names[source] == names[target])
  }

  /** Why a file is not renamed. */
  function RenameRefusal(names: map<Name, Id>, directories: set<Name>, members: map<Id, Member>, source: Name, target: Name): Option<PoolError> {
    if source !in names then Some(ENOENT)
    else if source == target then None
    else if IsDirectory(names, directories, target) then Some(EISDIR)
    else if ParentProblem(names, directories, target).Some? then ParentProblem(names, directories, target)
    else if OneFile(names, source, target) then None
    else if !Encodable(Moved(HeldNames(members, names[source]), source, target)) then Some(EINVAL)
    else None
  }

  class FilePool {
    var disk: Disk
    var members: map<Id, Member>
    var free: seq<Id>
    var names: map<Name, Id>
    var directories: set<Name>
    var sequence: nat
    var failed: bool

    /** Between operations, unless a write failed, the newest headers are the names. */
    ghost predicate Valid()
      reads this
    {
      !failed ==> MembersOk(disk, members, sequence) && NamesOk(members, names) && FreeOk(disk, members, free)
    }

    /** The members as a mount reads them, before any name is given out. */
    constructor Read(d: Disk, next: nat)
      requires Sequenced(d, next)
      ensures disk == d && names == map[] && free == [] && directories == {"/"} && !failed && sequence == next
      ensures MembersOk(disk, members, sequence) && FreeOk(disk, members, free)
      ensures forall m :: m in members ==> members[m].names == NamesOn(d[m]) && members[m].opens == 0
    {
      hide Sequenced, NewerCopy;
      disk, names, free, directories, failed, sequence := d, map[], [], {"/"}, false, next;
      members := map m | m in d :: ReadMember(d[m]);
    }

    /** A mount of the disk now, at any moment between operations, gives the names in memory. */
    lemma MountAgrees()
      requires Valid() && !failed
      ensures Recovers(disk, names) && DiskOk(disk) && ClaimsAre(disk, names) && Disjoint(disk)
    {
      PoolClaims(disk, members, names, sequence);
      ClaimsRecover(disk, names);
    }

    /** `writeHeader`: the older copy written and flushed, and only then the names taken. A header
        too long for its copy is refused with nothing written; a write that fails fails the pool. */
    method WriteHeader(id: Id, header: seq<Name>, fault: Fault) returns (r: Outcome<PoolError>, ghost crashes: seq<Disk>)
      requires !failed && MembersOk(disk, members, sequence) && id in members
      modifies this`disk, this`members, this`sequence, this`failed
      ensures
        var h := Header(header, old(members[id].ino), old(members[id].birth), old(sequence));
        && (!Encodable(header) ==> r == Fail(EINVAL) && disk == old(disk) && members == old(members) && !failed && crashes == [old(disk)])
        && (Encodable(header) ==> crashes == [old(disk), Torn(old(disk), id), Wrote(old(disk), id, h)] && disk in crashes)
        && (Encodable(header) && fault.Fine? ==> r.Pass? && !failed && disk == Wrote(old(disk), id, h))
        && (Encodable(header) && !fault.Fine? ==> r == Fail(EIO) && failed && members == old(members))
      ensures r.Pass? ==> members == old(members)[id := old(members[id]).(names := header, sequence := old(sequence), copy := 1 - old(members[id].copy))]
      ensures sequence == old(sequence) + 1 && (!failed ==> MembersOk(disk, members, sequence))
    {
      hide Sequenced, Newest, NewerCopy;
      var m := members[id];
      var copy := 1 - m.copy;
      var h := Header(header, m.ino, m.birth, sequence);
      assert Matches(disk[id], m);
      MatchedCopy(disk[id], m);
      sequence := sequence + 1;
      if !Encodable(header) {
        SequencedLater(disk, old(sequence), sequence);
        return Fail(EINVAL), [disk];
      }
      crashes := [disk, Torn(disk, id), Wrote(disk, id, h)];
      var o := disk[id];
      if !fault.Fine? {
        disk := if fault.Untouched? then disk else disk[id := WithCopy(o, copy, if fault.Midway? then None else Some(h))];
        failed := true;
        return Fail(EIO), crashes;
      }
      WroteClaims(disk, id, h, old(sequence));
      disk := disk[id := WithCopy(o, copy, Some(h))];
      members := members[id := m.(names := header, sequence := h.sequence, copy := copy)];
      return Pass, crashes;
    }

    /** `release`: a member emptied and returned to the free ones. */
    method Release(id: Id, fault: Fault) returns (r: Outcome<PoolError>, ghost crashes: seq<Disk>)
      requires !failed && MembersOk(disk, members, sequence) && id in members
      modifies this`disk, this`members, this`free, this`failed
      ensures crashes == [old(disk), Emptied(old(disk), id)] && disk in crashes
      ensures fault.Fine? ==> r.Pass? && !failed && disk == Emptied(old(disk), id) && members == old(members)[id := FREE] && free == old(free) + [id]
      ensures !fault.Fine? ==> r == Fail(EIO) && failed && members == old(members) && free == old(free)
      ensures !failed ==> MembersOk(disk, members, sequence)
    {
      hide Sequenced, NewerCopy;
      crashes := [disk, Emptied(disk, id)];
      if !fault.Fine? {
        disk := if fault.Reached? then disk[id := OnDisk(None, None, [])] else disk;
        failed := true;
        return Fail(EIO), crashes;
      }
      EmptiedClaims(disk, id, sequence);
      disk := disk[id := OnDisk(None, None, [])];
      members := members[id := FREE];
      free := free + [id];
      return Pass, crashes;
    }

    /** The file at a path, if any. */
    method Lookup(name: Name) returns (r: Result<Option<Id>, PoolError>)
      ensures r == if failed then Err(EIO) else Ok(if name in names then Some(names[name]) else None)
    {
      if failed {
        return Err(EIO);
      }
      return Ok(if name in names then Some(names[name]) else None);
    }

    /** A new free member: the background's refill. */
    method Refill(id: Id)
      requires Valid() && !failed && id !in disk
      modifies this`disk, this`members, this`free
      ensures Valid() && free == old(free) + [id] && names == old(names) && members == old(members)[id := FREE] && disk == old(disk)[id := OnDisk(None, None, [])]
    {
      hide MembersOk, NamesOk, FreeOk;
      KeysMatch(disk, members, sequence);
      MemberAdded(disk, members, sequence, id);
      NamesAdded(disk, members, names, free, id);
      disk := disk[id := OnDisk(None, None, [])];
      members := members[id := FREE];
      free := free + [id];
    }

    /** A new file at `name`, or the one there unless `exclusive`. `sized` is whether its member took
        the header's length. A name too long for a header is refused only after a member is taken,
        which then is neither free nor named until the next mount. */
    method Create(name: Name, exclusive: bool, ino: nat, birth: nat, sized: bool, fault: Fault) returns (r: Result<Id, PoolError>, ghost crashes: seq<Disk>)
      requires Valid()
      modifies this
      ensures Valid() && directories == old(directories) && members.Keys == old(members).Keys
      ensures old(failed) ==> r == Err(EIO) && disk == old(disk) && crashes == []
      ensures !old(failed) && r.Ok? && name in old(names) ==> !exclusive && r.value == old(names)[name] && names == old(names) && disk == old(disk)
      ensures !old(failed) && r.Ok? && name !in old(names) ==>
        |old(free)| > 0 && r.value == old(free)[|old(free)| - 1] && names == old(names)[name := r.value] && free == old(free)[..|old(free)| - 1]
      ensures r.Err? ==> names == old(names)
      ensures !old(failed) ==>
        AllSurvive(old(disk), crashes, old(names), if name !in old(names) && |old(free)| > 0 then old(names)[name := old(free)[|old(free)| - 1]] else old(names))
      ensures !old(failed) ==> (r == Err(EINVAL) <==>
        name !in old(names) && !IsDirectory(old(names), directories, name) && ParentProblem(old(names), directories, name).None?
        && |old(free)| > 0 && sized && !Encodable([name]))
      ensures r == Err(EINVAL) ==> !failed && |free| == |old(free)| - 1 && disk == old(disk)
      ensures !old(failed) && name in old(names) ==> r == if exclusive then Err(EEXIST) else Ok(old(names)[name])
      ensures !old(failed) && name !in old(names) ==>
        var refusal := CreateRefusal(old(names), directories, old(free), name, sized);
        if refusal.Some? then r == Err(refusal.value) && !failed && disk == old(disk)
        else if fault.Fine? then r.Ok? && !failed
        else r == Err(EIO) && failed
      ensures !failed && r != Err(EINVAL) ==> free == old(free) || (|old(free)| > 0 && free == old(free)[..|old(free)| - 1] && Maps(names, name, old(free)[|old(free)| - 1]))
    {
      hide MembersOk, NamesOk, FreeOk, Encodable, Wrote, Torn, AllSurvive, IsDirectory, ParentProblem;
      crashes := [];
      NoneSurvive(disk, names, if name !in names && |free| > 0 then names[name := free[|free| - 1]] else names);
      if failed {
        return Err(EIO), crashes;
      }
      if name in names {
        return if exclusive then Err(EEXIST) else Ok(names[name]), crashes;
      }
      if IsDirectory(names, directories, name) {
        return Err(EISDIR), crashes;
      }
      var problem := ParentProblem(names, directories, name);
      if problem.Some? {
        ParentErrors(names, directories, name);
        return Err(problem.value), crashes;
      }
      if |free| == 0 {
        return Err(ENOSPC), crashes;
      }
      var id := free[|free| - 1];
      FreeTaken(disk, members, free);
      FreeIsBlank(disk, members, names, free, sequence, id);
      if !sized {
        return Err(EIO), crashes;
      }
      ghost var was, next, before, after := disk, sequence, names, names[name := id];
      ghost var blank := members[id].(ino := ino, birth := birth);
      ghost var left, others := free[..|free| - 1], members;
      ghost var h := Header([name], ino, birth, next);
      assert blank.names == [];
      IdentityTaken(disk, members, sequence, id, ino, birth);
      PoolClaims(disk, members, names, sequence);
      NamesTaken(members, names, id, blank, names);
      FreeApart(disk, members, left, id, disk[id], blank);
      assert disk[id := disk[id]] == disk;
      free := free[..|free| - 1];
      members := members[id := members[id].(ino := ino, birth := birth)];
      var wrote;
      wrote, crashes := WriteHeader(id, [name], fault);
      CreatesOne(before, id, name);
      if Encodable([name]) {
        WriteSurvives(was, before, id, h, next, after, crashes);
      } else {
        OneSurvives(was, others, before, after, next);
      }
      if wrote.Fail? {
        return Err(wrote.error), crashes;
      }
      WroteIs(was, id, h);
      FreeApart(was, others[id := blank], free, id, disk[id], members[id]);
      NamesTaken(others[id := blank], before, id, members[id], after);
      names := names[name := id];
      return Ok(id), crashes;
    }

    /** A name taken from its file. Without names and openings the member is free. */
    method Unlink(name: Name, fault: Fault) returns (r: Outcome<PoolError>, ghost crashes: seq<Disk>)
      requires Valid()
      modifies this
      ensures Valid() && directories == old(directories)
      ensures old(failed) ==> r == Fail(EIO) && disk == old(disk) && names == old(names) && crashes == []
      ensures !old(failed) && name !in old(names) ==>
        r == Fail(if IsDirectory(old(names), directories, name) then EISDIR else ENOENT) && disk == old(disk) && names == old(names) && crashes == []
      ensures !old(failed) && name in old(names) ==>
        (if fault.Fine? then r.Pass? && !failed && names == Unnamed(old(names), name) else r == Fail(EIO) && failed && names == old(names))
      ensures !old(failed) ==> AllSurvive(old(disk), crashes, old(names), Unnamed(old(names), name)) && (crashes != [] ==> disk in crashes)
    {
      hide MembersOk, NamesOk, FreeOk, Encodable, Wrote, Torn, Emptied, AllSurvive, IsDirectory;
      crashes := [];
      NoneSurvive(disk, names, Unnamed(names, name));
      if failed {
        return Fail(EIO), crashes;
      }
      if name !in names {
        return Fail(if IsDirectory(names, directories, name) then EISDIR else ENOENT), crashes;
      }
      var id := names[name];
      r, crashes := Drop(id, name, names, Unnamed(names, name), fault);
      if r.Fail? {
        return;
      }
      names := names - {name};
    }

    /** One name dropped from a member: its header rewritten without it, or, where it was the last and
        nothing is open on it, the member released. */
    method Drop(id: Id, name: Name, ghost before: map<Name, Id>, ghost after: map<Name, Id>, fault: Fault) returns (r: Outcome<PoolError>, ghost crashes: seq<Disk>)
      requires !failed && MembersOk(disk, members, sequence) && NamesOk(members, before) && FreeOk(disk, members, free)
      requires Maps(before, name, id) && after == Unnamed(before, name)
      modifies this`disk, this`members, this`free, this`sequence, this`failed
      ensures if fault.Fine? then r.Pass? && !failed else r == Fail(EIO) && failed
      ensures !failed ==> MembersOk(disk, members, sequence) && NamesOk(members, after) && FreeOk(disk, members, free)
      ensures AllSurvive(old(disk), crashes, before, after) && crashes != [] && disk in crashes
    {
      hide MembersOk, NamesOk, FreeOk, Encodable, Wrote, Torn, Emptied, AllSurvive;
      NamedIsNotFree(disk, members, before, free, name);
      PoolClaims(disk, members, before, sequence);
      KeysMatch(disk, members, sequence);
      ghost var was, next, others := disk, sequence, members;
      ghost var m := members[id];
      var rest := Without(members[id].names, name);
      DropsOne(members, before, id, name);
      if |rest| > 0 || members[id].opens > 0 {
        RestFits(was, members, next, id, name);
        ghost var h := Header(rest, m.ino, m.birth, next);
        WriteReady(was, members, next);
        r, crashes := WriteHeader(id, rest, fault);
        WriteSurvives(was, before, id, h, next, after, crashes);
        WroteIs(was, id, h);
        if r.Pass? {
          FreeApart(was, others, free, id, disk[id], members[id]);
          NamesTaken(others, before, id, members[id], after);
        }
      } else {
        WriteReady(was, members, next);
        r, crashes := Release(id, fault);
        EmptySurvives(was, before, id, next, after, crashes);
        if r.Pass? {
          FreeReturned(was, others, old(free), id);
          NamesEmptied(others, before, id, after);
        }
      }
    }

    /** A second name for a file. */
    method Link(source: Name, target: Name, fault: Fault) returns (r: Outcome<PoolError>, ghost crashes: seq<Disk>)
      requires Valid()
      modifies this
      ensures Valid() && directories == old(directories) && free == old(free)
      ensures old(failed) ==> r == Fail(EIO) && disk == old(disk) && crashes == []
      ensures r.Pass? ==> source in old(names) && target !in old(names) && names == old(names)[target := old(names)[source]]
      ensures r.Fail? ==> names == old(names)
      ensures !old(failed) && source !in old(names) ==> r == Fail(ENOENT)
      ensures !old(failed) && source in old(names) && (target in old(names) || IsDirectory(old(names), directories, target)) ==> r == Fail(EEXIST)
      ensures !old(failed) ==>
        AllSurvive(old(disk), crashes, old(names), if source in old(names) && target !in old(names) then old(names)[target := old(names)[source]] else old(names))
      ensures crashes != [] ==> disk in crashes
      ensures !old(failed) ==>
        var refusal := LinkRefusal(old(names), directories, old(members), source, target);
        if refusal.Some? then r == Fail(refusal.value) && !failed && disk == old(disk)
        else if fault.Fine? then r.Pass? && !failed
        else r == Fail(EIO) && failed
    {
      hide MembersOk, NamesOk, FreeOk, Encodable, Wrote, Torn, AllSurvive, IsDirectory, ParentProblem;
      crashes := [];
      NoneSurvive(disk, names, if source in names && target !in names then names[target := names[source]] else names);
      if failed {
        return Fail(EIO), crashes;
      }
      if source !in names {
        return Fail(ENOENT), crashes;
      }
      if target in names || IsDirectory(names, directories, target) {
        return Fail(EEXIST), crashes;
      }
      var problem := ParentProblem(names, directories, target);
      if problem.Some? {
        return Fail(problem.value), crashes;
      }
      var id := names[source];
      NamedIsNotFree(disk, members, names, free, source);
      PoolClaims(disk, members, names, sequence);
      ghost var was, next, before, after, others := disk, sequence, names, names[target := id], members;
      ghost var m := members[id];
      var header := members[id].names + [target];
      ghost var h := Header(header, m.ino, m.birth, next);
      AddsOne(members, names, id, target);
      WriteReady(was, members, next);
      r, crashes := WriteHeader(id, header, fault);
      if Encodable(header) {
        WriteSurvives(was, before, id, h, next, after, crashes);
      } else {
        OneSurvives(was, others, before, after, next);
      }
      if r.Fail? {
        return;
      }
      WroteIs(was, id, h);
      FreeApart(was, others, free, id, disk[id], members[id]);
      NamesTaken(others, before, id, members[id], after);
      names := names[target := id];
    }

    /** A member's header brought to the names it owns: rewritten with them, or the member emptied
        where it owns none and is not kept for an opening. No name changes its owner at any point. */
    method Settle(id: Id, kept: seq<Name>, keep: bool, fault: Fault) returns (r: Outcome<PoolError>, ghost crashes: seq<Disk>)
      requires !failed && MembersOk(disk, members, sequence) && FreeOk(disk, members, free) && id in members && id !in free
      requires (forall n :: n in kept <==> Owns(disk, n, id)) && Encodable(kept)
      modifies this`disk, this`members, this`free, this`sequence, this`failed
      ensures if fault.Fine? then r.Pass? && !failed else r == Fail(EIO) && failed
      ensures forall d :: d in crashes ==> DiskOk(d) && SameOwners(old(disk), d) && KeepsData(old(disk), d)
      ensures disk in crashes && disk.Keys == old(disk).Keys && members.Keys == old(members).Keys
      ensures !failed ==> MembersOk(disk, members, sequence) && FreeOk(disk, members, free)
      ensures !failed ==> (forall k :: k in members && k != id ==> members[k] == old(members)[k] && disk[k] == old(disk)[k]) && members[id].names == kept
      ensures forall k :: k in free ==> k in old(free) || k == id
    {
      hide MembersOk, FreeOk, Encodable, Wrote, Torn, Emptied, Owns, NewerCopy;
      WriteReady(disk, members, sequence);
      ghost var was, next, others := disk, sequence, members;
      ghost var m := members[id];
      if |kept| > 0 || keep {
        ghost var h := Header(kept, m.ino, m.birth, next);
        KeptSurvives(was, id, h, next);
        r, crashes := WriteHeader(id, kept, fault);
        WroteIs(was, id, h);
        if r.Pass? {
          FreeApart(was, others, free, id, disk[id], members[id]);
        }
      } else {
        EmptiedSurvives(was, id, next);
        r, crashes := Release(id, fault);
        if r.Pass? {
          FreeReturned(was, others, old(free), id);
        }
      }
      WriteKeys(was, id, Header(kept, m.ino, m.birth, next));
    }

    /** Rename a file, replacing a file there: the moved file's header first, then the replaced one's. */
    method Rename(source: Name, target: Name, fault: Fault, second: Fault) returns (r: Outcome<PoolError>, ghost crashes: seq<Disk>)
      requires Valid()
      modifies this
      ensures Valid() && directories == old(directories)
      ensures old(failed) ==> r == Fail(EIO) && disk == old(disk) && names == old(names) && crashes == []
      ensures !old(failed) && source !in old(names) ==> r == Fail(ENOENT)
      ensures r.Pass? && (source == target || (target in old(names) && old(names)[target] == old(names)[source])) ==> names == old(names) && disk == old(disk)
      ensures r.Pass? && source != target && !(target in old(names) && old(names)[target] == old(names)[source]) ==>
        source in old(names) && names == RenamedTo(old(names), source, target, old(names)[source])
      ensures !old(failed) && r.Fail? ==> names == old(names) || (failed && source in old(names) && names == RenamedTo(old(names), source, target, old(names)[source]))
      ensures !old(failed) ==>
        AllSurvive(old(disk), crashes, old(names), if source in old(names) then RenamedTo(old(names), source, target, old(names)[source]) else old(names))
      ensures crashes != [] ==> disk in crashes
      ensures !old(failed) ==>
        var refusal := RenameRefusal(old(names), directories, old(members), source, target);
        if refusal.Some? then r == Fail(refusal.value) && !failed && disk == old(disk) && names == old(names)
        else if OneFile(old(names), source, target) || (fault.Fine? && (target !in old(names) || second.Fine?)) then r.Pass? && !failed
        else r == Fail(EIO) && failed
    {
      hide MembersOk, NamesOk, FreeOk, Encodable, AllSurvive, IsDirectory, ParentProblem, Moved;
      crashes := [];
      NoneSurvive(disk, names, if source in names then RenamedTo(names, source, target, names[source]) else names);
      if failed {
        return Fail(EIO), crashes;
      }
      if source !in names {
        return Fail(ENOENT), crashes;
      }
      if source == target {
        return Pass, crashes;
      }
      if IsDirectory(names, directories, target) {
        return Fail(EISDIR), crashes;
      }
      var problem := ParentProblem(names, directories, target);
      if problem.Some? {
        return Fail(problem.value), crashes;
      }
      var id := names[source];
      if target in names && names[target] == id {
        return Pass, crashes;
      }
      r, crashes := Move(source, target, fault, second);
    }

    /** The header of the moved file under its new name, and then that of the file replaced. */
    method Move(source: Name, target: Name, fault: Fault, second: Fault) returns (r: Outcome<PoolError>, ghost crashes: seq<Disk>)
      requires Valid() && !failed && source in names && !OneFile(names, source, target)
      modifies this`disk, this`members, this`free, this`names, this`sequence, this`failed
      ensures Valid() && disk in crashes
      ensures
        var moved := RenamedTo(old(names), source, target, old(names)[source]);
        && AllSurvive(old(disk), crashes, old(names), moved)
        && if !Encodable(Moved(HeldNames(old(members), old(names)[source]), source, target))
          then r == Fail(EINVAL) && !failed && disk == old(disk) && names == old(names)
          else if !fault.Fine? then r == Fail(EIO) && failed && names == old(names)
          else names == moved && if target !in old(names) || second.Fine? then r.Pass? && !failed else r == Fail(EIO) && failed
    {
      hide MembersOk, NamesOk, FreeOk, Encodable, Wrote, Torn, Emptied, AllSurvive, Owns, NewerCopy;
      var id := names[source];
      NamedIsNotFree(disk, members, names, free, source);
      PoolClaims(disk, members, names, sequence);
      ghost var was, next, before, after, others := disk, sequence, names, RenamedTo(names, source, target, id), members;
      ghost var m := members[id];
      var header := Moved(members[id].names, source, target);
      ghost var h := Header(header, m.ino, m.birth, next);
      MovesOne(members, names, id, source, target);
      WriteReady(was, members, next);
      r, crashes := WriteHeader(id, header, fault);
      if Encodable(header) {
        WriteSurvives(was, before, id, h, next, after, crashes);
      } else {
        OneSurvives(was, others, before, after, next);
      }
      if r.Fail? {
        return;
      }
      WroteIs(was, id, h);
      FreeApart(was, others, free, id, disk[id], members[id]);
      LastSurvives(was, crashes, before, after, disk, h, id, next);
      if target !in names {
        NamesTaken(others, before, id, members[id], after);
        names := names - {source};
        names := names[target := id];
        return;
      }
      var replaced := names[target];
      NamedIsNotFree(was, others, before, free, target);
      ReplacedRest(others, before, id, replaced, source, target, after, members);
      names := names - {source};
      names := names[target := id];
      RestFits(was, others, next, replaced, target);
      ghost var first, moved := crashes, disk;
      ghost var more;
      r, more := Displace(replaced, target, second);
      crashes := first + more;
      MoreSurvive(was, moved, id, h, first, more, before, after);
    }

    /** The header of a replaced file rewritten without the name it lost, which another has. */
    method Displace(replaced: Id, target: Name, fault: Fault) returns (r: Outcome<PoolError>, ghost crashes: seq<Disk>)
      requires !failed && MembersOk(disk, members, sequence) && FreeOk(disk, members, free) && replaced in members && replaced !in free
      requires Recovers(disk, names) && Encodable(Without(members[replaced].names, target))
      requires forall n :: n in Without(members[replaced].names, target) <==> Maps(names, n, replaced)
      requires forall n, k: Id :: k != replaced ==> (Maps(names, n, k) <==> k in members && n in members[k].names)
      modifies this`disk, this`members, this`free, this`sequence, this`failed
      ensures Valid() && (if fault.Fine? then r.Pass? && !failed else r == Fail(EIO) && failed)
      ensures forall d :: d in crashes ==> DiskOk(d) && SameOwners(old(disk), d) && KeepsData(old(disk), d)
      ensures disk in crashes
    {
      hide MembersOk, NamesOk, FreeOk, Encodable, Owns;
      var rest := Without(members[replaced].names, target);
      RestOwned(disk, names, replaced, rest);
      ghost var taken := members;
      r, crashes := Settle(replaced, rest, members[replaced].opens > 0, fault);
      if r.Pass? {
        RestTaken(taken, members, replaced, rest, names);
      }
    }

    /** A descriptor opened on a member. */
    method Opened(id: Id)
      requires Valid() && id in members && id !in free
      modifies this`members
      ensures Valid() && names == old(names) && members == old(members)[id := old(members[id]).(opens := old(members[id].opens) + 1)]
    {
      hide MembersOk, NamesOk, FreeOk;
      ghost var was, m := members, members[id].(opens := members[id].opens + 1);
      if !failed {
        SameHeader(disk, members, names, free, sequence, id, m);
      }
      members := members[id := members[id].(opens := members[id].opens + 1)];
    }

    /** One opening closed: a member without a name is freed at its last, unless the pool failed. */
    method Closed(id: Id, fault: Fault) returns (r: Outcome<PoolError>, ghost crashes: seq<Disk>)
      requires Valid() && id in members && id !in free && members[id].opens > 0
      modifies this`members, this`disk, this`free, this`failed
      ensures Valid() && names == old(names)
      ensures !old(failed) ==> forall d :: d in crashes ==> DiskOk(d) && SameOwners(old(disk), d) && KeepsData(old(disk), d)
      ensures r.Pass? && !old(failed) && old(members[id].opens) == 1 && old(members[id].names) == [] ==> free == old(free) + [id]
      ensures old(failed) || old(members[id].opens) > 1 || old(members[id].names) != [] ==> r.Pass? && disk == old(disk) && free == old(free)
    {
      hide MembersOk, NamesOk, FreeOk, Owns, Emptied;
      ghost var was, m := members, members[id].(opens := members[id].opens - 1);
      if !failed {
        SameHeader(disk, members, names, free, sequence, id, m);
      }
      members := members[id := members[id].(opens := members[id].opens - 1)];
      crashes := [];
      if members[id].opens > 0 || members[id].names != [] || failed {
        return Pass, crashes;
      }
      PoolClaims(disk, members, names, sequence);
      NamelessOwnsNothing(disk, members, names, sequence, id);
      WriteReady(disk, members, sequence);
      EmptiedSurvives(disk, id, sequence);
      ghost var before, others := disk, members;
      r, crashes := Release(id, fault);
      if r.Pass? {
        FreeReturned(before, others, old(free), id);
        NamesEmptied(others, names, id, names);
      }
    }

    /** An anonymous file: a member taken, never given a header. */
    method Anonymous(ino: nat, birth: nat) returns (r: Result<Id, PoolError>)
      requires Valid()
      modifies this`members, this`free
      ensures Valid() && names == old(names)
      ensures r == if failed then Err(EIO) else if |old(free)| == 0 then Err(ENOSPC) else Ok(old(free)[|old(free)| - 1])
    {
      hide MembersOk, NamesOk, FreeOk;
      if failed {
        return Err(EIO);
      }
      if |free| == 0 {
        return Err(ENOSPC);
      }
      var id := free[|free| - 1];
      FreeTaken(disk, members, free);
      FreeIsBlank(disk, members, names, free, sequence, id);
      ghost var m := members[id].(ino := ino, birth := birth, anonymous := true);
      StillBlank(disk, members, sequence, id, m);
      CreatesOne2(names, id);
      NamesTaken(members, names, id, m, names);
      FreeApart(disk, members, free[..|free| - 1], id, disk[id], m);
      assert disk[id := disk[id]] == disk;
      free := free[..|free| - 1];
      members := members[id := members[id].(ino := ino, birth := birth, anonymous := true)];
      return Ok(id);
    }
  }

  // ----- A member lost

  /** A name in the root of two thousand letters. */
  function LongName(n: nat): (name: Name)
    ensures |name| == n + 1 && name[0] == '/'
  {
    if n == 0 then "/" else LongName(n - 1) + ['a']
  }

  lemma {:induction false} LongInRoot(n: nat)
    ensures DirName(LongName(n)) == "/"
  {
    if n > 0 {
      LongInRoot(n - 1);
      assert LongName(n)[..n] == LongName(n - 1);
    }
  }

  /** A pool of one free member, asked for a file of a name longer than a header: refused, and the
      member neither free nor named, with the pool not failed. */
  method LosesMember(ino: nat, birth: nat) returns (pool: FilePool, r: Result<Id, PoolError>)
    ensures r == Err(EINVAL) && fresh(pool) && pool.Valid() && !pool.failed
    ensures pool.members.Keys == {0} && pool.free == [] && pool.names == map[]
  {
    hide Encodable, LongName, IsDirectory, ParentProblem, MembersOk, FreeOk;
    pool := new FilePool.Read(map[], 0);
    assert NamesOk(pool.members, map[]) by { NothingHeld(pool.disk, pool.members, 0); }
    NothingHeld(pool.disk, pool.members, 0);
    pool.Refill(0);
    RootIsFree(2000);
    ghost var crashes;
    r, crashes := pool.Create(LongName(2000), true, ino, birth, true, Fine);
    assert pool.members.Keys == {0};
  }

  lemma NothingHeld(disk: Disk, members: map<Id, Member>, next: nat)
    requires MembersOk(disk, members, next) && disk == map[]
    ensures members == map[]
  {
  }

  lemma RootIsFree(n: nat)
    requires n >= 2000
    ensures !IsDirectory(map[], {"/"}, LongName(n)) && ParentProblem(map[], {"/"}, LongName(n)).None? && !Encodable([LongName(n)])
  {
    LongInRoot(n);
    assert [LongName(n)][..0] == [];
    assert NamesLength([LongName(n)]) == NamesLength([]) + 2 + |LongName(n)|;
  }

  lemma KeysMatch(disk: Disk, members: map<Id, Member>, next: nat)
    requires MembersOk(disk, members, next)
    ensures disk.Keys == members.Keys
  {
  }

  lemma WriteReady(disk: Disk, members: map<Id, Member>, next: nat)
    requires MembersOk(disk, members, next)
    ensures Sequenced(disk, next) && disk.Keys == members.Keys
  {
  }

  lemma WroteIs(d: Disk, id: Id, h: Header)
    requires id in d
    ensures d[id := Wrote(d, id, h)[id]] == Wrote(d, id, h)
  {
  }

  lemma NoneSurvive(was: Disk, before: map<Name, Id>, after: map<Name, Id>)
    ensures AllSurvive(was, [], before, after)
  {
  }

  lemma ParentErrors(names: map<Name, Id>, directories: set<Name>, name: Name)
    ensures ParentProblem(names, directories, name) != Some(EINVAL)
  {
  }

  lemma FreeIsBlank(disk: Disk, members: map<Id, Member>, names: map<Name, Id>, free: seq<Id>, next: nat, id: Id)
    requires MembersOk(disk, members, next) && NamesOk(members, names) && FreeOk(disk, members, free) && id in free
    ensures id in disk && id in members && Newest(disk[id]).None? && members[id].names == [] && Sequenced(disk, next)
    ensures forall n :: !Maps(names, n, id)
  {
  }

  /** A name dropped from its member is a name of nobody. */
  lemma DropsOne(members: map<Id, Member>, names: map<Name, Id>, id: Id, name: Name)
    requires NamesOk(members, names) && id in members && Maps(names, name, id)
    ensures members[id].names != []
    ensures Renamed(names, id, Without(members[id].names, name), Unnamed(names, name))
    ensures forall n :: n in Without(members[id].names, name) && n in names ==> names[n] == id
    ensures Without(members[id].names, name) == [] ==> forall n, m: Id :: Maps(Unnamed(names, name), n, m) <==> Maps(names, n, m) && m != id
  {
    hide Without;
    var rest := Without(members[id].names, name);
    forall n | n in members[id].names
      ensures Maps(names, n, id)
    {
    }
    assert name in members[id].names;
    if rest == [] {
      forall n | n in members[id].names
        ensures n == name
      {
        assert n !in rest;
      }
    }
  }

  lemma CreatesOne(names: map<Name, Id>, id: Id, name: Name)
    requires name !in names && forall n :: !Maps(names, n, id)
    ensures Renamed(names, id, [name], names[name := id]) && Renamed(names, id, [], names)
  {
    forall n, m: Id
      ensures Maps(names[name := id], n, m) <==> if n in [name] then m == id else Maps(names, n, m) && m != id
    {
      assert !Maps(names, n, id);
    }
    forall n, m: Id
      ensures Maps(names, n, m) <==> if n in [] then m == id else Maps(names, n, m) && m != id
    {
      assert !Maps(names, n, id);
    }
  }

  lemma AddsOne(members: map<Id, Member>, names: map<Name, Id>, id: Id, target: Name)
    requires NamesOk(members, names) && id in members && target !in names
    ensures Renamed(names, id, members[id].names + [target], names[target := id])
    ensures forall n :: n in members[id].names + [target] && n in names ==> names[n] == id
  {
    forall n | n in members[id].names
      ensures Maps(names, n, id)
    {
    }
  }

  lemma {:induction false} WithoutShorter(names: seq<Name>, name: Name)
    ensures NamesLength(Without(names, name)) <= NamesLength(names)
  {
    if names != [] {
      var last, rest := names[|names| - 1], Without(names[..|names| - 1], name);
      WithoutShorter(names[..|names| - 1], name);
      if last != name {
        assert (rest + [last])[..|rest|] == rest;
      } else {
        assert rest + [] == rest;
      }
    }
  }

  /** A member's names fit its header, and so do fewer of them. */
  lemma RestFits(disk: Disk, members: map<Id, Member>, next: nat, id: Id, name: Name)
    requires MembersOk(disk, members, next) && id in members && members[id].names != []
    ensures Encodable(Without(members[id].names, name))
  {
    assert Matches(disk[id], members[id]);
    assert CopyAt(disk[id], NewerCopy(disk[id])).Some?;
    WithoutShorter(members[id].names, name);
  }

  /** The outcomes of one header write all survive. */
  lemma WriteSurvives(d: Disk, names: map<Name, Id>, id: Id, h: Header, next: nat, after: map<Name, Id>, crashes: seq<Disk>)
    requires id in d && Sequenced(d, next) && h.sequence == next && Encodable(h.names) && ClaimsAre(d, names) && Renamed(names, id, h.names, after)
    requires crashes == [d, Torn(d, id), Wrote(d, id, h)]
    ensures AllSurvive(d, crashes, names, after)
  {
    hide Sequenced, Newest, Owns;
    WriteRecovers(d, names, id, h, next, after);
  }

  lemma EmptySurvives(d: Disk, names: map<Name, Id>, id: Id, next: nat, after: map<Name, Id>, crashes: seq<Disk>)
    requires id in d && Sequenced(d, next) && ClaimsAre(d, names) && crashes == [d, Emptied(d, id)]
    requires forall n, m: Id :: Maps(after, n, m) <==> Maps(names, n, m) && m != id
    ensures AllSurvive(d, crashes, names, after)
  {
    hide Sequenced;
    EmptyRecovers(d, names, id, next, after);
    assert forall n, m: Id :: Owns(Emptied(d, id), n, m) ==> m != id;
  }

  lemma OneSurvives(d: Disk, members: map<Id, Member>, names: map<Name, Id>, after: map<Name, Id>, next: nat)
    requires MembersOk(d, members, next) && ClaimsAre(d, names)
    ensures AllSurvive(d, [d], names, after)
  {
    ClaimsRecover(d, names);
  }

  lemma StillBlank(disk: Disk, members: map<Id, Member>, next: nat, id: Id, m: Member)
    requires MembersOk(disk, members, next) && id in members && Newest(disk[id]).None? && m.names == [] && m.copy == members[id].copy
    ensures MembersOk(disk, members[id := m], next)
  {
    hide Sequenced, Newest;
    assert Matches(disk[id], members[id]);
  }

  lemma CreatesOne2(names: map<Name, Id>, id: Id)
    requires forall n :: !Maps(names, n, id)
    ensures Renamed(names, id, [], names)
  {
    forall n, m: Id
      ensures Maps(names, n, m) <==> if n in [] then m == id else Maps(names, n, m) && m != id
    {
      assert !Maps(names, n, id);
    }
  }

  lemma WriteKeys(d: Disk, id: Id, h: Header)
    requires id in d
    ensures Wrote(d, id, h).Keys == d.Keys && Torn(d, id).Keys == d.Keys && Emptied(d, id).Keys == d.Keys
    ensures forall k :: k in d && k != id ==> Wrote(d, id, h)[k] == d[k] && Torn(d, id)[k] == d[k] && Emptied(d, id)[k] == d[k]
  {
  }

  lemma KeptSurvives(d: Disk, id: Id, h: Header, next: nat)
    requires id in d && Sequenced(d, next) && h.sequence == next && Encodable(h.names)
    requires forall n :: n in h.names <==> Owns(d, n, id)
    ensures forall e :: e in [d, Torn(d, id), Wrote(d, id, h)] ==> DiskOk(e) && SameOwners(d, e) && KeepsData(d, e)
  {
    hide Owns, Newest;
    TornKeeps(d, id, next);
    WroteClaims(d, id, h, next);
    KeptNamesKeepOwners(d, id, h, next);
    assert Sequenced(d, next) && Sequenced(Torn(d, id), next) && Sequenced(Wrote(d, id, h), next + 1);
  }

  lemma EmptiedSurvives(d: Disk, id: Id, next: nat)
    requires id in d && Sequenced(d, next) && forall n :: !Owns(d, n, id)
    ensures forall e :: e in [d, Emptied(d, id)] ==> DiskOk(e) && SameOwners(d, e) && KeepsData(d, e)
  {
    hide Owns, Newest;
    EmptiedClaims(d, id, next);
    EmptyKeepsOwners(d, id, next);
    assert Sequenced(d, next) && Sequenced(Emptied(d, id), next);
  }

  /** A moved name is its member's, whoever had it. */
  lemma MovesOne(members: map<Id, Member>, names: map<Name, Id>, id: Id, source: Name, target: Name)
    requires NamesOk(members, names) && id in members && Maps(names, source, id) && source != target && !Maps(names, target, id)
    ensures Renamed(names, id, Moved(members[id].names, source, target), RenamedTo(names, source, target, id))
    ensures target !in names ==> forall n :: n in Moved(members[id].names, source, target) && n in names ==> names[n] == id
  {
    hide Moved;
    forall n | n in members[id].names
      ensures Maps(names, n, id)
    {
    }
    forall n, m: Id
      ensures Maps(RenamedTo(names, source, target, id), n, m)
        <==> if n in Moved(members[id].names, source, target) then m == id else Maps(names, n, m) && m != id
    {
      assert Maps(names, n, id) <==> n in members[id].names;
    }
  }

  /** The state after a rename's first write survives as the names after. */
  lemma LastSurvives(was: Disk, crashes: seq<Disk>, before: map<Name, Id>, after: map<Name, Id>, d: Disk, h: Header, id: Id, next: nat)
    requires id in was && Sequenced(was, next) && h.sequence == next && Encodable(h.names) && ClaimsAre(was, before) && Renamed(before, id, h.names, after)
    requires d == Wrote(was, id, h)
    ensures Recovers(d, after)
  {
    hide Sequenced, Newest, Owns;
    WriteRecovers(was, before, id, h, next, after);
  }

  /** The replaced file's other names, and that it alone still lists a name it lost. */
  lemma ReplacedRest(others: map<Id, Member>, before: map<Name, Id>, id: Id, replaced: Id, source: Name, target: Name, after: map<Name, Id>, members: map<Id, Member>)
    requires NamesOk(others, before) && id in others && replaced in others && id != replaced
    requires Maps(before, source, id) && Maps(before, target, replaced) && source != target && after == RenamedTo(before, source, target, id)
    requires members.Keys == others.Keys && members[id].names == Moved(others[id].names, source, target)
    requires forall k :: k in others && k != id ==> members[k] == others[k]
    ensures members[replaced] == others[replaced] && others[replaced].names != []
    ensures forall n :: n in Without(members[replaced].names, target) <==> Maps(after, n, replaced)
    ensures forall n, k: Id :: k != replaced ==> (Maps(after, n, k) <==> k in members && n in members[k].names)
  {
    hide Moved, Without;
    assert target in others[replaced].names;
    forall n
      ensures n in Without(members[replaced].names, target) <==> Maps(after, n, replaced)
    {
      assert Maps(before, n, replaced) <==> n in others[replaced].names;
    }
    forall n, k: Id | k != replaced
      ensures Maps(after, n, k) <==> k in members && n in members[k].names
    {
      assert Maps(before, n, k) <==> k in others && n in others[k].names;
      assert Maps(before, source, k) <==> k in others && source in others[k].names;
      assert Maps(before, target, k) <==> k in others && target in others[k].names;
    }
  }

  lemma RestOwned(d: Disk, after: map<Name, Id>, id: Id, rest: seq<Name>)
    requires Recovers(d, after) && forall n :: n in rest <==> Maps(after, n, id)
    ensures forall n :: n in rest <==> Owns(d, n, id)
  {
    hide Owns;
    forall n
      ensures n in rest <==> Owns(d, n, id)
    {
      assert Owns(d, n, id) <==> Maps(after, n, id);
    }
  }

  lemma RestTaken(taken: map<Id, Member>, members: map<Id, Member>, id: Id, rest: seq<Name>, after: map<Name, Id>)
    requires id in members && members.Keys == taken.Keys && members[id].names == rest && forall k :: k in members && k != id ==> members[k] == taken[k]
    requires forall n :: n in rest <==> Maps(after, n, id)
    requires forall n, k: Id :: k != id ==> (Maps(after, n, k) <==> k in taken && n in taken[k].names)
    ensures NamesOk(members, after)
  {
  }

  lemma OwnerStands(d: Disk, n: Name, m: Id)
    requires Owns(d, n, m)
    ensures m in d
  {
  }

  /** What a second write leaves, after a first: the names after. */
  lemma MoreSurvive(was: Disk, moved: Disk, id: Id, h: Header, first: seq<Disk>, more: seq<Disk>, before: map<Name, Id>, after: map<Name, Id>)
    requires AllSurvive(was, first, before, after) && id in was && moved == Wrote(was, id, h) && Recovers(moved, after)
    requires forall d :: d in more ==> DiskOk(d) && SameOwners(moved, d) && KeepsData(moved, d)
    ensures AllSurvive(was, first + more, before, after)
  {
    hide Owns, Newest, NewerCopy, OlderCopy;
    WriteKeys(was, id, h);
    assert moved[id].data == was[id].data;
    forall d: Disk | d in more
      ensures Survives(was, d, before, after)
    {
      assert Recovers(d, after);
      forall n, m: Id | Owns(d, n, m) && m in was
        ensures m in d && d[m].data == was[m].data
      {
        OwnerStands(d, n, m);
        assert d[m].data == moved[m].data;
      }
    }
  }

  lemma SameHeader(disk: Disk, members: map<Id, Member>, names: map<Name, Id>, free: seq<Id>, next: nat, id: Id, m: Member)
    requires MembersOk(disk, members, next) && NamesOk(members, names) && FreeOk(disk, members, free) && id in members && id !in free
    requires m == members[id].(opens := m.opens)
    ensures MembersOk(disk, members[id := m], next) && NamesOk(members[id := m], names) && FreeOk(disk, members[id := m], free)
  {
    hide Sequenced;
    assert Matches(disk[id], members[id]);
  }

  lemma NamelessOwnsNothing(disk: Disk, members: map<Id, Member>, names: map<Name, Id>, next: nat, id: Id)
    requires MembersOk(disk, members, next) && NamesOk(members, names) && ClaimsAre(disk, names) && id in members && members[id].names == []
    ensures forall n :: !Owns(disk, n, id) && !Maps(names, n, id)
  {
  }

  // ----- The mount

  function KeptNames(names: seq<Name>, taken: map<Name, Id>): (kept: seq<Name>)
    ensures forall n :: n in kept <==> n in names && n !in taken
    ensures |kept| <= |names| && (|kept| == |names| ==> kept == names)
  {
    if names == [] then []
    else
      var last := names[|names| - 1];
      KeptNames(names[..|names| - 1], taken) + if last in taken then [] else [last]
  }

  lemma {:induction false} KeptShorter(names: seq<Name>, taken: map<Name, Id>)
    ensures NamesLength(KeptNames(names, taken)) <= NamesLength(names)
  {
    if names != [] {
      var last, rest := names[|names| - 1], KeptNames(names[..|names| - 1], taken);
      KeptShorter(names[..|names| - 1], taken);
      if last !in taken {
        assert (rest + [last])[..|rest|] == rest;
      } else {
        assert rest + [] == rest;
      }
    }
  }

  /** Every member once, the one written last first. */
  ghost predicate InOrder(d: Disk, order: seq<Id>) {
    && (forall m :: m in d <==> m in order)
    && (forall i, j :: 0 <= i < j < |order| ==> order[i] != order[j] && SequenceOf(d, order[i]) >= SequenceOf(d, order[j]))
  }

  ghost predicate SortedPart(d: Disk, order: seq<Id>, rest: set<Id>) {
    && (forall m :: m in d <==> m in order || m in rest) && (forall m :: m in order ==> m !in rest)
    && (forall i, j :: 0 <= i < j < |order| ==> order[i] != order[j] && SequenceOf(d, order[i]) >= SequenceOf(d, order[j]))
  }

  /** A member put in its place among those sorted. */
  lemma InsertSorted(d: Disk, order: seq<Id>, rest: set<Id>, m: Id, at: nat)
    requires SortedPart(d, order, rest) && m in rest && at <= |order|
    requires forall i :: 0 <= i < at ==> SequenceOf(d, order[i]) >= SequenceOf(d, m)
    requires forall i :: at <= i < |order| ==> SequenceOf(d, m) >= SequenceOf(d, order[i])
    ensures SortedPart(d, order[..at] + [m] + order[at..], rest - {m})
  {
    hide SequenceOf;
    var next := order[..at] + [m] + order[at..];
    assert forall i :: 0 <= i < at ==> next[i] == order[i];
    assert forall i :: at < i < |next| ==> next[i] == order[i - 1];
    forall x | x in order
      ensures x in next
    {
      var i :| 0 <= i < |order| && order[i] == x;
      assert next[if i < at then i else i + 1] == x;
    }
    assert next[at] == m;
  }

  method SortMembers(d: Disk) returns (order: seq<Id>)
    ensures InOrder(d, order)
  {
    hide SequenceOf;
    order := [];
    var rest := d.Keys;
    while rest != {}
      invariant SortedPart(d, order, rest)
      decreases |rest|
    {
      var m :| m in rest;
      var at := 0;
      while at < |order| && SequenceOf(d, order[at]) >= SequenceOf(d, m)
        invariant at <= |order| && forall i :: 0 <= i < at ==> SequenceOf(d, order[i]) >= SequenceOf(d, m)
      {
        at := at + 1;
      }
      forall i | at <= i < |order|
        ensures SequenceOf(d, m) >= SequenceOf(d, order[i])
      {
      }
      InsertSorted(d, order, rest, m, at);
      order := order[..at] + [m] + order[at..];
      rest := rest - {m};
    }
  }

  /** A number above every newest header's is above every copy's. */
  lemma NextSequence(d: Disk, next: nat)
    requires DiskOk(d) && forall m :: m in d && Newest(d[m]).Some? ==> SequenceOf(d, m) < next
    ensures Sequenced(d, next)
  {
    var was: nat :| Sequenced(d, was);
    forall m, c: nat | m in d && CopyAt(d[m], c).Some?
      ensures CopyAt(d[m], c).value.sequence < next
    {
      assert Newest(d[m]).Some?;
    }
  }

  /** Of names not yet given out, a member next in order owns just those it claims. */
  lemma NextOwns(d: Disk, order: seq<Id>, i: nat, names: map<Name, Id>, next: nat)
    requires InOrder(d, order) && i < |order| && Sequenced(d, next)
    requires forall n :: n in names <==> exists j :: 0 <= j < i && Claims(d, order[j], n)
    ensures forall n :: Owns(d, n, order[i]) <==> Claims(d, order[i], n) && n !in names
  {
    hide Sequenced, Newest;
    var m := order[i];
    forall n
      ensures Owns(d, n, m) <==> Claims(d, m, n) && n !in names
    {
      if Claims(d, m, n) && n !in names {
        forall k | k != m && Claims(d, k, n)
          ensures SequenceOf(d, k) < SequenceOf(d, m)
        {
          assert k in order;
          var j :| 0 <= j < |order| && order[j] == k;
          assert j >= i;
          SequencesOf(d, next, m, k, n);
        }
      } else if n in names && Claims(d, m, n) {
        var j :| 0 <= j < i && Claims(d, order[j], n);
        assert SequenceOf(d, order[j]) >= SequenceOf(d, m) && order[j] != m;
      }
    }
  }

  /** The names given out so far: those the first `i` members claim, each to its owner. */
  ghost predicate Given(d: Disk, order: seq<Id>, i: nat, names: map<Name, Id>)
    requires i <= |order|
  {
    && (forall n :: n in names <==> exists j :: 0 <= j < i && Claims(d, order[j], n))
    && (forall n, m: Id :: Maps(names, n, m) <==> m in order[..i] && Owns(d, n, m))
  }

  /** The first `i` members list the names they were given; the others what they claim. */
  ghost predicate Listing(d: Disk, order: seq<Id>, i: nat, members: map<Id, Member>, names: map<Name, Id>)
    requires i <= |order| && members.Keys == d.Keys && forall m :: m in order ==> m in d
  {
    && (forall m :: m in order[..i] ==> ListsOwn(members[m], names, m))
    && (forall m :: m in order[i..] ==> members[m].names == NamesOn(d[m]))
  }

  ghost predicate ListsOwn(member: Member, names: map<Name, Id>, m: Id) {
    forall n :: n in member.names <==> Maps(names, n, m)
  }

  /** How far a mount's repair is: the first `i` members in order have their names, and nothing that
      a mount would read has changed. */
  ghost predicate Repaired(d: Disk, order: seq<Id>, i: nat, disk: Disk, members: map<Id, Member>, names: map<Name, Id>, free: seq<Id>)
    requires i <= |order|
  {
    && InOrder(d, order) && disk.Keys == members.Keys == d.Keys && SameOwners(d, disk) && KeepsData(d, disk)
    && Given(d, order, i, names) && Listing(d, order, i, members, names)
    && (forall m :: m in free ==> m in order[..i])
  }
}
