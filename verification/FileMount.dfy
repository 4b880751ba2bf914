/**
 Mounting the file pool: the names read from the headers on disk, a name two members claim given to
 the one written last and the other's header repaired. A crash at any point of the repair, a torn
 header included, mounts to the same names again.
 */
module FileMount {
  import opened PoolDisk
  import opened FilePool

  /** A disk mounts to one map of names only. */
  lemma MountIsOne(d: Disk, a: map<Name, Id>, b: map<Name, Id>)
    requires Recovers(d, a) && Recovers(d, b)
    ensures a == b
  {
    hide Owns;
    forall n | n in a
      ensures n in b && a[n] == b[n]
    {
      assert Maps(a, n, a[n]);
      assert Owns(d, n, a[n]);
      assert Maps(b, n, a[n]);
    }
    forall n | n in b
      ensures n in a
    {
      assert Maps(b, n, b[n]);
      assert Owns(d, n, b[n]);
      assert Maps(a, n, b[n]);
    }
  }

  lemma NamesClaimed(d: Disk, m: Id)
    requires m in d
    ensures forall n :: Claims(d, m, n) <==> n in NamesOn(d[m])
  {
  }

  /** The member next in order keeps the names it owns. */
  lemma NextKeeps(d: Disk, order: seq<Id>, i: nat, disk: Disk, members: map<Id, Member>, names: map<Name, Id>, free: seq<Id>, next: nat)
    requires i < |order| && Repaired(d, order, i, disk, members, names, free) && Sequenced(d, next)
    ensures order[i] in members && order[i] !in order[..i] && order[i] !in free
    ensures forall n :: n in KeptNames(members[order[i]].names, names) <==> Owns(d, n, order[i])
    ensures forall n :: n in KeptNames(members[order[i]].names, names) <==> Owns(disk, n, order[i])
  {
    hide Owns, Claims, NamesOn, SequenceOf, Sequenced, KeptNames;
    var m := order[i];
    assert order[i..][0] == m;
    assert m in order[i..];
    NamesClaimed(d, m);
    NextOwns(d, order, i, names, next);
    forall n
      ensures n in KeptNames(members[m].names, names) <==> Owns(disk, n, m)
    {
      assert Owns(d, n, m) <==> Owns(disk, n, m);
    }
  }

  /** What the next member's repair leaves of the mount's progress. */
  lemma RepairStep(d: Disk, order: seq<Id>, i: nat, disk: Disk, members: map<Id, Member>, names: map<Name, Id>, free: seq<Id>,
    disk': Disk, members': map<Id, Member>, names': map<Name, Id>, free': seq<Id>, kept: seq<Name>)
    requires i < |order| && Repaired(d, order, i, disk, members, names, free)
    requires (forall n :: n in kept <==> Owns(d, n, order[i])) && kept == KeptNames(members[order[i]].names, names)
    requires disk'.Keys == members'.Keys == d.Keys && SameOwners(disk, disk') && KeepsData(disk, disk')
    requires members'[order[i]].names == kept && forall k :: k in members' && k != order[i] ==> members'[k] == members[k]
    requires forall n, k: Id :: Maps(names', n, k) <==> Maps(names, n, k) || (k == order[i] && n in kept)
    requires forall k :: k in free' ==> k in free || k == order[i]
    ensures Repaired(d, order, i + 1, disk', members', names', free')
  {
    hide SequenceOf, Owns, Claims, NamesOn, KeptNames, SameOwners, KeepsData, Given, Listing;
    var m := order[i];
    OrderSplits(d, order, i);
    NextOwners(d, disk, disk');
    GivenStep(d, order, i, members, names, names', kept);
    ListingStep(d, order, i, members, members', names, names', kept);
  }

  lemma GivenStep(d: Disk, order: seq<Id>, i: nat, members: map<Id, Member>, names: map<Name, Id>, names': map<Name, Id>, kept: seq<Name>)
    requires i < |order| && InOrder(d, order) && members.Keys == d.Keys && Given(d, order, i, names) && Listing(d, order, i, members, names)
    requires (forall n :: n in kept <==> Owns(d, n, order[i])) && kept == KeptNames(members[order[i]].names, names)
    requires forall n, k: Id :: Maps(names', n, k) <==> Maps(names, n, k) || (k == order[i] && n in kept)
    ensures Given(d, order, i + 1, names')
  {
    hide SequenceOf, Owns, Claims, NamesOn, KeptNames;
    OrderSplits(d, order, i);
    var m := order[i];
    assert m in order[i..];
    NextNames(d, order, i, names, names', kept, members[m].names);
    forall n, k: Id
      ensures Maps(names', n, k) <==> k in order[..i + 1] && Owns(d, n, k)
    {
      assert Maps(names, n, k) <==> k in order[..i] && Owns(d, n, k);
    }
  }

  lemma ListingStep(d: Disk, order: seq<Id>, i: nat, members: map<Id, Member>, members': map<Id, Member>, names: map<Name, Id>, names': map<Name, Id>, kept: seq<Name>)
    requires i < |order| && InOrder(d, order) && members.Keys == members'.Keys == d.Keys && Given(d, order, i, names) && Listing(d, order, i, members, names)
    requires forall n, k: Id :: Maps(names', n, k) <==> Maps(names, n, k) || (k == order[i] && n in kept)
    requires members'[order[i]].names == kept && forall k :: k in members' && k != order[i] ==> members'[k] == members[k]
    ensures Listing(d, order, i + 1, members', names')
  {
    hide SequenceOf, Owns, Claims, NamesOn;
    OrderSplits(d, order, i);
    var m := order[i];
    forall k | k in order[..i + 1]
      ensures ListsOwn(members'[k], names', k)
    {
      if k != m {
        assert ListsOwn(members[k], names, k);
        assert forall n :: Maps(names', n, k) <==> Maps(names, n, k);
      } else {
        assert forall n :: !Maps(names, n, k);
      }
    }
  }

  lemma OrderSplits(d: Disk, order: seq<Id>, i: nat)
    requires InOrder(d, order) && i < |order|
    ensures order[..i + 1] == order[..i] + [order[i]] && order[i..] == [order[i]] + order[i + 1..] && order[i] in d
    ensures order[i] !in order[..i] && order[i] !in order[i + 1..]
    ensures forall k :: k in order ==> k in d
  {
    hide SequenceOf;
    assert order[i] in order;
  }

  lemma NextNames(d: Disk, order: seq<Id>, i: nat, names: map<Name, Id>, names': map<Name, Id>, kept: seq<Name>, listed: seq<Name>)
    requires i < |order| && order[i] in d && listed == NamesOn(d[order[i]]) && kept == KeptNames(listed, names)
    requires forall n :: n in names <==> exists j :: 0 <= j < i && Claims(d, order[j], n)
    requires forall n, k: Id :: Maps(names', n, k) <==> Maps(names, n, k) || (k == order[i] && n in kept)
    ensures forall n :: n in names' <==> exists j :: 0 <= j < i + 1 && Claims(d, order[j], n)
  {
    hide Claims, NamesOn, KeptNames;
    NamesClaimed(d, order[i]);
    forall n
      ensures n in names' <==> exists j :: 0 <= j < i + 1 && Claims(d, order[j], n)
    {
      if n in names' {
        assert Maps(names', n, names'[n]);
        if !Maps(names, n, names'[n]) {
          assert Claims(d, order[i], n);
        }
      }
      if n in names {
        assert Maps(names, n, names[n]);
        assert Maps(names', n, names[n]);
      } else if Claims(d, order[i], n) {
        assert n in kept;
        assert Maps(names', n, order[i]);
      }
    }
  }

  lemma NextOwners(d: Disk, disk: Disk, disk': Disk)
    requires d.Keys == disk.Keys == disk'.Keys && SameOwners(d, disk) && SameOwners(disk, disk') && KeepsData(d, disk) && KeepsData(disk, disk')
    ensures SameOwners(d, disk') && KeepsData(d, disk')
  {
    hide Claims, SequenceOf;
    forall n, m: Id | Owns(disk', n, m) && m in d
      ensures disk'[m].data == d[m].data
    {
      assert Owns(disk, n, m);
    }
  }

  lemma RepairBegins(d: Disk, order: seq<Id>, members: map<Id, Member>)
    requires InOrder(d, order) && members.Keys == d.Keys && forall m :: m in members ==> members[m].names == NamesOn(d[m])
    ensures Repaired(d, order, 0, d, members, map[], [])
  {
  }

  lemma RepairEnds(d: Disk, order: seq<Id>, disk: Disk, members: map<Id, Member>, names: map<Name, Id>, free: seq<Id>)
    requires Repaired(d, order, |order|, disk, members, names, free)
    ensures Recovers(d, names) && NamesOk(members, names)
  {
    hide Owns;
    assert order[..|order|] == order;
    forall n, m: Id
      ensures Owns(d, n, m) <==> Maps(names, n, m)
    {
      if Owns(d, n, m) { OwnerStands(d, n, m); }
    }
    forall n, m: Id
      ensures Maps(names, n, m) <==> m in members && n in members[m].names
    {
      if m in members {
        assert ListsOwn(members[m], names, m);
      }
    }
  }

  /** Crashes during repair that each leave what was left before it. */
  lemma CrashesCarry(d: Disk, disk: Disk, crashes: seq<Disk>)
    requires d.Keys == disk.Keys && SameOwners(d, disk) && KeepsData(d, disk)
    requires forall e :: e in crashes ==> DiskOk(e) && SameOwners(disk, e) && KeepsData(disk, e)
    ensures forall e :: e in crashes ==> DiskOk(e) && SameOwners(d, e) && KeepsData(d, e)
  {
    hide Claims, SequenceOf;
    forall e: Disk | e in crashes
      ensures SameOwners(d, e) && KeepsData(d, e)
    {
      forall n, m: Id | Owns(e, n, m) && m in d
        ensures m in e && e[m].data == d[m].data
      {
        OwnerStands(e, n, m);
        assert Owns(disk, n, m);
      }
    }
  }

  /** `mountFiles`: the next sequence number above every header's, then each member, the one written
      last first, given the names it claims that none before it has: emptied where that is none, its
      header rewritten where that is fewer. */
  method Mount(d: Disk) returns (pool: FilePool, ghost crashes: seq<Disk>)
    requires DiskOk(d)
    ensures fresh(pool) && pool.Valid() && !pool.failed
    ensures Recovers(d, pool.names) && SameOwners(d, pool.disk) && KeepsData(d, pool.disk)
    ensures forall e :: e in crashes ==> DiskOk(e) && SameOwners(d, e) && KeepsData(d, e)
  {
    hide Sequenced, Owns, NewerCopy, KeptNames, MembersOk, FreeOk, Repaired, InOrder, NamesOn, NamesOk;
    var order := SortMembers(d);
    var next := FirstSequence(d, order);
    pool := new FilePool.Read(d, next);
    crashes := [];
    KeysMatch(pool.disk, pool.members, pool.sequence);
    RepairBegins(d, order, pool.members);
    for i := 0 to |order|
      invariant fresh(pool) && !pool.failed && MembersOk(pool.disk, pool.members, pool.sequence) && FreeOk(pool.disk, pool.members, pool.free)
      invariant Repaired(d, order, i, pool.disk, pool.members, pool.names, pool.free)
      invariant forall e :: e in crashes ==> DiskOk(e) && SameOwners(d, e) && KeepsData(d, e)
    {
      NextKeeps(d, order, i, pool.disk, pool.members, pool.names, pool.free, next);
      var more := RepairOne(pool, d, order, i);
      crashes := crashes + more;
    }
    RepairEnds(d, order, pool.disk, pool.members, pool.names, pool.free);
    RepairedKeeps(d, order, pool.disk, pool.members, pool.names, pool.free);
  }

  lemma RepairedKeeps(d: Disk, order: seq<Id>, disk: Disk, members: map<Id, Member>, names: map<Name, Id>, free: seq<Id>)
    requires Repaired(d, order, |order|, disk, members, names, free)
    ensures SameOwners(d, disk) && KeepsData(d, disk)
  {
  }

  method FirstSequence(d: Disk, order: seq<Id>) returns (next: nat)
    requires DiskOk(d) && InOrder(d, order)
    ensures Sequenced(d, next)
  {
    hide Newest, DiskOk, Sequenced;
    next := 1;
    for i := 0 to |order|
      invariant forall j :: 0 <= j < i ==> SequenceOf(d, order[j]) < next
    {
      if SequenceOf(d, order[i]) >= next {
        next := SequenceOf(d, order[i]) + 1;
      }
    }
    NextSequence(d, next);
  }

  /** One member's repair. */
  method RepairOne(pool: FilePool, ghost d: Disk, order: seq<Id>, i: nat) returns (ghost crashes: seq<Disk>)
    requires i < |order| && !pool.failed && MembersOk(pool.disk, pool.members, pool.sequence) && FreeOk(pool.disk, pool.members, pool.free)
    requires Repaired(d, order, i, pool.disk, pool.members, pool.names, pool.free)
    requires order[i] in pool.members && order[i] !in pool.free
    requires forall n :: n in KeptNames(pool.members[order[i]].names, pool.names) <==> Owns(d, n, order[i])
    requires forall n :: n in KeptNames(pool.members[order[i]].names, pool.names) <==> Owns(pool.disk, n, order[i])
    modifies pool
    ensures !pool.failed && MembersOk(pool.disk, pool.members, pool.sequence) && FreeOk(pool.disk, pool.members, pool.free)
    ensures Repaired(d, order, i + 1, pool.disk, pool.members, pool.names, pool.free)
    ensures forall e :: e in crashes ==> DiskOk(e) && SameOwners(d, e) && KeepsData(d, e)
  {
    hide Sequenced, Owns, NewerCopy, KeptNames, MembersOk, FreeOk, InOrder, NamesOn, Encodable;
    ghost var disk, members, names, free := pool.disk, pool.members, pool.names, pool.free;
    var m := order[i];
    var kept := KeptNames(pool.members[m].names, pool.names);
    pool.names := pool.names + (map n | n in kept :: m);
    crashes := [];
    KeptFits(pool.disk, pool.members, pool.sequence, m, names);
    if |kept| == 0 || |kept| != |pool.members[m].names| {
      var r;
      r, crashes := pool.Settle(m, kept, false, Fine);
      CrashesCarry(d, disk, crashes);
    }
    RepairStep(d, order, i, disk, members, names, free, pool.disk, pool.members, pool.names, pool.free, kept);
  }

  lemma KeptFits(disk: Disk, members: map<Id, Member>, next: nat, m: Id, names: map<Name, Id>)
    requires MembersOk(disk, members, next) && m in members
    ensures Encodable(KeptNames(members[m].names, names))
  {
    assert Matches(disk[m], members[m]);
    KeptShorter(members[m].names, names);
    if members[m].names == [] {
      assert NamesLength([]) == 42;
    } else {
      assert CopyAt(disk[m], NewerCopy(disk[m])).Some?;
    }
  }

  /** A crash at any point of an operation, mounted, gives the names before it or the names after. */
  lemma CrashMountsWhole(was: Disk, crashes: seq<Disk>, before: map<Name, Id>, after: map<Name, Id>, d: Disk, mounted: map<Name, Id>)
    requires AllSurvive(was, crashes, before, after) && d in crashes && Recovers(d, mounted)
    ensures mounted == before || mounted == after
  {
    hide Owns, DiskOk, KeepsData;
    assert Survives(was, d, before, after);
    if Recovers(d, before) {
      MountIsOne(d, before, mounted);
    } else {
      MountIsOne(d, after, mounted);
    }
  }
}
