/**
 The file pool's members as they stand on disk, and the names a mount reads from them. A member
 holds a file behind a header in two copies, each with its checksum; a header is written over the
 older copy, and a copy that does not decode, torn or never written, is no copy. A name that two
 members claim belongs to the header written last.
 */
module PoolDisk {
  import opened Wrappers

  type Name = string
  type Id = nat
  type Data = seq<nat>

  datatype Header = Header(names: seq<Name>, ino: nat, birth: nat, sequence: nat)

  /** A member: what each header copy decodes to, and the file's data. */
  datatype OnDisk = OnDisk(first: Option<Header>, second: Option<Header>, data: Data)

  type Disk = map<Id, OnDisk>

  const SUM: nat := 2016

  /** The bytes names take in a header copy, each behind its length. */
  function NamesLength(names: seq<Name>): nat {
    if names == [] then 42 else NamesLength(names[..|names| - 1]) + 2 + |names[|names| - 1]|
  }

  /** Whether `encode` writes a header of these names. */
  predicate Encodable(names: seq<Name>) {
    NamesLength(names) <= SUM
  }

  function CopyAt(o: OnDisk, copy: nat): Option<Header> {
    if copy == 0 then o.first else if copy == 1 then o.second else None
  }

  /** Which copy is newer: the second only where it decodes and the first does not or is older. */
  function NewerCopy(o: OnDisk): nat {
    if o.second.Some? && (o.first.None? || o.second.value.sequence > o.first.value.sequence) then 1 else 0
  }

  /** The header a mount reads. */
  function Newest(o: OnDisk): Option<Header> {
    CopyAt(o, NewerCopy(o))
  }

  /** The copy a member's next header goes over. */
  function OlderCopy(o: OnDisk): nat {
    if Newest(o).Some? then 1 - NewerCopy(o) else 0
  }

  function WithCopy(o: OnDisk, copy: nat, h: Option<Header>): OnDisk {
    if copy == 0 then o.(first := h) else o.(second := h)
  }

  // ----- Crash outcomes of one write

  /** The write torn: its copy does not decode. */
  function Torn(d: Disk, id: Id): Disk
    requires id in d
  {
    d[id := WithCopy(d[id], OlderCopy(d[id]), None)]
  }

  function Wrote(d: Disk, id: Id, h: Header): Disk
    requires id in d
  {
    d[id := WithCopy(d[id], OlderCopy(d[id]), Some(h))]
  }

  /** The member emptied. */
  function Emptied(d: Disk, id: Id): Disk
    requires id in d
  {
    d[id := OnDisk(None, None, [])]
  }

  // ----- Claims and owners

  ghost predicate Claims(d: Disk, m: Id, n: Name) {
    m in d && Newest(d[m]).Some? && n in Newest(d[m]).value.names
  }

  function SequenceOf(d: Disk, m: Id): nat {
    if m in d && Newest(d[m]).Some? then Newest(d[m]).value.sequence else 0
  }

  /** A name's owner: of the members whose newest header claims it, the one written last. */
  ghost predicate Owns(d: Disk, n: Name, m: Id) {
    Claims(d, m, n) && forall k :: k != m && Claims(d, k, n) ==> SequenceOf(d, k) < SequenceOf(d, m)
  }

  /** Every decodable copy's sequence number is its own, and below the next one; its names fit it. */
  ghost predicate Sequenced(d: Disk, next: nat) {
    && (forall m, c: nat :: m in d && CopyAt(d[m], c).Some? ==> Encodable(CopyAt(d[m], c).value.names))
    && (forall m, c: nat :: m in d && CopyAt(d[m], c).Some? ==> CopyAt(d[m], c).value.sequence < next)
    && (forall m, c: nat, k, e: nat :: m in d && k in d && CopyAt(d[m], c).Some? && CopyAt(d[k], e).Some? && (m != k || c != e) ==>
          CopyAt(d[m], c).value.sequence != CopyAt(d[k], e).value.sequence)
  }

  ghost predicate DiskOk(d: Disk) {
    exists next: nat :: Sequenced(d, next)
  }

  predicate Maps(names: map<Name, Id>, n: Name, m: Id) {
    n in names && names[n] == m
  }

  /** What a mount of this disk names: each name's owner. */
  ghost predicate Recovers(d: Disk, names: map<Name, Id>) {
    forall n, m: Id :: Owns(d, n, m) <==> Maps(names, n, m)
  }

  ghost predicate SameOwners(d: Disk, e: Disk) {
    forall n, m: Id :: Owns(d, n, m) <==> Owns(e, n, m)
  }

  /** No two members claim one name. */
  ghost predicate Disjoint(d: Disk) {
    forall n, m: Id, k: Id :: Claims(d, m, n) && Claims(d, k, n) ==> m == k
  }

  /** A named file's data is as it was. */
  ghost predicate KeepsData(was: Disk, now: Disk) {
    forall n, m: Id :: Owns(now, n, m) && m in was ==> now[m].data == was[m].data
  }

  lemma SequencedLater(d: Disk, next: nat, later: nat)
    requires Sequenced(d, next) && next <= later
    ensures Sequenced(d, later)
  {
  }

  // ----- What a write does to the owners

  /** A torn write leaves the newer header standing. */
  lemma TornKeeps(d: Disk, id: Id, next: nat)
    requires id in d && Sequenced(d, next)
    ensures Newest(Torn(d, id)[id]) == Newest(d[id]) && Torn(d, id)[id].data == d[id].data
    ensures Sequenced(Torn(d, id), next) && SameOwners(d, Torn(d, id))
  {
    var e := Torn(d, id);
    assert Newest(e[id]) == Newest(d[id]);
    assert forall m, c: nat :: m in e && CopyAt(e[m], c).Some? ==> CopyAt(e[m], c) == CopyAt(d[m], c);
    SameNewest(d, e);
  }

  lemma SameNewest(d: Disk, e: Disk)
    requires d.Keys == e.Keys && forall m :: m in d ==> Newest(d[m]) == Newest(e[m])
    ensures SameOwners(d, e) && forall m, n :: Claims(d, m, n) <==> Claims(e, m, n)
  {
    hide Newest;
    forall m, n
      ensures Claims(d, m, n) <==> Claims(e, m, n)
    {
    }
    assert forall m :: SequenceOf(d, m) == SequenceOf(e, m);
  }

  /** A whole write is the newest header, and every name it holds is the member's. */
  lemma WroteClaims(d: Disk, id: Id, h: Header, next: nat)
    requires id in d && Sequenced(d, next) && h.sequence >= next && Encodable(h.names)
    ensures Newest(Wrote(d, id, h)[id]) == Some(h) && Wrote(d, id, h)[id].data == d[id].data
    ensures NewerCopy(Wrote(d, id, h)[id]) == OlderCopy(d[id])
    ensures Sequenced(Wrote(d, id, h), h.sequence + 1)
    ensures forall m, n :: Claims(Wrote(d, id, h), m, n) <==> if m == id then n in h.names else Claims(d, m, n)
    ensures forall m :: SequenceOf(Wrote(d, id, h), m) == if m == id then h.sequence else SequenceOf(d, m)
  {
    var e := Wrote(d, id, h);
    var older := OlderCopy(d[id]);
    assert CopyAt(e[id], older) == Some(h) && CopyAt(e[id], 1 - older) == CopyAt(d[id], 1 - older);
    assert CopyAt(d[id], 1 - older).Some? ==> CopyAt(d[id], 1 - older).value.sequence < next;
    assert Newest(e[id]) == Some(h);
    WroteSequenced(d, id, h, next);
  }

  lemma WroteSequenced(d: Disk, id: Id, h: Header, next: nat)
    requires id in d && Sequenced(d, next) && h.sequence >= next && Encodable(h.names)
    ensures Sequenced(Wrote(d, id, h), h.sequence + 1)
  {
    var e, older := Wrote(d, id, h), OlderCopy(d[id]);
    hide OlderCopy, NewerCopy;
    assert older <= 1 by { OlderIsCopy(d[id]); }
    forall m, c: nat | m in e && CopyAt(e[m], c).Some?
      ensures if m == id && c == older then CopyAt(e[m], c) == Some(h) else m in d && CopyAt(e[m], c) == CopyAt(d[m], c)
    {
    }
  }

  lemma OlderIsCopy(o: OnDisk)
    ensures OlderCopy(o) <= 1
  {
  }

  lemma EmptiedClaims(d: Disk, id: Id, next: nat)
    requires id in d && Sequenced(d, next)
    ensures Sequenced(Emptied(d, id), next)
    ensures forall m, n :: Claims(Emptied(d, id), m, n) <==> m != id && Claims(d, m, n)
    ensures forall m :: m != id ==> SequenceOf(Emptied(d, id), m) == SequenceOf(d, m)
  {
    var e := Emptied(d, id);
    assert Newest(e[id]) == None;
    assert forall m, c: nat :: m in e && CopyAt(e[m], c).Some? ==> m in d && CopyAt(e[m], c) == CopyAt(d[m], c);
  }

  lemma SequencesDiffer(d: Disk, next: nat, m: Id, k: Id)
    requires Sequenced(d, next) && m in d && k in d && m != k && Newest(d[m]).Some? && Newest(d[k]).Some?
    ensures SequenceOf(d, m) != SequenceOf(d, k) && SequenceOf(d, m) < next
  {
    assert CopyAt(d[m], NewerCopy(d[m])).Some? && CopyAt(d[k], NewerCopy(d[k])).Some?;
  }

  /** A header of exactly the names a member owns changes no name's owner: what a mount's repair
      writes, and what the second write of a rename does. */
  lemma KeptNamesKeepOwners(d: Disk, id: Id, h: Header, next: nat)
    requires id in d && Sequenced(d, next) && h.sequence >= next && Encodable(h.names)
    requires forall n :: n in h.names <==> Owns(d, n, id)
    ensures SameOwners(d, Wrote(d, id, h))
  {
    hide Newest, Sequenced, Wrote;
    var e := Wrote(d, id, h);
    WroteClaims(d, id, h, next);
    forall n, m: Id
      ensures Owns(d, n, m) <==> Owns(e, n, m)
    {
      if m == id {
        if Owns(d, n, id) {
          forall k | k != id && Claims(e, k, n)
            ensures SequenceOf(e, k) < SequenceOf(e, id)
          {
            SequenceBelow(d, k, n, next);
          }
        }
      } else if Owns(e, n, m) && Claims(d, id, n) {
        if n !in h.names {
          var k :| k != id && Claims(d, k, n) && SequenceOf(d, k) >= SequenceOf(d, id);
          SequencesOf(d, next, k, id, n);
        } else {
          SequenceBelow(d, m, n, next);
        }
      }
    }
  }

  lemma SequenceBelow(d: Disk, m: Id, n: Name, next: nat)
    requires Sequenced(d, next) && Claims(d, m, n)
    ensures SequenceOf(d, m) < next
  {
    assert CopyAt(d[m], NewerCopy(d[m])).Some?;
  }

  lemma SequencesOf(d: Disk, next: nat, m: Id, k: Id, n: Name)
    requires Sequenced(d, next) && m != k && Claims(d, m, n) && Claims(d, k, n)
    ensures SequenceOf(d, m) != SequenceOf(d, k)
  {
    SequencesDiffer(d, next, m, k);
  }

  /** Emptying a member that owns nothing changes no name's owner. */
  lemma EmptyKeepsOwners(d: Disk, id: Id, next: nat)
    requires id in d && Sequenced(d, next) && forall n :: !Owns(d, n, id)
    ensures SameOwners(d, Emptied(d, id))
  {
    hide Newest, Sequenced, Emptied;
    var e := Emptied(d, id);
    EmptiedClaims(d, id, next);
    forall n, m: Id
      ensures Owns(d, n, m) <==> Owns(e, n, m)
    {
      if m != id && Owns(e, n, m) && Claims(d, id, n) {
        assert !Owns(d, n, id);
        var k :| k != id && Claims(d, k, n) && SequenceOf(d, k) >= SequenceOf(d, id);
        SequencesOf(d, next, k, id, n);
      }
    }
  }

  /** Claims are a map's: the pool between operations. */
  ghost predicate ClaimsAre(d: Disk, names: map<Name, Id>) {
    forall n, m: Id :: Claims(d, m, n) <==> Maps(names, n, m)
  }

  lemma ClaimsRecover(d: Disk, names: map<Name, Id>)
    requires ClaimsAre(d, names)
    ensures Recovers(d, names) && Disjoint(d)
  {
    hide Newest;
  }

  /** A map with one member's names set anew: those it takes are taken from whoever had them. */
  ghost predicate Renamed(names: map<Name, Id>, id: Id, to': seq<Name>, after: map<Name, Id>) {
    forall n, m: Id :: Maps(after, n, m) <==> if n in to' then m == id else Maps(names, n, m) && m != id
  }

  /** One header write between operations: untouched or torn, the names before; whole, the names
      after, even where it takes a name another member still claims. */
  lemma WriteRecovers(d: Disk, names: map<Name, Id>, id: Id, h: Header, next: nat, after: map<Name, Id>)
    requires id in d && Sequenced(d, next) && h.sequence == next && Encodable(h.names) && ClaimsAre(d, names) && Renamed(names, id, h.names, after)
    ensures Recovers(d, names) && Recovers(Torn(d, id), names) && Recovers(Wrote(d, id, h), after)
    ensures DiskOk(d) && DiskOk(Torn(d, id)) && DiskOk(Wrote(d, id, h))
  {
    hide Newest, Sequenced, Wrote, Torn;
    var e := Wrote(d, id, h);
    TornKeeps(d, id, next);
    WroteClaims(d, id, h, next);
    ClaimsRecover(d, names);
    assert Sequenced(d, next) && Sequenced(Torn(d, id), next) && Sequenced(e, h.sequence + 1);
    forall n, m: Id
      ensures Owns(e, n, m) <==> Maps(after, n, m)
    {
      forall k | Claims(d, k, n)
        ensures SequenceOf(d, k) < next && Maps(names, n, k)
      {
        SequenceBelow(d, k, n, next);
      }
      assert Claims(d, m, n) <==> Maps(names, n, m);
      if n in h.names {
        assert Claims(e, id, n);
      }
    }
  }

  /** Emptying the one member that loses its names: emptied, the names after; else those before. */
  lemma EmptyRecovers(d: Disk, names: map<Name, Id>, id: Id, next: nat, after: map<Name, Id>)
    requires id in d && Sequenced(d, next) && ClaimsAre(d, names)
    requires forall n, m: Id :: Maps(after, n, m) <==> Maps(names, n, m) && m != id
    ensures Recovers(d, names) && Recovers(Emptied(d, id), after) && ClaimsAre(Emptied(d, id), after)
    ensures DiskOk(d) && DiskOk(Emptied(d, id))
  {
    hide Newest, Sequenced, Emptied;
    EmptiedClaims(d, id, next);
    ClaimsRecover(d, names);
    assert Sequenced(d, next) && Sequenced(Emptied(d, id), next);
    ClaimsRecover(Emptied(d, id), after);
  }

}
