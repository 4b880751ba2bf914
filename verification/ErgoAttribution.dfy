/**
 How the venue's profile assigns a transaction's outputs to record kinds and subjects: an output is
 at a kind's location by its exact tree and of a subject by its shape; kinds 1 to 3 are one output
 of an exact length each, kind 4 an adjacent run of one subject joined, at most its bound.
 */
module ErgoAttribution {
  import opened Wrappers
  import opened ErgoScan
  import opened ErgoProfile

  type Bytes = seq<Byte>

  const PUBLICATION_RANGE: nat := 4

  /** The bytes a kind's record has, or for kind 4 has at most. */
  function MaxRecordBytes(kind: nat): nat {
    if kind == 1 then 136 else if kind == 2 then 233 else if kind == 3 then 96 else 131914
  }

  /** The locations of kinds 1 to 4, in order. */
  datatype Profile = Profile(scripts: seq<Bytes>)

  predicate IsTree(bytes: Bytes) {
    FrameTree(bytes, 0) == Some(|bytes|)
  }

  /** `ownErgoProfile`: each location one whole tree, no two alike. */
  predicate ProfileOk(profile: Profile) {
    && |profile.scripts| == 4
    && (forall k :: 0 <= k < 4 ==> IsTree(profile.scripts[k]))
    && (forall j, k :: 0 <= j < k < 4 ==> profile.scripts[j] != profile.scripts[k])
  }

  function Location(profile: Profile, kind: nat): Bytes
    requires |profile.scripts| == 4 && 1 <= kind <= 4
  {
    profile.scripts[kind - 1]
  }

  datatype Piece = Piece(kind: nat, subject: Bytes, bytes: Bytes)

  datatype AttributedObject = AttributedObject(kind: nat, subject: Bytes, ordinal: nat, record: Bytes)

  /** The first kind at a tree, if any. */
  function KindFrom(profile: Profile, tree: Bytes, kind: nat): (found: Option<nat>)
    requires |profile.scripts| == 4 && 1 <= kind <= 5
    ensures found.Some? ==> 1 <= found.value <= 4 && Location(profile, found.value) == tree
    ensures found.None? ==> forall k :: kind <= k <= 4 ==> Location(profile, k) != tree
    decreases 5 - kind
  {
    if kind == 5 then None
    else if profile.scripts[kind - 1] == tree then Some(kind)
    else KindFrom(profile, tree, kind + 1)
  }

  function PieceOf(profile: Profile, output: Output): Option<Piece>
    requires |profile.scripts| == 4
  {
    var kind := KindFrom(profile, output.tree, 1);
    var shape := ShapeOf(output);
    if kind.None? || shape.None? then None else Some(Piece(kind.value, shape.value.0, shape.value.1))
  }

  /** Whether an output goes on with a subject's run of publication pieces. */
  predicate GoesOn(profile: Profile, output: Output, subject: Bytes)
    requires |profile.scripts| == 4
  {
    var piece := PieceOf(profile, output);
    piece.Some? && piece.value.kind == PUBLICATION_RANGE && piece.value.subject == subject
  }

  /** Where the run of a subject from `at` ends. */
  function RunEnd(profile: Profile, outputs: seq<Output>, at: nat, subject: Bytes): (end: nat)
    requires |profile.scripts| == 4 && at <= |outputs|
    ensures at <= end <= |outputs|
    ensures forall i :: at <= i < end ==> GoesOn(profile, outputs[i], subject)
    ensures end < |outputs| ==> !GoesOn(profile, outputs[end], subject)
    decreases |outputs| - at
  {
    if at < |outputs| && GoesOn(profile, outputs[at], subject) then RunEnd(profile, outputs, at + 1, subject) else at
  }

  /** The pieces of a run, joined. */
  function Joined(profile: Profile, outputs: seq<Output>, at: nat, end: nat): Bytes
    requires |profile.scripts| == 4 && at <= end <= |outputs|
    decreases end
  {
    if at == end then []
    else
      var last := PieceOf(profile, outputs[end - 1]);
      Joined(profile, outputs, at, end - 1) + if last.Some? then last.value.bytes else []
  }

  function Ordinal(position: nat, output: nat): nat {
    position * 0x1_0000_0000 + output
  }

  /** What the output at `at` gives, a run's with it, and where to read on. */
  function ObjectAt(profile: Profile, outputs: seq<Output>, position: nat, at: nat): (r: (seq<AttributedObject>, nat))
    requires |profile.scripts| == 4 && at < |outputs|
    ensures at < r.1 <= |outputs|
  {
    var first := PieceOf(profile, outputs[at]);
    if first.None? then ([], at + 1)
    else if first.value.kind != PUBLICATION_RANGE then
      (if |first.value.bytes| == MaxRecordBytes(first.value.kind)
       then [AttributedObject(first.value.kind, first.value.subject, Ordinal(position, at), first.value.bytes)] else [], at + 1)
    else
      var end := RunEnd(profile, outputs, at + 1, first.value.subject);
      var record := Joined(profile, outputs, at, end);
      (if |record| <= MaxRecordBytes(PUBLICATION_RANGE)
       then [AttributedObject(PUBLICATION_RANGE, first.value.subject, Ordinal(position, at), record)] else [], end)
  }

  /** The objects of the outputs from `at` on. */
  function ObjectsFrom(profile: Profile, outputs: seq<Output>, position: nat, at: nat): seq<AttributedObject>
    requires |profile.scripts| == 4 && at <= |outputs|
    decreases |outputs| - at
  {
    if at == |outputs| then []
    else
      var (found, next) := ObjectAt(profile, outputs, position, at);
      found + ObjectsFrom(profile, outputs, position, next)
  }

  /** A transaction's objects; one the framer does not read carries none. */
  function Attribute(profile: Profile, unsigned: Bytes, position: nat): seq<AttributedObject>
    requires |profile.scripts| == 4
  {
    var outputs := Frame(unsigned);
    if outputs.None? then [] else ObjectsFrom(profile, outputs.value, position, 0)
  }

  /** A run read to its end from a first piece. */
  method CollectRun(profile: Profile, outputs: seq<Output>, at: nat, first: Piece) returns (end: nat, record: Bytes)
    requires |profile.scripts| == 4 && at < |outputs| && PieceOf(profile, outputs[at]) == Some(first)
    ensures end == RunEnd(profile, outputs, at + 1, first.subject) && record == Joined(profile, outputs, at, end)
  {
    hide PieceOf;
    record, end := first.bytes, at + 1;
    assert record == [] + first.bytes == Joined(profile, outputs, at, at) + first.bytes;
    while end < |outputs| && GoesOn(profile, outputs[end], first.subject)
      invariant at < end <= |outputs|
      invariant record == Joined(profile, outputs, at, end)
      invariant RunEnd(profile, outputs, at + 1, first.subject) == RunEnd(profile, outputs, end, first.subject)
    {
      record := record + PieceOf(profile, outputs[end]).value.bytes;
      end := end + 1;
    }
  }

  method ReadObject(profile: Profile, outputs: seq<Output>, position: nat, at: nat) returns (found: seq<AttributedObject>, next: nat)
    requires |profile.scripts| == 4 && at < |outputs|
    ensures (found, next) == ObjectAt(profile, outputs, position, at)
  {
    hide PieceOf, RunEnd, Joined, MaxRecordBytes, Ordinal;
    var first := PieceOf(profile, outputs[at]);
    found, next := [], at + 1;
    if first.None? {
      return;
    }
    if first.value.kind != PUBLICATION_RANGE {
      if |first.value.bytes| == MaxRecordBytes(first.value.kind) {
        found := [AttributedObject(first.value.kind, first.value.subject, Ordinal(position, at), first.value.bytes)];
      }
      return;
    }
    var end, record := CollectRun(profile, outputs, at, first.value);
    if |record| <= MaxRecordBytes(PUBLICATION_RANGE) {
      found := [AttributedObject(PUBLICATION_RANGE, first.value.subject, Ordinal(position, at), record)];
    }
    next := end;
  }

  /** `attributeInto`: the objects appended in output order, a run's boundary output read again. */
  method AttributeInto(profile: Profile, unsigned: Bytes, position: nat) returns (objects: seq<AttributedObject>)
    requires |profile.scripts| == 4
    ensures objects == Attribute(profile, unsigned, position)
  {
    hide Frame, ObjectAt;
    objects := [];
    var framed := FrameTransaction(unsigned);
    if framed.None? {
      return;
    }
    var outputs := framed.value;
    var at := 0;
    while at < |outputs|
      invariant at <= |outputs|
      invariant objects + ObjectsFrom(profile, outputs, position, at) == ObjectsFrom(profile, outputs, position, 0)
    {
      var found, next := ReadObject(profile, outputs, position, at);
      assert objects + (found + ObjectsFrom(profile, outputs, position, next)) == (objects + found) + ObjectsFrom(profile, outputs, position, next);
      objects, at := objects + found, next;
    }
  }
}
