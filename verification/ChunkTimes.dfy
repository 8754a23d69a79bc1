/** Arrival times of streamed text (`timeAtOffset`). */
module ChunkTimes {
  import opened Wrappers

  datatype ChunkMark = ChunkMark(upto: nat, atMs: int)

  ghost predicate Ordered(marks: seq<ChunkMark>) {
    forall j, k | 0 <= j < k < |marks| :: marks[j].upto <= marks[k].upto && marks[j].atMs <= marks[k].atMs
  }

  /** `timeAtOffset`: when the first chunk that reaches past the offset arrived. */
  method TimeAtOffset(marks: seq<ChunkMark>, offset: nat) returns (time: Option<int>)
    ensures time.None? <==> forall m | m in marks :: m.upto <= offset
    ensures time.Some? ==> exists j | 0 <= j < |marks| ::
              marks[j].upto > offset && time.value == marks[j].atMs && forall k | 0 <= k < j :: marks[k].upto <= offset
    ensures time == Arrival(marks, offset)
  {
    for i := 0 to |marks|
      invariant forall k | 0 <= k < i :: marks[k].upto <= offset
      invariant Arrival(marks, offset) == Arrival(marks[i..], offset)
    {
      if marks[i].upto > offset {
        return Some(marks[i].atMs);
      }
      assert marks[i..][1..] == marks[i + 1..];
    }
    return None;
  }

  function Arrival(marks: seq<ChunkMark>, offset: nat): Option<int> {
    if marks == [] then None else if marks[0].upto > offset then Some(marks[0].atMs) else Arrival(marks[1..], offset)
  }

  /** With chunks in arrival order, an earlier offset arrived no later than a later one. */
  lemma {:induction false} ArrivalIsMonotone(marks: seq<ChunkMark>, early: nat, late: nat)
    requires Ordered(marks) && early <= late && Arrival(marks, late).Some?
    ensures Arrival(marks, early).Some? && Arrival(marks, early).value <= Arrival(marks, late).value
  {
    if marks[0].upto <= early {
      ArrivalIsMonotone(marks[1..], early, late);
    } else if marks[0].upto <= late {
      ArrivalInMarks(marks[1..], late);
    }
  }

  lemma {:induction false} ArrivalInMarks(marks: seq<ChunkMark>, offset: nat)
    requires Arrival(marks, offset).Some?
    ensures exists m :: m in marks && m.atMs == Arrival(marks, offset).value
  {
    if marks[0].upto <= offset { ArrivalInMarks(marks[1..], offset); } else { assert marks[0] in marks; }
  }
}
