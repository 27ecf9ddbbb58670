/** Per-iteration bookkeeping of the shared vertex buffer: each generation's
    vertex range, and the byte size the buffer must have. */
module Storage {

  /** Bytes per vertex: a vector of three 32-bit floats. */
  const Vec3Bytes: nat := 12

  /** An iteration's vertex range: its first vertex and its number of vertices. */
  datatype IterData = IterData(first: nat, count: nat)

  /** One past the range's last vertex. */
  function End(d: IterData): nat {
    d.first + d.count
  }

  /** The ranges tile the buffer from vertex 0 on, each starting where the
      previous one ends. */
  ghost predicate Contiguous(ds: seq<IterData>) {
    && (|ds| > 0 ==> ds[0].first == 0)
    && forall i :: 0 <= i < |ds| - 1 ==> ds[i + 1].first == End(ds[i])
  }

  /** Where the next range starts: vertex 0 when there is none yet, else where
      the last one ends. */
  function NextFirst(ds: seq<IterData>): nat {
    if ds == [] then 0 else End(ds[|ds| - 1])
  }

  /** The buffer size after growing one of size bufSize, if it is too small,
      to hold the ranges ds. */
  function Covering(bufSize: nat, ds: seq<IterData>): (r: nat)
    ensures r >= bufSize && r >= NextFirst(ds) * Vec3Bytes
    ensures r == bufSize || r == NextFirst(ds) * Vec3Bytes
  {
    var needed := NextFirst(ds) * Vec3Bytes;
    if needed > bufSize then needed else bufSize
  }

  /** Growing the buffer for ds and then for ds with a range appended where ds
      ends is growing it once for the longer sequence. */
  lemma CoveringAppend(bufSize: nat, ds: seq<IterData>, d: IterData)
    requires d.first == NextFirst(ds)
    ensures Covering(Covering(bufSize, ds), ds + [d]) == Covering(bufSize, ds + [d])
  {
  }

  /** Total number of vertices of the ranges. */
  function TotalCount(ds: seq<IterData>): nat {
    if ds == [] then 0 else TotalCount(ds[..|ds| - 1]) + ds[|ds| - 1].count
  }

  /** Appending a range that starts where the last one ends keeps the ranges
      contiguous. */
  lemma AppendKeepsContiguous(ds: seq<IterData>, count: nat)
    requires Contiguous(ds)
    ensures Contiguous(ds + [IterData(NextFirst(ds), count)])
  {
  }

  /** Earlier ranges end no later than later ranges start: contiguous ranges
      do not overlap. */
  lemma {:induction false} RangesDisjoint(ds: seq<IterData>, i: nat, j: nat)
    requires Contiguous(ds) && i < j < |ds|
    ensures End(ds[i]) <= ds[j].first
    decreases j - i
  {
    if i + 1 < j {
      RangesDisjoint(ds, i, j - 1);
    }
  }

  /** The next free vertex is the total vertex count of all ranges. */
  lemma {:induction false} NextFirstIsTotal(ds: seq<IterData>)
    requires Contiguous(ds)
    ensures NextFirst(ds) == TotalCount(ds)
    decreases |ds|
  {
    if ds != [] {
      var init := ds[..|ds| - 1];
      assert Contiguous(init) by {
        forall i | 0 <= i < |init| - 1 ensures init[i + 1].first == End(init[i]) {
          assert init[i + 1] == ds[i + 1] && init[i] == ds[i];
        }
      }
      NextFirstIsTotal(init);
    }
  }
}
