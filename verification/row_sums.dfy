/** Sums over the blob rows of one job, as SQL's SUM takes them: in no particular order. */
module RowSums {
  import opened QueueTypes

  type Rows = map<Digest, Blob>

  datatype Metric = Offset | Network | DoneCount | Size

  function Weight(b: Blob, m: Metric): int {
    match m
    case Offset => b.offset
    case Network => b.networkOffset
    case DoneCount => if b.disposition.IsDone() then 1 else 0
    case Size => SizeOr0(b.size)
  }

  ghost function Sum(rows: Rows, m: Metric): int
    decreases |rows|
  {
    if rows == map[] then 0
    else
      var d :| d in rows;
      Weight(rows[d], m) + Sum(rows - {d}, m)
  }

  /** Any row may be taken out first. */
  lemma {:induction false} SumTake(rows: Rows, d: Digest, m: Metric)
    requires d in rows
    ensures Sum(rows, m) == Weight(rows[d], m) + Sum(rows - {d}, m)
    decreases |rows|
  {
    var e :| e in rows && Sum(rows, m) == Weight(rows[e], m) + Sum(rows - {e}, m);
    if e != d {
      SumTake(rows - {e}, d, m);
      SumTake(rows - {d}, e, m);
      assert rows - {e} - {d} == rows - {d} - {e};
    }
  }

  /** Writing one row moves the sum by that row's change. */
  lemma {:induction false} SumUpdate(rows: Rows, d: Digest, b: Blob, m: Metric)
    ensures Sum(rows[d := b], m)
         == Sum(rows, m) + Weight(b, m) - (if d in rows then Weight(rows[d], m) else 0)
  {
    var after := rows[d := b];
    SumTake(after, d, m);
    if d in rows {
      SumTake(rows, d, m);
      assert after - {d} == rows - {d};
    } else {
      assert after - {d} == rows;
    }
  }

  /** Rowwise order carries over to the sums. */
  lemma {:induction false} SumMonotone(rows: Rows, m: Metric, rows': Rows, m': Metric)
    requires rows.Keys == rows'.Keys
    requires forall d | d in rows :: Weight(rows[d], m) <= Weight(rows'[d], m')
    ensures Sum(rows, m) <= Sum(rows', m')
    decreases |rows|
  {
    if rows == map[] {
      assert rows' == map[];
    } else {
      var d :| d in rows;
      SumTake(rows, d, m);
      SumTake(rows', d, m');
      SumMonotone(rows - {d}, m, rows' - {d}, m');
    }
  }

  /** What SQL's SUM computes, row by row in an arbitrary order. */
  method ComputeSum(rows: Rows, m: Metric) returns (total: int)
    ensures total == Sum(rows, m)
  {
    total := 0;
    var rest := rows;
    while rest != map[]
      invariant total + Sum(rest, m) == Sum(rows, m)
      decreases |rest|
    {
      var d :| d in rest;
      SumTake(rest, d, m);
      total := total + Weight(rest[d], m);
      rest := rest - {d};
    }
  }

  /** What the four sums add up. */
  lemma SumsAre(rows: Rows, d: Digest)
    requires d in rows
    ensures Sum(rows, Offset) == rows[d].offset + Sum(rows - {d}, Offset)
    ensures Sum(rows, Network) == rows[d].networkOffset + Sum(rows - {d}, Network)
    ensures Sum(rows, DoneCount)
         == (if rows[d].disposition in {Finished, Reused, Mounted} then 1 else 0) + Sum(rows - {d}, DoneCount)
    ensures Sum(rows, Size) == (if rows[d].size.Some? then rows[d].size.value else 0) + Sum(rows - {d}, Size)
    ensures forall m: Metric :: Sum(map[], m) == 0
  {
    SumTake(rows, d, Offset);
    SumTake(rows, d, Network);
    SumTake(rows, d, DoneCount);
    SumTake(rows, d, Size);
  }
}
