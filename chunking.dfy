/** Byte ranges of a file cut into fixed-size chunks, shared by the multipart
    image upload (5 MiB parts) and the resumable video upload (1 MiB chunks).
    A range is `file.slice(start, end)`: the bytes `start <= b < end`. */
module Chunking {
  import opened JsString

  /** A browser `File`: name, byte size and MIME type. */
  datatype File = File(name: string, size: nat, mime: string)

  datatype Range = Range(start: nat, end: nat)

  function Min(a: int, b: int): (r: int)
    ensures r <= a && r <= b && (r == a || r == b)
  {
    if a <= b then a else b
  }

  /** `rs` are non-empty back-to-back ranges, each at most `c` bytes long,
      that start at `lo` and end at `hi`. */
  predicate Tiles(rs: seq<Range>, lo: nat, hi: nat, c: nat)
  {
    (rs == [] ==> lo == hi)
    && (rs != [] ==> rs[0].start == lo && rs[|rs| - 1].end == hi)
    && (forall i :: 0 <= i < |rs| ==> rs[i].start < rs[i].end <= rs[i].start + c)
    && (forall i :: 0 <= i < |rs| - 1 ==> rs[i].end == rs[i + 1].start)
  }

  /** The chunks the upload loops send for the bytes `[lo, hi)`: each starts
      where the previous one ended and runs for `c` bytes or up to `hi`. */
  function Chunks(lo: nat, hi: nat, c: nat): (r: seq<Range>)
    requires c > 0
    decreases hi - lo
  {
    if lo >= hi then [] else [Range(lo, Min(lo + c, hi))] + Chunks(Min(lo + c, hi), hi, c)
  }

  /** The chunks tile `[lo, hi)`. */
  lemma {:induction false} ChunksTile(lo: nat, hi: nat, c: nat)
    requires c > 0 && lo <= hi
    ensures Tiles(Chunks(lo, hi, c), lo, hi, c)
    decreases hi - lo
  {
    if lo < hi {
      var next := Min(lo + c, hi);
      var rest := Chunks(next, hi, c);
      ChunksTile(next, hi, c);
      var rs := Chunks(lo, hi, c);
      assert rs == [Range(lo, next)] + rest;
      forall i | 0 <= i < |rs| - 1 ensures rs[i].end == rs[i + 1].start {
        if i > 0 {
          assert rs[i] == rest[i - 1] && rs[i + 1] == rest[i];
        }
      }
    }
  }

  /** There are ceil((hi - lo) / c) chunks. */
  lemma {:induction false} ChunksCount(lo: nat, hi: nat, c: nat)
    requires c > 0 && lo <= hi
    ensures |Chunks(lo, hi, c)| == CeilDiv(hi - lo, c)
    decreases hi - lo
  {
    if lo < hi {
      var next := Min(lo + c, hi);
      ChunksCount(next, hi, c);
      assert |Chunks(lo, hi, c)| == 1 + |Chunks(next, hi, c)|;
      if next < hi {
        assert hi - next + c == hi - lo;
        CeilDivStep(hi - next, c);
      } else {
        CeilDivOne(hi - lo, c);
      }
    } else {
      CeilDivZero(c);
    }
  }

  lemma CeilDivZero(c: nat)
    requires c > 0
    ensures CeilDiv(0, c) == 0
  {
    var r := CeilDiv(0, c);
    MulCancel(r - 1, 0, c);
    MulCancel(-1, r, c);
  }

  lemma CeilDivOne(n: nat, c: nat)
    requires 0 < n <= c
    ensures CeilDiv(n, c) == 1
  {
    var r := CeilDiv(n, c);
    MulCancel(r - 1, 1, c);
    MulCancel(0, r, c);
  }

  /** Chunk `i` is `[lo + i*c, min(lo + (i+1)*c, hi))`. */
  lemma {:induction false} ChunksAt(lo: nat, hi: nat, c: nat, i: nat)
    requires c > 0 && i < |Chunks(lo, hi, c)|
    ensures Chunks(lo, hi, c)[i] == Range(lo + i * c, Min(lo + i * c + c, hi))
    decreases i
  {
    if i > 0 {
      var next := Min(lo + c, hi);
      ChunksAt(next, hi, c, i - 1);
      assert next == lo + c;
      assert next + (i - 1) * c == lo + i * c;
    }
  }

  lemma CeilDivStep(n: nat, c: nat)
    requires c > 0
    ensures CeilDiv(n + c, c) == CeilDiv(n, c) + 1
  {
    var q := CeilDiv(n, c);
    var q' := CeilDiv(n + c, c);
    assert (q' - 2) * c == (q' - 1) * c - c;
    MulCancel(q - 1, q' - 1, c);
    MulCancel(q' - 2, q, c);
  }

  /** Tiling ranges are disjoint: an earlier one ends before a later one starts. */
  lemma {:induction false} TilesOrdered(rs: seq<Range>, lo: nat, hi: nat, c: nat, i: nat, j: nat)
    requires Tiles(rs, lo, hi, c) && i < j < |rs|
    ensures rs[i].end <= rs[j].start
    decreases j - i
  {
    if j > i + 1 {
      TilesOrdered(rs, lo, hi, c, i, j - 1);
    }
  }

  /** Tiling ranges cover: every byte of `[lo, hi)` is in one of them. */
  lemma {:induction false} TilesCover(rs: seq<Range>, lo: nat, hi: nat, c: nat, b: nat)
    requires Tiles(rs, lo, hi, c) && lo <= b < hi
    ensures exists i :: 0 <= i < |rs| && rs[i].start <= b < rs[i].end
    decreases |rs|
  {
    if b < rs[0].end {
      assert rs[0].start <= b < rs[0].end;
    } else {
      var rest := rs[1..];
      assert rest[0] == rs[1];
      assert Tiles(rest, rs[0].end, hi, c) by {
        forall k | 0 <= k < |rest| - 1 ensures rest[k].end == rest[k + 1].start {
          assert rest[k] == rs[k + 1] && rest[k + 1] == rs[k + 2];
        }
      }
      TilesCover(rest, rs[0].end, hi, c, b);
      var k :| 0 <= k < |rest| && rest[k].start <= b < rest[k].end;
      assert rs[k + 1] == rest[k];
    }
  }

  /** The lengths of tiling ranges add up to the covered length. */
  function TotalLength(rs: seq<Range>): int
  {
    if rs == [] then 0 else (rs[0].end - rs[0].start) + TotalLength(rs[1..])
  }

  lemma {:induction false} TilesTotal(rs: seq<Range>, lo: nat, hi: nat, c: nat)
    requires Tiles(rs, lo, hi, c)
    ensures TotalLength(rs) == hi - lo
    decreases |rs|
  {
    if rs != [] {
      var rest := rs[1..];
      if rest != [] {
        assert rest[0] == rs[1];
        assert Tiles(rest, rs[0].end, hi, c) by {
          forall k | 0 <= k < |rest| - 1 ensures rest[k].end == rest[k + 1].start {
            assert rest[k] == rs[k + 1] && rest[k + 1] == rs[k + 2];
          }
        }
        TilesTotal(rest, rs[0].end, hi, c);
      }
    }
  }
}
