/**
 * The underlying stream the engine reads from (a baseband reader or another task), seen only
 * through the operations the engine uses: its samples, rate and start time, and seek, tell,
 * time and read. How the reader splits a read into pieces is its own business; here that is
 * the arbitrary function `chunk`.
 */
module Streams {

  type PositiveReal = r: real | r > 0.0 witness 1.0

  class RawStream {
    const samples: seq<int>
    const sampleRate: PositiveReal
    const startTime: real
    /** At most how many samples the reader delivers in one piece when reading at a position. */
    const chunk: int -> nat
    var pos: int

    ghost predicate Valid()
      reads this
    {
      0 <= pos <= |samples|
    }

    constructor (samples: seq<int>, sampleRate: PositiveReal, startTime: real, chunk: int -> nat)
      ensures Valid() && pos == 0
      ensures this.samples == samples && this.sampleRate == sampleRate
      ensures this.startTime == startTime && this.chunk == chunk
    {
      this.samples := samples;
      this.sampleRate := sampleRate;
      this.startTime := startTime;
      this.chunk := chunk;
      pos := 0;
    }

    /** The time of raw sample p. */
    function TimeAt(p: int): real
    {
      startTime + p as real / sampleRate
    }

    /** `ih.time`: the time at the current position. */
    function Time(): real
      reads this
    {
      TimeAt(pos)
    }

    method Tell() returns (p: int)
      ensures p == pos
    {
      p := pos;
    }

    /** `ih.seek(offset)`; a position outside the stream is refused and the position kept. */
    method Seek(offset: int) returns (ok: bool)
      requires Valid()
      modifies this
      ensures Valid()
      ensures ok <==> 0 <= offset <= |samples|
      ensures pos == if ok then offset else old(pos)
    {
      ok := 0 <= offset <= |samples|;
      if ok {
        pos := offset;
      }
    }

    /** One piece of a read of n more samples: at least one and at most n, as `chunk` allows. */
    method ReadPiece(n: nat) returns (data: seq<int>)
      requires Valid() && 1 <= n && pos + n <= |samples|
      modifies this
      ensures Valid()
      ensures 1 <= |data| <= n && pos == old(pos) + |data|
      ensures data == samples[old(pos)..pos]
    {
      var take := chunk(pos);
      if take < 1 {
        take := 1;
      }
      if take > n {
        take := n;
      }
      data := samples[pos..pos + take];
      pos := pos + take;
    }
  }
}
