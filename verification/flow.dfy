/** Program points of a function and the control-flow steps between them. */
module Flow {
  import opened Mir
  import opened Options

  /** The point before statement `idx` of a block, or before its terminator when `idx` is the statement count. */
  datatype Point = Point(block: nat, idx: nat)

  /** Every jump stays inside the function. */
  ghost predicate JumpsInside(func: MirFunction)
  {
    forall b, t :: 0 <= b < |func.blocks| && t in Targets(func.blocks[b]) ==> t < |func.blocks|
  }

  predicate IsPoint(func: MirFunction, q: Point)
  {
    q.block < |func.blocks| && q.idx <= |func.blocks[q.block].statements|
  }

  predicate AtTerminator(func: MirFunction, q: Point)
    requires IsPoint(func, q)
  {
    q.idx == |func.blocks[q.block].statements|
  }

  ghost function AllPoints(func: MirFunction): (r: set<Point>)
    ensures forall q :: q in r <==> IsPoint(func, q)
  {
    set b: nat, i: nat | b < |func.blocks| && i <= |func.blocks[b].statements| :: Point(b, i)
  }

  /** Control can go from `q` to `r` in one step. */
  ghost predicate Step(func: MirFunction, q: Point, r: Point)
  {
    && IsPoint(func, q)
    && if AtTerminator(func, q) then r.idx == 0 && r.block in Targets(func.blocks[q.block])
       else r == Point(q.block, q.idx + 1)
  }
}
