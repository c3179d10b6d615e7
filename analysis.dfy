/** The boundary-analysis context that expressions thread through a tree. */
module Analysis {
  import opened Common
  import opened Arrow

  /** A value range and an optional distinct-value estimate. */
  datatype ExprBoundaries = ExprBoundaries(minValue: Scalar, maxValue: Scalar, distinctCount: Option<nat>)

  /** `boundaries` is the current expression's range; `columnBoundaries` holds
      one optional entry per top-level column of the input. */
  datatype AnalysisContext = AnalysisContext(
    boundaries: Option<ExprBoundaries>,
    columnBoundaries: seq<Option<ExprBoundaries>>)

  /** `AnalysisContext::with_boundaries`: replaces the current boundary only. */
  function WithBoundaries(ctx: AnalysisContext, b: Option<ExprBoundaries>): (r: AnalysisContext)
    ensures r.boundaries == b && r.columnBoundaries == ctx.columnBoundaries
  {
    ctx.(boundaries := b)
  }
}
