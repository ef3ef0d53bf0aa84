/**
 What an authored step says, in the author's terms. An expression is read with every reference
 x.f to a step x standing for memory.f; a reject_when is such an expression and takes the
 place of fail_when; an on_reject takes the place of on_fail. Nothing here is taken from the
 lowering pass.
 */
module Reading {
  import opened Wrappers
  import opened Expr
  import opened Scanner
  import opened Steps

  /** The pieces of a text, with the step of each reference read as memory. */
  function ReadPieces(known: set<string>, ps: seq<Piece>): (r: seq<Piece>)
    ensures |r| == |ps|
    ensures forall i :: 0 <= i < |ps| ==> r[i] == if Rewritten(known, ps, i) then Word("memory") else ps[i]
  {
    seq(|ps|, i requires 0 <= i < |ps| => if Rewritten(known, ps, i) then Word("memory") else ps[i])
  }

  /** An authored expression, without its delimiters and with its references read from memory. */
  function Reads(known: set<string>, text: string): (r: string) {
    Print(ReadPieces(known, Pieces(StripDelimiters(text))))
  }

  /** What rejects the step's result. */
  function GateOf(known: set<string>, s: Step): (r: string) {
    if s.rejectWhen == "" then s.failWhen else Reads(known, s.rejectWhen)
  }

  /** Where a failing step loops back to. */
  function TargetOf(s: Step): (r: Option<string>) {
    match s.onReject
    case Some(reject) => if reject.restartFrom == "" then None else Some(reject.restartFrom)
    case None => if s.onFail.Some? && s.onFail.value.target != "" then Some(s.onFail.value.target) else None
  }

  /** How often it may. */
  function TimesOf(s: Step): (r: int) {
    match s.onReject
    case Some(reject) => reject.max
    case None => if s.onFail.Some? then s.onFail.value.maxRetries else 0
  }

  /** The scanner's rewriting is this reading. */
  lemma {:induction false} RewriteIsReading(known: set<string>, s: string)
    ensures RewriteRefs(known, s) == Print(ReadPieces(known, Pieces(s)))
  {
    RewritePositions(known, Pieces(s));
    assert RewritePieces(known, Pieces(s)) == ReadPieces(known, Pieces(s));
  }
}
