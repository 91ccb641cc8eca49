/** The responsive breakpoint: the window width classified against the
    640, 768 and 1024 pixel thresholds. */
module Breakpoint {

  datatype Size = Sm | Md | Lg | Xl

  /** The sizes in increasing order. */
  function Rank(b: Size): nat
  {
    match b
    case Sm => 0
    case Md => 1
    case Lg => 2
    case Xl => 3
  }

  /** `getBreakpoint`: the first threshold the width is below decides. */
  function GetBreakpoint(width: real): Size
  {
    if width < 640.0 then Sm
    else if width < 768.0 then Md
    else if width < 1024.0 then Lg
    else Xl
  }

  /** Each size covers exactly one band of widths. */
  lemma Bands(width: real)
    ensures GetBreakpoint(width) == Sm <==> width < 640.0
    ensures GetBreakpoint(width) == Md <==> 640.0 <= width < 768.0
    ensures GetBreakpoint(width) == Lg <==> 768.0 <= width < 1024.0
    ensures GetBreakpoint(width) == Xl <==> 1024.0 <= width
  {
  }

  /** A wider window never gets a smaller breakpoint. */
  lemma Monotone(a: real, b: real)
    requires a <= b
    ensures Rank(GetBreakpoint(a)) <= Rank(GetBreakpoint(b))
  {
  }
}
