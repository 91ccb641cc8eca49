/** The pager under the company list: a previous and a next button around
    "Page p / n". The page lives in the parent; a click asks it to move. */
module Pagination {

  datatype Button = Prev | Next

  /** `disabled={page <= 1}` */
  predicate PrevDisabled(page: int) { page <= 1 }

  /** `disabled={page >= pageCount}` */
  predicate NextDisabled(page: int, pageCount: int) { page >= pageCount }

  predicate Disabled(page: int, pageCount: int, b: Button)
  {
    match b
    case Prev => PrevDisabled(page)
    case Next => NextDisabled(page, pageCount)
  }

  /** The page after a click: a disabled button does nothing, Prev asks for
      `page - 1` and Next for `page + 1`. */
  function Press(page: int, pageCount: int, b: Button): (next: int)
    ensures b == Prev && page > 1 ==> next == page - 1
    ensures b == Next && page < pageCount ==> next == page + 1
    ensures Disabled(page, pageCount, b) ==> next == page
  {
    if Disabled(page, pageCount, b) then page
    else match b
      case Prev => page - 1
      case Next => page + 1
  }

  /** The page after a series of clicks, in order. */
  function PressAll(page: int, pageCount: int, clicks: seq<Button>): int
    decreases |clicks|
  {
    if clicks == [] then page else PressAll(Press(page, pageCount, clicks[0]), pageCount, clicks[1..])
  }

  /** One click from a page in [1, pageCount] lands in [1, pageCount], and moves
      by at most one page. */
  lemma PressStaysInRange(page: int, pageCount: int, b: Button)
    requires 1 <= page <= pageCount
    ensures 1 <= Press(page, pageCount, b) <= pageCount
    ensures page - 1 <= Press(page, pageCount, b) <= page + 1
  {
  }

  /** Whatever the clicks, a page that starts in [1, pageCount] stays there. */
  lemma {:induction false} PressAllInRange(page: int, pageCount: int, clicks: seq<Button>)
    requires 1 <= page <= pageCount
    ensures 1 <= PressAll(page, pageCount, clicks) <= pageCount
    decreases |clicks|
  {
    if clicks != [] {
      PressStaysInRange(page, pageCount, clicks[0]);
      PressAllInRange(Press(page, pageCount, clicks[0]), pageCount, clicks[1..]);
    }
  }

  /** n clicks on Next move n pages forward, but never past the last page. */
  lemma {:induction false} NextRepeated(page: int, pageCount: int, n: nat)
    requires 1 <= page <= pageCount
    ensures PressAll(page, pageCount, seq(n, _ => Next)) == if page + n <= pageCount then page + n else pageCount
    decreases n
  {
    var clicks := seq(n, _ => Next);
    if n > 0 {
      assert clicks[1..] == seq(n - 1, _ => Next);
      NextRepeated(Press(page, pageCount, Next), pageCount, n - 1);
    }
  }
}
