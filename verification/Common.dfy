/** What several modules share. */
module Common {

  datatype Option<+T> = None | Some(value: T)

  function Abs(n: int): int {
    if n < 0 then -n else n
  }

  /** `localeCompare` on ids: any total order. */
  ghost predicate TotalOrder(le: (string, string) -> bool) {
    && (forall a, b :: le(a, b) || le(b, a))
    && (forall a, b, c :: le(a, b) && le(b, c) ==> le(a, c))
    && (forall a, b :: le(a, b) && le(b, a) ==> a == b)
  }
}
