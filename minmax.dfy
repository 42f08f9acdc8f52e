/** core/minmax.h: the two comparison helpers used by the genome's mutation
    operator. Both are written with a strict comparison, so on a tie the
    SECOND argument is returned. */
module Bounds {

  /** `(t0 < t1) ? t0 : t1` */
  function Min(t0: int, t1: int): (r: int)
    ensures r <= t0 && r <= t1
    ensures r == t0 || r == t1
    ensures t0 < t1 ==> r == t0
    ensures t1 <= t0 ==> r == t1
  {
    if t0 < t1 then t0 else t1
  }

  /** `(t0 > t1) ? t0 : t1` */
  function Max(t0: int, t1: int): (r: int)
    ensures r >= t0 && r >= t1
    ensures r == t0 || r == t1
    ensures t0 > t1 ==> r == t0
    ensures t1 >= t0 ==> r == t1
  {
    if t0 > t1 then t0 else t1
  }
}
