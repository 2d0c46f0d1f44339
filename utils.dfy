/** The conditional helpers of `src/utils/utils.go`. Go's zero value of a
    type parameter has no Dafny counterpart, so it is passed in explicitly. */
module Utils {
  import opened Wrappers

  /** OrDefault: the default when `v` is the zero value, `v` otherwise. */
  function OrDefault<T(==)>(v: T, def: T, zero: T): (r: T)
    ensures v == zero ==> r == def
    ensures v != zero ==> r == v
    ensures r == zero <==> v == zero && def == zero
  {
    if v == zero then def else v
  }

  /** A non-zero default makes the result non-zero, and applying the same
      default again changes nothing. */
  lemma OrDefaultSettles<T>(v: T, def: T, zero: T)
    requires def != zero
    ensures OrDefault(v, def, zero) != zero
    ensures OrDefault(OrDefault(v, def, zero), def, zero) == OrDefault(v, def, zero)
  {
  }

  /** Clamp: `lo` below the range, `hi` above it, `v` inside it. With an
      empty range (`hi < lo`) the first test wins and values below `lo` give
      `lo`, all others `hi`. */
  function Clamp(v: int, lo: int, hi: int): (r: int)
    ensures v < lo ==> r == lo
    ensures lo <= v && hi < v ==> r == hi
    ensures lo <= v <= hi ==> r == v
    ensures lo <= hi ==> lo <= r <= hi
    ensures r == lo || r == hi || r == v
  {
    if v < lo then lo
    else if hi < v then hi
    else v
  }

  /** Clamping twice to the same non-empty range is clamping once. */
  lemma ClampIdempotent(v: int, lo: int, hi: int)
    requires lo <= hi
    ensures Clamp(Clamp(v, lo, hi), lo, hi) == Clamp(v, lo, hi)
  {
  }

  /** Clamp to a non-empty range keeps the order of its inputs. */
  lemma ClampMonotone(v: int, w: int, lo: int, hi: int)
    requires lo <= hi && v <= w
    ensures Clamp(v, lo, hi) <= Clamp(w, lo, hi)
  {
  }

  /** Must1: the value when the error is the zero error; any other error
      is the panic, which carries that error. */
  function Must1<T, E(==)>(v: T, err: E, zero: E): (r: Result<T, E>)
    ensures r.Ok? <==> err == zero
    ensures r.Ok? ==> r.value == v
    ensures r.Err? ==> r.error == err
  {
    if err != zero then Err(err) else Ok(v)
  }
}
