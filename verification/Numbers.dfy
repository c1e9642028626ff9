/** Go's fixed-width integer ranges and the small arithmetic shared by several modules. */
module Numbers {

  const MAX_INT64: int := 0x7fff_ffff_ffff_ffff
  const MIN_INT64: int := -MAX_INT64 - 1
  const MAX_UINT64: int := 0xffff_ffff_ffff_ffff

  type int64 = x: int | MIN_INT64 <= x <= MAX_INT64

  function Min(a: int, b: int): int { if a < b then a else b }

  function Max(a: int, b: int): int { if a < b then b else a }
}
