/** What several of the modelled files share: optional values and unsigned machine words. */
module Common {
  const U32: int := 0x1_0000_0000
  const U64: int := 0x1_0000_0000_0000_0000

  datatype Option<T> = None | Some(value: T)

  /** Unsigned arithmetic of a given width. */
  function Wrap(x: int, width: int): (r: nat)
    requires width > 0
    ensures r < width && (0 <= x < width ==> r == x)
  {
    x % width
  }
}
