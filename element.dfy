/** The size of an element in `src/element.rs`: a default size, which layout may
    replace, or a custom one, which it must keep. */
module Element {
  datatype ElementSize = Default(n: nat) | Custom(n: nat)

  /** `get_size`: the payload, whichever the variant. */
  function GetSize(s: ElementSize): (r: nat)
    ensures s.Default? ==> s == Default(r)
    ensures s.Custom? ==> s == Custom(r)
  {
    match s
    case Default(n) => n
    case Custom(n) => n
  }

  /** The size after `try_set_size(n)`. */
  function TrySet(s: ElementSize, n: nat): ElementSize
  {
    if s.Default? then Default(n) else s
  }

  /** `try_set_size` keeps the variant; on a default size it makes `get_size` return
      the new size, and on a custom size it changes nothing. Setting twice is the same
      as setting the second size once, so in particular it is idempotent. */
  lemma TrySetLaws(s: ElementSize, m: nat, n: nat)
    ensures TrySet(s, n).Default? == s.Default?
    ensures s.Default? ==> GetSize(TrySet(s, n)) == n
    ensures s.Custom? ==> TrySet(s, n) == s
    ensures TrySet(TrySet(s, m), n) == TrySet(s, n)
    ensures TrySet(TrySet(s, n), n) == TrySet(s, n)
  {
  }

  /** A size slot (`&mut ElementSize`) that `try_set_size` assigns through. */
  class SizeSlot {
    var size: ElementSize

    constructor (s: ElementSize)
      ensures size == s
    {
      size := s;
    }

    /** `try_set_size`. */
    method TrySetSize(n: nat)
      modifies this
      ensures size == TrySet(old(size), n)
    {
      if size.Default? {
        size := Default(n);
      }
    }
  }
}
