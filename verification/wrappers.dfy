/** Optional values: the model's stand-in for Java's `null`. */
module Wrappers {

  /** `None` plays the part of a Java `null` return. */
  datatype Option<+T> = None | Some(value: T) {

    /** Returns the wrapped value, or `default` when there is none. */
    function GetOr(default: T): T {
      match this
      case Some(v) => v
      case None => default
    }
  }

  /** The values carried by the `Some` entries of `rs`, in order. */
  function Somes<T>(rs: seq<Option<T>>): (vs: seq<T>)
    ensures |vs| <= |rs|
  {
    if |rs| == 0 then []
    else (if rs[0].Some? then [rs[0].value] else []) + Somes(rs[1..])
  }

  lemma {:induction false} SomesAppend<T>(a: seq<Option<T>>, b: seq<Option<T>>)
    ensures Somes(a + b) == Somes(a) + Somes(b)
  {
    if |a| == 0 {
      assert a + b == b;
    } else {
      var head := if a[0].Some? then [a[0].value] else [];
      assert (a + b)[0] == a[0];
      assert (a + b)[1..] == a[1..] + b;
      SomesAppend(a[1..], b);
      calc {
        Somes(a + b);
        head + Somes(a[1..] + b);
        head + (Somes(a[1..]) + Somes(b));
        (head + Somes(a[1..])) + Somes(b);
        Somes(a) + Somes(b);
      }
    }
  }
}
