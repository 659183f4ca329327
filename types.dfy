/** Failure-carrying values shared by every module: `Option` for Python's `None`,
    `Result` for a call that either returns or raises with a message. */
module Types {

  datatype Option<+T> = None | Some(value: T)

  datatype Result<+T> = Ok(value: T) | Err(error: string)

  /** Flattening a right-nested concatenation of four sequences onto `x`. */
  lemma Flatten4<T>(x: seq<T>, a: seq<T>, b: seq<T>, c: seq<T>, d: seq<T>)
    ensures x + (a + (b + (c + d))) == x + a + b + c + d
  {
    assert x + (a + (b + (c + d))) == (x + a) + (b + (c + d));
    assert (x + a) + (b + (c + d)) == (x + a + b) + (c + d);
  }

  /** Flattening a right-nested concatenation of five sequences onto `x`. */
  lemma Flatten5<T>(x: seq<T>, a: seq<T>, b: seq<T>, c: seq<T>, d: seq<T>, e: seq<T>)
    ensures x + (a + (b + (c + (d + e)))) == x + a + b + c + d + e
  {
    Flatten4(x, a, b, c, d + e);
  }

  /** Flattening a right-nested concatenation of seven sequences onto `x`. */
  lemma Flatten7<T>(x: seq<T>, a: seq<T>, b: seq<T>, c: seq<T>, d: seq<T>, e: seq<T>, f: seq<T>, g: seq<T>)
    ensures x + (a + (b + (c + (d + (e + (f + g)))))) == x + a + b + c + d + e + f + g
  {
    Flatten4(x, a, b, c, d + (e + (f + g)));
    Flatten4(x + a + b + c, d, e, f, g);
  }

  /** Concatenation is associative. */
  lemma Assoc<T>(a: seq<T>, b: seq<T>, c: seq<T>)
    ensures a + (b + c) == a + b + c
  {
  }

  /** Prepending one element to a concatenation. */
  lemma ConsAppend<T>(x: T, a: seq<T>, b: seq<T>)
    ensures [x] + (a + b) == ([x] + a) + b
  {
  }

  /** Regrouping a concatenation of four sequences to the right. */
  lemma Regroup<T>(a: seq<T>, b: seq<T>, c: seq<T>, d: seq<T>)
    ensures (a + b + c) + d == a + (b + (c + d))
  {
    assert (a + b + c) + d == (a + b) + (c + d);
  }
}
