/** Strings the way Go treats them: compared element by element. */
module GoStrings {
  /** `a < b` in Go. */
  predicate Before(a: string, b: string)
    decreases |a|
  {
    if b == "" then false
    else if a == "" then true
    else a[0] < b[0] || (a[0] == b[0] && Before(a[1..], b[1..]))
  }

  lemma {:induction false} BeforeIsStrictOrder(a: string, b: string, c: string)
    ensures !(Before(a, b) && Before(b, a))
    ensures Before(a, b) || Before(b, a) || a == b
    ensures !Before(b, a) && !Before(c, b) ==> !Before(c, a)
    decreases |a|
  {
    if a != "" && b != "" {
      BeforeIsStrictOrder(a[1..], b[1..], if c == "" then c else c[1..]);
      assert a == [a[0]] + a[1..] && b == [b[0]] + b[1..];
    }
  }

  /** A common prefix does not change a comparison. */
  lemma {:induction false} BeforeAfterPrefix(prefix: string, a: string, b: string)
    ensures Before(prefix + a, prefix + b) == Before(a, b)
    decreases |prefix|
  {
    if prefix == "" {
      assert prefix + a == a && prefix + b == b;
    } else {
      assert (prefix + a)[1..] == prefix[1..] + a && (prefix + b)[1..] == prefix[1..] + b;
      BeforeAfterPrefix(prefix[1..], a, b);
    }
  }
}
