/** Definitions that several modules share. */
module Common {

  datatype Option<T> = None | Some(value: T)

  function Repeated<T>(x: T, n: nat): (s: seq<T>)
    ensures |s| == n
  {
    seq(n, _ => x)
  }

  // ----- text up to a separator -----

  ghost predicate Free(s: string, seps: set<char>) {
    forall i :: 0 <= i < |s| ==> s[i] !in seps
  }

  /** The length of the longest prefix without separator. */
  function Run(s: string, seps: set<char>): (n: nat)
    ensures n <= |s| && Free(s[..n], seps) && (n < |s| ==> s[n] in seps)
  {
    if s == "" || s[0] in seps then 0 else 1 + Run(s[1..], seps)
  }

  lemma {:induction false} RunOf(a: string, t: string, seps: set<char>)
    requires Free(a, seps) && (t == "" || t[0] in seps)
    ensures Run(a + t, seps) == |a|
  {
    if a == "" {
      assert a + t == t;
    } else {
      assert (a + t)[1..] == a[1..] + t;
      RunOf(a[1..], t, seps);
    }
  }
}
