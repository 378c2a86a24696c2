/** Python's negative-start slice `s[-n:]`, used for "keep the last n" throughout the backend. */
module PySlice {

  function Min(a: int, b: int): int { if a <= b then a else b }

  /** `s[-n:]` in Python.  For n > 0 this is the last min(n, |s|) elements; since `-0 == 0`,
      n == 0 gives the whole sequence; a negative n drops the first -n elements. */
  function Suffix<T>(s: seq<T>, n: int): (r: seq<T>)
    ensures n == 0 ==> r == s
    ensures n > 0 ==> |r| == Min(n, |s|)
    ensures n < 0 ==> |r| == |s| - Min(-n, |s|)
    ensures r == s[|s| - |r|..]
  {
    if n == 0 then s
    else if n > 0 then (if n <= |s| then s[|s| - n..] else s)
    else if -n <= |s| then s[-n..] else []
  }
}
