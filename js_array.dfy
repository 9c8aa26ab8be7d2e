/** The part of JavaScript's `Array.prototype.splice` that the to-do list uses:
    `splice(start, 1)`, which removes at most one element. */
module JsArray {

  /** Where `splice` starts removing: a negative `start` counts back from the end
      (and stops at the first element), a start past the end is clamped to the length. */
  function ActualStart(start: int, len: nat): (k: nat)
    ensures k <= len
  {
    if start < 0 then (if len + start < 0 then 0 else len + start)
    else if start < len then start
    else len
  }

  /** The array left behind by `a.splice(start, 1)`. */
  function SpliceOne<T>(s: seq<T>, start: int): (r: seq<T>)
    ensures 0 <= start < |s| ==> |r| == |s| - 1
    ensures 0 <= start < |s| ==> forall j :: 0 <= j < start ==> r[j] == s[j]
    ensures 0 <= start < |s| ==> forall j :: start <= j < |r| ==> r[j] == s[j + 1]
    ensures 0 <= start < |s| ==> multiset(r) + multiset{s[start]} == multiset(s)
    ensures |s| <= start ==> r == s
  {
    var k := ActualStart(start, |s|);
    if k < |s| then
      assert s == s[..k] + [s[k]] + s[k + 1..];
      s[..k] + s[k + 1..]
    else s
  }

  /** A negative index counts from the end of the array: `splice(-n, 1)` is
      `splice(length - n, 1)`, and anything before the start means index 0. */
  lemma SpliceOneFromEnd<T>(s: seq<T>, start: int)
    requires start < 0
    ensures -|s| <= start ==> SpliceOne(s, start) == SpliceOne(s, |s| + start)
    ensures start < -|s| ==> SpliceOne(s, start) == SpliceOne(s, 0)
  {
  }
}
