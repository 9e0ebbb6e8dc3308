/** Small shared vocabulary. A byte string of the program is modelled as a `string`
    whose characters stand for its bytes (or UTF-16 code units). */
module Common {
  datatype Option<+T> = None | Some(value: T)

  type Byte = b: nat | b < 256

  /** The part of `s` before the first `c` (all of `s` when there is none). */
  function IndexOf(s: string, c: char): (i: nat)
    ensures i <= |s|
    ensures i < |s| ==> s[i] == c
    ensures c !in s[..i]
  {
    if s == [] || s[0] == c then 0 else
      var i := 1 + IndexOf(s[1..], c);
      assert s[..i] == [s[0]] + s[1..][..i - 1];
      i
  }

  predicate StartsWith(s: string, prefix: string) {
    |prefix| <= |s| && s[..|prefix|] == prefix
  }

  /** The search for `c` from `from` on: its first position, or the length of `s`. */
  method Find(s: string, c: char, from: nat) returns (at: nat)
    requires from <= |s|
    ensures at == from + IndexOf(s[from..], c)
  {
    at := from;
    while at < |s| && s[at] != c
      invariant from <= at <= |s| && from + IndexOf(s[from..], c) == at + IndexOf(s[at..], c)
    {
      assert s[at..][1..] == s[at + 1..];
      at := at + 1;
    }
  }
}
