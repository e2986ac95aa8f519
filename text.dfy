/** Character search and `String.prototype.split` with a one-character separator. */
module Text {

  /** Position of the first occurrence of c in s, or |s| when c does not occur. */
  function IndexOf(s: string, c: char): (k: nat)
    ensures k <= |s| && c !in s[..k]
    ensures k < |s| ==> s[k] == c
    ensures k == |s| <==> c !in s
    decreases |s|
  {
    if s == [] then 0
    else if s[0] == c then 0
    else
      var k := 1 + IndexOf(s[1..], c);
      assert s[..k] == [s[0]] + s[1..][..k - 1];
      k
  }

  /** A character absent from a, found at the start of b, is first found at |a| in a + b. */
  lemma IndexOfAfter(a: string, b: string, c: char)
    requires c !in a
    requires b == [] || b[0] == c
    ensures IndexOf(a + b, c) == |a| && (a + b)[..|a|] == a
  {
    assert (a + b)[..|a|] == a;
  }

  /** The pieces put back together with the separator between neighbours. */
  function Join(parts: seq<string>, sep: char): string
    requires |parts| > 0
  {
    if |parts| == 1 then parts[0] else parts[0] + [sep] + Join(parts[1..], sep)
  }

  /**
   * `s.split(sep)`: the maximal separator-free pieces of s, in order. There is
   * always at least one piece (the empty string splits into [""]), the first
   * piece is the text before the first separator, and joining the pieces
   * gives back s.
   */
  function Split(s: string, sep: char): (parts: seq<string>)
    ensures |parts| > 0
    ensures forall i :: 0 <= i < |parts| ==> sep !in parts[i]
    ensures parts[0] == s[..IndexOf(s, sep)]
    ensures Join(parts, sep) == s
    decreases |s|
  {
    var k := IndexOf(s, sep);
    if k == |s| then
      [s]
    else
      var tail := Split(s[k + 1..], sep);
      var parts := [s[..k]] + tail;
      assert parts[1..] == tail;
      assert Join(parts, sep) == s[..k] + [sep] + s[k + 1..];
      assert s == s[..k] + [sep] + s[k + 1..];
      assert forall i :: 1 <= i < |parts| ==> parts[i] == tail[i - 1];
      parts
  }

  /** Splitting undoes joining when no piece contains the separator. */
  lemma {:induction false} SplitJoin(parts: seq<string>, sep: char)
    requires |parts| > 0
    requires forall i :: 0 <= i < |parts| ==> sep !in parts[i]
    ensures Split(Join(parts, sep), sep) == parts
    decreases |parts|
  {
    var s := Join(parts, sep);
    if |parts| == 1 {
      assert IndexOf(s, sep) == |s|;
    } else {
      var rest := Join(parts[1..], sep);
      assert s == parts[0] + [sep] + rest;
      assert sep !in parts[0];
      assert IndexOf(s, sep) == |parts[0]| by {
        assert s[..|parts[0]|] == parts[0];
        assert s[|parts[0]|] == sep;
      }
      assert s[|parts[0]| + 1..] == rest;
      SplitJoin(parts[1..], sep);
      assert s[..|parts[0]|] == parts[0];
      assert Split(s, sep) == [parts[0]] + parts[1..];
    }
  }
}
