/** The small part of Go's `strings` package the plugin handler and the
    completion helper rely on, over `string` = `seq<char>`. */
module Text {

  /** `strings.HasPrefix(s, p)`. */
  predicate HasPrefix(s: string, p: string)
  {
    |p| <= |s| && s[..|p|] == p
  }

  /** `strings.Replace(s, [c], [d], -1)`: every occurrence of `c` becomes `d`. */
  function ReplaceChar(s: string, c: char, d: char): (r: string)
    ensures |r| == |s|
    ensures forall i :: 0 <= i < |s| ==> r[i] == (if s[i] == c then d else s[i])
  {
    if |s| == 0 then ""
    else [if s[0] == c then d else s[0]] + ReplaceChar(s[1..], c, d)
  }

  /** `strings.Join(ts, sep)`. */
  function Join(ts: seq<string>, sep: string): string
  {
    if |ts| == 0 then ""
    else if |ts| == 1 then ts[0]
    else ts[0] + sep + Join(ts[1..], sep)
  }

  /** Position of the first `c` in `s`. */
  function IndexOf(s: string, c: char): (i: nat)
    requires c in s
    ensures i < |s| && s[i] == c
    ensures forall k :: 0 <= k < i ==> s[k] != c
  {
    if s[0] == c then 0
    else
      assert c in s[1..] by { assert s == [s[0]] + s[1..]; }
      1 + IndexOf(s[1..], c)
  }

  /** `strings.Split(s, [c])`: the maximal `c`-free pieces of `s`, in order.
      Like Go, the empty string splits into one empty piece. */
  function Split(s: string, c: char): (r: seq<string>)
    ensures |r| >= 1
    ensures forall t :: t in r ==> c !in t
    decreases |s|
  {
    if c !in s then [s]
    else
      var i := IndexOf(s, c);
      [s[..i]] + Split(s[i + 1..], c)
  }

  /** A separator-free piece followed by the separator splits off first. */
  lemma SplitAfterPiece(a: string, rest: string, c: char)
    requires c !in a
    ensures Split(a + [c] + rest, c) == [a] + Split(rest, c)
  {
    var s := a + [c] + rest;
    assert s[|a|] == c;
    assert forall k :: 0 <= k < |a| ==> s[k] == a[k];
    var i := IndexOf(s, c);
    assert i == |a|;
    assert s[..i] == a;
    assert s[i + 1..] == rest;
  }

  /** Splitting undoes joining, as long as no piece contains the separator
      and there is at least one piece. */
  lemma {:induction false} SplitJoin(ts: seq<string>, c: char)
    requires |ts| >= 1
    requires forall t :: t in ts ==> c !in t
    ensures Split(Join(ts, [c]), c) == ts
  {
    var head := ts[0];
    assert head in ts;
    if |ts| == 1 {
      assert Join(ts, [c]) == head;
    } else {
      var tail := ts[1..];
      assert forall t :: t in tail ==> t in ts;
      SplitJoin(tail, c);
      var joined := Join(tail, [c]);
      assert Join(ts, [c]) == head + [c] + joined;
      SplitAfterPiece(head, joined, c);
      assert ts == [head] + tail;
    }
  }

  /** Joining non-empty lists of separator-free pieces is injective. */
  lemma JoinInjective(a: seq<string>, b: seq<string>, c: char)
    requires |a| >= 1 && |b| >= 1
    requires forall t :: t in a ==> c !in t
    requires forall t :: t in b ==> c !in t
    ensures Join(a, [c]) == Join(b, [c]) <==> a == b
  {
    SplitJoin(a, c);
    SplitJoin(b, c);
  }
}
