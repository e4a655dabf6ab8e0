/**
 Joining a list of tokens with single spaces (the normalisation `add` applies to
 the words given on the command line) and its inverse, splitting on single spaces.
 Splitting follows the explicit-separator form: every space is a separator, so
 consecutive spaces yield empty tokens and the empty string splits into one empty token.
 */
module Text {

  /** A token that can be joined and split back unchanged. */
  predicate NoSpace(t: string) {
    ' ' !in t
  }

  /** Sum of the lengths of the tokens. */
  function TotalLength(tokens: seq<string>): nat {
    if |tokens| == 0 then 0 else |tokens[0]| + TotalLength(tokens[1..])
  }

  /** Number of space characters in a string. */
  function CountSpaces(s: string): nat {
    if |s| == 0 then 0 else (if s[0] == ' ' then 1 else 0) + CountSpaces(s[1..])
  }

  /** The tokens joined with one space between consecutive tokens. */
  function Join(tokens: seq<string>): (r: string)
    ensures |tokens| == 0 ==> r == []
    ensures |tokens| > 0 ==> |r| == TotalLength(tokens) + |tokens| - 1
    // the first token opens the text and the last token closes it: no padding at either end
    ensures |tokens| > 0 ==> tokens[0] <= r
    ensures |tokens| > 0 ==> |tokens[|tokens| - 1]| <= |r| && r[|r| - |tokens[|tokens| - 1]|..] == tokens[|tokens| - 1]
  {
    if |tokens| == 0 then []
    else if |tokens| == 1 then tokens[0]
    else
      var rest := Join(tokens[1..]);
      var r := tokens[0] + " " + rest;
      assert r[|r| - |rest|..] == rest;
      r
  }

  /** Position of the first space in `s`, or `|s|` when there is none. */
  function IndexOfSpace(s: string): (i: nat)
    ensures i <= |s|
    ensures i < |s| ==> s[i] == ' '
    ensures forall k :: 0 <= k < i ==> s[k] != ' '
    ensures i == |s| <==> NoSpace(s)
  {
    if |s| == 0 then 0
    else if s[0] == ' ' then 0
    else 1 + IndexOfSpace(s[1..])
  }

  /** The pieces of `s` between its spaces. */
  function Split(s: string): (r: seq<string>)
    ensures |r| >= 1
    ensures forall k :: 0 <= k < |r| ==> NoSpace(r[k])
    ensures |r| == CountSpaces(s) + 1
    decreases |s|
  {
    var i := IndexOfSpace(s);
    if i == |s| then
      NoSpaceCount(s);
      [s]
    else
      SpacesAround(s, i);
      [s[..i]] + Split(s[i + 1..])
  }

  lemma {:induction false} NoSpaceCount(s: string)
    requires NoSpace(s)
    ensures CountSpaces(s) == 0
    decreases |s|
  {
    if |s| > 0 {
      assert forall c :: c in s[1..] ==> c in s;
      NoSpaceCount(s[1..]);
    }
  }

  lemma {:induction false} CountSpacesAppend(a: string, b: string)
    ensures CountSpaces(a + b) == CountSpaces(a) + CountSpaces(b)
    decreases |a|
  {
    if |a| > 0 {
      assert (a + b)[1..] == a[1..] + b;
      CountSpacesAppend(a[1..], b);
    } else {
      assert a + b == b;
    }
  }

  /** Spaces of `s` are those before the first one at `i`, that one, and those after it. */
  lemma {:induction false} SpacesAround(s: string, i: nat)
    requires i < |s| && s[i] == ' '
    requires forall k :: 0 <= k < i ==> s[k] != ' '
    ensures CountSpaces(s) == 1 + CountSpaces(s[i + 1..])
  {
    assert s == s[..i] + [s[i]] + s[i + 1..];
    CountSpacesAppend(s[..i] + [s[i]], s[i + 1..]);
    CountSpacesAppend(s[..i], [s[i]]);
    assert NoSpace(s[..i]);
    NoSpaceCount(s[..i]);
  }

  /** Joining a token in front of a non-empty list puts one space after it. */
  lemma {:induction false} JoinCons(head: string, tail: seq<string>)
    requires |tail| >= 1
    ensures Join([head] + tail) == head + " " + Join(tail)
  {
    assert ([head] + tail)[1..] == tail;
  }

  /** Splitting at the first space: the piece before it, then the split of the rest. */
  lemma {:induction false} SplitAtFirstSpace(s: string)
    requires IndexOfSpace(s) < |s|
    ensures Split(s) == [s[..IndexOfSpace(s)]] + Split(s[IndexOfSpace(s) + 1..])
  {
  }

  /** Cutting `s` around the space at `i` and putting one space back restores `s`. */
  lemma {:induction false} Rejoin(s: string, i: nat)
    requires i < |s| && s[i] == ' '
    ensures s[..i] + " " + s[i + 1..] == s
  {
    assert [s[i]] == " ";
    assert s[..i] + [s[i]] + s[i + 1..] == s;
  }

  /** Splitting then joining gives back any string. */
  lemma {:induction false} JoinSplit(s: string)
    ensures Join(Split(s)) == s
    decreases |s|
  {
    var i := IndexOfSpace(s);
    if i < |s| {
      var rest := Split(s[i + 1..]);
      JoinSplit(s[i + 1..]);
      SplitAtFirstSpace(s);
      JoinCons(s[..i], rest);
      Rejoin(s, i);
    }
  }

  /** The first space of `head + " " + tail` is the one after `head`, when `head` has none. */
  lemma {:induction false} FirstSpaceAfterHead(head: string, tail: string)
    requires NoSpace(head)
    ensures IndexOfSpace(head + " " + tail) == |head|
  {
    var s := head + " " + tail;
    assert s[|head|] == ' ';
  }

  /** The two pieces around the joining space are the head and the tail. */
  lemma {:induction false} CutAfterHead(head: string, tail: string)
    ensures (head + " " + tail)[..|head|] == head
    ensures (head + " " + tail)[|head| + 1..] == tail
  {
  }

  /** Joining tokens that hold no space and splitting the result gives back the tokens. */
  lemma {:induction false} SplitJoin(tokens: seq<string>)
    requires |tokens| >= 1
    requires forall k :: 0 <= k < |tokens| ==> NoSpace(tokens[k])
    ensures Split(Join(tokens)) == tokens
  {
    if |tokens| > 1 {
      var head := tokens[0];
      var rest := tokens[1..];
      var tail := Join(rest);
      assert tokens == [head] + rest;
      JoinCons(head, rest);
      FirstSpaceAfterHead(head, tail);
      SplitAtFirstSpace(head + " " + tail);
      CutAfterHead(head, tail);
      SplitJoin(rest);
    }
  }

  /** Joined tokens without spaces carry exactly one space per gap between tokens. */
  lemma {:induction false} JoinSpaceCount(tokens: seq<string>)
    requires |tokens| >= 1
    requires forall k :: 0 <= k < |tokens| ==> NoSpace(tokens[k])
    ensures CountSpaces(Join(tokens)) == |tokens| - 1
  {
    SplitJoin(tokens);
  }
}
