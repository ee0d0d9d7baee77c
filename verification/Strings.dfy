// String.split and Array.join on a one-character separator.
module Strings {

  function Split(s: string, c: char): (parts: seq<string>)
    ensures parts != []
  {
    if s == "" then [""]
    else
      var rest := Split(s[1..], c);
      if s[0] == c then [""] + rest else [[s[0]] + rest[0]] + rest[1..]
  }

  function Join(parts: seq<string>, c: char): string {
    if parts == [] then ""
    else if |parts| == 1 then parts[0]
    else parts[0] + [c] + Join(parts[1..], c)
  }

  lemma {:induction false} JoinUndoesSplit(s: string, c: char)
    ensures Join(Split(s, c), c) == s
  {
    if s != "" {
      var rest := Split(s[1..], c);
      JoinUndoesSplit(s[1..], c);
      if s[0] == c {
        assert Split(s, c)[1..] == rest;
      } else if |rest| > 1 {
        assert Split(s, c)[1..] == rest[1..];
        assert s == [s[0]] + (rest[0] + [c] + Join(rest[1..], c));
      }
    }
  }

  lemma {:induction false} SplitOfFree(s: string, c: char)
    requires c !in s
    ensures Split(s, c) == [s]
  {
    if s != "" {
      assert s[0] in s;
      SplitOfFree(s[1..], c);
      assert [s[0]] + s[1..] == s;
    }
  }

  lemma {:induction false} PartsAreFree(s: string, c: char)
    ensures forall part :: part in Split(s, c) ==> c !in part
  {
    if s != "" {
      PartsAreFree(s[1..], c);
      var rest := Split(s[1..], c);
      assert rest[0] in rest;
      forall part | part in Split(s, c) ensures c !in part {
        assert part in rest || part == "" || part == [s[0]] + rest[0];
      }
    }
  }

  // Splitting is a homomorphism: the separator between two strings separates
  // their parts.
  lemma {:induction false} SplitAtSeparator(a: string, b: string, c: char)
    ensures Split(a + [c] + b, c) == Split(a, c) + Split(b, c)
  {
    if a == "" {
      assert (a + [c] + b)[1..] == b;
    } else {
      assert (a + [c] + b)[1..] == a[1..] + [c] + b;
      SplitAtSeparator(a[1..], b, c);
    }
  }

  lemma {:induction false} JoinOfSum(left: seq<string>, right: seq<string>, c: char)
    requires left != [] && right != []
    ensures Join(left + right, c) == Join(left, c) + [c] + Join(right, c)
  {
    if |left| == 1 {
      assert (left + right)[1..] == right;
    } else {
      assert (left + right)[1..] == left[1..] + right;
      JoinOfSum(left[1..], right, c);
    }
  }

  lemma {:induction false} SplitUndoesJoin(parts: seq<string>, c: char)
    requires parts != [] && forall part :: part in parts ==> c !in part
    ensures Split(Join(parts, c), c) == parts
  {
    SplitOfFree(parts[0], c);
    if |parts| > 1 {
      SplitUndoesJoin(parts[1..], c);
      SplitAtSeparator(parts[0], Join(parts[1..], c), c);
    }
  }
}
