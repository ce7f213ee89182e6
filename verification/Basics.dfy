/** Shared vocabulary: options, and the few operations on Go strings the model needs.
    A Go string or byte slice is a Dafny `string`; each character stands for one byte. */
module Basics {

  datatype Option<+T> = None | Some(value: T)

  predicate HasPrefix(s: string, p: string) {
    |p| <= |s| && s[..|p|] == p
  }

  /** The position of the first `c` in `s`, or `|s|` when there is none. */
  function IndexOf(s: string, c: char): (i: nat)
    ensures i <= |s|
    ensures i < |s| ==> s[i] == c
    ensures forall k | 0 <= k < i :: s[k] != c
  {
    if s == "" then 0
    else if s[0] == c then 0
    else 1 + IndexOf(s[1..], c)
  }

  /** strings.Cut for a one-character separator: the text around the first `c`. */
  function Cut(s: string, c: char): Option<(string, string)> {
    var i := IndexOf(s, c);
    if i == |s| then None else Some((s[..i], s[i + 1..]))
  }

  lemma CutFirst(k: string, c: char, v: string)
    requires c !in k
    ensures Cut(k + [c] + v, c) == Some((k, v))
  {
    var s := k + [c] + v;
    var i := IndexOf(s, c);
    assert s[|k|] == c;
    assert i <= |k|;
    assert forall j | 0 <= j < |k| :: s[j] == k[j];
    assert s[..i] == k && s[i + 1..] == v;
  }

  /** What Cut finds: the text before and after the first `c`, if there is one. */
  lemma CutIff(s: string, c: char, k: string, v: string)
    ensures Cut(s, c) == None <==> c !in s
    ensures Cut(s, c) == Some((k, v)) <==> c !in k && s == k + [c] + v
  {
    var i := IndexOf(s, c);
    if c !in k && s == k + [c] + v {
      CutFirst(k, c, v);
    }
    if i < |s| {
      assert s[i] in s;
      assert s == s[..i] + [c] + s[i + 1..];
    }
  }

  predicate IsSpace(c: char) {
    c == ' ' || c == '\t' || c == '\n' || c == '\r' || c == 11 as char || c == 12 as char
  }

  function TrimLeft(s: string): string {
    if s != "" && IsSpace(s[0]) then TrimLeft(s[1..]) else s
  }

  function TrimRight(s: string): string {
    if s != "" && IsSpace(s[|s| - 1]) then TrimRight(s[..|s| - 1]) else s
  }

  /** strings.TrimSpace on ASCII white space. */
  function TrimSpace(s: string): string {
    TrimRight(TrimLeft(s))
  }

  /** No white space at either end. */
  predicate Trimmed(s: string) {
    s == "" || (!IsSpace(s[0]) && !IsSpace(s[|s| - 1]))
  }

  /** strings.Split for a one-character separator. */
  function Split(s: string, c: char): (parts: seq<string>)
    ensures |parts| > 0
    decreases |s|
  {
    var i := IndexOf(s, c);
    if i == |s| then [s] else [s[..i]] + Split(s[i + 1..], c)
  }

  function Join(parts: seq<string>, c: char): string {
    if parts == [] then ""
    else if |parts| == 1 then parts[0]
    else parts[0] + [c] + Join(parts[1..], c)
  }

  /** Splitting is the inverse of joining parts without the separator. */
  lemma {:induction false} SplitIff(s: string, c: char, parts: seq<string>)
    ensures Split(s, c) == parts <==> parts != [] && Join(parts, c) == s && forall i | 0 <= i < |parts| :: c !in parts[i]
    decreases |s|
  {
    SplitJoins(s, c);
    if parts != [] && Join(parts, c) == s && forall i | 0 <= i < |parts| :: c !in parts[i] {
      JoinSplits(parts, c);
    }
  }

  lemma {:induction false} SplitJoins(s: string, c: char)
    ensures Join(Split(s, c), c) == s
    ensures forall i | 0 <= i < |Split(s, c)| :: c !in Split(s, c)[i]
    decreases |s|
  {
    var i := IndexOf(s, c);
    if i < |s| {
      var rest := Split(s[i + 1..], c);
      SplitJoins(s[i + 1..], c);
      assert ([s[..i]] + rest)[1..] == rest;
      assert s == s[..i] + [c] + s[i + 1..];
    }
  }

  lemma {:induction false} JoinSplits(parts: seq<string>, c: char)
    requires parts != [] && forall i | 0 <= i < |parts| :: c !in parts[i]
    ensures Split(Join(parts, c), c) == parts
    decreases |parts|
  {
    var s := Join(parts, c);
    if |parts| == 1 {
      assert IndexOf(s, c) == |s|;
      assert parts == [s];
    } else {
      JoinSplits(parts[1..], c);
      CutFirst(parts[0], c, Join(parts[1..], c));
      assert parts == [parts[0]] + parts[1..];
    }
  }

  predicate AllSpace(s: string) {
    forall i | 0 <= i < |s| :: s[i] in {' ', '\t', '\n', '\r', 11 as char, 12 as char}
  }

  /** TrimSpace takes white space off both ends, and all of it. */
  lemma {:induction false} TrimMeans(s: string) returns (left: string, right: string)
    ensures s == left + TrimSpace(s) + right && AllSpace(left) && AllSpace(right)
    ensures var t := TrimSpace(s); t != "" ==> !AllSpace([t[0]]) && !AllSpace([t[|t| - 1]])
  {
    left := TrimLeftMeans(s);
    var t := TrimLeft(s);
    right := TrimRightMeans(t);
    var u := TrimRight(t);
    assert s == left + (u + right) == left + u + right;
    if u != "" {
      assert t[0] == u[0];
      SpaceIsSpace(u[0]);
      SpaceIsSpace(u[|u| - 1]);
    }
  }

  lemma SpaceIsSpace(c: char)
    ensures AllSpace([c]) <==> IsSpace(c)
  {
    assert [c][0] == c;
  }

  lemma {:induction false} TrimLeftMeans(s: string) returns (left: string)
    ensures s == left + TrimLeft(s) && AllSpace(left) && (TrimLeft(s) != "" ==> !IsSpace(TrimLeft(s)[0]))
  {
    left := "";
    if s != "" && IsSpace(s[0]) {
      left := TrimLeftMeans(s[1..]);
      left := [s[0]] + left;
    }
  }

  lemma {:induction false} TrimRightMeans(s: string) returns (right: string)
    ensures s == TrimRight(s) + right && AllSpace(right) && (TrimRight(s) != "" ==> !IsSpace(TrimRight(s)[|TrimRight(s)| - 1]))
  {
    right := "";
    if s != "" && IsSpace(s[|s| - 1]) {
      right := TrimRightMeans(s[..|s| - 1]);
      right := right + [s[|s| - 1]];
    }
  }

  /** Keep the entries of `s` that satisfy `p`, in order. */
  function Filter<T>(p: T -> bool, s: seq<T>): seq<T> {
    if s == [] then []
    else Filter(p, s[..|s| - 1]) + (if p(s[|s| - 1]) then [s[|s| - 1]] else [])
  }

  lemma Assoc3<T>(a: seq<T>, b: seq<T>, c: seq<T>)
    ensures a + b + c == a + (b + c)
  {
  }

  lemma Assoc4<T>(a: seq<T>, b: seq<T>, c: seq<T>, d: seq<T>)
    ensures a + b + c + d == a + (b + c + d)
  {
  }
}
